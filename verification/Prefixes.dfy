/**
  Address prefixes: byte-and-mask comparisons (lib/prefix.c) and the common prefix
  of two prefixes (lib/table.c) against their meaning on bits.
 */
module Prefixes {

  /** `bytes` is the whole address of the family; the first `len` bits count. */
  datatype Prefix = Prefix(bytes: seq<bv8>, len: nat)

  predicate Valid(p: Prefix) {
    p.len <= 8 * |p.bytes|
  }

  const MASKBIT: seq<bv8> := [0x00, 0x80, 0xc0, 0xe0, 0xf0, 0xf8, 0xfc, 0xfe, 0xff]

  /** Bit i of a byte, the most significant first. */
  function ByteBit(b: bv8, i: nat): bool
    requires i < 8
  {
    (b >> (7 - i)) & 1 == 1
  }

  /** Bit i of the address, inside the prefix or not. */
  function Bit(p: Prefix, i: nat): bool
    requires i < 8 * |p.bytes|
  {
    ByteBit(p.bytes[i / 8], i % 8)
  }

  /** The bits that count. */
  function Bits(p: Prefix): (s: seq<bool>)
    requires Valid(p)
    ensures |s| == p.len && forall i :: 0 <= i < p.len ==> s[i] == Bit(p, i)
  {
    seq(p.len, i requires 0 <= i < p.len => Bit(p, i))
  }

  /** Bits count from the most significant one: where two bytes first differ, the greater has the one. */
  lemma GreaterHasTheOne(a: bv8, b: bv8, k: nat)
    requires k < 8 && ByteBit(a, k) && !ByteBit(b, k) && forall i :: 0 <= i < k ==> ByteBit(a, i) == ByteBit(b, i)
    ensures a > b
  {
    if k > 0 { assert ByteBit(a, 0) == ByteBit(b, 0); }
    if k > 1 { assert ByteBit(a, 1) == ByteBit(b, 1); }
    if k > 2 { assert ByteBit(a, 2) == ByteBit(b, 2); }
    if k > 3 { assert ByteBit(a, 3) == ByteBit(b, 3); }
    if k > 4 { assert ByteBit(a, 4) == ByteBit(b, 4); }
    if k > 5 { assert ByteBit(a, 5) == ByteBit(b, 5); }
    if k > 6 { assert ByteBit(a, 6) == ByteBit(b, 6); }
  }

  lemma SameByte(a: bv8, b: bv8)
    ensures a == b <==> forall i :: 0 <= i < 8 ==> ByteBit(a, i) == ByteBit(b, i)
  {
    if forall i :: 0 <= i < 8 ==> ByteBit(a, i) == ByteBit(b, i) {
      assert ByteBit(a, 0) == ByteBit(b, 0) && ByteBit(a, 1) == ByteBit(b, 1);
      assert ByteBit(a, 2) == ByteBit(b, 2) && ByteBit(a, 3) == ByteBit(b, 3);
      assert ByteBit(a, 4) == ByteBit(b, 4) && ByteBit(a, 5) == ByteBit(b, 5);
      assert ByteBit(a, 6) == ByteBit(b, 6) && ByteBit(a, 7) == ByteBit(b, 7);
    }
  }

  function MaskByte(b: bv8, n: nat): bv8
    requires n <= 8
  {
    b & MASKBIT[n]
  }

  /** The mask of n ones keeps the first n bits. */
  lemma MaskedBit(b: bv8, n: nat, i: nat)
    requires n <= 8 && i < 8
    ensures ByteBit(MaskByte(b, n), i) == (i < n && ByteBit(b, i))
  {
    MaskOnes(n, i);
    AndBit(b, MASKBIT[n], i);
  }

  lemma MaskOnes(n: nat, i: nat)
    requires n <= 8 && i < 8
    ensures ByteBit(MASKBIT[n], i) == (i < n)
  {
  }

  lemma AndBit(a: bv8, b: bv8, i: nat)
    requires i < 8
    ensures ByteBit(a & b, i) == (ByteBit(a, i) && ByteBit(b, i))
  {
    TestBit(a & b, i);
    TestBit(a, i);
    TestBit(b, i);
    AndTest(a, b, 0x80 >> i, i);
  }

  lemma AndTest(a: bv8, b: bv8, m: bv8, i: nat)
    requires i < 8 && m == 0x80 >> i
    ensures m & (a & b) != 0 <==> m & a != 0 && m & b != 0
  {
  }

  lemma XorBit(a: bv8, b: bv8, i: nat)
    requires i < 8
    ensures ByteBit(a ^ b, i) == (ByteBit(a, i) != ByteBit(b, i))
  {
    var s := 7 - i;
    assert (a ^ b) >> s == (a >> s) ^ (b >> s);
    XorLowBit(a >> s, b >> s);
  }

  lemma XorLowBit(a: bv8, b: bv8)
    ensures ((a ^ b) & 1 == 1) == ((a & 1 == 1) != (b & 1 == 1))
  {
  }

  /** Masking the difference of two bytes compares their first n bits. */
  lemma MaskedDifference(a: bv8, b: bv8, n: nat)
    requires n <= 8
    ensures MASKBIT[n] & (a ^ b) == 0 <==> forall i :: 0 <= i < n ==> ByteBit(a, i) == ByteBit(b, i)
  {
    var m := (a ^ b) & MASKBIT[n];
    assert m == MASKBIT[n] & (a ^ b);
    SameByte(m, 0);
    forall i | 0 <= i < 8
      ensures ByteBit(m, i) == (i < n && ByteBit(a, i) != ByteBit(b, i)) && !ByteBit(0, i)
    {
      MaskedBit(a ^ b, n, i);
      XorBit(a, b, i);
    }
  }

  /** Two addresses of one family agree on their first k bits. */
  predicate Agree(a: Prefix, b: Prefix, k: nat)
    requires |a.bytes| == |b.bytes| && k <= 8 * |a.bytes|
  {
    forall i :: 0 <= i < k ==> Bit(a, i) == Bit(b, i)
  }

  lemma CoversIsAgree(n: Prefix, p: Prefix)
    requires Valid(n) && Valid(p) && |n.bytes| == |p.bytes|
    ensures Bits(n) <= Bits(p) <==> n.len <= p.len && Agree(n, p, n.len)
  {
  }

  /** Agreement on 8q + s bits is q equal bytes and s equal bits of the next. */
  lemma AgreeByByte(a: Prefix, b: Prefix, q: nat, s: nat)
    requires |a.bytes| == |b.bytes| && s < 8 && 8 * q + s <= 8 * |a.bytes|
    ensures Agree(a, b, 8 * q + s) <==>
      && a.bytes[..q] == b.bytes[..q]
      && (s > 0 ==> forall i :: 0 <= i < s ==> ByteBit(a.bytes[q], i) == ByteBit(b.bytes[q], i))
  {
    hide ByteBit;
    if Agree(a, b, 8 * q + s) {
      forall k | 0 <= k < q
        ensures a.bytes[k] == b.bytes[k]
      {
        forall i | 0 <= i < 8
          ensures ByteBit(a.bytes[k], i) == ByteBit(b.bytes[k], i)
        {
          assert Bit(a, 8 * k + i) == Bit(b, 8 * k + i);
        }
        SameByte(a.bytes[k], b.bytes[k]);
      }
      forall i | 0 <= i < s
        ensures ByteBit(a.bytes[q], i) == ByteBit(b.bytes[q], i)
      {
        assert Bit(a, 8 * q + i) == Bit(b, 8 * q + i);
      }
    }
    if a.bytes[..q] == b.bytes[..q]
        && (s > 0 ==> forall i :: 0 <= i < s ==> ByteBit(a.bytes[q], i) == ByteBit(b.bytes[q], i)) {
      forall i | 0 <= i < 8 * q + s
        ensures Bit(a, i) == Bit(b, i)
      {
        if i / 8 < q {
          assert a.bytes[i / 8] == a.bytes[..q][i / 8] == b.bytes[..q][i / 8] == b.bytes[i / 8];
        }
      }
    }
  }

  /** The comparison of prefix_match and prefix_cmp: a partial byte under its mask, then whole bytes. */
  method SameBits(a: Prefix, b: Prefix, len: nat) returns (r: bool)
    requires |a.bytes| == |b.bytes| && len <= 8 * |a.bytes|
    ensures r <==> Agree(a, b, len)
  {
    hide ByteBit, Agree;
    var offset, shift := len / 8, len % 8;
    AgreeByByte(a, b, offset, shift);
    if shift != 0 {
      MaskedDifference(a.bytes[offset], b.bytes[offset], shift);
      if MASKBIT[shift] & (a.bytes[offset] ^ b.bytes[offset]) != 0 {
        return false;
      }
    }
    ghost var q := offset;
    while offset > 0
      invariant 0 <= offset <= q && a.bytes[offset..q] == b.bytes[offset..q]
    {
      offset := offset - 1;
      if a.bytes[offset] != b.bytes[offset] {
        assert a.bytes[..q][offset] != b.bytes[..q][offset];
        return false;
      }
      assert a.bytes[offset..q] == [a.bytes[offset]] + a.bytes[offset + 1..q];
      assert b.bytes[offset..q] == [b.bytes[offset]] + b.bytes[offset + 1..q];
    }
    return true;
  }

  /** prefix_match: n covers p. */
  method PrefixMatch(n: Prefix, p: Prefix) returns (r: bool)
    requires Valid(n) && Valid(p) && |n.bytes| == |p.bytes|
    ensures r <==> Bits(n) <= Bits(p)
  {
    CoversIsAgree(n, p);
    if n.len > p.len {
      return false;
    }
    r := SameBits(n, p, n.len);
  }

  /** prefix_cmp: 0 exactly when the two have the same family, told by its address size, length and counting bits. */
  method PrefixCmp(a: Prefix, b: Prefix) returns (r: int)
    requires Valid(a) && Valid(b)
    ensures r == if |a.bytes| == |b.bytes| && Bits(a) == Bits(b) then 0 else 1
  {
    if |a.bytes| != |b.bytes| || a.len != b.len {
      return 1;
    }
    CoversIsAgree(a, b);
    var same := SameBits(a, b, a.len);
    return if same then 0 else 1;
  }

  /** check_bit, for an address that is followed in memory by the byte `beyond`. */
  method CheckBit(p: Prefix, i: nat, beyond: bv8) returns (r: bool)
    requires i <= 8 * |p.bytes|
    ensures r == if i < 8 * |p.bytes| then Bit(p, i) else ByteBit(beyond, 0)
  {
    var memory := p.bytes + [beyond];
    var offset, shift := i / 8, 7 - i % 8;
    r := (memory[offset] >> shift) & 1 == 1;
  }

  /** `c` is the longest prefix of p whose bits n's address shares. */
  predicate IsCommon(n: Prefix, p: Prefix, c: Prefix)
    requires Valid(p) && |n.bytes| == |p.bytes|
  {
    && Valid(c) && |c.bytes| == |p.bytes| && c.len <= p.len
    && Agree(c, p, c.len) && Agree(n, p, c.len)
    && (c.len < p.len ==> Bit(n, c.len) != Bit(p, c.len))
  }

  lemma TestBit(d: bv8, k: nat)
    requires k < 8
    ensures (0x80 >> k) & d == 0 <==> !ByteBit(d, k)
  {
  }

  lemma NextMask(k: nat)
    requires k < 8
    ensures ((0x80 as bv8) >> k) >> 1 == (0x80 as bv8) >> (k + 1)
  {
  }

  /** How many leading bits two bytes share, up to `limit`. */
  method LeadingBits(a: bv8, b: bv8, limit: nat) returns (k: nat)
    requires a != b || limit < 8
    ensures k <= limit && k < 8
    ensures forall i :: 0 <= i < k ==> ByteBit(a, i) == ByteBit(b, i)
    ensures k < limit ==> ByteBit(a, k) != ByteBit(b, k)
  {
    hide ByteBit;
    var diff, mask: bv8 := a ^ b, 0x80;
    k := 0;
    SameByte(a, b);
    while k < limit && mask & diff == 0
      invariant 0 <= k <= limit && k < 8 && mask == 0x80 >> k
      invariant forall i :: 0 <= i < k ==> ByteBit(a, i) == ByteBit(b, i)
    {
      TestBit(diff, k);
      XorBit(a, b, k);
      NextMask(k);
      mask := mask >> 1;
      k := k + 1;
    }
    if k < limit {
      TestBit(diff, k);
      XorBit(a, b, k);
    }
  }

  /** route_common. */
  method RouteCommon(n: Prefix, p: Prefix) returns (c: Prefix)
    requires Valid(n) && Valid(p) && |n.bytes| == |p.bytes|
    ensures IsCommon(n, p, c)
  {
    hide ByteBit, Agree, MaskByte;
    var size := |p.bytes|;
    var bytes := seq(size, _ => 0 as bv8);
    var i := 0;
    while i < p.len / 8 && n.bytes[i] == p.bytes[i]
      invariant 0 <= i <= p.len / 8 && |bytes| == size
      invariant n.bytes[..i] == p.bytes[..i] == bytes[..i]
    {
      bytes := bytes[i := n.bytes[i]];
      i := i + 1;
    }
    var len := i * 8;
    if len != p.len {
      var k := LeadingBits(n.bytes[i], p.bytes[i], p.len - len);
      bytes := bytes[i := MaskByte(n.bytes[i], k)];
      len := len + k;
      forall b | 0 <= b < k
        ensures ByteBit(bytes[i], b) == ByteBit(p.bytes[i], b)
      {
        MaskedBit(n.bytes[i], k, b);
      }
      AgreeByByte(n, p, i, k);
      c := Prefix(bytes, len);
      AgreeByByte(c, p, i, k);
    } else {
      c := Prefix(bytes, len);
      AgreeByByte(n, p, i, 0);
      AgreeByByte(c, p, i, 0);
    }
  }

  /** The address with every bit from `len` on cleared. */
  predicate Masked(p: Prefix, q: Prefix)
    requires Valid(p)
  {
    && |q.bytes| == |p.bytes| && q.len == p.len
    && (forall i :: 0 <= i < 8 * |p.bytes| ==> Bit(q, i) == (i < p.len && Bit(p, i)))
  }

  /** Whole bytes kept, one cut, the rest cleared. */
  lemma MaskedBytes(a: seq<bv8>, b: seq<bv8>, len: nat)
    requires |a| == |b| && len <= 8 * |a|
    requires forall k :: 0 <= k < |a| ==>
      b[k] == if k < len / 8 then a[k] else if k == len / 8 then MaskByte(a[k], len % 8) else 0
    ensures Masked(Prefix(a, len), Prefix(b, len))
  {
    hide ByteBit;
    forall i | 0 <= i < 8 * |a|
      ensures ByteBit(b[i / 8], i % 8) == (i < len && ByteBit(a[i / 8], i % 8))
    {
      MaskedBit(a[i / 8], len % 8, i % 8);
      MaskedBit(0, 0, i % 8);
    }
  }

  /** apply_mask_ipv4 and apply_mask_ipv6, on an address of either size. */
  method ApplyMask(bytes: array<bv8>, len: nat)
    requires len <= 8 * bytes.Length
    modifies bytes
    ensures Masked(Prefix(old(bytes[..]), len), Prefix(bytes[..], len))
  {
    hide Masked, MaskByte;
    var index := len / 8;
    if index < bytes.Length {
      var offset := len % 8;
      bytes[index] := MaskByte(bytes[index], offset);
      index := index + 1;
      while index < bytes.Length
        invariant len / 8 < index <= bytes.Length
        invariant forall k :: 0 <= k < len / 8 ==> bytes[k] == old(bytes[k])
        invariant bytes[len / 8] == MaskByte(old(bytes[len / 8]), len % 8)
        invariant forall k :: len / 8 < k < index ==> bytes[k] == 0
      {
        bytes[index] := 0;
        index := index + 1;
      }
    }
    MaskedBytes(old(bytes[..]), bytes[..], len);
  }

  /** Masking twice is masking once, and covering does not look at masked bits. */
  lemma MaskingKeepsMeaning(p: Prefix, q: Prefix, r: Prefix, n: Prefix)
    requires Valid(p) && Masked(p, q) && Masked(q, r) && Valid(n) && |n.bytes| == |p.bytes|
    ensures r == q && Valid(q) && Bits(q) == Bits(p)
    ensures Bits(n) <= Bits(q) <==> Bits(n) <= Bits(p)
    ensures Bits(q) <= Bits(n) <==> Bits(p) <= Bits(n)
  {
    hide ByteBit;
    assert Agree(r, q, 8 * |q.bytes|);
    AgreeByByte(r, q, |q.bytes|, 0);
    assert r.bytes == r.bytes[..|q.bytes|] && q.bytes == q.bytes[..|q.bytes|];
  }

  /** Covering is a preorder on prefixes. */
  lemma CoveringIsPreorder(a: Prefix, b: Prefix, c: Prefix)
    requires Valid(a) && Valid(b) && Valid(c)
    ensures Bits(a) <= Bits(a)
    ensures Bits(a) <= Bits(b) && Bits(b) <= Bits(c) ==> Bits(a) <= Bits(c)
    ensures Bits(a) <= Bits(b) && Bits(b) <= Bits(a) ==> Bits(a) == Bits(b)
  {
  }
}
