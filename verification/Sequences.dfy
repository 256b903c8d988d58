/** Sequences as lists: elements that do not repeat, and one element cut out or spliced in. */
module Sequences {

  predicate NoRepeat<T(==)>(s: seq<T>) {
    forall i, j :: 0 <= i < j < |s| ==> s[i] != s[j]
  }

  ghost function Cut<T>(s: seq<T>, i: nat): (r: seq<T>)
    requires i < |s|
    ensures |r| == |s| - 1
  {
    s[..i] + s[i + 1..]
  }

  ghost function Splice<T>(s: seq<T>, i: nat, t: T): (r: seq<T>)
    requires i <= |s|
    ensures |r| == |s| + 1
  {
    s[..i] + [t] + s[i..]
  }

  /** A sequence without one of its elements; the others keep their order. */
  function Without<T(==)>(s: seq<T>, t: T): seq<T> {
    if s == [] then []
    else if s[0] == t then Without(s[1..], t)
    else [s[0]] + Without(s[1..], t)
  }

  lemma {:induction false} WithoutMembers<T>(s: seq<T>, t: T)
    ensures forall x :: x in Without(s, t) <==> x in s && x != t
  {
    if s != [] {
      WithoutMembers(s[1..], t);
    }
  }

  lemma {:induction false} WithoutAbsent<T>(s: seq<T>, t: T)
    requires t !in s
    ensures Without(s, t) == s
  {
    if s != [] {
      WithoutAbsent(s[1..], t);
    }
  }

  lemma {:induction false} WithoutAt<T>(s: seq<T>, i: nat)
    requires NoRepeat(s) && i < |s|
    ensures Without(s, s[i]) == Cut(s, i)
  {
    if i == 0 {
      WithoutAbsent(s[1..], s[0]);
    } else {
      WithoutAt(s[1..], i - 1);
      assert s[1..][i - 1] == s[i];
      assert s[..i] + s[i + 1..] == [s[0]] + (s[1..][..i - 1] + s[1..][i..]);
    }
  }

  lemma NoRepeatAfterCut<T>(s: seq<T>, i: nat)
    requires NoRepeat(s) && i < |s|
    ensures NoRepeat(Cut(s, i))
  {
  }

  lemma NoRepeatAfterSplice<T>(s: seq<T>, i: nat, t: T)
    requires NoRepeat(s) && t !in s && i <= |s|
    ensures NoRepeat(Splice(s, i, t))
  {
  }

  /** The parts one after the other. */
  function Concat<T>(parts: seq<seq<T>>): seq<T> {
    if parts == [] then [] else Concat(parts[..|parts| - 1]) + parts[|parts| - 1]
  }

  lemma {:induction false} InConcat<T>(parts: seq<seq<T>>, x: T)
    requires x in Concat(parts)
    ensures exists i :: 0 <= i < |parts| && x in parts[i]
    decreases |parts|
  {
    var n := |parts| - 1;
    if x !in parts[n] {
      InConcat(parts[..n], x);
      var i :| 0 <= i < |parts[..n]| && x in parts[..n][i];
      assert x in parts[i];
    }
  }

  lemma {:induction false} ConcatPrefix<T>(parts: seq<seq<T>>, n: nat)
    requires n <= |parts|
    ensures Concat(parts[..n]) <= Concat(parts)
    decreases |parts|
  {
    if n == |parts| {
      assert parts[..n] == parts;
    } else {
      ConcatPrefix(parts[..|parts| - 1], n);
      assert parts[..|parts| - 1][..n] == parts[..n];
    }
  }

  /** x stands before y in the list. */
  ghost predicate Precedes<T>(s: seq<T>, x: T, y: T) {
    exists a, b :: 0 <= a < b < |s| && s[a] == x && s[b] == y
  }

  /** What was picked out of a list stands in the order of the list. */
  ghost predicate PickedFrom<T>(s: seq<T>, r: seq<T>) {
    forall i, j :: 0 <= i < j < |r| ==> Precedes(s, r[i], r[j])
  }

  lemma OneMorePicked<T>(s: seq<T>, r: seq<T>, x: T)
    requires PickedFrom(s, r) && forall y :: y in r ==> y in s
    ensures PickedFrom(s + [x], r) && PickedFrom(s + [x], r + [x])
  {
    var q, n := r + [x], |s|;
    forall i, j | 0 <= i < j < |q|
      ensures Precedes(s + [x], q[i], q[j])
    {
      if j < |r| {
        assert Precedes(s, r[i], r[j]);
        var a, b :| 0 <= a < b < n && s[a] == r[i] && s[b] == r[j];
        assert (s + [x])[a] == q[i] && (s + [x])[b] == q[j];
      } else {
        assert r[i] in s;
        var a :| 0 <= a < n && s[a] == r[i];
        assert (s + [x])[a] == q[i] && (s + [x])[n] == q[j];
      }
    }
    assert forall i :: 0 <= i < |r| ==> q[i] == r[i];
  }

  lemma NothingPicked<T>(s: seq<T>)
    ensures PickedFrom(s, [])
  {
  }

  function Sum(xs: seq<nat>): nat {
    if xs == [] then 0 else Sum(xs[..|xs| - 1]) + xs[|xs| - 1]
  }

  /** These two fix the sum: that of one number, and that of two parts. */
  lemma SumOne(x: nat)
    ensures Sum([]) == 0 && Sum([x]) == x
  {
    assert [x][..0] == [];
  }

  lemma {:induction false} SumConcat(xs: seq<nat>, ys: seq<nat>)
    ensures Sum(xs + ys) == Sum(xs) + Sum(ys)
    decreases |ys|
  {
    if ys == [] {
      assert xs + ys == xs;
    } else {
      var n := |ys| - 1;
      SumConcat(xs, ys[..n]);
      assert (xs + ys)[..|xs + ys| - 1] == xs + ys[..n];
    }
  }

  /** A sum of smaller numbers is smaller, and the same only if the numbers are. */
  lemma {:induction false} SumCompare(xs: seq<nat>, ys: seq<nat>)
    requires |xs| == |ys| && forall i :: 0 <= i < |xs| ==> xs[i] <= ys[i]
    ensures Sum(xs) <= Sum(ys)
    ensures Sum(xs) == Sum(ys) <==> xs == ys
    decreases |xs|
  {
    if xs != [] {
      var n := |xs| - 1;
      SumCompare(xs[..n], ys[..n]);
      assert xs == xs[..n] + [xs[n]] && ys == ys[..n] + [ys[n]];
    }
  }

  lemma {:induction false} SumNothing(xs: seq<nat>)
    requires forall i :: 0 <= i < |xs| ==> xs[i] == 0
    ensures Sum(xs) == 0
    decreases |xs|
  {
    if xs != [] {
      SumNothing(xs[..|xs| - 1]);
    }
  }

  lemma {:induction false} SumHas(xs: seq<nat>, i: nat)
    requires i < |xs|
    ensures xs[i] <= Sum(xs)
    decreases |xs|
  {
    if i < |xs| - 1 {
      SumHas(xs[..|xs| - 1], i);
    }
  }

  function Members<T(==)>(s: seq<T>): set<T> {
    set x | x in s
  }

  lemma SpliceMembers<T>(s: seq<T>, i: nat, t: T)
    requires i <= |s|
    ensures forall x :: x in Splice(s, i, t) <==> x == t || x in s
  {
  }

  lemma AppendIsSplice<T>(s: seq<T>, t: T)
    ensures s + [t] == Splice(s, |s|, t)
  {
  }
}
