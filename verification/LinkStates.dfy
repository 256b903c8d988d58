/**
  Link states, advertisements and the rule that decides what a router does with
  a received advertisement (lsd/lsd_utils.c).
 */
module LinkStates {

  /** An interface of a router; `peer` in a topology names the far end. */
  datatype Eth = Eth(rt: nat, ifid: nat)

  datatype Key = Key(rt: nat, ifid: nat, nrt: nat, nif: nat)

  datatype Info = Info(addr: nat, metric: nat, state: nat)

  /** A link state advertisement, as carried in packets and flood queues. */
  datatype Lsa = Lsa(key: Key, info: Info, num: nat)

  /** A database entry; `age` is the clock reading, in microseconds, of its last write. */
  datatype Entry = Entry(info: Info, num: nat, age: int)

  type Db = map<Key, Entry>

  const LSDB_LINK_FRESH_TIME := 10000000

  /** The difference is read as an unsigned number, so a clock that went back also makes it large. */
  predicate OutOfDate(e: Entry, now: int) {
    now - e.age < 0 || now - e.age > LSDB_LINK_FRESH_TIME * 15 / 10
  }

  /** An entry lasts fifteen seconds from its last write. */
  lemma OutOfDateIs(e: Entry, now: int)
    ensures OutOfDate(e, now) <==> !(e.age <= now <= e.age + 15000000)
  {
  }

  /** What is known of the key is older than l, or too old to count. */
  predicate IsNews(db: Db, l: Lsa, now: int) {
    l.key !in db || OutOfDate(db[l.key], now) || db[l.key].num < l.num
  }

  /** The next number of a link of the router's own: one more than before, or the first. */
  function NextNumber(db: Db, k: Key): (n: nat)
    ensures k in db ==> n == db[k].num + 1
    ensures k !in db ==> n == 1
  {
    if k in db then db[k].num + 1 else 1
  }

  function ToLsa(k: Key, e: Entry): Lsa {
    Lsa(k, e.info, e.num)
  }

  function ToEntry(l: Lsa, now: int): Entry {
    Entry(l.info, l.num, now)
  }

  /** What is flooded as a consequence: nothing, to every other interface, or back to the sender. */
  datatype Reaction = Silent | Forward(lsa: Lsa) | Back(lsa: Lsa)

  datatype Outcome = Outcome(db: Db, reaction: Reaction)

  /** accept_lsa_into_lsdb with check_local_lsdb inlined. */
  function Accept(db: Db, self: nat, l: Lsa, now: int): Outcome {
    if l.key.rt == self then
      if l.key in db && db[l.key].num != l.num then
        Outcome(db, Back(ToLsa(l.key, db[l.key])))
      else
        Outcome(db, Silent)
    else if l.key !in db || OutOfDate(db[l.key], now) || db[l.key].num < l.num then
      Outcome(db[l.key := ToEntry(l, now)], Forward(l))
    else if l.num < db[l.key].num then
      Outcome(db, Back(ToLsa(l.key, db[l.key])))
    else
      Outcome(db, Silent)
  }

  /** The router knows the advertised link at least as recently as `l` says. */
  predicate Holds(db: Db, l: Lsa) {
    l.key in db && l.num <= db[l.key].num
  }

  predicate AllHeld(db: Db, ls: seq<Lsa>) {
    forall i :: 0 <= i < |ls| ==> Holds(db, ls[i])
  }

  /** `later` has lost no key and no sequence number of `earlier`. */
  predicate Monotone(earlier: Db, later: Db) {
    forall k :: k in earlier ==> k in later && earlier[k].num <= later[k].num
  }

  /** No entry learnt from another router is past its freshness limit. */
  predicate Fresh(db: Db, self: nat, now: int) {
    forall k :: k in db && k.rt != self ==> !OutOfDate(db[k], now)
  }
}
