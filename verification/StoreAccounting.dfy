/**
 The catalog's entries and what they are charged for: sums over all stores, and the order in
 which stores are given up. Store ids run from 0 to the next id, and the source's map iterates
 them in ascending order.
 */
module StoreAccounting {

  /** A conversation store. lane is -1 while it is parked; rows is 0 when nothing is committed. */
  datatype Entry = Entry(
    lane: int, busy: bool, switching: bool, refs: nat, used: nat, bytes: nat,
    client: Key, rows: nat, cold: bool,
    native: nat, reserved: nat, attachment: nat)
  {
    // What the payload budget is charged for this store.
    function Charge(): nat { Larger(native, reserved) + attachment }

    predicate Parked() { lane < 0 && !busy && !switching }
  }

  // A client key; NoKey is the empty string.
  datatype Key = NoKey | Named(name: string)

  type Entries = map<int, Entry>

  // What native calls report of a store.
  datatype Measure = Measure(rows: nat, bytes: nat, native: nat)

  function NewEntry(): (x: Entry)
    ensures x.lane == -1 && !x.busy && !x.switching && x.native == 0 && x.reserved == 0 && x.attachment == 0
  {
    Entry(-1, false, false, 0, 0, 0, NoKey, 0, false, 0, 0, 0)
  }

  function Larger(a: nat, b: nat): (m: nat)
    ensures m >= a && m >= b && (m == a || m == b)
  {
    if a < b then b else a
  }

  predicate Protected(x: Entry, waiting: set<Key>) { x.refs > 0 || (x.client != NoKey && x.client in waiting) }

  // Nobody pins the store or waits for its key.
  predicate Unwanted(x: Entry, waiting: set<Key>) { x.refs == 0 && (x.client == NoKey || x.client !in waiting) }

  function Charged(e: Entries, n: nat): nat {
    if n == 0 then 0 else Charged(e, n - 1) + (if n - 1 in e then e[n - 1].Charge() else 0)
  }

  function Bytes(e: Entries, n: nat): nat {
    if n == 0 then 0 else Bytes(e, n - 1) + (if n - 1 in e then e[n - 1].bytes else 0)
  }

  predicate Retained(x: Entry) { !x.busy && x.rows > 0 }

  function RetainedCount(e: Entries, n: nat): nat {
    if n == 0 then 0 else RetainedCount(e, n - 1) + (if n - 1 in e && Retained(e[n - 1]) then 1 else 0)
  }

  predicate Below(e: Entries, n: int) { forall id :: id in e ==> 0 <= id < n }

  // No store is charged more in a than in b.
  predicate NoDearer(a: Entries, b: Entries) {
    forall id :: id in a && a[id].Charge() > 0 ==> id in b && a[id].Charge() <= b[id].Charge()
  }

  lemma {:induction false} ChargedMonotone(a: Entries, b: Entries, n: nat)
    requires NoDearer(a, b)
    ensures Charged(a, n) <= Charged(b, n)
  {
    if n > 0 { ChargedMonotone(a, b, n - 1); }
  }

  lemma {:induction false} ChargedSplit(e: Entries, n: nat, id: int)
    requires id in e
    ensures Charged(e, n) == Charged(e - {id}, n) + (if 0 <= id < n then e[id].Charge() else 0)
    ensures var x := e[id]; x.Charge() == (if x.native < x.reserved then x.reserved else x.native) + x.attachment
  {
    if n > 0 { ChargedSplit(e, n - 1, id); }
  }

  // With ChargedSplit this makes the charge the sum of what each store is charged.
  lemma {:induction false} NothingCharged(e: Entries, n: nat)
    requires forall id :: id in e ==> e[id].native == e[id].reserved == e[id].attachment == 0
    ensures Charged(e, n) == 0
  {
    if n > 0 { NothingCharged(e, n - 1); }
  }

  lemma ChargedPut(e: Entries, n: nat, id: int, x: Entry)
    requires 0 <= id < n
    ensures Charged(e[id := x], n) == Charged(e - {id}, n) + x.Charge()
  {
    ChargedSplit(e[id := x], n, id);
    assert e[id := x] - {id} == e - {id};
  }

  lemma {:induction false} ChargedBeyond(e: Entries, n: nat, m: nat)
    requires n <= m && Below(e, n)
    ensures Charged(e, m) == Charged(e, n)
  {
    if n < m { ChargedBeyond(e, n, m - 1); }
  }

  /* ---------- Least recently used first ---------- */

  predicate Older(e: Entries, a: int, b: int)
    requires a in e && b in e
  {
    e[a].used < e[b].used || (e[a].used == e[b].used && a <= b)
  }

  // dropped is what a loop that always takes the oldest candidate has taken so far.
  predicate LruDropped(e: Entries, candidates: set<int>, dropped: set<int>) {
    && dropped <= candidates <= e.Keys
    && forall d, r :: d in dropped && r in candidates - dropped ==> Older(e, d, r)
  }

  predicate Oldest(e: Entries, candidates: set<int>, id: int) {
    id in candidates && candidates <= e.Keys && forall c :: c in candidates ==> Older(e, id, c)
  }

  lemma LruGrows(e: Entries, candidates: set<int>, dropped: set<int>, id: int)
    requires LruDropped(e, candidates, dropped) && Oldest(e, candidates - dropped, id)
    ensures LruDropped(e, candidates, dropped + {id})
  {
  }

  // One pass over the stores, as the source's for loops do it.
  method FindOldest(e: Entries, n: nat, candidates: set<int>) returns (victim: int)
    requires Below(e, n) && candidates <= e.Keys
    ensures candidates == {} <==> victim == -1
    ensures candidates != {} ==> Oldest(e, candidates, victim)
  {
    victim := -1;
    for id := 0 to n
      invariant victim == -1 ==> forall c :: c in candidates ==> c >= id
      invariant victim != -1 ==>
                  0 <= victim < id && victim in candidates &&
                  forall c :: c in candidates && c < id ==> Older(e, victim, c)
    {
      if id in candidates && (victim == -1 || e[id].used < e[victim].used) { victim := id; }
    }
    assert candidates != {} ==> exists c :: c in candidates && 0 <= c < n;
  }

  lemma {:induction false} BytesSplit(e: Entries, n: nat, id: int)
    requires id in e
    ensures Bytes(e, n) == Bytes(e - {id}, n) + (if 0 <= id < n then e[id].bytes else 0)
  {
    if n > 0 { BytesSplit(e, n - 1, id); }
  }

  lemma {:induction false} NothingRetained(e: Entries, n: nat)
    requires forall id :: id in e ==> e[id].busy || e[id].rows == 0
    ensures RetainedCount(e, n) == 0
  {
    if n > 0 { NothingRetained(e, n - 1); }
  }

  lemma {:induction false} NoStoreBytes(e: Entries, n: nat)
    requires forall id :: id in e ==> e[id].bytes == 0
    ensures Bytes(e, n) == 0
  {
    if n > 0 { NoStoreBytes(e, n - 1); }
  }

  lemma {:induction false} RetainedSplit(e: Entries, n: nat, id: int)
    requires id in e
    ensures RetainedCount(e, n) == RetainedCount(e - {id}, n) + (if 0 <= id < n && Retained(e[id]) then 1 else 0)
  {
    if n > 0 { RetainedSplit(e, n - 1, id); }
  }

  lemma RetainedPut(e: Entries, n: nat, id: int, x: Entry)
    requires id in e
    ensures RetainedCount(e[id := x], n) == RetainedCount(e - {id}, n) + (if 0 <= id < n && Retained(x) then 1 else 0)
  {
    RetainedSplit(e[id := x], n, id);
    assert e[id := x] - {id} == e - {id};
  }

  lemma {:induction false} RetainedMonotone(a: Entries, b: Entries, n: nat)
    requires forall id :: id in a && Retained(a[id]) ==> id in b && Retained(b[id])
    ensures RetainedCount(a, n) <= RetainedCount(b, n)
  {
    if n > 0 { RetainedMonotone(a, b, n - 1); }
  }
}
