/**
 Which conversation a request continues and which ones make room for it,
 tools/kvmem-conversation-store.h.
 */
module ConversationStore {

  datatype Limits = Limits(maxStores: int, maxBytes: nat, attached: int)

  /** A live store as one request sees it. client is empty unless the client named the conversation. */
  datatype Store = Store(id: int, lcp: int, rows: int, liveRow: int, lastGen: int, checkpoints: seq<int>, bytes: nat,
                         used: nat, client: string)

  function Min(a: int, b: int): int { if a < b then a else b }

  function Max(a: int, b: int): int { if a < b then b else a }

  function KeepCap(s: Store, evalEnd: int, spec: bool): int {
    Min(Min(s.lcp, s.liveRow), evalEnd - if spec then 0 else 1)
  }

  predicate Continuation(s: Store) { s.rows - s.lcp <= Max(0, s.lastGen) + 64 }

  /* ---------- Checkpoints ---------- */

  // keep is the largest of the rows at or below cap.
  predicate Largest(rows: seq<int>, cap: int, keep: int) {
    keep in rows && keep <= cap && forall i :: 0 <= i < |rows| && rows[i] <= cap ==> rows[i] <= keep
  }

  predicate NoneBelow(rows: seq<int>, cap: int) { forall i :: 0 <= i < |rows| ==> rows[i] > cap }

  function LargestBelow(rows: seq<int>, cap: int): (r: (bool, int))
    ensures if r.0 then Largest(rows, cap, r.1) else NoneBelow(rows, cap) && r.1 == 0
  {
    if rows == [] then (false, 0)
    else
      var k := |rows| - 1;
      var before := LargestBelow(rows[..k], cap);
      if rows[k] <= cap && (!before.0 || rows[k] > before.1) then (true, rows[k]) else before
  }

  method Checkpoint(s: Store, cap: int) returns (found: bool, keep: int)
    ensures (found, keep) == LargestBelow(s.checkpoints, cap)
  {
    found, keep := false, 0;
    for i := 0 to |s.checkpoints|
      invariant (found, keep) == LargestBelow(s.checkpoints[..i], cap)
    {
      assert s.checkpoints[..i + 1][..i] == s.checkpoints[..i];
      if s.checkpoints[i] <= cap && (!found || s.checkpoints[i] > keep) { found, keep := true, s.checkpoints[i]; }
    }
    assert s.checkpoints[..|s.checkpoints|] == s.checkpoints;
  }

  // Where a request could resume in a store: 0 when it cannot.
  function Resume(s: Store, evalEnd: int, spec: bool): int {
    var c := LargestBelow(s.checkpoints, KeepCap(s, evalEnd, spec));
    if c.0 && c.1 > 0 && Continuation(s) then c.1 else 0
  }

  /* ---------- Selection ---------- */

  function Named(stores: seq<Store>, client: string): (r: seq<Store>)
    ensures forall s :: s in r <==> s in stores && s.client == client
  {
    if stores == [] then [] else
      var rest := Named(stores[..|stores| - 1], client);
      var s := stores[|stores| - 1];
      if s.client == client then rest + [s] else rest
  }

  // A client id restricts the choice if some store has it, and is ignored otherwise.
  function Candidates(stores: seq<Store>, client: string): seq<Store> {
    if |client| > 0 && Named(stores, client) != [] then Named(stores, client) else stores
  }

  // Better to resume in s than in what has been chosen so far.
  predicate Improves(keep: int, used: nat, best: seq<Store>, evalEnd: int, spec: bool) {
    keep > 0 && (best == [] || keep > Resume(best[0], evalEnd, spec) ||
                 (keep == Resume(best[0], evalEnd, spec) && used > best[0].used))
  }

  // The choice, or nothing.
  function Best(candidates: seq<Store>, evalEnd: int, spec: bool): (best: seq<Store>)
    ensures |best| <= 1
  {
    if candidates == [] then []
    else
      var before := Best(candidates[..|candidates| - 1], evalEnd, spec);
      var s := candidates[|candidates| - 1];
      if Improves(Resume(s, evalEnd, spec), s.used, before, evalEnd, spec) then [s] else before
  }

  predicate AtLeast(a: Store, b: Store, evalEnd: int, spec: bool) {
    Resume(a, evalEnd, spec) > Resume(b, evalEnd, spec) ||
    (Resume(a, evalEnd, spec) == Resume(b, evalEnd, spec) && a.used >= b.used)
  }

  /** The choice resumes furthest, most recently used among equals and the first of those, and is none only if no
      candidate can resume. */
  lemma {:induction false} BestIsMaximal(candidates: seq<Store>, evalEnd: int, spec: bool)
    ensures var best := Best(candidates, evalEnd, spec);
            if best == [] then forall i :: 0 <= i < |candidates| ==> Resume(candidates[i], evalEnd, spec) == 0
            else && best[0] in candidates && Resume(best[0], evalEnd, spec) > 0
                 && (forall i :: 0 <= i < |candidates| ==> AtLeast(best[0], candidates[i], evalEnd, spec))
                 && exists i ::
                      && 0 <= i < |candidates| && candidates[i] == best[0]
                      && forall j :: 0 <= j < i ==> !AtLeast(candidates[j], best[0], evalEnd, spec)
  {
    hide Resume;
    if candidates != [] {
      var k := |candidates| - 1;
      BestIsMaximal(candidates[..k], evalEnd, spec);
      ResumeIsNotNegative(candidates[k], evalEnd, spec);
      var best := Best(candidates, evalEnd, spec);
      if best != [] {
        var before := Best(candidates[..k], evalEnd, spec);
        if before != [] && best == before {
          var i :| 0 <= i < k && candidates[..k][i] == before[0] &&
          forall j :: 0 <= j < i ==> !AtLeast(candidates[..k][j], before[0], evalEnd, spec);
          assert candidates[i] == best[0];
          assert forall j :: 0 <= j < i ==> candidates[..k][j] == candidates[j];
        } else {
          assert candidates[k] == best[0];
          assert forall j :: 0 <= j < k ==> candidates[..k][j] == candidates[j];
        }
      }
    }
  }

  lemma ResumeIsNotNegative(s: Store, evalEnd: int, spec: bool)
    ensures Resume(s, evalEnd, spec) >= 0
  {
  }

  /** A request resumes in a store exactly at its largest checkpoint row within the matched prefix, the live rows and
      what the request evaluates, where one row is kept back unless it speculates; and only in a continuation. */
  lemma ResumesAtACheckpoint(s: Store, evalEnd: int, spec: bool, keep: int)
    requires keep > 0
    ensures var end := if spec then evalEnd else evalEnd - 1;
            Resume(s, evalEnd, spec) == keep <==>
              && keep in s.checkpoints && keep <= s.lcp && keep <= s.liveRow && keep <= end
              && s.rows - s.lcp <= Max(0, s.lastGen) + 64
              && forall row ::
                   row in s.checkpoints && row <= s.lcp && row <= s.liveRow && row <= end ==> row <= keep
  {
    var c := LargestBelow(s.checkpoints, KeepCap(s, evalEnd, spec));
    hide LargestBelow;
    assert c.0 ==> c.1 in s.checkpoints;
  }

  // It resumes nowhere exactly if there is no such row.
  lemma ResumesNowhere(s: Store, evalEnd: int, spec: bool)
    ensures var end := if spec then evalEnd else evalEnd - 1;
            Resume(s, evalEnd, spec) == 0 <==>
              s.rows - s.lcp > Max(0, s.lastGen) + 64 ||
              forall row :: row in s.checkpoints && row <= s.lcp && row <= s.liveRow && row <= end ==> row <= 0
  {
    var c := LargestBelow(s.checkpoints, KeepCap(s, evalEnd, spec));
    hide LargestBelow;
    assert c.0 ==> c.1 in s.checkpoints;
  }

  // The stores of a client that is known, and otherwise all of them.
  lemma CandidatesAre(stores: seq<Store>, client: string, s: Store)
    ensures s in Candidates(stores, client) <==>
              && s in stores
              && (|client| > 0 && (exists t :: t in stores && t.client == client) ==> s.client == client)
  {
    if Named(stores, client) != [] { assert Named(stores, client)[0] in Named(stores, client); }
    if t :| t in stores && t.client == client { assert t in Named(stores, client); }
  }

  /* ---------- Independence of order ---------- */

  ghost predicate SameStore(a: Store, b: Store) {
    a.(checkpoints := []) == b.(checkpoints := []) && forall r :: r in a.checkpoints <==> r in b.checkpoints
  }

  // Every store of a is in b, with its checkpoints in any order.
  ghost predicate Within(a: seq<Store>, b: seq<Store>) {
    forall i :: 0 <= i < |a| ==> exists j :: 0 <= j < |b| && SameStore(a[i], b[j])
  }

  predicate DistinctStamps(stores: seq<Store>) {
    forall i, j :: 0 <= i < |stores| && 0 <= j < |stores| && stores[i].used == stores[j].used ==> stores[i] == stores[j]
  }

  lemma SameResume(a: Store, b: Store, evalEnd: int, spec: bool)
    requires SameStore(a, b)
    ensures Resume(a, evalEnd, spec) == Resume(b, evalEnd, spec) && a.used == b.used
  {
    var cap := KeepCap(a, evalEnd, spec);
    assert KeepCap(b, evalEnd, spec) == cap && Continuation(a) == Continuation(b);
    var x, y := LargestBelow(a.checkpoints, cap), LargestBelow(b.checkpoints, cap);
    if x.0 { assert x.1 in b.checkpoints; }
    if y.0 { assert y.1 in a.checkpoints; }
    assert a.used == a.(checkpoints := []).used;
    assert b.used == b.(checkpoints := []).used;
  }

  // The choice among more stores is at least as good, and has its counterpart if it is not better.
  lemma ChoiceGrows(a: seq<Store>, b: seq<Store>, evalEnd: int, spec: bool)
    requires Within(a, b) && Best(a, evalEnd, spec) != []
    ensures Best(b, evalEnd, spec) != [] && AtLeast(Best(b, evalEnd, spec)[0], Best(a, evalEnd, spec)[0], evalEnd, spec)
    ensures exists j :: 0 <= j < |b| && SameStore(Best(a, evalEnd, spec)[0], b[j])
  {
    hide Resume, Best, SameStore;
    BestIsMaximal(a, evalEnd, spec);
    BestIsMaximal(b, evalEnd, spec);
    var x := Best(a, evalEnd, spec)[0];
    var i :| 0 <= i < |a| && a[i] == x;
    var j :| 0 <= j < |b| && SameStore(a[i], b[j]);
    SameResume(x, b[j], evalEnd, spec);
  }

  /** With distinct stamps, the choice does not depend on the order of stores or checkpoints. */
  lemma ChoiceIgnoresOrder(a: seq<Store>, b: seq<Store>, evalEnd: int, spec: bool)
    requires Within(a, b) && Within(b, a) && DistinctStamps(b)
    ensures var x, y := Best(a, evalEnd, spec), Best(b, evalEnd, spec);
            |x| == |y| && (x != [] ==> SameStore(x[0], y[0]))
  {
    hide Resume, Best, SameStore, Within;
    var x, y := Best(a, evalEnd, spec), Best(b, evalEnd, spec);
    BestIsMaximal(b, evalEnd, spec);
    if x != [] {
      ChoiceGrows(a, b, evalEnd, spec);
      ChoiceGrows(b, a, evalEnd, spec);
      var j :| 0 <= j < |b| && SameStore(x[0], b[j]);
      SameResume(x[0], b[j], evalEnd, spec);
    } else if y != [] {
      ChoiceGrows(b, a, evalEnd, spec);
      assert false;
    }
  }

  lemma {:induction false} NamedNone(stores: seq<Store>, client: string)
    requires forall i :: 0 <= i < |stores| ==> stores[i].client != client
    ensures Named(stores, client) == []
  {
    if stores != [] { NamedNone(stores[..|stores| - 1], client); }
  }

  lemma UnknownClientCandidates(stores: seq<Store>, client: string)
    requires forall i :: 0 <= i < |stores| ==> stores[i].client != client
    ensures Candidates(stores, client) == Candidates(stores, [])
  {
    NamedNone(stores, client);
  }

  /* ---------- Eviction ---------- */

  predicate Before(a: Store, b: Store) { a.used < b.used || (a.used == b.used && a.id <= b.id) }

  predicate Sorted(s: seq<Store>) { forall i, j :: 0 <= i < j < |s| ==> Before(s[i], s[j]) }

  function Insert(s: seq<Store>, x: Store): seq<Store> {
    if s == [] || Before(s[|s| - 1], x) then s + [x] else Insert(s[..|s| - 1], x) + [s[|s| - 1]]
  }

  lemma {:induction false} InsertSorts(s: seq<Store>, x: Store)
    requires Sorted(s)
    ensures Sorted(Insert(s, x)) && multiset(Insert(s, x)) == multiset(s) + multiset{x}
  {
    InsertPermutes(s, x);
    if s != [] && !Before(s[|s| - 1], x) {
      hide Sorted;
      var k := |s| - 1;
      FrontSorted(s);
      InsertSorts(s[..k], x);
      LastStays(s, Insert(s[..k], x), x);
    } else {
      LastJoins(s, x);
    }
  }

  lemma {:induction false} InsertPermutes(s: seq<Store>, x: Store)
    ensures multiset(Insert(s, x)) == multiset(s) + multiset{x}
  {
    hide Before;
    if s != [] {
      InsertPermutes(s[..|s| - 1], x);
      assert s == s[..|s| - 1] + [s[|s| - 1]];
    }
  }

  lemma FrontSorted(s: seq<Store>)
    requires Sorted(s) && s != []
    ensures Sorted(s[..|s| - 1])
  {
    hide Before;
  }

  lemma LastJoins(s: seq<Store>, x: Store)
    requires Sorted(s) && (s == [] || Before(s[|s| - 1], x))
    ensures Sorted(s + [x])
  {
    forall i | 0 <= i < |s| ensures Before(s[i], x) { assert i == |s| - 1 || Before(s[i], s[|s| - 1]); }
    hide Before;
  }

  lemma LastStays(s: seq<Store>, r: seq<Store>, x: Store)
    requires s != [] && Sorted(s) && Before(x, s[|s| - 1]) && Sorted(r) &&
             multiset(r) == multiset(s[..|s| - 1]) + multiset{x}
    ensures Sorted(r + [s[|s| - 1]])
  {
    forall i | 0 <= i < |r| ensures Before(r[i], s[|s| - 1]) {
      assert r[i] in multiset(r);
      assert r[i] == x || r[i] in s[..|s| - 1];
    }
  }

  // Everything eviction may name, least recently used first.
  function Victims(stores: seq<Store>, target: int, attached: int): seq<Store> {
    if stores == [] then []
    else
      var s := stores[|stores| - 1];
      var rest := Victims(stores[..|stores| - 1], target, attached);
      if s.id != target && s.id != attached then Insert(rest, s) else rest
  }

  predicate DistinctIds(s: seq<Store>) { forall i, j :: 0 <= i < j < |s| ==> s[i].id != s[j].id }

  /** The victims are the unprotected stores, each once and in order. */
  lemma {:induction false} VictimsAre(stores: seq<Store>, target: int, attached: int)
    ensures var v := Victims(stores, target, attached);
            && Sorted(v) && (forall s :: s in v <==> s in stores && s.id != target && s.id != attached)
            && multiset(v) <= multiset(stores)
    ensures var v := Victims(stores, target, attached);
            forall i, j :: 0 <= i < j < |v| ==>
              v[i].used < v[j].used || (v[i].used == v[j].used && v[i].id <= v[j].id)
  {
    if stores != [] {
      var k := |stores| - 1;
      VictimsAre(stores[..k], target, attached);
      assert stores == stores[..k] + [stores[k]];
      var rest := Victims(stores[..k], target, attached);
      InsertSorts(rest, stores[k]);
      hide Insert, Sorted;
      forall s ensures s in Insert(rest, stores[k]) <==> s in rest || s == stores[k] {
        assert s in Insert(rest, stores[k]) <==> s in multiset(Insert(rest, stores[k]));
      }
    }
  }

  function Bytes(s: seq<Store>): nat { if s == [] then 0 else Bytes(s[..|s| - 1]) + s[|s| - 1].bytes }

  // Whether both caps hold once the first n victims are gone.
  predicate Enough(stores: seq<Store>, victims: seq<Store>, limits: Limits, allocating: bool, n: nat)
    requires n <= |victims|
  {
    && |stores| + (if allocating then 1 else 0) - n <= limits.maxStores
    && (limits.maxBytes == 0 || Bytes(stores) - Bytes(victims[..n]) <= limits.maxBytes)
  }

  /** The shortest run of victims that is enough, or all of them. */
  predicate Shortest(stores: seq<Store>, victims: seq<Store>, limits: Limits, allocating: bool, n: nat) {
    && n <= |victims| && (n == |victims| || Enough(stores, victims, limits, allocating, n))
    && forall m :: 0 <= m < n ==> !Enough(stores, victims, limits, allocating, m)
  }

  function Ids(s: seq<Store>): (ids: seq<int>)
    ensures |ids| == |s| && forall i :: 0 <= i < |s| ==> ids[i] == s[i].id
  {
    seq(|s|, i requires 0 <= i < |s| => s[i].id)
  }

  method SortVictims(stores: seq<Store>, target: int, attached: int) returns (v: seq<Store>)
    ensures v == Victims(stores, target, attached)
  {
    v := [];
    for i := 0 to |stores|
      invariant v == Victims(stores[..i], target, attached)
    {
      assert stores[..i + 1][..i] == stores[..i];
      if stores[i].id != target && stores[i].id != attached { v := Insert(v, stores[i]); }
    }
    assert stores[..|stores|] == stores;
  }

  lemma OneMore(victims: seq<Store>, n: nat)
    requires n < |victims|
    ensures Bytes(victims[..n + 1]) == Bytes(victims[..n]) + victims[n].bytes &&
            Ids(victims[..n + 1]) == Ids(victims[..n]) + [victims[n].id]
  {
    assert victims[..n + 1][..n] == victims[..n];
  }

  method TotalBytes(stores: seq<Store>) returns (total: nat)
    ensures total == Bytes(stores)
  {
    total := 0;
    for i := 0 to |stores|
      invariant total == Bytes(stores[..i])
    {
      assert stores[..i + 1][..i] == stores[..i];
      total := total + stores[i].bytes;
    }
    assert stores[..|stores|] == stores;
  }

  /** kvmem_store_plan_evictions(). */
  method PlanEvictions(stores: seq<Store>, limits: Limits, allocating: bool, target: int) returns (evict: seq<int>)
    ensures var v := Victims(stores, target, limits.attached);
            |evict| <= |v| && Shortest(stores, v, limits, allocating, |evict|) && evict == Ids(v[..|evict|])
    // Both caps hold afterwards, or there is nothing more to evict; and one did not before the last of them went.
    ensures var v, n := Victims(stores, target, limits.attached), |evict|;
            var live, total := |stores| + (if allocating then 1 else 0), Bytes(stores);
            && (n < |v| ==> live - n <= limits.maxStores)
            && (n < |v| && limits.maxBytes != 0 ==> total - Bytes(v[..n]) <= limits.maxBytes)
            && (n > 0 ==> live - (n - 1) > limits.maxStores ||
                          (limits.maxBytes != 0 && total - Bytes(v[..n - 1]) > limits.maxBytes))
  {
    hide Victims, Bytes;
    var victims := SortVictims(stores, target, limits.attached);
    var total: int := TotalBytes(stores);
    var live, next := |stores| + (if allocating then 1 else 0), 0;
    evict := [];
    NoBytes();
    while live > limits.maxStores && next < |victims|
      invariant next <= |victims| && live == |stores| + (if allocating then 1 else 0) - next
      invariant total == Bytes(stores) - Bytes(victims[..next]) && evict == Ids(victims[..next])
      invariant forall m :: 0 <= m < next ==> !Enough(stores, victims, limits, allocating, m)
    {
      OneMore(victims, next);
      total, evict := total - victims[next].bytes, evict + [victims[next].id];
      next, live := next + 1, live - 1;
    }
    while limits.maxBytes != 0 && total > limits.maxBytes && next < |victims|
      invariant next <= |victims| &&
                (next == |victims| || |stores| + (if allocating then 1 else 0) - next <= limits.maxStores)
      invariant total == Bytes(stores) - Bytes(victims[..next]) && evict == Ids(victims[..next])
      invariant forall m :: 0 <= m < next ==> !Enough(stores, victims, limits, allocating, m)
    {
      OneMore(victims, next);
      total, evict := total - victims[next].bytes, evict + [victims[next].id];
      next := next + 1;
    }
    assert |evict| == next;
    if next > 0 { LastWasNeeded(stores, victims, limits, allocating, next); }
  }

  lemma LastWasNeeded(stores: seq<Store>, victims: seq<Store>, limits: Limits, allocating: bool, n: nat)
    requires Shortest(stores, victims, limits, allocating, n) && n > 0
    ensures |stores| + (if allocating then 1 else 0) - (n - 1) > limits.maxStores ||
            (limits.maxBytes != 0 && Bytes(stores) - Bytes(victims[..n - 1]) > limits.maxBytes)
  {
    hide Bytes;
    assert !Enough(stores, victims, limits, allocating, n - 1);
  }

  lemma NoBytes()
    ensures Bytes([]) == 0
  {
  }

  /** What the list never does: name the target or the attached store, name a store that is not there, or name one
      twice. */
  lemma EvictionsAreSafe(stores: seq<Store>, limits: Limits, target: int, n: nat)
    requires DistinctIds(stores) && n <= |Victims(stores, target, limits.attached)|
    ensures var evict := Ids(Victims(stores, target, limits.attached)[..n]);
            && target !in evict && limits.attached !in evict
            && (forall i, j :: 0 <= i < j < |evict| ==> evict[i] != evict[j])
            && (forall i :: 0 <= i < |evict| ==> evict[i] in Ids(stores))
  {
    hide Victims, Sorted;
    var v := Victims(stores, target, limits.attached);
    VictimsAre(stores, target, limits.attached);
    forall i | 0 <= i < |v| ensures v[i].id in Ids(stores) && v[i].id != target && v[i].id != limits.attached {
      assert v[i] in v;
      var j :| 0 <= j < |stores| && stores[j] == v[i];
      assert Ids(stores)[j] == v[i].id;
    }
    forall i, j | 0 <= i < j < |v| ensures v[i].id != v[j].id { NoTwice(stores, v, i, j); }
  }

  lemma NoTwice(stores: seq<Store>, v: seq<Store>, i: nat, j: nat)
    requires DistinctIds(stores) && multiset(v) <= multiset(stores) && i < j < |v|
    ensures v[i].id != v[j].id
  {
    assert v[i] in multiset(v) && v[j] in multiset(v);
    assert v[i] in multiset(stores) && v[j] in multiset(stores);
    var a :| 0 <= a < |stores| && stores[a] == v[i];
    var b :| 0 <= b < |stores| && stores[b] == v[j];
    TwoPlaces(v, i, j);
    AtMostOnce(stores, v[i]);
  }

  lemma TwoPlaces(v: seq<Store>, i: nat, j: nat)
    requires i < j < |v|
    ensures v[i] == v[j] ==> multiset(v)[v[i]] >= 2
  {
    assert v == v[..j] + v[j..];
    assert v[i] in v[..j] && v[j] in v[j..];
    assert v[i] in multiset(v[..j]) && v[j] in multiset(v[j..]);
  }

  lemma {:induction false} AtMostOnce(stores: seq<Store>, s: Store)
    requires DistinctIds(stores)
    ensures multiset(stores)[s] <= 1
  {
    if stores != [] {
      var k := |stores| - 1;
      AtMostOnce(stores[..k], s);
      assert stores == stores[..k] + [stores[k]];
    }
  }

  /* ---------- The plan ---------- */

  datatype Reason = ClientId | Extend | NewConversation | NoCheckpoint | ForkZeroKeep | ForkSharedPrefix

  datatype Plan = Plan(observedLcp: int, extend: bool, id: int, lcp: int, keep: int, evict: seq<int>, reason: Reason)

  lemma BestStep(candidates: seq<Store>, i: nat, evalEnd: int, spec: bool)
    requires i < |candidates|
    ensures var before := Best(candidates[..i], evalEnd, spec); var s := candidates[i];
            Best(candidates[..i + 1], evalEnd, spec) ==
            if Improves(Resume(s, evalEnd, spec), s.used, before, evalEnd, spec) then [s] else before
  {
    assert candidates[..i + 1][..i] == candidates[..i];
  }

  // Some checkpoint lies within reach of the request, and is at least at this row.
  predicate Reaches(s: Store, evalEnd: int, spec: bool, row: int) {
    exists i :: 0 <= i < |s.checkpoints| && row <= s.checkpoints[i] <= KeepCap(s, evalEnd, spec)
  }

  ghost predicate Reachable(s: Store, evalEnd: int, spec: bool) { exists row :: Reaches(s, evalEnd, spec, row) }

  lemma ReachedRow(s: Store, evalEnd: int, spec: bool)
    ensures var c := LargestBelow(s.checkpoints, KeepCap(s, evalEnd, spec));
            && (c.0 <==> Reachable(s, evalEnd, spec)) && (c.0 && c.1 > 0 <==> Reaches(s, evalEnd, spec, 1))
  {
    var c := LargestBelow(s.checkpoints, KeepCap(s, evalEnd, spec));
    hide LargestBelow;
    if c.0 { assert Reaches(s, evalEnd, spec, c.1); }
  }

  /** Why the plan is what it is: a bound client id is named, and a fresh start says how far the candidates' states
      reached. */
  ghost predicate Explains(reason: Reason, extend: bool, stores: seq<Store>, client: string, evalEnd: int, spec: bool) {
    var c := Candidates(stores, client);
    match reason
    case ClientId => extend && |client| > 0 && exists s :: s in stores && s.client == client
    case Extend => extend && (|client| == 0 || forall s :: s in stores ==> s.client != client)
    case NewConversation => !extend && stores == []
    case NoCheckpoint => !extend && stores != [] && forall s :: s in c ==> !Reachable(s, evalEnd, spec)
    case ForkZeroKeep =>
      && !extend
      && (exists s :: s in c && Reachable(s, evalEnd, spec))
      && forall s :: s in c ==> !Reaches(s, evalEnd, spec, 1)
    case ForkSharedPrefix =>
      && !extend
      && (exists s :: s in c && Reaches(s, evalEnd, spec, 1))
      && forall s :: s in c && Reaches(s, evalEnd, spec, 1) ==> !Continuation(s)
  }

  // The loop of kvmem_store_select().
  method Choose(candidates: seq<Store>, evalEnd: int, spec: bool)
    returns (best: seq<Store>, keep: int, observed: int, found: bool, rejected: int)
    ensures best == Best(candidates, evalEnd, spec) && (best != [] ==> keep == Resume(best[0], evalEnd, spec))
    ensures Observes(observed, candidates)
    ensures found <==> exists s :: s in candidates && Reachable(s, evalEnd, spec)
    ensures rejected != 0 <==> exists s :: s in candidates && Reaches(s, evalEnd, spec, 1)
  {
    hide Best, LargestBelow, Reachable, Reaches;
    best, keep, rejected, found, observed := [], 0, 0, false, 0;
    NoBest(evalEnd, spec);
    for i := 0 to |candidates|
      invariant best == Best(candidates[..i], evalEnd, spec) && (best != [] ==> keep == Resume(best[0], evalEnd, spec))
      invariant observed >= 0 && forall j :: 0 <= j < i ==> candidates[j].lcp <= observed
      invariant observed == 0 || exists j :: 0 <= j < |candidates| && candidates[j].lcp == observed
      invariant rejected >= 0 && (found <==> exists j :: 0 <= j < i && Reachable(candidates[j], evalEnd, spec))
      invariant rejected != 0 <==> exists j :: 0 <= j < i && Reaches(candidates[j], evalEnd, spec, 1)
    {
      BestStep(candidates, i, evalEnd, spec);
      var s := candidates[i];
      ReachedRow(s, evalEnd, spec);
      if s.lcp > observed { observed := s.lcp; }
      var ok, row := Checkpoint(s, KeepCap(s, evalEnd, spec));
      if ok { found, rejected := true, Max(rejected, row); }
      if ok && row > 0 && Continuation(s) {
        if best == [] || row > keep || (row == keep && s.used > best[0].used) { best, keep := [s], row; }
      }
    }
    assert candidates[..|candidates|] == candidates;
  }

  lemma NoBest(evalEnd: int, spec: bool)
    ensures Best([], evalEnd, spec) == []
  {
  }

  lemma Explained(stores: seq<Store>, client: string, evalEnd: int, spec: bool, found: bool, rejected: int)
    requires var c := Candidates(stores, client);
             && (found <==> exists s :: s in c && Reachable(s, evalEnd, spec))
             && (rejected != 0 <==> exists s :: s in c && Reaches(s, evalEnd, spec, 1))
    ensures var best := Best(Candidates(stores, client), evalEnd, spec);
            Explains(if best != [] then (if |client| > 0 && Named(stores, client) != [] then ClientId else Extend)
                     else if stores == [] then NewConversation
                     else if !found then NoCheckpoint else if rejected == 0 then ForkZeroKeep else ForkSharedPrefix,
                     best != [], stores, client, evalEnd, spec)
  {
    var c := Candidates(stores, client);
    var best := Best(c, evalEnd, spec);
    BestIsMaximal(c, evalEnd, spec);
    NoBest(evalEnd, spec);
    hide Best, LargestBelow, Reaches, Reachable;
    assert Named(stores, client) != [] ==> Named(stores, client)[0] in Named(stores, client);
    if best == [] {
      forall s | s in c && Reaches(s, evalEnd, spec, 1) ensures !Continuation(s) {
        ReachedRow(s, evalEnd, spec);
        var i :| 0 <= i < |c| && c[i] == s;
        assert Resume(c[i], evalEnd, spec) == 0;
      }
    }
  }

  /** What a selection comes to: where to resume, what to evict, what was observed, and why. */
  ghost predicate Chosen(plan: Plan, stores: seq<Store>, evalEnd: int, spec: bool, client: string, limits: Limits) {
    var c := Candidates(stores, client);
    var best := Best(c, evalEnd, spec);
    && plan.extend == (best != [])
    && (best != [] ==> plan.id == best[0].id && plan.lcp == best[0].lcp && plan.keep == Resume(best[0], evalEnd, spec))
    && (best == [] ==> plan.id == -1 && plan.lcp == plan.keep == 0)
    && Evicts(plan, stores, limits) && Observes(plan.observedLcp, c)
    && Explains(plan.reason, plan.extend, stores, client, evalEnd, spec)
  }

  predicate Evicts(plan: Plan, stores: seq<Store>, limits: Limits) {
    var v := Victims(stores, plan.id, limits.attached);
    |plan.evict| <= |v| && Shortest(stores, v, limits, !plan.extend, |plan.evict|) &&
    plan.evict == Ids(v[..|plan.evict|])
  }

  // The longest matched prefix of any candidate, or 0.
  predicate Observes(lcp: int, c: seq<Store>) {
    && lcp >= 0 && (forall i :: 0 <= i < |c| ==> c[i].lcp <= lcp)
    && (lcp == 0 || exists i :: 0 <= i < |c| && c[i].lcp == lcp)
  }

  /** An unknown client id gives the same whole plan as no id, reason included. */
  lemma UnknownClientIsNone(p: Plan, q: Plan, stores: seq<Store>, evalEnd: int, spec: bool, client: string,
                            limits: Limits)
    requires forall i :: 0 <= i < |stores| ==> stores[i].client != client
    requires Chosen(p, stores, evalEnd, spec, client, limits) && Chosen(q, stores, evalEnd, spec, [], limits)
    ensures p == q
  {
    UnknownClientCandidates(stores, client);
    hide Best, Resume, Candidates, Evicts, Explains;
    SameReason(p.reason, q.reason, p.extend, stores, evalEnd, spec, client);
    SameEvictions(p, q, stores, limits);
  }

  lemma SameReason(a: Reason, b: Reason, extend: bool, stores: seq<Store>, evalEnd: int, spec: bool, client: string)
    requires forall i :: 0 <= i < |stores| ==> stores[i].client != client
    requires Candidates(stores, client) == Candidates(stores, [])
    requires Explains(a, extend, stores, client, evalEnd, spec) && Explains(b, extend, stores, [], evalEnd, spec)
    ensures a == b
  {
    assert stores == [] ==> Candidates(stores, []) == [];
    hide Candidates, Continuation;
    assert forall s :: s in stores ==> s.client != client;
    forall s, row | Reaches(s, evalEnd, spec, row) ensures Reachable(s, evalEnd, spec) {}
  }

  lemma SameEvictions(p: Plan, q: Plan, stores: seq<Store>, limits: Limits)
    requires p.id == q.id && p.extend == q.extend && Evicts(p, stores, limits) && Evicts(q, stores, limits)
    ensures p.evict == q.evict
  {
    hide Victims, Enough;
  }

  /** The store that a plan extends, in the words of the rules: one of the client's own where it has any, resumed at a
      checkpoint within reach, and no candidate could be resumed further, or as far and be more recent. */
  lemma PlanFollowsRules(plan: Plan, stores: seq<Store>, evalEnd: int, spec: bool, client: string, limits: Limits)
    requires Chosen(plan, stores, evalEnd, spec, client, limits)
    ensures var end := if spec then evalEnd else evalEnd - 1;
            plan.extend ==>
              exists s ::
                && s in stores && s.id == plan.id && s.lcp == plan.lcp
                && plan.keep in s.checkpoints && 0 < plan.keep <= s.lcp && plan.keep <= s.liveRow && plan.keep <= end
                && s.rows - s.lcp <= Max(0, s.lastGen) + 64
                && (|client| > 0 && (exists t :: t in stores && t.client == client) ==> s.client == client)
    ensures var end := if spec then evalEnd else evalEnd - 1;
            forall s, row ::
              && s in stores && row in s.checkpoints && 0 < row <= s.lcp && row <= s.liveRow && row <= end
              && s.rows - s.lcp <= Max(0, s.lastGen) + 64
              && (|client| > 0 && (exists t :: t in stores && t.client == client) ==> s.client == client)
              ==> plan.extend && row <= plan.keep
  {
    var c := Candidates(stores, client);
    var best := Best(c, evalEnd, spec);
    BestIsMaximal(c, evalEnd, spec);
    hide Best, Resume, Candidates, Victims, Shortest, Explains, Observes, Evicts;
    if plan.extend {
      CandidatesAre(stores, client, best[0]);
      ResumesAtACheckpoint(best[0], evalEnd, spec, plan.keep);
    }
    var end := if spec then evalEnd else evalEnd - 1;
    forall s, row |
      && s in stores && row in s.checkpoints && 0 < row <= s.lcp && row <= s.liveRow && row <= end
      && s.rows - s.lcp <= Max(0, s.lastGen) + 64
      && (|client| > 0 && (exists t :: t in stores && t.client == client) ==> s.client == client)
      ensures plan.extend && row <= plan.keep
    {
      CandidatesAre(stores, client, s);
      ResumesNowhere(s, evalEnd, spec);
      ResumeIsNotNegative(s, evalEnd, spec);
      ResumesAtACheckpoint(s, evalEnd, spec, Resume(s, evalEnd, spec));
      var i :| 0 <= i < |c| && c[i] == s;
      assert best != [] ==> AtLeast(best[0], c[i], evalEnd, spec);
    }
  }

  /** kvmem_store_select(). */
  method Select(stores: seq<Store>, evalEnd: int, spec: bool, client: string, limits: Limits) returns (plan: Plan)
    ensures Chosen(plan, stores, evalEnd, spec, client, limits)
  {
    hide Best, Resume, Candidates, Victims, Shortest, Explains;
    var candidates := Candidates(stores, client);
    var bound := |client| > 0 && Named(stores, client) != [];
    var best, keep, observed, found, rejected := Choose(candidates, evalEnd, spec);
    Explained(stores, client, evalEnd, spec, found, rejected);
    if best != [] {
      var evict := PlanEvictions(stores, limits, false, best[0].id);
      return Plan(observed, true, best[0].id, best[0].lcp, keep, evict, if bound then ClientId else Extend);
    }
    var evict := PlanEvictions(stores, limits, true, -1);
    plan := Plan(observed, false, -1, 0, 0, evict,
                 if stores == [] then NewConversation
                 else if !found then NoCheckpoint else if rejected == 0 then ForkZeroKeep else ForkSharedPrefix);
  }
}
