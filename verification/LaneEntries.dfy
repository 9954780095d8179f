/**
 The lane catalog's entries as values: the ownership they carry, and the entries after each of
 the catalog's methods. The methods update one field at a time; the functions here are what
 those updates come to, and the lemmas relate them to the steps of LaneOwnership.
 */
module LaneEntries {
  import opened StoreAccounting
  import opened LaneEviction
  import Own = LaneOwnership

  // What the sizes measured at the end of a request are assumed to be: the request kept within its reservation,
  // and clearing a store does not make it larger.
  predicate Fits(e: Entries, op: Own.Operation, measured: Measure, cleared: int -> Measure) {
    && (op.Active() in e ==> measured.native <= Larger(e[op.Active()].native, e[op.Active()].reserved))
    && forall id :: id in e ==> cleared(id).native <= if id == op.Active() then measured.native else e[id].native
  }

  /* ---------- The end of a request, on values ---------- */

  function Forget(e: Entries, id: int): Entries { if id in e then e[id := e[id].(rows := 0)] else e }

  function Settled(e: Entries, id: int): Entries { if id in e then e[id := e[id].(switching := false)] else e }

  // The entries once finish() has released its flags, before enforcement.
  function Committed(e: Entries, op: Own.Operation, m: Measure, used: nat): Entries
    requires op.Active() in e && op.id in e
  {
    Settled(Forgotten(Measured(e, op, m, used), op), op.outgoing)
  }

  // A request that never became ready leaves nothing committed.
  function Forgotten(e: Entries, op: Own.Operation): Entries {
    if op.phase.Ready? then e
    else
      var target := Forget(e, op.id);
      if op.Attached() && op.outgoing != op.id then Forget(target, op.outgoing) else target
  }

  predicate SameButRows(f: Entries, e: Entries) {
    f.Keys == e.Keys && forall id :: id in f ==> f[id] == e[id].(rows := f[id].rows)
  }

  lemma SettledShape(e: Entries, id: int)
    ensures Settled(e, id).Keys == e.Keys &&
            forall x :: x in e ==> Settled(e, id)[x] == e[x].(switching := e[x].switching && x != id)
  {
  }

  lemma ForgottenShape(e: Entries, op: Own.Operation)
    ensures SameButRows(Forgotten(e, op), e)
  {
  }

  function Measured(e: Entries, op: Own.Operation, m: Measure, used: nat): Entries
    requires op.Active() in e && op.id in e
  {
    var active := op.Active();
    var a := e[active := e[active].(rows := m.rows, bytes := m.bytes, native := m.native, reserved := 0, used := used)];
    var b := if !op.Attached() && op.added then a - {op.id} else a[op.id := a[op.id].(busy := false)];
    if active in b then b[active := b[active].(switching := false)] else b
  }

  function ReleasedSwitching(w: map<int, int>, op: Own.Operation): map<int, int> {
    (if !op.Attached() && op.added then w - {op.id} else w) - {op.Active(), op.outgoing}
  }

  lemma CommitOwners(e: Entries, b: map<int, int>, w: map<int, int>, resident: seq<int>, n: nat,
                     ops: map<int, Own.Operation>,
                     lane: int, m: Measure, used: nat)
    requires Flags(e, b, w) && Below(e, n) && lane in ops && !ops[lane].phase.Failing?
    requires Own.Inv(Own.Catalog(Lanes(e), b, w, resident, n, ops))
    ensures var op := ops[lane];
            && op.Active() in e && op.id in e && (op.added ==> op.id != op.outgoing)
            && var f := Committed(e, op, m, used);
            && Flags(f, b - {op.id}, ReleasedSwitching(w, op)) && Below(f, n)
            && Own.CommitStep(Own.Catalog(Lanes(e), b, w, resident, n, ops), lane) ==
               Own.Catalog(Lanes(f), b - {op.id}, ReleasedSwitching(w, op), resident, n, ops)
  {
    hide Committed, Own.Inv;
    var op := ops[lane];
    ActiveKnown(Own.Catalog(Lanes(e), b, w, resident, n, ops), lane);
    CommittedShape(e, op, m, used);
    var f := Committed(e, op, m, used);
    LanesLess(f, e, if !op.Attached() && op.added then {op.id} else {});
    CommitFlags(f, e, b, w, op, m);
    hide Flags, CommitShape;
  }

  lemma CommitFlags(f: Entries, e: Entries, b: map<int, int>, w: map<int, int>, op: Own.Operation, m: Measure)
    requires Flags(e, b, w) && CommitShape(f, e, op, m)
    ensures Flags(f, b - {op.id}, ReleasedSwitching(w, op))
  {
  }

  // What the ownership invariant says of one request.
  lemma ActiveKnown(s: Own.Catalog, lane: int)
    requires Own.Inv(s) && lane in s.ops && !s.ops[lane].phase.Failing?
    ensures var op := s.ops[lane];
            && op.Active() in s.lanes && op.id in s.lanes && (op.added ==> op.id != op.outgoing)
            && op.id in s.busy && s.busy[op.id] == lane
            && (op.Displacing() || op.id == op.outgoing ==> op.outgoing in s.lanes)
            && (op.Displacing() ==> forall l :: l in s.ops && !s.ops[l].phase.Failing? ==> s.ops[l].id != op.outgoing)
  {
    var op := s.ops[lane];
    assert op.id in s.busy && s.resident[lane] in s.lanes;
    if op.Displacing() {
      assert op.outgoing in s.switching && op.outgoing !in s.busy;
      forall l | l in s.ops && !s.ops[l].phase.Failing?
        ensures s.ops[l].id != op.outgoing
      {
        assert s.ops[l].id in s.busy;
      }
    }
  }

  predicate CommitShape(f: Entries, e: Entries, op: Own.Operation, m: Measure) {
    && f.Keys == (if !op.Attached() && op.added then e.Keys - {op.id} else e.Keys)
    && (forall id :: id in f ==>
          && f[id].lane == e[id].lane && f[id].attachment == e[id].attachment
          && f[id].busy == (e[id].busy && id != op.id)
          && f[id].switching == (e[id].switching && id != op.Active() && id != op.outgoing)
          && f[id].native == (if id == op.Active() then m.native else e[id].native)
          && f[id].reserved == (if id == op.Active() then 0 else e[id].reserved))
  }

  lemma CommittedShape(e: Entries, op: Own.Operation, m: Measure, used: nat)
    requires op.Active() in e && op.id in e && (op.added ==> op.id != op.outgoing)
    ensures CommitShape(Committed(e, op, m, used), e, op, m)
  {
    hide Measured, Forgotten, Settled;
    MeasuredShape(e, op, m, used);
    var c := Measured(e, op, m, used);
    ForgottenShape(c, op);
    SettledShape(Forgotten(c, op), op.outgoing);
  }

  lemma MeasuredShape(e: Entries, op: Own.Operation, m: Measure, used: nat)
    requires op.Active() in e && op.id in e && (op.added ==> op.id != op.outgoing)
    ensures var f := Measured(e, op, m, used);
            && f.Keys == (if !op.Attached() && op.added then e.Keys - {op.id} else e.Keys)
            && (forall id :: id in f ==>
                  && f[id].lane == e[id].lane && f[id].attachment == e[id].attachment
                  && f[id].busy == (e[id].busy && id != op.id) &&
                     f[id].switching == (e[id].switching && id != op.Active())
                  && f[id].native == (if id == op.Active() then m.native else e[id].native)
                  && f[id].reserved == (if id == op.Active() then 0 else e[id].reserved))
  {
  }

  // What the commit records of each store. Nothing stays committed of a request that never became ready.
  lemma CommittedEntry(e: Entries, op: Own.Operation, m: Measure, used: nat, id: int)
    requires op.Active() in e && op.id in e && (op.added ==> op.id != op.outgoing)
    requires id in Committed(e, op, m, used)
    ensures id in e && var x := e[id];
            var now := if id == op.Active() then m else Measure(x.rows, x.bytes, x.native);
            var unready := !op.phase.Ready? && (id == op.id || (op.Attached() && id == op.outgoing));
            Committed(e, op, m, used)[id] ==
            Entry(x.lane, x.busy && id != op.id, x.switching && id != op.Active() && id != op.outgoing, x.refs,
                  if id == op.Active() then used else x.used, now.bytes, x.client, if unready then 0 else now.rows,
                  x.cold, now.native, if id == op.Active() then 0 else x.reserved, x.attachment)
  {
    hide Measured, Forgotten, Settled;
    MeasuredEntry(e, op, m, used, id);
    ForgottenEntry(Measured(e, op, m, used), op, id);
    SettledShape(Forgotten(Measured(e, op, m, used), op), op.outgoing);
  }

  /** What finish() leaves of each store: the active one as measured, the histories given up cleared, nothing committed
      of a request that never became ready, and the rest as it was. */
  predicate EndsAs(f: Entries, e: Entries, op: Own.Operation, m: Measure, used: nat, given: set<int>,
                   cleared: int -> Measure) {
    forall id :: id in f ==> id in e && f[id] == EndOf(e[id], id, op, m, used, given, cleared)
  }

  function EndOf(x: Entry, id: int, op: Own.Operation, m: Measure, used: nat, given: set<int>,
                 cleared: int -> Measure): Entry {
    var now := if id in given then cleared(id) else if id == op.Active() then m
               else Measure(x.rows, x.bytes, x.native);
    var unready := !op.phase.Ready? && (id == op.id || (op.Attached() && id == op.outgoing));
    Entry(x.lane, x.busy && id != op.id, x.switching && id != op.Active() && id != op.outgoing, x.refs,
          if id == op.Active() then used else x.used, now.bytes, if id in given then NoKey else x.client,
          if id in given || unready then 0 else now.rows, x.cold, now.native,
          if id == op.Active() then 0 else x.reserved, x.attachment)
  }

  lemma FinishedStores(e: Entries, op: Own.Operation, m: Measure, used: nat, n: nat, waiting: set<Key>,
                       inactiveLimit: bool, maxStores: nat, bytesMax: nat, finishing: int, locked: nat -> set<int>,
                       cleared: int -> Measure, throws: bool, given: set<int>, dropped: set<int>, left: Entries)
    requires op.Active() in e && op.id in e && (op.added ==> op.id != op.outgoing)
    requires InLruOrder(Committed(e, op, m, used), n, waiting, inactiveLimit, maxStores, bytesMax, finishing, locked,
                        cleared, throws, given, dropped, left)
    ensures EndsAs(left, e, op, m, used, given, cleared)
  {
    hide Committed, InLruOrder;
    forall id | id in left
      ensures id in e && left[id] == EndOf(e[id], id, op, m, used, given, cleared)
    {
      LeftEntry(Committed(e, op, m, used), n, waiting, inactiveLimit, maxStores, bytesMax, finishing, locked, cleared,
                throws, given, dropped, left, id);
      CommittedEntry(e, op, m, used, id);
    }
  }

  lemma MeasuredEntry(e: Entries, op: Own.Operation, m: Measure, used: nat, id: int)
    requires op.Active() in e && op.id in e && (op.added ==> op.id != op.outgoing)
    ensures id in Measured(e, op, m, used) ==>
              id in e && var x := e[id];
              var y := if id == op.Active() then
                         x.(rows := m.rows, bytes := m.bytes, native := m.native, reserved := 0, used := used)
                       else x;
              Measured(e, op, m, used)[id] ==
              y.(busy := x.busy && id != op.id, switching := x.switching && id != op.Active())
  {
  }

  lemma ForgottenEntry(e: Entries, op: Own.Operation, id: int)
    ensures id in Forgotten(e, op) <==> id in e
    ensures id in e ==>
              var unready := !op.phase.Ready? && (id == op.id || (op.Attached() && id == op.outgoing));
              Forgotten(e, op)[id] == e[id].(rows := if unready then 0 else e[id].rows)
  {
  }

  lemma CommitSizes(e: Entries, op: Own.Operation, m: Measure, used: nat, cleared: int -> Measure, n: nat)
    requires op.Active() in e && op.id in e && (op.added ==> op.id != op.outgoing) && Fits(e, op, m, cleared)
    ensures var f := Committed(e, op, m, used); Charged(f, n) <= Charged(e, n) && NoGrowth(f, cleared)
  {
    hide Committed, Charged;
    CommittedShape(e, op, m, used);
    ChargedMonotone(Committed(e, op, m, used), e, n);
  }

  // Enforcement takes parked stores only, so the step is the one LaneOwnership gives it.
  lemma TrimmedOwners(f: Entries, e: Entries, gone: set<int>, b: map<int, int>, w: map<int, int>, resident: seq<int>,
                      n: nat,
                      ops: map<int, Own.Operation>)
    requires Flags(e, b, w) && Below(e, n) && Trimmed(f, e, gone)
    ensures var s := Own.Catalog(Lanes(e), b, w, resident, n, ops);
            && Flags(f, b, w) && Below(f, n) && s.Drop(gone) == Own.Catalog(Lanes(f), b, w, resident, n, ops)
            && forall id :: id in gone ==> s.Parked(id)
  {
    forall id | id in gone ensures id !in b && id !in w { assert e[id].Parked(); }
    Own.SameFlags(b, gone);
    Own.SameFlags(w, gone);
    LanesLess(f, e, gone);
  }

  lemma CatchOwners(e: Entries, b: map<int, int>, w: map<int, int>, resident: seq<int>, n: nat,
                    ops: map<int, Own.Operation>, lane: int)
    requires Flags(e, b, w) && Below(e, n) && lane in ops
    ensures var op := ops[lane];
            var f := Caught(e, op);
            var b', w' := b - Undone(op) - {op.Active(), op.id}, w - Undone(op) - {op.outgoing};
            && Flags(f, b', w') && Below(f, n)
            && Own.CatchStep(Own.Catalog(Lanes(e), b, w, resident, n, ops), lane) ==
               Own.Catalog(Lanes(f), b', w', resident, n, ops - {lane})
  {
    hide Caught, Flags, CatchShape, Undone, Lanes, Own.CatchStep;
    var op, f := ops[lane], Caught(e, ops[lane]);
    CaughtShape(e, op);
    CaughtLanes(f, e, op, n);
    CatchFlags(f, e, b, w, op);
    CatchStepIs(Own.Catalog(Lanes(e), b, w, resident, n, ops), lane);
  }

  lemma CaughtLanes(f: Entries, e: Entries, op: Own.Operation, n: nat)
    requires CatchShape(f, e, op) && Below(e, n)
    ensures Lanes(f) == Lanes(e) - Undone(op) && Below(f, n)
  {
    hide Lanes, Undone;
    LanesLess(f, e, Undone(op));
  }

  lemma CatchStepIs(s: Own.Catalog, lane: int)
    requires lane in s.ops
    ensures var op := s.ops[lane];
            Own.CatchStep(s, lane) == Own.Catalog(s.lanes - Undone(op), s.busy - Undone(op) - {op.Active(), op.id},
                                                  s.switching - Undone(op) - {op.outgoing}, s.resident, s.nextId,
                                                  s.ops - {lane})
  {
    var op := s.ops[lane];
    assert s.lanes - {} == s.lanes && s.busy - {} == s.busy && s.switching - {} == s.switching;
  }

  lemma CatchCharge(e: Entries, op: Own.Operation, n: nat)
    ensures Charged(Caught(e, op), n) <= Charged(e, n)
  {
    hide Caught;
    CaughtShape(e, op);
    ChargedMonotone(Caught(e, op), e, n);
  }

  lemma CatchFlags(f: Entries, e: Entries, b: map<int, int>, w: map<int, int>, op: Own.Operation)
    requires Flags(e, b, w) && CatchShape(f, e, op)
    ensures Flags(f, b - Undone(op) - {op.Active(), op.id}, w - Undone(op) - {op.outgoing})
  {
  }

  predicate CatchShape(f: Entries, e: Entries, op: Own.Operation) {
    && f.Keys == e.Keys - Undone(op)
    && (forall id :: id in f ==>
          f[id] == e[id].(busy := e[id].busy && id != op.id && id != op.Active(),
                          switching := e[id].switching && id != op.outgoing,
                          reserved := if id == op.Active() then 0 else e[id].reserved,
                          rows := if id == op.Active() || id == op.outgoing then 0 else e[id].rows))
  }

  lemma CaughtShape(e: Entries, op: Own.Operation)
    ensures CatchShape(Caught(e, op), e, op)
    ensures Caught(e, op).Keys == e.Keys - (if !op.Attached() && op.added then {op.id} else {})
  {
    hide Freed, Unbusied, Unswitched, Own.Operation.Active;
    CaughtStores(e - Undone(op), op.Active(), op.id, op.outgoing);
  }

  lemma CaughtStores(e: Entries, active: int, id: int, outgoing: int)
    ensures var f := Unswitched(Unbusied(Freed(e, active), id), outgoing);
            && f.Keys == e.Keys
            && forall x :: x in f ==>
                 f[x] == e[x].(busy := e[x].busy && x != id && x != active,
                               switching := e[x].switching && x != outgoing,
                               reserved := if x == active then 0 else e[x].reserved,
                               rows := if x == active || x == outgoing then 0 else e[x].rows)
  {
    hide Freed, Unbusied, Unswitched;
    var b := Freed(e, active);
    FreedShape(e, active);
    UnbusiedShape(b, id);
    UnswitchedShape(Unbusied(b, id), outgoing);
  }

  // What the catch block does to the active store, the request's own one and the displaced one.
  function Freed(e: Entries, id: int): Entries {
    if id in e then e[id := e[id].(busy := false, reserved := 0, rows := 0)] else e
  }

  function Unbusied(e: Entries, id: int): Entries { if id in e then e[id := e[id].(busy := false)] else e }

  function Unswitched(e: Entries, id: int): Entries {
    if id in e then e[id := e[id].(switching := false, rows := 0)] else e
  }

  lemma FreedShape(e: Entries, id: int)
    ensures var f := Freed(e, id);
            && f.Keys == e.Keys
            && forall x :: x in f ==> f[x] == if x == id then e[x].(busy := false, reserved := 0, rows := 0) else e[x]
  {
  }

  lemma UnbusiedShape(e: Entries, id: int)
    ensures var f := Unbusied(e, id);
            f.Keys == e.Keys && forall x :: x in f ==> f[x] == e[x].(busy := e[x].busy && x != id)
  {
  }

  lemma UnswitchedShape(e: Entries, id: int)
    ensures var f := Unswitched(e, id);
            && f.Keys == e.Keys
            && forall x :: x in f ==> f[x] == if x == id then e[x].(switching := false, rows := 0) else e[x]
  {
  }

  // The store that a request added and never attached.
  function Undone(op: Own.Operation): set<int> { if !op.Attached() && op.added then {op.id} else {} }

  function Caught(e: Entries, op: Own.Operation): Entries {
    Unswitched(Unbusied(Freed(e - Undone(op), op.Active()), op.id), op.outgoing)
  }

  predicate Eligible(x: Entry, leased: seq<bool>) {
    !x.busy && !x.switching && (x.lane < 0 || (x.lane < |leased| && !leased[x.lane]))
  }

  predicate LaneFree(e: Entries, resident: seq<int>, leased: seq<bool>, l: int)
    requires |leased| == |resident| && 0 <= l < |resident|
  {
    !leased[l] && resident[l] in e && !e[resident[l]].busy && !e[resident[l]].switching
  }

  predicate FirstFree(e: Entries, resident: seq<int>, leased: seq<bool>, l: int)
    requires |leased| == |resident|
  {
    0 <= l < |resident| && LaneFree(e, resident, leased, l) &&
    forall k :: 0 <= k < l ==> !LaneFree(e, resident, leased, k)
  }

  function NamedStores(e: Entries, key: Key): set<int> { set x | x in e && e[x].client == key }

  predicate First(ids: set<int>, id: int) { id in ids && forall x :: x in ids ==> id <= x }

  predicate NoneFound(e: Entries, planned: int, key: Key, leased: seq<bool>) {
    planned < 0 && (key != NoKey ==> NamedStores(e, key) == {}) && ReusableStores(e, leased) == {}
  }

  /** The planned store; else the first one of this key; else the first empty one; else, when the table is full, the
      least recently used that may be recycled; else none. */
  predicate Picked(e: Entries, planned: int, key: Key, leased: seq<bool>, waiting: set<Key>, full: bool, id: int) {
    if planned >= 0 then id == planned
    else if key != NoKey && NamedStores(e, key) != {} then First(NamedStores(e, key), id)
    else if ReusableStores(e, leased) != {} then First(ReusableStores(e, leased), id)
    else if full && RecyclableStores(e, leased, waiting) != {} then Oldest(e, RecyclableStores(e, leased, waiting), id)
    else id == -1
  }

  // No store may be taken now: the table is full and none can be recycled, or the store is in use.
  predicate MustWait(e: Entries, planned: int, key: Key, leased: seq<bool>, full: bool, id: int) {
    if id in e then !Eligible(e[id], leased) else full && NoneFound(e, planned, key, leased)
  }

  // The store's own lane, or the first free one.
  predicate LaneOf(e: Entries, resident: seq<int>, leased: seq<bool>, id: int, lane: int)
    requires |leased| == |resident|
  {
    if id in e && e[id].lane >= 0 then lane == e[id].lane else FirstFree(e, resident, leased, lane)
  }

  /** What select() settles on: the store the rules pick, and its lane or the first free one. It waits (-1) exactly if
      the store may not be taken or no lane is free, and asks for media (-2) exactly if only they lack. */
  predicate Decided(e: Entries, resident: seq<int>, leased: seq<bool>, waiting: set<Key>, planned: int, key: Key,
                    full: bool, mediaReady: bool, picked: int, lane: int)
    requires |leased| == |resident|
  {
    var must := MustWait(e, planned, key, leased, full, picked);
    && Picked(e, planned, key, leased, waiting, full, picked)
    && (lane >= 0 ==> LaneOf(e, resident, leased, picked, lane))
    && (lane == -1 <==> must || (mediaReady && NoLane(e, resident, leased, picked)))
    && (lane == -2 <==> !must && !mediaReady)
  }

  /** What the rules pick, in the terms of the entries: the store to extend; or the first of the request's key; or the
      first empty one that may be taken; or, with the table full, the least recently used that may be taken and that
      nobody pins or waits for; or a new one. */
  lemma PickedRules(e: Entries, leased: seq<bool>, waiting: set<Key>, planned: int, key: Key, full: bool, picked: int)
    requires Picked(e, planned, key, leased, waiting, full, picked)
    ensures if planned >= 0 then picked == planned
            else if key != NoKey && exists x :: x in e && e[x].client == key then
              && picked in e && e[picked].client == key
              && forall x :: x in e && e[x].client == key ==> picked <= x
            else if exists x :: x in e && e[x].client == NoKey && e[x].rows == 0 && Eligible(e[x], leased) then
              && picked in e && e[picked].client == NoKey && e[picked].rows == 0 && Eligible(e[picked], leased)
              && forall x :: x in e && e[x].client == NoKey && e[x].rows == 0 && Eligible(e[x], leased) ==> picked <= x
            else if full && exists x :: x in e && Eligible(e[x], leased) && Unwanted(e[x], waiting) then
              && picked in e && Eligible(e[picked], leased) && Unwanted(e[picked], waiting)
              && forall x :: x in e && Eligible(e[x], leased) && Unwanted(e[x], waiting) ==>
                   e[picked].used < e[x].used || (e[picked].used == e[x].used && picked <= x)
            else picked == -1
  {
    NoNamed(e, key);
    NoReusable(e, leased);
    NoRecyclable(e, leased, waiting);
    hide Eligible;
  }

  /** Whether the request waits, and its lane otherwise: the picked store's own, or the first that is not leased and
      whose store nobody has flagged. */
  lemma DecidedRules(e: Entries, resident: seq<int>, leased: seq<bool>, waiting: set<Key>, planned: int, key: Key,
                     full: bool, mediaReady: bool, picked: int, lane: int)
    requires |leased| == |resident| && (forall l :: 0 <= l < |resident| ==> resident[l] in e)
    requires Decided(e, resident, leased, waiting, planned, key, full, mediaReady, picked, lane)
    ensures var must := if picked in e then
                          e[picked].busy || e[picked].switching ||
                          (e[picked].lane >= 0 && (e[picked].lane >= |leased| || leased[e[picked].lane]))
                        else
                          && full && planned < 0 && (key == NoKey || forall x :: x in e ==> e[x].client != key)
                          && forall x :: x in e && e[x].client == NoKey && e[x].rows == 0 ==>
                               e[x].busy || e[x].switching ||
                               (e[x].lane >= 0 && (e[x].lane >= |leased| || leased[e[x].lane]));
            var idle := set l | 0 <= l < |resident| && !leased[l] && !e[resident[l]].busy && !e[resident[l]].switching;
            && (lane == -1 <==> must || (mediaReady && (picked in e ==> e[picked].lane < 0) && idle == {}))
            && (lane == -2 <==> !must && !mediaReady)
            && (lane >= 0 ==>
                  if picked in e && e[picked].lane >= 0 then lane == e[picked].lane
                  else lane in idle && forall l :: l in idle ==> lane <= l)
  {
    hide Picked;
    MustWaitIs(e, leased, planned, key, full, picked);
    hide MustWait;
    var idle := set l | 0 <= l < |resident| && !leased[l] && !e[resident[l]].busy && !e[resident[l]].switching;
    assert forall l :: 0 <= l < |resident| ==> (l in idle <==> LaneFree(e, resident, leased, l));
  }

  lemma MustWaitIs(e: Entries, leased: seq<bool>, planned: int, key: Key, full: bool, picked: int)
    ensures MustWait(e, planned, key, leased, full, picked) <==>
            if picked in e then
              e[picked].busy || e[picked].switching ||
              (e[picked].lane >= 0 && (e[picked].lane >= |leased| || leased[e[picked].lane]))
            else
              && full && planned < 0 && (key == NoKey || forall x :: x in e ==> e[x].client != key)
              && forall x :: x in e && e[x].client == NoKey && e[x].rows == 0 ==>
                   e[x].busy || e[x].switching ||
                   (e[x].lane >= 0 && (e[x].lane >= |leased| || leased[e[x].lane]))
  {
    NoNamed(e, key);
    NoReusable(e, leased);
    hide NamedStores, ReusableStores;
  }

  lemma NoNamed(e: Entries, key: Key)
    ensures NamedStores(e, key) == {} <==> forall x :: x in e ==> e[x].client != key
    ensures forall x :: x in e && e[x].client == key ==> x in NamedStores(e, key)
  {
    NoneIn(NamedStores(e, key));
    assert forall x :: x in e && e[x].client == key ==> x in NamedStores(e, key);
  }

  lemma NoReusable(e: Entries, leased: seq<bool>)
    ensures ReusableStores(e, leased) == {} <==>
            forall x :: x in e && e[x].client == NoKey && e[x].rows == 0 ==> !Eligible(e[x], leased)
    ensures forall x ::
              x in e && e[x].client == NoKey && e[x].rows == 0 && Eligible(e[x], leased) ==>
                x in ReusableStores(e, leased)
  {
    hide Eligible;
    NoneIn(ReusableStores(e, leased));
    assert forall x ::
        x in e && e[x].client == NoKey && e[x].rows == 0 && Eligible(e[x], leased) ==> x in ReusableStores(e, leased);
  }

  lemma NoRecyclable(e: Entries, leased: seq<bool>, waiting: set<Key>)
    ensures RecyclableStores(e, leased, waiting) == {} <==>
            forall x :: x in e && Eligible(e[x], leased) ==> !Unwanted(e[x], waiting)
    ensures forall x ::
              x in e && Eligible(e[x], leased) && Unwanted(e[x], waiting) ==> x in RecyclableStores(e, leased, waiting)
  {
    hide Eligible;
    NoneIn(RecyclableStores(e, leased, waiting));
    assert forall x ::
        x in e && Eligible(e[x], leased) && Unwanted(e[x], waiting) ==> x in RecyclableStores(e, leased, waiting);
  }

  lemma NoneIn(ids: set<int>)
    ensures ids == {} <==> forall x :: x !in ids
  {
    if forall x :: x !in ids { assert ids <= {}; }
  }

  // A request that names no store waits only for a lane.
  lemma UnnamedWaitsForLane(e: Entries, resident: seq<int>, leased: seq<bool>, waiting: set<Key>, mediaReady: bool,
                            picked: int)
    requires |leased| == |resident| && -1 !in e
    requires Decided(e, resident, leased, waiting, -1, NoKey, false, mediaReady, picked, -1)
    ensures NoneFree(e, resident, leased)
  {
    hide Picked, MustWait;
    UnnamedNeedNotWait(e, leased, waiting, picked);
    NoLaneIsFree(e, resident, leased, picked);
  }

  lemma LaneOfFits(e: Entries, resident: seq<int>, leased: seq<bool>, id: int, lane: int)
    requires |leased| == |resident| && LaneOf(e, resident, leased, id, lane) && 0 <= lane < |resident|
    ensures id in e && e[id].lane >= 0 ==> lane == e[id].lane
    ensures !(id in e && e[id].lane >= 0) ==> LaneFree(e, resident, leased, lane)
  {
  }

  lemma NoLaneIsFree(e: Entries, resident: seq<int>, leased: seq<bool>, id: int)
    requires |leased| == |resident|
    ensures NoLane(e, resident, leased, id) ==> NoneFree(e, resident, leased)
  {
  }

  lemma UnnamedNeedNotWait(e: Entries, leased: seq<bool>, waiting: set<Key>, id: int)
    requires -1 !in e
    ensures Picked(e, -1, NoKey, leased, waiting, false, id) ==> !MustWait(e, -1, NoKey, leased, false, id)
  {
  }

  predicate NoneFree(e: Entries, resident: seq<int>, leased: seq<bool>)
    requires |leased| == |resident|
  {
    forall l :: 0 <= l < |resident| ==> !LaneFree(e, resident, leased, l)
  }

  // The store is on no lane and none is free for it.
  predicate NoLane(e: Entries, resident: seq<int>, leased: seq<bool>, id: int)
    requires |leased| == |resident|
  {
    (id in e ==> e[id].lane < 0) && NoneFree(e, resident, leased)
  }

  function ReusableStores(e: Entries, leased: seq<bool>): set<int> {
    set x | x in e && e[x].client == NoKey && e[x].rows == 0 && Eligible(e[x], leased)
  }

  function RecyclableStores(e: Entries, leased: seq<bool>, waiting: set<Key>): set<int> {
    set x | x in e && Eligible(e[x], leased) && !Protected(e[x], waiting)
  }

  // What select() tests is what reserving needs.
  lemma ChosenCanReserve(e: Entries, b: map<int, int>, w: map<int, int>, resident: seq<int>, n: nat,
                         ops: map<int, Own.Operation>, leased: seq<bool>, id: int, lane: int)
    requires Flags(e, b, w) && |leased| == |resident| && (forall l :: l in ops ==> 0 <= l < |leased| && leased[l])
    requires var s := Own.Catalog(Lanes(e), b, w, resident, n, ops); Own.Inv(s)
    requires 0 <= lane < |resident| && !leased[lane]
    requires id >= 0 ==> id in e && Eligible(e[id], leased)
    requires if id >= 0 && e[id].lane >= 0 then lane == e[id].lane else LaneFree(e, resident, leased, lane)
    ensures Own.CanReserve(Own.Catalog(Lanes(e), b, w, resident, n, ops), lane, if id < 0 then n else id)
    ensures resident[lane] in e
  {
    var s := Own.Catalog(Lanes(e), b, w, resident, n, ops);
    LanesResident(s, lane);

    assert resident[lane] in e && lane !in ops;
    if id >= 0 {
      assert id in s.lanes && s.lanes[id] == e[id].lane;
      if e[id].lane >= 0 { assert resident[lane] == id; }
      assert s.Eligible(id);
    } else {
      assert n !in s.lanes;
    }
    assert !e[resident[lane]].busy && !e[resident[lane]].switching;
    var x := if id < 0 then n else id;
    assert x == n || s.Eligible(x);
    assert x in s.lanes && s.lanes[x] >= 0 ==> s.lanes[x] == lane;
    var r := resident[lane];
    assert r in e;
    assert (e[r].busy <==> r in b) && (e[r].switching <==> r in w);
    assert r !in b;
  }

  lemma ResidentsKnown(e: Entries, b: map<int, int>, w: map<int, int>, resident: seq<int>, n: nat,
                       ops: map<int, Own.Operation>)
    requires Own.Inv(Own.Catalog(Lanes(e), b, w, resident, n, ops))
    ensures forall l :: 0 <= l < |resident| ==> resident[l] in e
    ensures forall id :: id in e ==> e[id].lane < |resident|
  {
    hide Own.OneRequestPerStore, Own.Handovers;
    var s := Own.Catalog(Lanes(e), b, w, resident, n, ops);
    forall l | 0 <= l < |resident| ensures resident[l] in e { assert resident[l] in s.lanes; }
    forall id | id in e ensures e[id].lane < |resident| { assert s.lanes[id] == e[id].lane; }
  }

  lemma LanesResident(s: Own.Catalog, lane: int)
    requires Own.Inv(s) && 0 <= lane < |s.resident|
    ensures s.resident[lane] in s.lanes && s.nextId !in s.lanes
    ensures forall id :: id in s.lanes && s.lanes[id] == lane ==> s.resident[lane] == id
  {
    hide Own.OneRequestPerStore, Own.Handovers;
  }

  method FindFirst(n: nat, candidates: set<int>) returns (id: int)
    requires forall c :: c in candidates ==> 0 <= c < n
    ensures id == -1 <==> candidates == {}
    ensures id != -1 ==> id in candidates && forall c :: c in candidates ==> id <= c
  {
    for x := 0 to n
      invariant forall c :: c in candidates ==> c >= x
    {
      if x in candidates { return x; }
    }
    id := -1;
    assert candidates != {} ==> exists c :: c in candidates && 0 <= c < n;
  }

  /* ---------- The catalog's fields as values ---------- */

  function Lanes(e: Entries): map<int, int> { map id | id in e :: e[id].lane }

  predicate Flags(e: Entries, busyBy: map<int, int>, switchingBy: map<int, int>) {
    && busyBy.Keys <= e.Keys && switchingBy.Keys <= e.Keys
    && (forall id :: id in e ==> (e[id].busy <==> id in busyBy) && (e[id].switching <==> id in switchingBy))
  }

  predicate SameButLanes(a: Entries, b: Entries) {
    forall id :: id in a ==> id in b && a[id] == b[id].(lane := a[id].lane)
  }

  lemma KeysOfLanes(e: Entries)
    ensures Lanes(e).Keys == e.Keys
  {
  }

  lemma LanesLess(f: Entries, e: Entries, gone: set<int>)
    requires f.Keys == e.Keys - gone && forall id :: id in f ==> f[id].lane == e[id].lane
    ensures Lanes(f) == Lanes(e) - gone
  {
    var a, b := Lanes(f), Lanes(e) - gone;
    forall id ensures id in a <==> id in b {
      assert id in a <==> id in f.Keys;
      assert id in b <==> id in e.Keys - gone;
    }
    forall id | id in a ensures a[id] == b[id] {}
  }

  // The entries after a request has taken a store, and after it has taken its lane.
  function Chosen(e: Entries, n: int, id: int, outgoing: int, blank: Entry): Entries
    requires id == n || id in e
  {
    var grown := if id == n then e[id := blank] else e;
    var taken := grown[id := grown[id].(busy := true)];
    if id != outgoing && outgoing in taken then taken[outgoing := taken[outgoing].(switching := true)] else taken
  }

  function Given(e: Entries, id: int, outgoing: int, lane: int): Entries
    requires id in e
  {
    var given := e[id := e[id].(lane := lane)];
    if id != outgoing && outgoing in given then given[outgoing := given[outgoing].(lane := -1)] else given
  }

  // The store is busy, the one it displaces in handover, a new store is empty, and nothing else has changed.
  predicate OnlyReserved(e: Entries, f: Entries, id: int, outgoing: int) {
    && f.Keys == e.Keys + {id}
    && forall x ::
         x in f ==>
           f[x] == if x in e then
                     e[x].(busy := e[x].busy || x == id, switching := e[x].switching || (x == outgoing && x != id))
                   else Entry(-1, true, false, 0, 0, 0, NoKey, 0, false, 0, 0, 0)
  }

  lemma ChosenEntries(e: Entries, n: int, id: int, outgoing: int)
    requires (id == n || id in e) && (id == n ==> n !in e) && outgoing in e
    ensures OnlyReserved(e, Chosen(e, n, id, outgoing, NewEntry()), id, outgoing)
  {
  }

  lemma ChosenOwners(e: Entries, b: map<int, int>, w: map<int, int>, resident: seq<int>, n: nat,
                     ops: map<int, Own.Operation>,
                     lane: int, id: int, blank: Entry)
    requires Flags(e, b, w) && Below(e, n) && (id == n || id in e)
    requires blank.lane == -1 && !blank.busy && !blank.switching && blank.native == 0 && blank.reserved == 0 &&
             blank.attachment == 0
    requires Own.CanReserve(Own.Catalog(Lanes(e), b, w, resident, n, ops), lane, id) && resident[lane] in e
    ensures var out := resident[lane];
            var f, b', w' := Chosen(e, n, id, out, blank), b[id := lane], if id == out then w else w[out := lane];
            var m := if id == n then n + 1 else n;
            && id !in b && (id == n ==> n !in e) && Flags(f, b', w') && Below(f, m) && Charged(f, m) == Charged(e, n)
            && Own.ReserveStep(Own.Catalog(Lanes(e), b, w, resident, n, ops), lane, id) ==
               Own.Catalog(Lanes(f), b', w', resident, m, ops[lane := Own.Operation(id, out, id == n, Own.Selected)])
  {
    hide Charged;
    var out := resident[lane];
    assert !e[out].switching && (id != n ==> !e[id].busy);
    var grown := e;
    if id == n {
      AddStore(e, b, w, n, blank);
      grown := e[id := blank];
    }
    SetFlags(grown, b, w, id, true, grown[id].switching, lane);
    var taken := grown[id := grown[id].(busy := true)];
    if id != out { SetFlags(taken, b[id := lane], w, out, taken[out].busy, true, lane); }
  }

  lemma GivenOwners(e: Entries, b: map<int, int>, w: map<int, int>, resident: seq<int>, n: nat,
                    ops: map<int, Own.Operation>,
                    lane: int, phase: Own.Phase)
    requires Flags(e, b, w) && lane in ops && 0 <= lane < |resident| && ops[lane].id in e
    ensures var op := ops[lane]; var g := Given(e, op.id, op.outgoing, lane);
            && Flags(g, b, w) && SameButLanes(g, e) && g.Keys == e.Keys && (Below(e, n) ==> Below(g, n))
            && Own.OwnStep(Own.Catalog(Lanes(e), b, w, resident, n, ops), lane, phase) ==
               Own.Catalog(Lanes(g), b, w, resident[lane := op.id], n, ops[lane := op.(phase := phase)])
  {
    hide Flags, SameButLanes, Below;
    var op := ops[lane];
    GivenShape(e, op.id, op.outgoing, lane, n);
    SetLane(e, b, w, op.id, lane);
    var given := e[op.id := e[op.id].(lane := lane)];
    if op.id != op.outgoing && op.outgoing in e { SetLane(given, b, w, op.outgoing, -1); }
  }

  lemma GivenShape(e: Entries, id: int, outgoing: int, lane: int, n: nat)
    requires id in e
    ensures var g := Given(e, id, outgoing, lane);
            SameButLanes(g, e) && g.Keys == e.Keys && (Below(e, n) ==> Below(g, n))
  {
  }

  lemma GivenCheaper(g: Entries, e: Entries)
    requires SameButLanes(g, e)
    ensures NoDearer(g, e) && forall id :: id in g ==> id in e && g[id] == e[id].(lane := g[id].lane)
  {
  }

  lemma PutCheaper(g: Entries, e: Entries, n: nat, id: int, x: Entry)
    requires NoDearer(g, e) && Below(g, n) && id in g && id in e && x.Charge() <= e[id].Charge()
    ensures NoDearer(g[id := x], e) && Below(g[id := x], n)
  {
    hide Entry.Charge;
  }

  // A new store has no flags, lane or charge.
  lemma AddStore(e: Entries, b: map<int, int>, w: map<int, int>, n: nat, x: Entry)
    requires Flags(e, b, w) && Below(e, n) && x.lane == -1 && !x.busy && !x.switching && x.Charge() == 0
    ensures var f := e[n := x];
            Flags(f, b, w) && Lanes(f) == Lanes(e)[n := -1] && Charged(f, n + 1) == Charged(e, n) && Below(f, n + 1)
  {
    ChargedMonotone(e, e[n := x], n);
    ChargedMonotone(e[n := x], e, n);
    assert n !in e;
  }

  lemma SetFlags(e: Entries, b: map<int, int>, w: map<int, int>, id: int, busy: bool, switching: bool, lane: int)
    requires Flags(e, b, w) && id in e
    ensures var f := e[id := e[id].(busy := busy, switching := switching)];
            && Flags(f, if busy == e[id].busy then b else if busy then b[id := lane] else b - {id},
                        if switching == e[id].switching then w else if switching then w[id := lane] else w - {id})
            && Flags(f, if busy then b[id := lane] else b - {id},
                     if switching == e[id].switching then w else if switching then w[id := lane] else w - {id})
            && Lanes(f) == Lanes(e)
    ensures forall n :: Charged(e[id := e[id].(busy := busy, switching := switching)], n) == Charged(e, n)
  {
    var f := e[id := e[id].(busy := busy, switching := switching)];
    forall n ensures Charged(f, n) == Charged(e, n) {
      ChargedMonotone(e, f, n);
      ChargedMonotone(f, e, n);
    }
  }

  lemma SetLane(e: Entries, b: map<int, int>, w: map<int, int>, id: int, lane: int)
    requires Flags(e, b, w) && id in e
    ensures var f := e[id := e[id].(lane := lane)]; Flags(f, b, w) && Lanes(f) == Lanes(e)[id := lane]
  {
  }

  lemma SetContent(e: Entries, b: map<int, int>, w: map<int, int>, id: int, x: Entry)
    requires Flags(e, b, w) && id in e && x.lane == e[id].lane && x.busy == e[id].busy && x.switching == e[id].switching
    ensures Flags(e[id := x], b, w) && Lanes(e[id := x]) == Lanes(e)
  {
  }

  // The step LaneOwnership gives the region.
  lemma AdmittedOwners(e: Entries, busyBy: map<int, int>, switchingBy: map<int, int>, resident: seq<int>, n: nat,
                       ops: map<int, Own.Operation>, lane: int, waiting: set<Key>, dropped: set<int>, reservation: nat)
    requires Flags(e, busyBy, switchingBy) && lane in ops && ops[lane].phase.Ready? && ops[lane].id in e
    requires dropped <= Reclaimable(e, waiting, ops[lane].id)
    ensures var s := Own.Catalog(Lanes(e), busyBy, switchingBy, resident, n, ops);
            var r := Reclaim(e, dropped, ops[lane].outgoing);
            && Own.CanAdmit(s, lane, dropped) && ops[lane].id in r
            && Own.AdmitStep(s, lane, dropped) == Own.Catalog(Lanes(r), busyBy, switchingBy, resident, n, ops)
            && Lanes(Reserved(r, ops[lane].id, reservation)) == Lanes(r)
            && Flags(Reserved(r, ops[lane].id, reservation), busyBy, switchingBy)
  {
    ReclaimKeepsFlags(e, busyBy, switchingBy, waiting, dropped, ops[lane].outgoing, ops[lane].id);
  }

  lemma ReclaimKeepsFlags(e: Entries, busyBy: map<int, int>, switchingBy: map<int, int>, waiting: set<Key>,
                          dropped: set<int>, outgoing: int, owner: int)
    requires Flags(e, busyBy, switchingBy) && dropped <= Reclaimable(e, waiting, owner)
    ensures var r := Reclaim(e, dropped, outgoing);
            && Flags(r, busyBy, switchingBy) && Lanes(r) == Lanes(e) - (dropped - {outgoing})
            && busyBy - (dropped - {outgoing}) == busyBy && switchingBy - (dropped - {outgoing}) == switchingBy
            && NoDearer(r, e) && r.Keys <= e.Keys
  {
    LanesLess(Reclaim(e, dropped, outgoing), e, dropped - {outgoing});
    forall id | id in dropped ensures id !in busyBy && id !in switchingBy { assert e[id].Parked(); }
    Own.SameFlags(busyBy, dropped - {outgoing});
    Own.SameFlags(switchingBy, dropped - {outgoing});
  }

  /* ---------- Reservations ---------- */

  /** Only a request that is ready holds a reservation, on its own store, and the attachments of a store that is on
      a lane for its request are back in RAM. */
  predicate Admissible(e: Entries, b: map<int, int>, ops: map<int, Own.Operation>) {
    && (forall id ::
          id in e && e[id].reserved > 0 ==> id in b && b[id] in ops && ops[b[id]].id == id && ops[b[id]].phase.Ready?)
    && (forall lane :: lane in ops && (ops[lane].phase.Published? || ops[lane].phase.Ready?) && ops[lane].id in e ==>
          e[ops[lane].id].attachment == 0)
  }

  predicate NoMore(f: Entries, e: Entries) {
    forall id :: id in f ==> if id in e then f[id].reserved <= e[id].reserved && f[id].attachment <= e[id].attachment
                             else f[id].reserved == 0 && f[id].attachment == 0
  }

  lemma ChosenAdmissible(e: Entries, b: map<int, int>, ops: map<int, Own.Operation>, n: int, id: int, outgoing: int,
                         blank: Entry,
                         lane: int, added: bool)
    requires Admissible(e, b, ops) && (id == n || id in e) && id !in b && lane !in ops && (id == n ==> n !in e)
    requires blank.reserved == 0 && blank.attachment == 0
    ensures Admissible(Chosen(e, n, id, outgoing, blank), b[id := lane],
                       ops[lane := Own.Operation(id, outgoing, added, Own.Selected)])
  {
    hide Chosen;
    ChosenSizes(e, n, id, outgoing, blank);
    var f := Chosen(e, n, id, outgoing, blank);
    assert id in e ==> e[id].reserved == 0;
    forall x | x in f && f[x].reserved > 0 ensures x in b && x != id && b[x] in ops && b[x] != lane {
      assert x in e && e[x].reserved > 0;
    }
    forall l | l in ops && (ops[l].phase.Published? || ops[l].phase.Ready?) && ops[l].id in f
      ensures f[ops[l].id].attachment == 0
    {
      if ops[l].id in e { assert e[ops[l].id].attachment == 0; }
    }
  }

  lemma ChosenSizes(e: Entries, n: int, id: int, outgoing: int, blank: Entry)
    requires (id == n || id in e) && (id == n ==> n !in e) && blank.reserved == 0 && blank.attachment == 0
    ensures var f := Chosen(e, n, id, outgoing, blank);
            && NoMore(f, e)
            && (forall x :: x in f && x in e ==> f[x].reserved == e[x].reserved && f[x].attachment == e[x].attachment)
  {
  }

  lemma PhaseAdmissible(f: Entries, e: Entries, b: map<int, int>, ops: map<int, Own.Operation>, lane: int,
                        phase: Own.Phase)
    requires Admissible(e, b, ops) && NoMore(f, e) && lane in ops && !ops[lane].phase.Ready?
    requires (phase.Published? || phase.Ready?) && ops[lane].id in f ==> f[ops[lane].id].attachment == 0
    ensures Admissible(f, b, ops[lane := ops[lane].(phase := phase)])
  {
  }

  lemma AdmitAdmissible(e: Entries, b: map<int, int>, ops: map<int, Own.Operation>, lane: int, dropped: set<int>,
                        reservation: nat)
    requires Admissible(e, b, ops) && lane in ops && ops[lane].phase.Ready? && ops[lane].id in e &&
             ops[lane].id !in dropped
    requires ops[lane].id in b && b[ops[lane].id] == lane
    ensures Admissible(Reclaim(e, dropped, ops[lane].outgoing), b, ops)
    ensures Admissible(Reserved(Reclaim(e, dropped, ops[lane].outgoing), ops[lane].id, reservation), b, ops)
  {
    ReclaimNoMore(e, dropped, ops[lane].outgoing);
    hide Reclaim;
  }

  lemma ReclaimNoMore(e: Entries, dropped: set<int>, outgoing: int)
    ensures NoMore(Reclaim(e, dropped, outgoing), e)
  {
  }

  // A request that ends takes its reservation with it.
  lemma EndAdmissible(f: Entries, e: Entries, b: map<int, int>, ops: map<int, Own.Operation>, lane: int,
                      after: map<int, Own.Operation>)
    requires Admissible(e, b, ops) && NoMore(f, e) && lane in ops
    requires after == ops - {lane} ||
             exists attached :: after == ops[lane := ops[lane].(phase := Own.Failing(attached))]
    requires var op := ops[lane];
             (op.id in f ==> f[op.id].reserved == 0) && (op.Active() in f ==> f[op.Active()].reserved == 0)
    ensures Admissible(f, b - {ops[lane].id}, after) && Admissible(f, b - {ops[lane].Active(), ops[lane].id}, after)
  {
    var op := ops[lane];
    forall id | id in f && f[id].reserved > 0
      ensures id in b && b[id] in after && after[b[id]] == ops[b[id]] && ops[b[id]].id == id && ops[b[id]].phase.Ready?
    {
      assert id in e && e[id].reserved > 0;
      assert b[id] != lane;
    }
  }

  // A store whose request is not ready has no reservation.
  lemma UnreadyUnreserved(e: Entries, b: map<int, int>, ops: map<int, Own.Operation>, lane: int)
    requires Admissible(e, b, ops) && lane in ops && !ops[lane].phase.Ready? && ops[lane].id in e
    requires ops[lane].id in b ==> b[ops[lane].id] == lane
    ensures e[ops[lane].id].reserved == 0
  {
  }

  lemma ParkedHaveNone(e: Entries, b: map<int, int>, w: map<int, int>, ops: map<int, Own.Operation>)
    requires Flags(e, b, w) && Admissible(e, b, ops)
    ensures ParkedUnreserved(e)
  {
  }

  function Demoted(e: Entries, id: int, size: nat, ok: bool, spilled: bool, onDisk: nat): Entries
    requires id in e
  {
    e[id := e[id].(cold := true,
                   attachment := if !ok then e[id].attachment else if spilled then e[id].attachment + size else onDisk)]
  }

  function Admitted(e: Entries, op: Own.Operation, required: nat, ok: bool, dropped: set<int>): Entries {
    var left := Reclaim(e, dropped, op.outgoing);
    if ok && op.id in left then Reserved(left, op.id, Larger(required, left[op.id].native)) else left
  }

  lemma AdmittedEntries(e: Entries, op: Own.Operation, required: nat, ok: bool, dropped: set<int>)
    requires op.id in e && op.id !in dropped
    ensures var f := Admitted(e, op, required, ok, dropped);
            && f.Keys == e.Keys - (dropped - {op.outgoing})
            && forall id ::
                 id in f ==>
                   f[id] == if id == op.id && ok then e[id].(reserved := Larger(required, e[id].native))
                            else if id in dropped then
                              e[id].(rows := 0, bytes := 0, client := NoKey, cold := false, native := 0,
                                     attachment := 0)
                            else e[id]
  {
    hide Larger;
  }

  lemma DemotedAdmissible(e: Entries, b: map<int, int>, ops: map<int, Own.Operation>, id: int, x: Entry)
    requires Admissible(e, b, ops) && id in e && x.reserved == e[id].reserved
    requires forall l :: l in ops && !ops[l].phase.Failing? ==> ops[l].id != id
    ensures Admissible(e[id := x], b, ops)
  {
  }

  lemma SettledOwners(e: Entries, b: map<int, int>, w: map<int, int>, id: int, bytes: nat)
    requires Flags(e, b, w) && id in e
    ensures var f := e[id := e[id].(switching := false, bytes := bytes)]; Flags(f, b, w - {id}) && Lanes(f) == Lanes(e)
  {
  }

  lemma OwnerIsSafe(e: Entries, waiting: set<Key>, dropped: set<int>, owner: int)
    requires dropped <= Reclaimable(e, waiting, owner)
    ensures owner !in dropped
  {
  }

  // Nothing is reserved any more on the stores of a request that has ended.
  predicate Ended(f: Entries, e: Entries, op: Own.Operation) {
    NoMore(f, e) && (op.id in f ==> f[op.id].reserved == 0) && (op.Active() in f ==> f[op.Active()].reserved == 0)
  }

  lemma CommitEnds(e: Entries, b: map<int, int>, ops: map<int, Own.Operation>, lane: int, m: Measure, used: nat)
    requires Admissible(e, b, ops) && lane in ops && ops[lane].Active() in e && ops[lane].id in e
    requires ops[lane].id in b && b[ops[lane].id] == lane && (ops[lane].added ==> ops[lane].id != ops[lane].outgoing)
    requires !ops[lane].phase.Failing?
    ensures Ended(Committed(e, ops[lane], m, used), e, ops[lane])
  {
    hide Committed;
    CommittedShape(e, ops[lane], m, used);
    if ops[lane].id != ops[lane].Active() { UnreadyUnreserved(e, b, ops, lane); }
  }

  lemma TrimmedEnded(g: Entries, f: Entries, e: Entries, gone: set<int>, op: Own.Operation)
    requires Trimmed(g, f, gone) && Ended(f, e, op)
    ensures Ended(g, e, op)
  {
  }

  lemma CaughtRows(e: Entries, op: Own.Operation)
    ensures var f := Caught(e, op); forall id :: id in f && (id == op.outgoing || id == op.Active()) ==> f[id].rows == 0
  {
  }

  lemma CaughtAdmissible(e: Entries, b: map<int, int>, w: map<int, int>, resident: seq<int>, n: nat,
                         ops: map<int, Own.Operation>, lane: int)
    requires Admissible(e, b, ops) && lane in ops
    requires var s := Own.Catalog(Lanes(e), b, w, resident, n, ops); Own.Inv(s)
    ensures var op := ops[lane];
            var s := Own.Catalog(Lanes(e), b, w, resident, n, ops);
            Own.FlagsAreOwn(s, Own.Catch(lane)) ==>
              Admissible(Caught(e, op), b - Undone(op) - {op.Active(), op.id}, ops - {lane})
  {
    hide Caught, Lanes;
    var op, f := ops[lane], Caught(e, ops[lane]);
    CaughtShape(e, op);
    if !Own.FlagsAreOwn(Own.Catalog(Lanes(e), b, w, resident, n, ops), Own.Catch(lane)) { return; }
    if op.id in f && op.id != op.Active() { UnreadyUnreserved(e, b, ops, lane); }
    EndAdmissible(f, e, b, ops, lane, ops - {lane});
    assert b - Undone(op) - {op.Active(), op.id} == b - {op.Active(), op.id};
  }
}
