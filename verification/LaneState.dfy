/**
 The whole state of the lane catalog as a value, and the state after each locked region. Every
 region keeps the state valid, takes the step LaneOwnership gives it, and keeps the charge on
 the payload budget.
 */
module LaneState {
  import opened StoreAccounting
  import opened LaneEviction
  import opened LaneEntries
  import Own = LaneOwnership

  datatype State = State(e: Entries, b: map<int, int>, w: map<int, int>, resident: seq<int>, n: nat,
                         ops: map<int, Own.Operation>) {
    function Owners(): Own.Catalog { Own.Catalog(Lanes(e), b, w, resident, n, ops) }

    predicate Valid() { Flags(e, b, w) && Below(e, n) && Own.Inv(Owners()) && Admissible(e, b, ops) }

    predicate Has(lane: int) { lane in ops && 0 <= lane < |resident| && ops[lane].id in e }
  }

  // At startup every lane holds one empty store.
  function Initial(measured: seq<Measure>): Entries {
    if measured == [] then map[]
    else
      var k := |measured| - 1;
      Initial(measured[..k])[k := NewEntry().(lane := k, bytes := measured[k].bytes, native := measured[k].native)]
  }

  lemma {:induction false} InitialShape(measured: seq<Measure>)
    ensures var e := Initial(measured);
            && Lanes(e) == Own.Identity(|measured|) && Below(e, |measured|)
            && forall id :: id in e ==> !e[id].busy && !e[id].switching && e[id].reserved == 0
  {
    hide NewEntry;
    if measured != [] { InitialShape(measured[..|measured| - 1]); }
  }

  lemma InitialValid(measured: seq<Measure>)
    ensures var n := |measured|; var s := State(Initial(measured), map[], map[], Own.Count(n), n, map[]);
            s.Valid() && s.Owners() == Own.Startup(n)
  {
    hide Initial, NewEntry, Own.Inv, Lanes, Own.Count, Own.Identity;
    InitialShape(measured);
    Own.StartupHolds(|measured|);
  }

  /* ---------- The state after each region ---------- */

  function Reserve(s: State, lane: int, id: int, blank: Entry): State
    requires 0 <= lane < |s.resident| && (id == s.n || id in s.e)
  {
    var out := s.resident[lane];
    State(Chosen(s.e, s.n, id, out, blank), s.b[id := lane], if id == out then s.w else s.w[out := lane], s.resident,
          if id == s.n then s.n + 1 else s.n, s.ops[lane := Own.Operation(id, out, id == s.n, Own.Selected)])
  }

  function TakeLane(s: State, lane: int, phase: Own.Phase): State
    requires s.Has(lane)
  {
    var op := s.ops[lane];
    s.(e := Given(s.e, op.id, op.outgoing, lane), resident := s.resident[lane := op.id],
       ops := s.ops[lane := op.(phase := phase)])
  }

  function Publish(s: State, lane: int, client: Key, incoming: nat, out: Measure): State
    requires s.Has(lane)
  {
    var t, op := TakeLane(s, lane, Own.Published), s.ops[lane];
    var f := t.e[op.id := t.e[op.id].(client := client, native := incoming, attachment := 0, cold := false)];
    t.(e := if op.id != op.outgoing && op.outgoing in f then
         f[op.outgoing := f[op.outgoing].(rows := out.rows, bytes := out.bytes, native := out.native)]
       else f)
  }

  function Settle(s: State, lane: int, bytes: nat): State
    requires lane in s.ops
  {
    var op := s.ops[lane];
    if op.id != op.outgoing && op.outgoing in s.e then
      State(s.e[op.outgoing := s.e[op.outgoing].(switching := false, bytes := bytes)], s.b, s.w - {op.outgoing},
            s.resident, s.n,
            s.ops[lane := op.(phase := Own.Ready)])
    else s.(ops := s.ops[lane := op.(phase := Own.Ready)])
  }

  function Commit(s: State, lane: int, m: Measure, used: nat): State
    requires s.Has(lane) && s.ops[lane].Active() in s.e
  {
    var op := s.ops[lane];
    s.(e := Committed(s.e, op, m, used), b := s.b - {op.id}, w := ReleasedSwitching(s.w, op))
  }

  function Leave(s: State, lane: int, left: Entries, throws: bool): State
    requires lane in s.ops
  {
    s.(e := left,
       ops := if throws then s.ops[lane := s.ops[lane].(phase := Own.Failing(s.ops[lane].Attached()))]
       else s.ops - {lane})
  }

  function Catch(s: State, lane: int): State
    requires lane in s.ops
  {
    var op := s.ops[lane];
    State(Caught(s.e, op), s.b - Undone(op) - {op.Active(), op.id}, s.w - Undone(op) - {op.outgoing}, s.resident, s.n,
          s.ops - {lane})
  }

  /* ---------- Every region keeps the state valid ---------- */

  lemma StoresKnown(s: State)
    requires s.Valid()
    ensures Below(s.e, s.n) && (forall l :: 0 <= l < |s.resident| ==> s.resident[l] in s.e) &&
            forall id :: id in s.e ==> s.e[id].lane < |s.resident|
    ensures forall l :: l in s.ops ==> 0 <= l < |s.resident|
  {
    LanesKnown(s.Owners());
    hide Own.Inv, Lanes, Flags, Admissible;
    ResidentsKnown(s.e, s.b, s.w, s.resident, s.n, s.ops);
  }

  lemma LanesKnown(c: Own.Catalog)
    requires Own.Inv(c)
    ensures forall l :: l in c.ops ==> 0 <= l < |c.resident|
  {
  }

  // What select() tests is what reserving needs.
  lemma ChosenFits(s: State, leased: seq<bool>, id: int, lane: int)
    requires s.Valid() && |leased| == |s.resident| && (forall l :: l in s.ops ==> 0 <= l < |leased| ==> leased[l])
    requires 0 <= lane < |s.resident| && !leased[lane]
    requires id >= 0 ==> id in s.e && Eligible(s.e[id], leased)
    requires if id >= 0 && s.e[id].lane >= 0 then lane == s.e[id].lane else LaneFree(s.e, s.resident, leased, lane)
    ensures Own.CanReserve(s.Owners(), lane, if id < 0 then s.n else id)
  {
    hide Own.Inv, Lanes, Flags, Admissible, Eligible, LaneFree;
    StoresKnown(s);
    ChosenCanReserve(s.e, s.b, s.w, s.resident, s.n, s.ops, leased, id, lane);
  }

  lemma ReserveKeeps(s: State, lane: int, id: int, blank: Entry)
    requires s.Valid() && Own.CanReserve(s.Owners(), lane, id)
    requires blank.lane == -1 && !blank.busy && !blank.switching && blank.native == 0 && blank.reserved == 0 &&
             blank.attachment == 0
    ensures 0 <= lane < |s.resident| && (id == s.n || id in s.e) && s.resident[lane] in s.e
    ensures var t := Reserve(s, lane, id, blank);
            t.Valid() && t.Owners() == Own.ReserveStep(s.Owners(), lane, id) && Charged(t.e, t.n) == Charged(s.e, s.n)
  {
    hide Own.Inv, Lanes, Flags, Admissible, Charged, Chosen, Below, Own.ReserveStep;
    LanesResident(s.Owners(), lane);
    KeysOfLanes(s.e);
    ChosenOwners(s.e, s.b, s.w, s.resident, s.n, s.ops, lane, id, blank);
    ChosenAdmissible(s.e, s.b, s.ops, s.n, id, s.resident[lane], blank, lane, id == s.n);
    Own.ReserveKeeps(s.Owners(), lane, id);
  }

  // What the invariant says of a request that has not failed.
  lemma RequestKnown(s: State, lane: int)
    requires s.Valid() && lane in s.ops && !s.ops[lane].phase.Failing?
    ensures s.Has(lane) && s.ops[lane].Active() in s.e && (s.ops[lane].added ==> s.ops[lane].id != s.ops[lane].outgoing)
    ensures s.ops[lane].id in s.b && s.b[s.ops[lane].id] == lane
    ensures s.ops[lane].Displacing() || s.ops[lane].id == s.ops[lane].outgoing ==> s.ops[lane].outgoing in s.e
    ensures s.ops[lane].Displacing() ==>
              forall l :: l in s.ops && !s.ops[l].phase.Failing? ==> s.ops[l].id != s.ops[lane].outgoing
    ensures !s.ops[lane].phase.Ready? ==> s.e[s.ops[lane].id].reserved == 0
    ensures s.ops[lane].phase.Published? || s.ops[lane].phase.Ready? ==> s.e[s.ops[lane].id].attachment == 0
  {
    hide Lanes, Own.Bijection, Own.OneRequestPerStore, Own.Handovers, Flags;
    ActiveKnown(s.Owners(), lane);
    KeysOfLanes(s.e);
  }

  lemma HandoverKeeps(s: State, lane: int)
    requires s.Valid() && Own.CanHandover(s.Owners(), lane)
    ensures s.Has(lane) && s.ops[lane].outgoing in s.e && s.ops[lane].id != s.ops[lane].outgoing
    ensures var t := TakeLane(s, lane, Own.HandedOver);
            t.Valid() && t.Owners() == Own.OwnStep(s.Owners(), lane, Own.HandedOver) &&
            Charged(t.e, t.n) <= Charged(s.e, s.n)
  {
    hide Own.Inv, Lanes, Flags, Given, Admissible, Below, Charged, Own.OwnStep;
    RequestKnown(s, lane);
    Own.OwnKeeps(s.Owners(), lane, Own.HandedOver);
    GivenOwners(s.e, s.b, s.w, s.resident, s.n, s.ops, lane, Own.HandedOver);
    var t := TakeLane(s, lane, Own.HandedOver);
    PhaseAdmissible(t.e, s.e, s.b, s.ops, lane, Own.HandedOver);
    ChargedMonotone(t.e, s.e, s.n);
  }

  // The measured sizes are no larger than what the catalog charged for what moved.
  predicate Moved(s: State, lane: int, incoming: nat, out: Measure) {
    lane in s.ops ==>
      && (s.ops[lane].id in s.e ==> incoming <= s.e[s.ops[lane].id].Charge())
      && (s.ops[lane].outgoing in s.e ==> out.native <= s.e[s.ops[lane].outgoing].native)
  }

  lemma PublishKeeps(s: State, lane: int, client: Key, incoming: nat, out: Measure)
    requires s.Valid() && Own.CanPublish(s.Owners(), lane) && Moved(s, lane, incoming, out)
    ensures s.Has(lane) && s.ops[lane].outgoing in s.e
    ensures var t := Publish(s, lane, client, incoming, out);
            t.Valid() && t.Owners() == Own.OwnStep(s.Owners(), lane, Own.Published) &&
            Charged(t.e, t.n) <= Charged(s.e, s.n)
  {
    hide Own.Inv, Lanes, Flags, Admissible, Charged, NoDearer, NoMore, Own.OwnStep;
    RequestKnown(s, lane);
    Own.OwnKeeps(s.Owners(), lane, Own.Published);
    GivenOwners(s.e, s.b, s.w, s.resident, s.n, s.ops, lane, Own.Published);
    var op, g, t := s.ops[lane], TakeLane(s, lane, Own.Published), Publish(s, lane, client, incoming, out);
    var f := g.e[op.id := g.e[op.id].(client := client, native := incoming, attachment := 0, cold := false)];
    SetContent(g.e, s.b, s.w, op.id, f[op.id]);
    if op.id != op.outgoing { SetContent(f, s.b, s.w, op.outgoing, t.e[op.outgoing]); }
    PublishedSizes(s, lane, client, incoming, out);
    PublishedCheaper(s, lane, client, incoming, out);
    PhaseAdmissible(t.e, s.e, s.b, s.ops, lane, Own.Published);
    ChargedMonotone(t.e, s.e, s.n);
  }

  lemma PublishedEntries(s: State, lane: int, client: Key, incoming: nat, out: Measure)
    requires s.Has(lane)
    ensures var op, t := s.ops[lane], Publish(s, lane, client, incoming, out);
            && t.resident == s.resident[lane := op.id] && t.ops == s.ops[lane := op.(phase := Own.Published)]
            && t.e.Keys == s.e.Keys
            && forall id ::
                 id in t.e ==>
                   t.e[id] == if id == op.id then
                                s.e[id].(lane := lane, client := client, native := incoming, attachment := 0,
                                         cold := false)
                              else if id == op.outgoing then
                                s.e[id].(lane := -1, rows := out.rows, bytes := out.bytes, native := out.native)
                              else s.e[id]
  {
  }

  lemma PublishedCheaper(s: State, lane: int, client: Key, incoming: nat, out: Measure)
    requires s.Has(lane) && Moved(s, lane, incoming, out) && Below(s.e, s.n)
    ensures var t := Publish(s, lane, client, incoming, out);
            t.n == s.n && NoDearer(t.e, s.e) && Below(t.e, t.n)
  {
    hide Given, SameButLanes, Below, NoDearer;
    var op := s.ops[lane];
    var g := Given(s.e, op.id, op.outgoing, lane);
    GivenShape(s.e, op.id, op.outgoing, lane, s.n);
    GivenCheaper(g, s.e);
    var x := g[op.id].(client := client, native := incoming, attachment := 0, cold := false);
    PutCheaper(g, s.e, s.n, op.id, x);
    if op.id != op.outgoing && op.outgoing in g {
      PutCheaper(g[op.id := x], s.e, s.n, op.outgoing,
                 g[op.outgoing].(rows := out.rows, bytes := out.bytes, native := out.native));
    }
  }

  lemma PublishedSizes(s: State, lane: int, client: Key, incoming: nat, out: Measure)
    requires s.Has(lane) && s.ops[lane].outgoing in s.e
    ensures var t := Publish(s, lane, client, incoming, out);
            NoMore(t.e, s.e) && t.e[s.ops[lane].id].attachment == 0
  {
    hide Given;
    GivenShape(s.e, s.ops[lane].id, s.ops[lane].outgoing, lane, s.n);
  }

  lemma DemoteKeeps(s: State, lane: int, x: Entry)
    requires s.Valid() && lane in s.ops && !s.ops[lane].phase.Failing? && s.ops[lane].Displacing()
    requires var id := s.ops[lane].outgoing; id in s.e ==> x == s.e[id].(cold := x.cold, attachment := x.attachment)
    ensures var id := s.ops[lane].outgoing;
            id in s.e && var t := s.(e := s.e[id := x]); t.Valid() && t.Owners() == s.Owners()
    ensures var id := s.ops[lane].outgoing;
            Charged(s.e[id := x], s.n) + s.e[id].attachment == Charged(s.e, s.n) + x.attachment
  {
    hide Own.Inv, Lanes, Charged;
    var id := s.ops[lane].outgoing;
    RequestKnown(s, lane);
    SetContent(s.e, s.b, s.w, id, x);
    DemotedAdmissible(s.e, s.b, s.ops, id, x);
    ChargedSplit(s.e, s.n, id);
    ChargedPut(s.e, s.n, id, x);
  }

  lemma SettleKeeps(s: State, lane: int, bytes: nat)
    requires s.Valid() && lane in s.ops && s.ops[lane].phase.Published?
    ensures s.Has(lane) && s.ops[lane].outgoing in s.e
    ensures var t := Settle(s, lane, bytes);
            t.Valid() && t.Owners() == Own.SettleStep(s.Owners(), lane) && Charged(t.e, t.n) <= Charged(s.e, s.n)
  {
    hide Own.Inv, Lanes, Flags, Admissible, Charged;
    var op, t := s.ops[lane], Settle(s, lane, bytes);
    RequestKnown(s, lane);
    Own.SettleKeeps(s.Owners(), lane);
    if op.id != op.outgoing { SettledOwners(s.e, s.b, s.w, op.outgoing, bytes); }
    PhaseAdmissible(t.e, s.e, s.b, s.ops, lane, Own.Ready);
    ChargedMonotone(t.e, s.e, s.n);
  }

  lemma RoomKnown(s: State)
    requires s.Valid()
    ensures Below(s.e, s.n) && ParkedUnreserved(s.e)
  {
    hide Own.Inv, Lanes, ParkedUnreserved;
    ParkedHaveNone(s.e, s.b, s.w, s.ops);
  }

  lemma AdmitKeeps(s: State, lane: int, waiting: set<Key>, dropped: set<int>, ok: bool, required: nat)
    requires s.Valid() && lane in s.ops && s.ops[lane].phase.Ready? &&
             dropped <= Reclaimable(s.e, waiting, s.ops[lane].id)
    ensures Own.CanAdmit(s.Owners(), lane, dropped)
    ensures var t := s.(e := Admitted(s.e, s.ops[lane], required, ok, dropped));
            t.Valid() && t.Owners() == Own.AdmitStep(s.Owners(), lane, dropped)
  {
    hide Own.Inv, Lanes, Flags, Admissible, Reclaim, Own.AdmitStep, Reclaimable, Own.CanAdmit;
    var op := s.ops[lane];
    RequestKnown(s, lane);
    OwnerIsSafe(s.e, waiting, dropped, op.id);
    ReclaimKeepsFlags(s.e, s.b, s.w, waiting, dropped, op.outgoing, op.id);
    var left := Reclaim(s.e, dropped, op.outgoing);
    var reservation := if op.id in left then Larger(required, left[op.id].native) else 0;
    AdmittedOwners(s.e, s.b, s.w, s.resident, s.n, s.ops, lane, waiting, dropped, reservation);
    AdmitAdmissible(s.e, s.b, s.ops, lane, dropped, reservation);
    Own.AdmitKeeps(s.Owners(), lane, dropped);
  }

  lemma CommitKeeps(s: State, lane: int, m: Measure, used: nat, cleared: int -> Measure)
    requires s.Valid() && lane in s.ops && !s.ops[lane].phase.Failing? && Fits(s.e, s.ops[lane], m, cleared)
    ensures s.Has(lane) && s.ops[lane].Active() in s.e && (s.ops[lane].added ==> s.ops[lane].id != s.ops[lane].outgoing)
    ensures var t := Commit(s, lane, m, used);
            && t.Owners() == Own.CommitStep(s.Owners(), lane) && Flags(t.e, t.b, t.w) && Below(t.e, t.n)
            && Charged(t.e, t.n) <= Charged(s.e, s.n) && Ended(t.e, s.e, s.ops[lane])
            && NoGrowth(t.e, cleared)
            && (OutgoingErased(s, lane) <==> s.ops[lane].outgoing !in t.e)
  {
    hide Own.Inv, Lanes, Flags, Admissible, Charged, Committed, Own.CommitStep, Below, Ended;
    RequestKnown(s, lane);
    KeysOfLanes(Commit(s, lane, m, used).e);
    CommitOwners(s.e, s.b, s.w, s.resident, s.n, s.ops, lane, m, used);
    CommitSizes(s.e, s.ops[lane], m, used, cleared, s.n);
    CommitEnds(s.e, s.b, s.ops, lane, m, used);
  }

  /** The outcome of finish(): valid exactly if the flag it cleared on the displaced store was its own. */
  predicate Finished(s: State, u: State, lane: int, gone: set<int>, throws: bool) {
    && Own.CanFinish(s.Owners(), lane, gone, throws) && u.Owners() == Own.FinishStep(s.Owners(), lane, gone, throws)
    && (u.Valid() <==> Own.OwnsOutgoing(s.Owners(), lane)) && Charged(u.e, u.n) <= Charged(s.e, s.n)
  }

  // What is left of the stores is what the commit recorded, less the ones that enforcement gave up.
  predicate Commits(s: State, lane: int, m: Measure, used: nat, left: Entries, gone: set<int>) {
    s.Has(lane) && s.ops[lane].Active() in s.e && Trimmed(left, Commit(s, lane, m, used).e, gone)
  }

  // Another request has erased the store that this one displaced.
  predicate OutgoingErased(s: State, lane: int) {
    lane in s.ops && s.ops[lane].outgoing !in Own.CommitStep(s.Owners(), lane).lanes
  }

  lemma LeaveKeeps(s: State, lane: int, m: Measure, used: nat, left: Entries, gone: set<int>, throws: bool)
    requires s.Valid() && lane in s.ops && !s.ops[lane].phase.Failing?
    requires s.Has(lane) && s.ops[lane].Active() in s.e
    requires var t := Commit(s, lane, m, used);
             && t.Owners() == Own.CommitStep(s.Owners(), lane) && Flags(t.e, t.b, t.w) && Below(t.e, t.n) &&
                Ended(t.e, s.e, s.ops[lane])
             && Trimmed(left, t.e, gone) && (s.ops[lane].outgoing !in t.e ==> throws && gone == {}) &&
                Charged(t.e, t.n) <= Charged(s.e, s.n)
    ensures Finished(s, Leave(Commit(s, lane, m, used), lane, left, throws), lane, gone, throws) &&
            Commits(s, lane, m, used, left, gone)
  {
    hide Own.Inv, Lanes, Flags, Admissible, Charged, Committed, Own.CommitStep, Below, Ended, Trimmed, Own.OwnsOutgoing;
    var t := Commit(s, lane, m, used);
    var u := Leave(t, lane, left, throws);
    KeysOfLanes(t.e);
    TrimmedOwners(left, t.e, gone, t.b, t.w, t.resident, t.n, t.ops);
    TrimmedCharge(left, t.e, gone, t.n);
    TrimmedEnded(left, t.e, s.e, gone, s.ops[lane]);
    LeaveAdmissible(s, lane, left, u.ops, throws);
    Own.FinishExact(s.Owners(), lane, gone, throws);
  }

  lemma LeaveAdmissible(s: State, lane: int, left: Entries, after: map<int, Own.Operation>, throws: bool)
    requires s.Valid() && lane in s.ops && Ended(left, s.e, s.ops[lane])
    requires after == if throws then s.ops[lane := s.ops[lane].(phase := Own.Failing(s.ops[lane].Attached()))]
             else s.ops - {lane}
    ensures Admissible(left, s.b - {s.ops[lane].id}, after)
  {
    hide Own.Inv, Lanes, Flags, Admissible;
    EndAdmissible(left, s.e, s.b, s.ops, lane, after);
  }

  lemma CatchKeeps(s: State, lane: int)
    requires s.Valid() && lane in s.ops
    ensures var t := Catch(s, lane);
            && t.Owners() == Own.CatchStep(s.Owners(), lane) && Charged(t.e, t.n) <= Charged(s.e, s.n)
            && (t.Valid() <==> Own.OwnsOutgoing(s.Owners(), lane) && Own.OwnsId(s.Owners(), lane))
    ensures var t := Catch(s, lane);
            forall id :: id in t.e && (id == s.ops[lane].outgoing || id == s.ops[lane].Active()) ==> t.e[id].rows == 0
  {
    hide Own.Inv, Lanes, Flags, Admissible, Charged, Caught, Own.CatchStep, Below, Own.OwnsOutgoing, Own.OwnsId;
    CaughtRows(s.e, s.ops[lane]);
    CatchCharge(s.e, s.ops[lane], s.n);
    Own.CatchExact(s.Owners(), lane);
    CatchOwners(s.e, s.b, s.w, s.resident, s.n, s.ops, lane);
    CaughtAdmissible(s.e, s.b, s.w, s.resident, s.n, s.ops, lane);
  }
}
