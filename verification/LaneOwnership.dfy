/**
 Who owns what in the lane catalog of tools/kvmem-lane-conversations.h.

 Several requests are in flight at once. Each region the source executes under the catalog
 mutex is one atomic step, and a run is any interleaving of such steps. Which store a request
 picks is arbitrary as long as it passes the source's eligibility tests.

 Only ownership is kept here: which lane a store is on, and its busy and switching flags.
 LaneCatalog has the whole entries and shows that its methods take these steps.
 */
module LaneOwnership {

  /** Where a request stands. Failing is the window between an exception inside finish() and its
      catch block taking the mutex again. */
  datatype Phase = Selected | HandedOver | Published | Ready | Failing(wasAttached: bool)

  datatype Operation = Operation(id: int, outgoing: int, added: bool, phase: Phase) {
    predicate Attached() {
      phase.HandedOver? || phase.Published? || phase.Ready? || (phase.Failing? && phase.wasAttached)
    }

    // The store this request displaces is still being moved out of the lane.
    predicate Displacing() { id != outgoing && (phase.Selected? || phase.HandedOver? || phase.Published?) }

    function Active(): int { if Attached() then id else outgoing }
  }

  /** lanes has one key per store; a parked store is on lane -1. A key of busy or switching is a store whose
      flag is set; the value, which no step reads, remembers the lane of the request that set it.
      ops has one key per leased lane. */
  datatype Catalog = Catalog(lanes: map<int, int>, busy: map<int, int>, switching: map<int, int>,
                             resident: seq<int>, nextId: int, ops: map<int, Operation>)
  {
    predicate Parked(id: int) { id in lanes && lanes[id] < 0 && id !in busy && id !in switching }

    predicate Eligible(id: int) {
      id in lanes && id !in busy && id !in switching && (lanes[id] < 0 || lanes[id] !in ops)
    }

    function Move(lane: int, phase: Phase): Catalog
      requires lane in ops
    {
      this.(ops := ops[lane := ops[lane].(phase := phase)])
    }

    function Drop(ids: set<int>): Catalog {
      this.(lanes := lanes - ids, busy := busy - ids, switching := switching - ids)
    }

    // Give the lane to id and take it from outgoing. A store that is gone is left alone.
    function Own(lane: int, id: int, outgoing: int): Catalog
      requires 0 <= lane < |resident|
    {
      var given := if id in lanes then lanes[id := lane] else lanes;
      var taken := if id != outgoing && outgoing in given then given[outgoing := -1] else given;
      this.(lanes := taken, resident := resident[lane := id])
    }
  }

  datatype Action =
    | Reserve(lane: int, id: int)                              // select() with reserve set
    | Handover(lane: int)                                      // attach(), first locked region
    | Publish(lane: int)                                       // attach(), second locked region
    | Settle(lane: int)                                        // attach(), its end
    | Admit(lane: int, dropped: set<int>)                      // reserve_payload()
    | Finish(lane: int, dropped: set<int>, throws: bool)       // finish(), the try block
    | Catch(lane: int)                                         // finish(), the catch block

  predicate CanReserve(s: Catalog, lane: int, id: int) {
    && 0 <= lane < |s.resident| && lane !in s.ops
    && (id == s.nextId || s.Eligible(id))
    && (id in s.lanes && s.lanes[id] >= 0 ==> s.lanes[id] == lane)
    && s.resident[lane] !in s.busy && s.resident[lane] !in s.switching
  }

  function ReserveStep(s: Catalog, lane: int, id: int): Catalog
    requires 0 <= lane < |s.resident|
  {
    var added := id == s.nextId;
    var outgoing := s.resident[lane];
    Catalog(if added then s.lanes[id := -1] else s.lanes,
            s.busy[id := lane], if id == outgoing then s.switching else s.switching[outgoing := lane],
            s.resident, if added then s.nextId + 1 else s.nextId,
            s.ops[lane := Operation(id, outgoing, added, Selected)])
  }

  predicate CanHandover(s: Catalog, lane: int) {
    lane in s.ops && s.ops[lane].phase.Selected? && s.ops[lane].id != s.ops[lane].outgoing
  }

  predicate CanPublish(s: Catalog, lane: int) {
    lane in s.ops && if s.ops[lane].id == s.ops[lane].outgoing then s.ops[lane].phase.Selected?
    else s.ops[lane].phase.HandedOver?
  }

  function OwnStep(s: Catalog, lane: int, phase: Phase): Catalog
    requires lane in s.ops && 0 <= lane < |s.resident|
  {
    s.Own(lane, s.ops[lane].id, s.ops[lane].outgoing).Move(lane, phase)
  }

  function SettleStep(s: Catalog, lane: int): Catalog
    requires lane in s.ops
  {
    var op := s.ops[lane];
    s.(switching := if op.id == op.outgoing then s.switching else s.switching - {op.outgoing}).Move(lane, Ready)
  }

  // The reservation loop takes parked stores; the request's own displaced store keeps its node.
  predicate CanAdmit(s: Catalog, lane: int, dropped: set<int>) {
    lane in s.ops && s.ops[lane].phase.Ready? && forall id :: id in dropped ==> s.Parked(id)
  }

  function AdmitStep(s: Catalog, lane: int, dropped: set<int>): Catalog
    requires lane in s.ops
  {
    s.Drop(dropped - {s.ops[lane].outgoing})
  }

  // finish() up to the line that looks the displaced store up again, and that line if it is found.
  function CommitStep(s: Catalog, lane: int): Catalog
    requires lane in s.ops
  {
    var op := s.ops[lane];
    var t := if !op.Attached() && op.added then s.Drop({op.id}) else s.(busy := s.busy - {op.id});
    t.(switching := t.switching - {op.Active(), op.outgoing})
  }

  predicate CanFinish(s: Catalog, lane: int, dropped: set<int>, throws: bool) {
    && lane in s.ops && !s.ops[lane].phase.Failing?
    && (forall id :: id in dropped ==> CommitStep(s, lane).Parked(id))
    // A displaced store that another request has erased makes the lookup throw, before any enforcement.
    && (s.ops[lane].outgoing !in CommitStep(s, lane).lanes ==> throws && dropped == {})
  }

  function FinishStep(s: Catalog, lane: int, dropped: set<int>, throws: bool): Catalog
    requires lane in s.ops
  {
    var t := CommitStep(s, lane).Drop(dropped);
    if throws then t.Move(lane, Failing(s.ops[lane].Attached())) else t.(ops := t.ops - {lane})
  }

  function CatchStep(s: Catalog, lane: int): Catalog
    requires lane in s.ops
  {
    var op := s.ops[lane];
    var t := if !op.Attached() && op.added then s.Drop({op.id}) else s;
    t.(busy := t.busy - {op.Active(), op.id}, switching := t.switching - {op.outgoing}, ops := t.ops - {lane})
  }

  predicate Enabled(s: Catalog, a: Action) {
    match a
    case Reserve(lane, id) => CanReserve(s, lane, id)
    case Handover(lane) => CanHandover(s, lane) && 0 <= lane < |s.resident|
    case Publish(lane) => CanPublish(s, lane) && 0 <= lane < |s.resident|
    case Settle(lane) => lane in s.ops && s.ops[lane].phase.Published?
    case Admit(lane, dropped) => CanAdmit(s, lane, dropped)
    case Finish(lane, dropped, throws) => CanFinish(s, lane, dropped, throws)
    case Catch(lane) => lane in s.ops
  }

  function Next(s: Catalog, a: Action): Catalog
    requires Enabled(s, a)
  {
    match a
    case Reserve(lane, id) => ReserveStep(s, lane, id)
    case Handover(lane) => OwnStep(s, lane, HandedOver)
    case Publish(lane) => OwnStep(s, lane, Published)
    case Settle(lane) => SettleStep(s, lane)
    case Admit(lane, dropped) => AdmitStep(s, lane, dropped)
    case Finish(lane, dropped, throws) => FinishStep(s, lane, dropped, throws)
    case Catch(lane) => CatchStep(s, lane)
  }

  /* ---------- The invariant ---------- */

  // Each lane's resident store names that lane, and no other store does.
  predicate Bijection(s: Catalog) {
    && (forall lane :: 0 <= lane < |s.resident| ==> s.resident[lane] in s.lanes && s.lanes[s.resident[lane]] == lane)
    && (forall id :: id in s.lanes ==>
          -1 <= s.lanes[id] < |s.resident| && (s.lanes[id] >= 0 ==> s.resident[s.lanes[id]] == id))
  }

  predicate Known(s: Catalog) {
    && s.busy.Keys <= s.lanes.Keys && s.switching.Keys <= s.lanes.Keys
    && (forall id :: id in s.lanes ==> 0 <= id < s.nextId)
    && (forall lane :: lane in s.ops ==>
          && 0 <= lane < |s.resident| && s.resident[lane] == s.ops[lane].Active()
          && 0 <= s.ops[lane].id < s.nextId && 0 <= s.ops[lane].outgoing < s.nextId
          && (s.ops[lane].phase.HandedOver? || s.ops[lane].added ==> s.ops[lane].id != s.ops[lane].outgoing)
          && (s.ops[lane].phase == Failing(false) && s.ops[lane].added ==> s.ops[lane].id !in s.lanes))
  }

  // A busy store serves exactly one request.
  predicate OneRequestPerStore(s: Catalog) {
    && (forall lane :: lane in s.ops && !s.ops[lane].phase.Failing? ==>
          s.ops[lane].id in s.busy && s.busy[s.ops[lane].id] == lane)
    && (forall lane :: lane in s.ops && s.ops[lane].Active() in s.busy ==> s.busy[s.ops[lane].Active()] == lane)
    && (forall id :: id in s.busy ==>
          s.busy[id] in s.ops && s.ops[s.busy[id]].id == id && !s.ops[s.busy[id]].phase.Failing?)
  }

  // A store on its way out of a lane exists, is marked as switching, and leaves one lane only.
  predicate Handovers(s: Catalog) {
    && (forall lane :: lane in s.ops && s.ops[lane].Displacing() ==>
          var op := s.ops[lane];
          && op.outgoing in s.switching && s.switching[op.outgoing] == lane && op.outgoing !in s.busy
          && op.outgoing in s.lanes && op.id in s.lanes
          && (if op.phase.Selected? then s.lanes[op.id] < 0 else s.lanes[op.outgoing] < 0))
    && (forall id :: id in s.switching ==>
          s.switching[id] in s.ops && s.ops[s.switching[id]].Displacing() && s.ops[s.switching[id]].outgoing == id)
  }

  predicate Inv(s: Catalog) { Bijection(s) && Known(s) && OneRequestPerStore(s) && Handovers(s) }

  /** The condition finish() needs and does not test: the flags it clears are its own. Its displaced store is
      not on its way out of another lane, and in the catch block its own store, which the try block released,
      has not been given to another request. */
  predicate FlagsAreOwn(s: Catalog, a: Action) {
    match a
    case Finish(lane, _, _) => OwnsOutgoing(s, lane)
    case Catch(lane) => OwnsOutgoing(s, lane) && OwnsId(s, lane)
    case _ => true
  }

  predicate OwnsOutgoing(s: Catalog, lane: int) {
    lane in s.ops && s.ops[lane].outgoing in s.switching ==> s.switching[s.ops[lane].outgoing] == lane
  }

  predicate OwnsId(s: Catalog, lane: int) {
    lane in s.ops && s.ops[lane].id in s.busy ==> s.busy[s.ops[lane].id] == lane
  }

  /* ---------- Every step keeps the invariant ---------- */

  lemma ReserveKeepsLanes(s: Catalog, lane: int, id: int)
    requires Bijection(s) && Known(s) && CanReserve(s, lane, id)
    ensures Bijection(ReserveStep(s, lane, id)) && Known(ReserveStep(s, lane, id))
  {
  }

  lemma ReserveKeepsFlags(s: Catalog, lane: int, id: int)
    requires Bijection(s) && Known(s) && OneRequestPerStore(s) && Handovers(s) && CanReserve(s, lane, id)
    ensures OneRequestPerStore(ReserveStep(s, lane, id)) && Handovers(ReserveStep(s, lane, id))
  {
    ReserveKeepsBusy(s, lane, id);
    ReserveKeepsSwitching(s, lane, id);
    hide Bijection, Known, OneRequestPerStore, Handovers;
  }

  lemma ReserveKeepsBusy(s: Catalog, lane: int, id: int)
    requires Bijection(s) && Known(s) && OneRequestPerStore(s) && CanReserve(s, lane, id)
    ensures OneRequestPerStore(ReserveStep(s, lane, id))
  {
    assert s.resident[lane] in s.lanes;
    hide Bijection;
  }

  lemma ReserveKeepsSwitching(s: Catalog, lane: int, id: int)
    requires Bijection(s) && Known(s) && Handovers(s) && CanReserve(s, lane, id)
    ensures Handovers(ReserveStep(s, lane, id))
  {
    hide OneRequestPerStore;
    assert s.resident[lane] in s.lanes && s.lanes[s.resident[lane]] == lane;
  }

  lemma ReserveKeeps(s: Catalog, lane: int, id: int)
    requires Inv(s) && CanReserve(s, lane, id)
    ensures Inv(ReserveStep(s, lane, id))
  {
    ReserveKeepsLanes(s, lane, id);
    ReserveKeepsFlags(s, lane, id);
    hide Bijection, Known, OneRequestPerStore, Handovers;
  }

  lemma OwnKeeps(s: Catalog, lane: int, phase: Phase)
    requires Inv(s) && (if phase == HandedOver then CanHandover(s, lane) else phase == Published && CanPublish(s, lane))
    ensures lane in s.ops && 0 <= lane < |s.resident| && Inv(OwnStep(s, lane, phase))
  {
    OwnKeepsLanes(s, lane, phase);
    OwnKeepsFlags(s, lane, phase);
    hide Bijection, OneRequestPerStore, Handovers;
  }

  lemma OwnKeepsLanes(s: Catalog, lane: int, phase: Phase)
    requires Inv(s) && (if phase == HandedOver then CanHandover(s, lane) else phase == Published && CanPublish(s, lane))
    ensures Bijection(OwnStep(s, lane, phase)) && Known(OwnStep(s, lane, phase))
  {
    TakesKnown(s, lane, phase);
    OwnKeepsBijection(s, lane, phase);
    OwnKeepsKnown(s, lane, phase);
    hide Bijection, Known, OneRequestPerStore, Handovers, Takes;
  }

  // Where the stores of a request are that is taking its lane.
  predicate Takes(s: Catalog, lane: int) {
    && lane in s.ops && 0 <= lane < |s.resident|
    && var op := s.ops[lane];
    && op.id in s.lanes && op.outgoing in s.lanes
    && (s.resident[lane] == op.id || (s.resident[lane] == op.outgoing && s.lanes[op.id] < 0))
    && (op.outgoing == op.id || s.resident[lane] == op.outgoing || s.lanes[op.outgoing] < 0)
  }

  lemma TakesKnown(s: Catalog, lane: int, phase: Phase)
    requires Inv(s) && (if phase == HandedOver then CanHandover(s, lane) else phase == Published && CanPublish(s, lane))
    ensures Takes(s, lane)
  {
    hide OneRequestPerStore;
    var op := s.ops[lane];
    assert op.id == op.outgoing || op.Displacing();
    assert s.resident[lane] in s.lanes;
  }

  lemma OwnKeepsBijection(s: Catalog, lane: int, phase: Phase)
    requires Bijection(s) && Takes(s, lane)
    ensures Bijection(OwnStep(s, lane, phase))
  {
  }

  lemma OwnKeepsKnown(s: Catalog, lane: int, phase: Phase)
    requires Known(s) && Takes(s, lane) && (phase == HandedOver || phase == Published)
    requires phase == HandedOver ==> s.ops[lane].id != s.ops[lane].outgoing
    ensures Known(OwnStep(s, lane, phase))
  {
  }

  lemma OwnKeepsFlags(s: Catalog, lane: int, phase: Phase)
    requires Inv(s) && (if phase == HandedOver then CanHandover(s, lane) else phase == Published && CanPublish(s, lane))
    ensures OneRequestPerStore(OwnStep(s, lane, phase)) && Handovers(OwnStep(s, lane, phase))
  {
    TakesKnown(s, lane, phase);
    OwnKeepsBusy(s, lane, phase);
    OwnKeepsSwitching(s, lane, phase);
    hide Bijection, Known, OneRequestPerStore, Handovers, Takes;
  }

  lemma OwnKeepsBusy(s: Catalog, lane: int, phase: Phase)
    requires OneRequestPerStore(s) && Takes(s, lane) && (phase == HandedOver || phase == Published)
    requires !s.ops[lane].phase.Failing?
    ensures OneRequestPerStore(OwnStep(s, lane, phase))
  {
  }

  lemma OwnKeepsSwitching(s: Catalog, lane: int, phase: Phase)
    requires Inv(s) && (if phase == HandedOver then CanHandover(s, lane) else phase == Published && CanPublish(s, lane))
    requires Takes(s, lane)
    ensures Handovers(OwnStep(s, lane, phase))
  {
    hide Bijection;
  }

  lemma SettleKeeps(s: Catalog, lane: int)
    requires Inv(s) && lane in s.ops && s.ops[lane].phase.Published?
    ensures Inv(SettleStep(s, lane))
  {
    SettleKeepsLanes(s, lane);
    SettleKeepsFlags(s, lane);
    hide Bijection, Known, OneRequestPerStore, Handovers;
  }

  lemma SettleKeepsLanes(s: Catalog, lane: int)
    requires Inv(s) && lane in s.ops && s.ops[lane].phase.Published?
    ensures Bijection(SettleStep(s, lane)) && Known(SettleStep(s, lane))
  {
    hide OneRequestPerStore, Handovers;
  }

  lemma SettleKeepsFlags(s: Catalog, lane: int)
    requires Inv(s) && lane in s.ops && s.ops[lane].phase.Published?
    ensures OneRequestPerStore(SettleStep(s, lane)) && Handovers(SettleStep(s, lane))
  {
    hide Bijection, Known;
  }

  // Parked stores can go: no lane, no request and no handover needs them.
  lemma DropKeeps(s: Catalog, ids: set<int>)
    requires Inv(s) && forall id :: id in ids ==> s.Parked(id)
    ensures Inv(s.Drop(ids))
  {
    forall id | id in ids ensures id !in s.busy && id !in s.switching { assert s.Parked(id); }
    forall lane | 0 <= lane < |s.resident| ensures s.resident[lane] !in ids {
      assert s.resident[lane] in ids ==> s.Parked(s.resident[lane]);
    }
    DropUnneeded(s, ids);
  }

  lemma DropUnneeded(s: Catalog, ids: set<int>)
    requires Inv(s) && ids !! s.busy.Keys && ids !! s.switching.Keys
    requires forall lane :: 0 <= lane < |s.resident| ==> s.resident[lane] !in ids
    ensures Inv(s.Drop(ids))
  {
    SameFlags(s.busy, ids);
    SameFlags(s.switching, ids);
  }

  lemma SameFlags(m: map<int, int>, ids: set<int>)
    requires ids !! m.Keys
    ensures m - ids == m
  {
  }

  lemma AdmitKeeps(s: Catalog, lane: int, dropped: set<int>)
    requires Inv(s) && CanAdmit(s, lane, dropped)
    ensures Inv(AdmitStep(s, lane, dropped))
  {
    DropKeeps(s, dropped - {s.ops[lane].outgoing});
  }

  // The try block's own part, with the request left in the window before its catch block.
  function Committed(s: Catalog, lane: int): Catalog
    requires lane in s.ops
  {
    CommitStep(s, lane).Move(lane, Failing(s.ops[lane].Attached()))
  }

  lemma CommitKeepsLanes(s: Catalog, lane: int)
    requires Inv(s) && lane in s.ops && !s.ops[lane].phase.Failing?
    ensures Bijection(Committed(s, lane)) && Known(Committed(s, lane))
  {
    CommitKeepsBijection(s, lane);
    hide Bijection;
  }

  lemma CommitKeepsBijection(s: Catalog, lane: int)
    requires Inv(s) && lane in s.ops && !s.ops[lane].phase.Failing?
    ensures Bijection(Committed(s, lane))
  {
    hide OneRequestPerStore;
  }

  lemma CommitKeepsBusy(s: Catalog, lane: int)
    requires Inv(s) && lane in s.ops && !s.ops[lane].phase.Failing?
    ensures OneRequestPerStore(Committed(s, lane))
  {
  }

  lemma CommitKeepsSwitching(s: Catalog, lane: int)
    requires Inv(s) && lane in s.ops && !s.ops[lane].phase.Failing? && OwnsOutgoing(s, lane)
    ensures Handovers(Committed(s, lane))
  {
    hide Bijection;
  }

  lemma DoneKeeps(s: Catalog, lane: int)
    requires Inv(s) && lane in s.ops && s.ops[lane].phase.Failing?
    ensures Inv(s.(ops := s.ops - {lane}))
  {
  }

  lemma FinishKeeps(s: Catalog, lane: int, dropped: set<int>, throws: bool)
    requires Inv(s) && CanFinish(s, lane, dropped, throws) && OwnsOutgoing(s, lane)
    ensures Inv(FinishStep(s, lane, dropped, throws))
  {
    hide Bijection, Known, OneRequestPerStore, Handovers, CommitStep, FinishStep;
    CommitKeepsLanes(s, lane);
    CommitKeepsBusy(s, lane);
    CommitKeepsSwitching(s, lane);
    FinishIs(s, lane, dropped, throws);
    DropKeeps(Committed(s, lane), dropped);
    if !throws { DoneKeeps(Committed(s, lane).Drop(dropped), lane); }
  }

  // finish() is the commit, then the drop of parked stores, and then, unless it throws, the end of the request.
  lemma FinishIs(s: Catalog, lane: int, dropped: set<int>, throws: bool)
    requires CanFinish(s, lane, dropped, throws)
    ensures var t := Committed(s, lane);
            && lane in t.ops && t.ops[lane].phase.Failing? && (forall id :: id in dropped ==> t.Parked(id))
            && var u := t.Drop(dropped);
            FinishStep(s, lane, dropped, throws) == if throws then u else u.(ops := u.ops - {lane})
  {
    forall id | id in dropped ensures Committed(s, lane).Parked(id) { assert CommitStep(s, lane).Parked(id); }
  }

  lemma CatchKeepsLanes(s: Catalog, lane: int)
    requires Inv(s) && lane in s.ops
    ensures Bijection(CatchStep(s, lane)) && Known(CatchStep(s, lane))
  {
  }

  lemma CatchKeepsBusy(s: Catalog, lane: int)
    requires Inv(s) && lane in s.ops && OwnsId(s, lane)
    ensures OneRequestPerStore(CatchStep(s, lane))
  {
  }

  lemma CatchKeepsSwitching(s: Catalog, lane: int)
    requires Inv(s) && lane in s.ops && OwnsOutgoing(s, lane)
    ensures Handovers(CatchStep(s, lane))
  {
  }

  /** Any interleaving: a step whose flags are its own keeps the invariant, and so lane ownership. */
  lemma StepKeeps(s: Catalog, a: Action)
    requires Inv(s) && Enabled(s, a) && FlagsAreOwn(s, a)
    ensures Inv(Next(s, a))
  {
    match a
    case Reserve(lane, id) => ReserveKeeps(s, lane, id);
    case Handover(lane) => OwnKeeps(s, lane, HandedOver);
    case Publish(lane) => OwnKeeps(s, lane, Published);
    case Settle(lane) => SettleKeeps(s, lane);
    case Admit(lane, dropped) => AdmitKeeps(s, lane, dropped);
    case Finish(lane, dropped, throws) => FinishKeeps(s, lane, dropped, throws);
    case Catch(lane) => CatchKeepsLanes(s, lane); CatchKeepsBusy(s, lane); CatchKeepsSwitching(s, lane);
  }

  /** The condition is exact: a step that clears a flag which is not its own breaks the invariant. */
  lemma ForeignFlagBreaks(s: Catalog, a: Action)
    requires Inv(s) && Enabled(s, a)
    ensures FlagsAreOwn(s, a) <==> Inv(Next(s, a))
  {
    if FlagsAreOwn(s, a) {
      StepKeeps(s, a);
    } else {
      var t := Next(s, a);
      var lane := a.lane;
      var op := s.ops[lane];
      if !OwnsOutgoing(s, lane) {
        var other := s.switching[op.outgoing];
        assert s.ops[other].Displacing() && s.ops[other].outgoing == op.outgoing;
        assert op.outgoing !in t.switching;
        assert t.ops[other] == s.ops[other];
      } else {
        var other := s.busy[op.id];
        assert s.ops[other].id == op.id && !s.ops[other].phase.Failing?;
        assert op.id !in t.busy;
        assert t.ops[other] == s.ops[other];
      }
    }
  }

  lemma FinishExact(s: Catalog, lane: int, dropped: set<int>, throws: bool)
    requires Inv(s) && CanFinish(s, lane, dropped, throws)
    ensures OwnsOutgoing(s, lane) <==> Inv(FinishStep(s, lane, dropped, throws))
  {
    ForeignFlagBreaks(s, Finish(lane, dropped, throws));
  }

  lemma CatchExact(s: Catalog, lane: int)
    requires Inv(s) && lane in s.ops
    ensures OwnsOutgoing(s, lane) && OwnsId(s, lane) <==> Inv(CatchStep(s, lane))
  {
    ForeignFlagBreaks(s, Catch(lane));
  }

  predicate FlaggedElsewhere(s: Catalog, lane: int, id: int) {
    (id in s.switching && s.switching[id] != lane) || (id in s.busy && s.busy[id] != lane)
  }

  predicate SameStore(s: Catalog, t: Catalog, id: int) {
    && id in s.lanes && id in t.lanes && t.lanes[id] == s.lanes[id]
    && (id in t.busy <==> id in s.busy) && (id in t.switching <==> id in s.switching)
  }

  // No step touches a store that another request has flagged.
  lemma ForeignStoresAreLeftAlone(s: Catalog, a: Action, id: int)
    requires Inv(s) && Enabled(s, a) && FlagsAreOwn(s, a) && FlaggedElsewhere(s, a.lane, id)
    ensures SameStore(s, Next(s, a), id) && (a.Reserve? ==> a.id != id)
  {
    match a
    case Reserve(lane, x) =>
    case Handover(lane) => OwnLeavesAlone(s, lane, HandedOver, id);
    case Publish(lane) => OwnLeavesAlone(s, lane, Published, id);
    case Settle(lane) =>
    case Admit(lane, dropped) => assert id in dropped ==> s.Parked(id);
    case Finish(lane, dropped, throws) => FinishLeavesAlone(s, lane, dropped, throws, id);
    case Catch(lane) => CatchLeavesAlone(s, lane, id);
  }

  lemma OwnLeavesAlone(s: Catalog, lane: int, phase: Phase, id: int)
    requires Inv(s) && (if phase == HandedOver then CanHandover(s, lane) else phase == Published && CanPublish(s, lane))
    requires FlaggedElsewhere(s, lane, id)
    ensures lane in s.ops && 0 <= lane < |s.resident| && SameStore(s, OwnStep(s, lane, phase), id)
  {
    hide Bijection;
    TakesKnown(s, lane, phase);
  }

  lemma FinishLeavesAlone(s: Catalog, lane: int, dropped: set<int>, throws: bool, id: int)
    requires Inv(s) && CanFinish(s, lane, dropped, throws) && OwnsOutgoing(s, lane) && FlaggedElsewhere(s, lane, id)
    ensures SameStore(s, FinishStep(s, lane, dropped, throws), id)
  {
    var t := CommitStep(s, lane);
    assert SameStore(s, t, id);
    assert id in dropped ==> t.Parked(id);
  }

  lemma CatchLeavesAlone(s: Catalog, lane: int, id: int)
    requires Inv(s) && lane in s.ops && OwnsOutgoing(s, lane) && OwnsId(s, lane) && FlaggedElsewhere(s, lane, id)
    ensures SameStore(s, CatchStep(s, lane), id)
  {
  }

  /* ---------- Runs ---------- */

  // At startup each lane holds one empty store.
  function Startup(n: nat): Catalog {
    Catalog(Identity(n), map[], map[], Count(n), n, map[])
  }

  function Count(n: nat): seq<int> { seq(n, i => i) }

  function Identity(n: nat): (m: map<int, int>)
    ensures forall id :: id in m <==> 0 <= id < n
    ensures forall id :: id in m ==> m[id] == id
  {
    if n == 0 then map[] else Identity(n - 1)[n - 1 := n - 1]
  }

  lemma StartupHolds(n: nat)
    ensures Inv(Startup(n))
  {
  }

  // A run that respects the condition at every step.
  predicate OwnRun(s: Catalog, actions: seq<Action>)
    decreases |actions|
  {
    actions != [] ==> Enabled(s, actions[0]) && FlagsAreOwn(s, actions[0]) && OwnRun(Next(s, actions[0]), actions[1..])
  }

  function After(s: Catalog, actions: seq<Action>): Catalog
    requires EnabledRun(s, actions)
    decreases |actions|
  {
    if actions == [] then s else After(Next(s, actions[0]), actions[1..])
  }

  predicate EnabledRun(s: Catalog, actions: seq<Action>)
    decreases |actions|
  {
    actions != [] ==> Enabled(s, actions[0]) && EnabledRun(Next(s, actions[0]), actions[1..])
  }

  lemma {:induction false} RunKeeps(s: Catalog, actions: seq<Action>)
    requires Inv(s) && OwnRun(s, actions)
    ensures EnabledRun(s, actions) && Inv(After(s, actions))
    decreases |actions|
  {
    if actions != [] {
      StepKeeps(s, actions[0]);
      RunKeeps(Next(s, actions[0]), actions[1..]);
    }
  }

  lemma OwnershipHolds(n: nat, actions: seq<Action>)
    requires OwnRun(Startup(n), actions)
    ensures EnabledRun(Startup(n), actions)
    ensures var s := After(Startup(n), actions); Bijection(s) && OneRequestPerStore(s) && Handovers(s)
  {
    hide Startup, OwnRun, EnabledRun, After, Bijection, Known, OneRequestPerStore, Handovers;
    StartupHolds(n);
    RunKeeps(Startup(n), actions);
  }
}
