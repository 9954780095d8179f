/**
 Runs of the lane catalog of tools/kvmem-lane-conversations.h: any interleaving of the locked regions of any number of
 requests, over the whole state. LaneCatalog's methods take these steps.

 Unlike the steps of LaneOwnership, these follow the source in every choice it makes: the store and the lane that a
 request gets are the ones select() picks, and what is given up is what the eviction loops take.
 */
module LaneRun {
  import opened StoreAccounting
  import opened LaneEviction
  import opened LaneEntries
  import S = LaneState
  import Own = LaneOwnership

  datatype Limits = Limits(maxStores: nat, inactiveLimit: bool, budget: nat, bytesMax: nat)

  // planned is the store that the selection policy extends, or -1; picked is the store select() settles on.
  datatype Action =
    | Choose(lane: int, planned: int, key: Key, leased: seq<bool>, waiting: set<Key>, picked: int)
    | Handover(lane: int)
    | Publish(lane: int, client: Key, incoming: nat, out: Measure)
    | Demote(lane: int, size: nat, spilled: bool, onDisk: nat)
    | Settle(lane: int, bytes: nat)
    | Admit(lane: int, waiting: set<Key>, required: nat, ok: bool, dropped: set<int>)
    | Finish(lane: int, measured: Measure, used: nat, waiting: set<Key>, locked: nat -> set<int>,
             cleared: int -> Measure,
             throws: bool, given: set<int>, dropped: set<int>)
    | Catch(lane: int)

  predicate Full(s: S.State, lim: Limits) { !lim.inactiveLimit && |s.e| >= lim.maxStores }

  ghost predicate CanChoose(s: S.State, lim: Limits, a: Action)
    requires a.Choose?
  {
    && |a.leased| == |s.resident| && (forall l :: l in s.ops ==> 0 <= l < |a.leased| && a.leased[l])
    && (a.planned == -1 || a.planned in s.e)
    && Picked(s.e, a.planned, a.key, a.leased, a.waiting, Full(s, lim), a.picked)
    && !MustWait(s.e, a.planned, a.key, a.leased, Full(s, lim), a.picked)
    && 0 <= a.lane < |s.resident| && !a.leased[a.lane]
    && LaneOf(s.e, s.resident, a.leased, a.picked, a.lane)
  }

  // What is left once enforcement has run.
  function Left(s: S.State, lim: Limits, a: Action): Entries
    requires a.Finish? && s.Has(a.lane) && s.ops[a.lane].Active() in s.e
  {
    Swept(S.Commit(s, a.lane, a.measured, a.used).e, a.given, a.cleared, lim.inactiveLimit, a.throws) - a.dropped
  }

  ghost predicate CanFinish(s: S.State, lim: Limits, a: Action)
    requires a.Finish?
  {
    && a.lane in s.ops && !s.ops[a.lane].phase.Failing? && s.Has(a.lane) && s.ops[a.lane].Active() in s.e
    && Fits(s.e, s.ops[a.lane], a.measured, a.cleared)
    && (a.throws <==>
          S.OutgoingErased(s, a.lane) || (lim.inactiveLimit && RetainedCount(Left(s, lim, a), s.n) > lim.maxStores))
    && (if S.OutgoingErased(s, a.lane) then
          a.given == a.dropped == {} && Left(s, lim, a) == S.Commit(s, a.lane, a.measured, a.used).e
        else InLruOrder(S.Commit(s, a.lane, a.measured, a.used).e, s.n, a.waiting, lim.inactiveLimit, lim.maxStores,
                        lim.bytesMax,
                        a.lane, a.locked, a.cleared, a.throws, a.given, a.dropped, Left(s, lim, a)))
  }

  ghost predicate Enabled(s: S.State, lim: Limits, a: Action) {
    match a
    case Choose(_, _, _, _, _, _) => CanChoose(s, lim, a)
    case Handover(lane) => Own.CanHandover(s.Owners(), lane) && s.Has(lane)
    case Publish(lane, _, incoming, out) => Own.CanPublish(s.Owners(), lane) && s.Has(lane) &&
         S.Moved(s, lane, incoming, out)
    case Demote(lane, size, _, onDisk) =>
      && lane in s.ops && s.ops[lane].phase.Published? && s.ops[lane].Displacing() && s.ops[lane].outgoing in s.e
      && onDisk <= s.e[s.ops[lane].outgoing].attachment + size
    case Settle(lane, _) => lane in s.ops && s.ops[lane].phase.Published?
    case Admit(lane, waiting, required, ok, dropped) =>
      lane in s.ops && s.ops[lane].phase.Ready? &&
      MadeRoom(s.e, s.n, waiting, s.ops[lane].id, s.ops[lane].outgoing, required, lim.budget, ok, dropped)
    case Finish(_, _, _, _, _, _, _, _, _) => CanFinish(s, lim, a)
    case Catch(lane) => lane in s.ops
  }

  function ChosenId(s: S.State, picked: int): int { if picked < 0 then s.n else picked }

  ghost function After(s: S.State, lim: Limits, a: Action): S.State
    requires Enabled(s, lim, a)
  {
    match a
    case Choose(lane, _, _, _, _, picked) => if picked < 0 || picked in s.e then
           S.Reserve(s, lane, ChosenId(s, picked), NewEntry())
         else s
    case Handover(lane) => S.TakeLane(s, lane, Own.HandedOver)
    case Publish(lane, client, incoming, out) => S.Publish(s, lane, client, incoming, out)
    case Demote(lane, size, spilled, onDisk) =>
      s.(e := Demoted(s.e, s.ops[lane].outgoing, size, Charged(s.e, s.n) + size <= lim.budget, spilled, onDisk))
    case Settle(lane, bytes) => S.Settle(s, lane, bytes)
    case Admit(lane, _, required, ok, dropped) => s.(e := Admitted(s.e, s.ops[lane], required, ok, dropped))
    case Finish(lane, m, used, _, _, _, throws, _, _) => S.Leave(S.Commit(s, lane, m, used), lane, Left(s, lim, a),
                                                                 throws)
    case Catch(lane) => S.Catch(s, lane)
  }

  ghost predicate FlagsAreOwn(s: S.State, a: Action) {
    match a
    case Finish(lane, _, _, _, _, _, _, _, _) => Own.OwnsOutgoing(s.Owners(), lane)
    case Catch(lane) => Own.OwnsOutgoing(s.Owners(), lane) && Own.OwnsId(s.Owners(), lane)
    case _ => true
  }

  /* ---------- Every step ---------- */

  // A step of a valid state within the budget: the result is within the budget, and valid exactly if its flags are its
  // own.
  ghost predicate Keeps(s: S.State, lim: Limits, a: Action)
    requires Enabled(s, lim, a)
  {
    var t := After(s, lim, a);
    Charged(t.e, t.n) <= lim.budget && (t.Valid() <==> FlagsAreOwn(s, a))
  }

  lemma ChooseKeeps(s: S.State, lim: Limits, a: Action)
    requires s.Valid() && Enabled(s, lim, a) && Charged(s.e, s.n) <= lim.budget && a.Choose?
    ensures Keeps(s, lim, a)
  {
    hide S.State.Valid, S.State.Owners, Own.CanReserve, S.Reserve, NewEntry, Charged, Own.ReserveStep;
    S.StoresKnown(s);
    PickedIsKnown(s.e, a.planned, a.key, a.leased, a.waiting, Full(s, lim), a.picked);
    var id := if a.picked < 0 then -1 else a.picked;
    S.ChosenFits(s, a.leased, id, a.lane);
    S.ReserveKeeps(s, a.lane, ChosenId(s, a.picked), NewEntry());
  }

  lemma PickedIsKnown(e: Entries, planned: int, key: Key, leased: seq<bool>, waiting: set<Key>, full: bool, picked: int)
    requires (planned == -1 || planned in e) && (forall id :: id in e ==> id >= 0)
    requires Picked(e, planned, key, leased, waiting, full, picked)
    ensures picked == -1 || picked in e
  {
  }

  // What select() reserves is what the step reserves.
  lemma ChooseIsStep(s: S.State, lim: Limits, a: Action, mediaReady: bool)
    requires a.Choose? && Below(s.e, s.n) && |a.leased| == |s.resident| && (a.planned == -1 || a.planned in s.e)
    requires forall l :: l in s.ops ==> 0 <= l < |a.leased| && a.leased[l]
    requires 0 <= a.lane < |s.resident| && !a.leased[a.lane]
    requires Decided(s.e, s.resident, a.leased, a.waiting, a.planned, a.key, Full(s, lim), mediaReady, a.picked, a.lane)
    ensures ChosenId(s, a.picked) == s.n || ChosenId(s, a.picked) in s.e
    ensures Enabled(s, lim, a) && After(s, lim, a) == S.Reserve(s, a.lane, ChosenId(s, a.picked), NewEntry())
  {
    hide Picked, MustWait, LaneOf, NoLane, S.Reserve, NewEntry;
    PickedIsKnown(s.e, a.planned, a.key, a.leased, a.waiting, Full(s, lim), a.picked);
  }

  lemma HandoverStep(s: S.State, lim: Limits, a: Action)
    requires s.Valid() && Enabled(s, lim, a) && Charged(s.e, s.n) <= lim.budget && a.Handover?
    ensures Keeps(s, lim, a)
  {
    hide S.State.Valid, S.State.Owners, S.TakeLane, Charged, Own.OwnStep;
    S.HandoverKeeps(s, a.lane);
  }

  lemma PublishStep(s: S.State, lim: Limits, a: Action)
    requires s.Valid() && Enabled(s, lim, a) && Charged(s.e, s.n) <= lim.budget && a.Publish?
    ensures Keeps(s, lim, a)
  {
    hide S.State.Valid, S.State.Owners, S.Publish, Charged, Own.OwnStep, S.Moved;
    S.PublishKeeps(s, a.lane, a.client, a.incoming, a.out);
  }

  lemma DemoteStep(s: S.State, lim: Limits, a: Action)
    requires s.Valid() && Enabled(s, lim, a) && Charged(s.e, s.n) <= lim.budget && a.Demote?
    ensures Keeps(s, lim, a)
  {
    hide S.State.Valid, S.State.Owners, Charged;
    var id := s.ops[a.lane].outgoing;
    S.DemoteKeeps(s, a.lane,
                  Demoted(s.e, id, a.size, Charged(s.e, s.n) + a.size <= lim.budget, a.spilled, a.onDisk)[id]);
  }

  lemma SettleStep(s: S.State, lim: Limits, a: Action)
    requires s.Valid() && Enabled(s, lim, a) && Charged(s.e, s.n) <= lim.budget && a.Settle?
    ensures Keeps(s, lim, a)
  {
    hide S.State.Valid, S.State.Owners, S.Settle, Charged, Own.SettleStep;
    S.SettleKeeps(s, a.lane, a.bytes);
  }

  lemma AdmitStep(s: S.State, lim: Limits, a: Action)
    requires s.Valid() && Enabled(s, lim, a) && Charged(s.e, s.n) <= lim.budget && a.Admit?
    ensures Keeps(s, lim, a)
  {
    hide S.State.Valid, S.State.Owners, Charged, Own.AdmitStep, Reclaimable, Reclaim, LastOneNeeded;
    S.RequestKnown(s, a.lane);
    S.AdmitKeeps(s, a.lane, a.waiting, a.dropped, a.ok, a.required);
    AdmittedFits(s, lim, a);
  }

  // The reservation is charged in place of the store's native bytes.
  lemma AdmittedFits(s: S.State, lim: Limits, a: Action)
    requires s.Valid() && Enabled(s, lim, a) && Charged(s.e, s.n) <= lim.budget && a.Admit?
    ensures var t := After(s, lim, a); Charged(t.e, t.n) <= lim.budget
  {
    hide S.State.Valid, S.State.Owners, Charged, MadeRoom, Own.AdmitStep, Admitted, Beside, Enabled;
    AdmittedKnown(s, lim, a);
    S.RequestKnown(s, a.lane);
    S.StoresKnown(s);
    AdmitCharge(s, lim, a);
  }

  lemma AdmittedKnown(s: S.State, lim: Limits, a: Action)
    requires a.Admit? && Enabled(s, lim, a)
    ensures After(s, lim, a).n == s.n && a.lane in s.ops && s.ops[a.lane].phase.Ready? && s.ops[a.lane].id in s.e
    ensures a.ok ==> Beside(s.e, s.n, a.dropped, s.ops[a.lane].id, s.ops[a.lane].outgoing) +
                     Larger(a.required, s.e[s.ops[a.lane].id].native) <= lim.budget
  {
    hide Beside, LruDropped, LastOneNeeded, Reclaimable;
  }

  // The reservation is charged in place of the store's native bytes, beside its attachments.
  lemma AdmitCharge(s: S.State, lim: Limits, a: Action)
    requires a.Admit? && Enabled(s, lim, a) && Below(s.e, s.n)
    ensures var t := After(s, lim, a); var op := s.ops[a.lane];
            && op.id in s.e && Below(t.e, t.n) && t.n == s.n
            && (!a.ok ==> Charged(t.e, t.n) <= Charged(s.e, s.n))
            && (a.ok ==> Charged(t.e, t.n) == Beside(s.e, s.n, a.dropped, op.id, op.outgoing) +
                                              Larger(a.required, s.e[op.id].native) + s.e[op.id].attachment)
  {
    hide Charged, LastOneNeeded, Larger;
    var op := s.ops[a.lane];
    var left := Reclaim(s.e, a.dropped, op.outgoing);
    ReclaimableKnown(s.e, a.waiting, op.id);
    OwnerStays(s.e, Reclaimable(s.e, a.waiting, op.id), a.dropped, op.id, op.outgoing);
    hide Reclaimable, LruDropped;
    if a.ok {
      var x := left[op.id].(reserved := Larger(a.required, left[op.id].native));
      ChargedPut(left, s.n, op.id, x);
      LargerTwice(a.required, left[op.id].native);
    } else {
      ReclaimedIsCheaper(s.e, a.dropped, op.outgoing, s.n);
    }
  }

  lemma LargerTwice(a: nat, b: nat)
    ensures Larger(b, Larger(a, b)) == Larger(a, b)
  {
  }

  lemma ReclaimedIsCheaper(e: Entries, dropped: set<int>, outgoing: int, n: nat)
    ensures Charged(Reclaim(e, dropped, outgoing), n) <= Charged(e, n)
  {
    ChargedMonotone(Reclaim(e, dropped, outgoing), e, n);
  }

  lemma FinishStep(s: S.State, lim: Limits, a: Action)
    requires s.Valid() && Enabled(s, lim, a) && Charged(s.e, s.n) <= lim.budget && a.Finish?
    ensures Keeps(s, lim, a)
  {
    hide S.State.Valid, S.State.Owners, Charged, S.Commit, Own.CommitStep, Flags, Below, Ended, NoGrowth, Fits,
        InLruOrder, Swept,
         Trimmed, S.OutgoingErased, S.Commits, RetainedCount;
    S.CommitKeeps(s, a.lane, a.measured, a.used, a.cleared);
    var t := S.Commit(s, a.lane, a.measured, a.used);
    var gone := LeftIsTrimmed(s, lim, a);
    S.LeaveKeeps(s, a.lane, a.measured, a.used, Left(s, lim, a), gone, a.throws);
  }

  // What finish() leaves is what the step leaves.
  lemma FinishIsStep(s: S.State, lim: Limits, a: Action, left: Entries)
    requires a.Finish? && a.lane in s.ops && !s.ops[a.lane].phase.Failing? && s.Has(a.lane) &&
             s.ops[a.lane].Active() in s.e
    requires Fits(s.e, s.ops[a.lane], a.measured, a.cleared)
    requires a.throws <==>
               S.OutgoingErased(s, a.lane) || (lim.inactiveLimit && RetainedCount(left, s.n) > lim.maxStores)
    requires S.OutgoingErased(s, a.lane) ==>
               a.given == a.dropped == {} && left == S.Commit(s, a.lane, a.measured, a.used).e
    requires InLruOrder(S.Commit(s, a.lane, a.measured, a.used).e, s.n, a.waiting, lim.inactiveLimit, lim.maxStores,
                        lim.bytesMax,
                        a.lane, a.locked, a.cleared, a.throws, a.given, a.dropped, left)
    ensures Enabled(s, lim, a) &&
            After(s, lim, a) == S.Leave(S.Commit(s, a.lane, a.measured, a.used), a.lane, left, a.throws)
  {
    hide S.Commit, S.OutgoingErased, Fits, RetainedCount, LruGivenUp, LruDropped, LastByteNeeded, Swept;
  }

  lemma LeftIsTrimmed(s: S.State, lim: Limits, a: Action) returns (gone: set<int>)
    requires Enabled(s, lim, a) && a.Finish? && NoGrowth(S.Commit(s, a.lane, a.measured, a.used).e, a.cleared)
    ensures Trimmed(Left(s, lim, a), S.Commit(s, a.lane, a.measured, a.used).e, gone)
    ensures S.OutgoingErased(s, a.lane) ==> a.throws && gone == {}
  {
    hide S.Commit, S.OutgoingErased, Fits, RetainedCount, LruGivenUp, LruDropped, LastByteNeeded, Charged, ByteVictims,
        EmptyParked, GivenUp, ParkedOf;
    var e := S.Commit(s, a.lane, a.measured, a.used).e;
    if S.OutgoingErased(s, a.lane) {
      gone := {};
    } else {
      gone := OrderTrims(e, s.n, a.waiting, lim, a, Left(s, lim, a));
    }
  }

  lemma OrderTrims(e: Entries, n: nat, waiting: set<Key>, lim: Limits, a: Action, left: Entries)
    returns (gone: set<int>)
    requires a.Finish? && NoGrowth(e, a.cleared)
    requires InLruOrder(e, n, waiting, lim.inactiveLimit, lim.maxStores, lim.bytesMax, a.lane, a.locked, a.cleared,
                        a.throws,
                        a.given, a.dropped, left)
    ensures Trimmed(left, e, gone)
  {
    hide Idle, LastByteNeeded, RetainedCount;
    var kept := GivenUp(e, a.given, a.cleared);
    GivenUpTrims(e, a.given, a.cleared);
    gone := ParkedOf(e, a.given);
    var swept := kept;
    hide GivenUp, NoGrowth, LruGivenUp, ParkedOf;
    if lim.inactiveLimit && !a.throws {
      swept := kept - EmptyParked(kept);
      SweepKeepsHistories(kept, n);
      TrimmedTwice(swept, kept, e, gone, EmptyParked(kept));
      gone := gone + EmptyParked(kept);
    }
    VictimsAreParked(swept, waiting, a.dropped);
    TrimmedTwice(left, swept, e, gone, a.dropped);
    gone := gone + a.dropped;
  }

  lemma VictimsAreParked(e: Entries, waiting: set<Key>, dropped: set<int>)
    requires dropped <= ByteVictims(e, waiting)
    ensures Trimmed(e - dropped, e, dropped)
  {
  }

  lemma CatchStep(s: S.State, lim: Limits, a: Action)
    requires s.Valid() && Enabled(s, lim, a) && Charged(s.e, s.n) <= lim.budget && a.Catch?
    ensures Keeps(s, lim, a)
  {
    hide S.State.Valid, S.State.Owners, S.Catch, Charged, Own.CatchStep, Own.OwnsOutgoing, Own.OwnsId;
    S.CatchKeeps(s, a.lane);
  }

  /** Every step of a valid state keeps the payload budget, and keeps the state valid if and only if the flags it clears
      are its own. */
  lemma StepKeeps(s: S.State, lim: Limits, a: Action)
    requires s.Valid() && Enabled(s, lim, a) && Charged(s.e, s.n) <= lim.budget
    ensures Keeps(s, lim, a)
  {
    hide S.State.Valid, Enabled, Charged, Keeps;
    match a
    case Choose(_, _, _, _, _, _) => ChooseKeeps(s, lim, a);
    case Handover(_) => HandoverStep(s, lim, a);
    case Publish(_, _, _, _) => PublishStep(s, lim, a);
    case Demote(_, _, _, _) => DemoteStep(s, lim, a);
    case Settle(_, _) => SettleStep(s, lim, a);
    case Admit(_, _, _, _, _) => AdmitStep(s, lim, a);
    case Finish(_, _, _, _, _, _, _, _, _) => FinishStep(s, lim, a);
    case Catch(_) => CatchStep(s, lim, a);
  }

  /* ---------- Runs ---------- */

  ghost predicate CanRun(s: S.State, lim: Limits, run: seq<Action>)
    decreases |run|
  {
    run != [] ==> Enabled(s, lim, run[0]) && CanRun(After(s, lim, run[0]), lim, run[1..])
  }

  ghost function AfterAll(s: S.State, lim: Limits, run: seq<Action>): S.State
    requires CanRun(s, lim, run)
    decreases |run|
  {
    if run == [] then s else AfterAll(After(s, lim, run[0]), lim, run[1..])
  }

  // Every step's flags are its own.
  ghost predicate OwnRun(s: S.State, lim: Limits, run: seq<Action>)
    requires CanRun(s, lim, run)
    decreases |run|
  {
    run != [] ==> FlagsAreOwn(s, run[0]) && OwnRun(After(s, lim, run[0]), lim, run[1..])
  }

  lemma {:induction false} RunKeeps(s: S.State, lim: Limits, run: seq<Action>)
    requires s.Valid() && Charged(s.e, s.n) <= lim.budget && CanRun(s, lim, run) && OwnRun(s, lim, run)
    ensures var t := AfterAll(s, lim, run); t.Valid() && Charged(t.e, t.n) <= lim.budget
    decreases |run|
  {
    hide S.State.Valid, Enabled, After, FlagsAreOwn, Charged;
    if run != [] {
      StepKeeps(s, lim, run[0]);
      RunKeeps(After(s, lim, run[0]), lim, run[1..]);
    }
  }

  function Startup(measured: seq<Measure>): S.State {
    S.State(S.Initial(measured), map[], map[], Own.Count(|measured|), |measured|, map[])
  }

  /* ---------- The payload budget, whoever owns what ---------- */

  // A step after which no store is charged more.
  ghost predicate Cheaper(s: S.State, t: S.State) { t.n == s.n && Below(t.e, t.n) && NoDearer(t.e, s.e) }

  lemma ChooseCharge(s: S.State, lim: Limits, a: Action)
    requires a.Choose? && Enabled(s, lim, a) && Below(s.e, s.n)
    ensures var t := After(s, lim, a); Below(t.e, t.n) && Charged(t.e, t.n) <= Charged(s.e, s.n)
  {
    hide Charged, MustWait, Picked, LaneOf, S.Reserve, NewEntry, Below;
    if a.picked < 0 || a.picked in s.e { ReserveCharge(s, a.lane, ChosenId(s, a.picked)); }
  }

  lemma ReserveCharge(s: S.State, lane: int, id: int)
    requires Below(s.e, s.n) && 0 <= lane < |s.resident| && (id == s.n || id in s.e)
    ensures var t := S.Reserve(s, lane, id, NewEntry()); Below(t.e, t.n) && Charged(t.e, t.n) <= Charged(s.e, s.n)
  {
    hide Charged, Chosen, NewEntry;
    var t := S.Reserve(s, lane, id, NewEntry());
    ChosenCharge(s.e, s.n, id, s.resident[lane], NewEntry());
    ChargedMonotone(t.e, s.e, t.n);
    ChargedBeyond(s.e, s.n, t.n);
  }

  lemma ChosenCharge(e: Entries, n: nat, id: int, outgoing: int, blank: Entry)
    requires (id == n || id in e) && Below(e, n) && blank.Charge() == 0
    ensures var f := Chosen(e, n, id, outgoing, blank); NoDearer(f, e) && Below(f, if id == n then n + 1 else n)
  {
    ChosenSizes(e, n, id, outgoing, blank);
    ChosenNative(e, n, id, outgoing, blank);
    hide Chosen;
  }

  lemma ChosenNative(e: Entries, n: nat, id: int, outgoing: int, blank: Entry)
    requires (id == n || id in e) && (id == n ==> n !in e)
    ensures var f := Chosen(e, n, id, outgoing, blank);
            && f.Keys == e.Keys + {id}
            && forall x :: x in f ==> f[x].native == if x in e then e[x].native else blank.native
  {
  }

  lemma HandoverCharge(s: S.State, lim: Limits, a: Action)
    requires a.Handover? && Enabled(s, lim, a) && Below(s.e, s.n)
    ensures Cheaper(s, After(s, lim, a))
  {
    hide S.State.Owners, Own.CanHandover, Given;
    GivenShape(s.e, s.ops[a.lane].id, s.ops[a.lane].outgoing, a.lane, s.n);
  }

  lemma PublishCharge(s: S.State, lim: Limits, a: Action)
    requires a.Publish? && Enabled(s, lim, a) && Below(s.e, s.n)
    ensures Cheaper(s, After(s, lim, a))
  {
    hide S.State.Owners, Own.CanPublish, S.Publish;
    S.PublishedCheaper(s, a.lane, a.client, a.incoming, a.out);
  }

  lemma SettleCharge(s: S.State, lim: Limits, a: Action)
    requires a.Settle? && Enabled(s, lim, a) && Below(s.e, s.n)
    ensures Cheaper(s, After(s, lim, a))
  {
    hide S.State.Owners;
  }

  lemma DemoteCharge(s: S.State, lim: Limits, a: Action)
    requires a.Demote? && Enabled(s, lim, a) && Below(s.e, s.n) && Charged(s.e, s.n) <= lim.budget
    ensures var t := After(s, lim, a); Below(t.e, t.n) && Charged(t.e, t.n) <= lim.budget
  {
    hide Charged;
    var id := s.ops[a.lane].outgoing;
    ChargedSplit(s.e, s.n, id);
    ChargedPut(s.e, s.n, id, After(s, lim, a).e[id]);
  }

  lemma FinishCharge(s: S.State, lim: Limits, a: Action)
    requires a.Finish? && Enabled(s, lim, a) && Below(s.e, s.n)
    ensures Cheaper(s, After(s, lim, a))
  {
    hide S.State.Owners, S.OutgoingErased, InLruOrder, Swept, RetainedCount, Committed, NoDearer;
    var op, e := s.ops[a.lane], S.Commit(s, a.lane, a.measured, a.used).e;
    CommittedCheaper(s.e, op, a.measured, a.used, a.cleared, s.n);
    var gone := LeftIsTrimmed(s, lim, a);
    TrimmedCheaper(Left(s, lim, a), e, s.e, gone, s.n);
  }

  lemma CommittedCheaper(e: Entries, op: Own.Operation, m: Measure, used: nat, cleared: int -> Measure, n: nat)
    requires op.Active() in e && op.id in e && Fits(e, op, m, cleared) && Below(e, n)
    ensures var f := Committed(e, op, m, used); NoDearer(f, e) && NoGrowth(f, cleared) && Below(f, n)
  {
    hide Forgotten, Settled, Measured;
    MeasuredCheaper(e, op, m, used);
    ForgottenShape(Measured(e, op, m, used), op);
    SettledShape(Forgotten(Measured(e, op, m, used), op), op.outgoing);
  }

  lemma MeasuredCheaper(e: Entries, op: Own.Operation, m: Measure, used: nat)
    requires op.Active() in e && op.id in e
    ensures var f := Measured(e, op, m, used);
            && f.Keys <= e.Keys
            && forall id :: id in f ==>
                 && f[id].attachment == e[id].attachment
                 && f[id].native == (if id == op.Active() then m.native else e[id].native)
                 && f[id].reserved == (if id == op.Active() then 0 else e[id].reserved)
  {
  }

  lemma TrimmedCheaper(f: Entries, e: Entries, before: Entries, gone: set<int>, n: nat)
    requires Trimmed(f, e, gone) && NoDearer(e, before) && Below(e, n)
    ensures NoDearer(f, before) && Below(f, n)
  {
  }

  lemma CatchStepCharge(s: S.State, lim: Limits, a: Action)
    requires a.Catch? && Enabled(s, lim, a) && Below(s.e, s.n)
    ensures Cheaper(s, After(s, lim, a))
  {
    hide Caught;
    CaughtShape(s.e, s.ops[a.lane]);
  }

  /** An admission that the budget does not cover: what the source compares leaves out the attachments that are charged
      to the request's own store. */
  ghost predicate Overcommits(s: S.State, lim: Limits, a: Action)
    requires Enabled(s, lim, a)
  {
    a.Admit? && a.ok &&
    var op := s.ops[a.lane];
    Beside(s.e, s.n, a.dropped, op.id, op.outgoing) + Larger(a.required, s.e[op.id].native) +
    s.e[op.id].attachment > lim.budget
  }

  /** In any state, valid or not: a step stays within the budget exactly if it is no such admission. */
  lemma StepStaysWithin(s: S.State, lim: Limits, a: Action)
    requires Below(s.e, s.n) && Enabled(s, lim, a) && Charged(s.e, s.n) <= lim.budget
    ensures var t := After(s, lim, a); Below(t.e, t.n) && (Charged(t.e, t.n) <= lim.budget <==> !Overcommits(s, lim, a))
  {
    hide Enabled, After, Charged, Beside, NoDearer, Below;
    match a
    case Choose(_, _, _, _, _, _) => ChooseCharge(s, lim, a);
    case Demote(_, _, _, _) => DemoteCharge(s, lim, a);
    case Admit(_, _, _, _, _) => AdmitCharge(s, lim, a);
    case Handover(_) => HandoverCharge(s, lim, a); CheaperIs(s, After(s, lim, a));
    case Publish(_, _, _, _) => PublishCharge(s, lim, a); CheaperIs(s, After(s, lim, a));
    case Settle(_, _) => SettleCharge(s, lim, a); CheaperIs(s, After(s, lim, a));
    case Finish(_, _, _, _, _, _, _, _, _) => FinishCharge(s, lim, a); CheaperIs(s, After(s, lim, a));
    case Catch(_) => CatchStepCharge(s, lim, a); CheaperIs(s, After(s, lim, a));
  }

  lemma CheaperIs(s: S.State, t: S.State)
    requires Cheaper(s, t)
    ensures Below(t.e, t.n) && Charged(t.e, t.n) <= Charged(s.e, s.n)
  {
    hide Charged;
    ChargedMonotone(t.e, s.e, s.n);
  }

  // Every state of the run is within the budget.
  ghost predicate StaysWithin(s: S.State, lim: Limits, run: seq<Action>)
    requires CanRun(s, lim, run)
    decreases |run|
  {
    Charged(s.e, s.n) <= lim.budget && (run != [] ==> StaysWithin(After(s, lim, run[0]), lim, run[1..]))
  }

  ghost predicate NeverOvercommits(s: S.State, lim: Limits, run: seq<Action>)
    requires CanRun(s, lim, run)
    decreases |run|
  {
    run != [] ==> !Overcommits(s, lim, run[0]) && NeverOvercommits(After(s, lim, run[0]), lim, run[1..])
  }

  lemma {:induction false} RunStaysWithin(s: S.State, lim: Limits, run: seq<Action>)
    requires Below(s.e, s.n) && Charged(s.e, s.n) <= lim.budget && CanRun(s, lim, run)
    ensures StaysWithin(s, lim, run) <==> NeverOvercommits(s, lim, run)
    decreases |run|
  {
    hide Enabled, After, Charged, Overcommits, Below;
    if run != [] {
      StepStaysWithin(s, lim, run[0]);
      var t := After(s, lim, run[0]);
      if Charged(t.e, t.n) <= lim.budget {
        RunStaysWithin(t, lim, run[1..]);
      } else if StaysWithin(s, lim, run) {
        StartsWithin(t, lim, run[1..]);
      }
    }
  }

  lemma StartsWithin(s: S.State, lim: Limits, run: seq<Action>)
    requires CanRun(s, lim, run) && StaysWithin(s, lim, run)
    ensures Charged(s.e, s.n) <= lim.budget
  {
  }

  // While every step's flags are its own, a request that asks for room has no attachments of its own.
  lemma {:induction false} OwnRunsNeverOvercommit(s: S.State, lim: Limits, run: seq<Action>)
    requires s.Valid() && Charged(s.e, s.n) <= lim.budget && CanRun(s, lim, run) && OwnRun(s, lim, run)
    ensures NeverOvercommits(s, lim, run)
    decreases |run|
  {
    hide S.State.Valid, Enabled, After, FlagsAreOwn, Charged, Overcommits;
    if run != [] {
      StepKeeps(s, lim, run[0]);
      OwnedFits(s, lim, run[0]);
      OwnRunsNeverOvercommit(After(s, lim, run[0]), lim, run[1..]);
    }
  }

  lemma OwnedFits(s: S.State, lim: Limits, a: Action)
    requires s.Valid() && Enabled(s, lim, a)
    ensures !Overcommits(s, lim, a)
  {
    hide S.State.Valid, S.State.Owners, Beside, MadeRoom;
    if a.Admit? {
      S.RequestKnown(s, a.lane);
      AdmittedKnown(s, lim, a);
    }
  }

  /** From startup within the budget: along every interleaving retained plus reserved bytes stay within it exactly if no
      request is admitted beside attachments of its own store that do not fit as well. Where all flags are own none is,
      and every lane's resident names that lane. */
  lemma BudgetHolds(measured: seq<Measure>, lim: Limits, run: seq<Action>)
    requires Charged(S.Initial(measured), |measured|) <= lim.budget && CanRun(Startup(measured), lim, run)
    ensures StaysWithin(Startup(measured), lim, run) <==> NeverOvercommits(Startup(measured), lim, run)
    ensures OwnRun(Startup(measured), lim, run) ==>
              && StaysWithin(Startup(measured), lim, run)
              && Own.Bijection(AfterAll(Startup(measured), lim, run).Owners())
  {
    S.InitialValid(measured);
    hide CanRun, OwnRun, Charged, S.Initial, Flags, Admissible, Own.Bijection, StaysWithin, NeverOvercommits;
    var s := Startup(measured);
    RunStaysWithin(s, lim, run);
    if OwnRun(s, lim, run) {
      RunKeeps(s, lim, run);
      OwnRunsNeverOvercommit(s, lim, run);
    }
  }

  /* ---------- One lane ---------- */

  // With one lane there is no other request whose flag could be cleared.
  lemma OneLaneIsOwn(s: S.State, a: Action)
    requires s.Valid() && |s.resident| <= 1
    ensures FlagsAreOwn(s, a)
  {
    hide Flags, Admissible, Lanes;
  }

  lemma LanesStay(s: S.State, lim: Limits, a: Action)
    requires Enabled(s, lim, a)
    ensures |After(s, lim, a).resident| == |s.resident|
  {
    hide S.State.Owners, CanChoose, CanFinish, MadeRoom, S.Moved;
  }

  /** With one lane every run keeps ownership and the budget, whatever fails. */
  lemma {:induction false} OneLaneHolds(s: S.State, lim: Limits, run: seq<Action>)
    requires s.Valid() && |s.resident| <= 1 && Charged(s.e, s.n) <= lim.budget && CanRun(s, lim, run)
    ensures OwnRun(s, lim, run)
    ensures var t := AfterAll(s, lim, run); t.Valid() && Charged(t.e, t.n) <= lim.budget
    decreases |run|
  {
    hide S.State.Valid, Enabled, After, FlagsAreOwn, Charged;
    if run != [] {
      OneLaneIsOwn(s, run[0]);
      StepKeeps(s, lim, run[0]);
      LanesStay(s, lim, run[0]);
      OneLaneHolds(After(s, lim, run[0]), lim, run[1..]);
    }
  }
}
