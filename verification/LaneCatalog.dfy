/**
 The lane catalog of tools/kvmem-lane-conversations.h, one method per locked region.

 Every method takes the step LaneOwnership gives it, so what is proved there of runs holds of
 these objects. The methods also keep the payload budget, and the eviction loops take the
 least recently used stores, no more of them than they need.

 Sizes measured by native calls are parameters. The measured size of a store is assumed to be
 no larger than what the catalog charges for it: a request decodes within its reservation and
 a swap does not grow a store.
 */
module LaneCatalog {
  import opened StoreAccounting
  import opened LaneEviction
  import opened LaneEntries
  import S = LaneState
  import R = LaneRun
  import Own = LaneOwnership

  // What the selection policy says: a store to extend, or none.
  datatype Plan = Plan(id: int, isFresh: bool)

  class LaneCatalog {
    const maxStores: nat
    const inactiveLimit: bool
    const budget: nat
    const bytesMax: nat
    var entries: Entries
    var resident: seq<int>
    var waiting: set<Key>
    var nextId: nat
    var clock: nat
    // The operation records the request handlers hold, by lane.
    var ops: map<int, Own.Operation>
    // Which request set each flag; no method reads these.
    ghost var busyBy: map<int, int>
    ghost var switchingBy: map<int, int>

    ghost function Abs(): S.State
      reads this
    {
      S.State(entries, busyBy, switchingBy, resident, nextId, ops)
    }

    ghost predicate Valid()
      reads this
    {
      Abs().Valid()
    }

    ghost function Owners(): Own.Catalog
      reads this
    {
      Abs().Owners()
    }

    ghost predicate WithinBudget()
      reads this
    {
      Charged(entries, nextId) <= budget
    }

    ghost function Limits(): R.Limits { R.Limits.Limits(maxStores, inactiveLimit, budget, bytesMax) }

    // A step of LaneRun led here from before.
    ghost predicate Took(before: S.State, a: R.Action)
      reads this
    {
      R.Enabled(before, Limits(), a) && Abs() == R.After(before, Limits(), a)
    }

    constructor (measured: seq<Measure>, maxStores: nat, inactiveLimit: bool, budget: nat, bytesMax: nat)
      ensures Valid() && Owners() == Own.Startup(|measured|) && Abs() == R.Startup(measured) &&
              entries == S.Initial(measured)
      ensures this.budget == budget && (WithinBudget() <==> Charged(S.Initial(measured), |measured|) <= budget)
      ensures this.maxStores == maxStores && this.inactiveLimit == inactiveLimit && this.bytesMax == bytesMax
    {
      hide S.State.Valid, S.State.Owners, NewEntry, Own.Count, Own.Startup, S.Initial;
      var held := InitialEntries(measured);
      this.maxStores, this.inactiveLimit, this.budget, this.bytesMax := maxStores, inactiveLimit, budget, bytesMax;
      entries, resident, waiting, nextId, clock, ops := held, Own.Count(|measured|), {}, |measured|, 0, map[];
      busyBy, switchingBy := map[], map[];
      S.InitialValid(measured);
    }

    // The store select() settles on: -1 means a new one, and wait that none may be taken now.
    method Choose(plan: Plan, key: Key, reset: bool, leased: seq<bool>) returns (id: int, wait: bool)
      requires Below(entries, nextId) && (plan.id == -1 || plan.id in entries)
      ensures id == -1 || (id in entries && (!wait ==> Eligible(entries[id], leased)))
      ensures Picked(entries, if reset then -1 else plan.id, key, leased, waiting,
                     !inactiveLimit && |entries| >= maxStores, id)
      ensures wait <==>
                MustWait(entries, if reset then -1 else plan.id, key, leased,
                         !inactiveLimit && |entries| >= maxStores, id)
    {
      id, wait := if reset then -1 else plan.id, false;
      if id < 0 && key != NoKey { id := FindFirst(nextId, NamedStores(entries, key)); }
      if id < 0 { id := FindFirst(nextId, ReusableStores(entries, leased)); }
      if id < 0 && !inactiveLimit && |entries| >= maxStores {
        id := FindOldest(entries, nextId, RecyclableStores(entries, leased, waiting));
        wait := id < 0;
      }
      if id >= 0 { wait := !Eligible(entries[id], leased); }
    }

    /** select(). Picks a store and a lane for the request, and reserves both if asked. -1 means wait,
        -2 means that media must be prepared first. */
    method Select(plan: Plan, key: Key, reset: bool, mediaReady: bool, leased: seq<bool>, reserve: bool)
      returns (lane: int, ghost picked: int)
      requires Valid() && |leased| == |resident| && (plan.id == -1 || plan.id in entries)
      requires forall l :: l in ops && 0 <= l < |leased| ==> leased[l]
      modifies this`entries, this`nextId, this`ops, this`busyBy, this`switchingBy
      ensures Valid() && (old(WithinBudget()) ==> WithinBudget())
      ensures -2 <= lane < |resident| && (lane >= 0 ==> !leased[lane])
      ensures lane < 0 || !reserve ==> Abs() == old(Abs())
      ensures Decided(old(entries), resident, leased, waiting, if reset then -1 else plan.id, key,
                      !inactiveLimit && |old(entries)| >= maxStores, mediaReady, picked, lane)
      // Reserving is the step of that choice.
      ensures lane >= 0 && reserve ==>
                && lane in ops && ops[lane].id == (if picked < 0 then old(nextId) else picked)
                && Own.CanReserve(old(Owners()), lane, ops[lane].id)
                && Owners() == Own.ReserveStep(old(Owners()), lane, ops[lane].id)
                && Took(old(Abs()), R.Choose(lane, if reset then -1 else plan.id, key, leased, waiting, picked))
      // The store is busy, the lane's own one in handover, and a new store is empty.
      ensures lane >= 0 && reserve ==>
                && nextId == old(nextId) + (if picked < 0 then 1 else 0)
                && ops == old(ops)[lane := Own.Operation(if picked < 0 then old(nextId) else picked, resident[lane],
                                                         picked < 0, Own.Selected)]
                && OnlyReserved(old(entries), entries, ops[lane].id, ops[lane].outgoing)
      // A request that names no store waits only for a lane.
      ensures lane == -1 && inactiveLimit && key == NoKey && (reset || plan.id < 0) ==>
                NoneFree(entries, resident, leased)
    {
      hide S.State.Valid, S.State.Owners, Own.CanReserve, Own.ReserveStep, Charged, S.Reserve, Decided, NoneFree,
          R.Enabled, R.After, Eligible, LaneFree, NewEntry, OnlyReserved;
      S.StoresKnown(Abs());
      var id;
      lane, id := Decide(plan, key, reset, mediaReady, leased);
      picked := id;
      if lane < 0 || !reserve {
        if lane == -1 && inactiveLimit && key == NoKey && (reset || plan.id < 0) {
          UnnamedWaitsForLane(entries, resident, leased, waiting, mediaReady, picked);
        }
        return;
      }
      S.ChosenFits(Abs(), leased, id, lane);
      R.ChooseIsStep(Abs(), Limits(), R.Choose(lane, if reset then -1 else plan.id, key, leased, waiting, picked),
                     mediaReady);
      Reserve(lane, if id < 0 then nextId else id);
    }

    // The store and its lane, or why there is none.
    method Decide(plan: Plan, key: Key, reset: bool, mediaReady: bool, leased: seq<bool>) returns (lane: int, id: int)
      requires Below(entries, nextId) && |leased| == |resident| && (plan.id == -1 || plan.id in entries)
      requires (forall l :: 0 <= l < |resident| ==> resident[l] in entries)
      requires forall x :: x in entries ==> entries[x].lane < |resident|
      ensures Decided(entries, resident, leased, waiting, if reset then -1 else plan.id, key,
                      !inactiveLimit && |entries| >= maxStores, mediaReady, id, lane)
      ensures -2 <= lane < |resident| && -1 !in entries
      ensures lane >= 0 ==>
                && !leased[lane] && (id >= 0 ==> id in entries && Eligible(entries[id], leased))
                && (if id >= 0 && entries[id].lane >= 0 then lane == entries[id].lane
                    else LaneFree(entries, resident, leased, lane))
    {
      hide Picked, MustWait, NoLane, Eligible, LaneFree, FirstFree;
      var wait;
      id, wait := Choose(plan, key, reset, leased);
      lane := Place(id, wait, mediaReady, leased);
      if lane >= 0 { LaneOfFits(entries, resident, leased, id, lane); }
    }

    // The lane of the chosen store, or why there is none.
    method Place(id: int, wait: bool, mediaReady: bool, leased: seq<bool>) returns (lane: int)
      requires |leased| == |resident| && forall l :: 0 <= l < |resident| ==> resident[l] in entries
      requires id == -1 ||
               (id in entries && id >= 0 && entries[id].lane < |resident| && (!wait ==> Eligible(entries[id], leased)))
      requires -1 !in entries
      ensures -2 <= lane < |resident| && (lane >= 0 ==> !leased[lane] && LaneOf(entries, resident, leased, id, lane))
      ensures lane == -1 <==> wait || (mediaReady && NoLane(entries, resident, leased, id))
      ensures lane == -2 <==> !wait && !mediaReady
    {
      if wait { return -1; }
      if !mediaReady { return -2; }
      lane := if id >= 0 then entries[id].lane else -1;
      if lane < 0 { lane := FreeLane(leased); }
    }

    // The first lane that is not leased and whose store nobody has flagged.
    method FreeLane(leased: seq<bool>) returns (lane: int)
      requires |leased| == |resident| && forall l :: 0 <= l < |resident| ==> resident[l] in entries
      ensures -1 <= lane < |resident| && (lane >= 0 ==> FirstFree(entries, resident, leased, lane))
      ensures lane == -1 <==> NoneFree(entries, resident, leased)
    {
      for l := 0 to |leased|
        invariant forall k :: 0 <= k < l ==> !LaneFree(entries, resident, leased, k)
      {
        if LaneFree(entries, resident, leased, l) { return l; }
      }
      lane := -1;
    }

    method Reserve(lane: int, id: int)
      requires Valid() && Own.CanReserve(Owners(), lane, id)
      modifies this`entries, this`nextId, this`ops, this`busyBy, this`switchingBy
      ensures Valid() && Owners() == Own.ReserveStep(old(Owners()), lane, id) && lane in ops && ops[lane].id == id
      ensures 0 <= lane < |resident| && (id == old(nextId) || id in old(entries)) &&
              Abs() == S.Reserve(old(Abs()), lane, id, NewEntry())
      ensures old(WithinBudget()) ==> WithinBudget()
      ensures var out := resident[lane];
              && ops == old(ops)[lane := Own.Operation(id, out, id == old(nextId), Own.Selected)]
              && nextId == old(nextId) + (if id == old(nextId) then 1 else 0)
              && OnlyReserved(old(entries), entries, id, out)
    {
      hide S.State.Valid, S.State.Owners, NewEntry, Charged, Own.ReserveStep;
      S.ReserveKeeps(Abs(), lane, id, NewEntry());
      S.StoresKnown(Abs());
      var added, outgoing := id == nextId, resident[lane];
      var e := if added then entries[id := NewEntry()] else entries;
      nextId := if added then nextId + 1 else nextId;
      e := e[id := e[id].(busy := true)];
      busyBy := busyBy[id := lane];
      if id != outgoing {
        e := e[outgoing := e[outgoing].(switching := true)];
        switchingBy := switchingBy[outgoing := lane];
      }
      assert e == Chosen(entries, old(nextId), id, outgoing, NewEntry());
      hide Chosen;
      ChosenEntries(entries, old(nextId), id, outgoing);
      entries, ops := e, ops[lane := Own.Operation(id, outgoing, added, Own.Selected)];
      assert Abs() == S.Reserve(old(Abs()), lane, id, NewEntry());
    }

    // Both of attach()'s locked regions give the lane to the request's store.
    method TakeLane(lane: int, phase: Own.Phase)
      requires Abs().Has(lane) && ops[lane].outgoing in entries
      modifies this`entries, this`resident, this`ops
      ensures Abs() == S.TakeLane(old(Abs()), lane, phase)
      ensures var op := old(ops)[lane];
              && resident == old(resident)[lane := op.id] && ops == old(ops)[lane := op.(phase := phase)]
              && entries.Keys == old(entries).Keys
              && forall id ::
                   id in entries ==>
                     entries[id] == old(entries)[id].(lane := if id == op.id then lane else if id == op.outgoing then -1
                                                              else old(entries)[id].lane)
    {
      var op := ops[lane];
      entries := entries[op.id := entries[op.id].(lane := lane)];
      if op.id != op.outgoing {
        entries := entries[op.outgoing := entries[op.outgoing].(lane := -1)];
      }
      resident := resident[lane := op.id];
      ops := ops[lane := op.(phase := phase)];
    }

    /** attach(), the handover. */
    method Handover(lane: int)
      requires Valid() && Own.CanHandover(Owners(), lane)
      modifies this`entries, this`resident, this`ops
      ensures Valid() && Owners() == Own.OwnStep(old(Owners()), lane, Own.HandedOver)
      ensures old(Abs().Has(lane)) && Abs() == S.TakeLane(old(Abs()), lane, Own.HandedOver) &&
              Took(old(Abs()), R.Handover(lane))
      ensures var op := old(ops)[lane];
              && resident == old(resident)[lane := op.id] && ops == old(ops)[lane := op.(phase := Own.HandedOver)]
              && entries.Keys == old(entries).Keys
              && forall id ::
                   id in entries ==>
                     entries[id] == old(entries)[id].(lane := if id == op.id then lane else if id == op.outgoing then -1
                                                              else old(entries)[id].lane)
      ensures old(WithinBudget()) ==> WithinBudget()
    {
      hide S.State.Valid, S.State.Owners, S.TakeLane, Charged, Own.OwnStep;
      S.HandoverKeeps(Abs(), lane);
      TakeLane(lane, Own.HandedOver);
    }

    /** attach(), publication: measured sizes replace the recorded ones, and attachments have come back to RAM. */
    method Publish(lane: int, client: Key, incoming: nat, out: Measure)
      requires Valid() && Own.CanPublish(Owners(), lane) && S.Moved(Abs(), lane, incoming, out)
      modifies this`entries, this`resident, this`ops
      ensures Valid() && Owners() == Own.OwnStep(old(Owners()), lane, Own.Published)
      ensures old(Abs().Has(lane)) && Abs() == S.Publish(old(Abs()), lane, client, incoming, out)
      ensures Took(old(Abs()), R.Publish(lane, client, incoming, out))
      ensures var op := old(ops)[lane];
              && resident == old(resident)[lane := op.id] && ops == old(ops)[lane := op.(phase := Own.Published)]
              && entries.Keys == old(entries).Keys
              && forall id ::
                   id in entries ==>
                     entries[id] == if id == op.id then
                                      old(entries)[id].(lane := lane, client := client, native := incoming,
                                                        attachment := 0, cold := false)
                                    else if id == op.outgoing then
                                      old(entries)[id].(lane := -1, rows := out.rows, bytes := out.bytes,
                                                        native := out.native)
                                    else old(entries)[id]
      ensures old(WithinBudget()) ==> WithinBudget()
    {
      hide S.State.Valid, S.State.Owners, S.Moved, Charged, Own.OwnStep, Own.CanPublish;
      S.PublishKeeps(Abs(), lane, client, incoming, out);
      S.PublishedEntries(Abs(), lane, client, incoming, out);
      var op := ops[lane];
      TakeLane(lane, Own.Published);
      entries := entries[op.id := entries[op.id].(client := client, native := incoming, attachment := 0,
                                                  cold := false)];
      if op.id != op.outgoing {
        entries := entries[op.outgoing := entries[op.outgoing].(rows := out.rows, bytes := out.bytes,
                                                                native := out.native)];
      }
      assert Abs() == S.Publish(old(Abs()), lane, client, incoming, out);
      hide S.Publish;
    }

    /** demote_attachments(), one chunk of the displaced store: the disk charge is taken only if it fits the budget.
        A chunk that fails to spill leaves the charge at what the store has on disk. */
    method DemoteChunk(lane: int, size: nat, spilled: bool, onDisk: nat) returns (ok: bool)
      requires Valid() && lane in ops && ops[lane].phase.Published? && ops[lane].Displacing()
      requires ops[lane].outgoing in entries ==> onDisk <= entries[ops[lane].outgoing].attachment + size
      modifies this`entries
      ensures Valid() && Owners() == old(Owners()) && (old(WithinBudget()) ==> WithinBudget())
      ensures ok <==> old(Charged(entries, nextId)) + size <= budget
      ensures Took(old(Abs()), R.Demote(lane, size, spilled, onDisk))
      ensures var id := ops[lane].outgoing;
              && id in old(entries)
              && var x := old(entries)[id];
                 entries == old(entries)[id := x.(cold := true,
                                                  attachment := if !ok then x.attachment
                                                                else if spilled then x.attachment + size else onDisk)]
    {
      hide S.State.Valid, S.State.Owners, Charged;
      S.RequestKnown(Abs(), lane);
      var id := ops[lane].outgoing;
      ok := Charged(entries, nextId) + size <= budget;
      var x := entries[id].(cold := true);
      if ok { x := x.(attachment := if spilled then x.attachment + size else onDisk); }
      S.DemoteKeeps(Abs(), lane, x);
      entries := entries[id := x];
    }

    /** attach(), its end: the displaced store is released, with its bytes measured anew. */
    method Settle(lane: int, bytes: nat)
      requires Valid() && lane in ops && ops[lane].phase.Published?
      modifies this`entries, this`ops, this`switchingBy
      ensures Valid() && Owners() == Own.SettleStep(old(Owners()), lane) && Abs() == S.Settle(old(Abs()), lane, bytes)
      ensures Took(old(Abs()), R.Settle(lane, bytes))
      ensures var op := old(ops)[lane];
              && ops == old(ops)[lane := op.(phase := Own.Ready)] && entries.Keys == old(entries).Keys
              && forall id ::
                   id in entries ==>
                     entries[id] == if id == op.outgoing && id != op.id then
                                      old(entries)[id].(switching := false, bytes := bytes)
                                    else old(entries)[id]
      ensures old(WithinBudget()) ==> WithinBudget()
    {
      hide S.State.Valid, S.State.Owners, Charged, Own.SettleStep;
      S.SettleKeeps(Abs(), lane, bytes);
      var op := ops[lane];
      if op.id != op.outgoing {
        entries := entries[op.outgoing := entries[op.outgoing].(switching := false, bytes := bytes)];
        switchingBy := switchingBy - {op.outgoing};
      }
      ops := ops[lane := op.(phase := Own.Ready)];
      assert Abs() == S.Settle(old(Abs()), lane, bytes);
    }

    /** reserve_payload(). Makes room for the request on lane by giving up parked stores, oldest first. */
    method ReservePayload(lane: int, required: nat) returns (ok: bool, dropped: set<int>)
      requires Valid() && lane in ops && ops[lane].phase.Ready?
      modifies this`entries
      ensures Valid() && Own.CanAdmit(old(Owners()), lane, dropped) &&
              Owners() == Own.AdmitStep(old(Owners()), lane, dropped)
      ensures ok || old(WithinBudget()) ==> WithinBudget()
      // It succeeds exactly if the reservation fits beside what is left once every store it may take has gone.
      ensures var owner, e := ops[lane].id, old(entries);
              && owner in e
              && (ok <==> Charged(e - Reclaimable(e, waiting, owner) - {owner}, nextId) +
                          Larger(required, e[owner].native) <= budget)
      ensures MadeRoom(old(entries), nextId, waiting, ops[lane].id, ops[lane].outgoing, required, budget, ok, dropped)
      ensures entries == Admitted(old(entries), ops[lane], required, ok, dropped)
      // What it gives up goes, but the store it displaced keeps an empty node; the rest stays as it was.
      ensures var op := ops[lane];
              && entries.Keys == old(entries).Keys - (dropped - {op.outgoing})
              && forall id ::
                   id in entries ==>
                     entries[id] == if id == op.id && ok then
                                      old(entries)[id].(reserved := Larger(required, old(entries)[id].native))
                                    else if id in dropped then
                                      old(entries)[id].(rows := 0, bytes := 0, client := NoKey, cold := false,
                                                        native := 0, attachment := 0)
                                    else old(entries)[id]
      ensures Took(old(Abs()), R.Admit(lane, waiting, required, ok, dropped))
    {
      hide S.State.Valid, S.State.Owners, Reclaim, Reclaimable, LastOneNeeded, Own.AdmitStep, Own.CanAdmit, Beside,
          Charged, Below, ParkedUnreserved;
      S.RequestKnown(Abs(), lane);
      S.StoresKnown(Abs());
      S.RoomKnown(Abs());
      ghost var before := Abs();
      var owner, outgoing := ops[lane].id, ops[lane].outgoing;
      OwnerBelow(entries, nextId, owner);
      var reservation := Larger(required, entries[owner].native);
      ghost var waits := waiting;
      var left;
      ok, dropped, left := MakeRoom(entries, nextId, waiting, owner, outgoing, reservation, budget);
      S.AdmitKeeps(Abs(), lane, waits, dropped, ok, required);
      R.AdmitCharge(before, Limits(), R.Admit(lane, waits, required, ok, dropped));
      OwnerIsSafe(entries, waits, dropped, owner);
      AdmittedEntries(entries, ops[lane], required, ok, dropped);
      hide MadeRoom;
      entries := if ok then left[owner := left[owner].(reserved := reservation)] else left;
    }

    /** finish(), the try block: commit, then enforcement. A missing displaced store throws, and so does a limit on
        inactive histories that no idle store can meet. */
    method Finish(lane: int, measured: Measure, locked: nat -> set<int>, cleared: int -> Measure)
      returns (throws: bool, gone: set<int>, ghost given: set<int>, ghost dropped: set<int>)
      requires Valid() && lane in ops && !ops[lane].phase.Failing?
      requires Fits(entries, ops[lane], measured, cleared)
      modifies this`entries, this`clock, this`ops, this`busyBy, this`switchingBy
      ensures S.Finished(old(Abs()), Abs(), lane, gone, throws)
      ensures clock == old(clock) + 1 && S.Commits(old(Abs()), lane, measured, clock, entries, gone)
      ensures Took(old(Abs()), R.Finish(lane, measured, clock, waiting, locked, cleared, throws, given, dropped))
      // What enforcement gives up is the least recently used of the committed stores, and no more than it has to.
      ensures InLruOrder(S.Commit(old(Abs()), lane, measured, clock).e, nextId, waiting, inactiveLimit, maxStores,
                         bytesMax,
                         lane, locked, cleared, throws, given, dropped, entries)
      ensures EndsAs(entries, old(entries), old(ops)[lane], measured, clock, given, cleared)
      // Nothing stays committed of a request that never became ready; of one that did, what was measured.
      ensures var op := old(ops)[lane];
              !op.phase.Ready? ==>
                (op.id in entries ==> entries[op.id].rows == 0) &&
                (op.Attached() && op.outgoing in entries ==> entries[op.outgoing].rows == 0)
      ensures var op := old(ops)[lane];
              op.phase.Ready? && op.id in entries && op.id !in given ==>
                entries[op.id].rows == measured.rows && entries[op.id].bytes == measured.bytes
      ensures throws <==>
                old(S.OutgoingErased(Abs(), lane)) || (inactiveLimit && RetainedCount(entries, nextId) > maxStores)
      ensures throws ==> old(S.OutgoingErased(Abs(), lane)) || exists k: nat :: AllInUse(entries, lane, locked(k))
      ensures !throws && bytesMax > 0 ==> Bytes(entries, nextId) <= bytesMax || ByteVictims(entries, waiting) == {}
    {
      hide S.State.Valid, S.State.Owners, S.Finished, S.Commits, S.OutgoingErased, S.Commit, Committed, Charged, Bytes,
          RetainedCount, ByteVictims, Trimmed, Fits,
           Flags, Below, Ended, NoGrowth, InLruOrder, AllInUse;
      S.CommitKeeps(Abs(), lane, measured, clock + 1, cleared);
      Commit(lane, measured);
      ghost var committed := Abs();
      var op, left := ops[lane], entries;
      throws, gone, left, given,
          dropped := Enforce(entries, nextId, waiting, inactiveLimit, maxStores, bytesMax, op.outgoing, lane, locked,
                             cleared);
      S.LeaveKeeps(old(Abs()), lane, measured, clock, left, gone, throws);
      CommitIs(old(Abs()), lane, measured, clock);
      FinishedStores(old(entries), op, measured, clock, nextId, waiting, inactiveLimit, maxStores, bytesMax, lane,
                     locked, cleared, throws, given, dropped, left);
      R.FinishIsStep(old(Abs()), Limits(),
                     R.Finish(lane, measured, clock, waiting, locked, cleared, throws, given, dropped), left);
      entries := left;
      ops := if throws then ops[lane := op.(phase := Own.Failing(op.Attached()))] else ops - {lane};
      assert Abs() == S.Leave(committed, lane, left, throws);
    }

    // finish(), up to the enforcement: the measured state is recorded and the request's flags are released.
    method Commit(lane: int, measured: Measure)
      requires Abs().Has(lane) && ops[lane].Active() in entries &&
               (ops[lane].added ==> ops[lane].id != ops[lane].outgoing)
      modifies this`entries, this`clock, this`busyBy, this`switchingBy
      ensures clock == old(clock) + 1 && Abs() == S.Commit(old(Abs()), lane, measured, clock)
    {
      var op := ops[lane];
      var active, e := op.Active(), entries;
      clock := clock + 1;
      e := e[active := e[active].(rows := measured.rows, bytes := measured.bytes, native := measured.native,
                                  reserved := 0, used := clock)];
      e := if !op.Attached() && op.added then e - {op.id} else e[op.id := e[op.id].(busy := false)];
      e := e[active := e[active].(switching := false)];
      assert e == Measured(entries, op, measured, clock);
      if !op.phase.Ready? {
        e := Forget(e, op.id);
        if op.Attached() && op.outgoing != op.id { e := Forget(e, op.outgoing); }
      }
      if op.outgoing in e { e := e[op.outgoing := e[op.outgoing].(switching := false)]; }
      entries, busyBy, switchingBy := e, busyBy - {op.id}, ReleasedSwitching(switchingBy, op);
    }

    /** finish(), the catch block. What the request had committed is dropped with its flags. */
    method Catch(lane: int)
      requires Valid() && lane in ops
      modifies this`entries, this`ops, this`busyBy, this`switchingBy
      ensures Owners() == Own.CatchStep(old(Owners()), lane) && Abs() == S.Catch(old(Abs()), lane) &&
              Took(old(Abs()), R.Catch(lane))
      ensures Valid() <==> Own.OwnsOutgoing(old(Owners()), lane) && Own.OwnsId(old(Owners()), lane)
      ensures old(WithinBudget()) ==> WithinBudget()
      // Its own flags and reservation are gone, and so is what it and the displaced store had committed.
      ensures var op := old(ops)[lane];
              && entries.Keys == old(entries).Keys - (if !op.Attached() && op.added then {op.id} else {})
              && forall id ::
                   id in entries ==>
                     entries[id] == old(entries)[id].(busy := old(entries)[id].busy && id != op.id && id != op.Active(),
                                                      switching := old(entries)[id].switching && id != op.outgoing,
                                                      reserved := if id == op.Active() then 0
                                                                  else old(entries)[id].reserved,
                                                      rows := if id == op.Active() || id == op.outgoing then 0
                                                              else old(entries)[id].rows)
    {
      hide S.State.Valid, S.State.Owners, Charged, Own.CatchStep, Own.OwnsOutgoing, Own.OwnsId, Undone, Caught,
          Own.Operation.Active, Own.Operation.Attached;
      S.CatchKeeps(Abs(), lane);
      var op := ops[lane];
      CaughtShape(entries, op);
      var e := Release(op);
      entries, ops := e, ops - {lane};
      busyBy := busyBy - Undone(op) - {op.Active(), op.id};
      switchingBy := switchingBy - Undone(op) - {op.outgoing};
      assert Abs() == S.Catch(old(Abs()), lane);
    }

    // The stores once the catch block has let go of them.
    method Release(op: Own.Operation) returns (e: Entries)
      ensures e == Caught(entries, op)
    {
      hide Undone;
      var active, gone := op.Active(), Undone(op);
      e := entries - gone;
      e := if active in e then e[active := e[active].(busy := false, reserved := 0, rows := 0)] else e;
      assert e == Freed(entries - gone, active);
      hide Freed;
      e := if op.id in e then e[op.id := e[op.id].(busy := false)] else e;
      assert e == Unbusied(Freed(entries - gone, active), op.id);
      hide Unbusied;
      e := if op.outgoing in e then e[op.outgoing := e[op.outgoing].(switching := false, rows := 0)] else e;
    }
  }

  lemma CommitIs(s: S.State, lane: int, m: Measure, used: nat)
    requires s.Has(lane) && s.ops[lane].Active() in s.e
    ensures S.Commit(s, lane, m, used).e == Committed(s.e, s.ops[lane], m, used)
  {
  }

  method InitialEntries(measured: seq<Measure>) returns (e: Entries)
    ensures e == S.Initial(measured)
  {
    hide NewEntry;
    e := map[];
    for k := 0 to |measured|
      invariant e == S.Initial(measured[..k])
    {
      assert measured[..k + 1][..k] == measured[..k];
      e := e[k := NewEntry().(lane := k, bytes := measured[k].bytes, native := measured[k].native)];
    }
    assert measured[..|measured|] == measured;
  }

  lemma OwnerBelow(e: Entries, n: nat, id: int)
    requires Below(e, n) && id in e
    ensures 0 <= id < n
  {
  }
}
