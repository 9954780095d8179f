/**
 The payload budget of the lane catalog of tools/kvmem-lane-conversations.h can be passed once ownership is lost. The
 run of LaneRace goes on: while a and d both take the store of a for their own, d spills what it holds to disk and is
 charged for it. Then a asks for room. The test leaves out all of a's own store, which holds no attachments in a valid
 state, so that the reservation is granted beside the attachments d has charged to it.
 */
module LaneOverrun {
  import opened StoreAccounting
  import opened LaneEviction
  import opened LaneEntries
  import S = LaneState
  import opened LaneRun
  import opened LaneRace
  import Own = LaneOwnership

  // The disk bytes of a chunk, and the bytes a asks for.
  const CHUNK := 48
  const ROOM := 60

  // The state with this store of a, which lane 0 and lane 1 work on in these phases.
  function At(x: Entry, b: Key, c: Key, d: Key, leaving: bool, inLane: Own.Phase, outLane: Own.Phase): S.State {
    S.State(map[0 := x, 1 := X(-1, false, false, 2, b, 5), 2 := X(-1, false, leaving, 4, c, 5),
              3 := X(1, true, false, 0, d, 0)],
          map[0 := 0, 3 := 1], if leaving then map[2 := 0] else map[], [0, 3], 4,
          map[0 := Own.Operation(0, 2, false, inLane), 1 := Own.Operation(3, 0, true, outLane)])
  }

  function Store(a: Key, lane: int): Entry { X(lane, true, false, 3, a, 5).(bytes := 101) }

  // d has parked the store, which it measures at 101 bytes.
  function Heavy(a: Key, b: Key, c: Key, d: Key): S.State {
    At(Store(a, -1), b, c, d, true, Own.HandedOver, Own.Published)
  }

  // a has published it on lane 0.
  function Shared(a: Key, b: Key, c: Key, d: Key): S.State {
    At(Store(a, 0), b, c, d, true, Own.Published, Own.Published)
  }

  // d has spilled a chunk of it.
  function Spilled(a: Key, b: Key, c: Key, d: Key): S.State {
    At(Store(a, 0).(cold := true, attachment := CHUNK), b, c, d, true, Own.Published, Own.Published)
  }

  // a is ready.
  function Asking(a: Key, b: Key, c: Key, d: Key): S.State {
    At(Store(a, 0).(cold := true, attachment := CHUNK), b, c, d, false, Own.Ready, Own.Published)
  }

  // a has its reservation.
  function Overrun(a: Key, b: Key, c: Key, d: Key): S.State {
    At(Store(a, 0).(cold := true, attachment := CHUNK, reserved := ROOM), b, c, d, false, Own.Ready, Own.Published)
  }

  lemma Parking(a: Key, b: Key, c: Key, d: Key)
    ensures Reaches(Taken(a, b, c), Heavy(a, b, c, d))
  {
    hide Reaches;
    Arrive(Taken(a, b, c), 1, d, 101);
    HeavyIsThat(a, b, c, d);
  }

  lemma HeavyIsThat(a: Key, b: Key, c: Key, d: Key)
    ensures Arrived(Taken(a, b, c), 1, d, 101) == Heavy(a, b, c, d)
  {
    var s, t := Taken(a, b, c), Heavy(a, b, c, d);
    var x, y := X(1, true, false, 0, d, 0), Store(a, -1);
    assert s.e[3].(client := d, lane := 1) == x && s.e[0].(rows := 5, lane := -1, bytes := 101) == y;
    assert s.e[3 := x][0 := y] == t.e by { hide X, Store; }
  }

  lemma Publishing(a: Key, b: Key, c: Key, d: Key)
    ensures Reaches(Heavy(a, b, c, d), Shared(a, b, c, d))
  {
    hide Reaches;
    Arrive(Heavy(a, b, c, d), 0, a, 0);
    SharedIsThat(a, b, c, d);
  }

  lemma SharedIsThat(a: Key, b: Key, c: Key, d: Key)
    ensures Arrived(Heavy(a, b, c, d), 0, a, 0) == Shared(a, b, c, d)
  {
    hide At;
    StoreMoves(a);
    AtArrives(Store(a, -1), Store(a, 0), a, b, c, d);
  }

  lemma StoreMoves(a: Key)
    ensures Store(a, -1).(client := a, lane := 0) == Store(a, 0)
  {
  }

  // What publishing and changing the store come to.
  lemma AtArrives(x: Entry, y: Entry, a: Key, b: Key, c: Key, d: Key)
    requires x.(client := a, lane := 0) == y
    ensures var s := At(x, b, c, d, true, Own.HandedOver, Own.Published);
            && 0 in s.ops && s.ops[0].id in s.e && s.ops[0].outgoing in s.e && |s.resident| > 0
            && Arrived(s, 0, a, 0) == At(y, b, c, d, true, Own.Published, Own.Published)
  {
    var s := At(x, b, c, d, true, Own.HandedOver, Own.Published);
    var z := s.e[2];
    assert z.(rows := 5, lane := -1, bytes := 0) == z;
    hide X;
    assert s.e[0 := y][2 := z] == s.e[0 := y];
    AtPut(x, y, b, c, d, true, Own.HandedOver, Own.Published);
  }

  lemma AtPut(x: Entry, y: Entry, b: Key, c: Key, d: Key, leaving: bool, inLane: Own.Phase, outLane: Own.Phase)
    ensures var s := At(x, b, c, d, leaving, inLane, outLane);
            && s.n == 4 && 0 in s.e && s.e[0] == x
            && s.(e := s.e[0 := y]) == At(y, b, c, d, leaving, inLane, outLane)
  {
    hide X;
    var s := At(x, b, c, d, leaving, inLane, outLane);
    assert s.e[0 := y] == At(y, b, c, d, leaving, inLane, outLane).e;
  }

  // What is charged for four stores.
  lemma FourCharged(e: Entries)
    requires 0 in e && 1 in e && 2 in e && 3 in e
    ensures Charged(e, 4) == e[0].Charge() + e[1].Charge() + e[2].Charge() + e[3].Charge()
  {
    hide Entry.Charge;
    assert Charged(e, 1) == e[0].Charge();
    assert Charged(e, 2) == Charged(e, 1) + e[1].Charge();
    assert Charged(e, 3) == Charged(e, 2) + e[2].Charge();
  }

  lemma Spilling(a: Key, b: Key, c: Key, d: Key)
    ensures Reaches(Shared(a, b, c, d), Spilled(a, b, c, d))
  {
    hide Reaches, Charged;
    NothingCharged(a, b, c, d);
    Spill(Shared(a, b, c, d), 1, CHUNK);
    SpilledIsThat(a, b, c, d);
  }

  // One chunk goes to disk.
  lemma Spill(s: S.State, lane: int, size: nat)
    requires lane in s.ops && s.ops[lane].phase.Published? && s.ops[lane].Displacing() && s.ops[lane].outgoing in s.e
    requires Charged(s.e, s.n) + size <= LIMITS.budget
    ensures var id := s.ops[lane].outgoing;
            Reaches(s, s.(e := s.e[id := s.e[id].(cold := true, attachment := s.e[id].attachment + size)]))
  {
    hide Reaches, Charged;
    OneStep(s, Demote(lane, size, true, 0));
  }

  // Only the store of a can be charged.
  lemma AtCharged(x: Entry, b: Key, c: Key, d: Key, leaving: bool, inLane: Own.Phase, outLane: Own.Phase)
    ensures var s := At(x, b, c, d, leaving, inLane, outLane); s.n == 4 && Charged(s.e, 4) == x.Charge()
  {
    hide Charged;
    var e := At(x, b, c, d, leaving, inLane, outLane).e;
    assert e[0] == x && e[1].Charge() == e[2].Charge() == e[3].Charge() == 0;
    hide At, Entry.Charge;
    FourCharged(e);
  }

  lemma NothingCharged(a: Key, b: Key, c: Key, d: Key)
    ensures var s := Shared(a, b, c, d); Charged(s.e, s.n) == 0
  {
    hide Charged, At;
    AtCharged(Store(a, 0), b, c, d, true, Own.Published, Own.Published);
  }

  lemma SpilledIsThat(a: Key, b: Key, c: Key, d: Key)
    ensures var s := Shared(a, b, c, d);
            && 0 in s.e
            && s.(e := s.e[0 := s.e[0].(cold := true, attachment := s.e[0].attachment + CHUNK)]) == Spilled(a, b, c, d)
  {
    hide At;
    var x := Store(a, 0);
    AtPut(x, x.(cold := true, attachment := CHUNK), b, c, d, true, Own.Published, Own.Published);
  }

  lemma Settling(a: Key, b: Key, c: Key, d: Key)
    ensures Reaches(Spilled(a, b, c, d), Asking(a, b, c, d))
  {
    hide Reaches;
    Release(Spilled(a, b, c, d), 0);
    AskingIsThat(a, b, c, d);
  }

  lemma AskingIsThat(a: Key, b: Key, c: Key, d: Key)
    ensures Released(Spilled(a, b, c, d), 0) == Asking(a, b, c, d)
  {
    var s, t := Spilled(a, b, c, d), Asking(a, b, c, d);
    var y := X(-1, false, false, 4, c, 5);
    assert s.e[2].(switching := false) == y;
    assert s.e[2 := y] == t.e by { hide X, Store; }
  }

  // The three other stores are charged nothing, so there is room for a ...
  lemma OthersAreFree(a: Key, b: Key, c: Key, d: Key)
    ensures var e := Asking(a, b, c, d).e; Beside(e, 4, {}, 0, 2) == 0
  {
    hide Charged;
    var e := Asking(a, b, c, d).e;
    StartReclaim(e, {}, 2);
    FourCharged(e);
    ChargedSplit(e, 4, 0);
    assert e[1].Charge() == e[2].Charge() == e[3].Charge() == 0;
  }

  // ... and nothing to give up.
  lemma NoneToTake(a: Key, b: Key, c: Key, d: Key)
    ensures Reclaimable(Asking(a, b, c, d).e, {}, 0) == {}
  {
  }

  lemma Admitting(a: Key, b: Key, c: Key, d: Key)
    ensures Reaches(Asking(a, b, c, d), Overrun(a, b, c, d))
  {
    hide Reaches, Reclaimable, Beside;
    var s := Asking(a, b, c, d);
    OthersAreFree(a, b, c, d);
    NoneToTake(a, b, c, d);
    StartReclaim(s.e, {}, 2);
    Admission(s, 0, ROOM);
    OverrunIsThat(a, b, c, d);
  }

  // A reservation that fits without giving anything up.
  lemma Admission(s: S.State, lane: int, room: nat)
    requires lane in s.ops && s.ops[lane].phase.Ready? && s.ops[lane].id in s.e && s.e[s.ops[lane].id].native <= room
    requires var op := s.ops[lane];
             && Reclaimable(s.e, {}, op.id) == {} && Beside(s.e, s.n, {}, op.id, op.outgoing) + room <= LIMITS.budget
    ensures var id := s.ops[lane].id; Reaches(s, s.(e := s.e[id := s.e[id].(reserved := room)]))
  {
    hide Reaches, Reclaimable, Beside, Reclaim, LastOneNeeded;
    var op, a := s.ops[lane], Admit(lane, {}, room, true, {});
    StartReclaim(s.e, {}, op.outgoing);
    assert Enabled(s, LIMITS, a);
    OneStep(s, a);
  }

  lemma OverrunIsThat(a: Key, b: Key, c: Key, d: Key)
    ensures var s := Asking(a, b, c, d); 0 in s.e && s.(e := s.e[0 := s.e[0].(reserved := ROOM)]) == Overrun(a, b, c, d)
  {
    hide At, Store;
    var x := Store(a, 0).(cold := true, attachment := CHUNK);
    AtPut(x, x.(reserved := ROOM), b, c, d, false, Own.Ready, Own.Published);
  }

  /** From startup with two lanes and nothing charged, a run of the same six requests ends above the payload budget. d
      spills because the stores are above their byte target, and each step of its own keeps to the budget. */
  lemma BudgetCanBePassed(a: Key, b: Key, c: Key, d: Key)
    requires FourKeys(a, b, c, d)
    ensures Reaches(Startup([LaneRace.Rows(0), LaneRace.Rows(0)]), Overrun(a, b, c, d))
    ensures Bytes(Heavy(a, b, c, d).e, 4) > LIMITS.bytesMax
    ensures var t := Overrun(a, b, c, d); Charged(t.e, t.n) == ROOM + CHUNK > LIMITS.budget
  {
    hide Reaches;
    var start := Startup([Rows(0), Rows(0)]);
    RunsUpToTaken(a, b, c, d);
    Parking(a, b, c, d);
    Publishing(a, b, c, d);
    Spilling(a, b, c, d);
    Settling(a, b, c, d);
    Admitting(a, b, c, d);
    OverrunCharged(a, b, c, d);
    hide Taken, Heavy, Shared, Spilled, Asking, Overrun;
    ReachesOn(start, Taken(a, b, c), Heavy(a, b, c, d));
    ReachesOn(start, Heavy(a, b, c, d), Shared(a, b, c, d));
    ReachesOn(start, Shared(a, b, c, d), Spilled(a, b, c, d));
    ReachesOn(start, Spilled(a, b, c, d), Asking(a, b, c, d));
    ReachesOn(start, Asking(a, b, c, d), Overrun(a, b, c, d));
  }

  lemma OverrunCharged(a: Key, b: Key, c: Key, d: Key)
    ensures Bytes(Heavy(a, b, c, d).e, 4) > LIMITS.bytesMax
    ensures var t := Overrun(a, b, c, d); Charged(t.e, t.n) == ROOM + CHUNK
  {
    OverrunCharge(a, b, c, d);
    hide Overrun;
    var e := Heavy(a, b, c, d).e;
    assert Bytes(e, 1) == 101 && Bytes(e, 3) == 101;
  }

  lemma OverrunCharge(a: Key, b: Key, c: Key, d: Key)
    ensures var t := Overrun(a, b, c, d); Charged(t.e, t.n) == ROOM + CHUNK
  {
    hide At, Charged;
    AtCharged(Store(a, 0).(cold := true, attachment := CHUNK, reserved := ROOM), b, c, d, false, Own.Ready,
              Own.Published);
  }
}
