/**
 Lane ownership can be lost in the lane catalog of tools/kvmem-lane-conversations.h: a run of six requests on two lanes,
 in which every store and lane is the one select() picks.

 Requests of conversations a and b fill both lanes. The first request of c takes lane 0, so that the store of a is
 parked, and goes on running. A second request of a takes lane 1 and ends. A request of d is taking lane 1, from which
 the store of a is on its way out, when c's request ends: it clears the flag of the store it once displaced. So a third
 request of a can take that store to lane 0, and then d's request completes its handover and parks it.

 All requests ask for a reset, so none is planned to extend a store; nothing is stored on disk.
 */
module LaneRace {
  import opened StoreAccounting
  import opened LaneEviction
  import opened LaneEntries
  import S = LaneState
  import opened LaneRun
  import Own = LaneOwnership

  // At most 10 stores, 100 bytes of payload and 100 bytes of parked content.
  const LIMITS := LaneRun.Limits.Limits(10, false, 100, 100)

  function Rows(rows: nat): Measure { Measure(rows, 0, 0) }

  function X(lane: int, busy: bool, switching: bool, used: nat, client: Key, rows: nat): Entry {
    Entry(lane, busy, switching, 0, used, 0, client, rows, false, 0, 0, 0)
  }

  /* ---------- Parts of a request ---------- */

  ghost predicate Reaches(s: S.State, t: S.State) {
    exists run :: CanRun(s, LIMITS, run) && AfterAll(s, LIMITS, run) == t
  }

  lemma {:induction false} RunsJoin(s: S.State, first: seq<Action>, second: seq<Action>)
    requires CanRun(s, LIMITS, first) && CanRun(AfterAll(s, LIMITS, first), LIMITS, second)
    ensures CanRun(s, LIMITS, first + second)
    ensures AfterAll(s, LIMITS, first + second) == AfterAll(AfterAll(s, LIMITS, first), LIMITS, second)
    decreases |first|
  {
    hide Enabled, After;
    if first == [] {
      assert first + second == second;
    } else {
      assert (first + second)[0] == first[0] && (first + second)[1..] == first[1..] + second;
      RunsJoin(After(s, LIMITS, first[0]), first[1..], second);
    }
  }

  lemma ReachesOn(s: S.State, t: S.State, u: S.State)
    requires Reaches(s, t) && Reaches(t, u)
    ensures Reaches(s, u)
  {
    hide CanRun, AfterAll;
    var first :| CanRun(s, LIMITS, first) && AfterAll(s, LIMITS, first) == t;
    var second :| CanRun(t, LIMITS, second) && AfterAll(t, LIMITS, second) == u;
    RunsJoin(s, first, second);
  }

  lemma OneStep(s: S.State, a: Action)
    requires Enabled(s, LIMITS, a)
    ensures Reaches(s, After(s, LIMITS, a))
  {
    hide Enabled, After;
    var t := After(s, LIMITS, a);
    assert CanRun(t, LIMITS, []) && AfterAll(t, LIMITS, []) == t;
    assert [a][1..] == [];
    assert CanRun(s, LIMITS, [a]) && AfterAll(s, LIMITS, [a]) == t;
  }

  lemma PutTwice<V>(m: map<int, V>, a: int, b: int, x: V, y: V, x': V, y': V)
    requires a != b
    ensures m[a := x][b := y][a := x'][b := y'] == m[a := x'][b := y']
  {
  }

  lemma PutOnceMore<K, V>(m: map<K, V>, k: K, x: V, y: V)
    ensures m[k := x][k := y] == m[k := y] && m[k := x] - {k} == m - {k}
  {
  }

  function Leased(s: S.State): seq<bool> { seq(|s.resident|, l => l in s.ops) }

  // A request that asks for a reset, so nothing is planned.
  function Asks(s: S.State, lane: int, key: Key, picked: int): Action { Choose(lane, -1, key, Leased(s), {}, picked) }

  function Ends(lane: int, used: nat): Action {
    Finish(lane, Rows(5), used, {}, (k: nat) => {}, (id: int) => Rows(0), false, {}, {})
  }

  // A store that is charged nothing.
  predicate Plain(x: Entry) { x.native == 0 && x.reserved == 0 && x.attachment == 0 && !x.cold }

  function Entering(s: S.State, picked: int): Entry { if picked >= 0 && picked in s.e then s.e[picked] else NewEntry() }

  // The request's store has the lane, and the one it displaced is on its way out.
  function Entered(s: S.State, lane: int, picked: int): S.State
    requires 0 <= lane < |s.resident| && s.resident[lane] in s.e
  {
    var id, out := ChosenId(s, picked), s.resident[lane];
    var e := s.e[id := Entering(s, picked).(busy := true, lane := lane)];
    S.State(e[out := s.e[out].(switching := true, lane := -1)],
          s.b[id := lane], s.w[out := lane], s.resident[lane := id], if picked < 0 then s.n + 1 else s.n,
          s.ops[lane := Own.Operation(id, out, picked < 0, Own.HandedOver)])
  }

  // Selection and handover of a request whose store is not on the lane.
  lemma Enter(s: S.State, lane: int, key: Key, picked: int)
    requires 0 <= lane < |s.resident| && s.resident[lane] in s.e && picked != s.resident[lane]
    requires Enabled(s, LIMITS, Asks(s, lane, key, picked))
    requires s.n !in s.e && (picked >= 0 ==> picked in s.e)
    ensures Reaches(s, Entered(s, lane, picked))
  {
    hide CanChoose, Lanes, Reaches;
    var t := After(s, LIMITS, Asks(s, lane, key, picked));
    OneStep(s, Asks(s, lane, key, picked));
    assert Enabled(t, LIMITS, Handover(lane));
    OneStep(t, Handover(lane));
    EnteredIsThat(s, lane, picked);
    ReachesOn(s, t, Entered(s, lane, picked));
  }

  lemma EnteredIsThat(s: S.State, lane: int, picked: int)
    requires 0 <= lane < |s.resident| && s.resident[lane] in s.e && picked != s.resident[lane]
    requires s.n !in s.e && (picked >= 0 ==> picked in s.e)
    ensures var t := S.Reserve(s, lane, ChosenId(s, picked), NewEntry());
            t.Has(lane) && S.TakeLane(t, lane, Own.HandedOver) == Entered(s, lane, picked)
  {
    var id, out := ChosenId(s, picked), s.resident[lane];
    var x, y := Entering(s, picked), s.e[out];
    PutOnceMore(s.e, id, x, x.(busy := true));
    hide Entering, NewEntry;
    PutTwice(s.e, id, out, x.(busy := true), y.(switching := true), x.(busy := true, lane := lane),
             y.(switching := true, lane := -1));
    var op := Own.Operation(id, out, picked < 0, Own.Selected);
    PutOnceMore(s.ops, lane, op, op.(phase := Own.HandedOver));
  }

  // The displaced store is measured at these bytes.
  function Arrived(s: S.State, lane: int, key: Key, bytes: nat): S.State
    requires lane in s.ops && s.ops[lane].id in s.e && s.ops[lane].outgoing in s.e && 0 <= lane < |s.resident|
  {
    var op := s.ops[lane];
    s.(e := s.e[op.id := s.e[op.id].(client := key, lane := lane)]
             [op.outgoing := s.e[op.outgoing].(rows := 5, lane := -1, bytes := bytes)],
       resident := s.resident[lane := op.id], ops := s.ops[lane := op.(phase := Own.Published)])
  }

  // Publication after the handover.
  lemma Arrive(s: S.State, lane: int, key: Key, bytes: nat)
    requires s.Has(lane) && s.ops[lane].phase.HandedOver? && s.ops[lane].outgoing in s.e &&
             s.ops[lane].id != s.ops[lane].outgoing
    requires Plain(s.e[s.ops[lane].id]) && Plain(s.e[s.ops[lane].outgoing])
    ensures Reaches(s, Arrived(s, lane, key, bytes))
  {
    hide Lanes, Reaches, S.Publish;
    var a := Publish(lane, key, 0, Measure(5, bytes, 0));
    assert Enabled(s, LIMITS, a);
    OneStep(s, a);
    ArrivedIsThat(s, lane, key, bytes);
  }

  lemma ArrivedIsThat(s: S.State, lane: int, key: Key, bytes: nat)
    requires s.Has(lane) && s.ops[lane].outgoing in s.e && s.ops[lane].id != s.ops[lane].outgoing
    requires Plain(s.e[s.ops[lane].id]) && Plain(s.e[s.ops[lane].outgoing])
    ensures S.Publish(s, lane, key, 0, Measure(5, bytes, 0)) == Arrived(s, lane, key, bytes)
  {
    var op := s.ops[lane];
    var x, y := s.e[op.id], s.e[op.outgoing];
    var x', y' := x.(client := key, lane := lane), y.(rows := 5, lane := -1, bytes := bytes);
    assert x' == x.(lane := lane).(client := key, native := 0, attachment := 0, cold := false);
    assert y' == y.(lane := -1).(rows := 5, bytes := bytes, native := 0);
    hide Plain;
    PutTwice(s.e, op.id, op.outgoing, x.(lane := lane), y.(lane := -1), x', y');
    PutTwice(s.e, op.id, op.outgoing, x.(lane := lane), y.(lane := -1), x', y.(lane := -1));
    PutOnceMore(s.e[op.id := x'], op.outgoing, y.(lane := -1), y');
  }

  function Released(s: S.State, lane: int): S.State
    requires lane in s.ops && s.ops[lane].outgoing in s.e
  {
    var op := s.ops[lane];
    s.(e := s.e[op.outgoing := s.e[op.outgoing].(switching := false)], w := s.w - {op.outgoing},
       ops := s.ops[lane := op.(phase := Own.Ready)])
  }

  lemma Release(s: S.State, lane: int)
    requires lane in s.ops && s.ops[lane].phase.Published? && s.ops[lane].outgoing in s.e &&
             s.ops[lane].id != s.ops[lane].outgoing
    ensures Reaches(s, Released(s, lane))
  {
    hide Lanes, Reaches;
    var a := Settle(lane, s.e[s.ops[lane].outgoing].bytes);
    OneStep(s, a);
    assert After(s, LIMITS, a) == Released(s, lane);
  }

  // The request's store runs on the lane, and the one it displaced is parked.
  function Running(s: S.State, lane: int, key: Key, picked: int): S.State
    requires 0 <= lane < |s.resident| && s.resident[lane] in s.e
  {
    var id, out := ChosenId(s, picked), s.resident[lane];
    S.State(s.e[id := Entering(s, picked).(busy := true, lane := lane, client := key)]
             [out := s.e[out].(switching := false, lane := -1, rows := 5, bytes := 0)],
          s.b[id := lane], s.w - {out}, s.resident[lane := id], if picked < 0 then s.n + 1 else s.n,
          s.ops[lane := Own.Operation(id, out, picked < 0, Own.Ready)])
  }

  // A request up to the end of attach().
  lemma Run(s: S.State, lane: int, key: Key, picked: int)
    requires 0 <= lane < |s.resident| && s.resident[lane] in s.e && picked != s.resident[lane]
    requires Enabled(s, LIMITS, Asks(s, lane, key, picked))
    requires s.n !in s.e && (picked >= 0 ==> picked in s.e) && Plain(s.e[s.resident[lane]]) &&
             Plain(Entering(s, picked))
    ensures Reaches(s, Running(s, lane, key, picked))
  {
    hide Enabled, Reaches;
    Enter(s, lane, key, picked);
    var t := Entered(s, lane, picked);
    Arrive(t, lane, key, 0);
    var u := Arrived(t, lane, key, 0);
    Release(u, lane);
    ReachesOn(s, t, u);
    ReachesOn(s, u, Released(u, lane));
    RunIsThat(s, lane, key, picked);
  }

  lemma RunIsThat(s: S.State, lane: int, key: Key, picked: int)
    requires 0 <= lane < |s.resident| && s.resident[lane] in s.e && picked != s.resident[lane]
    requires s.n !in s.e && (picked >= 0 ==> picked in s.e)
    ensures var t := Entered(s, lane, picked);
            && lane in t.ops && t.ops[lane].id in t.e && t.ops[lane].outgoing in t.e && 0 <= lane < |t.resident|
            && Released(Arrived(t, lane, key, 0), lane) == Running(s, lane, key, picked)
  {
    hide Plain;
    var id, out := ChosenId(s, picked), s.resident[lane];
    var x, y := Entering(s, picked), s.e[out];
    var y1 := y.(switching := true, lane := -1, rows := 5, bytes := 0);
    hide Entering;
    PutTwice(s.e, id, out, x.(busy := true, lane := lane), y.(switching := true, lane := -1),
             x.(busy := true, lane := lane, client := key), y1);
    PutOnceMore(s.e[id := x.(busy := true, lane := lane, client := key)], out, y1, y1.(switching := false));
    PutOnceMore(s.w, out, lane, lane);
    var op := Own.Operation(id, out, picked < 0, Own.HandedOver);
    PutOnceMore(s.ops, lane, op, op.(phase := Own.Published));
    PutOnceMore(s.ops, lane, op.(phase := Own.Published), op.(phase := Own.Ready));
  }

  function AfterEnd(s: S.State, lane: int, used: nat): S.State
    requires lane in s.ops && s.ops[lane].id in s.e
  {
    var op := s.ops[lane];
    var e := s.e[op.id := s.e[op.id].(rows := 5, used := used, busy := false, switching := false)];
    s.(e := if op.outgoing in e then e[op.outgoing := e[op.outgoing].(switching := false)] else e,
       b := s.b - {op.id}, w := s.w - {op.id, op.outgoing}, ops := s.ops - {lane})
  }

  // The end of a request that is ready: nothing is over any limit.
  lemma End(s: S.State, lane: int, used: nat)
    requires s.Has(lane) && s.ops[lane].phase.Ready? && s.ops[lane].outgoing in s.e && Plain(s.e[s.ops[lane].id])
    requires forall id :: id in s.e ==> s.e[id].bytes == 0
    ensures Reaches(s, AfterEnd(s, lane, used))
  {
    hide Lanes, Reaches, LruGivenUp, LruDropped, ByteVictims, LastByteNeeded, RetainedCount, Own.CommitStep, Bytes;
    var a := Ends(lane, used);
    var e := S.Commit(s, lane, Rows(5), used).e;
    assert e == AfterEnd(s, lane, used).e;
    NoStoreBytes(e, s.n);
    NothingGiven(e, a.cleared);
    NothingDropped(e, {}, lane, a.locked);
    assert Left(s, LIMITS, a) == e;
    NotErased(s, lane);
    assert CanFinish(s, LIMITS, a);
    OneStep(s, a);
    assert After(s, LIMITS, a) == AfterEnd(s, lane, used);
  }

  lemma NotErased(s: S.State, lane: int)
    requires lane in s.ops && s.ops[lane].phase.Ready? && s.ops[lane].outgoing in s.e
    ensures !S.OutgoingErased(s, lane)
  {
  }

  // The lane's own store serves a request, up to the end of attach().
  function Reused(s: S.State, lane: int, key: Key): S.State
    requires 0 <= lane < |s.resident| && s.resident[lane] in s.e
  {
    var id := s.resident[lane];
    S.State(s.e[id := s.e[id].(busy := true, client := key)], s.b[id := lane], s.w, s.resident, s.n,
            s.ops[lane := Own.Operation(id, id, false, Own.Ready)])
  }

  function Held(s: S.State, lane: int): S.State
    requires 0 <= lane < |s.resident| && s.resident[lane] in s.e
  {
    var id := s.resident[lane];
    S.State(s.e[id := s.e[id].(busy := true)], s.b[id := lane], s.w, s.resident, s.n,
            s.ops[lane := Own.Operation(id, id, false, Own.Selected)])
  }

  lemma Hold(s: S.State, lane: int, key: Key)
    requires 0 <= lane < |s.resident| && s.resident[lane] in s.e && s.resident[lane] != s.n && s.resident[lane] >= 0
    requires Enabled(s, LIMITS, Asks(s, lane, key, s.resident[lane]))
    ensures Reaches(s, Held(s, lane))
  {
    hide CanChoose, Reaches;
    OneStep(s, Asks(s, lane, key, s.resident[lane]));
  }

  lemma Reuse(s: S.State, lane: int, key: Key)
    requires 0 <= lane < |s.resident| && s.resident[lane] in s.e && Plain(s.e[s.resident[lane]])
    requires s.e[s.resident[lane]].lane == lane
    ensures Reaches(Held(s, lane), Reused(s, lane, key))
  {
    hide Lanes, Reaches, S.Publish;
    var id, t := s.resident[lane], Held(s, lane);
    var u := After(t, LIMITS, Publish(lane, key, 0, Rows(5)));
    OneStep(t, Publish(lane, key, 0, Rows(5)));
    ReusedIsThat(s, lane, key);
    OneStep(u, Settle(lane, 0));
    ReachesOn(t, u, After(u, LIMITS, Settle(lane, 0)));
    var op := Own.Operation(id, id, false, Own.Ready);
    PutOnceMore(s.ops, lane, op, op);
    PutOnceMore(s.ops[lane := op], lane, op.(phase := Own.Published), op);
  }

  lemma ReusedIsThat(s: S.State, lane: int, key: Key)
    requires 0 <= lane < |s.resident| && s.resident[lane] in s.e && Plain(s.e[s.resident[lane]])
    requires s.e[s.resident[lane]].lane == lane
    ensures var r := Reused(s, lane, key);
            S.Publish(Held(s, lane), lane, key, 0, Rows(5)) ==
            r.(ops := r.ops[lane := r.ops[lane].(phase := Own.Published)])
  {
    var id := s.resident[lane];
    var x := s.e[id].(busy := true);
    var y := x.(client := key);
    assert x.(lane := lane) == x && x.(client := key, native := 0, attachment := 0, cold := false) == y;
    assert s.resident[lane := id] == s.resident;
    hide Plain;
    PutOnceMore(s.e, id, x, x);
    PutOnceMore(s.e, id, x, y);
    var op := Own.Operation(id, id, false, Own.Selected);
    PutOnceMore(s.ops, lane, op, op.(phase := Own.Published));
    PutOnceMore(s.ops, lane, op.(phase := Own.Ready), op.(phase := Own.Published));
  }

  // A whole request on the store that is on its lane already.
  lemma Stay(s: S.State, lane: int, key: Key, used: nat)
    requires 0 <= lane < |s.resident| && s.resident[lane] in s.e &&
             Enabled(s, LIMITS, Asks(s, lane, key, s.resident[lane]))
    requires lane !in s.ops && s.resident[lane] !in s.b && s.resident[lane] !in s.w && Plain(s.e[s.resident[lane]])
    requires s.e[s.resident[lane]].lane == lane && !s.e[s.resident[lane]].busy && !s.e[s.resident[lane]].switching &&
             s.resident[lane] != s.n
    requires s.resident[lane] >= 0 && forall id :: id in s.e ==> s.e[id].bytes == 0
    ensures var id := s.resident[lane]; Reaches(s, s.(e := s.e[id := s.e[id].(client := key, rows := 5, used := used)]))
  {
    hide Enabled, Reaches;
    Hold(s, lane, key);
    Reuse(s, lane, key);
    End(Reused(s, lane, key), lane, used);
    ReachesOn(s, Held(s, lane), Reused(s, lane, key));
    ReachesOn(s, Reused(s, lane, key), AfterEnd(Reused(s, lane, key), lane, used));
    StayedIsThat(s, lane, key, used);
  }

  lemma StayedIsThat(s: S.State, lane: int, key: Key, used: nat)
    requires 0 <= lane < |s.resident| && s.resident[lane] in s.e && lane !in s.ops
    requires s.resident[lane] !in s.b && s.resident[lane] !in s.w
    requires !s.e[s.resident[lane]].busy && !s.e[s.resident[lane]].switching
    ensures var id := s.resident[lane];
            AfterEnd(Reused(s, lane, key), lane, used) ==
            s.(e := s.e[id := s.e[id].(client := key, rows := 5, used := used)])
  {
    var id := s.resident[lane];
    var x := s.e[id].(busy := true, client := key);
    var y := s.e[id].(client := key, rows := 5, used := used);
    PutOnceMore(s.e, id, x, y);
    PutOnceMore(s.e, id, y, y);
    PutOnceMore(s.ops, lane, Own.Operation(id, id, false, Own.Ready), Own.Operation(id, id, false, Own.Ready));
    assert s.b[id := lane] - {id} == s.b && s.w - {id, id} == s.w;
    assert s.ops[lane := Own.Operation(id, id, false, Own.Ready)] - {lane} == s.ops;
  }

  /* ---------- The run ---------- */

  predicate ThreeKeys(a: Key, b: Key, c: Key) { NoKey !in {a, b, c} && a != b && a != c && b != c }

  predicate FourKeys(a: Key, b: Key, c: Key, d: Key) {
    NoKey !in {a, b, c, d} && a != b && a != c && a != d && b != c && b != d && c != d
  }

  function AtFirst(): S.State {
    S.State(map[0 := X(0, false, false, 0, NoKey, 0), 1 := X(1, false, false, 0, NoKey, 0)], map[], map[], [0, 1], 2,
            map[])
  }

  // The first request of a has ended, and then that of b.
  function OneFilled(a: Key): S.State {
    S.State(map[0 := X(0, false, false, 1, a, 5), 1 := X(1, false, false, 0, NoKey, 0)], map[], map[], [0, 1], 2, map[])
  }

  function BothFilled(a: Key, b: Key): S.State {
    S.State(map[0 := X(0, false, false, 1, a, 5), 1 := X(1, false, false, 2, b, 5)], map[], map[], [0, 1], 2, map[])
  }

  // c runs on lane 0; the store of a is parked.
  function Displaced(a: Key, b: Key, c: Key): S.State {
    S.State(map[0 := X(-1, false, false, 1, a, 5), 1 := X(1, false, false, 2, b, 5), 2 := X(0, true, false, 0, c, 0)],
          map[2 := 0], map[], [2, 1], 3, map[0 := Own.Operation(2, 0, true, Own.Ready)])
  }

  // The second request of a has ended on lane 1.
  function Returned(a: Key, b: Key, c: Key): S.State {
    S.State(map[0 := X(1, false, false, 3, a, 5), 1 := X(-1, false, false, 2, b, 5), 2 := X(0, true, false, 0, c, 0)],
          map[2 := 0], map[], [2, 0], 3, map[0 := Own.Operation(2, 0, true, Own.Ready)])
  }

  // d is taking lane 1 from the store of a ...
  function Leaving(a: Key, b: Key, c: Key): S.State {
    S.State(map[0 := X(-1, false, true, 3, a, 5), 1 := X(-1, false, false, 2, b, 5), 2 := X(0, true, false, 0, c, 0),
              3 := X(1, true, false, 0, NoKey, 0)],
          map[2 := 0, 3 := 1], map[0 := 1], [2, 3], 4,
          map[0 := Own.Operation(2, 0, true, Own.Ready), 1 := Own.Operation(3, 0, true, Own.HandedOver)])
  }

  // ... when c ends and clears its flag ...
  function Unflagged(a: Key, b: Key, c: Key): S.State {
    S.State(map[0 := X(-1, false, false, 3, a, 5), 1 := X(-1, false, false, 2, b, 5), 2 := X(0, false, false, 4, c, 5),
              3 := X(1, true, false, 0, NoKey, 0)],
          map[3 := 1], map[], [2, 3], 4, map[1 := Own.Operation(3, 0, true, Own.HandedOver)])
  }

  // ... so that a can take it to lane 0 ...
  function Taken(a: Key, b: Key, c: Key): S.State {
    S.State(map[0 := X(0, true, false, 3, a, 5), 1 := X(-1, false, false, 2, b, 5), 2 := X(-1, false, true, 4, c, 5),
              3 := X(1, true, false, 0, NoKey, 0)],
          map[0 := 0, 3 := 1], map[2 := 0], [0, 3], 4,
          map[0 := Own.Operation(0, 2, false, Own.HandedOver), 1 := Own.Operation(3, 0, true, Own.HandedOver)])
  }

  // ... and then d parks it.
  function Lost(a: Key, b: Key, c: Key, d: Key): S.State {
    S.State(map[0 := X(-1, true, false, 3, a, 5), 1 := X(-1, false, false, 2, b, 5), 2 := X(-1, false, true, 4, c, 5),
              3 := X(1, true, false, 0, d, 0)],
          map[0 := 0, 3 := 1], map[2 := 0], [0, 3], 4,
          map[0 := Own.Operation(0, 2, false, Own.HandedOver), 1 := Own.Operation(3, 0, true, Own.Published)])
  }

  lemma SelectsFirst(a: Key)
    requires a != NoKey
    ensures Enabled(AtFirst(), LIMITS, Asks(AtFirst(), 0, a, 0))
  {
  }

  lemma SelectsSecond(a: Key, b: Key)
    requires a != NoKey && b != NoKey && a != b
    ensures Enabled(OneFilled(a), LIMITS, Asks(OneFilled(a), 1, b, 1))
  {
  }

  lemma Filling(a: Key, b: Key)
    requires a != NoKey && b != NoKey && a != b
    ensures Reaches(AtFirst(), OneFilled(a)) && Reaches(OneFilled(a), BothFilled(a, b))
  {
    FillingFirst(a);
    FillingSecond(a, b);
  }

  lemma FillingFirst(a: Key)
    requires a != NoKey
    ensures Reaches(AtFirst(), OneFilled(a))
  {
    SelectsFirst(a);
    hide Reaches, Enabled;
    Stay(AtFirst(), 0, a, 1);
    OneFilledIsThat(a);
  }

  lemma OneFilledIsThat(a: Key)
    ensures var s := AtFirst(); s.(e := s.e[0 := s.e[0].(client := a, rows := 5, used := 1)]) == OneFilled(a)
  {
    var s, x := AtFirst(), X(0, false, false, 1, a, 5);
    assert s.e[0].(client := a, rows := 5, used := 1) == x;
    assert s.e[0 := x] == OneFilled(a).e by { hide X; }
  }

  lemma FillingSecond(a: Key, b: Key)
    requires a != NoKey && b != NoKey && a != b
    ensures Reaches(OneFilled(a), BothFilled(a, b))
  {
    SelectsSecond(a, b);
    hide Reaches, Enabled;
    Stay(OneFilled(a), 1, b, 2);
    assert BothFilled(a, b).e == OneFilled(a).e[1 := OneFilled(a).e[1].(client := b, rows := 5, used := 2)];
  }

  // A conversation whose store is parked gets it on the first free lane.
  lemma SelectsParked(s: S.State, lane: int, key: Key, picked: int)
    requires (forall l :: l in s.ops ==> 0 <= l < |s.resident|) && key != NoKey
    requires First(NamedStores(s.e, key), picked) && s.e[picked].Parked()
    requires FirstFree(s.e, s.resident, Leased(s), lane)
    ensures Enabled(s, LIMITS, Asks(s, lane, key, picked))
  {
    hide NamedStores;
    assert picked in NamedStores(s.e, key) by { assert First(NamedStores(s.e, key), picked); }
    NamedKnown(s.e, key);
  }

  lemma NamedKnown(e: Entries, key: Key)
    ensures NamedStores(e, key) <= e.Keys
  {
  }

  // A new conversation gets a new store on the first free lane, unless an empty one is there or the table is full.
  lemma SelectsNew(s: S.State, lane: int, key: Key)
    requires (forall l :: l in s.ops ==> 0 <= l < |s.resident|) && !Full(s, LIMITS) && -1 !in s.e
    requires NamedStores(s.e, key) == {} && ReusableStores(s.e, Leased(s)) == {}
    requires FirstFree(s.e, s.resident, Leased(s), lane)
    ensures Enabled(s, LIMITS, Asks(s, lane, key, -1))
  {
    hide NamedStores, ReusableStores;
  }

  // c's conversation is new, and so is d's; a's store is parked.
  lemma SelectsForC(a: Key, b: Key, c: Key)
    requires ThreeKeys(a, b, c)
    ensures Enabled(BothFilled(a, b), LIMITS, Asks(BothFilled(a, b), 0, c, -1))
  {
  }

  lemma SelectsForA(a: Key, b: Key, c: Key)
    requires ThreeKeys(a, b, c)
    ensures Enabled(Displaced(a, b, c), LIMITS, Asks(Displaced(a, b, c), 1, a, 0))
  {
    hide Enabled;
    var s := Displaced(a, b, c);
    assert First(NamedStores(s.e, a), 0) && FirstFree(s.e, s.resident, Leased(s), 1);
    SelectsParked(s, 1, a, 0);
  }

  lemma SelectsForD(a: Key, b: Key, c: Key, d: Key)
    requires FourKeys(a, b, c, d)
    ensures Enabled(Returned(a, b, c), LIMITS, Asks(Returned(a, b, c), 1, d, -1))
  {
    hide Enabled;
    var s := Returned(a, b, c);
    assert NamedStores(s.e, d) == {} && ReusableStores(s.e, Leased(s)) == {};
    assert FirstFree(s.e, s.resident, Leased(s), 1);
    SelectsNew(s, 1, d);
  }

  lemma SelectsForAAgain(a: Key, b: Key, c: Key)
    requires ThreeKeys(a, b, c)
    ensures Enabled(Unflagged(a, b, c), LIMITS, Asks(Unflagged(a, b, c), 0, a, 0))
  {
    hide Enabled;
    var s := Unflagged(a, b, c);
    assert First(NamedStores(s.e, a), 0) && FirstFree(s.e, s.resident, Leased(s), 0);
    SelectsParked(s, 0, a, 0);
  }

  lemma Displacing(a: Key, b: Key, c: Key)
    requires ThreeKeys(a, b, c)
    ensures Reaches(BothFilled(a, b), Displaced(a, b, c))
  {
    hide Reaches, Enabled, ThreeKeys;
    SelectsForC(a, b, c);
    Run(BothFilled(a, b), 0, c, -1);
    DisplacedIsThat(a, b, c);
  }

  lemma DisplacedIsThat(a: Key, b: Key, c: Key)
    ensures Running(BothFilled(a, b), 0, c, -1) == Displaced(a, b, c)
  {
  }

  lemma Returning(a: Key, b: Key, c: Key)
    requires ThreeKeys(a, b, c)
    ensures Reaches(Displaced(a, b, c), Returned(a, b, c))
  {
    hide Reaches, Enabled, ThreeKeys;
    SelectsForA(a, b, c);
    Run(Displaced(a, b, c), 1, a, 0);
    RunsAgain(a, b, c);
    End(Again(a, b, c), 1, 3);
    ReachesOn(Displaced(a, b, c), Again(a, b, c), AfterEnd(Again(a, b, c), 1, 3));
    ReturnedIsThat(a, b, c);
  }

  // The second request of a runs.
  function Again(a: Key, b: Key, c: Key): S.State {
    S.State(map[0 := X(1, true, false, 1, a, 5), 1 := X(-1, false, false, 2, b, 5), 2 := X(0, true, false, 0, c, 0)],
          map[0 := 1, 2 := 0], map[], [2, 0], 3,
          map[0 := Own.Operation(2, 0, true, Own.Ready), 1 := Own.Operation(0, 1, false, Own.Ready)])
  }

  lemma RunsAgain(a: Key, b: Key, c: Key)
    ensures Running(Displaced(a, b, c), 1, a, 0) == Again(a, b, c)
  {
  }

  lemma ReturnedIsThat(a: Key, b: Key, c: Key)
    ensures AfterEnd(Again(a, b, c), 1, 3) == Returned(a, b, c)
  {
  }

  lemma Racing(a: Key, b: Key, c: Key, d: Key)
    requires FourKeys(a, b, c, d)
    ensures Reaches(Returned(a, b, c), Leaving(a, b, c))
  {
    hide Reaches, Enabled, FourKeys;
    SelectsForD(a, b, c, d);
    Enter(Returned(a, b, c), 1, d, -1);
    LeavingIsThat(a, b, c);
  }

  lemma LeavingIsThat(a: Key, b: Key, c: Key)
    ensures Entered(Returned(a, b, c), 1, -1) == Leaving(a, b, c)
  {
  }

  lemma Clearing(a: Key, b: Key, c: Key)
    ensures Reaches(Leaving(a, b, c), Unflagged(a, b, c))
  {
    hide Reaches;
    End(Leaving(a, b, c), 0, 4);
    UnflaggedIsThat(a, b, c);
  }

  lemma UnflaggedIsThat(a: Key, b: Key, c: Key)
    ensures AfterEnd(Leaving(a, b, c), 0, 4) == Unflagged(a, b, c)
  {
  }

  lemma Taking(a: Key, b: Key, c: Key)
    requires ThreeKeys(a, b, c)
    ensures Reaches(Unflagged(a, b, c), Taken(a, b, c))
  {
    hide Reaches, Enabled, ThreeKeys;
    SelectsForAAgain(a, b, c);
    Enter(Unflagged(a, b, c), 0, a, 0);
    TakenIsThat(a, b, c);
  }

  lemma TakenIsThat(a: Key, b: Key, c: Key)
    ensures Entered(Unflagged(a, b, c), 0, 0) == Taken(a, b, c)
  {
    hide NewEntry;
    var s, t := Unflagged(a, b, c), Taken(a, b, c);
    var x, y := X(0, true, false, 3, a, 5), X(-1, false, true, 4, c, 5);
    assert Entering(s, 0).(busy := true, lane := 0) == x && s.e[2].(switching := true, lane := -1) == y;
    assert s.e[0 := x][2 := y] == t.e by { hide X; }
  }

  lemma Losing(a: Key, b: Key, c: Key, d: Key)
    ensures Reaches(Taken(a, b, c), Lost(a, b, c, d))
  {
    hide Reaches;
    Arrive(Taken(a, b, c), 1, d, 0);
    LostIsThat(a, b, c, d);
  }

  lemma LostIsThat(a: Key, b: Key, c: Key, d: Key)
    ensures Arrived(Taken(a, b, c), 1, d, 0) == Lost(a, b, c, d)
  {
    var s, t := Taken(a, b, c), Lost(a, b, c, d);
    var x, y := X(1, true, false, 0, d, 0), X(-1, true, false, 3, a, 5);
    assert s.e[3].(client := d, lane := 1) == x && s.e[0].(rows := 5, lane := -1, bytes := 0) == y;
    assert s.e[3 := x][0 := y] == t.e by { hide X; }
  }

  lemma AtStartup()
    ensures Startup([Rows(0), Rows(0)]) == AtFirst()
  {
    var two := [Rows(0), Rows(0)];
    assert two[..1] == [Rows(0)] && [Rows(0)][..0] == [];
    assert S.Initial([]) == map[] && S.Initial([Rows(0)]) == map[0 := X(0, false, false, 0, NoKey, 0)];
  }

  // Everything up to the point at which d is about to park a store that a has taken.
  lemma RunsUpToTaken(a: Key, b: Key, c: Key, d: Key)
    requires FourKeys(a, b, c, d)
    ensures Reaches(Startup([Rows(0), Rows(0)]), Taken(a, b, c))
  {
    hide Reaches;
    var start := Startup([Rows(0), Rows(0)]);
    AtStartup();
    Filling(a, b);
    Displacing(a, b, c);
    Returning(a, b, c);
    Racing(a, b, c, d);
    Clearing(a, b, c);
    Taking(a, b, c);
    hide AtFirst, OneFilled, BothFilled, Displaced, Returned, Leaving, Unflagged, Taken;
    ReachesOn(start, OneFilled(a), BothFilled(a, b));
    ReachesOn(start, BothFilled(a, b), Displaced(a, b, c));
    ReachesOn(start, Displaced(a, b, c), Returned(a, b, c));
    ReachesOn(start, Returned(a, b, c), Leaving(a, b, c));
    ReachesOn(start, Leaving(a, b, c), Unflagged(a, b, c));
    ReachesOn(start, Unflagged(a, b, c), Taken(a, b, c));
  }

  /** Ownership can be lost from startup with two lanes: in the end the store of a is the resident of lane 0 and says
      that it is parked. */
  lemma OwnershipCanBeLost(a: Key, b: Key, c: Key, d: Key)
    requires FourKeys(a, b, c, d)
    ensures Reaches(Startup([Rows(0), Rows(0)]), Lost(a, b, c, d)) && !Own.Bijection(Lost(a, b, c, d).Owners())
    ensures var e := Lost(a, b, c, d); e.resident[0] == 0 && e.e[0].client == a && e.e[0].lane == -1
  {
    hide Reaches;
    RunsUpToTaken(a, b, c, d);
    Losing(a, b, c, d);
    ReachesOn(Startup([Rows(0), Rows(0)]), Taken(a, b, c), Lost(a, b, c, d));
    NotOwned(a, b, c, d);
  }

  lemma NotOwned(a: Key, b: Key, c: Key, d: Key)
    ensures !Own.Bijection(Lost(a, b, c, d).Owners())
  {
    var o := Lost(a, b, c, d).Owners();
    assert o.resident[0] == 0 && o.lanes[0] == -1;
  }
}
