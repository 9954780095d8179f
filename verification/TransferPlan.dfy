/**
 The transfer planner of tools/kvmem-session-transfer.h: an order for reading one session back
 into RAM and writing others out to disk, so that neither RAM nor disk runs over on the way.
 Reading takes RAM and frees disk, writing does the opposite.
 */
module TransferPlan {

  /** One chunk to move. chunk says which one; ram and disk are what the move takes or gives back. */
  datatype Move = Move(session: int, chunk: nat, restore: bool, ram: nat, disk: nat) {
    function Ram(): int { if restore then 0 - ram else ram }

    function Disk(): int { if restore then 0 - disk else disk }
  }

  datatype Route = DiskFirst | RamFirst | Exchange

  /* ---------- What a sequence of moves does ---------- */

  function RamAfter(ram: int, moves: seq<Move>): int {
    if moves == [] then ram
    else
      var m := moves[|moves| - 1];
      RamAfter(ram, moves[..|moves| - 1]) + m.Ram()
  }

  function DiskAfter(disk: int, moves: seq<Move>): int {
    if moves == [] then disk
    else
      var m := moves[|moves| - 1];
      DiskAfter(disk, moves[..|moves| - 1]) + m.Disk()
  }

  predicate Fits(m: Move, ram: int, disk: int, limit: int) {
    if m.restore then m.ram <= ram else m.disk <= limit - disk
  }

  // Every move fits when its turn comes.
  predicate Feasible(moves: seq<Move>, ram: int, disk: int, limit: int) {
    moves != [] ==>
      var rest := moves[..|moves| - 1];
      Feasible(rest, ram, disk, limit) && Fits(moves[|moves| - 1], RamAfter(ram, rest), DiskAfter(disk, rest), limit)
  }

  function Larger(a: int, b: int): int { if a < b then b else a }

  // The most disk in use, and the most RAM taken beyond what was free at the start, at any point.
  function PeakDisk(disk: int, moves: seq<Move>): int {
    if moves == [] then disk else Larger(PeakDisk(disk, moves[..|moves| - 1]), DiskAfter(disk, moves))
  }

  function PeakRam(ram: int, moves: seq<Move>): int {
    if moves == [] then 0 else Larger(PeakRam(ram, moves[..|moves| - 1]), ram - RamAfter(ram, moves))
  }

  /** A feasible order stays within RAM and disk at every point, and the peaks are reached and never passed. */
  lemma {:induction false} PrefixesStayWithin(moves: seq<Move>, ram: nat, disk: nat, limit: nat, k: nat)
    requires Feasible(moves, ram, disk, limit) && disk <= limit && k <= |moves|
    ensures RamAfter(ram, moves[..k]) >= 0 && DiskAfter(disk, moves[..k]) <= limit
    ensures DiskAfter(disk, moves[..k]) <= PeakDisk(disk, moves) &&
            ram - RamAfter(ram, moves[..k]) <= PeakRam(ram, moves)
    decreases |moves|
  {
    if moves != [] {
      var rest := moves[..|moves| - 1];
      PrefixesStayWithin(rest, ram, disk, limit, |rest|);
      assert rest[..|rest|] == rest && moves[..|moves|] == moves;
      if k < |moves| {
        PrefixesStayWithin(rest, ram, disk, limit, k);
        assert rest[..k] == moves[..k];
      }
    } else {
      assert moves[..k] == [];
    }
  }

  lemma {:induction false} PeaksAreReached(moves: seq<Move>, ram: int, disk: int)
    ensures exists k :: 0 <= k <= |moves| && DiskAfter(disk, moves[..k]) == PeakDisk(disk, moves)
    ensures exists k :: 0 <= k <= |moves| && Larger(0, ram - RamAfter(ram, moves[..k])) == PeakRam(ram, moves)
  {
    if moves == [] {
      assert moves[..0] == [];
    } else {
      var rest := moves[..|moves| - 1];
      PeaksAreReached(rest, ram, disk);
      var i :| 0 <= i <= |rest| && DiskAfter(disk, rest[..i]) == PeakDisk(disk, rest);
      var j :| 0 <= j <= |rest| && Larger(0, ram - RamAfter(ram, rest[..j])) == PeakRam(ram, rest);
      assert rest[..i] == moves[..i] && rest[..j] == moves[..j] && moves[..|moves|] == moves;
    }
  }

  /* ---------- What all the moves come to, in any order ---------- */

  function Ram(moves: seq<Move>): int { RamAfter(0, moves) }

  function Disk(moves: seq<Move>): int { DiskAfter(0, moves) }

  lemma {:induction false} AfterIsNet(moves: seq<Move>, ram: int, disk: int)
    ensures RamAfter(ram, moves) == ram + Ram(moves) && DiskAfter(disk, moves) == disk + Disk(moves)
  {
    if moves != [] { AfterIsNet(moves[..|moves| - 1], ram, disk); }
  }

  lemma {:induction false} NetOfSum(a: seq<Move>, b: seq<Move>)
    ensures Ram(a + b) == Ram(a) + Ram(b) && Disk(a + b) == Disk(a) + Disk(b)
  {
    if b == [] {
      assert a + b == a;
    } else {
      var k := |b| - 1;
      NetOfSum(a, b[..k]);
      assert (a + b)[..|a + b| - 1] == a + b[..k];
    }
  }

  lemma NetWithout(a: seq<Move>, k: nat)
    requires k < |a|
    ensures var b := a[..k] + a[k + 1..];
            && Ram(a) == Ram(b) + Ram([a[k]]) && Disk(a) == Disk(b) + Disk([a[k]])
            && multiset(a) == multiset(b) + multiset([a[k]])
  {
    assert a == a[..k] + ([a[k]] + a[k + 1..]);
    NetOfSum(a[..k], [a[k]] + a[k + 1..]);
    NetOfSum([a[k]], a[k + 1..]);
    NetOfSum(a[..k], a[k + 1..]);
  }

  lemma {:induction false} NetOfAnyOrder(a: seq<Move>, b: seq<Move>)
    requires multiset(a) == multiset(b)
    ensures Ram(a) == Ram(b) && Disk(a) == Disk(b)
    decreases |a|
  {
    hide RamAfter, DiskAfter;
    if a == [] {
      assert |multiset(b)| == 0;
    } else {
      assert a[0] in multiset(b);
      var k :| 0 <= k < |b| && b[k] == a[0];
      NetWithout(a, 0);
      NetWithout(b, k);
      assert a[..0] + a[1..] == a[1..];
      var c := b[..k] + b[k + 1..];
      RestOfAnyOrder(a, b, k);
      NetOfAnyOrder(a[1..], c);
    }
  }

  /** An order exists only if the moves balance: in the end RAM and disk must do. */
  lemma OrdersBalance(order: seq<Move>, moves: seq<Move>, ram: nat, disk: nat, limit: nat)
    requires multiset(order) == multiset(moves) && Feasible(order, ram, disk, limit) && disk <= limit
    ensures ram + Ram(moves) >= 0 && disk + Disk(moves) <= limit
  {
    PrefixesStayWithin(order, ram, disk, limit, |order|);
    assert order[..|order|] == order;
    AfterIsNet(order, ram, disk);
    NetOfAnyOrder(order, moves);
  }

  ghost predicate SomeOrderFits(moves: seq<Move>, ram: nat, disk: nat, limit: nat) {
    exists order :: multiset(order) == multiset(moves) && Feasible(order, ram, disk, limit)
  }

  /* ---------- The order in which the planner takes moves ---------- */

  predicate AllOneWay(reading: bool, moves: seq<Move>) { forall i :: 0 <= i < |moves| ==> moves[i].restore == reading }

  datatype Scan = Scan(taken: seq<Move>, left: seq<Move>, ram: int, disk: int)

  // One pass over a list: each move that fits when its turn comes is taken.
  function ScanOf(pending: seq<Move>, ram: int, disk: int, limit: int): (s: Scan)
    ensures |s.taken| + |s.left| == |pending|
  {
    if pending == [] then Scan([], [], ram, disk)
    else
      var k := |pending| - 1;
      var s, m := ScanOf(pending[..k], ram, disk, limit), pending[k];
      if Fits(m, s.ram, s.disk, limit) then Scan(s.taken + [m], s.left, s.ram + m.Ram(), s.disk + m.Disk())
      else s.(left := s.left + [m])
  }

  // One turn of the planning loop, and what it leaves of the reads and of the writes.
  function TurnOf(route: Route, toRead: seq<Move>, toWrite: seq<Move>, ram: int, disk: int,
                  limit: int): (t: (Scan, seq<Move>, seq<Move>))
    ensures |t.0.taken| + |t.1| + |t.2| == |toRead| + |toWrite|
  {
    if route.RamFirst? then
      var a := ScanOf(toRead, ram, disk, limit);
      var b := ScanOf(toWrite, a.ram, a.disk, limit);
      (Scan(a.taken + b.taken, [], b.ram, b.disk), a.left, b.left)
    else
      var a := ScanOf(toWrite, ram, disk, limit);
      var b := ScanOf(toRead, a.ram, a.disk, limit);
      (Scan(a.taken + b.taken, [], b.ram, b.disk), b.left, a.left)
  }

  // Turn after turn, until nothing is left or nothing fits.
  function Schedule(route: Route, toRead: seq<Move>, toWrite: seq<Move>, ram: int, disk: int,
                    limit: int): (bool, seq<Move>)
    decreases |toRead| + |toWrite|
  {
    if |toRead| + |toWrite| == 0 then (true, [])
    else
      var t := TurnOf(route, toRead, toWrite, ram, disk, limit);
      if t.0.taken == [] then (false, [])
      else
        var rest := Schedule(route, t.1, t.2, t.0.ram, t.0.disk, limit);
        (rest.0, t.0.taken + rest.1)
  }

  lemma {:induction false} Joined(a: seq<Move>, b: seq<Move>, ram: int, disk: int, limit: int)
    ensures RamAfter(ram, a + b) == RamAfter(RamAfter(ram, a), b) &&
            DiskAfter(disk, a + b) == DiskAfter(DiskAfter(disk, a), b)
    ensures Feasible(a + b, ram, disk, limit) <==>
              Feasible(a, ram, disk, limit) && Feasible(b, RamAfter(ram, a), DiskAfter(disk, a), limit)
    decreases |b|
  {
    if b == [] {
      assert a + b == a;
    } else {
      var k := |b| - 1;
      Joined(a, b[..k], ram, disk, limit);
      assert (a + b)[..|a + b| - 1] == a + b[..k];
    }
  }

  // A pass loses no move and what it takes fits, one after the other.
  lemma {:induction false} ScanKeeps(pending: seq<Move>, ram: int, disk: int, limit: int)
    ensures var s := ScanOf(pending, ram, disk, limit);
            && multiset(s.taken) + multiset(s.left) == multiset(pending)
            && s.ram == RamAfter(ram, s.taken) && s.disk == DiskAfter(disk, s.taken) &&
               Feasible(s.taken, ram, disk, limit)
  {
    hide Feasible, RamAfter, DiskAfter, Fits;
    if pending == [] {
      NoMoves(ram, disk, limit);
    } else {
      var k := |pending| - 1;
      ScanKeeps(pending[..k], ram, disk, limit);
      assert pending == pending[..k] + [pending[k]];
      Append(ScanOf(pending[..k], ram, disk, limit).taken, pending[k], ram, disk, limit);
    }
  }

  // What a pass leaves did not fit, and does not fit when the pass is over.
  lemma {:induction false} ScanLeaves(reading: bool, pending: seq<Move>, ram: int, disk: int, limit: int)
    requires AllOneWay(reading, pending)
    ensures var s := ScanOf(pending, ram, disk, limit);
            && AllOneWay(reading, s.left) && (forall m :: m in s.left ==> !Fits(m, s.ram, s.disk, limit))
            && (if reading then s.ram <= ram else s.disk >= disk)
  {
    if pending != [] { ScanLeaves(reading, pending[..|pending| - 1], ram, disk, limit); }
  }

  // A pass with room for all of them takes them all.
  lemma {:induction false} ScanTakesAll(reading: bool, pending: seq<Move>, ram: int, disk: int, limit: int)
    requires AllOneWay(reading, pending)
    requires if reading then ram + Ram(pending) >= 0 else disk + Disk(pending) <= limit
    ensures var s := ScanOf(pending, ram, disk, limit);
            s.left == [] && s.taken == pending && s.ram == ram + Ram(pending) && s.disk == disk + Disk(pending)
  {
    if pending != [] {
      var k := |pending| - 1;
      var front, m := pending[..k], pending[k];
      assert m.restore == reading && AllOneWay(reading, front);
      ScanTakesAll(reading, front, ram, disk, limit);
      assert ScanOf(pending, ram, disk, limit).taken == front + [m] by { hide AllOneWay; }
      assert pending == front + [m];
    }
  }

  lemma TurnKeeps(route: Route, toRead: seq<Move>, toWrite: seq<Move>, ram: int, disk: int, limit: int)
    requires AllOneWay(true, toRead) && AllOneWay(false, toWrite)
    ensures var t := TurnOf(route, toRead, toWrite, ram, disk, limit);
            && AllOneWay(true, t.1) && AllOneWay(false, t.2)
            && multiset(t.0.taken) + multiset(t.1 + t.2) == multiset(toRead) + multiset(toWrite)
            && t.0.ram == RamAfter(ram, t.0.taken) && t.0.disk == DiskAfter(disk, t.0.taken) &&
               Feasible(t.0.taken, ram, disk, limit)
            && (t.0.taken == [] ==> forall m :: m in t.1 + t.2 ==> !Fits(m, ram, disk, limit))
  {
    hide ScanOf, Fits, AllOneWay;
    var first, second := if route.RamFirst? then toRead else toWrite, if route.RamFirst? then toWrite else toRead;
    var a := ScanOf(first, ram, disk, limit);
    var b := ScanOf(second, a.ram, a.disk, limit);
    ScanKeeps(first, ram, disk, limit);
    ScanKeeps(second, a.ram, a.disk, limit);
    ScanLeaves(route.RamFirst?, first, ram, disk, limit);
    ScanLeaves(!route.RamFirst?, second, a.ram, a.disk, limit);
    Joined(a.taken, b.taken, ram, disk, limit);
  }

  /** The schedule takes each move once, never runs over, and stops early only when nothing that is left fits. */
  lemma {:induction false} ScheduleFacts(route: Route, toRead: seq<Move>, toWrite: seq<Move>, ram: int, disk: int,
                                         limit: int)
    returns (rest: seq<Move>)
    requires AllOneWay(true, toRead) && AllOneWay(false, toWrite)
    ensures var s := Schedule(route, toRead, toWrite, ram, disk, limit);
            && multiset(s.1) + multiset(rest) == multiset(toRead) + multiset(toWrite) && Feasible(s.1, ram, disk, limit)
            && (s.0 <==> rest == [])
            && forall m :: m in rest ==> !Fits(m, RamAfter(ram, s.1), DiskAfter(disk, s.1), limit)
    decreases |toRead| + |toWrite|
  {
    hide AllOneWay, Fits, TurnOf;
    rest := [];
    if |toRead| + |toWrite| > 0 {
      var t := TurnOf(route, toRead, toWrite, ram, disk, limit);
      TurnKeeps(route, toRead, toWrite, ram, disk, limit);
      if t.0.taken == [] {
        rest := t.1 + t.2;
      } else {
        rest := ScheduleFacts(route, t.1, t.2, t.0.ram, t.0.disk, limit);
        Joined(t.0.taken, Schedule(route, t.1, t.2, t.0.ram, t.0.disk, limit).1, ram, disk, limit);
      }
    }
  }

  lemma NetOfOne(m: Move)
    ensures Ram([m]) == m.Ram() && Disk([m]) == m.Disk()
  {
    assert [m][..|[m]| - 1] == [];
    assert RamAfter(0, []) == 0 && DiskAfter(0, []) == 0;
  }

  lemma NetOfNone()
    ensures Ram([]) == 0 && Disk([]) == 0
  {
  }

  /* ---------- The route ---------- */

  function RouteOf(incoming: seq<Move>, outgoing: seq<Move>, ram: nat, disk: nat, limit: nat): Route {
    if disk + Disk(outgoing) <= limit then DiskFirst else if ram + Ram(incoming) >= 0 then RamFirst else Exchange
  }

  // Whether RAM and disk do in the end, whatever the order.
  predicate Balanced(incoming: seq<Move>, outgoing: seq<Move>, ram: nat, disk: nat, limit: nat) {
    ram + Ram(incoming) + Ram(outgoing) >= 0 && disk + Disk(incoming) + Disk(outgoing) <= limit
  }

  lemma {:induction false} OneWayFits(done: seq<Move>, more: seq<Move>, reading: bool, ram: nat, disk: nat, limit: nat)
    requires Feasible(done, ram, disk, limit) && AllOneWay(reading, more)
    requires if reading then ram + Ram(done) + Ram(more) >= 0 else disk + Disk(done) + Disk(more) <= limit
    ensures Feasible(done + more, ram, disk, limit)
    decreases |more|
  {
    if more == [] {
      assert done + more == done;
    } else {
      var k := |more| - 1;
      assert more == more[..k] + [more[k]] && (done + more)[..|done + more| - 1] == done + more[..k];
      NetOfSum(more[..k], [more[k]]);
      NetOfOne(more[k]);
      NetOfSum(done, more[..k]);
      AfterIsNet(done + more[..k], ram, disk);
      hide RamAfter, DiskAfter;
      OneWayFits(done, more[..k], reading, ram, disk, limit);
    }
  }

  /** Where everything of one kind can go first, an order exists exactly if the moves balance. */
  lemma OrderFitsIffBalanced(incoming: seq<Move>, outgoing: seq<Move>, ram: nat, disk: nat, limit: nat)
    requires AllOneWay(true, incoming) && AllOneWay(false, outgoing) && disk <= limit &&
             !RouteOf(incoming, outgoing, ram, disk, limit).Exchange?
    ensures SomeOrderFits(incoming + outgoing, ram, disk, limit) <==> Balanced(incoming, outgoing, ram, disk, limit)
  {
    NetOfSum(incoming, outgoing);
    NetOfNone();
    assert Feasible([], ram, disk, limit);
    if Balanced(incoming, outgoing, ram, disk, limit) {
      var first := if disk + Disk(outgoing) <= limit then outgoing else incoming;
      var second := if disk + Disk(outgoing) <= limit then incoming else outgoing;
      var reading := disk + Disk(outgoing) > limit;
      OneWayFits([], first, reading, ram, disk, limit);
      assert [] + first == first;
      OneWayFits(first, second, !reading, ram, disk, limit);
      assert multiset(first + second) == multiset(incoming + outgoing);
    }
    if SomeOrderFits(incoming + outgoing, ram, disk, limit) {
      var order :| multiset(order) == multiset(incoming + outgoing) && Feasible(order, ram, disk, limit);
      OrdersBalance(order, incoming + outgoing, ram, disk, limit);
    }
  }

  // On those routes the first turn takes everything if the moves balance.
  lemma TurnTakesAll(incoming: seq<Move>, outgoing: seq<Move>, ram: nat, disk: nat, limit: nat)
    requires AllOneWay(true, incoming) && AllOneWay(false, outgoing) && Balanced(incoming, outgoing, ram, disk, limit)
    requires !RouteOf(incoming, outgoing, ram, disk, limit).Exchange?
    ensures var t := TurnOf(RouteOf(incoming, outgoing, ram, disk, limit), incoming, outgoing, ram, disk, limit);
            t.1 == t.2 == []
  {
    hide ScanOf, AllOneWay, Ram, Disk;
    if RouteOf(incoming, outgoing, ram, disk, limit).DiskFirst? {
      ScanTakesAll(false, outgoing, ram, disk, limit);
      ScanTakesAll(true, incoming, ram + Ram(outgoing), disk + Disk(outgoing), limit);
    } else {
      ScanTakesAll(true, incoming, ram, disk, limit);
      ScanTakesAll(false, outgoing, ram + Ram(incoming), disk + Disk(incoming), limit);
    }
  }

  /** On those routes the planner is complete: it finds an order if and only if there is one. */
  lemma ScheduleIsComplete(incoming: seq<Move>, outgoing: seq<Move>, ram: nat, disk: nat, limit: nat)
    requires AllOneWay(true, incoming) && AllOneWay(false, outgoing) && disk <= limit &&
             !RouteOf(incoming, outgoing, ram, disk, limit).Exchange?
    ensures Schedule(RouteOf(incoming, outgoing, ram, disk, limit), incoming, outgoing, ram, disk, limit).0 <==>
            SomeOrderFits(incoming + outgoing, ram, disk, limit)
  {
    hide TurnOf, Balanced, AllOneWay, Feasible;
    var route := RouteOf(incoming, outgoing, ram, disk, limit);
    hide RouteOf;
    OrderFitsIffBalanced(incoming, outgoing, ram, disk, limit);
    var rest := ScheduleFacts(route, incoming, outgoing, ram, disk, limit);
    var s := Schedule(route, incoming, outgoing, ram, disk, limit);
    if s.0 {
      assert multiset(s.1) == multiset(incoming + outgoing);
    }
    if Balanced(incoming, outgoing, ram, disk, limit) {
      TurnTakesAll(incoming, outgoing, ram, disk, limit);
      assert Schedule(route, [], [], ram, disk, limit).0;
    }
  }

  /** The order of a plan. If disk has room for all writes they go first, in the order given, and then the reads; if it
      has not, but RAM has room for all reads, it is the other way round; and otherwise the plan begins with a pass
      over the writes and one over the reads. */
  ghost predicate InRouteOrder(incoming: seq<Move>, outgoing: seq<Move>, ram: nat, disk: nat, limit: nat,
                               moves: seq<Move>)
  {
    if disk + Disk(outgoing) <= limit then moves == outgoing + incoming
    else if ram + Ram(incoming) >= 0 then moves == incoming + outgoing
    else
      var writes := ScanOf(outgoing, ram, disk, limit);
      writes.taken + ScanOf(incoming, writes.ram, writes.disk, limit).taken <= moves
  }

  lemma PlansAreInRouteOrder(incoming: seq<Move>, outgoing: seq<Move>, ram: nat, disk: nat, limit: nat)
    requires AllOneWay(true, incoming) && AllOneWay(false, outgoing) && disk <= limit
    ensures var s := Schedule(RouteOf(incoming, outgoing, ram, disk, limit), incoming, outgoing, ram, disk, limit);
            s.0 ==> InRouteOrder(incoming, outgoing, ram, disk, limit, s.1)
  {
    hide AllOneWay, Feasible, ScanOf, Ram, Disk;
    var route := RouteOf(incoming, outgoing, ram, disk, limit);
    var s := Schedule(route, incoming, outgoing, ram, disk, limit);
    if !s.0 { return; }
    var rest := ScheduleFacts(route, incoming, outgoing, ram, disk, limit);
    assert multiset(s.1) == multiset(incoming + outgoing);
    OrdersBalance(s.1, incoming + outgoing, ram, disk, limit);
    NetOfSum(incoming, outgoing);
    if disk + Disk(outgoing) <= limit {
      ScanTakesAll(false, outgoing, ram, disk, limit);
      ScanTakesAll(true, incoming, ram + Ram(outgoing), disk + Disk(outgoing), limit);
      TurnIsAll(route, incoming, outgoing, outgoing + incoming, ram, disk, limit);
    } else if ram + Ram(incoming) >= 0 {
      ScanTakesAll(true, incoming, ram, disk, limit);
      ScanTakesAll(false, outgoing, ram + Ram(incoming), disk + Disk(incoming), limit);
      TurnIsAll(route, incoming, outgoing, incoming + outgoing, ram, disk, limit);
    }
  }

  lemma TurnIsAll(route: Route, incoming: seq<Move>, outgoing: seq<Move>, all: seq<Move>, ram: int, disk: int,
                  limit: int)
    requires var t := TurnOf(route, incoming, outgoing, ram, disk, limit); t.0.taken == all && t.1 == t.2 == []
    requires |all| == |incoming| + |outgoing|
    ensures Schedule(route, incoming, outgoing, ram, disk, limit) == (true, all)
  {
    hide TurnOf;
    var t := TurnOf(route, incoming, outgoing, ram, disk, limit);
    assert Schedule(route, [], [], t.0.ram, t.0.disk, limit) == (true, []) && all + [] == all;
  }

  /* ---------- Moves of one size ---------- */

  predicate Alike(moves: seq<Move>) {
    forall i, j ::
      0 <= i < |moves| && 0 <= j < |moves| ==> moves[i].ram == moves[j].ram && moves[i].disk == moves[j].disk
  }

  lemma AlikeIff(moves: seq<Move>)
    ensures Alike(moves) <==> forall m, m' :: m in moves && m' in moves ==> m.ram == m'.ram && m.disk == m'.disk
  {
    if forall m, m' :: m in moves && m' in moves ==> m.ram == m'.ram && m.disk == m'.disk {
      assert forall i :: 0 <= i < |moves| ==> moves[i] in moves;
    }
  }

  // What every read and every write takes or gives back.
  datatype Sizes = Sizes(readRam: nat, readDisk: nat, writeRam: nat, writeDisk: nat)

  predicate Sized(z: Sizes, m: Move) {
    if m.restore then m.ram == z.readRam && m.disk == z.readDisk else m.ram == z.writeRam && m.disk == z.writeDisk
  }

  predicate AllSized(z: Sizes, moves: seq<Move>) { forall i :: 0 <= i < |moves| ==> Sized(z, moves[i]) }

  function Count(moves: seq<Move>, reading: bool): nat {
    if moves == [] then 0
    else Count(moves[..|moves| - 1], reading) + if moves[|moves| - 1].restore == reading then 1 else 0
  }

  lemma {:induction false} CountOfSum(a: seq<Move>, b: seq<Move>, reading: bool)
    ensures Count(a + b, reading) == Count(a, reading) + Count(b, reading)
  {
    if b == [] {
      assert a + b == a;
    } else {
      var k := |b| - 1;
      CountOfSum(a, b[..k], reading);
      assert (a + b)[..|a + b| - 1] == a + b[..k];
    }
  }

  lemma CountWithout(a: seq<Move>, k: nat, reading: bool)
    requires k < |a|
    ensures Count(a, reading) == Count(a[..k] + a[k + 1..], reading) + Count([a[k]], reading)
  {
    assert a == a[..k] + ([a[k]] + a[k + 1..]);
    CountOfSum(a[..k], [a[k]] + a[k + 1..], reading);
    CountOfSum([a[k]], a[k + 1..], reading);
    CountOfSum(a[..k], a[k + 1..], reading);
  }

  lemma {:induction false} CountOfAnyOrder(a: seq<Move>, b: seq<Move>, reading: bool)
    requires multiset(a) == multiset(b)
    ensures Count(a, reading) == Count(b, reading)
    decreases |a|
  {
    hide Count;
    if a == [] {
      assert |multiset(b)| == 0;
    } else {
      assert a[0] in multiset(b);
      var k :| 0 <= k < |b| && b[k] == a[0];
      var c := b[..k] + b[k + 1..];
      RestOfAnyOrder(a, b, k);
      CountWithout(a, 0, reading);
      CountWithout(b, k, reading);
      assert a[..0] + a[1..] == a[1..];
      CountOfAnyOrder(a[1..], c, reading);
    }
  }

  lemma RestOfAnyOrder(a: seq<Move>, b: seq<Move>, k: nat)
    requires multiset(a) == multiset(b) && a != [] && k < |b| && b[k] == a[0]
    ensures multiset(a[1..]) == multiset(b[..k] + b[k + 1..])
  {
    WithoutOne(a, 0);
    WithoutOne(b, k);
    assert a[..0] + a[1..] == a[1..];
    TakeAway(multiset(a[1..]), multiset(b[..k] + b[k + 1..]), a[0]);
  }

  lemma WithoutOne(moves: seq<Move>, k: nat)
    requires k < |moves|
    ensures multiset(moves) == multiset(moves[..k] + moves[k + 1..]) + multiset{moves[k]}
  {
    assert moves == moves[..k] + [moves[k]] + moves[k + 1..];
  }

  lemma TakeAway(a: multiset<Move>, b: multiset<Move>, m: Move)
    requires a + multiset{m} == b + multiset{m}
    ensures a == b
  {
    assert a == a + multiset{m} - multiset{m};
  }

  // What has been done is then known by how many reads and writes there were.
  lemma {:induction false} AfterByCount(z: Sizes, moves: seq<Move>, ram: int, disk: int)
    requires AllSized(z, moves)
    ensures RamAfter(ram, moves) == ram - Count(moves, true) * z.readRam + Count(moves, false) * z.writeRam
    ensures DiskAfter(disk, moves) == disk - Count(moves, true) * z.readDisk + Count(moves, false) * z.writeDisk
  {
    if moves != [] {
      var k := |moves| - 1;
      AfterByCount(z, moves[..k], ram, disk);
      var x, y := Count(moves[..k], true), Count(moves[..k], false);
      OneTimes(x, z.readRam);
      OneTimes(x, z.readDisk);
      OneTimes(y, z.writeRam);
      OneTimes(y, z.writeDisk);
    }
  }

  lemma OneTimes(x: int, n: int)
    ensures (x + 1) * n == x * n + n
  {
  }

  lemma FewerTimes(x: nat, y: nat, n: nat)
    requires x <= y
    ensures x * n <= y * n
  {
  }

  /** A move that fits after some moves also fits after as many of its own kind and at least as many of the other. */
  lemma FitsAfterMore(z: Sizes, a: seq<Move>, b: seq<Move>, m: Move, ram: int, disk: int, limit: int)
    requires AllSized(z, a) && AllSized(z, b) && Fits(m, RamAfter(ram, a), DiskAfter(disk, a), limit)
    requires Count(a, m.restore) == Count(b, m.restore) && Count(a, !m.restore) <= Count(b, !m.restore)
    ensures Fits(m, RamAfter(ram, b), DiskAfter(disk, b), limit)
  {
    AfterByCount(z, a, ram, disk);
    AfterByCount(z, b, ram, disk);
    FewerTimes(Count(a, !m.restore), Count(b, !m.restore), z.writeRam);
    FewerTimes(Count(a, !m.restore), Count(b, !m.restore), z.readDisk);
  }

  lemma SomeOf(moves: seq<Move>, reading: bool) returns (m: Move)
    requires Count(moves, reading) > 0
    ensures m in moves && m.restore == reading
  {
    var k := |moves| - 1;
    if moves[k].restore == reading { m := moves[k]; } else { m := SomeOf(moves[..k], reading); }
  }

  // An order that fits never does more of either kind than a schedule that is blocked ...
  lemma {:induction false} OrderStaysBelow(z: Sizes, order: seq<Move>, t: nat, done: seq<Move>, rest: seq<Move>,
                                           ram: int, disk: int, limit: int)
    requires AllSized(z, order) && AllSized(z, done) && AllSized(z, rest) && t <= |order| &&
             Feasible(order, ram, disk, limit)
    requires multiset(done) + multiset(rest) == multiset(order)
    requires forall m :: m in rest ==> !Fits(m, RamAfter(ram, done), DiskAfter(disk, done), limit)
    ensures Count(order[..t], true) <= Count(done, true) && Count(order[..t], false) <= Count(done, false)
  {
    hide Fits, Sized, RamAfter, DiskAfter;
    if t > 0 {
      OrderStaysBelow(z, order, t - 1, done, rest, ram, disk, limit);
      var before, m := order[..t - 1], order[t - 1];
      assert order[..t] == before + [m] && order[..t][..t - 1] == before;
      if Count(before, m.restore) == Count(done, m.restore) {
        FitsInTurn(order, t - 1, ram, disk, limit);
        FitsAfterMore(z, before, done, m, ram, disk, limit);
        LeftOver(order, t, done, rest, m.restore);
        var other := SomeOf(rest, m.restore);
        SameSize(z, m, other, RamAfter(ram, done), DiskAfter(disk, done), limit);
      }
    }
  }

  lemma SameSize(z: Sizes, m: Move, other: Move, ram: int, disk: int, limit: int)
    requires Sized(z, m) && Sized(z, other) && m.restore == other.restore
    ensures Fits(m, ram, disk, limit) <==> Fits(other, ram, disk, limit)
  {
  }

  lemma LeftOver(order: seq<Move>, t: nat, done: seq<Move>, rest: seq<Move>, reading: bool)
    requires t <= |order| && multiset(done) + multiset(rest) == multiset(order) &&
             Count(order[..t], reading) > Count(done, reading)
    ensures Count(rest, reading) > 0
  {
    assert order == order[..t] + order[t..] && multiset(done + rest) == multiset(order);
    CountOfSum(order[..t], order[t..], reading);
    CountOfAnyOrder(done + rest, order, reading);
    CountOfSum(done, rest, reading);
  }

  lemma {:induction false} FitsInTurn(order: seq<Move>, j: nat, ram: int, disk: int, limit: int)
    requires Feasible(order, ram, disk, limit) && j < |order|
    ensures Fits(order[j], RamAfter(ram, order[..j]), DiskAfter(disk, order[..j]), limit)
    decreases |order|
  {
    var k := |order| - 1;
    if j < k {
      FitsInTurn(order[..k], j, ram, disk, limit);
      assert order[..k][..j] == order[..j];
    }
  }

  lemma SizesOf(incoming: seq<Move>, outgoing: seq<Move>) returns (z: Sizes)
    requires AllOneWay(true, incoming) && AllOneWay(false, outgoing) && Alike(incoming) && Alike(outgoing)
    ensures AllSized(z, incoming + outgoing)
  {
    z := Sizes(if incoming == [] then 0 else incoming[0].ram, if incoming == [] then 0 else incoming[0].disk,
               if outgoing == [] then 0 else outgoing[0].ram, if outgoing == [] then 0 else outgoing[0].disk);
    var all := incoming + outgoing;
    forall i | 0 <= i < |all| ensures Sized(z, all[i]) {
      if i < |incoming| { assert all[i] == incoming[i]; } else { assert all[i] == outgoing[i - |incoming|]; }
    }
  }

  lemma PartIsSized(z: Sizes, part: seq<Move>, all: seq<Move>)
    requires AllSized(z, all) && multiset(part) <= multiset(all)
    ensures AllSized(z, part)
  {
    forall i | 0 <= i < |part| ensures Sized(z, part[i]) {
      assert part[i] in multiset(part);
      assert part[i] in all;
    }
  }

  /** Where all reads are of one size and all writes are, the planner is complete on every route. */
  lemma ScheduleIsCompleteIfAlike(route: Route, incoming: seq<Move>, outgoing: seq<Move>, ram: nat, disk: nat,
                                  limit: nat)
    requires AllOneWay(true, incoming) && AllOneWay(false, outgoing)
    requires forall m, m' :: m in incoming && m' in incoming ==> m.ram == m'.ram && m.disk == m'.disk
    requires forall m, m' :: m in outgoing && m' in outgoing ==> m.ram == m'.ram && m.disk == m'.disk
    ensures Schedule(route, incoming, outgoing, ram, disk, limit).0 <==>
              SomeOrderFits(incoming + outgoing, ram, disk, limit)
  {
    AlikeIff(incoming);
    AlikeIff(outgoing);
    var z := SizesOf(incoming, outgoing);
    hide AllOneWay, Alike, Fits, Sized, Schedule, Feasible, RamAfter, DiskAfter;
    var s, all := Schedule(route, incoming, outgoing, ram, disk, limit), incoming + outgoing;
    var rest := ScheduleFacts(route, incoming, outgoing, ram, disk, limit);
    assert multiset(s.1) + multiset(rest) == multiset(all);
    if s.0 {
      assert multiset(s.1) == multiset(all);
    } else if SomeOrderFits(all, ram, disk, limit) {
      var order :| multiset(order) == multiset(all) && Feasible(order, ram, disk, limit);
      PartIsSized(z, order, all);
      PartIsSized(z, s.1, all);
      PartIsSized(z, rest, all);
      OrderStaysBelow(z, order, |order|, s.1, rest, ram, disk, limit);
      NoMoreLeft(order, s.1, rest);
    }
  }

  lemma NoMoreLeft(order: seq<Move>, done: seq<Move>, rest: seq<Move>)
    requires multiset(done) + multiset(rest) == multiset(order)
    requires Count(order[..|order|], true) <= Count(done, true) && Count(order[..|order|], false) <= Count(done, false)
    ensures rest == []
  {
    assert order[..|order|] == order && multiset(done + rest) == multiset(order);
    CountOfAnyOrder(done + rest, order, true);
    CountOfAnyOrder(done + rest, order, false);
    CountOfSum(done, rest, true);
    CountOfSum(done, rest, false);
  }

  // Nothing of what is left fits after what has been done.
  predicate Blocked(incoming: seq<Move>, outgoing: seq<Move>, done: seq<Move>, rest: seq<Move>, ram: nat, disk: nat,
                    limit: nat) {
    && multiset(done) + multiset(rest) == multiset(incoming) + multiset(outgoing) && rest != [] &&
       Feasible(done, ram, disk, limit)
    && forall m :: m in rest ==> !Fits(m, RamAfter(ram, done), DiskAfter(disk, done), limit)
  }

  lemma NoMoves(ram: int, disk: int, limit: int)
    ensures Feasible([], ram, disk, limit) && RamAfter(ram, []) == ram && DiskAfter(disk, []) == disk
  {
  }

  lemma Append(moves: seq<Move>, m: Move, ram: int, disk: int, limit: int)
    ensures Feasible(moves + [m], ram, disk, limit) <==>
              Feasible(moves, ram, disk, limit) && Fits(m, RamAfter(ram, moves), DiskAfter(disk, moves), limit)
    ensures RamAfter(ram, moves + [m]) == RamAfter(ram, moves) + m.Ram() &&
            DiskAfter(disk, moves + [m]) == DiskAfter(disk, moves) + m.Disk()
  {
    assert (moves + [m])[..|moves + [m]| - 1] == moves;
  }
}
