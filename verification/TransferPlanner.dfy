/**
 The planner of tools/kvmem-session-transfer.h as the source writes it: lists of pending moves
 with a flag for each that is done, free RAM and used disk kept as it goes, passes repeated until
 all is taken or nothing fits. It finds the schedule of TransferPlan.
 */
module TransferPlanner {
  import opened TransferPlan

  // The moves that are not done yet.
  function Undone(pending: seq<Move>, done: seq<bool>): seq<Move>
    requires |done| == |pending|
  {
    if pending == [] then []
    else
      var k := |pending| - 1;
      Undone(pending[..k], done[..k]) + (if done[k] then [] else [pending[k]])
  }

  // What a pass has done once it has looked at the first i moves.
  ghost predicate Scanned(pending: seq<Move>, done: seq<bool>, after: seq<bool>, i: nat, ram0: int, disk0: int,
                          limit: int,
                          before: seq<Move>, moves: seq<Move>, ram: int, disk: int)
  {
    && i <= |pending| == |done| == |after|
    && after[i..] == done[i..]
    && var s := ScanOf(Undone(pending[..i], done[..i]), ram0, disk0, limit);
       moves == before + s.taken && Undone(pending[..i], after[..i]) == s.left && ram == s.ram && disk == s.disk
  }

  lemma ScannedStart(pending: seq<Move>, done: seq<bool>, ram: int, disk: int, limit: int, moves: seq<Move>)
    requires |pending| == |done|
    ensures Scanned(pending, done, done, 0, ram, disk, limit, moves, moves, ram, disk)
  {
    assert moves + [] == moves;
  }

  lemma UndoneNext(pending: seq<Move>, done: seq<bool>, i: nat)
    requires |pending| == |done| && i < |pending|
    ensures Undone(pending[..i + 1], done[..i + 1]) ==
            Undone(pending[..i], done[..i]) + if done[i] then [] else [pending[i]]
  {
    assert pending[..i + 1][..i] == pending[..i] && done[..i + 1][..i] == done[..i];
  }

  lemma ScannedNext(pending: seq<Move>, done: seq<bool>, after: seq<bool>, i: nat, ram0: int, disk0: int, limit: int,
                    before: seq<Move>, moves: seq<Move>, ram: int, disk: int)
    requires Scanned(pending, done, after, i, ram0, disk0, limit, before, moves, ram, disk) && i < |pending|
    ensures after[i] == done[i]
    ensures if !done[i] && Fits(pending[i], ram, disk, limit)
            then Scanned(pending, done, after[i := true], i + 1, ram0, disk0, limit, before, moves + [pending[i]],
                         ram + pending[i].Ram(), disk + pending[i].Disk())
            else Scanned(pending, done, after, i + 1, ram0, disk0, limit, before, moves, ram, disk)
  {
    var m, u := pending[i], Undone(pending[..i], done[..i]);
    var s := ScanOf(u, ram0, disk0, limit);
    assert after[i..][0] == done[i..][0] && after[i + 1..] == after[i..][1..] && done[i + 1..] == done[i..][1..];
    UndoneNext(pending, done, i);
    if done[i] {
      UndoneNext(pending, after, i);
      assert u + [] == u && s.left + [] == s.left;
    } else {
      assert (u + [m])[..|u|] == u;
      if Fits(m, ram, disk, limit) {
        var next := after[i := true];
        assert next[..i] == after[..i] && next[i + 1..] == after[i + 1..];
        UndoneNext(pending, next, i);
        assert s.left + [] == s.left && before + (s.taken + [m]) == (before + s.taken) + [m];
      } else {
        UndoneNext(pending, after, i);
      }
    }
  }

  lemma ScannedAll(pending: seq<Move>, done: seq<bool>, after: seq<bool>, ram0: int, disk0: int, limit: int,
                   before: seq<Move>, moves: seq<Move>, ram: int, disk: int)
    requires Scanned(pending, done, after, |pending|, ram0, disk0, limit, before, moves, ram, disk)
    ensures |after| == |done| == |pending|
    ensures var s := ScanOf(Undone(pending, done), ram0, disk0, limit);
            moves == before + s.taken && Undone(pending, after) == s.left && ram == s.ram && disk == s.disk
  {
    assert pending[..|pending|] == pending && done[..|done|] == done && after[..|after|] == after;
  }

  class Planner {
    const limit: nat
    const ram: nat
    const disk: nat
    var ramFree: nat
    var diskUsed: nat
    var moves: seq<Move>
    var peakRam: nat
    var peakDisk: nat

    ghost predicate Valid()
      reads this
    {
      && ramFree == RamAfter(ram, moves) && diskUsed == DiskAfter(disk, moves) && diskUsed <= limit && disk <= limit
      && Feasible(moves, ram, disk, limit)
      && peakRam == PeakRam(ram, moves) && peakDisk == PeakDisk(disk, moves)
    }

    constructor (ram: nat, disk: nat, limit: nat)
      requires disk <= limit
      ensures Valid() && this.ram == ram == ramFree && this.disk == disk == diskUsed && this.limit == limit &&
              moves == []
    {
      this.ram, this.disk, this.limit := ram, disk, limit;
      ramFree, diskUsed, moves, peakRam, peakDisk := ram, disk, [], 0, disk;
    }

    // One move that fits.
    method Take(m: Move)
      requires Valid() && Fits(m, ramFree, diskUsed, limit) && (m.restore ==> m.disk <= diskUsed)
      modifies this
      ensures Valid() && moves == old(moves) + [m]
      ensures ramFree == old(ramFree) + m.Ram()
      ensures diskUsed == old(diskUsed) + m.Disk()
    {
      assert (moves + [m])[..|moves|] == moves;
      moves := moves + [m];
      if m.restore {
        ramFree, diskUsed := ramFree - m.ram, diskUsed - m.disk;
      } else {
        ramFree, diskUsed := ramFree + m.ram, diskUsed + m.disk;
      }
      if peakDisk < diskUsed { peakDisk := diskUsed; }
      if ram > ramFree && peakRam < ram - ramFree { peakRam := ram - ramFree; }
    }

    /** One pass over the pending reads, or the pending writes: each one that fits is taken. */
    method Pass(reading: bool, pending: seq<Move>, done: seq<bool>) returns (after: seq<bool>, progress: bool)
      requires Valid() && |done| == |pending| && AllOneWay(reading, pending)
      requires reading ==> diskUsed + Disk(Undone(pending, done)) >= 0
      modifies this
      ensures Valid() && |after| == |pending| && |moves| >= |old(moves)| && (progress <==> |moves| > |old(moves)|)
      ensures if reading then diskUsed + Disk(Undone(pending, after)) >= 0 else diskUsed >= old(diskUsed)
      ensures var s := ScanOf(Undone(pending, done), old(ramFree), old(diskUsed), limit);
              moves == old(moves) + s.taken && Undone(pending, after) == s.left && ramFree == s.ram &&
              diskUsed == s.disk
    {
      hide RamAfter, DiskAfter, Feasible, PeakRam, PeakDisk, Undone, Disk, Scanned, ScanOf;
      after, progress := done, false;
      ghost var ram0, disk0, before := ramFree, diskUsed, moves;
      ScannedStart(pending, done, ramFree, diskUsed, limit, moves);
      for i := 0 to |pending|
        invariant Valid() && |after| == |pending| && |moves| >= |before| && (progress <==> |moves| > |before|)
        invariant if reading then diskUsed + Disk(Undone(pending, after)) >= 0 else diskUsed >= disk0
        invariant Scanned(pending, done, after, i, ram0, disk0, limit, before, moves, ramFree, diskUsed)
      {
        ScannedNext(pending, done, after, i, ram0, disk0, limit, before, moves, ramFree, diskUsed);
        if !after[i] {
          UndoneSet(pending, after, i);
          UndoneSigns(pending, after[i := true]);
          if Fits(pending[i], ramFree, diskUsed, limit) {
            Take(pending[i]);
            after, progress := after[i := true], true;
          }
        }
      }
      ScannedAll(pending, done, after, ram0, disk0, limit, before, moves, ramFree, diskUsed);
    }

    /** One turn of the planning loop: a pass over the reads and one over the writes, in the order of the route. */
    method Turn(route: Route, incoming: seq<Move>, outgoing: seq<Move>, readDone: seq<bool>, writeDone: seq<bool>)
      returns (reads': seq<bool>, writes': seq<bool>, progress: bool)
      requires Valid() && |readDone| == |incoming| && |writeDone| == |outgoing| && AllOneWay(true, incoming) &&
               AllOneWay(false, outgoing)
      requires diskUsed + Disk(Undone(incoming, readDone)) >= 0
      modifies this
      ensures Valid() && |reads'| == |incoming| && |writes'| == |outgoing| && |moves| >= |old(moves)| &&
              (progress <==> |moves| > |old(moves)|)
      ensures diskUsed + Disk(Undone(incoming, reads')) >= 0
      ensures var t := TurnOf(route, Undone(incoming, readDone), Undone(outgoing, writeDone), old(ramFree),
                              old(diskUsed), limit);
              && moves == old(moves) + t.0.taken && ramFree == t.0.ram && diskUsed == t.0.disk
              && Undone(incoming, reads') == t.1 && Undone(outgoing, writes') == t.2
    {
      hide RamAfter, DiskAfter, Feasible, PeakRam, PeakDisk, Undone, Disk, AllOneWay, ScanOf;
      reads', writes' := readDone, writeDone;
      var first, second;
      if route.RamFirst? {
        reads', first := Pass(true, incoming, readDone);
        writes', second := Pass(false, outgoing, writeDone);
      } else {
        writes', first := Pass(false, outgoing, writeDone);
        reads', second := Pass(true, incoming, readDone);
      }
      progress := first || second;
    }
  }

  lemma {:induction false} UndoneSet(pending: seq<Move>, done: seq<bool>, i: nat)
    requires |done| == |pending| && i < |pending| && !done[i]
    ensures var a, b := Undone(pending, done), Undone(pending, done[i := true]);
            |a| == |b| + 1 && Disk(a) == Disk(b) + pending[i].Disk()
  {
    hide Disk;
    var k := |pending| - 1;
    var last := if done[k] then [] else [pending[k]];
    var rest, less := Undone(pending[..k], done[..k]), Undone(pending[..k], done[i := true][..k]);
    assert Undone(pending, done) == rest + last;
    assert Undone(pending, done[i := true]) == less + (if i == k then [] else last);
    if i == k {
      assert done[i := true][..k] == done[..k];
      NetOfSum(rest, [pending[k]]);
      NetOfOne(pending[k]);
      assert less + [] == rest;
    } else {
      UndoneSet(pending[..k], done[..k], i);
      assert done[i := true][..k] == done[..k][i := true];
      NetOfSum(rest, last);
      NetOfSum(less, last);
    }
  }

  // Reads only give back disk.
  lemma {:induction false} UndoneSigns(pending: seq<Move>, done: seq<bool>)
    requires |done| == |pending|
    ensures AllOneWay(true, pending) ==> Disk(Undone(pending, done)) <= 0
  {
    if pending != [] {
      var k := |pending| - 1;
      UndoneSigns(pending[..k], done[..k]);
      var last := if done[k] then [] else [pending[k]];
      NetOfSum(Undone(pending[..k], done[..k]), last);
      NetOfOne(pending[k]);
    }
  }

  lemma {:induction false} UndoneAll(pending: seq<Move>, done: seq<bool>)
    requires |done| == |pending| && forall i :: 0 <= i < |done| ==> !done[i]
    ensures Undone(pending, done) == pending
  {
    if pending != [] { UndoneAll(pending[..|pending| - 1], done[..|pending| - 1]); }
  }

  /* ---------- The plan ---------- */

  datatype Outcome =
    | Planned(route: Route, moves: seq<Move>, peakRam: nat, peakDisk: nat)
    | Stuck(route: Route)
    | DiskChanged

  method Plan(incoming: seq<Move>, outgoing: seq<Move>, ram: nat, disk: nat, limit: nat) returns (r: Outcome)
    requires AllOneWay(true, incoming) && AllOneWay(false, outgoing) && disk + Disk(incoming) >= 0
    ensures r.DiskChanged? <==> disk > limit
    ensures !r.DiskChanged? ==>
              r.route == RouteOf(incoming, outgoing, ram, disk, limit) ==
              if disk + Disk(outgoing) <= limit then DiskFirst else if ram + Ram(incoming) >= 0 then RamFirst
              else Exchange
    ensures !r.DiskChanged? ==>
              var s := Schedule(r.route, incoming, outgoing, ram, disk, limit);
              (r.Planned? <==> s.0) && (r.Planned? ==> r.moves == s.1)
    // Writes first if disk has room for them all, else reads first if RAM has, else a pass over each in turn.
    ensures r.Planned? && disk + Disk(outgoing) <= limit ==> r.moves == outgoing + incoming
    ensures r.Planned? && disk + Disk(outgoing) > limit && ram + Ram(incoming) >= 0 ==> r.moves == incoming + outgoing
    ensures r.Planned? ==> InRouteOrder(incoming, outgoing, ram, disk, limit, r.moves)
    // Each move once, never over, and the peaks are exact.
    ensures r.Planned? ==>
              multiset(r.moves) == multiset(incoming) + multiset(outgoing) && Feasible(r.moves, ram, disk, limit)
    ensures r.Planned? ==> r.peakRam == PeakRam(ram, r.moves) && r.peakDisk == PeakDisk(disk, r.moves)
    ensures r.Stuck? ==> exists done, rest :: rest != [] && Blocked(incoming, outgoing, done, rest, ram, disk, limit)
    // On the first two routes, and where reads are alike and writes are, it succeeds exactly if there is any order at
    // all.
    ensures !r.DiskChanged? && (!r.route.Exchange? || (Alike(incoming) && Alike(outgoing))) ==>
              (r.Planned? <==> SomeOrderFits(incoming + outgoing, ram, disk, limit))
  {
    hide RamAfter, DiskAfter, Feasible, PeakRam, PeakDisk, Undone, Disk, AllOneWay, SomeOrderFits, Schedule, TurnOf,
        Scheduled, Blocked, Alike, InRouteOrder, Ram;
    if disk > limit { return DiskChanged; }
    var route := RouteOf(incoming, outgoing, ram, disk, limit);
    PlanFacts(route, incoming, outgoing, ram, disk, limit);
    var planner := new Planner(ram, disk, limit);
    var readDone, writeDone, progress := seq(|incoming|, _ => false), seq(|outgoing|, _ => false), true;
    UndoneAll(incoming, readDone);
    UndoneAll(outgoing, writeDone);
    ScheduledStart(route, incoming, outgoing, ram, disk, limit);
    while |planner.moves| < |incoming| + |outgoing|
      invariant planner.Valid() && planner.ram == ram && planner.disk == disk && planner.limit == limit
      invariant fresh(planner) && |readDone| == |incoming| && |writeDone| == |outgoing|
      invariant |planner.moves| + |Undone(incoming, readDone)| + |Undone(outgoing, writeDone)| ==
                |incoming| + |outgoing|
      invariant planner.diskUsed + Disk(Undone(incoming, readDone)) >= 0
      invariant Scheduled(route, incoming, outgoing, ram, disk, limit, planner.moves, Undone(incoming, readDone),
                          Undone(outgoing, writeDone),
                          planner.ramFree, planner.diskUsed)
      decreases |incoming| + |outgoing| - |planner.moves|
    {
      ScheduledNext(route, incoming, outgoing, ram, disk, limit, planner.moves, Undone(incoming, readDone),
                    Undone(outgoing, writeDone),
                    planner.ramFree, planner.diskUsed);
      ghost var turn := TurnOf(route, Undone(incoming, readDone), Undone(outgoing, writeDone), planner.ramFree,
                               planner.diskUsed, limit);
      readDone, writeDone, progress := planner.Turn(route, incoming, outgoing, readDone, writeDone);
      if !progress {
        assert turn.0.taken == [];
        return Stuck(route);
      }
    }
    ScheduledEnd(route, incoming, outgoing, ram, disk, limit, planner.moves, Undone(incoming, readDone),
                 Undone(outgoing, writeDone),
                 planner.ramFree, planner.diskUsed);
    InOrderIs(incoming, outgoing, ram, disk, limit, planner.moves);
    r := Planned(route, planner.moves, planner.peakRam, planner.peakDisk);
  }

  lemma InOrderIs(incoming: seq<Move>, outgoing: seq<Move>, ram: nat, disk: nat, limit: nat, moves: seq<Move>)
    requires InRouteOrder(incoming, outgoing, ram, disk, limit, moves)
    ensures disk + Disk(outgoing) <= limit ==> moves == outgoing + incoming
    ensures disk + Disk(outgoing) > limit && ram + Ram(incoming) >= 0 ==> moves == incoming + outgoing
  {
  }

  // What TransferPlan says of the schedule the planner finds.
  lemma PlanFacts(route: Route, incoming: seq<Move>, outgoing: seq<Move>, ram: nat, disk: nat, limit: nat)
    requires AllOneWay(true, incoming) && AllOneWay(false, outgoing) && disk <= limit &&
             route == RouteOf(incoming, outgoing, ram, disk, limit)
    ensures var s := Schedule(route, incoming, outgoing, ram, disk, limit);
            && (s.0 ==> multiset(s.1) == multiset(incoming) + multiset(outgoing))
            && (!s.0 ==> exists done, rest :: rest != [] && Blocked(incoming, outgoing, done, rest, ram, disk, limit))
            && (s.0 ==> InRouteOrder(incoming, outgoing, ram, disk, limit, s.1))
            && (!route.Exchange? || (Alike(incoming) && Alike(outgoing)) ==>
                  (s.0 <==> SomeOrderFits(incoming + outgoing, ram, disk, limit)))
  {
    hide Schedule, AllOneWay, RouteOf, SomeOrderFits, Feasible, RamAfter, DiskAfter, InRouteOrder;
    PlansAreInRouteOrder(incoming, outgoing, ram, disk, limit);
    var s := Schedule(route, incoming, outgoing, ram, disk, limit);
    var rest := ScheduleFacts(route, incoming, outgoing, ram, disk, limit);
    if s.0 {
      assert multiset(s.1) + multiset(rest) == multiset(s.1);
    } else {
      assert Blocked(incoming, outgoing, s.1, rest, ram, disk, limit);
    }
    if !route.Exchange? {
      ScheduleIsComplete(incoming, outgoing, ram, disk, limit);
    } else if Alike(incoming) && Alike(outgoing) {
      AlikeIff(incoming);
      AlikeIff(outgoing);
      ScheduleIsCompleteIfAlike(route, incoming, outgoing, ram, disk, limit);
    }
  }

  // What has been taken and what is still to be scheduled make up the whole schedule.
  predicate Scheduled(route: Route, incoming: seq<Move>, outgoing: seq<Move>, ram0: int, disk0: int, limit: int,
                      moves: seq<Move>, toRead: seq<Move>, toWrite: seq<Move>, ram: int, disk: int)
  {
    var rest := Schedule(route, toRead, toWrite, ram, disk, limit);
    Schedule(route, incoming, outgoing, ram0, disk0, limit) == (rest.0, moves + rest.1)
  }

  lemma ScheduledStart(route: Route, incoming: seq<Move>, outgoing: seq<Move>, ram: int, disk: int, limit: int)
    ensures Scheduled(route, incoming, outgoing, ram, disk, limit, [], incoming, outgoing, ram, disk)
  {
    var rest := Schedule(route, incoming, outgoing, ram, disk, limit);
    assert [] + rest.1 == rest.1;
  }

  lemma ScheduledNext(route: Route, incoming: seq<Move>, outgoing: seq<Move>, ram0: int, disk0: int, limit: int,
                      moves: seq<Move>, toRead: seq<Move>, toWrite: seq<Move>, ram: int, disk: int)
    requires Scheduled(route, incoming, outgoing, ram0, disk0, limit, moves, toRead, toWrite, ram, disk) &&
             |toRead| + |toWrite| > 0
    ensures var t := TurnOf(route, toRead, toWrite, ram, disk, limit);
            if t.0.taken == [] then Schedule(route, incoming, outgoing, ram0, disk0, limit) == (false, moves)
            else Scheduled(route, incoming, outgoing, ram0, disk0, limit, moves + t.0.taken, t.1, t.2, t.0.ram,
                           t.0.disk)
  {
    hide TurnOf;
    var t := TurnOf(route, toRead, toWrite, ram, disk, limit);
    var rest := Schedule(route, t.1, t.2, t.0.ram, t.0.disk, limit);
    assert moves + (t.0.taken + rest.1) == (moves + t.0.taken) + rest.1;
    assert moves + [] == moves;
  }

  lemma ScheduledEnd(route: Route, incoming: seq<Move>, outgoing: seq<Move>, ram0: int, disk0: int, limit: int,
                     moves: seq<Move>, toRead: seq<Move>, toWrite: seq<Move>, ram: int, disk: int)
    requires Scheduled(route, incoming, outgoing, ram0, disk0, limit, moves, toRead, toWrite, ram, disk) &&
             |toRead| + |toWrite| == 0
    ensures Schedule(route, incoming, outgoing, ram0, disk0, limit) == (true, moves)
  {
    assert moves + [] == moves;
  }
}
