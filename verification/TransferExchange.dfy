/**
 The exchange route of the planner in tools/kvmem-session-transfer.h is greedy and can miss an order. Here is a state
 that the file ledger and the sessions really reach, in which it gives up although an order of the moves fits.

 A conversation of two spilled chunks, of 50 and 90 bytes, is to come back while another one of a single chunk of 90
 bytes is to go. The disk quota is used up and 100 bytes of RAM are free. The planner reads the smaller chunk first,
 after which nothing fits; reading the larger one first would have made room for everything.
 */
module TransferExchange {
  import opened MapSums
  import opened SessionFiles
  import opened SessionTransfer
  import opened TransferPlan
  import Run = TransferRun

  const QUOTA := 236
  const FREE := 100

  // A chunk of one buffer, on disk and in RAM.
  function Spilled(size: nat): Chunk { Chunk([Released], [size], size, false) }

  function Kept(value: int, size: nat): Chunk { Chunk([Held(value)], [size], size, true) }

  function Sessions(): map<int, Session> {
    map[0 := Session(false, [Spilled(50), Spilled(90)]), 1 := Session(false, [Kept(7, 90)])]
  }

  function Records(): map<Key, Record> { map[Key(0, 0) := Record(98, true)][Key(0, 1) := Record(138, true)] }

  function Written(): map<Key, File> { map[Key(0, 0) := Full([5])][Key(0, 1) := Full([6])] }

  function Originals(): Contents { map[Key(0, 0) := [5], Key(0, 1) := [6], Key(1, 0) := [7]] }

  function Wanted(): Run.Request { Run.Request([0], [1]) }

  function Small(): Move { Move(0, 0, true, 50, 98) }

  function Large(): Move { Move(0, 1, true, 90, 138) }

  function Outgoing(): Move { Move(1, 0, false, 90, 138) }

  // The sizes of the files are what the chunks come to.
  lemma ChunkSizes()
    ensures Spilled(50).DiskBytes() == 98 && Spilled(90).DiskBytes() == 138 && Kept(7, 90).DiskBytes() == 138
    ensures Spilled(50).RestoreBytes() == 50 && Spilled(90).RestoreBytes() == 90 && Kept(7, 90).RamBytes() == 90
  {
    OneSize(50);
    OneSize(90);
  }

  lemma OneSize(n: nat)
    ensures Sum([n]) == n
  {
    assert [n][..0] == [];
  }

  lemma StateIsSafe()
    ensures AllSafe(Sessions(), Records(), Written(), Originals())
    ensures Run.WellFormed(Wanted(), Sessions()) && Run.Accepted(Wanted(), Sessions(), Records())
  {
    assert AllReleased(1) == [Released] && AllHeld([7]) == [Held(7)];
    assert Wanted().target + Wanted().outgoing == [0, 1];
  }

  /** The moves the planner collects in that state. */
  lemma CollectedMoves()
    ensures Run.Incoming(Wanted(), Sessions(), Records()) == [Small(), Large()]
    ensures Run.AllWritesOf(Sessions(), Wanted().outgoing, Records()) == [Outgoing()]
  {
    ChunkSizes();
    var s, t := Sessions()[0], Sessions()[1];
    assert Run.ReadOf(s, 0, Records(), 0) == [Small()] && Run.ReadOf(s, 0, Records(), 1) == [Large()];
    assert Run.WriteOf(t, 1, Records(), 0) == [Outgoing()];
    assert Run.ReadsOf(s, 0, Records(), 0) == [] && Run.WritesOf(t, 1, Records(), 0) == [];
    assert Run.ReadsOf(s, 0, Records(), 1) == [Small()] && Run.ReadsOf(s, 0, Records(), 2) == [Small(), Large()];
    assert Run.WritesOf(t, 1, Records(), 1) == [Outgoing()];
    assert [1][..0] == [] && Run.AllWritesOf(Sessions(), [], Records()) == [];
  }

  lemma ScanNone(ram: int, disk: int, limit: int)
    ensures ScanOf([], ram, disk, limit) == Scan([], [], ram, disk)
  {
  }

  lemma ScanOne(pending: seq<Move>, m: Move, ram: int, disk: int, limit: int)
    ensures var s := ScanOf(pending, ram, disk, limit);
            ScanOf(pending + [m], ram, disk, limit) ==
              if Fits(m, s.ram, s.disk, limit) then Scan(s.taken + [m], s.left, s.ram + m.Ram(), s.disk + m.Disk())
              else s.(left := s.left + [m])
  {
    assert (pending + [m])[..|pending|] == pending;
  }

  // Both writes and reads are looked at once; only the smaller read fits.
  lemma FirstTurn(small: Move, large: Move, out: Move)
    requires small == Small() && large == Large() && out == Outgoing()
    ensures TurnOf(Exchange, [small, large], [out], FREE, QUOTA, QUOTA) == (Scan([small], [], 50, 138), [large], [out])
  {
    hide ScanOf;
    ScanNone(FREE, QUOTA, QUOTA);
    ScanOne([], out, FREE, QUOTA, QUOTA);
    ScanOne([], small, FREE, QUOTA, QUOTA);
    ScanOne([small], large, FREE, QUOTA, QUOTA);
    assert [] + [small] == [small] && [small] + [large] == [small, large] && [] + [out] == [out] &&
           [] + [large] == [large];
  }

  lemma SecondTurn(large: Move, out: Move)
    requires large == Large() && out == Outgoing()
    ensures TurnOf(Exchange, [large], [out], 50, 138, QUOTA) == (Scan([], [], 50, 138), [large], [out])
  {
    hide ScanOf;
    ScanNone(50, 138, QUOTA);
    ScanOne([], out, 50, 138, QUOTA);
    ScanOne([], large, 50, 138, QUOTA);
    assert [] + [out] == [out] && [] + [large] == [large];
  }

  lemma GivesUp(small: Move, large: Move, out: Move)
    requires small == Small() && large == Large() && out == Outgoing()
    ensures Schedule(Exchange, [small, large], [out], FREE, QUOTA, QUOTA) == (false, [small])
  {
    FirstTurn(small, large, out);
    SecondTurn(large, out);
    hide TurnOf, Small, Large, Outgoing;
    assert Schedule(Exchange, [large], [out], 50, 138, QUOTA) == (false, []);
    assert [small] + [] == [small];
  }

  lemma OrderFits(small: Move, large: Move, out: Move)
    requires small == Small() && large == Large() && out == Outgoing()
    ensures RouteOf([small, large], [out], FREE, QUOTA, QUOTA).Exchange? &&
            SomeOrderFits([small, large] + [out], FREE, QUOTA, QUOTA)
  {
    hide RamAfter, DiskAfter, Feasible, Ram, Disk;
    NetOfSum([small], [large]);
    NetOfOne(small);
    NetOfOne(large);
    NetOfOne(out);
    assert [small] + [large] == [small, large];
    ThreeFit(large, out, small, FREE, QUOTA, QUOTA);
    SameThree(small, large, out);
  }

  lemma SameThree(a: Move, b: Move, c: Move)
    ensures multiset([b, c, a]) == multiset([a, b] + [c])
  {
  }

  lemma ThreeFit(a: Move, b: Move, c: Move, ram: int, disk: int, limit: int)
    requires Fits(a, ram, disk, limit) && Fits(b, ram + a.Ram(), disk + a.Disk(), limit)
    requires Fits(c, ram + a.Ram() + b.Ram(), disk + a.Disk() + b.Disk(), limit)
    ensures Feasible([a, b, c], ram, disk, limit)
  {
    hide RamAfter, DiskAfter, Feasible;
    assert [a] + [b] == [a, b] && [a, b] + [c] == [a, b, c] && [] + [a] == [a];
    NoMoves(ram, disk, limit);
    Append([], a, ram, disk, limit);
    Append([a], b, ram, disk, limit);
    Append([a, b], c, ram, disk, limit);
  }

  /** Reads and writes of the sizes that real chunks have, taken from real sessions and records: the planner's schedule
      stops after one move although an order of all three fits. */
  lemma ExchangeCanMissAnOrder()
    ensures AllSafe(Sessions(), Records(), Written(), Originals())
    ensures Run.WellFormed(Wanted(), Sessions()) && Run.Accepted(Wanted(), Sessions(), Records())
    ensures var toRead := Run.Incoming(Wanted(), Sessions(), Records());
            var toWrite := Run.AllWritesOf(Sessions(), Wanted().outgoing, Records());
            var route := RouteOf(toRead, toWrite, FREE, QUOTA, QUOTA);
            && route.Exchange? && SomeOrderFits(toRead + toWrite, FREE, QUOTA, QUOTA)
            && Schedule(route, toRead, toWrite, FREE, QUOTA, QUOTA) == (false, [Small()])
  {
    StateIsSafe();
    CollectedMoves();
    OrderFits(Small(), Large(), Outgoing());
    GivesUp(Small(), Large(), Outgoing());
  }

  /** The same from an empty ledger: the two files are saved, and the transfer that follows finds no plan. */
  method ExchangeGivesUp(faults: nat -> MoveFault) returns (r: Run.Result)
    ensures r.NoPlan?
  {
    hide AllSafe, Run.Accepted, Run.WellFormed, Run.Incoming, Run.AllWritesOf, Schedule, RouteOf, SomeOrderFits, Total;
    ExchangeCanMissAnOrder();
    var files := new Files(QUOTA);
    var first := files.Save(Key(0, 0), 90, [5], QUOTA, Fault.NoFault);
    var second := files.Save(Key(0, 1), 130, [6], QUOTA, Fault.NoFault);
    assert files.records == Records() && files.disk == Written() && files.bytes == QUOTA;
    var store := new SessionStore(files, Sessions(), Originals());
    var moves;
    r, moves := Run.Transfer(store, Wanted(), FREE, faults);
  }
}
