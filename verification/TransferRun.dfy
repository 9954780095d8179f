/**
 A whole transfer: which chunks the planner of tools/kvmem-session-transfer.h decides to move,
 and what executing its plan comes to.
 */
module TransferRun {
  import opened MapSums
  import opened SessionFiles
  import opened SessionTransfer
  import Plan = TransferPlan
  import Planner = TransferPlanner

  /* ---------- What has to move ---------- */

  function ReadOf(s: Session, id: int, records: map<Key, Record>, i: nat): seq<Plan.Move>
    requires i < |s.chunks|
  {
    var c, k := s.chunks[i], Key(id, i);
    if !c.inRam || k in records then
      [Plan.Move(id, i, true, if c.inRam then 0 else c.RestoreBytes(), if k in records then records[k].bytes else 0)]
    else []
  }

  function WriteOf(s: Session, id: int, records: map<Key, Record>, i: nat): seq<Plan.Move>
    requires i < |s.chunks|
  {
    var c, k := s.chunks[i], Key(id, i);
    if c.inRam then
      [Plan.Move(id, i, false, c.RamBytes(), if k in records && records[k].ready then 0 else c.DiskBytes())]
    else []
  }

  function ReadsOf(s: Session, id: int, records: map<Key, Record>, n: nat): seq<Plan.Move>
    requires n <= |s.chunks|
  {
    if n == 0 then [] else ReadsOf(s, id, records, n - 1) + ReadOf(s, id, records, n - 1)
  }

  function WritesOf(s: Session, id: int, records: map<Key, Record>, n: nat): seq<Plan.Move>
    requires n <= |s.chunks|
  {
    if n == 0 then [] else WritesOf(s, id, records, n - 1) + WriteOf(s, id, records, n - 1)
  }

  function AllWritesOf(sessions: map<int, Session>, ids: seq<int>, records: map<Key, Record>): seq<Plan.Move> {
    if ids == [] then []
    else
      var id := ids[|ids| - 1];
      AllWritesOf(sessions, ids[..|ids| - 1], records) +
      (if id in sessions then WritesOf(sessions[id], id, records, |sessions[id].chunks|) else [])
  }

  // What the planner refuses: an invalid session, a chunk that is nowhere, an unfinished file.
  predicate Readable(s: Session, id: int, records: map<Key, Record>) {
    !s.invalid &&
    forall i :: 0 <= i < |s.chunks| && !s.chunks[i].inRam ==> Key(id, i) in records && records[Key(id, i)].ready
  }

  predicate Writable(s: Session, id: int, records: map<Key, Record>) {
    !s.invalid &&
    forall i :: 0 <= i < |s.chunks| && s.chunks[i].inRam && Key(id, i) in records ==> records[Key(id, i)].ready
  }

  method CollectReads(s: Session, id: int, records: map<Key, Record>) returns (ok: bool, moves: seq<Plan.Move>)
    ensures ok <==> Readable(s, id, records)
    ensures ok ==> moves == ReadsOf(s, id, records, |s.chunks|)
  {
    moves := [];
    if s.invalid { return false, []; }
    for i := 0 to |s.chunks|
      invariant moves == ReadsOf(s, id, records, i)
      invariant forall j :: 0 <= j < i && !s.chunks[j].inRam ==> Key(id, j) in records && records[Key(id, j)].ready
    {
      var c, k := s.chunks[i], Key(id, i);
      if !c.inRam && !(k in records && records[k].ready) { return false, []; }
      if !c.inRam || k in records {
        moves := moves + [Plan.Move(id, i, true, if c.inRam then 0 else c.RestoreBytes(),
                                    if k in records then records[k].bytes else 0)];
      }
    }
    ok := true;
  }

  method CollectWrites(s: Session, id: int, records: map<Key, Record>) returns (ok: bool, moves: seq<Plan.Move>)
    ensures ok <==> Writable(s, id, records)
    ensures ok ==> moves == WritesOf(s, id, records, |s.chunks|)
  {
    moves := [];
    if s.invalid { return false, []; }
    for i := 0 to |s.chunks|
      invariant moves == WritesOf(s, id, records, i)
      invariant forall j :: 0 <= j < i && s.chunks[j].inRam && Key(id, j) in records ==> records[Key(id, j)].ready
    {
      var c, k := s.chunks[i], Key(id, i);
      if c.inRam {
        if k in records && !records[k].ready { return false, []; }
        moves := moves + [Plan.Move(id, i, false, c.RamBytes(),
                                    if k in records && records[k].ready then 0 else c.DiskBytes())];
      }
    }
    ok := true;
  }

  method CollectAll(sessions: map<int, Session>, ids: seq<int>, records: map<Key, Record>)
    returns (ok: bool, moves: seq<Plan.Move>)
    requires forall i :: 0 <= i < |ids| ==> ids[i] in sessions
    ensures ok <==> forall i :: 0 <= i < |ids| ==> Writable(sessions[ids[i]], ids[i], records)
    ensures ok ==> moves == AllWritesOf(sessions, ids, records)
  {
    hide Writable, WritesOf;
    moves := [];
    for n := 0 to |ids|
      invariant moves == AllWritesOf(sessions, ids[..n], records)
      invariant forall i :: 0 <= i < n ==> Writable(sessions[ids[i]], ids[i], records)
    {
      assert ids[..n + 1][..n] == ids[..n];
      var more;
      ok, more := CollectWrites(sessions[ids[n]], ids[n], records);
      if !ok { return false, []; }
      moves := moves + more;
    }
    assert ids[..|ids|] == ids;
    ok := true;
  }

  predicate Distinct(ids: seq<int>) { forall i, j :: 0 <= i < j < |ids| ==> ids[i] != ids[j] }

  datatype Request = Request(target: seq<int>, outgoing: seq<int>)  // at most one target

  predicate WellFormed(q: Request, sessions: map<int, Session>) {
    && |q.target| <= 1 && Distinct(q.target + q.outgoing) &&
       forall i :: 0 <= i < |q.target + q.outgoing| ==> (q.target + q.outgoing)[i] in sessions
  }

  predicate Accepted(q: Request, sessions: map<int, Session>, records: map<Key, Record>) {
    && (forall i ::
          0 <= i < |q.target| ==> q.target[i] in sessions && Readable(sessions[q.target[i]], q.target[i], records))
    && (forall i ::
          0 <= i < |q.outgoing| ==>
            q.outgoing[i] in sessions && Writable(sessions[q.outgoing[i]], q.outgoing[i], records))
  }

  /** What is refused: an invalid session, a target chunk that is neither in RAM nor in a finished file, and an outgoing
      chunk whose unfinished file still takes disk. */
  lemma RefusedIff(q: Request, sessions: map<int, Session>, records: map<Key, Record>)
    requires WellFormed(q, sessions)
    ensures forall x :: x in q.target || x in q.outgoing ==> x in sessions
    ensures !Accepted(q, sessions, records) <==>
              || (exists x :: (x in q.target || x in q.outgoing) && sessions[x].invalid)
              || (exists x, i ::
                    && x in q.target && 0 <= i < |sessions[x].chunks| && !sessions[x].chunks[i].inRam
                    && !(Key(x, i) in records && records[Key(x, i)].ready))
              || (exists x, i ::
                    && x in q.outgoing && 0 <= i < |sessions[x].chunks| && sessions[x].chunks[i].inRam
                    && Key(x, i) in records && !records[Key(x, i)].ready)
  {
    OutgoingDistinct(q, sessions);
    forall x | x in q.target ensures x in sessions { assert q.target == [x]; }
  }

  function Incoming(q: Request, sessions: map<int, Session>, records: map<Key, Record>): seq<Plan.Move> {
    if q.target == [] || q.target[0] !in sessions then []
    else ReadsOf(sessions[q.target[0]], q.target[0], records, |sessions[q.target[0]].chunks|)
  }

  /* ---------- What the lists hold ---------- */

  // A list names chunks below n of one session, each once, with the data the executor checks.
  predicate Lists(moves: seq<Plan.Move>, reading: bool, id: int, n: nat) {
    && Plan.AllOneWay(reading, moves) && (forall j :: 0 <= j < |moves| ==> moves[j].session == id && moves[j].chunk < n)
    && DistinctChunks(moves)
  }

  lemma ReadOne(sessions: map<int, Session>, id: int, records: map<Key, Record>, i: nat)
    requires id in sessions && i < |sessions[id].chunks| && Readable(sessions[id], id, records)
    ensures var one := ReadOf(sessions[id], id, records, i);
            && Lists(one, true, id, i + 1) &&
               (forall j :: 0 <= j < |one| ==> one[j].chunk == i && MoveReady(one[j], sessions, records))
            && (!sessions[id].chunks[i].inRam || Key(id, i) in records ==> !Unnamed(one, id, i))
  {
    var one := ReadOf(sessions[id], id, records, i);
    if one != [] { assert KeyOf(one[0]) == Key(id, i); }
  }

  lemma WriteOne(sessions: map<int, Session>, id: int, records: map<Key, Record>, i: nat)
    requires id in sessions && i < |sessions[id].chunks| && Writable(sessions[id], id, records)
    ensures var one := WriteOf(sessions[id], id, records, i);
            && Lists(one, false, id, i + 1) &&
               (forall j :: 0 <= j < |one| ==> one[j].chunk == i && MoveReady(one[j], sessions, records))
            && (sessions[id].chunks[i].inRam ==> !Unnamed(one, id, i))
  {
    var one := WriteOf(sessions[id], id, records, i);
    if one != [] { assert KeyOf(one[0]) == Key(id, i); }
  }

  lemma {:induction false} ReadsShape(sessions: map<int, Session>, id: int, records: map<Key, Record>, n: nat)
    requires id in sessions && n <= |sessions[id].chunks| && Readable(sessions[id], id, records)
    ensures var moves := ReadsOf(sessions[id], id, records, n);
            Lists(moves, true, id, n) && forall j :: 0 <= j < |moves| ==> MoveReady(moves[j], sessions, records)
  {
    hide MoveReady, ReadOf, Readable;
    if n > 0 {
      ReadsShape(sessions, id, records, n - 1);
      ReadOne(sessions, id, records, n - 1);
    }
  }

  lemma {:induction false} ReadsList(sessions: map<int, Session>, id: int, records: map<Key, Record>, n: nat)
    requires id in sessions && n <= |sessions[id].chunks| && Readable(sessions[id], id, records)
    ensures var moves := ReadsOf(sessions[id], id, records, n);
            && Lists(moves, true, id, n) && (forall j :: 0 <= j < |moves| ==> MoveReady(moves[j], sessions, records))
            && forall i ::
                 0 <= i < n && (!sessions[id].chunks[i].inRam || Key(id, i) in records) ==> !Unnamed(moves, id, i)
  {
    hide MoveReady, ReadOf, Readable, Lists, Unnamed;
    ReadsShape(sessions, id, records, n);
    if n > 0 {
      ReadsList(sessions, id, records, n - 1);
      ReadOne(sessions, id, records, n - 1);
      NamedInSum(ReadsOf(sessions[id], id, records, n - 1), ReadOf(sessions[id], id, records, n - 1));
    }
  }

  lemma {:induction false} WritesShape(sessions: map<int, Session>, id: int, records: map<Key, Record>, n: nat)
    requires id in sessions && n <= |sessions[id].chunks| && Writable(sessions[id], id, records)
    ensures var moves := WritesOf(sessions[id], id, records, n);
            Lists(moves, false, id, n) && forall j :: 0 <= j < |moves| ==> MoveReady(moves[j], sessions, records)
  {
    hide MoveReady, WriteOf, Writable;
    if n > 0 {
      WritesShape(sessions, id, records, n - 1);
      WriteOne(sessions, id, records, n - 1);
    }
  }

  lemma {:induction false} WritesList(sessions: map<int, Session>, id: int, records: map<Key, Record>, n: nat)
    requires id in sessions && n <= |sessions[id].chunks| && Writable(sessions[id], id, records)
    ensures var moves := WritesOf(sessions[id], id, records, n);
            && Lists(moves, false, id, n) && (forall j :: 0 <= j < |moves| ==> MoveReady(moves[j], sessions, records))
            && forall i :: 0 <= i < n && sessions[id].chunks[i].inRam ==> !Unnamed(moves, id, i)
  {
    hide MoveReady, WriteOf, Writable, Lists;
    WritesShape(sessions, id, records, n);
    if n > 0 {
      WritesList(sessions, id, records, n - 1);
      WriteOne(sessions, id, records, n - 1);
      hide Unnamed;
      NamedInSum(WritesOf(sessions[id], id, records, n - 1), WriteOf(sessions[id], id, records, n - 1));
    }
  }

  lemma NamedInSum(a: seq<Plan.Move>, b: seq<Plan.Move>)
    ensures forall x, i :: Unnamed(a + b, x, i) <==> Unnamed(a, x, i) && Unnamed(b, x, i)
  {
    forall x: int, i: nat | Unnamed(a + b, x, i) ensures Unnamed(a, x, i) && Unnamed(b, x, i) {
      assert forall j :: 0 <= j < |a| ==> a[j] == (a + b)[j];
      assert forall j :: 0 <= j < |b| ==> b[j] == (a + b)[|a| + j];
    }
  }

  predicate Named(moves: seq<Plan.Move>, ids: seq<int>) { forall j :: 0 <= j < |moves| ==> moves[j].session in ids }

  // The writes of one more session.
  lemma JoinLists(before: seq<Plan.Move>, last: seq<Plan.Move>, ids: seq<int>, id: int, n: nat)
    requires Plan.AllOneWay(false, before) && DistinctChunks(before) && Named(before, ids) && id !in ids
    requires Lists(last, false, id, n)
    ensures Plan.AllOneWay(false, before + last) && DistinctChunks(before + last) && Named(before + last, ids + [id])
  {
    forall j | 0 <= j < |before| ensures before[j].session != id { assert before[j].session in ids; }
    assert id in ids + [id] && forall x :: x in ids ==> x in ids + [id];
  }

  lemma {:induction false} AllWritesList(sessions: map<int, Session>, ids: seq<int>, records: map<Key, Record>)
    requires Distinct(ids) &&
             forall i :: 0 <= i < |ids| ==> ids[i] in sessions && Writable(sessions[ids[i]], ids[i], records)
    ensures var moves := AllWritesOf(sessions, ids, records);
            && Plan.AllOneWay(false, moves) && DistinctChunks(moves) && Named(moves, ids)
            && (forall j :: 0 <= j < |moves| ==> MoveReady(moves[j], sessions, records))
            && forall x, i ::
                 x in ids && 0 <= i < |sessions[x].chunks| && sessions[x].chunks[i].inRam ==> !Unnamed(moves, x, i)
  {
    hide WritesOf, MoveReady, Writable, Unnamed, AllWritesOf;
    AllWritesLast(sessions, ids, records);
    if ids != [] {
      hide DistinctChunks;
      var k := |ids| - 1;
      var n := |sessions[ids[k]].chunks|;
      var before, last := AllWritesOf(sessions, ids[..k], records), WritesOf(sessions[ids[k]], ids[k], records, n);
      AllWritesList(sessions, ids[..k], records);
      WritesList(sessions, ids[k], records, n);
      JoinLists(before, last, ids[..k], ids[k], n);
      NamedInSum(before, last);
      hide Lists, Plan.AllOneWay, Named;
      assert ids == ids[..k] + [ids[k]];
    }
  }

  lemma AllWritesLast(sessions: map<int, Session>, ids: seq<int>, records: map<Key, Record>)
    ensures ids == [] ==> AllWritesOf(sessions, ids, records) == []
    ensures ids != [] ==>
              var k := |ids| - 1;
              ids[k] in sessions ==>
                AllWritesOf(sessions, ids, records) ==
                AllWritesOf(sessions, ids[..k], records) +
                WritesOf(sessions[ids[k]], ids[k], records, |sessions[ids[k]].chunks|)
  {
    hide WritesOf;
  }

  /** Everything the planner lists, in any order: each chunk once, all as the executor expects them. */
  lemma AllMoves(q: Request, sessions: map<int, Session>, records: map<Key, Record>)
    requires WellFormed(q, sessions) && Accepted(q, sessions, records)
    ensures var a, b := Incoming(q, sessions, records), AllWritesOf(sessions, q.outgoing, records);
            && Plan.AllOneWay(true, a) && Plan.AllOneWay(false, b) && DistinctChunks(a + b) &&
               AllReady(a + b, 0, sessions, records)
    ensures var all := Incoming(q, sessions, records) + AllWritesOf(sessions, q.outgoing, records);
            && (forall i ::
                  q.target != [] && 0 <= i < |sessions[q.target[0]].chunks| && Unnamed(all, q.target[0], i) ==>
                  sessions[q.target[0]].chunks[i].inRam && Key(q.target[0], i) !in records)
            && (forall x, i ::
                  x in q.outgoing && 0 <= i < |sessions[x].chunks| && Unnamed(all, x, i) ==>
                    !sessions[x].chunks[i].inRam)
  {
    var a, b := Incoming(q, sessions, records), AllWritesOf(sessions, q.outgoing, records);
    OutgoingDistinct(q, sessions);
    AllWritesList(sessions, q.outgoing, records);
    if q.target != [] { ReadsList(sessions, q.target[0], records, |sessions[q.target[0]].chunks|); }
    hide MoveReady, ReadsOf, AllWritesOf, Unnamed, Readable, Writable, Accepted;
    NamedInSum(a, b);
    assert forall i, j :: 0 <= i < |a| && 0 <= j < |b| ==> a[i].session != b[j].session;
  }

  /** Which chunks the lists name, and with what sizes. The target's chunks that are not in RAM are read, and those that
      still have a file, which takes no RAM; the chunks of the others that are in RAM are written, which takes no disk
      where a finished file is there. */
  lemma {:induction false} ReadsAre(s: Session, id: int, records: map<Key, Record>, n: nat, m: Plan.Move)
    requires n <= |s.chunks|
    ensures m in ReadsOf(s, id, records, n) <==>
              && m.session == id && m.chunk < n && m.restore
              && var c, k := s.chunks[m.chunk], Key(id, m.chunk);
                 && (!c.inRam || k in records)
                 && m.ram == (if c.inRam then 0 else Sum(c.sizes))
                 && m.disk == (if k in records then records[k].bytes else 0)
  {
    if n > 0 { ReadsAre(s, id, records, n - 1, m); }
  }

  lemma {:induction false} WritesAre(s: Session, id: int, records: map<Key, Record>, n: nat, m: Plan.Move)
    requires n <= |s.chunks|
    ensures m in WritesOf(s, id, records, n) <==>
              && m.session == id && m.chunk < n && !m.restore
              && var c, k := s.chunks[m.chunk], Key(id, m.chunk);
                 && c.inRam && m.ram == c.ram
                 && m.disk == (if k in records && records[k].ready then 0 else c.DiskBytes())
  {
    hide Chunk.DiskBytes;
    if n > 0 { WritesAre(s, id, records, n - 1, m); }
  }

  lemma OutgoingDistinct(q: Request, sessions: map<int, Session>)
    requires WellFormed(q, sessions)
    ensures Distinct(q.outgoing) && (q.target != [] ==> q.target[0] in sessions && q.target[0] !in q.outgoing)
    ensures forall i :: 0 <= i < |q.outgoing| ==> q.outgoing[i] in sessions
  {
    var all := q.target + q.outgoing;
    assert forall i :: 0 <= i < |q.outgoing| ==> q.outgoing[i] == all[|q.target| + i];
    if q.target != [] { assert all[0] == q.target[0]; }
  }

  // Reordering keeps what holds of each move.
  lemma Reordered(moves: seq<Plan.Move>, all: seq<Plan.Move>, sessions: map<int, Session>, records: map<Key, Record>)
    requires multiset(moves) == multiset(all) && DistinctChunks(all) && AllReady(all, 0, sessions, records)
    ensures DistinctChunks(moves) && AllReady(moves, 0, sessions, records)
    ensures forall x, i :: Unnamed(moves, x, i) <==> Unnamed(all, x, i)
  {
    forall m ensures m in moves <==> m in all { assert m in multiset(moves) <==> m in multiset(all); }
    forall j | 0 <= j < |moves| ensures MoveReady(moves[j], sessions, records) { assert moves[j] in all; }
    forall i, j | 0 <= i < j < |moves| ensures KeyOf(moves[i]) != KeyOf(moves[j]) {
      assert moves[i] in all && moves[j] in all;
      if KeyOf(moves[i]) == KeyOf(moves[j]) {
        CountTwo(moves, i, j);
        CountOne(all, moves[i]);
      }
    }
    forall x: int, i: nat ensures Unnamed(moves, x, i) <==> Unnamed(all, x, i) {
      if Unnamed(all, x, i) {
        forall j | 0 <= j < |moves| ensures KeyOf(moves[j]) != Key(x, i) { assert moves[j] in all; }
      }
      if Unnamed(moves, x, i) {
        forall j | 0 <= j < |all| ensures KeyOf(all[j]) != Key(x, i) { assert all[j] in moves; }
      }
    }
  }

  lemma CountTwo(moves: seq<Plan.Move>, i: nat, j: nat)
    requires i < j < |moves| && moves[i] == moves[j]
    ensures multiset(moves)[moves[i]] >= 2
  {
    assert moves == moves[..j] + moves[j..];
    assert moves[i] in moves[..j] && moves[j] in moves[j..];
    assert multiset(moves[..j])[moves[i]] >= 1 && multiset(moves[j..])[moves[i]] >= 1;
  }

  lemma {:induction false} CountOne(all: seq<Plan.Move>, m: Plan.Move)
    requires DistinctChunks(all)
    ensures multiset(all)[m] <= 1
  {
    if all != [] {
      var k := |all| - 1;
      CountOne(all[..k], m);
      assert all == all[..k] + [all[k]];
      if all[k] == m { assert m !in all[..k]; }
    }
  }

  // What the reads give back to the disk was charged.
  lemma {:induction false} ReadsWithinTotal(s: Session, id: int, records: map<Key, Record>, n: nat)
    requires n <= |s.chunks|
    ensures Total(records, Size) + Plan.Disk(ReadsOf(s, id, records, n)) >= Total(Beyond(records, id, n), Size)
  {
    hide Total, Plan.Disk, Plan.Ram;
    Plan.NetOfNone();
    if n == 0 {
      assert Beyond(records, id, 0) == records;
    } else {
      ReadsWithinTotal(s, id, records, n - 1);
      var k, rest := Key(id, n - 1), Beyond(records, id, n - 1);
      var one := ReadOf(s, id, records, n - 1);
      Plan.NetOfSum(ReadsOf(s, id, records, n - 1), one);
      if one != [] { Plan.NetOfOne(one[0]); assert one == [one[0]]; }
      assert Beyond(records, id, n) == rest - {k};
      if k in records { TotalWithout(rest, Size, k); } else { assert rest - {k} == rest; }
    }
  }

  function Beyond(records: map<Key, Record>, id: int, n: nat): map<Key, Record> {
    map k | k in records && !(k.id == id && k.chunk < n) :: records[k]
  }

  /* ---------- The transfer ---------- */

  datatype Result = Refused | NoPlan | Ran(ok: bool)

  // The target is in RAM with no file left, and everything outgoing is on disk.
  predicate Arrived(q: Request, sessions: map<int, Session>, records: map<Key, Record>) {
    && (q.target != [] && q.target[0] in sessions ==>
          sessions[q.target[0]].Complete() &&
          forall i :: 0 <= i < |sessions[q.target[0]].chunks| ==> Key(q.target[0], i) !in records)
    && (forall x, i :: x in q.outgoing && x in sessions && 0 <= i < |sessions[x].chunks| ==>
          !sessions[x].chunks[i].inRam && Key(x, i) in records && records[Key(x, i)].ready)
  }

  // Reads are the target's and writes are the others'.
  lemma MovesByKind(q: Request, sessions: map<int, Session>, records: map<Key, Record>, m: Plan.Move)
    requires WellFormed(q, sessions) && Accepted(q, sessions, records)
    requires m in Incoming(q, sessions, records) + AllWritesOf(sessions, q.outgoing, records)
    ensures if m.restore then m.session in q.target else m.session in q.outgoing
  {
    OutgoingDistinct(q, sessions);
    AllWritesList(sessions, q.outgoing, records);
    if q.target != [] { ReadsList(sessions, q.target[0], records, |sessions[q.target[0]].chunks|); }
    hide MoveReady, ReadsOf, AllWritesOf, Unnamed;
  }

  // A chunk that the plan moves ends where it should.
  lemma NamedIsDone(q: Request, moves: seq<Plan.Move>, s: map<int, Session>, r: map<Key, Record>, s': map<int, Session>,
                    r': map<Key, Record>,
                    x: int, i: nat)
    requires WellFormed(q, s) && Accepted(q, s, r) && AllDone(moves, |moves|, s', r') && !Unnamed(moves, x, i) &&
             x in s' && i < |s'[x].chunks|
    requires multiset(moves) == multiset(Incoming(q, s, r) + AllWritesOf(s, q.outgoing, r))
    ensures x in q.target ==> s'[x].chunks[i].inRam && Key(x, i) !in r'
    ensures x in q.outgoing ==> !s'[x].chunks[i].inRam && Key(x, i) in r' && r'[Key(x, i)].ready
  {
    hide Incoming, AllWritesOf, Accepted;
    OutgoingDistinct(q, s);
    var all := Incoming(q, s, r) + AllWritesOf(s, q.outgoing, r);
    var j :| 0 <= j < |moves| && KeyOf(moves[j]) == Key(x, i);
    assert moves[j] in multiset(moves);
    assert moves[j] in multiset(all);
    MovesByKind(q, s, r, moves[j]);
    assert MoveDone(moves[j], s', r');
  }

  lemma OnDiskIsReady(s: map<int, Session>, r: map<Key, Record>, disk: map<Key, File>, contents: Contents, x: int,
                      i: nat)
    requires AllSafe(s, r, disk, contents) && x in s && i < |s[x].chunks| && !s[x].chunks[i].inRam
    ensures Key(x, i) in r && r[Key(x, i)].ready
  {
    assert ChunkSafe(s[x].chunks[i], Key(x, i), r, disk, contents);
  }

  lemma TargetIsValid(q: Request, s: map<int, Session>, r: map<Key, Record>)
    requires Accepted(q, s, r) && q.target != []
    ensures q.target[0] in s && !s[q.target[0]].invalid
  {
  }

  lemma AllArrived(q: Request, moves: seq<Plan.Move>, s: map<int, Session>, r: map<Key, Record>, s': map<int, Session>,
                   r': map<Key, Record>,
                   disk': map<Key, File>, contents: Contents)
    requires WellFormed(q, s) && Accepted(q, s, r) && Untouched(moves, s, r, s', r') && AllDone(moves, |moves|, s', r')
    requires multiset(moves) == multiset(Incoming(q, s, r) + AllWritesOf(s, q.outgoing, r)) &&
             AllSafe(s', r', disk', contents)
    ensures Arrived(q, s', r')
  {
    hide Accepted, AllDone, AllSafe, Incoming, AllWritesOf, Unnamed, AllReady, DistinctChunks, Distinct;
    AllMoves(q, s, r);
    if q.target != [] { TargetIsValid(q, s, r); }
    Reordered(moves, Incoming(q, s, r) + AllWritesOf(s, q.outgoing, r), s, r);
    forall i | q.target != [] && q.target[0] in s' && 0 <= i < |s'[q.target[0]].chunks|
      ensures s'[q.target[0]].chunks[i].inRam && Key(q.target[0], i) !in r'
    {
      if !Unnamed(moves, q.target[0], i) { NamedIsDone(q, moves, s, r, s', r', q.target[0], i); }
    }
    forall x, i | x in q.outgoing && x in s' && 0 <= i < |s'[x].chunks|
      ensures !s'[x].chunks[i].inRam && Key(x, i) in r' && r'[Key(x, i)].ready
    {
      if !Unnamed(moves, x, i) {
        NamedIsDone(q, moves, s, r, s', r', x, i);
      } else {
        OnDiskIsReady(s', r', disk', contents, x, i);
      }
    }
  }

  lemma ReadsCharged(q: Request, sessions: map<int, Session>, records: map<Key, Record>)
    requires WellFormed(q, sessions)
    ensures Total(records, Size) + Plan.Disk(Incoming(q, sessions, records)) >= 0
  {
    hide ReadsOf, Total, Plan.Disk;
    Plan.NetOfNone();
    OutgoingDistinct(q, sessions);
    if q.target != [] { ReadsWithinTotal(sessions[q.target[0]], q.target[0], records, |sessions[q.target[0]].chunks|); }
  }

  /** No plan: on the first two routes, and where reads are alike and writes are, because no order of the moves fits;
      otherwise the planner got stuck. */
  ghost predicate Impossible(q: Request, sessions: map<int, Session>, records: map<Key, Record>, ram: nat, disk: nat,
                             limit: nat) {
    var a, b := Incoming(q, sessions, records), AllWritesOf(sessions, q.outgoing, records);
    if Plan.RouteOf(a, b, ram, disk, limit).Exchange? && !(Plan.Alike(a) && Plan.Alike(b)) then
      exists done, rest :: Plan.Blocked(a, b, done, rest, ram, disk, limit)
    else !Plan.SomeOrderFits(a + b, ram, disk, limit)
  }

  /** Plans a transfer from the present state and executes the plan. */
  method Transfer(store: SessionStore, q: Request, ram: nat, faults: nat -> MoveFault)
    returns (r: Result, moves: seq<Plan.Move>)
    requires store.Safe() && WellFormed(q, store.sessions)
    modifies store, store.files
    ensures store.Safe()
    ensures r.Refused? <==> !Accepted(q, old(store.sessions), old(store.files.records))
    ensures !r.Ran? ==> store.sessions == old(store.sessions) && store.files.records == old(store.files.records)
    ensures r.NoPlan? ==>
              Impossible(q, old(store.sessions), old(store.files.records), ram, old(store.files.bytes),
                         store.files.limit)
    ensures !r.Refused? ==>
              var a, b := Incoming(q, old(store.sessions), old(store.files.records)),
                  AllWritesOf(old(store.sessions), q.outgoing, old(store.files.records));
              var bytes, limit := old(store.files.bytes), store.files.limit;
              var plan := Plan.Schedule(Plan.RouteOf(a, b, ram, bytes, limit), a, b, ram, bytes, limit);
              (r.Ran? <==> plan.0) && (r.Ran? ==> moves == plan.1)
    // Writes first if disk has room for them all, else reads first if RAM has.
    ensures r.Ran? ==>
              var a, b := Incoming(q, old(store.sessions), old(store.files.records)),
                  AllWritesOf(old(store.sessions), q.outgoing, old(store.files.records));
              var room := old(store.files.bytes) + Plan.Disk(b) <= store.files.limit;
              (room ==> moves == b + a) && (!room && ram + Plan.Ram(a) >= 0 ==> moves == a + b)
    // Without faults a plan carries through, and the charge is what the plan said.
    ensures r.Ran? && (forall j :: 0 <= j < |moves| ==> Faultless(faults(j), moves[j])) ==>
              r.ok && Arrived(q, store.sessions, store.files.records) &&
              store.files.bytes == Plan.DiskAfter(old(store.files.bytes), moves)
    // So every chunk of the target is in RAM with no file left, and every outgoing chunk only in a finished file.
    ensures r.Ran? && (forall j :: 0 <= j < |moves| ==> Faultless(faults(j), moves[j])) ==>
              && (forall x, i :: x in q.target && x in store.sessions && 0 <= i < |store.sessions[x].chunks| ==>
                    store.sessions[x].chunks[i].inRam && Key(x, i) !in store.files.records)
              && (forall x, i :: x in q.outgoing && x in store.sessions && 0 <= i < |store.sessions[x].chunks| ==>
                    && !store.sessions[x].chunks[i].inRam
                    && Key(x, i) in store.files.records && store.files.records[Key(x, i)].ready)
  {
    hide Readable, Writable, ReadsOf, WritesOf, AllSafe, Plan.Feasible, Plan.DiskAfter, Plan.RouteOf,
         Plan.InRouteOrder, Plan.Ram, Plan.SomeOrderFits, Plan.Blocked, Plan.Alike, Arrived, AllDone, AllReady,
         DistinctChunks, Plan.Disk, Plan.AllOneWay, Unnamed, Named, Distinct, Total, AllWritesOf, Untouched, Faultless;
    moves := [];
    var records, bytes, ok, incoming, outgoing := store.files.records, store.files.bytes, true, [], [];
    ghost var sessions := store.sessions;
    OutgoingDistinct(q, sessions);
    ReadsCharged(q, sessions, records);
    if q.target != [] {
      ok, incoming := CollectReads(store.sessions[q.target[0]], q.target[0], records);
      if !ok { return Refused, []; }
    }
    ok, outgoing := CollectAll(store.sessions, q.outgoing, records);
    if !ok { return Refused, []; }
    AllMoves(q, sessions, records);
    var plan := Planner.Plan(incoming, outgoing, ram, bytes, store.files.limit);
    if !plan.Planned? { return NoPlan, []; }
    moves := plan.moves;
    Reordered(moves, incoming + outgoing, sessions, records);
    ReadyIsThere(moves, sessions, records);
    ok := store.Execute(moves, faults, ram);
    r := Ran(ok);
    if forall j :: 0 <= j < |moves| ==> Faultless(faults(j), moves[j]) {
      AllArrived(q, moves, sessions, records, store.sessions, store.files.records, store.files.disk, store.contents);
      ArrivedMeans(q, store.sessions, store.files.records);
    }
  }

  lemma ArrivedMeans(q: Request, sessions: map<int, Session>, records: map<Key, Record>)
    requires Arrived(q, sessions, records) && |q.target| <= 1
    ensures forall x, i :: x in q.target && x in sessions && 0 <= i < |sessions[x].chunks| ==>
              sessions[x].chunks[i].inRam && Key(x, i) !in records
    ensures forall x, i :: x in q.outgoing && x in sessions && 0 <= i < |sessions[x].chunks| ==>
              !sessions[x].chunks[i].inRam && Key(x, i) in records && records[Key(x, i)].ready
  {
  }

  lemma ReadyIsThere(moves: seq<Plan.Move>, sessions: map<int, Session>, records: map<Key, Record>)
    requires AllReady(moves, 0, sessions, records)
    ensures forall j ::
              0 <= j < |moves| ==> moves[j].session in sessions && moves[j].chunk < |sessions[moves[j].session].chunks|
  {
  }
}
