/**
 Moving session payloads between RAM and disk, tools/kvmem-session-transfer.h: spilling and
 restoring a chunk with a fault at any point, and executing a whole plan.

 Payload objects are held by id in one map, so two payloads never share an id.
 */
module SessionTransfer {
  import opened SessionFiles
  import Plan = TransferPlan

  datatype Buffer = Held(value: int) | Released

  /** sizes are the buffers' snapshot sizes; ram is what they take in RAM while they are held. */
  datatype Chunk = Chunk(buffers: seq<Buffer>, sizes: seq<nat>, ram: nat, inRam: bool) {
    function RestoreBytes(): nat { Sum(sizes) }

    function PayloadBytes(): nat { 32 + 8 * |sizes| + Sum(sizes) }

    function DiskBytes(): nat { PayloadBytes() + 8 }

    function RamBytes(): nat { if inRam then ram else 0 }
  }

  datatype Session = Session(invalid: bool, chunks: seq<Chunk>) {
    predicate Complete() { !invalid && forall i :: 0 <= i < |chunks| ==> chunks[i].inRam }
  }

  function Sum(s: seq<nat>): nat { if s == [] then 0 else Sum(s[..|s| - 1]) + s[|s| - 1] }

  // The single writes of a chunk file before its checksum: magic, session, generation, chunk and buffer count, and then
  // each buffer with its length before it.
  function Writes(sizes: seq<nat>): seq<nat> {
    if sizes == [] then [8, 4, 8, 4, 8] else Writes(sizes[..|sizes| - 1]) + [8, sizes[|sizes| - 1]]
  }

  /** What is announced to the file ledger is what is then written, as the ledger checks, and a checksum of 8 bytes
      follows. */
  lemma {:induction false} AnnouncedIsWritten(c: Chunk)
    ensures c.PayloadBytes() == Sum(Writes(c.sizes)) && c.DiskBytes() == Sum(Writes(c.sizes) + [8])
    decreases |c.sizes|
  {
    hide Sum;
    var w := Writes(c.sizes);
    if c.sizes == [] {
      SumMore([], 8);
      SumMore([8], 4);
      SumMore([8, 4], 8);
      SumMore([8, 4, 8], 4);
      SumMore([8, 4, 8, 4], 8);
      assert [] + [8] == [8] && [8] + [4] == [8, 4] && [8, 4] + [8] == [8, 4, 8];
      assert [8, 4, 8] + [4] == [8, 4, 8, 4] && [8, 4, 8, 4] + [8] == w;
    } else {
      var k := |c.sizes| - 1;
      AnnouncedIsWritten(c.(sizes := c.sizes[..k]));
      assert c.sizes == c.sizes[..k] + [c.sizes[k]];
      SumMore(c.sizes[..k], c.sizes[k]);
      SumMore(Writes(c.sizes[..k]), 8);
      SumMore(Writes(c.sizes[..k]) + [8], c.sizes[k]);
      assert w == (Writes(c.sizes[..k]) + [8]) + [c.sizes[k]];
    }
    SumMore(w, 8);
  }

  lemma SumMore(s: seq<nat>, n: nat)
    ensures Sum(s + [n]) == Sum(s) + n && Sum([]) == 0
  {
    assert (s + [n])[..|s|] == s;
  }

  function AllHeld(data: seq<int>): (b: seq<Buffer>)
    ensures |b| == |data| && forall j :: 0 <= j < |b| ==> b[j] == Held(data[j])
  {
    seq(|data|, j requires 0 <= j < |data| => Held(data[j]))
  }

  function AllReleased(n: nat): (b: seq<Buffer>)
    ensures |b| == n && forall j :: 0 <= j < n ==> b[j] == Released
  {
    seq(n, _ => Released)
  }

  type Contents = map<Key, seq<int>>

  /** The chunk is in RAM, or in a complete and ready file, with its original contents either way. A file kept beside a
      chunk that is in RAM is a true copy. */
  ghost predicate ChunkSafe(c: Chunk, k: Key, records: map<Key, Record>, disk: map<Key, File>, contents: Contents) {
    && k in contents && |c.sizes| == |contents[k]|
    && c.buffers == (if c.inRam then AllHeld(contents[k]) else AllReleased(|contents[k]|))
    && (!c.inRam ==> k in records && records[k].ready)
    && (k in records && records[k].ready ==> k in disk && disk[k] == Full(contents[k]))
  }

  ghost predicate AllSafe(sessions: map<int, Session>, records: map<Key, Record>, disk: map<Key, File>,
                          contents: Contents) {
    forall id, i ::
      id in sessions && 0 <= i < |sessions[id].chunks| ==>
        ChunkSafe(sessions[id].chunks[i], Key(id, i), records, disk, contents)
  }

  // Only chunk i of session id and its file have changed, and it is safe.
  lemma ChangeKeepsSafe(before: map<int, Session>, records: map<Key, Record>, disk: map<Key, File>, id: int, i: nat,
                        c: Chunk,
                        records': map<Key, Record>, disk': map<Key, File>, contents: Contents)
    requires AllSafe(before, records, disk, contents) && id in before && i < |before[id].chunks|
    requires var k := Key(id, i);
             records' - {k} == records - {k} && disk' - {k} == disk - {k} && ChunkSafe(c, k, records', disk', contents)
    ensures AllSafe(Updated(before, id, i, c), records', disk', contents)
  {
    var k, after := Key(id, i), Updated(before, id, i, c);
    forall x, j | x in after && 0 <= j < |after[x].chunks|
      ensures ChunkSafe(after[x].chunks[j], Key(x, j), records', disk', contents)
    {
      var y := Key(x, j);
      if y != k {
        assert ChunkSafe(before[x].chunks[j], y, records, disk, contents);
        assert y in records <==> y in records' - {k};
        assert y in disk <==> y in disk' - {k};
      }
    }
  }

  lemma UpdatedSame(sessions: map<int, Session>, id: int, i: nat)
    requires id in sessions && i < |sessions[id].chunks|
    ensures Updated(sessions, id, i, sessions[id].chunks[i]) == sessions
  {
    var s := sessions[id];
    assert s.chunks[i := s.chunks[i]] == s.chunks;
  }

  datatype SpillFault = SpillFault(removable: bool, save: Fault, free: nat)

  // failAt is the number of buffers restored before reading fails; their number means that the final checksum does.
  datatype RestoreFault = RestoreFault(open: bool, failAt: int, removable: bool)

  // What goes wrong around one move of a plan, and the RAM that is free when it starts.
  datatype MoveFault = MoveFault(spill: SpillFault, restore: RestoreFault, ram: nat)

  class SessionStore {
    const files: Files
    var sessions: map<int, Session>
    ghost const contents: Contents

    ghost predicate Safe()
      reads this, files
    {
      files.Valid() && AllSafe(sessions, files.records, files.disk, contents)
    }

    constructor (files: Files, sessions: map<int, Session>, ghost contents: Contents)
      requires files.Valid() && AllSafe(sessions, files.records, files.disk, contents)
      ensures Safe() && this.files == files && this.sessions == sessions && this.contents == contents
    {
      this.files, this.sessions, this.contents := files, sessions, contents;
    }

    predicate Has(id: int, i: nat)
      reads this
    {
      id in sessions && i < |sessions[id].chunks|
    }

    function Get(id: int, i: nat): Chunk
      requires Has(id, i)
      reads this
    {
      sessions[id].chunks[i]
    }

    /** kvmem_session_payload::spill. Whatever fails, every chunk stays safe. */
    method Spill(id: int, i: nat, fault: SpillFault) returns (ok: bool)
      requires Safe() && Has(id, i)
      modifies this, files
      ensures Safe()
      ensures ok <==>
                SpillWorks(old(sessions[id]), old(Get(id, i)), Key(id, i), old(files.records), old(files.bytes),
                           files.limit, fault)
      ensures sessions == if ok then Updated(old(sessions), id, i, SpilledOf(old(Get(id, i)))) else old(sessions)
      ensures files.records - {Key(id, i)} == old(files.records) - {Key(id, i)} && (ok ==> files.Ready(Key(id, i)))
      ensures ok ==> files.bytes == old(files.bytes) + SpillCharge(old(Get(id, i)), Key(id, i), old(files.records))
      // A chunk that is in RAM needs a file, unless a finished one is there: an unfinished one must go, and what it was
      // charged counts as free. Then its buffers are released and its file is charged in full.
      ensures var c, k, r := old(Get(id, i)), Key(id, i), old(files.records);
              var charged, full := if k in r then r[k].bytes else 0, c.DiskBytes();
              var writes := c.inRam && !(k in r && r[k].ready);
              && (ok <==> !old(sessions[id].invalid) &&
                          (writes ==> (k in r ==> fault.removable) && fault.save.NoFault? && fault.free >= full &&
                                      full <= files.limit - (old(files.bytes) - charged)))
              && (ok ==> files.bytes == old(files.bytes) + if writes then full - charged else 0)
              && (ok ==> sessions == old(sessions)[id := old(sessions[id]).(chunks := old(sessions[id]).chunks[
                                     i := c.(buffers := AllReleased(|c.buffers|), inRam := false)])])
    {
      var s, k := sessions[id], Key(id, i);
      var c := s.chunks[i];
      assert ChunkSafe(c, k, files.records, files.disk, contents);
      hide AllSafe, Files.Valid;
      ghost var records, disk := files.records, files.disk;
      UpdatedSame(sessions, id, i);
      if s.invalid { return false; }
      if !c.inRam {
        assert SpilledOf(c) == c;
        return true;
      }
      if !files.Ready(k) {
        ok := WriteOut(id, i, fault);
        if !ok { return; }
      }
      var buffers := c.buffers;
      for j := 0 to |buffers|
        invariant |buffers| == |c.buffers| && forall m :: 0 <= m < j ==> buffers[m] == Released
      {
        buffers := buffers[j := Released];
      }
      assert buffers == AllReleased(|c.buffers|);
      ChangeKeepsSafe(sessions, records, disk, id, i, SpilledOf(c), files.records, files.disk, contents);
      sessions := sessions[id := s.(chunks := s.chunks[i := c.(buffers := buffers, inRam := false)])];
      ok := true;
    }

    // The first half of a spill: a complete file, before anything is released.
    method WriteOut(id: int, i: nat, fault: SpillFault) returns (ok: bool)
      requires Safe() && Has(id, i) && Get(id, i).inRam && !files.Ready(Key(id, i)) && !sessions[id].invalid
      modifies files
      ensures Safe()
      ensures ok <==>
                SpillWorks(sessions[id], Get(id, i), Key(id, i), old(files.records), old(files.bytes), files.limit,
                           fault)
      ensures files.records - {Key(id, i)} == old(files.records) - {Key(id, i)} &&
              files.disk - {Key(id, i)} == old(files.disk) - {Key(id, i)}
      ensures ok ==>
                files.Ready(Key(id, i)) && Key(id, i) in files.disk && Key(id, i) in contents &&
                files.disk[Key(id, i)] == Full(contents[Key(id, i)])
      ensures ok ==> files.bytes == old(files.bytes) + SpillCharge(Get(id, i), Key(id, i), old(files.records))
    {
      var k, c := Key(id, i), Get(id, i);
      assert ChunkSafe(c, k, files.records, files.disk, contents);
      hide AllSafe, Files.Valid;
      ghost var records, disk := files.records, files.disk;
      UpdatedSame(sessions, id, i);
      assert Values(c.buffers) == contents[k];
      var erased := files.Erase(k, fault.removable);
      ok := false;
      if erased {
        var saved := files.Save(k, c.PayloadBytes(), Values(c.buffers), fault.free, fault.save);
        ok := saved.Saved?;
      }
      assert files.records - {k} == records - {k} && files.disk - {k} == disk - {k};
      ChangeKeepsSafe(sessions, records, disk, id, i, c, files.records, files.disk, contents);
    }

    /** kvmem_session_payload::restore. The file goes only after every buffer is back, and a file that cannot be
        removed stays beside its chunk. */
    method Restore(id: int, i: nat, fault: RestoreFault) returns (ok: bool)
      requires Safe() && Has(id, i)
      modifies this, files
      ensures Safe() && Key(id, i) in contents
      ensures ok <==>
                !old(sessions[id].invalid) && ReadWorks(old(Get(id, i)), fault) &&
                (Key(id, i) in old(files.records) ==> fault.removable)
      ensures sessions == if !old(sessions[id].invalid) && ReadWorks(old(Get(id, i)), fault)
                          then Updated(old(sessions), id, i, RestoredOf(old(Get(id, i)), contents[Key(id, i)]))
                          else old(sessions)
      ensures files.records == if ok then old(files.records) - {Key(id, i)} else old(files.records)
      ensures files.bytes == old(files.bytes) - (if ok then old(files.ChunkBytes(Key(id, i))) else 0)
      // Reading fails if the file does not open, at a buffer, or at the final checksum; a chunk that is in RAM is not
      // read again. What came back is what was written.
      ensures var c, k := old(Get(id, i)), Key(id, i);
              var back := !old(sessions[id].invalid) &&
                          (c.inRam || (!fault.open && (fault.failAt < 0 || fault.failAt > |c.buffers|)));
              && (ok <==> back && (k in old(files.records) ==> fault.removable))
              && sessions == if back && !c.inRam then
                               old(sessions)[id := old(sessions[id]).(chunks := old(sessions[id]).chunks[
                                 i := c.(buffers := AllHeld(contents[k]), inRam := true)])]
                             else old(sessions)
    {
      var s, k := sessions[id], Key(id, i);
      var c := s.chunks[i];
      assert ChunkSafe(c, k, files.records, files.disk, contents);
      hide AllSafe, Files.Valid;
      ghost var records, disk := files.records, files.disk;
      UpdatedSame(sessions, id, i);
      if s.invalid { return false; }
      if !c.inRam {
        var buffers;
        ok, buffers := ReadBack(k, c, fault);
        if !ok { return; }
        assert c.(buffers := buffers, inRam := true) == RestoredOf(c, contents[k]);
        ChangeKeepsSafe(sessions, records, disk, id, i, RestoredOf(c, contents[k]), records, disk, contents);
        sessions := sessions[id := s.(chunks := s.chunks[i := c.(buffers := buffers, inRam := true)])];
      } else {
        assert c == RestoredOf(c, contents[k]);
      }
      UpdatedSame(sessions, id, i);
      ok := files.Erase(k, fault.removable);
      assert files.records - {k} == records - {k} && files.disk - {k} == disk - {k};
      ChangeKeepsSafe(sessions, records, disk, id, i, sessions[id].chunks[i], files.records, files.disk, contents);
    }

    // Reads every buffer; after a failure the ones already read are released again.
    method ReadBack(k: Key, c: Chunk, fault: RestoreFault) returns (ok: bool, buffers: seq<Buffer>)
      requires files.Valid() && ChunkSafe(c, k, files.records, files.disk, contents) && !c.inRam
      ensures ok <==> ReadWorks(c, fault)
      ensures buffers == if ok then AllHeld(contents[k]) else c.buffers
    {
      buffers := c.buffers;
      var loaded := files.Load(k, fault.open);
      if !loaded.Loaded? { return false, buffers; }
      var n := 0;
      while n < |buffers| && n != fault.failAt
        invariant n <= |buffers| == |c.buffers|
        invariant forall m :: 0 <= m < |buffers| ==> buffers[m] == if m < n then Held(contents[k][m]) else Released
        invariant 0 <= fault.failAt ==> n <= fault.failAt
        decreases |buffers| - n
      {
        buffers := buffers[n := Held(loaded.data[n])];
        n := n + 1;
      }
      ok := n != fault.failAt;
      if !ok {
        for j := 0 to n
          invariant |buffers| == |c.buffers|
          invariant forall m ::
                      0 <= m < |buffers| ==> buffers[m] == if j <= m < n then Held(contents[k][m]) else Released
        {
          buffers := buffers[j := Released];
        }
      }
    }

    /** A spill followed by a restore gives back the same session, and the same charge. */
    method SpillAndRestore(id: int, i: nat, free: nat) returns (ok: bool)
      requires Safe() && Has(id, i) && !sessions[id].invalid && Get(id, i).inRam && Key(id, i) !in files.records
      requires Get(id, i).DiskBytes() <= files.limit - files.bytes && free >= Get(id, i).DiskBytes()
      modifies this, files
      ensures ok && Safe() && sessions == old(sessions) && files.records == old(files.records) &&
              files.bytes == old(files.bytes)
    {
      var k := Key(id, i);
      assert ChunkSafe(Get(id, i), k, files.records, files.disk, contents);
      hide AllSafe;
      ghost var c := Get(id, i);
      assert RestoredOf(SpilledOf(c), contents[k]) == c;
      UpdatedTwice(sessions, id, i, SpilledOf(c), c);
      UpdatedSame(sessions, id, i);
      ok := Spill(id, i, SpillFault(true, NoFault, free));
      ok := Restore(id, i, RestoreFault(false, -1, true));
      assert files.records == old(files.records) - {k} == old(files.records);
    }

    /** kvmem_execute_session_transfer. Wherever it stops, every chunk is safe. From the state the plan was made for
        and without faults it does not stop, and the charge follows the plan. */
    method Execute(moves: seq<Plan.Move>, faults: nat -> MoveFault, ghost ram: nat) returns (ok: bool)
      requires Safe() && forall j :: 0 <= j < |moves| ==> Has(moves[j].session, moves[j].chunk)
      modifies this, files
      ensures Safe() && Untouched(moves, old(sessions), old(files.records), sessions, files.records)
      ensures old(OnTrack(moves, sessions, files.records, files.bytes, files.limit, ram, faults)) ==>
                ok && files.bytes == Plan.DiskAfter(old(files.bytes), moves) &&
                AllDone(moves, |moves|, sessions, files.records)
    {
      hide AllSafe, Files.Valid, OnTrack, AllDone, AllReady, DistinctChunks, Plan.DiskAfter, Plan.Feasible, Untouched;
      NothingTouched(moves, sessions, files.records);
      ghost var planned := OnTrack(moves, sessions, files.records, files.bytes, files.limit, ram, faults);
      ok := true;
      if planned { StartOnTrack(moves, sessions, files.records, files.bytes, files.limit, ram, faults); }
      for j := 0 to |moves|
        invariant Safe() && ok && forall l :: 0 <= l < |moves| ==> Has(moves[l].session, moves[l].chunk)
        invariant Untouched(moves, old(sessions), old(files.records), sessions, files.records)
        invariant planned ==>
                    ok && AllReady(moves, j, sessions, files.records) && AllDone(moves, j, sessions, files.records)
        invariant planned ==> files.bytes == Plan.DiskAfter(old(files.bytes), moves[..j])
      {
        var m := moves[j];
        ghost var s0, r0 := sessions, files.records;
        if planned { NextOnTrack(moves, j, s0, r0, old(files.bytes), files.limit, ram, faults, files.bytes); }
        ghost var c := Get(m.session, m.chunk);
        if m.restore {
          if m.ram > faults(j).ram { return false; }
          ok := Restore(m.session, m.chunk, faults(j).restore);
        } else {
          ok := Spill(m.session, m.chunk, faults(j).spill);
        }
        MoveTouchesOne(moves, j, old(sessions), old(files.records), s0, r0, sessions, files.records);
        if !ok { return; }
        UpdatedShape(s0, m.session, m.chunk, if m.restore then RestoredOf(c, contents[KeyOf(m)]) else SpilledOf(c));
        if planned {
          assert MoveDone(m, sessions, files.records);
          MoveKeepsOthers(moves, j, s0, r0, if m.restore then RestoredOf(c, contents[KeyOf(m)]) else SpilledOf(c),
                          files.records);
        }
      }
      assert moves[..|moves|] == moves;
    }
  }

  lemma UpdatedShape(s: map<int, Session>, id: int, i: nat, c: Chunk)
    requires id in s && i < |s[id].chunks|
    ensures var t := Updated(s, id, i, c);
            t.Keys == s.Keys && t[id].chunks[i] == c && forall x :: x in s ==> |t[x].chunks| == |s[x].chunks|
  {
  }

  function Updated(sessions: map<int, Session>, id: int, i: nat, c: Chunk): map<int, Session> {
    if id in sessions && i < |sessions[id].chunks| then
      sessions[id := sessions[id].(chunks := sessions[id].chunks[i := c])]
    else sessions
  }

  function Values(buffers: seq<Buffer>): (data: seq<int>)
    ensures |data| == |buffers| &&
            forall j :: 0 <= j < |data| ==> data[j] == if buffers[j].Held? then buffers[j].value else 0
  {
    seq(|buffers|, j requires 0 <= j < |buffers| => if buffers[j].Held? then buffers[j].value else 0)
  }

  function SpilledOf(c: Chunk): Chunk { c.(buffers := AllReleased(|c.buffers|), inRam := false) }

  // What a spill adds to the charge: an unready file goes first, and a ready one is not written again.
  function SpillCharge(c: Chunk, k: Key, records: map<Key, Record>): int {
    if !c.inRam || (k in records && records[k].ready) then 0
    else c.DiskBytes() - (if k in records then records[k].bytes else 0)
  }

  predicate SpillWorks(s: Session, c: Chunk, k: Key, records: map<Key, Record>, bytes: nat, limit: nat,
                       fault: SpillFault) {
    && !s.invalid
    && (c.inRam && !(k in records && records[k].ready) ==>
          && (k in records ==> fault.removable) && fault.save.NoFault? && fault.free >= c.DiskBytes()
          && c.DiskBytes() <= limit - (bytes - if k in records then records[k].bytes else 0))
  }

  predicate ReadWorks(c: Chunk, fault: RestoreFault) {
    !c.inRam ==> !fault.open && !(0 <= fault.failAt <= |c.buffers|)
  }

  function RestoredOf(c: Chunk, data: seq<int>): Chunk {
    if c.inRam then c else c.(buffers := AllHeld(data), inRam := true)
  }

  lemma UpdatedTwice(sessions: map<int, Session>, id: int, i: nat, a: Chunk, b: Chunk)
    requires id in sessions && i < |sessions[id].chunks|
    ensures Updated(Updated(sessions, id, i, a), id, i, b) == Updated(sessions, id, i, b)
  {
    var s := sessions[id];
    assert s.chunks[i := a][i := b] == s.chunks[i := b];
  }

  /* ---------- Plans and the state they are made for ---------- */

  function KeyOf(m: Plan.Move): Key { Key(m.session, m.chunk) }

  // What the planner saw of a chunk it decided to move.
  predicate MoveReady(m: Plan.Move, sessions: map<int, Session>, records: map<Key, Record>) {
    m.session in sessions && m.chunk < |sessions[m.session].chunks| && !sessions[m.session].invalid &&
    var c, k := sessions[m.session].chunks[m.chunk], KeyOf(m);
    if m.restore then
      && (!c.inRam ==> k in records && records[k].ready)
      && m.ram == (if c.inRam then 0 else c.RestoreBytes()) && m.disk == (if k in records then records[k].bytes else 0)
    else
      && c.inRam && (k in records ==> records[k].ready)
      && m.ram == c.RamBytes() && m.disk == (if k in records then 0 else c.DiskBytes())
  }

  predicate MoveDone(m: Plan.Move, sessions: map<int, Session>, records: map<Key, Record>) {
    m.session in sessions && m.chunk < |sessions[m.session].chunks| &&
    var c, k := sessions[m.session].chunks[m.chunk], KeyOf(m);
    if m.restore then c.inRam && k !in records else !c.inRam && k in records && records[k].ready
  }

  predicate DistinctChunks(moves: seq<Plan.Move>) {
    forall i, j :: 0 <= i < j < |moves| ==> KeyOf(moves[i]) != KeyOf(moves[j])
  }

  predicate AllReady(moves: seq<Plan.Move>, from: nat, sessions: map<int, Session>, records: map<Key, Record>) {
    forall j :: from <= j < |moves| ==> MoveReady(moves[j], sessions, records)
  }

  predicate AllDone(moves: seq<Plan.Move>, upto: nat, sessions: map<int, Session>, records: map<Key, Record>) {
    forall j :: 0 <= j < upto && j < |moves| ==> MoveDone(moves[j], sessions, records)
  }

  predicate Faultless(f: MoveFault, m: Plan.Move) {
    && f.spill.removable && f.spill.save.NoFault? && f.spill.free >= m.disk
    && !f.restore.open && f.restore.failAt == -1 && f.restore.removable && f.ram >= m.ram
  }

  ghost predicate OnTrack(moves: seq<Plan.Move>, sessions: map<int, Session>, records: map<Key, Record>, bytes: nat,
                          limit: nat, ram: nat,
                          faults: nat -> MoveFault)
  {
    && DistinctChunks(moves) && AllReady(moves, 0, sessions, records) && Plan.Feasible(moves, ram, bytes, limit)
    && forall j :: 0 <= j < |moves| ==> Faultless(faults(j), moves[j])
  }

  lemma StartOnTrack(moves: seq<Plan.Move>, sessions: map<int, Session>, records: map<Key, Record>, bytes: nat,
                     limit: nat, ram: nat,
                     faults: nat -> MoveFault)
    requires OnTrack(moves, sessions, records, bytes, limit, ram, faults)
    ensures AllReady(moves, 0, sessions, records) && AllDone(moves, 0, sessions, records) &&
            Plan.DiskAfter(bytes, moves[..0]) == bytes
    ensures DistinctChunks(moves) && Plan.Feasible(moves, ram, bytes, limit) &&
            forall j :: 0 <= j < |moves| ==> Faultless(faults(j), moves[j])
  {
  }

  lemma {:induction false} FeasibleAt(moves: seq<Plan.Move>, ram: int, disk: int, limit: int, j: nat)
    requires Plan.Feasible(moves, ram, disk, limit) && j < |moves|
    ensures Plan.Fits(moves[j], Plan.RamAfter(ram, moves[..j]), Plan.DiskAfter(disk, moves[..j]), limit)
    decreases |moves|
  {
    var k := |moves| - 1;
    if j < k {
      FeasibleAt(moves[..k], ram, disk, limit, j);
      assert moves[..k][..j] == moves[..j];
    }
  }

  /** The next move of a plan works, charges what the plan says, and leaves the moves after it ready. */
  lemma NextOnTrack(moves: seq<Plan.Move>, j: nat, sessions: map<int, Session>, records: map<Key, Record>, start: nat,
                    limit: nat, ram: nat,
                    faults: nat -> MoveFault, bytes: nat)
    requires DistinctChunks(moves) && Plan.Feasible(moves, ram, start, limit) && j < |moves| &&
             Faultless(faults(j), moves[j])
    requires AllReady(moves, j, sessions, records) && bytes == Plan.DiskAfter(start, moves[..j])
    ensures var m := moves[j]; var s := sessions[m.session]; var c, k := s.chunks[m.chunk], KeyOf(m);
            && m.session in sessions && m.chunk < |s.chunks| && !s.invalid
            && (m.restore ==> m.ram <= faults(j).ram && ReadWorks(c, faults(j).restore))
            && (!m.restore ==> SpillWorks(s, c, k, records, bytes, limit, faults(j).spill))
            && Plan.DiskAfter(start, moves[..j + 1]) == bytes + m.Disk()
            && m.Disk() == (if m.restore then 0 - (if k in records then records[k].bytes else 0)
                            else SpillCharge(c, k, records))
  {
    var m := moves[j];
    assert MoveReady(m, sessions, records);
    FeasibleAt(moves, ram, start, limit, j);
    assert moves[..j + 1][..j] == moves[..j];
    hide Plan.Feasible, Plan.RamAfter;
  }

  // A move concerns its own chunk and file only.
  lemma MoveKeepsOthers(moves: seq<Plan.Move>, j: nat, s: map<int, Session>, r: map<Key, Record>, c: Chunk,
                        r': map<Key, Record>)
    requires DistinctChunks(moves) && j < |moves| && AllReady(moves, j, s, r) && AllDone(moves, j, s, r)
    requires var k := KeyOf(moves[j]); r' - {k} == r - {k}
    requires MoveDone(moves[j], Updated(s, moves[j].session, moves[j].chunk, c), r')
    ensures var s' := Updated(s, moves[j].session, moves[j].chunk, c);
            AllReady(moves, j + 1, s', r') && AllDone(moves, j + 1, s', r')
  {
    hide MoveReady, MoveDone, Updated;
    var k, s' := KeyOf(moves[j]), Updated(s, moves[j].session, moves[j].chunk, c);
    forall l | 0 <= l < |moves| && l != j
      ensures MoveReady(moves[l], s', r') == MoveReady(moves[l], s, r) &&
              MoveDone(moves[l], s', r') == MoveDone(moves[l], s, r)
    {
      assert KeyOf(moves[l]) != k;
      MoveElsewhere(moves[l], s, r, moves[j].session, moves[j].chunk, c, r');
    }
  }

  lemma MoveElsewhere(m: Plan.Move, s: map<int, Session>, r: map<Key, Record>, id: int, i: nat, c: Chunk,
                      r': map<Key, Record>)
    requires KeyOf(m) != Key(id, i) && r' - {Key(id, i)} == r - {Key(id, i)}
    ensures MoveReady(m, Updated(s, id, i, c), r') == MoveReady(m, s, r) &&
            MoveDone(m, Updated(s, id, i, c), r') == MoveDone(m, s, r)
  {
    var k := KeyOf(m);
    assert k in r <==> k in r - {Key(id, i)};
    assert k in r' <==> k in r' - {Key(id, i)};
    assert k in r ==> (r - {Key(id, i)})[k] == (r' - {Key(id, i)})[k];
  }

  // Chunks that no move names, and their files, are as they were.
  ghost predicate Untouched(moves: seq<Plan.Move>, s: map<int, Session>, r: map<Key, Record>, s': map<int, Session>,
                            r': map<Key, Record>) {
    && s'.Keys == s.Keys && (forall x :: x in s ==> |s'[x].chunks| == |s[x].chunks| && s'[x].invalid == s[x].invalid)
    && forall x, i :: x in s && 0 <= i < |s[x].chunks| && Unnamed(moves, x, i) ==>
         s'[x].chunks[i] == s[x].chunks[i] && (Key(x, i) in r <==> Key(x, i) in r') &&
         (Key(x, i) in r ==> r[Key(x, i)] == r'[Key(x, i)])
  }

  predicate Unnamed(moves: seq<Plan.Move>, x: int, i: nat) {
    forall j :: 0 <= j < |moves| ==> KeyOf(moves[j]) != Key(x, i)
  }

  lemma NothingTouched(moves: seq<Plan.Move>, s: map<int, Session>, r: map<Key, Record>)
    ensures Untouched(moves, s, r, s, r)
  {
  }

  lemma MoveTouchesOne(moves: seq<Plan.Move>, j: nat, s: map<int, Session>, r: map<Key, Record>, s0: map<int, Session>,
                       r0: map<Key, Record>,
                       s1: map<int, Session>, r1: map<Key, Record>)
    requires j < |moves| && Untouched(moves, s, r, s0, r0) && r1 - {KeyOf(moves[j])} == r0 - {KeyOf(moves[j])}
    requires s1 == s0 || exists c :: s1 == Updated(s0, moves[j].session, moves[j].chunk, c)
    ensures Untouched(moves, s, r, s1, r1)
  {
    var k := KeyOf(moves[j]);
    forall x, i | x in s && 0 <= i < |s[x].chunks| && Unnamed(moves, x, i)
      ensures Key(x, i) != k && (Key(x, i) in r0 <==> Key(x, i) in r1) &&
              (Key(x, i) in r0 ==> r0[Key(x, i)] == r1[Key(x, i)])
    {
      assert Key(x, i) in r0 <==> Key(x, i) in r0 - {k};
      assert Key(x, i) in r1 <==> Key(x, i) in r1 - {k};
      assert Key(x, i) in r0 ==> (r0 - {k})[Key(x, i)] == (r1 - {k})[Key(x, i)];
    }
  }
}
