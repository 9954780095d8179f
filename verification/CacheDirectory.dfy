/**
 The session cache directory of tools/kvmem-session-cache-dir.h: several processes share one
 root, each with a private run directory, and clean up after those that crashed.

 A step is one system call that other processes or a crash can see on either side. The root
 lock and the owner locks belong to handles, so a crash frees them and leaves the files.
 Scanning, registering and leaving happen under the root lock; writing chunk files does not.
 Somebody else may drop files the program never writes into any run directory at any time.
 */
module CacheDirectory {
  import opened ChunkNames

  datatype Node = Plain(bytes: nat) | Odd

  // The owner file of a run directory.
  datatype Marker = Missing | Unmarked | Marked

  datatype Dir = Dir(marker: Marker, entries: map<string, Node>) {
    predicate Chunk(name: string) { name in entries && IsChunkName(name) && entries[name].Plain? }

    predicate OnlyChunks() { forall name :: name in entries ==> Chunk(name) }

    predicate NoChunks() { forall name :: name in entries ==> !Chunk(name) }
  }

  // What a process does once a directory is dealt with: look at the next ones, or end.
  datatype Then = Next(left: seq<nat>) | Gone

  datatype Phase =
    | Scanning(left: seq<nat>)
    | Claimed(dir: nat, next: Then)                                     // owner locked and marked
    | Cleaning(dir: nat, next: Then, files: seq<string>, failed: bool)  // files still to remove
    | Unmarking(dir: nat, next: Then)                                   // owner closed
    | Removing(dir: nat, next: Then)
    | Made(dir: nat)                                                    // a new directory
    | Opened(dir: nat)                                                  // its owner file exists and is locked
    | Undoing(dir: nat)                                                 // registration failed, owner closed
    | Undone(dir: nat)
    | Running(dir: nat)
  {
    predicate Uses(d: nat) { !Scanning? && dir == d }

    predicate Locks(d: nat) { (Claimed? || Cleaning? || Opened? || Running?) && dir == d }
  }

  /** root is the process that holds the root lock, or -1; locks holds the process that locked each owner file. */
  datatype State = State(dirs: map<nat, Dir>, procs: map<nat, Phase>, locks: map<nat, nat>, root: int)

  datatype Action =
    | Start(p: nat, listing: seq<nat>)
    | Skip(p: nat)                                   // not plain, locked, unmarked, or an error
    | Claim(p: nat)
    | Exit(p: nat)                                   // the destructor, once it has the root lock
    | List(p: nat, found: seq<string>)
    | RemoveFile(p: nat, ok: bool)
    | EndFiles(p: nat)
    | Abandon(p: nat)                                // an exception during cleanup
    | Unmark(p: nat, ok: bool)
    | RemoveDir(p: nat, ok: bool)
    | Make(p: nat, d: nat)
    | OpenOwner(p: nat)
    | Mark(p: nat)
    | RegisterFail(p: nat, marker: Marker)
    | UndoOwner(p: nat, ok: bool)
    | UndoDir(p: nat, ok: bool)
    | GiveUp(p: nat)
    | Write(p: nat, name: string, bytes: nat)
    | Delete(p: nat, name: string)
    | Crash(p: nat)
    | Foreign(p: nat, d: nat, name: string, node: Node)  // p plays no part

  predicate Distinct(s: seq<string>) { forall i, j :: 0 <= i < j < |s| ==> s[i] != s[j] }

  function Phases(s: State, p: nat): Phase { if p in s.procs then s.procs[p] else Scanning([]) }

  predicate Enabled(s: State, a: Action) {
    if a.Start? then a.p !in s.procs && s.root == -1
    else if a.Foreign? then a.d in s.dirs && a.name !in s.dirs[a.d].entries && !(IsChunkName(a.name) && a.node.Plain?)
    else
      a.p in s.procs &&
      var phase := s.procs[a.p];
      match a
      case Skip(p) => phase.Scanning? && phase.left != []
      case Claim(p) => phase.Scanning? && phase.left != [] && phase.left[0] in s.dirs &&
           s.dirs[phase.left[0]].marker.Marked? && phase.left[0] !in s.locks
      case Exit(p) => phase.Running? && s.root == -1
      case List(p, found) => phase.Claimed? && phase.dir in s.dirs &&
           s.dirs[phase.dir].entries.Keys == (set name | name in found) && Distinct(found)
      case RemoveFile(p, ok) => phase.Cleaning? && phase.files != [] && phase.dir in s.dirs
      case EndFiles(p) => phase.Cleaning? && phase.files == []
      case Abandon(p) => phase.Claimed? || phase.Cleaning?
      case Unmark(p, ok) => phase.Unmarking? && phase.dir in s.dirs
      case RemoveDir(p, ok) => phase.Removing? && phase.dir in s.dirs &&
           (ok ==> s.dirs[phase.dir] == Dir(Missing, map[]))
      case Make(p, d) => phase.Scanning? && phase.left == [] && d !in s.dirs
      case OpenOwner(p) => phase.Made? && phase.dir in s.dirs
      case Mark(p) => phase.Opened? && phase.dir in s.dirs
      case RegisterFail(p, marker) => (phase.Made? || phase.Opened?) && phase.dir in s.dirs
      case UndoOwner(p, ok) => phase.Undoing? && phase.dir in s.dirs
      case UndoDir(p, ok) => phase.Undone? && phase.dir in s.dirs && (ok ==> s.dirs[phase.dir] == Dir(Missing, map[]))
      case GiveUp(p) => phase.Scanning?
      case Write(p, name, bytes) => phase.Running? && phase.dir in s.dirs && IsChunkName(name)
      case Delete(p, name) => phase.Running? && phase.dir in s.dirs
      case Crash(p) => true
  }

  // p gives its locks back and is gone.
  function Ended(s: State, p: nat): State {
    s.(procs := s.procs - {p},
       locks := map d | d in s.locks && s.locks[d] != p :: s.locks[d],
       root := if s.root == p then -1 else s.root)
  }

  // p is done with directory d: its owner handle is closed.
  function Leave(s: State, p: nat, d: nat, next: Then): State {
    match next
    case Next(left) => s.(procs := s.procs[p := Scanning(left)], locks := s.locks - {d})
    case Gone => Ended(s, p)
  }

  function Put(s: State, d: nat, dir: Dir): State { s.(dirs := s.dirs[d := dir]) }

  function To(s: State, p: nat, phase: Phase): State { s.(procs := s.procs[p := phase]) }

  function After(s: State, a: Action): State
    requires Enabled(s, a)
  {
    var phase := Phases(s, a.p);
    match a
    case Start(p, listing) => s.(procs := s.procs[p := Scanning(listing)], root := p)
    case Skip(p) => To(s, p, Scanning(phase.left[1..]))
    case Claim(p) => To(s, p, Claimed(phase.left[0], Next(phase.left[1..]))).(locks := s.locks[phase.left[0] := p])
    case Exit(p) => To(s, p, Claimed(phase.dir, Gone)).(root := p)
    case List(p, found) =>
      if s.dirs[phase.dir].OnlyChunks() then To(s, p, Cleaning(phase.dir, phase.next, found, false))
      else Leave(s, p, phase.dir, phase.next)
    case RemoveFile(p, ok) =>
      var dir := s.dirs[phase.dir];
      Put(To(s, p, phase.(files := phase.files[1..], failed := phase.failed || !ok)), phase.dir,
          if ok then dir.(entries := dir.entries - {phase.files[0]}) else dir)
    case EndFiles(p) =>
      if phase.failed then Leave(s, p, phase.dir, phase.next)
      else To(s, p, Unmarking(phase.dir, phase.next)).(locks := s.locks - {phase.dir})
    case Abandon(p) => Leave(s, p, phase.dir, phase.next)
    case Unmark(p, ok) =>
      if ok then Put(To(s, p, Removing(phase.dir, phase.next)), phase.dir, s.dirs[phase.dir].(marker := Missing))
      else Leave(s, p, phase.dir, phase.next)
    case RemoveDir(p, ok) => Leave(if ok then s.(dirs := s.dirs - {phase.dir}) else s, p, phase.dir, phase.next)
    case Make(p, d) => Put(To(s, p, Made(d)), d, Dir(Missing, map[]))
    case OpenOwner(p) => Put(To(s, p, Opened(phase.dir)), phase.dir,
                             s.dirs[phase.dir].(marker := Unmarked)).(locks := s.locks[phase.dir := p])
    case Mark(p) => Put(To(s, p, Running(phase.dir)), phase.dir, s.dirs[phase.dir].(marker := Marked)).(root := -1)
    case RegisterFail(p, marker) => Put(To(s, p, Undoing(phase.dir)), phase.dir,
                                        s.dirs[phase.dir].(marker := marker)).(locks := s.locks - {phase.dir})
    case UndoOwner(p, ok) =>
      Put(To(s, p, Undone(phase.dir)), phase.dir,
          if ok then s.dirs[phase.dir].(marker := Missing) else s.dirs[phase.dir])
    case UndoDir(p, ok) => Ended(if ok then s.(dirs := s.dirs - {phase.dir}) else s, p)
    case GiveUp(p) => Ended(s, p)
    case Write(p, name, bytes) => Put(s, phase.dir,
                                      s.dirs[phase.dir].(entries := s.dirs[phase.dir].entries[name := Plain(bytes)]))
    case Delete(p, name) => Put(s, phase.dir, s.dirs[phase.dir].(entries := s.dirs[phase.dir].entries - {name}))
    case Crash(p) => Ended(s, p)
    case Foreign(_, d, name, node) => Put(s, d, s.dirs[d].(entries := s.dirs[d].entries[name := node]))
  }

  /* ---------- The invariant ---------- */

  // Everybody who is not simply running holds the root lock, so at most one process does.
  predicate Exclusive(s: State) {
    && (forall p :: p in s.procs ==> (s.procs[p].Running? <==> s.root != p))
    && (s.root == -1 || (s.root >= 0 && s.root in s.procs))
  }

  // A directory is used by one process only, and is locked exactly while its user keeps the owner file open.
  predicate OneUser(s: State) {
    && (forall p :: p in s.procs && !s.procs[p].Scanning? ==> s.procs[p].dir in s.dirs)
    && (forall p, q ::
          p in s.procs && q in s.procs && !s.procs[p].Scanning? && s.procs[q].Uses(s.procs[p].dir) ==> p == q)
    && (forall d :: d in s.locks ==> s.locks[d] in s.procs && s.procs[s.locks[d]].Locks(d))
    && (forall p ::
          p in s.procs && (s.procs[p].Claimed? || s.procs[p].Cleaning? || s.procs[p].Opened? || s.procs[p].Running?) ==>
          s.procs[p].dir in s.locks && s.locks[s.procs[p].dir] == p)
  }

  // What is left to remove is a chunk each, and unless a removal has failed no other chunk is left.
  predicate Listed(dir: Dir, files: seq<string>, failed: bool) {
    && (forall i :: 0 <= i < |files| ==> dir.Chunk(files[i]))
    && (forall i, j :: 0 <= i < j < |files| ==> files[i] != files[j])
    && (!failed ==> forall name :: name in dir.entries && dir.Chunk(name) ==> name in files)
  }

  // What is known of a directory by what its user is doing.
  predicate Stage(phase: Phase, dir: Dir) {
    match phase
    case Scanning(_) => true
    case Claimed(_, _) => dir.marker.Marked?
    case Running(_) => dir.marker.Marked?
    case Cleaning(_, _, files, failed) => dir.marker.Marked? && Listed(dir, files, failed)
    case _ => dir.NoChunks()
  }

  predicate Staged(s: State) {
    forall p :: p in s.procs && !s.procs[p].Scanning? && s.procs[p].dir in s.dirs ==>
      Stage(s.procs[p], s.dirs[s.procs[p].dir])
  }

  /** Data stays reclaimable: a directory that holds any chunk is marked. */
  predicate DataIsMarked(s: State) { forall d :: d in s.dirs && !s.dirs[d].marker.Marked? ==> s.dirs[d].NoChunks() }

  predicate Inv(s: State) { Exclusive(s) && OneUser(s) && Staged(s) && DataIsMarked(s) }

  /* ---------- Every step keeps the invariant ---------- */

  lemma EndKeeps(s: State, p: nat)
    requires Inv(s) && p in s.procs
    ensures Inv(Ended(s, p))
  {
  }

  lemma LeaveKeeps(s: State, p: nat, d: nat, next: Then)
    requires Inv(s) && s.root == p && p in s.procs && s.procs[p].Uses(d)
    ensures Inv(Leave(s, p, d, next)) &&
            forall q :: q in Leave(s, p, d, next).procs ==> !Leave(s, p, d, next).procs[q].Uses(d)
  {
    if next.Gone? { EndKeeps(s, p); }
  }

  // A process goes on with the directory it has, or takes one that nobody uses.
  predicate Moves(s: State, t: State, p: nat, d: nat) {
    && p in s.procs && p in t.procs && t.procs == s.procs[p := t.procs[p]] && t.procs[p].Uses(d)
    && d in t.dirs && t.dirs.Keys == s.dirs.Keys + {d} && (forall x :: x in s.dirs && x != d ==> t.dirs[x] == s.dirs[x])
    && (d in t.locks <==> t.procs[p].Locks(d)) && (d in t.locks ==> t.locks[d] == p)
    && (forall x :: x in s.locks && x != d ==> x in t.locks && t.locks[x] == s.locks[x])
    && (forall x :: x in t.locks && x != d ==> x in s.locks)
    && (t.procs[p].Running? <==> t.root != p) &&
       (t.root == s.root || ((t.root == p || t.root == -1) && (s.root == p || s.root == -1)))
  }

  predicate Settles(phase: Phase, dir: Dir) {
    Stage(phase, dir) && (!dir.marker.Marked? ==> dir.NoChunks())
  }

  lemma MoveKeeps(s: State, t: State, p: nat, d: nat)
    requires Inv(s) && Moves(s, t, p, d) && Settles(t.procs[p], t.dirs[d])
    requires (s.procs[p].Scanning? || s.procs[p].Uses(d)) && forall q :: q in s.procs && s.procs[q].Uses(d) ==> q == p
    ensures Inv(t)
  {
    MoveKeepsRoot(s, t, p, d);
    MoveKeepsUser(s, t, p, d);
    MoveKeepsLocks(s, t, p, d);
    MoveKeepsData(s, t, p, d);
    hide Stage, Exclusive, Staged, DataIsMarked, OneUser, Moves;
  }

  lemma MoveKeepsRoot(s: State, t: State, p: nat, d: nat)
    requires Exclusive(s) && Moves(s, t, p, d)
    ensures Exclusive(t)
  {
  }

  lemma MoveKeepsUser(s: State, t: State, p: nat, d: nat)
    requires OneUser(s) && Moves(s, t, p, d) && forall q :: q in s.procs && s.procs[q].Uses(d) ==> q == p
    requires s.procs[p].Scanning? || s.procs[p].Uses(d)
    ensures forall q :: q in t.procs && !t.procs[q].Scanning? ==> t.procs[q].dir in t.dirs
    ensures forall q, r ::
              q in t.procs && r in t.procs && !t.procs[q].Scanning? && t.procs[r].Uses(t.procs[q].dir) ==> q == r
  {
    hide Phase.Locks;
  }

  lemma MoveKeepsLocks(s: State, t: State, p: nat, d: nat)
    requires OneUser(s) && Moves(s, t, p, d) && forall q :: q in s.procs && s.procs[q].Uses(d) ==> q == p
    requires s.procs[p].Scanning? || s.procs[p].Uses(d)
    ensures forall x :: x in t.locks ==> t.locks[x] in t.procs && t.procs[t.locks[x]].Locks(x)
    ensures forall q ::
              q in t.procs &&
              (t.procs[q].Claimed? || t.procs[q].Cleaning? || t.procs[q].Opened? || t.procs[q].Running?) ==>
          t.procs[q].dir in t.locks && t.locks[t.procs[q].dir] == q
  {
    forall x | x in t.locks ensures t.locks[x] in t.procs && t.procs[t.locks[x]].Locks(x) {
      if x != d { assert x in s.locks && s.procs[s.locks[x]].Locks(x); }
    }
    forall q | q in t.procs &&
               (t.procs[q].Claimed? || t.procs[q].Cleaning? || t.procs[q].Opened? || t.procs[q].Running?)
      ensures t.procs[q].dir in t.locks && t.locks[t.procs[q].dir] == q
    {
      if q != p { assert s.locks[s.procs[q].dir] == q && !s.procs[q].Uses(d); }
    }
  }

  lemma MoveKeepsData(s: State, t: State, p: nat, d: nat)
    requires Staged(s) && DataIsMarked(s) && Moves(s, t, p, d) && Settles(t.procs[p], t.dirs[d])
    requires forall q :: q in s.procs && s.procs[q].Uses(d) ==> q == p
    ensures Staged(t) && DataIsMarked(t)
  {
    hide Stage, Dir.NoChunks, Phase.Locks;
  }

  // Nobody uses what is gone.
  lemma VanishKeeps(s: State, d: nat)
    requires Inv(s) && forall q :: q in s.procs ==> !s.procs[q].Uses(d)
    ensures Inv(s.(dirs := s.dirs - {d}))
  {
    hide Stage, Dir.NoChunks;
  }

  predicate SameChunks(before: Dir, after: Dir) {
    && (forall name :: name in before.entries && before.Chunk(name) ==> after.Chunk(name))
    && (forall name :: name in after.entries && after.Chunk(name) ==> before.Chunk(name))
  }

  lemma PutKeeps(s: State, d: nat, dir: Dir)
    requires Inv(s) && d in s.dirs && dir.marker == s.dirs[d].marker
    requires SameChunks(s.dirs[d], dir)
    ensures Inv(Put(s, d, dir))
  {
    PutKeepsData(s, d, dir);
    hide Stage, Dir.NoChunks, Dir.Chunk;
  }

  lemma PutKeepsData(s: State, d: nat, dir: Dir)
    requires Inv(s) && d in s.dirs && dir.marker == s.dirs[d].marker
    requires SameChunks(s.dirs[d], dir)
    ensures Staged(Put(s, d, dir)) && DataIsMarked(Put(s, d, dir))
  {
    hide Exclusive, OneUser;
    forall phase: Phase | Stage(phase, s.dirs[d]) ensures Stage(phase, dir) { StageOfFewer(phase, s.dirs[d], dir); }
    hide Stage;
  }

  lemma StageOfFewer(phase: Phase, before: Dir, after: Dir)
    requires Stage(phase, before) && after.marker == before.marker
    requires SameChunks(before, after)
    ensures Stage(phase, after)
  {
  }

  lemma RemoveDirKeeps(s: State, p: nat, d: nat, next: Then)
    requires Inv(s) && s.root == p && p in s.procs && s.procs[p].Uses(d)
    ensures Inv(Leave(s.(dirs := s.dirs - {d}), p, d, next))
  {
    LeaveKeeps(s, p, d, next);
    VanishKeeps(Leave(s, p, d, next), d);
    hide Inv;
    assert Leave(s.(dirs := s.dirs - {d}), p, d, next) == Leave(s, p, d, next).(dirs := s.dirs - {d});
  }

  // A lone user: what MoveKeeps needs to know.
  lemma Alone(s: State, p: nat)
    requires Inv(s) && p in s.procs && !s.procs[p].Scanning?
    ensures forall q :: q in s.procs && s.procs[q].Uses(s.procs[p].dir) ==> q == p
    ensures s.procs[p].dir in s.dirs && Stage(s.procs[p], s.dirs[s.procs[p].dir])
    ensures s.procs[p].Locks(s.procs[p].dir) <==> s.procs[p].dir in s.locks
    ensures s.procs[p].dir in s.locks ==> s.locks[s.procs[p].dir] == p
    ensures !s.procs[p].Running? <==> s.root == p
  {
  }

  lemma ScanStepKeeps(s: State, a: Action)
    requires Inv(s) && Enabled(s, a) && (a.Start? || a.Skip?)
    ensures Inv(After(s, a))
  {
    hide Inv;
    var left := if a.Start? then a.listing else s.procs[a.p].left[1..];
    if a.Skip? { ScannerHoldsRoot(s, a.p); }
    ScanningKeeps(s, a.p, left);
    assert After(s, a) == Scans(s, a.p, left);
  }

  // p scans under the root lock.
  function Scans(s: State, p: nat, left: seq<nat>): State { s.(procs := s.procs[p := Scanning(left)], root := p) }

  lemma ScannerHoldsRoot(s: State, p: nat)
    requires Inv(s) && p in s.procs && s.procs[p].Scanning?
    ensures s.root == p
  {
    hide OneUser, Staged, DataIsMarked;
  }

  lemma ScanningKeeps(s: State, p: nat, left: seq<nat>)
    requires Inv(s) && if p in s.procs then s.procs[p].Scanning? && s.root == p else s.root == -1
    ensures Inv(Scans(s, p, left))
  {
    hide Exclusive, OneUser, Staged, DataIsMarked;
    ScanningKeepsRoot(s, p, left);
    ScanningKeepsUsers(s, p, left);
    ScanningKeepsData(s, p, left);
  }

  lemma ScanningKeepsRoot(s: State, p: nat, left: seq<nat>)
    requires Exclusive(s) && if p in s.procs then s.procs[p].Scanning? && s.root == p else s.root == -1
    ensures Exclusive(Scans(s, p, left))
  {
  }

  lemma ScanningKeepsUsers(s: State, p: nat, left: seq<nat>)
    requires OneUser(s) && (p in s.procs ==> s.procs[p].Scanning?)
    ensures OneUser(Scans(s, p, left))
  {
    var t := Scans(s, p, left);
    forall q | q in t.procs && !t.procs[q].Scanning? ensures q in s.procs && t.procs[q] == s.procs[q] {}
    forall d | d in t.locks ensures t.locks[d] in t.procs && t.procs[t.locks[d]].Locks(d) {
      assert s.procs[s.locks[d]].Locks(d);
    }
  }

  lemma ScanningKeepsData(s: State, p: nat, left: seq<nat>)
    requires Staged(s) && DataIsMarked(s) && (p in s.procs ==> s.procs[p].Scanning?)
    ensures Staged(Scans(s, p, left)) && DataIsMarked(Scans(s, p, left))
  {
    hide Stage, Dir.NoChunks;
  }

  lemma EnterKeeps(s: State, a: Action)
    requires Inv(s) && Enabled(s, a) && (a.Claim? || a.Make?)
    ensures Inv(After(s, a))
  {
    hide Inv, Exclusive, Staged, DataIsMarked, OneUser;
    var d := if a.Claim? then s.procs[a.p].left[0] else a.d;
    Unused(s, a.p, d);
    MoveKeeps(s, After(s, a), a.p, d);
  }

  // Under the root lock, a directory without a lock and one that does not exist are in nobody's use.
  lemma Unused(s: State, p: nat, d: nat)
    requires Inv(s) && p in s.procs && s.procs[p].Scanning? && (d !in s.dirs || d !in s.locks)
    ensures s.root == p && d !in s.locks && forall q :: q in s.procs ==> !s.procs[q].Uses(d)
  {
    hide Staged, DataIsMarked;
  }

  /** The one lemma all properties of runs rest on. */
  lemma StepKeeps(s: State, a: Action)
    requires Inv(s) && Enabled(s, a)
    ensures Inv(After(s, a))
  {
    hide Inv, Moves, Stage, Dir.OnlyChunks, Dir.NoChunks;
    if a.Start? || a.Skip? {
      ScanStepKeeps(s, a);
    } else if a.Claim? || a.Make? {
      EnterKeeps(s, a);
    } else if a.Crash? || a.GiveUp? {
      EndKeeps(s, a.p);
    } else if a.Foreign? {
      PutKeeps(s, a.d, After(s, a).dirs[a.d]);
    } else {
      UserStepKeeps(s, a);
    }
  }

  lemma UserStepKeeps(s: State, a: Action)
    requires Inv(s) && Enabled(s, a) &&
             !(a.Start? || a.Skip? || a.Claim? || a.Make? || a.GiveUp? || a.Crash? || a.Foreign?)
    ensures Inv(After(s, a))
  {
    hide Inv, Moves;
    Alone(s, a.p);
    var d := s.procs[a.p].dir;
    if Stays(s, a) {
      StaysMoves(s, a);
      StaysSettles(s, a);
      MoveKeeps(s, After(s, a), a.p, d);
    } else if a.UndoDir? {
      if a.ok { RemoveDirKeeps(s, a.p, d, Gone); } else { LeaveKeeps(s, a.p, d, Gone); }
    } else if a.RemoveDir? && a.ok {
      RemoveDirKeeps(s, a.p, d, s.procs[a.p].next);
    } else {
      LeaveKeeps(s, a.p, d, s.procs[a.p].next);
    }
  }

  // The process keeps the directory.
  predicate Stays(s: State, a: Action)
    requires Enabled(s, a)
  {
    match a
    case List(p, found) => s.dirs[s.procs[p].dir].OnlyChunks()
    case EndFiles(p) => !s.procs[p].failed
    case Unmark(p, ok) => ok
    case Exit(_) => true
    case RemoveFile(_, _) => true
    case OpenOwner(_) => true
    case Mark(_) => true
    case RegisterFail(_, _) => true
    case UndoOwner(_, _) => true
    case Write(_, _, _) => true
    case Delete(_, _) => true
    case _ => false
  }

  lemma StaysMoves(s: State, a: Action)
    requires Inv(s) && Enabled(s, a) && Stays(s, a)
    ensures Moves(s, After(s, a), a.p, s.procs[a.p].dir)
  {
    hide Inv, Stage, Moves, After, Enabled;
    if Cleans(a) {
      CleaningMoves(s, a);
    } else if Registers(a) {
      RegisteringMoves(s, a);
    } else {
      RunningMoves(s, a);
    }
  }

  // Steps of a cleanup, steps of a registration, and the others that keep the directory.
  predicate Cleans(a: Action) {
    a.List? || a.RemoveFile? || a.EndFiles? || a.Abandon? || a.Unmark? || a.RemoveDir?
  }

  predicate Registers(a: Action) {
    a.Make? || a.OpenOwner? || a.Mark? || a.RegisterFail? || a.UndoOwner? || a.UndoDir?
  }

  lemma CleaningMoves(s: State, a: Action)
    requires Inv(s) && Enabled(s, a) && Stays(s, a) && Cleans(a)
    ensures Moves(s, After(s, a), a.p, s.procs[a.p].dir)
  {
    hide Inv, Stage;
    Alone(s, a.p);
  }

  lemma RegisteringMoves(s: State, a: Action)
    requires Inv(s) && Enabled(s, a) && Stays(s, a) && Registers(a)
    ensures Moves(s, After(s, a), a.p, s.procs[a.p].dir)
  {
    hide Inv, Stage;
    Alone(s, a.p);
  }

  lemma RunningMoves(s: State, a: Action)
    requires Inv(s) && Enabled(s, a) && Stays(s, a) && !Cleans(a) && !Registers(a)
    ensures Moves(s, After(s, a), a.p, s.procs[a.p].dir)
  {
    hide Inv, Stage;
    Alone(s, a.p);
  }

  lemma StaysSettles(s: State, a: Action)
    requires Inv(s) && Enabled(s, a) && Stays(s, a)
    ensures var t := After(s, a);
            a.p in t.procs && s.procs[a.p].dir in t.dirs && Settles(t.procs[a.p], t.dirs[s.procs[a.p].dir])
  {
    hide Inv, Stage, Settles, After, Enabled;
    if Cleans(a) {
      CleaningSettles(s, a);
    } else if Registers(a) {
      RegisteringSettles(s, a);
    } else {
      RunningSettles(s, a);
    }
  }

  lemma CleaningSettles(s: State, a: Action)
    requires Inv(s) && Enabled(s, a) && Stays(s, a) && Cleans(a)
    ensures var t := After(s, a);
            a.p in t.procs && s.procs[a.p].dir in t.dirs && Settles(t.procs[a.p], t.dirs[s.procs[a.p].dir])
  {
    hide Inv;
    Alone(s, a.p);
    MarkedIfData(s, s.procs[a.p].dir);
  }

  lemma RegisteringSettles(s: State, a: Action)
    requires Inv(s) && Enabled(s, a) && Stays(s, a) && Registers(a)
    ensures var t := After(s, a);
            a.p in t.procs && s.procs[a.p].dir in t.dirs && Settles(t.procs[a.p], t.dirs[s.procs[a.p].dir])
  {
    hide Inv;
    Alone(s, a.p);
  }

  lemma RunningSettles(s: State, a: Action)
    requires Inv(s) && Enabled(s, a) && Stays(s, a) && !Cleans(a) && !Registers(a)
    ensures var t := After(s, a);
            a.p in t.procs && s.procs[a.p].dir in t.dirs && Settles(t.procs[a.p], t.dirs[s.procs[a.p].dir])
  {
    hide Inv;
    Alone(s, a.p);
  }

  lemma MarkedIfData(s: State, d: nat)
    requires Inv(s) && d in s.dirs
    ensures !s.dirs[d].marker.Marked? ==> s.dirs[d].NoChunks()
  {
  }

  /* ---------- What the protocol is for ---------- */

  predicate Keeps(before: Dir, after: Dir) {
    before.marker == after.marker &&
    forall name :: name in before.entries ==> name in after.entries && after.entries[name] == before.entries[name]
  }

  // The one directory a step can change.
  predicate Touches(s: State, a: Action, d: nat) {
    if a.Foreign? then d == a.d else a.p in s.procs && s.procs[a.p].Uses(d)
  }

  lemma OthersUntouched(s: State, a: Action, d: nat)
    requires Enabled(s, a) && d in s.dirs && !Touches(s, a, d)
    ensures d in After(s, a).dirs && After(s, a).dirs[d] == s.dirs[d]
  {
    hide After, Enabled;
    if Cleans(a) { CleaningUntouched(s, a, d); } else { OtherwiseUntouched(s, a, d); }
  }

  lemma CleaningUntouched(s: State, a: Action, d: nat)
    requires Enabled(s, a) && d in s.dirs && !Touches(s, a, d) && Cleans(a)
    ensures d in After(s, a).dirs && After(s, a).dirs[d] == s.dirs[d]
  {
  }

  lemma OtherwiseUntouched(s: State, a: Action, d: nat)
    requires Enabled(s, a) && d in s.dirs && !Touches(s, a, d) && !Cleans(a)
    ensures d in After(s, a).dirs && After(s, a).dirs[d] == s.dirs[d]
  {
  }

  /** No process removes anything from the run of another process that is alive. */
  lemma LiveRunsAreLeftAlone(s: State, a: Action, q: nat)
    requires Inv(s) && Enabled(s, a) && q in s.procs && s.procs[q].Running? && (a.p != q || a.Foreign?)
    ensures var d := s.procs[q].dir; d in s.dirs && d in After(s, a).dirs && Keeps(s.dirs[d], After(s, a).dirs[d])
    ensures q in After(s, a).procs && After(s, a).procs[q] == s.procs[q]
  {
    hide Inv, Stage;
    Alone(s, q);
    OthersStay(s, a, q);
    if !a.Foreign? {
      OthersUntouched(s, a, s.procs[q].dir);
      hide Enabled, After;
    }
  }

  lemma OthersStay(s: State, a: Action, q: nat)
    requires Enabled(s, a) && q in s.procs && (a.p != q || a.Foreign?)
    ensures q in After(s, a).procs && After(s, a).procs[q] == s.procs[q]
  {
    hide After, Enabled;
    if Cleans(a) { CleaningStays(s, a, q); } else { OtherwiseStays(s, a, q); }
  }

  lemma OtherwiseStays(s: State, a: Action, q: nat)
    requires Enabled(s, a) && q in s.procs && (a.p != q || a.Foreign?) && !Cleans(a)
    ensures q in After(s, a).procs && After(s, a).procs[q] == s.procs[q]
  {
  }

  lemma CleaningStays(s: State, a: Action, q: nat)
    requires Enabled(s, a) && q in s.procs && a.p != q && Cleans(a)
    ensures q in After(s, a).procs && After(s, a).procs[q] == s.procs[q]
  {
  }

  /** Cleanup removes plain chunk files only, and only from the directory it has claimed. */
  lemma CleanupRemovesChunksOnly(s: State, a: Action, d: nat, name: string)
    requires Inv(s) && Enabled(s, a) && d in s.dirs && name in s.dirs[d].entries
    requires d !in After(s, a).dirs || name !in After(s, a).dirs[d].entries
    ensures a.p in s.procs && s.procs[a.p].Uses(d) && (a.Delete? || (a.RemoveFile? && s.dirs[d].Chunk(name)))
  {
    hide Inv, After, Enabled;
    if !Touches(s, a, d) {
      OthersUntouched(s, a, d);
    } else if a.Foreign? {
      ForeignAdds(s, a, d, name);
    } else {
      Alone(s, a.p);
      if Cleans(a) { CleaningRemoves(s, a, d, name); } else { OtherwiseRemoves(s, a, d, name); }
    }
  }

  lemma ForeignAdds(s: State, a: Action, d: nat, name: string)
    requires Enabled(s, a) && a.Foreign? && d in s.dirs && name in s.dirs[d].entries
    ensures d in After(s, a).dirs && name in After(s, a).dirs[d].entries
  {
  }

  lemma CleaningRemoves(s: State, a: Action, d: nat, name: string)
    requires Enabled(s, a) && Cleans(a) && d in s.dirs && name in s.dirs[d].entries && s.procs[a.p].Uses(d)
    requires Stage(s.procs[a.p], s.dirs[d]) && (d !in After(s, a).dirs || name !in After(s, a).dirs[d].entries)
    ensures a.RemoveFile? && s.dirs[d].Chunk(name)
  {
    hide Dir.Chunk, Dir.OnlyChunks;
  }

  lemma OtherwiseRemoves(s: State, a: Action, d: nat, name: string)
    requires Enabled(s, a) && !Cleans(a) && !a.Foreign? && d in s.dirs && name in s.dirs[d].entries
    requires a.p in s.procs && s.procs[a.p].Uses(d)
    requires d !in After(s, a).dirs || name !in After(s, a).dirs[d].entries
    ensures a.Delete?
  {
  }

  /** A directory with an unexpected entry when it is listed is left whole, and its user moves on. */
  lemma UnexpectedIsLeftWhole(s: State, a: Action)
    requires Inv(s) && Enabled(s, a) && a.List? && !s.dirs[s.procs[a.p].dir].OnlyChunks()
    ensures After(s, a).dirs == s.dirs &&
            forall q :: q in After(s, a).procs ==> !After(s, a).procs[q].Uses(s.procs[a.p].dir)
  {
    Alone(s, a.p);
    hide Inv;
  }

  /** The marker goes last: when it does, no chunk is left. */
  lemma MarkerGoesLast(s: State, a: Action, d: nat)
    requires Inv(s) && Enabled(s, a) && d in s.dirs && s.dirs[d].marker.Marked?
    requires d !in After(s, a).dirs || !After(s, a).dirs[d].marker.Marked?
    ensures s.dirs[d].NoChunks()
  {
    hide Inv;
    if !Touches(s, a, d) {
      OthersUntouched(s, a, d);
    } else if !a.Foreign? {
      Alone(s, a.p);
      hide Dir.Chunk;
    }
  }

  /* ---------- Runs ---------- */

  predicate CanRun(s: State, run: seq<Action>)
    decreases |run|
  {
    run != [] ==> Enabled(s, run[0]) && CanRun(After(s, run[0]), run[1..])
  }

  function AfterAll(s: State, run: seq<Action>): State
    requires CanRun(s, run)
    decreases |run|
  {
    if run == [] then s else AfterAll(After(s, run[0]), run[1..])
  }

  lemma {:induction false} RunKeeps(s: State, run: seq<Action>)
    requires Inv(s) && CanRun(s, run)
    ensures Inv(AfterAll(s, run)) && DataIsMarked(AfterAll(s, run))
    decreases |run|
  {
    hide Enabled, After, Inv, DataIsMarked;
    if run != [] {
      StepKeeps(s, run[0]);
      RunKeeps(After(s, run[0]), run[1..]);
    } else {
      DataOf(s);
    }
  }

  lemma DataOf(s: State)
    requires Inv(s)
    ensures DataIsMarked(s)
  {
  }

  /** Whatever the others do, crash included, a live run keeps its files. */
  lemma {:induction false} LiveRunsKeepTheirFiles(s: State, run: seq<Action>, q: nat)
    requires Inv(s) && CanRun(s, run) && q in s.procs && s.procs[q].Running?
    requires forall i :: 0 <= i < |run| ==> run[i].p != q || run[i].Foreign?
    ensures var d := s.procs[q].dir;
            d in s.dirs && d in AfterAll(s, run).dirs && Keeps(s.dirs[d], AfterAll(s, run).dirs[d])
    ensures var before, after := s.dirs[s.procs[q].dir], AfterAll(s, run).dirs[s.procs[q].dir];
            && after.marker == before.marker
            && forall name :: name in before.entries ==>
                 name in after.entries && after.entries[name] == before.entries[name]
    decreases |run|
  {
    hide Enabled, After, Inv;
    if run != [] {
      StepKeeps(s, run[0]);
      LiveRunsAreLeftAlone(s, run[0], q);
      LiveRunsKeepTheirFiles(After(s, run[0]), run[1..], q);
    } else {
      Alone(s, q);
    }
  }

  lemma StartupHolds()
    ensures Inv(State(map[], map[], map[], -1))
  {
  }

  /* ---------- Leftovers are reclaimed ---------- */

  // Chunks without an owner.
  predicate Leftover(s: State, d: nat) {
    d in s.dirs && d !in s.locks && s.dirs[d].OnlyChunks() && s.dirs[d].entries != map[]
  }

  predicate Claimable(s: State, d: nat) { d in s.dirs && d !in s.locks && s.dirs[d].marker.Marked? }

  // What a scan removes.
  function Reclaimed(s: State, listing: seq<nat>): set<nat> {
    set d | d in listing && Claimable(s, d) && s.dirs[d].OnlyChunks()
  }

  lemma RunsOn(s: State, a: Action, rest: seq<Action>)
    requires Enabled(s, a) && CanRun(After(s, a), rest)
    ensures CanRun(s, [a] + rest) && AfterAll(s, [a] + rest) == AfterAll(After(s, a), rest)
  {
    hide Enabled, After;
    assert ([a] + rest)[1..] == rest;
  }

  lemma {:induction false} RunsJoin(s: State, a: seq<Action>, b: seq<Action>)
    requires CanRun(s, a) && CanRun(AfterAll(s, a), b)
    ensures CanRun(s, a + b) && AfterAll(s, a + b) == AfterAll(AfterAll(s, a), b)
    decreases |a|
  {
    hide Enabled, After;
    if a == [] {
      assert a + b == b;
    } else {
      assert (a + b)[1..] == a[1..] + b;
      RunsJoin(After(s, a[0]), a[1..], b);
    }
  }

  predicate By(p: nat, run: seq<Action>) { forall i :: 0 <= i < |run| ==> run[i].p == p }

  lemma ByOn(p: nat, a: Action, run: seq<Action>)
    requires a.p == p && By(p, run)
    ensures By(p, [a] + run)
  {
  }

  // p is done with d, which is gone.
  function Cleaned(s: State, p: nat, d: nat, left: seq<nat>): State {
    s.(dirs := s.dirs - {d}, procs := s.procs[p := Scanning(left)], locks := s.locks - {d})
  }

  // p removes the files it has listed, one by one, and then the directory.
  lemma {:induction false} Sweep(s: State, p: nat, d: nat, files: seq<string>, left: seq<nat>)
    returns (run: seq<Action>)
    requires p in s.procs && s.procs[p] == Cleaning(d, Next(left), files, false) && d in s.dirs
    requires Distinct(files) && s.dirs[d].entries.Keys == set name | name in files
    ensures CanRun(s, run) && AfterAll(s, run) == Cleaned(s, p, d, left) && By(p, run)
    decreases |files|
  {
    hide CanRun, AfterAll;
    if files == [] {
      run := SweepEnd(s, p, d, left);
    } else {
      var a := RemoveFile(p, true);
      var t := After(s, a);
      assert t.dirs[d].entries.Keys == set name | name in files[1..] by {
        assert forall name :: name in files <==> name == files[0] || name in files[1..];
      }
      var rest := Sweep(t, p, d, files[1..], left);
      RunsOn(s, a, rest);
      ByOn(p, a, rest);
      run := [a] + rest;
      assert Cleaned(t, p, d, left) == Cleaned(s, p, d, left);
    }
  }

  lemma SweepEnd(s: State, p: nat, d: nat, left: seq<nat>) returns (run: seq<Action>)
    requires p in s.procs && s.procs[p] == Cleaning(d, Next(left), [], false) && d in s.dirs &&
             s.dirs[d].entries.Keys == {}
    ensures CanRun(s, run) && AfterAll(s, run) == Cleaned(s, p, d, left) && By(p, run)
  {
    hide CanRun, AfterAll, Enabled, After;
    EndIs(s, p, d, left);
    var s1 := s.(procs := s.procs[p := Unmarking(d, Next(left))], locks := s.locks - {d});
    UnmarkIs(s1, p, d, left);
    var s2 := s1.(procs := s1.procs[p := Removing(d, Next(left))], dirs := s1.dirs[d := Dir(Missing, map[])]);
    RemoveIs(s2, p, d, left);
    assert Cleaned(s2, p, d, left) == Cleaned(s, p, d, left);
    RunNothing(Cleaned(s, p, d, left));
    RunsOn(s2, RemoveDir(p, true), []);
    RunsOn(s1, Unmark(p, true), [RemoveDir(p, true)] + []);
    RunsOn(s, EndFiles(p), [Unmark(p, true)] + ([RemoveDir(p, true)] + []));
    run := [EndFiles(p)] + ([Unmark(p, true)] + ([RemoveDir(p, true)] + []));
  }

  lemma EndIs(s: State, p: nat, d: nat, left: seq<nat>)
    requires p in s.procs && s.procs[p] == Cleaning(d, Next(left), [], false)
    ensures Enabled(s, EndFiles(p))
    ensures After(s, EndFiles(p)) == s.(procs := s.procs[p := Unmarking(d, Next(left))], locks := s.locks - {d})
  {
  }

  lemma UnmarkIs(s: State, p: nat, d: nat, left: seq<nat>)
    requires p in s.procs && s.procs[p] == Unmarking(d, Next(left)) && d in s.dirs && s.dirs[d].entries.Keys == {}
    ensures Enabled(s, Unmark(p, true))
    ensures After(s, Unmark(p, true)) ==
            s.(procs := s.procs[p := Removing(d, Next(left))], dirs := s.dirs[d := Dir(Missing, map[])])
  {
    assert s.dirs[d].entries == map[];
  }

  lemma RemoveIs(s: State, p: nat, d: nat, left: seq<nat>)
    requires p in s.procs && s.procs[p] == Removing(d, Next(left)) && d in s.dirs && s.dirs[d] == Dir(Missing, map[])
    ensures Enabled(s, RemoveDir(p, true)) && After(s, RemoveDir(p, true)) == Cleaned(s, p, d, left)
  {
  }

  // Any order in which the directory's entries may be listed.
  lemma {:induction false} Listing(names: set<string>) returns (files: seq<string>)
    ensures Distinct(files) && forall x :: x in files <==> x in names
    decreases |names|
  {
    files := [];
    if names != {} {
      var name :| name in names;
      var rest := Listing(names - {name});
      files := [name] + rest;
      assert forall x :: x in files <==> x == name || x in rest;
    }
  }

  // The scanner claims the first directory of its list and cleans it, or finds an unexpected entry and lets go.
  lemma ScanClaim(s: State, p: nat, left: seq<nat>) returns (run: seq<Action>)
    requires p in s.procs && s.procs[p] == Scanning(left) && left != [] && Claimable(s, left[0])
    ensures CanRun(s, run) && By(p, run)
    ensures AfterAll(s, run) == if s.dirs[left[0]].OnlyChunks() then Cleaned(s, p, left[0], left[1..])
                                else s.(procs := s.procs[p := Scanning(left[1..])])
  {
    hide CanRun, AfterAll, Dir.OnlyChunks;
    var d := left[0];
    var files := Listing(s.dirs[d].entries.Keys);
    assert s.dirs[d].entries.Keys == set name | name in files;
    var s1 := After(s, Claim(p));
    var s2 := After(s1, List(p, files));
    var rest := [];
    if s.dirs[d].OnlyChunks() {
      rest := Sweep(s2, p, d, files, left[1..]);
      assert Cleaned(s2, p, d, left[1..]) == Cleaned(s, p, d, left[1..]);
    } else {
      RunNothing(s2);
      assert s2 == s.(procs := s.procs[p := Scanning(left[1..])]);
    }
    RunsOn(s1, List(p, files), rest);
    RunsOn(s, Claim(p), [List(p, files)] + rest);
    ByOn(p, List(p, files), rest);
    ByOn(p, Claim(p), [List(p, files)] + rest);
    run := [Claim(p)] + ([List(p, files)] + rest);
  }

  lemma RunNothing(s: State)
    ensures CanRun(s, []) && AfterAll(s, []) == s
  {
  }

  lemma ScanSkip(s: State, p: nat, left: seq<nat>)
    requires p in s.procs && s.procs[p] == Scanning(left) && left != []
    ensures CanRun(s, [Skip(p)]) && AfterAll(s, [Skip(p)]) == s.(procs := s.procs[p := Scanning(left[1..])])
  {
    RunNothing(After(s, Skip(p)));
    RunsOn(s, Skip(p), []);
    assert [Skip(p)] + [] == [Skip(p)];
  }

  // The whole list: every claimable directory that holds only chunks goes, and nothing else changes.
  lemma {:induction false} ScanAll(s: State, p: nat, left: seq<nat>) returns (run: seq<Action>)
    requires p in s.procs && s.procs[p] == Scanning(left)
    ensures CanRun(s, run) && By(p, run) && AfterAll(s, run).dirs == s.dirs - Reclaimed(s, left)
    decreases |left|
  {
    hide CanRun, AfterAll, Dir.OnlyChunks;
    if left == [] {
      run := [];
      RunNothing(s);
      assert s.dirs - {} == s.dirs;
    } else {
      var first := [Skip(p)];
      if Claimable(s, left[0]) { first := ScanClaim(s, p, left); } else { ScanSkip(s, p, left); }
      var t := AfterAll(s, first);
      var rest := ScanAll(t, p, left[1..]);
      RunsJoin(s, first, rest);
      run := first + rest;
      ScanLess(s, t, left);
    }
  }

  lemma ScanLess(s: State, t: State, left: seq<nat>)
    requires left != []
    requires if Claimable(s, left[0]) && s.dirs[left[0]].OnlyChunks() then
               t.dirs == s.dirs - {left[0]} && t.locks == s.locks - {left[0]}
             else t.dirs == s.dirs && t.locks == s.locks
    ensures t.dirs - Reclaimed(t, left[1..]) == s.dirs - Reclaimed(s, left)
  {
    assert forall d :: d in left <==> d == left[0] || d in left[1..];
  }

  /** Whatever chunks crashed processes left in the directories that the next process to start lists, that process has a
      run that removes them all, leaves every other directory as it was, and fails at no system call. */
  lemma LeftoversAreReclaimed(s: State, p: nat, listing: seq<nat>) returns (run: seq<Action>)
    requires Inv(s) && s.root == -1 && p !in s.procs
    ensures CanRun(s, run) && By(p, run) && AfterAll(s, run).dirs == s.dirs - Reclaimed(s, listing)
    ensures forall d :: d in listing && Leftover(s, d) ==> d !in AfterAll(s, run).dirs
  {
    forall d | d in listing && Leftover(s, d) ensures d in Reclaimed(s, listing) {
      MarkedIfData(s, d);
      var name :| name in s.dirs[d].entries;
      assert s.dirs[d].Chunk(name);
    }
    hide Inv, CanRun, AfterAll;
    var t := After(s, Start(p, listing));
    var rest := ScanAll(t, p, listing);
    RunsOn(s, Start(p, listing), rest);
    ByOn(p, Start(p, listing), rest);
    run := [Start(p, listing)] + rest;
    assert Reclaimed(t, listing) == Reclaimed(s, listing);
  }

  /* ---------- Every scan reclaims them ---------- */

  // A directory the scan has still to come to, and will find to hold chunks only.
  predicate Ripe(s: State, d: nat, left: seq<nat>) { d in left && Claimable(s, d) && s.dirs[d].OnlyChunks() }

  // What is left of d while p is working on it.
  predicate HalfDone(phase: Phase, dir: Dir) {
    match phase
    case Claimed(_, _) => dir.OnlyChunks()
    case Cleaning(_, _, files, failed) => !failed && dir.entries.Keys == set name | name in files
    case Unmarking(_, _) => dir.entries == map[]
    case Removing(_, _) => dir == Dir(Missing, map[])
    case _ => false
  }

  predicate Working(phase: Phase) {
    (phase.Claimed? || phase.Cleaning? || phase.Unmarking? || phase.Removing?) && phase.next.Next?
  }

  /** The scan of p has come to d, or it will. */
  predicate Reaches(s: State, p: nat, d: nat) {
    && p in s.procs && s.root == p
    && var phase := s.procs[p];
    if phase.Scanning? then d !in s.dirs || Ripe(s, d, phase.left)
    else Working(phase) &&
         if phase.dir == d then d in s.dirs && HalfDone(phase, s.dirs[d])
         else d !in s.dirs || Ripe(s, d, phase.next.left)
  }

  /** A step in which p's scan does not fail at d: p passes over d only where it cannot be claimed, no system call on d
      fails, and p neither dies nor makes a directory of its own before the scan is over. No stranger drops a file in
      d. What happens elsewhere and what other processes do is free. */
  predicate Succeeds(s: State, p: nat, d: nat, a: Action)
    requires Enabled(s, a)
  {
    if a.Foreign? then a.d != d
    else
      a.p == p && p in s.procs ==>
        && !a.Crash? && !a.GiveUp? && !a.Make?
        && (a.Skip? ==> s.procs[p].left[0] != d || !Claimable(s, d))
        && (s.procs[p].Uses(d) ==>
              !a.Abandon? && (a.RemoveFile? ==> a.ok) && (a.Unmark? ==> a.ok) && (a.RemoveDir? ==> a.ok))
  }

  // Others leave d alone.
  lemma OthersKeepReaching(s: State, p: nat, d: nat, a: Action)
    requires Inv(s) && Reaches(s, p, d) && Enabled(s, a) && Succeeds(s, p, d, a) && (a.p != p || a.Foreign?)
    ensures Reaches(After(s, a), p, d)
  {
    hide Dir.OnlyChunks, Stage;
    OthersStay(s, a, p);
    OthersKeepLocks(s, p, d, a);
    if d in s.dirs { OthersAway(s, p, d, a); OthersUntouched(s, a, d); }
    hide Inv, Enabled, After;
  }

  // While p holds the root lock the others only run.
  lemma OthersRun(s: State, p: nat, a: Action)
    requires Inv(s) && p in s.procs && s.root == p && Enabled(s, a) && a.p != p && !a.Foreign?
    ensures a.p in s.procs && s.procs[a.p].Running? && (a.Write? || a.Delete? || a.Crash?)
    ensures s.procs[a.p].dir in s.locks && s.locks[s.procs[a.p].dir] == a.p
  {
    hide Staged, DataIsMarked;
  }

  lemma OthersKeepLocks(s: State, p: nat, d: nat, a: Action)
    requires Inv(s) && p in s.procs && s.root == p && Enabled(s, a) && (a.p != p || a.Foreign?)
    ensures After(s, a).root == p && (d !in s.locks ==> d !in After(s, a).locks)
    ensures d !in s.dirs ==> d !in After(s, a).dirs
  {
    if !a.Foreign? { OthersRun(s, p, a); }
    hide Inv;
  }

  lemma OthersAway(s: State, p: nat, d: nat, a: Action)
    requires Inv(s) && Reaches(s, p, d) && d in s.dirs && Enabled(s, a) && (a.p != p || a.Foreign?)
    requires a.Foreign? ==> a.d != d
    ensures !Touches(s, a, d)
  {
    hide Dir.OnlyChunks, Stage, Enabled;
    if !a.Foreign? {
      OthersRun(s, p, a);
      if s.procs[p].Uses(d) { Alone(s, p); }
    }
  }

  // p's own steps while it looks for the next directory.
  lemma LookingReaches(s: State, p: nat, d: nat, a: Action)
    requires Inv(s) && Reaches(s, p, d) && Enabled(s, a) && Succeeds(s, p, d, a) && a.p == p && !a.Foreign?
    requires s.procs[p].Scanning?
    ensures Reaches(After(s, a), p, d)
  {
    hide Inv, Dir.OnlyChunks;
    var left := s.procs[p].left;
    assert a.Skip? || a.Claim?;
    assert forall x :: x in left <==> x == left[0] || x in left[1..];
  }

  // p's own steps on another directory.
  lemma ElsewhereReaches(s: State, p: nat, d: nat, a: Action)
    requires Inv(s) && Reaches(s, p, d) && Enabled(s, a) && Succeeds(s, p, d, a) && a.p == p && !a.Foreign?
    requires !s.procs[p].Scanning? && s.procs[p].dir != d
    ensures Reaches(After(s, a), p, d)
  {
    hide Inv, Dir.OnlyChunks;
    assert Cleans(a);
  }

  // p's own steps on d.
  lemma CleaningReaches(s: State, p: nat, d: nat, a: Action)
    requires Inv(s) && Reaches(s, p, d) && Enabled(s, a) && Succeeds(s, p, d, a) && a.p == p && !a.Foreign?
    requires !s.procs[p].Scanning? && s.procs[p].dir == d
    ensures Reaches(After(s, a), p, d)
  {
    hide Inv, Dir.OnlyChunks;
    Alone(s, p);
    assert Cleans(a);
    if a.RemoveFile? {
      RemovalReaches(s, p, d, a);
    } else if a.EndFiles? {
      assert s.dirs[d].entries.Keys == {};
    }
    hide Listed;
  }

  lemma RemovalReaches(s: State, p: nat, d: nat, a: Action)
    requires Reaches(s, p, d) && Enabled(s, a) && Succeeds(s, p, d, a) && a.p == p && a.RemoveFile?
    requires s.procs[p].dir == d && Stage(s.procs[p], s.dirs[d])
    ensures Reaches(After(s, a), p, d)
  {
    hide Dir.Chunk, Dir.OnlyChunks;
    var files := s.procs[p].files;
    assert Listed(s.dirs[d], files, false);
    assert forall x :: x in files <==> x == files[0] || x in files[1..];
    assert files[0] !in files[1..];
  }

  lemma StepReaches(s: State, p: nat, d: nat, a: Action)
    requires Inv(s) && Reaches(s, p, d) && Enabled(s, a) && Succeeds(s, p, d, a)
    ensures Reaches(After(s, a), p, d)
  {
    hide Inv, Enabled, After, Succeeds, HalfDone, Ripe;
    if a.p != p || a.Foreign? {
      OthersKeepReaching(s, p, d, a);
    } else if s.procs[p].Scanning? {
      LookingReaches(s, p, d, a);
    } else if s.procs[p].dir != d {
      ElsewhereReaches(s, p, d, a);
    } else {
      CleaningReaches(s, p, d, a);
    }
  }

  predicate AllSucceed(s: State, p: nat, d: nat, run: seq<Action>)
    requires CanRun(s, run)
    decreases |run|
  {
    run != [] ==> Succeeds(s, p, d, run[0]) && AllSucceed(After(s, run[0]), p, d, run[1..])
  }

  lemma {:induction false} RunReaches(s: State, p: nat, d: nat, run: seq<Action>)
    requires Inv(s) && Reaches(s, p, d) && CanRun(s, run) && AllSucceed(s, p, d, run)
    ensures Reaches(AfterAll(s, run), p, d)
    decreases |run|
  {
    hide Inv, Enabled, After, Succeeds, Reaches;
    if run != [] {
      StepKeeps(s, run[0]);
      StepReaches(s, p, d, run[0]);
      RunReaches(After(s, run[0]), p, d, run[1..]);
    }
  }

  /** Every scan, with the others' steps anywhere in between: when it has come to its end, each leftover it listed and
      did not fail at is gone. */
  lemma EveryScanReclaims(s: State, p: nat, listing: seq<nat>, run: seq<Action>, d: nat)
    requires Inv(s) && s.root == -1 && p !in s.procs && d in listing && Leftover(s, d)
    requires CanRun(After(s, Start(p, listing)), run) && AllSucceed(After(s, Start(p, listing)), p, d, run)
    ensures var t := AfterAll(After(s, Start(p, listing)), run);
            p in t.procs && (t.procs[p] == Scanning([]) ==> d !in t.dirs)
  {
    var t := After(s, Start(p, listing));
    StepKeeps(s, Start(p, listing));
    MarkedIfData(s, d);
    var name :| name in s.dirs[d].entries;
    assert s.dirs[d].Chunk(name);
    assert Reaches(t, p, d) by { hide Inv, Dir.OnlyChunks; }
    hide Inv, Enabled, After, CanRun, AfterAll, AllSucceed;
    RunReaches(t, p, d, run);
  }
}
