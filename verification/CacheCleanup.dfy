/**
 The cleanup loop of tools/kvmem-session-cache-dir.h as the source writes it: one process lists a
 run directory it has claimed, removes its files one after the other, then the marker, then the
 directory. It is a run of the steps of CacheDirectory, so what is proved of runs holds of it.

 fails says which removals the file system refuses.
 */
module CacheCleanup {
  import opened CacheDirectory

  datatype Removals = Removals(file: string -> bool, marker: bool, dir: bool)

  datatype Outcome = Skipped | Kept | Unmarked | Removed

  lemma {:induction false} RunsThen(s: State, run: seq<Action>, a: Action)
    requires CanRun(s, run) && Enabled(AfterAll(s, run), a)
    ensures CanRun(s, run + [a]) && AfterAll(s, run + [a]) == After(AfterAll(s, run), a)
    decreases |run|
  {
    hide Enabled, After;
    if run == [] {
      assert run + [a] == [a] && [a][1..] == [];
    } else {
      assert (run + [a])[1..] == run[1..] + [a];
      RunsThen(After(s, run[0]), run[1..], a);
    }
  }

  function SizeOf(dir: Dir, name: string): nat {
    if name in dir.entries && dir.entries[name].Plain? then dir.entries[name].bytes else 0
  }

  // The bytes of the first n files that could be removed.
  function BytesRemoved(dir: Dir, files: seq<string>, fails: string -> bool, n: nat): nat
    requires n <= |files|
  {
    if n == 0 then 0
    else BytesRemoved(dir, files, fails, n - 1) + (if fails(files[n - 1]) then 0 else SizeOf(dir, files[n - 1]))
  }

  predicate AnyFails(files: seq<string>, fails: string -> bool, n: nat)
    requires n <= |files|
  {
    exists i :: 0 <= i < n && fails(files[i])
  }

  // The state after the first n files have been dealt with.
  ghost predicate Swept(s: State, t: State, p: nat, d: nat, next: Then, files: seq<string>, fails: string -> bool,
                        n: nat) {
    && n <= |files| && d in s.dirs && d in t.dirs
    && t == Put(To(s, p, Cleaning(d, next, files[n..], AnyFails(files, fails, n))), d, t.dirs[d]) &&
       t.dirs[d].marker == s.dirs[d].marker
    && (forall name :: name in t.dirs[d].entries <==> name in s.dirs[d].entries && (name in files[n..] || fails(name)))
    && (forall name :: name in t.dirs[d].entries ==> t.dirs[d].entries[name] == s.dirs[d].entries[name])
  }

  lemma SweptOne(s: State, t: State, p: nat, d: nat, next: Then, files: seq<string>, fails: string -> bool, n: nat)
    requires Swept(s, t, p, d, next, files, fails, n) && n < |files| && Distinct(files)
    ensures Enabled(t, RemoveFile(p, !fails(files[n]))) &&
            Swept(s, After(t, RemoveFile(p, !fails(files[n]))), p, d, next, files, fails, n + 1)
  {
    hide AnyFails, Distinct, Enabled, After;
    OneFileLess(files, fails, n);
    var dir, ok := t.dirs[d], !fails(files[n]);
    RemoveFileIs(t, p, d, next, files[n..], AnyFails(files, fails, n), ok);
    var u := After(t, RemoveFile(p, ok));
    assert t.dirs[d := u.dirs[d]] == s.dirs[d := u.dirs[d]] && t.procs[p := u.procs[p]] == s.procs[p := u.procs[p]];
  }

  lemma RemoveFileIs(t: State, p: nat, d: nat, next: Then, files: seq<string>, failed: bool, ok: bool)
    requires p in t.procs && t.procs[p] == Cleaning(d, next, files, failed) && files != [] && d in t.dirs
    ensures Enabled(t, RemoveFile(p, ok))
    ensures var dir := t.dirs[d];
            After(t, RemoveFile(p, ok)) ==
            Put(To(t, p, Cleaning(d, next, files[1..], failed || !ok)), d,
                if ok then dir.(entries := dir.entries - {files[0]}) else dir)
  {
  }

  lemma OneFileLess(files: seq<string>, fails: string -> bool, n: nat)
    requires n < |files| && Distinct(files)
    ensures files[n..][0] == files[n] && files[n..][1..] == files[n + 1..] && files[n] !in files[n + 1..]
    ensures forall name :: name in files[n..] <==> name == files[n] || name in files[n + 1..]
    ensures AnyFails(files, fails, n + 1) == (AnyFails(files, fails, n) || fails(files[n]))
  {
  }

  lemma SweptNone(s: State, t: State, p: nat, d: nat, next: Then, files: seq<string>, fails: string -> bool)
    requires p in s.procs && d in s.dirs && t == To(s, p, Cleaning(d, next, files, false)) &&
             s.dirs[d].entries.Keys == set name | name in files
    ensures Swept(s, t, p, d, next, files, fails, 0)
  {
    assert files[0..] == files;
    assert Put(t, d, t.dirs[d]).dirs == t.dirs;
  }

  // What is left once every file has been dealt with.
  lemma SweptAll(s: State, t: State, p: nat, d: nat, next: Then, files: seq<string>, fails: string -> bool)
    requires Swept(s, t, p, d, next, files, fails, |files|) && s.dirs[d].entries.Keys == set name | name in files
    ensures p in t.procs && t.procs[p] == Cleaning(d, next, [], AnyFails(files, fails, |files|))
    ensures d in t.dirs && t.dirs[d].marker == s.dirs[d].marker && t.dirs == s.dirs[d := t.dirs[d]] &&
            t.locks == s.locks && t.root == s.root
    ensures forall name :: name in t.dirs[d].entries <==> name in files && fails(name)
    ensures !AnyFails(files, fails, |files|) ==> t.dirs[d].entries == map[]
  {
    assert files[|files|..] == [];
    if !AnyFails(files, fails, |files|) {
      forall name | name in files ensures !fails(name) { var i :| 0 <= i < |files| && files[i] == name; }
    }
  }

  // The loop over the files.
  method RemoveFiles(s: State, p: nat, found: seq<string>, fails: string -> bool)
    returns (t: State, bytes: nat, ghost run: seq<Action>)
    requires p in s.procs && s.procs[p].Claimed? && Enabled(s, List(p, found)) && s.dirs[s.procs[p].dir].OnlyChunks()
    ensures CanRun(s, run) && t == AfterAll(s, run) &&
            bytes == BytesRemoved(s.dirs[s.procs[p].dir], found, fails, |found|)
    ensures var d := s.procs[p].dir;
            && p in t.procs && t.procs[p] == Cleaning(d, s.procs[p].next, [], AnyFails(found, fails, |found|)) &&
               d in t.dirs
            && t.dirs[d].marker == s.dirs[d].marker && t.dirs == s.dirs[d := t.dirs[d]]
            && (forall name :: name in t.dirs[d].entries <==> name in found && fails(name))
            && (!AnyFails(found, fails, |found|) ==> t.dirs[d].entries == map[])
  {
    hide CanRun, AfterAll, Swept, AnyFails;
    var phase := s.procs[p];
    var d := phase.dir;
    RunZero(s);
    t := After(s, List(p, found));
    RunsThen(s, [], List(p, found));
    bytes, run := 0, [] + [List(p, found)];
    SweptNone(s, t, p, d, phase.next, found, fails);
    hide Enabled, After;
    for n := 0 to |found|
      invariant CanRun(s, run) && t == AfterAll(s, run) && Swept(s, t, p, d, phase.next, found, fails, n)
      invariant bytes == BytesRemoved(s.dirs[d], found, fails, n)
    {
      SweptOne(s, t, p, d, phase.next, found, fails, n);
      var a := RemoveFile(p, !fails(found[n]));
      RunsThen(s, run, a);
      t, run := After(t, a), run + [a];
      if !fails(found[n]) { bytes := bytes + SizeOf(s.dirs[d], found[n]); }
    }
    SweptAll(s, t, p, d, phase.next, found, fails);
  }

  // The marker and the directory, once the files have been dealt with.
  method CloseDown(s: State, p: nat, marker: bool, dir: bool)
    returns (t: State, outcome: Outcome, ghost run: seq<Action>)
    requires p in s.procs && s.procs[p].Cleaning? && s.procs[p].files == [] && s.procs[p].dir in s.dirs
    requires !s.procs[p].failed ==> s.dirs[s.procs[p].dir].entries == map[]
    ensures CanRun(s, run) && t == AfterAll(s, run)
    ensures var d := s.procs[p].dir;
            && !outcome.Skipped? && (outcome.Kept? <==> s.procs[p].failed || marker) &&
               (outcome.Unmarked? <==> !s.procs[p].failed && !marker && dir)
            && t.dirs == (if outcome.Kept? then s.dirs
                          else if outcome.Unmarked? then s.dirs[d := Dir(Missing, map[])] else s.dirs - {d})
  {
    hide CanRun, AfterAll;
    var d := s.procs[p].dir;
    RunZero(s);
    RunsThen(s, [], EndFiles(p));
    t, run := After(s, EndFiles(p)), [] + [EndFiles(p)];
    if s.procs[p].failed { outcome := Kept; return; }
    RunsThen(s, run, Unmark(p, !marker));
    t, run := After(t, Unmark(p, !marker)), run + [Unmark(p, !marker)];
    if marker { outcome := Kept; return; }
    assert t.dirs[d] == Dir(Missing, map[]);
    RunsThen(s, run, RemoveDir(p, !dir));
    t, run := After(t, RemoveDir(p, !dir)), run + [RemoveDir(p, !dir)];
    outcome := if dir then Outcome.Unmarked else Removed;
    assert s.dirs[d := Dir(Missing, map[])] - {d} == s.dirs - {d};
  }

  /** cleanup(). An unexpected entry leaves the directory whole. A file that cannot be removed keeps the marker, so the
      next start tries again. Only when everything is gone does the run count as removed. */
  method CleanUp(s: State, p: nat, found: seq<string>, fails: Removals)
    returns (t: State, outcome: Outcome, bytes: nat, ghost run: seq<Action>)
    requires p in s.procs && s.procs[p].Claimed? && Enabled(s, List(p, found))
    ensures CanRun(s, run) && t == AfterAll(s, run)
    ensures var d := s.procs[p].dir;
            && (outcome.Skipped? <==> !s.dirs[d].OnlyChunks())
            && (outcome.Skipped? ==> t.dirs == s.dirs && bytes == 0)
            && (!outcome.Skipped? ==> bytes == BytesRemoved(s.dirs[d], found, fails.file, |found|))
            && (outcome.Kept? ==> d in t.dirs && t.dirs[d].marker == s.dirs[d].marker)
            && (outcome.Kept? ==> forall name :: name in t.dirs[d].entries <==> name in found && fails.file(name))
            && (outcome.Unmarked? ==> t.dirs == s.dirs[d := Dir(Missing, map[])])
            && (outcome.Removed? ==> t.dirs == s.dirs - {d})
            && (!outcome.Skipped? ==> (outcome.Kept? <==> AnyFails(found, fails.file, |found|) || fails.marker))
            && (!outcome.Skipped? && !outcome.Kept? ==> (outcome.Removed? <==> !fails.dir))
  {
    hide CanRun, AfterAll, AnyFails, BytesRemoved;
    var d := s.procs[p].dir;
    if !s.dirs[d].OnlyChunks() {
      RunZero(s);
      RunsThen(s, [], List(p, found));
      return After(s, List(p, found)), Skipped, 0, [] + [List(p, found)];
    }
    hide Enabled, After;
    ghost var first;
    t, bytes, first := RemoveFiles(s, p, found, fails.file);
    var mid := t;
    t, outcome, run := CloseDown(mid, p, fails.marker, fails.dir);
    RunsJoin(s, first, run);
    run := first + run;
    assert s.dirs[d := mid.dirs[d]][d := Dir(Missing, map[])] == s.dirs[d := Dir(Missing, map[])];
    assert s.dirs[d := mid.dirs[d]] - {d} == s.dirs - {d};
  }

  lemma RunZero(s: State)
    ensures CanRun(s, []) && AfterAll(s, []) == s
  {
  }
}
