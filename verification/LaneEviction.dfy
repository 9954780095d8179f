/**
 The two eviction loops at the end of a request, enforce_sessions() and enforce_bytes() of
 tools/kvmem-lane-conversations.h.

 A store on a lane is cleared and keeps its node; a parked store is erased. locked(k) holds the
 lanes whose execution lock another request holds when pass k tries it.
 */
module LaneEviction {
  import opened StoreAccounting

  // Stores whose history counts and that nobody is using.
  function Idle(e: Entries): set<int> { set id | id in e && !e[id].busy && !e[id].switching && e[id].rows > 0 }

  predicate OnOtherLane(x: Entry, finishing: int) { x.lane >= 0 && x.lane != finishing }

  function Lockable(e: Entries, finishing: int, locked: set<int>): set<int> {
    set id | id in Idle(e) && !(OnOtherLane(e[id], finishing) && e[id].lane in locked)
  }

  ghost predicate Contended(x: Entry, finishing: int, locked: nat -> set<int>) {
    OnOtherLane(x, finishing) && exists k: nat :: x.lane in locked(k)
  }

  function Cleared(x: Entry, m: Measure): Entry { x.(rows := 0, client := NoKey, bytes := m.bytes, native := m.native) }

  // Clearing a store does not make it larger.
  predicate NoGrowth(e: Entries, cleared: int -> Measure) {
    forall id :: id in e ==> cleared(id).native <= e[id].native
  }

  // The entries once the stores in given have been given up.
  function GivenUp(e: Entries, given: set<int>, cleared: int -> Measure): Entries {
    map id | id in e && (id in given ==> e[id].lane >= 0) :: if id in given then Cleared(e[id], cleared(id)) else e[id]
  }

  // Nothing newer was given up while an older store could have been, and nothing on a lane whose lock was held.
  ghost predicate LruGivenUp(e: Entries, given: set<int>, finishing: int, locked: nat -> set<int>) {
    && given <= Idle(e)
    && (forall d :: d in given && OnOtherLane(e[d], finishing) ==> exists k: nat :: e[d].lane !in locked(k))
    && forall d, r :: d in given && r in Idle(e) - given ==> Older(e, d, r) || Contended(e[r], finishing, locked)
  }

  // Only parked stores are gone, and what stays is charged no more than before.
  predicate Trimmed(f: Entries, e: Entries, gone: set<int>) {
    && gone <= e.Keys && f.Keys == e.Keys - gone
    && (forall id :: id in gone ==> e[id].Parked())
    && (forall id ::
          id in f ==>
            && f[id].lane == e[id].lane && f[id].busy == e[id].busy && f[id].switching == e[id].switching
            && f[id].reserved == e[id].reserved && f[id].attachment == e[id].attachment
            && f[id].native <= e[id].native)
  }

  lemma TrimmedTwice(g: Entries, f: Entries, e: Entries, a: set<int>, b: set<int>)
    requires Trimmed(f, e, a) && Trimmed(g, f, b)
    ensures Trimmed(g, e, a + b)
  {
  }

  lemma TrimmedBelow(f: Entries, e: Entries, gone: set<int>, n: int)
    requires Trimmed(f, e, gone) && Below(e, n)
    ensures Below(f, n)
  {
  }

  lemma TrimmedCharge(f: Entries, e: Entries, gone: set<int>, n: nat)
    requires Trimmed(f, e, gone)
    ensures Charged(f, n) <= Charged(e, n)
  {
    ChargedMonotone(f, e, n);
  }

  function ParkedOf(e: Entries, ids: set<int>): set<int> { set id | id in ids && id in e && e[id].lane < 0 }

  /** The loop of enforce_sessions(). It gives up exactly as many histories as are over the limit, and throws only
      when every remaining candidate's lane is in use. */
  method EnforceSessions(e: Entries, n: nat, limit: nat, finishing: int, locked: nat -> set<int>,
                         cleared: int -> Measure)
    returns (ok: bool, given: set<int>, left: Entries, ghost passes: nat)
    requires Below(e, n) && NoGrowth(e, cleared)
    ensures left == GivenUp(e, given, cleared) && LruGivenUp(e, given, finishing, locked)
    ensures RetainedCount(left, n) == RetainedCount(e, n) - |given|
    ensures ok ==> |given| == if RetainedCount(e, n) > limit then RetainedCount(e, n) - limit else 0
    ensures !ok ==>
              RetainedCount(left, n) > limit &&
              forall r :: r in Idle(e) - given ==> OnOtherLane(e[r], finishing) && e[r].lane in locked(passes)
    // It throws only if everything that still counts is being used, or is on a lane that is.
    ensures !ok ==> AllInUse(left, finishing, locked(passes))
    ensures Trimmed(left, e, ParkedOf(e, given))
  {
    given, left, passes, ok := {}, e, 0, true;
    var pass := 0;
    NothingGiven(e, cleared);
    while RetainedCount(left, n) > limit
      invariant left == GivenUp(e, given, cleared) && LruGivenUp(e, given, finishing, locked) && passes == pass
      invariant RetainedCount(left, n) == RetainedCount(e, n) - |given|
      invariant given != {} ==> RetainedCount(left, n) >= limit
      decreases |Idle(e) - given|
    {
      IdleAfter(e, given, cleared);
      LockableAfter(e, given, cleared, finishing, locked(pass));
      var victim := FindOldest(left, n, Lockable(left, finishing, locked(pass)));
      if victim == -1 {
        GivenUpTrims(e, given, cleared);
        NoneLockable(left, finishing, locked(pass));
        return false, given, left, pass;
      }
      OldestOf(e, given, cleared, finishing, locked, pass, victim);
      GiveOne(e, n, given, cleared, victim);
      left := if left[victim].lane >= 0 then left[victim := Cleared(left[victim], cleared(victim))]
      else left - {victim};
      given := given + {victim};
      pass, passes := pass + 1, pass + 1;
    }
    GivenUpTrims(e, given, cleared);
  }

  predicate AllInUse(e: Entries, finishing: int, locked: set<int>) {
    forall id :: id in e && e[id].rows > 0 ==>
      e[id].busy || e[id].switching || (e[id].lane >= 0 && e[id].lane != finishing && e[id].lane in locked)
  }

  lemma NoneLockable(e: Entries, finishing: int, locked: set<int>)
    requires Lockable(e, finishing, locked) == {}
    ensures AllInUse(e, finishing, locked)
  {
    forall id | id in e && e[id].rows > 0
      ensures e[id].busy || e[id].switching || (e[id].lane >= 0 && e[id].lane != finishing && e[id].lane in locked)
    {
      assert id !in Lockable(e, finishing, locked);
    }
  }

  // So each store that still has a history, and that nobody uses, is on another lane whose lock was held.
  lemma InUseMeans(e: Entries, finishing: int, locked: set<int>, id: int)
    requires AllInUse(e, finishing, locked) && id in e && e[id].rows > 0 && !e[id].busy && !e[id].switching
    ensures e[id].lane >= 0 && e[id].lane != finishing && e[id].lane in locked
  {
  }

  lemma NothingGiven(e: Entries, cleared: int -> Measure)
    ensures GivenUp(e, {}, cleared) == e
  {
  }

  lemma IdleAfter(e: Entries, given: set<int>, cleared: int -> Measure)
    requires given <= Idle(e)
    ensures Idle(GivenUp(e, given, cleared)) == Idle(e) - given
  {
    var f := GivenUp(e, given, cleared);
    forall id ensures id in Idle(f) <==> id in Idle(e) - given {
      if id in f && id in given { assert f[id].rows == 0; }
    }
  }

  lemma LockableAfter(e: Entries, given: set<int>, cleared: int -> Measure, finishing: int, locked: set<int>)
    requires given <= Idle(e)
    ensures Lockable(GivenUp(e, given, cleared), finishing, locked) == Lockable(e, finishing, locked) - given
  {
    IdleAfter(e, given, cleared);
  }

  lemma OldestOf(e: Entries, given: set<int>, cleared: int -> Measure, finishing: int, locked: nat -> set<int>,
                 pass: nat, victim: int)
    requires LruGivenUp(e, given, finishing, locked)
    requires Oldest(GivenUp(e, given, cleared), Lockable(e, finishing, locked(pass)) - given, victim)
    ensures victim in Idle(e) - given && LruGivenUp(e, given + {victim}, finishing, locked)
  {
    var after := given + {victim};
    assert victim in Lockable(e, finishing, locked(pass)) - given;
    assert OnOtherLane(e[victim], finishing) ==> e[victim].lane !in locked(pass);
    assert after <= Idle(e);
    forall d, r | d in after && r in Idle(e) - after
      ensures Older(e, d, r) || Contended(e[r], finishing, locked)
    {
      if d == victim {
        if r in Lockable(e, finishing, locked(pass)) {
          assert r in Lockable(e, finishing, locked(pass)) - given;
          OlderBefore(e, given, cleared, victim, r);
        } else {
          assert e[r].lane in locked(pass);
          assert Contended(e[r], finishing, locked);
        }
      }
    }
    assert LruGivenUp(e, after, finishing, locked);
  }

  lemma OlderBefore(e: Entries, given: set<int>, cleared: int -> Measure, a: int, b: int)
    requires a in e && b in e && a !in given && b !in given && Older(GivenUp(e, given, cleared), a, b)
    ensures Older(e, a, b)
  {
  }

  lemma GiveOne(e: Entries, n: nat, given: set<int>, cleared: int -> Measure, victim: int)
    requires Below(e, n) && given <= Idle(e) && victim in Idle(e) - given
    ensures var f := GivenUp(e, given, cleared);
            && victim in f && f[victim] == e[victim]
            && GivenUp(e, given + {victim}, cleared) ==
               (if e[victim].lane >= 0 then f[victim := Cleared(f[victim], cleared(victim))] else f - {victim})
            && RetainedCount(GivenUp(e, given + {victim}, cleared), n) == RetainedCount(f, n) - 1
    ensures |given + {victim}| == |given| + 1 && |Idle(e) - (given + {victim})| < |Idle(e) - given|
  {
    var f := GivenUp(e, given, cleared);
    RetainedSplit(f, n, victim);
    RetainedPut(f, n, victim, Cleared(f[victim], cleared(victim)));
    assert Idle(e) - given == Idle(e) - (given + {victim}) + {victim};
  }

  lemma GivenUpTrims(e: Entries, given: set<int>, cleared: int -> Measure)
    requires given <= Idle(e) && NoGrowth(e, cleared)
    ensures Trimmed(GivenUp(e, given, cleared), e, ParkedOf(e, given))
  {
  }

  /* ---------- Empty stores and the byte target ---------- */

  function EmptyParked(e: Entries): set<int> { set id | id in e && e[id].Parked() && e[id].rows == 0 }

  // The sweep after the loop loses no history.
  lemma SweepKeepsHistories(e: Entries, n: nat)
    ensures RetainedCount(e - EmptyParked(e), n) == RetainedCount(e, n) &&
            Trimmed(e - EmptyParked(e), e, EmptyParked(e))
  {
    RetainedMonotone(e - EmptyParked(e), e, n);
    RetainedMonotone(e, e - EmptyParked(e), n);
  }

  function ByteVictims(e: Entries, waiting: set<Key>): set<int> {
    set id | id in e && e[id].Parked() && !Protected(e[id], waiting) && !e[id].cold
  }

  ghost predicate LastByteNeeded(e: Entries, n: nat, dropped: set<int>, limit: nat) {
    exists last :: last in dropped && dropped <= e.Keys && (forall d :: d in dropped ==> Older(e, d, last)) &&
                   Bytes(e - (dropped - {last}), n) > limit
  }

  /** enforce_bytes(): the shortest least-recently-used run of victims after which the target is met, or all of them. */
  method EnforceBytes(e: Entries, n: nat, waiting: set<Key>, limit: nat) returns (dropped: set<int>, left: Entries)
    requires Below(e, n)
    ensures left == e - dropped && LruDropped(e, ByteVictims(e, waiting), dropped) && Trimmed(left, e, dropped)
    ensures limit > 0 && Bytes(left, n) > limit ==> dropped == ByteVictims(e, waiting)
    ensures dropped != {} ==> limit > 0 && LastByteNeeded(e, n, dropped, limit)
  {
    dropped, left := {}, e;
    while limit > 0 && Bytes(left, n) > limit
      invariant left == e - dropped && LruDropped(e, ByteVictims(e, waiting), dropped)
      invariant dropped != {} ==> limit > 0 && LastByteNeeded(e, n, dropped, limit)
      decreases |ByteVictims(e, waiting) - dropped|
    {
      VictimsAfter(e, waiting, dropped);
      var victim := FindOldest(left, n, ByteVictims(left, waiting));
      if victim == -1 {
        assert dropped == ByteVictims(e, waiting);
        return;
      }
      DropOne(e, n, waiting, dropped, victim, limit);
      left := left - {victim};
      dropped := dropped + {victim};
    }
  }

  lemma VictimsAfter(e: Entries, waiting: set<Key>, dropped: set<int>)
    ensures ByteVictims(e - dropped, waiting) == ByteVictims(e, waiting) - dropped
  {
  }

  lemma DropOne(e: Entries, n: nat, waiting: set<Key>, dropped: set<int>, victim: int, limit: nat)
    requires LruDropped(e, ByteVictims(e, waiting), dropped) && Bytes(e - dropped, n) > limit
    requires Oldest(e - dropped, ByteVictims(e, waiting) - dropped, victim)
    ensures LruDropped(e, ByteVictims(e, waiting), dropped + {victim}) &&
            LastByteNeeded(e, n, dropped + {victim}, limit)
    ensures e - dropped - {victim} == e - (dropped + {victim})
    ensures |ByteVictims(e, waiting) - (dropped + {victim})| < |ByteVictims(e, waiting) - dropped|
  {
    LruGrows(e, ByteVictims(e, waiting), dropped, victim);
    assert ByteVictims(e, waiting) - dropped == ByteVictims(e, waiting) - (dropped + {victim}) + {victim};
    assert dropped + {victim} - {victim} == dropped;
    forall d | d in dropped + {victim} ensures Older(e, d, victim) {}
  }

  function Excess(e: Entries, n: nat, inactiveLimit: bool, maxStores: nat): int {
    if inactiveLimit && RetainedCount(e, n) > maxStores then RetainedCount(e, n) - maxStores else 0
  }

  // The stores once the histories in given and then, unless enforcement throws, the empty ones have gone.
  function Swept(e: Entries, given: set<int>, cleared: int -> Measure, inactiveLimit: bool, throws: bool): Entries {
    var kept := GivenUp(e, given, cleared);
    if inactiveLimit && !throws then kept - EmptyParked(kept) else kept
  }

  /** What enforcement gives up: as many histories as are over the limit and then only the stores the byte target
      needs, in both cases the least recently used ones. */
  ghost predicate InLruOrder(e: Entries, n: nat, waiting: set<Key>, inactiveLimit: bool, maxStores: nat, bytesMax: nat,
                             finishing: int, locked: nat -> set<int>, cleared: int -> Measure,
                             throws: bool, given: set<int>, dropped: set<int>, left: Entries)
  {
    var swept := Swept(e, given, cleared, inactiveLimit, throws);
    && LruGivenUp(e, given, finishing, locked)
    && (!throws ==> |given| == Excess(e, n, inactiveLimit, maxStores))
    && LruDropped(swept, ByteVictims(swept, waiting), dropped)
    && (dropped != {} ==> !throws && bytesMax > 0 && LastByteNeeded(swept, n, dropped, bytesMax))
    && (!throws && bytesMax > 0 && Bytes(left, n) > bytesMax ==> dropped == ByteVictims(swept, waiting))
    && left == swept - dropped
  }

  /** In the terms of the entries: histories go only from stores that nobody uses, and from another lane only if its
      lock was free when it was tried; of two stores the older goes first unless its lane was in use. All else that goes
      is a parked store that was empty or that the byte target took. */
  lemma HistoryRules(e: Entries, n: nat, waiting: set<Key>, inactiveLimit: bool, maxStores: nat, bytesMax: nat,
                     finishing: int, locked: nat -> set<int>, cleared: int -> Measure,
                     throws: bool, given: set<int>, dropped: set<int>, left: Entries)
    requires InLruOrder(e, n, waiting, inactiveLimit, maxStores, bytesMax, finishing, locked, cleared, throws, given,
                        dropped, left)
    ensures forall id :: id in given ==> id in e && !e[id].busy && !e[id].switching && e[id].rows > 0
    ensures forall d ::
              d in given && e[d].lane >= 0 && e[d].lane != finishing ==> exists k: nat :: e[d].lane !in locked(k)
    ensures forall d, r ::
              d in given && r in e && r !in given && !e[r].busy && !e[r].switching && e[r].rows > 0 ==>
                Older(e, d, r) ||
                (e[r].lane >= 0 && e[r].lane != finishing && exists k: nat :: e[r].lane in locked(k))
    ensures forall id ::
              id in e && id !in left ==>
                && e[id].lane < 0
                && (id in given || id in dropped ||
                    (inactiveLimit && !throws && !e[id].busy && !e[id].switching && e[id].rows == 0))
    ensures inactiveLimit && !throws ==>
              forall id ::
                id in left && left[id].lane < 0 && !left[id].busy && !left[id].switching ==> left[id].rows > 0
  {
    hide LastByteNeeded, Excess, Bytes;
  }

  /** The byte target takes parked stores that have not been spilled and that nobody pins or waits for, the older first,
      all of them if it is not met, and none after it is. */
  lemma ByteRules(e: Entries, n: nat, waiting: set<Key>, inactiveLimit: bool, maxStores: nat, bytesMax: nat,
                  finishing: int, locked: nat -> set<int>, cleared: int -> Measure,
                  throws: bool, given: set<int>, dropped: set<int>, left: Entries)
    requires InLruOrder(e, n, waiting, inactiveLimit, maxStores, bytesMax, finishing, locked, cleared, throws, given,
                        dropped, left)
    ensures forall id ::
              id in dropped ==>
                && id in e && id !in given && e[id].lane < 0 && !e[id].busy && !e[id].switching
                && Unwanted(e[id], waiting) && !e[id].cold
    ensures forall d, r ::
              && d in dropped && r in left && left[r].lane < 0 && !left[r].busy && !left[r].switching
              && Unwanted(left[r], waiting) && !left[r].cold
              ==> d in e && Older(e, d, r)
    ensures !throws && bytesMax > 0 && Bytes(left, n) > bytesMax ==>
              forall r ::
                && r in left && left[r].lane < 0 && !left[r].busy && !left[r].switching && Unwanted(left[r], waiting)
                ==> left[r].cold
    ensures dropped != {} ==>
              exists last ::
                && last in dropped && last in e && (forall d :: d in dropped ==> d in e && Older(e, d, last))
                && bytesMax > 0 && Bytes(left, n) + (if 0 <= last < n then e[last].bytes else 0) > bytesMax
  {
    hide LastByteNeeded, Excess, Bytes, LruGivenUp;
    var swept := Swept(e, given, cleared, inactiveLimit, throws);
    if dropped != {} { LastOverTarget(swept, e, n, dropped, bytesMax); }
    forall d, r |
      && d in dropped && r in left && left[r].lane < 0 && !left[r].busy && !left[r].switching
      && Unwanted(left[r], waiting) && !left[r].cold
      ensures d in e && Older(e, d, r)
    {
      assert r in ByteVictims(swept, waiting) - dropped && Older(swept, d, r);
    }
    assert forall r ::
        r in left && left[r].Parked() && Unwanted(left[r], waiting) && !left[r].cold ==>
          r in ByteVictims(swept, waiting);
  }

  lemma LastOverTarget(swept: Entries, e: Entries, n: nat, dropped: set<int>, limit: nat)
    requires LastByteNeeded(swept, n, dropped, limit)
    requires forall d ::
               d in dropped && d in swept ==> d in e && swept[d].used == e[d].used && swept[d].bytes == e[d].bytes
    ensures exists last ::
              && last in dropped && last in e && (forall d :: d in dropped ==> d in e && Older(e, d, last))
              && Bytes(swept - dropped, n) + (if 0 <= last < n then e[last].bytes else 0) > limit
  {
    hide Bytes;
    var last :| last in dropped && dropped <= swept.Keys && (forall d :: d in dropped ==> Older(swept, d, last)) &&
    Bytes(swept - (dropped - {last}), n) > limit;
    BytesSplit(swept - (dropped - {last}), n, last);
    assert swept - (dropped - {last}) - {last} == swept - dropped;
  }

  // What enforcement leaves of a store: a history given up on a lane is cleared, and the rest is as it was.
  lemma LeftEntry(e: Entries, n: nat, waiting: set<Key>, inactiveLimit: bool, maxStores: nat, bytesMax: nat,
                  finishing: int, locked: nat -> set<int>, cleared: int -> Measure,
                  throws: bool, given: set<int>, dropped: set<int>, left: Entries, id: int)
    requires InLruOrder(e, n, waiting, inactiveLimit, maxStores, bytesMax, finishing, locked, cleared, throws, given,
                        dropped, left)
    requires id in left
    ensures id in e && id !in dropped && (id in given ==> e[id].lane >= 0)
    ensures left[id] == if id in given then
                          e[id].(rows := 0, client := NoKey, bytes := cleared(id).bytes, native := cleared(id).native)
                        else e[id]
  {
    hide LruGivenUp, LruDropped, LastByteNeeded, ByteVictims, Excess, Bytes;
  }

  // The two loops and the sweep between them, one after the other.
  lemma Ordered(e: Entries, n: nat, waiting: set<Key>, inactiveLimit: bool, maxStores: nat, bytesMax: nat,
                finishing: int, locked: nat -> set<int>, cleared: int -> Measure,
                throws: bool, given: set<int>, dropped: set<int>, swept: Entries, left: Entries)
    requires LruGivenUp(e, given, finishing, locked)
    requires !throws ==> |given| == Excess(e, n, inactiveLimit, maxStores)
    requires swept == Swept(e, given, cleared, inactiveLimit, throws)
    requires LruDropped(swept, ByteVictims(swept, waiting), dropped)
    requires dropped != {} ==> !throws && bytesMax > 0 && LastByteNeeded(swept, n, dropped, bytesMax)
    requires !throws && bytesMax > 0 && Bytes(left, n) > bytesMax ==> dropped == ByteVictims(swept, waiting)
    requires left == swept - dropped
    ensures InLruOrder(e, n, waiting, inactiveLimit, maxStores, bytesMax, finishing, locked, cleared, throws, given,
                       dropped, left)
  {
    hide Swept, LruGivenUp, LruDropped, LastByteNeeded, ByteVictims, Excess, Bytes;
  }

  /** The end of finish(): the displaced store is looked up, and if it is there both loops and the sweep between
      them run. */
  method Enforce(e: Entries, n: nat, waiting: set<Key>, inactiveLimit: bool, maxStores: nat, bytesMax: nat,
                 outgoing: int, finishing: int, locked: nat -> set<int>, cleared: int -> Measure)
    returns (throws: bool, gone: set<int>, left: Entries, ghost given: set<int>, ghost dropped: set<int>)
    requires Below(e, n) && NoGrowth(e, cleared)
    ensures InLruOrder(e, n, waiting, inactiveLimit, maxStores, bytesMax, finishing, locked, cleared, throws, given,
                       dropped, left)
    ensures Trimmed(left, e, gone) && (outgoing !in e ==> throws && gone == given == dropped == {} && left == e)
    ensures throws <==> outgoing !in e || (inactiveLimit && RetainedCount(left, n) > maxStores)
    ensures throws ==> outgoing !in e || exists k: nat :: AllInUse(left, finishing, locked(k))
    ensures !throws && bytesMax > 0 ==> Bytes(left, n) <= bytesMax || ByteVictims(left, waiting) == {}
  {
    hide RetainedCount, Bytes, Idle, GivenUp, LruGivenUp, LruDropped, LastByteNeeded, ByteVictims, Trimmed, NoGrowth,
        EmptyParked, ParkedOf, InLruOrder, AllInUse;
    throws, gone, left, given, dropped := outgoing !in e, {}, e, {}, {};
    NothingGiven(e, cleared);
    NothingDropped(e, waiting, finishing, locked);
    if throws {
      Ordered(e, n, waiting, inactiveLimit, maxStores, bytesMax, finishing, locked, cleared, throws, {}, {}, e, e);
      return;
    }
    if inactiveLimit {
      throws, gone, left, given := EnforceThenSweep(e, n, maxStores, finishing, locked, cleared);
      if throws {
        NothingDropped(left, waiting, finishing, locked);
        Ordered(e, n, waiting, inactiveLimit, maxStores, bytesMax, finishing, locked, cleared, throws, given, {}, left,
                left);
        return;
      }
    }
    ghost var swept := left;
    TrimmedBelow(left, e, gone, n);
    var victims, rest := EnforceBytes(left, n, waiting, bytesMax);
    VictimsAfter(left, waiting, victims);
    TrimmedTwice(rest, left, e, gone, victims);
    FewerRetained(left, victims, n);
    gone, left, dropped := gone + victims, rest, victims;
    Ordered(e, n, waiting, inactiveLimit, maxStores, bytesMax, finishing, locked, cleared, throws, given, dropped,
            swept, left);
  }

  // enforce_sessions() with the limit on inactive histories set: the loop and the sweep.
  method EnforceThenSweep(e: Entries, n: nat, maxStores: nat, finishing: int, locked: nat -> set<int>,
                          cleared: int -> Measure)
    returns (throws: bool, gone: set<int>, left: Entries, ghost given: set<int>)
    requires Below(e, n) && NoGrowth(e, cleared)
    ensures LruGivenUp(e, given, finishing, locked) && left == Swept(e, given, cleared, true, throws)
    ensures !throws ==> |given| == Excess(e, n, true, maxStores)
    ensures throws <==> RetainedCount(left, n) > maxStores
    ensures throws ==> exists k: nat :: AllInUse(left, finishing, locked(k))
    ensures Trimmed(left, e, gone)
  {
    hide RetainedCount, Idle, GivenUp, LruGivenUp, Trimmed, NoGrowth, EmptyParked, ParkedOf, AllInUse;
    var ok, histories;
    ghost var passes;
    ok, histories, left, passes := EnforceSessions(e, n, maxStores, finishing, locked, cleared);
    throws, gone, given := !ok, ParkedOf(e, histories), histories;
    if throws { return; }
    SweepKeepsHistories(left, n);
    TrimmedTwice(left - EmptyParked(left), left, e, gone, EmptyParked(left));
    gone, left := gone + EmptyParked(left), left - EmptyParked(left);
  }

  lemma FewerRetained(e: Entries, dropped: set<int>, n: nat)
    ensures RetainedCount(e - dropped, n) <= RetainedCount(e, n)
  {
    RetainedMonotone(e - dropped, e, n);
  }

  lemma NothingDropped(e: Entries, waiting: set<Key>, finishing: int, locked: nat -> set<int>)
    ensures LruGivenUp(e, {}, finishing, locked) && LruDropped(e, ByteVictims(e, waiting), {}) && e - {} == e &&
            Trimmed(e, e, {})
  {
  }

  /* ---------- Making room for a reservation ---------- */

  // What is charged beside the owner once these stores have been given up.
  function Beside(e: Entries, n: nat, dropped: set<int>, owner: int, outgoing: int): nat {
    Charged(Reclaim(e, dropped, outgoing) - {owner}, n)
  }

  // The loop of reserve_payload().
  method MakeRoom(e: Entries, n: nat, waiting: set<Key>, owner: int, outgoing: int, reservation: nat, budget: nat)
    returns (ok: bool, dropped: set<int>, left: Entries)
    requires Below(e, n) && owner in e
    ensures left == Reclaim(e, dropped, outgoing) && owner in left && left[owner] == e[owner]
    ensures LruDropped(e, Reclaimable(e, waiting, owner), dropped)
    ensures ok <==> Beside(e, n, Reclaimable(e, waiting, owner), owner, outgoing) + reservation <= budget
    ensures ok ==> Beside(e, n, dropped, owner, outgoing) + reservation <= budget
    ensures !ok ==> dropped == Reclaimable(e, waiting, owner)
    ensures dropped != {} ==> LastOneNeeded(e, n, dropped, owner, outgoing, reservation, budget)
    // So it succeeds exactly if the reservation fits without any of the stores it may take.
    ensures ParkedUnreserved(e) ==>
              (ok <==> Charged(e - Reclaimable(e, waiting, owner) - {owner}, n) + reservation <= budget)
  {
    hide ParkedUnreserved, Charged, Reclaim, Reclaimable, LruDropped, LastOneNeeded, Oldest;
    ghost var candidates := Reclaimable(e, waiting, owner);
    left, dropped, ok := e, {}, true;
    StartReclaim(e, candidates, outgoing);
    ReclaimableKnown(e, waiting, owner);
    while Charged(left - {owner}, n) + reservation > budget
      invariant LruDropped(e, candidates, dropped) && left == Reclaim(e, dropped, outgoing)
      invariant dropped != {} ==> LastOneNeeded(e, n, dropped, owner, outgoing, reservation, budget)
      decreases |candidates - dropped|
    {
      ReclaimableAfter(e, waiting, dropped, outgoing, owner, n);
      var victim := FindOldest(left, n, Reclaimable(left, waiting, owner));
      if victim == -1 {
        AllDropped(e, candidates, dropped);
        ok := false;
        break;
      }
      OldestAfter(e, candidates, dropped, outgoing, victim);
      TakeOne(e, n, candidates, dropped, outgoing, owner, victim, reservation, budget);
      dropped := dropped + {victim};
      left := if victim == outgoing then left[victim := Emptied(left[victim])] else left - {victim};
    }
    OwnerStays(e, candidates, dropped, owner, outgoing);
    CheaperWithout(e, n, candidates, dropped, owner, outgoing);
    RoomWithout(e, n, waiting, owner, outgoing);
  }

  predicate ParkedUnreserved(e: Entries) { forall id :: id in e && e[id].Parked() ==> e[id].reserved == 0 }

  // The stores the reservation loop may take.
  function Reclaimable(e: Entries, waiting: set<Key>, owner: int): set<int> {
    set id | id in e && id != owner && e[id].Parked() && !Protected(e[id], waiting) &&
    (e[id].native > 0 || e[id].attachment > 0)
  }

  function Emptied(x: Entry): Entry {
    x.(rows := 0, client := NoKey, native := 0, attachment := 0, bytes := 0, cold := false)
  }

  // The displaced store keeps an empty node; the others go.
  function Reclaim(e: Entries, dropped: set<int>, outgoing: int): Entries {
    var kept := e - (dropped - {outgoing});
    if outgoing in dropped && outgoing in kept then kept[outgoing := Emptied(kept[outgoing])] else kept
  }

  function Reserved(e: Entries, owner: int, reservation: nat): Entries
    requires owner in e
  {
    e[owner := e[owner].(reserved := reservation)]
  }

  // Before the most recently used of the dropped stores went, the reservation did not fit.
  ghost predicate LastOneNeeded(e: Entries, n: nat, dropped: set<int>, owner: int, outgoing: int, reservation: nat,
                                budget: nat) {
    exists last :: last in dropped && NewestOf(e, dropped, last) &&
                   Beside(e, n, dropped - {last}, owner, outgoing) + reservation > budget
  }

  predicate NewestOf(e: Entries, ids: set<int>, last: int) {
    ids <= e.Keys && last in ids && forall d :: d in ids ==> Older(e, d, last)
  }

  // What the drop leaves is charged as if everything dropped were gone.
  lemma ReclaimCharged(e: Entries, n: nat, dropped: set<int>, outgoing: int, owner: int)
    requires outgoing in dropped && outgoing in e ==> e[outgoing].reserved == 0
    requires owner !in dropped
    ensures Charged(Reclaim(e, dropped, outgoing) - {owner}, n) == Charged(e - dropped - {owner}, n)
  {
    var left := Reclaim(e, dropped, outgoing) - {owner};
    if outgoing in dropped && outgoing in e {
      ChargedSplit(left, n, outgoing);
      assert left - {outgoing} == e - dropped - {owner};
    } else {
      assert left == e - dropped - {owner};
    }
  }

  lemma StartReclaim(e: Entries, candidates: set<int>, outgoing: int)
    ensures Reclaim(e, {}, outgoing) == e && (candidates <= e.Keys ==> LruDropped(e, candidates, {}))
  {
  }

  lemma ReclaimableKnown(e: Entries, waiting: set<Key>, owner: int)
    ensures Reclaimable(e, waiting, owner) <= e.Keys && owner !in Reclaimable(e, waiting, owner)
  {
  }

  lemma UnreservedOutgoing(e: Entries, waiting: set<Key>, owner: int, outgoing: int)
    requires ParkedUnreserved(e)
    ensures outgoing in Reclaimable(e, waiting, owner) ==> e[outgoing].reserved == 0
  {
  }

  lemma RoomWithout(e: Entries, n: nat, waiting: set<Key>, owner: int, outgoing: int)
    ensures ParkedUnreserved(e) ==> var all := Reclaimable(e, waiting, owner);
            Beside(e, n, all, owner, outgoing) == Charged(e - all - {owner}, n)
  {
    if ParkedUnreserved(e) {
      UnreservedOutgoing(e, waiting, owner, outgoing);
      ReclaimableKnown(e, waiting, owner);
      hide Reclaimable, ParkedUnreserved;
      ReclaimCharged(e, n, Reclaimable(e, waiting, owner), outgoing, owner);
    }
  }

  lemma ReclaimableAfter(e: Entries, waiting: set<Key>, dropped: set<int>, outgoing: int, owner: int, n: nat)
    requires LruDropped(e, Reclaimable(e, waiting, owner), dropped) && Below(e, n)
    ensures var r := Reclaim(e, dropped, outgoing);
            && Reclaimable(r, waiting, owner) == Reclaimable(e, waiting, owner) - dropped
            && Below(r, n) && Reclaimable(r, waiting, owner) <= r.Keys
  {
  }

  lemma AllDropped(e: Entries, candidates: set<int>, dropped: set<int>)
    requires LruDropped(e, candidates, dropped) && candidates - dropped == {}
    ensures dropped == candidates
  {
    assert forall c :: c in candidates - dropped <==> c in candidates && c !in dropped;
  }

  lemma OwnerStays(e: Entries, candidates: set<int>, dropped: set<int>, owner: int, outgoing: int)
    requires LruDropped(e, candidates, dropped) && owner in e && owner !in candidates
    ensures var r := Reclaim(e, dropped, outgoing); owner in r && r[owner] == e[owner]
  {
  }

  // The more is given up, the less is charged.
  lemma CheaperWithout(e: Entries, n: nat, candidates: set<int>, dropped: set<int>, owner: int, outgoing: int)
    requires LruDropped(e, candidates, dropped)
    ensures Beside(e, n, candidates, owner, outgoing) <= Beside(e, n, dropped, owner, outgoing)
  {
    hide Charged;
    ChargedMonotone(Reclaim(e, candidates, outgoing) - {owner}, Reclaim(e, dropped, outgoing) - {owner}, n);
  }

  lemma OldestAfter(e: Entries, candidates: set<int>, dropped: set<int>, outgoing: int, victim: int)
    requires LruDropped(e, candidates, dropped) && Oldest(Reclaim(e, dropped, outgoing), candidates - dropped, victim)
    ensures Oldest(e, candidates - dropped, victim)
  {
  }

  lemma TakeOne(e: Entries, n: nat, candidates: set<int>, dropped: set<int>, outgoing: int, owner: int, victim: int,
                reservation: nat, budget: nat)
    requires LruDropped(e, candidates, dropped) && Oldest(e, candidates - dropped, victim)
    requires Beside(e, n, dropped, owner, outgoing) + reservation > budget
    ensures LruDropped(e, candidates, dropped + {victim}) &&
            |candidates - (dropped + {victim})| < |candidates - dropped|
    ensures LastOneNeeded(e, n, dropped + {victim}, owner, outgoing, reservation, budget)
    ensures victim in Reclaim(e, dropped, outgoing)
    ensures Reclaim(e, dropped + {victim}, outgoing) ==
            var r := Reclaim(e, dropped, outgoing);
            if victim == outgoing then r[victim := Emptied(r[victim])] else r - {victim}
  {
    TakeNext(e, candidates, dropped, outgoing, victim);
    LruGrows(e, candidates, dropped, victim);
    hide Reclaim;
    assert candidates - dropped == candidates - (dropped + {victim}) + {victim};
    assert dropped + {victim} - {victim} == dropped;
    assert NewestOf(e, dropped + {victim}, victim);
  }

  lemma TakeNext(e: Entries, candidates: set<int>, dropped: set<int>, outgoing: int, victim: int)
    requires Oldest(e, candidates - dropped, victim)
    ensures victim in Reclaim(e, dropped, outgoing)
    ensures Reclaim(e, dropped + {victim}, outgoing) ==
            var r := Reclaim(e, dropped, outgoing);
            if victim == outgoing then r[victim := Emptied(r[victim])] else r - {victim}
  {
  }

  // The outcome of a reservation: it fails only when giving up every candidate would not make room, and it gives up
  // candidates in order, no more of them than it needs.
  ghost predicate MadeRoom(e: Entries, n: nat, waiting: set<Key>, owner: int, outgoing: int, required: nat,
                           budget: nat, ok: bool, dropped: set<int>) {
    owner in e &&
    (var reservation, all := Larger(required, e[owner].native), Reclaimable(e, waiting, owner);
     && (ok <==> Beside(e, n, all, owner, outgoing) + reservation <= budget)
     && LruDropped(e, all, dropped)
     && (ok ==> Beside(e, n, dropped, owner, outgoing) + reservation <= budget)
     && (!ok ==> dropped == all)
     && (dropped != {} ==> LastOneNeeded(e, n, dropped, owner, outgoing, reservation, budget)))
  }

  /** In the terms of the entries: the stores given up are parked ones with a charge, other than the owner, that nobody
      pins or waits for; and when even that makes no room, every such store has been given up. */
  lemma MadeRoomRules(e: Entries, n: nat, waiting: set<Key>, owner: int, outgoing: int, required: nat, budget: nat,
                      ok: bool, dropped: set<int>)
    requires MadeRoom(e, n, waiting, owner, outgoing, required, budget, ok, dropped)
    ensures forall id ::
              id in dropped ==>
                && id in e && id != owner && e[id].lane < 0 && !e[id].busy && !e[id].switching
                && Unwanted(e[id], waiting) && e[id].native + e[id].attachment > 0
    ensures !ok ==>
              forall id ::
                && id in e && id != owner && e[id].lane < 0 && !e[id].busy && !e[id].switching
                && Unwanted(e[id], waiting) && e[id].native + e[id].attachment > 0
                ==> id in dropped
    // Least recently used first, and no more than it takes.
    ensures forall d, r ::
              && d in dropped && r in e && r !in dropped && r != owner && e[r].lane < 0 && !e[r].busy
              && !e[r].switching && Unwanted(e[r], waiting) && e[r].native + e[r].attachment > 0
              ==> Older(e, d, r)
  {
    hide Beside, LastOneNeeded, Older;
    assert forall id ::
        id in e && id != owner && e[id].Parked() && Unwanted(e[id], waiting) && e[id].native + e[id].attachment > 0 ==>
          id in Reclaimable(e, waiting, owner);
  }
}
