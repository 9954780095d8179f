/**
 The lane pool of tools/kvmem-lane-pool.h: who may take a lane, and in what order.

 Every method is what the source does while it holds the pool's mutex; acquire() and wait_turn()
 are one pass of their loops. Tickets are numbered as they are enqueued. The select callbacks are
 parameters: what the request's own callback says first, what each waiting request's callback
 says when it is asked, and what the request's says when it reserves, which may differ because
 other locks guard what it reads.
 */
module LanePool {
  import opened StoreAccounting

  datatype Outcome = Granted(lane: nat) | Cancelled | Prepare | Wait

  // The queue without a ticket; a ticket that is not queued leaves it as it is.
  function Without(waiting: seq<nat>, t: nat): seq<nat> {
    if waiting == [] then [] else if waiting[0] == t then waiting[1..] else [waiting[0]] + Without(waiting[1..], t)
  }

  predicate Increasing(s: seq<nat>) { forall i, j :: 0 <= i < j < |s| ==> s[i] < s[j] }

  lemma {:induction false} WithoutMembers(s: seq<nat>, t: nat)
    requires Increasing(s)
    ensures forall x :: x in Without(s, t) <==> x in s && x != t
  {
    if s != [] {
      WithoutMembers(s[1..], t);
      assert forall i :: 0 < i < |s| ==> s[0] < s[i];
      forall x ensures x in Without(s, t) <==> x in s && x != t {
        assert x in s <==> x == s[0] || x in s[1..];
        assert s[0] !in s[1..];
      }
    }
  }

  lemma {:induction false} WithoutKeepsOrder(s: seq<nat>, t: nat)
    requires Increasing(s)
    ensures Increasing(Without(s, t)) && forall x :: x in Without(s, t) <==> x in s && x != t
  {
    WithoutMembers(s, t);
    if s != [] && s[0] != t {
      var rest := Without(s[1..], t);
      WithoutKeepsOrder(s[1..], t);
      forall i | 0 <= i < |rest| ensures s[0] < rest[i] {
        assert rest[i] in s[1..];
      }
    }
  }

  lemma {:induction false} WithoutAt(s: seq<nat>, i: nat, t: nat)
    requires i <= |s| && (forall j :: 0 <= j < i ==> s[j] != t) && (i < |s| ==> s[i] == t)
    ensures Without(s, t) == if i < |s| then s[..i] + s[i + 1..] else s
  {
    hide Without;
    WithoutFirst(s, t);
    if i == 0 {
      assert s != [] ==> s[..0] + s[1..] == s[1..];
    } else {
      WithoutAt(s[1..], i - 1, t);
      if i < |s| { MoveFirst(s, i); } else { assert s == [s[0]] + s[1..]; }
    }
  }

  lemma WithoutFirst(s: seq<nat>, t: nat)
    ensures Without(s, t) ==
            if s == [] then [] else if s[0] == t then s[1..] else [s[0]] + Without(s[1..], t)
  {
  }

  lemma MoveFirst(s: seq<nat>, i: nat)
    requires 0 < i < |s|
    ensures s[..i] + s[i + 1..] == [s[0]] + (s[1..][..i - 1] + s[1..][i..])
  {
    assert s[..i] == [s[0]] + s[1..][..i - 1] && s[i + 1..] == s[1..][i..];
  }

  predicate SameGroup(keyOf: map<nat, Key>, a: nat, b: nat) {
    a in keyOf && b in keyOf && keyOf[a] == keyOf[b] != NoKey
  }

  // Nobody with this request's key is on a lane or ahead of it in the queue. A request that has left the queue has
  // everybody ahead of it.
  predicate Unblocked(keys: seq<Key>, waiting: seq<nat>, keyOf: map<nat, Key>, t: nat) {
    t in keyOf && (keyOf[t] != NoKey ==>
      && keyOf[t] !in keys
      && forall i :: 0 <= i < |waiting| && SameGroup(keyOf, waiting[i], t) ==> t in waiting && t <= waiting[i])
  }

  /** The pool, with which ticket holds each lane and every grant so far. */
  datatype Pool = Pool(busy: seq<bool>, keys: seq<Key>, waiting: seq<nat>, tickets: nat, keyOf: map<nat, Key>,
                       holder: map<nat, nat>, granted: seq<nat>)
  {
    ghost predicate Queued() {
      && Increasing(waiting) && (forall t :: t in keyOf <==> 0 <= t < tickets)
      && (forall i :: 0 <= i < |waiting| ==> waiting[i] in keyOf && waiting[i] !in granted)
      && (forall i :: 0 <= i < |granted| ==> granted[i] in keyOf)
    }

    // A lane is marked busy, with the key of its request, exactly while its lease is unreleased.
    predicate Leased() {
      && |busy| > 0 && |keys| == |busy|
      && (forall l :: l in holder ==> l < |busy| && holder[l] in granted && holder[l] in keyOf)
      && (forall l ::
            0 <= l < |busy| ==>
              && (busy[l] <==> l in holder)
              && keys[l] == if l in holder && holder[l] in keyOf then keyOf[holder[l]] else NoKey)
    }

    // One lane per key, and each key's requests in the order they were enqueued.
    predicate InOrder() {
      && (forall a, b :: a in holder && b in holder && SameGroup(keyOf, holder[a], holder[b]) ==> a == b)
      && (forall i, j :: 0 <= i < j < |granted| && SameGroup(keyOf, granted[i], granted[j]) ==> granted[i] < granted[j])
      && (forall i, j ::
            0 <= i < |granted| && 0 <= j < |waiting| && SameGroup(keyOf, granted[i], waiting[j]) ==>
              granted[i] < waiting[j])
    }

    ghost predicate Valid() { Queued() && Leased() && InOrder() }

    function Grant(lane: nat, t: nat): Pool
      requires lane < |busy| == |keys| && t in keyOf
    {
      Pool(busy[lane := true], keys[lane := keyOf[t]], Without(waiting, t), tickets, keyOf, holder[lane := t],
           granted + [t])
    }

    function Freed(lane: nat): Pool
      requires lane < |busy| == |keys|
    {
      this.(busy := busy[lane := false], keys := keys[lane := NoKey], holder := holder - {lane})
    }
  }

  function Enqueued(p: Pool, key: Key): Pool {
    p.(waiting := p.waiting + [p.tickets], tickets := p.tickets + 1, keyOf := p.keyOf[p.tickets := key])
  }

  lemma EnqueueKeeps(p: Pool, key: Key)
    requires p.Valid()
    ensures Enqueued(p, key).Valid()
  {
    assert p.tickets !in p.keyOf;
    assert forall i :: 0 <= i < |p.granted| ==> p.granted[i] != p.tickets;
    EnqueueKeepsLeases(p, key);
    EnqueueKeepsOrder(p, key);
  }

  lemma EnqueueKeepsLeases(p: Pool, key: Key)
    requires p.Leased() && p.tickets !in p.keyOf
    ensures Enqueued(p, key).Leased()
  {
  }

  lemma EnqueueKeepsOrder(p: Pool, key: Key)
    requires p.Valid()
    ensures Enqueued(p, key).InOrder()
  {
    forall a | a in p.holder ensures p.holder[a] != p.tickets {}
  }

  lemma EraseKeeps(p: Pool, t: nat)
    requires p.Valid()
    ensures p.(waiting := Without(p.waiting, t)).Valid()
  {
    WithoutKeepsOrder(p.waiting, t);
    hide Without;
    var rest := Without(p.waiting, t);
    forall i | 0 <= i < |rest| ensures exists k :: 0 <= k < |p.waiting| && p.waiting[k] == rest[i] {
      assert rest[i] in rest;
    }
  }

  /** Granting a lane to an unblocked request keeps the order: it shares its key with no lane, and every request of
      its key that is still waiting was enqueued later. */
  lemma GrantKeeps(p: Pool, lane: nat, t: nat)
    requires p.Valid() && t in p.waiting && t in p.keyOf && Unblocked(p.keys, p.waiting, p.keyOf, t)
    requires lane < |p.busy| && !p.busy[lane]
    ensures p.Grant(lane, t).Valid()
  {
    GrantKeepsQueue(p, t);
    GrantKeepsLeases(p, lane, t);
    GrantKeepsOrder(p, lane, t);
  }

  lemma GrantKeepsQueue(p: Pool, t: nat)
    requires p.Queued() && t in p.waiting && t in p.keyOf
    ensures p.(waiting := Without(p.waiting, t), granted := p.granted + [t]).Queued()
  {
    WithoutKeepsOrder(p.waiting, t);
    hide Without;
    var rest := Without(p.waiting, t);
    forall i | 0 <= i < |rest| ensures rest[i] in p.keyOf && rest[i] !in p.granted + [t] { assert rest[i] in rest; }
  }

  lemma GrantKeepsLeases(p: Pool, lane: nat, t: nat)
    requires p.Leased() && t in p.keyOf && lane < |p.busy| && !p.busy[lane]
    ensures p.Grant(lane, t).Leased()
  {
    hide Without;
    forall l | l in p.holder ensures p.holder[l] in p.granted + [t] {}
  }

  lemma GrantKeepsOrder(p: Pool, lane: nat, t: nat)
    requires p.Valid() && t in p.waiting && t in p.keyOf && Unblocked(p.keys, p.waiting, p.keyOf, t)
    requires lane < |p.busy| && !p.busy[lane]
    ensures p.Grant(lane, t).InOrder()
  {
    GrantIsAlone(p, t);
    GrantIsNext(p, t);
    WithoutKeepsOrder(p.waiting, t);
    hide Without, Unblocked;
    var rest := Without(p.waiting, t);
    forall i, j | 0 <= i < |p.granted| && 0 <= j < |rest| && SameGroup(p.keyOf, p.granted[i], rest[j])
      ensures p.granted[i] < rest[j]
    {
      assert rest[j] in rest;
    }
    forall j | 0 <= j < |rest| && SameGroup(p.keyOf, t, rest[j]) ensures t < rest[j] { assert rest[j] in rest; }
  }

  /** A request is held up exactly by its key: by a request of that key that holds a lane or waits ahead of it, or, once
      it has left the queue, by any that waits. */
  lemma UnblockedIff(p: Pool, t: nat)
    requires p.Queued() && p.Leased() && t in p.keyOf
    ensures Unblocked(p.keys, p.waiting, p.keyOf, t) <==>
              && (forall l :: l in p.holder ==> !SameGroup(p.keyOf, p.holder[l], t))
              && forall w :: w in p.waiting && SameGroup(p.keyOf, w, t) ==> t in p.waiting && t <= w
  {
    if Unblocked(p.keys, p.waiting, p.keyOf, t) {
      GrantIsAlone(p, t);
    } else if p.keyOf[t] in p.keys {
      var l :| 0 <= l < |p.keys| && p.keys[l] == p.keyOf[t];
      assert l in p.holder && SameGroup(p.keyOf, p.holder[l], t);
    }
  }

  lemma GrantIsAlone(p: Pool, t: nat)
    requires p.Leased() && Unblocked(p.keys, p.waiting, p.keyOf, t)
    ensures forall l :: l in p.holder ==> !SameGroup(p.keyOf, p.holder[l], t)
  {
    forall l | l in p.holder ensures !SameGroup(p.keyOf, p.holder[l], t) { assert p.keys[l] in p.keys; }
  }

  lemma GrantIsNext(p: Pool, t: nat)
    requires p.Queued() && p.InOrder() && t in p.waiting && Unblocked(p.keys, p.waiting, p.keyOf, t)
    ensures forall w :: w in p.waiting && w != t && SameGroup(p.keyOf, t, w) ==> t < w
    ensures forall i :: 0 <= i < |p.granted| && SameGroup(p.keyOf, p.granted[i], t) ==> p.granted[i] < t
  {
    forall w | w in p.waiting && w != t && SameGroup(p.keyOf, t, w) ensures t < w {
      var i :| 0 <= i < |p.waiting| && p.waiting[i] == w;
      assert SameGroup(p.keyOf, p.waiting[i], t);
    }
    var k :| 0 <= k < |p.waiting| && p.waiting[k] == t;
    forall i | 0 <= i < |p.granted| && SameGroup(p.keyOf, p.granted[i], t) ensures p.granted[i] < t {
      assert SameGroup(p.keyOf, p.granted[i], p.waiting[k]);
    }
  }

  lemma ReleaseKeeps(p: Pool, lane: nat)
    requires p.Valid() && lane in p.holder
    ensures lane < |p.busy| && p.Freed(lane).Valid()
  {
  }

  /* ---------- Runs ---------- */

  datatype Action = Enqueue(key: Key) | Erase(t: nat) | Grant(lane: nat, t: nat) | Release(lane: nat)

  predicate Enabled(p: Pool, a: Action) {
    match a
    case Grant(lane, t) =>
      t in p.waiting && t in p.keyOf && Unblocked(p.keys, p.waiting, p.keyOf, t) &&
      lane < |p.busy| == |p.keys| && !p.busy[lane]
    case Release(lane) => lane in p.holder && lane < |p.busy| == |p.keys|
    case _ => true
  }

  function After(p: Pool, a: Action): Pool
    requires Enabled(p, a)
  {
    match a
    case Enqueue(key) => Enqueued(p, key)
    case Erase(t) => p.(waiting := Without(p.waiting, t))
    case Grant(lane, t) => p.Grant(lane, t)
    case Release(lane) => p.Freed(lane)
  }

  predicate CanRun(p: Pool, run: seq<Action>)
    decreases |run|
  {
    run != [] ==> Enabled(p, run[0]) && CanRun(After(p, run[0]), run[1..])
  }

  function AfterAll(p: Pool, run: seq<Action>): Pool
    requires CanRun(p, run)
    decreases |run|
  {
    if run == [] then p else AfterAll(After(p, run[0]), run[1..])
  }

  function Startup(count: nat): Pool {
    Pool(seq(count, _ => false), seq(count, _ => NoKey), [], 0, map[], map[], [])
  }

  lemma {:induction false} RunKeeps(p: Pool, run: seq<Action>)
    requires p.Valid() && CanRun(p, run)
    ensures AfterAll(p, run).Valid()
    decreases |run|
  {
    hide Pool.Valid, Unblocked, Enqueued, Without;
    if run != [] {
      match run[0] {
        case Enqueue(key) => EnqueueKeeps(p, key);
        case Erase(t) => EraseKeeps(p, t);
        case Grant(lane, t) => GrantKeeps(p, lane, t);
        case Release(lane) => ReleaseKeeps(p, lane);
      }
      RunKeeps(After(p, run[0]), run[1..]);
    }
  }

  /** After any run from startup: a lane is busy exactly while a granted request holds it, no two lanes are held under
      one key, and the requests of a key are granted in the order they came, before those that still wait. */
  lemma EveryRunIsFair(count: nat, run: seq<Action>)
    requires count > 0 && CanRun(Startup(count), run)
    ensures var p := AfterAll(Startup(count), run);
            && |p.keys| == |p.busy|
            && (forall l :: 0 <= l < |p.busy| ==> (p.busy[l] <==> l in p.holder))
            && (forall l :: l in p.holder ==> l < |p.busy| && p.holder[l] in p.granted && p.holder[l] in p.keyOf)
            && (forall l :: l in p.holder ==> p.keys[l] == p.keyOf[p.holder[l]])
            && (forall a, b :: 0 <= a < b < |p.keys| && p.keys[a] == p.keys[b] ==> p.keys[a] == NoKey)
    ensures var p := AfterAll(Startup(count), run);
            && (forall i :: 0 <= i < |p.granted| ==> p.granted[i] in p.keyOf)
            && (forall i :: 0 <= i < |p.waiting| ==> p.waiting[i] in p.keyOf)
            && (forall i, j ::
                  && 0 <= i < j < |p.granted| && p.keyOf[p.granted[i]] == p.keyOf[p.granted[j]]
                  && p.keyOf[p.granted[i]] != NoKey
                  ==> p.granted[i] < p.granted[j])
            && (forall i, j ::
                  && 0 <= i < |p.granted| && 0 <= j < |p.waiting|
                  && p.keyOf[p.granted[i]] == p.keyOf[p.waiting[j]] && p.keyOf[p.granted[i]] != NoKey
                  ==> p.granted[i] < p.waiting[j])
  {
    hide Unblocked;
    RunKeeps(Startup(count), run);
    hide CanRun, AfterAll;
    LanesDiffer(AfterAll(Startup(count), run));
  }

  lemma LanesDiffer(p: Pool)
    requires p.Valid()
    ensures forall a, b :: 0 <= a < b < |p.keys| && p.keys[a] == p.keys[b] ==> p.keys[a] == NoKey
  {
    forall a, b | 0 <= a < b < |p.keys| && p.keys[a] == p.keys[b] && p.keys[a] != NoKey ensures false {
      assert a in p.holder && b in p.holder;
      assert SameGroup(p.keyOf, p.holder[a], p.holder[b]);
    }
  }

  class LanePool {
    var busy: seq<bool>
    var keys: seq<Key>
    var waiting: seq<nat>
    var next: nat
    var tickets: nat
    var keyOf: map<nat, Key>
    var ready: set<nat>
    ghost var holder: map<nat, nat>
    ghost var granted: seq<nat>

    ghost function Abs(): Pool
      reads this
    {
      Pool(busy, keys, waiting, tickets, keyOf, holder, granted)
    }

    ghost predicate Valid()
      reads this
    {
      Abs().Valid() && next < |busy|
    }

    constructor (count: nat)
      requires count > 0
      ensures Valid() && Abs() == Startup(count)
    {
      busy, keys := seq(count, _ => false), seq(count, _ => NoKey);
      waiting, next, tickets, keyOf, ready := [], 0, 0, map[], {};
      holder, granted := map[], [];
    }

    method Enqueue(key: Key) returns (t: nat)
      requires Valid()
      modifies this`waiting, this`tickets, this`keyOf
      ensures Valid() && t == old(tickets) && waiting == old(waiting) + [t] && keyOf == old(keyOf)[t := key]
      ensures Abs() == After(old(Abs()), Action.Enqueue(key))
    {
      hide Pool.Valid;
      EnqueueKeeps(Abs(), key);
      t := tickets;
      waiting, tickets, keyOf := waiting + [t], tickets + 1, keyOf[t := key];
    }

    // ~ticket(), and every path that gives up a request.
    method Erase(t: nat)
      requires Valid()
      modifies this`waiting
      ensures Valid() && waiting == Without(old(waiting), t) && Abs() == After(old(Abs()), Action.Erase(t))
    {
      hide Pool.Valid;
      EraseKeeps(Abs(), t);
      hide Without;
      var i := 0;
      while i < |waiting| && waiting[i] != t
        invariant 0 <= i <= |waiting| && forall j :: 0 <= j < i ==> waiting[j] != t
      {
        i := i + 1;
      }
      WithoutAt(waiting, i, t);
      if i < |waiting| { waiting := waiting[..i] + waiting[i + 1..]; }
    }

    method GroupReady(t: nat) returns (ok: bool)
      requires Valid() && t in keyOf
      ensures ok == Unblocked(keys, waiting, keyOf, t)
      ensures ok <==> (forall l :: l in holder ==> !SameGroup(keyOf, holder[l], t)) &&
                      forall w :: w in waiting && SameGroup(keyOf, w, t) ==> t in waiting && t <= w
    {
      UnblockedIff(Abs(), t);
      if keyOf[t] == NoKey { return true; }
      if keyOf[t] in keys { return false; }
      for i := 0 to |waiting|
        invariant forall j :: 0 <= j < i ==> waiting[j] != t && !SameGroup(keyOf, waiting[j], t)
      {
        if waiting[i] == t { return true; }
        if keyOf[waiting[i]] == keyOf[t] { return false; }
      }
      ok := true;
    }

    // The first queued request that is ready, unblocked and says a lane suits it.
    method FirstSelectable(peek: nat -> int) returns (first: int)
      requires Valid()
      ensures first == FirstIn(waiting, ready, keys, keyOf, peek)
      ensures first != -1 ==> first in waiting && first in ready && Unblocked(keys, waiting, keyOf, first)
      ensures forall w ::
                w in waiting && w in ready && Unblocked(keys, waiting, keyOf, w) && peek(w) >= 0 ==>
                  first != -1 && first <= w && peek(first) >= 0
    {
      hide Pool.Leased, Pool.InOrder, Unblocked;
      FirstKnown(waiting, ready, keys, keyOf, peek);
      hide FirstIn;
      first := -1;
      for i := 0 to |waiting|
        invariant FirstIn(waiting, ready, keys, keyOf, peek) == FirstFrom(waiting, i, ready, keys, keyOf, peek)
      {
        var unblocked := false;
        if waiting[i] in ready { unblocked := GroupReady(waiting[i]); }
        if unblocked && peek(waiting[i]) >= 0 { return waiting[i]; }
      }
    }

    /** acquire(), one pass. A grant goes to the first request that could use a lane, and to no other. */
    method TryAcquire(t: nat, cancelled: bool, own: int, peek: nat -> int, reserve: int) returns (r: Outcome)
      requires Valid() && t in keyOf
      modifies this`busy, this`keys, this`waiting, this`next, this`ready, this`holder, this`granted
      ensures Valid() && keyOf == old(keyOf)
      ensures r.Cancelled? <==> cancelled
      ensures r.Prepare? <==> !cancelled && own == -2
      ensures r.Granted? <==>
                && !cancelled && own != -2 && 0 <= reserve < |old(busy)| && !old(busy)[reserve]
                && t in old(waiting) && Unblocked(old(keys), old(waiting), keyOf, t) && peek(t) >= 0
                && forall w ::
                     w in old(waiting) && w < t && w in old(ready) && Unblocked(old(keys), old(waiting), keyOf, w) ==>
                       peek(w) < 0
      ensures r.Granted? ==> r.lane == reserve && holder == old(holder)[r.lane := t] && granted == old(granted) + [t]
      ensures r.Granted? ==>
                Enabled(old(Abs()), Action.Grant(r.lane, t)) &&
                Abs() == After(old(Abs()), Action.Grant(r.lane, t))
      ensures r.Granted? ==> busy == old(busy)[r.lane := true] && keys == old(keys)[r.lane := keyOf[t]]
      ensures !r.Granted? ==> holder == old(holder) && granted == old(granted) && busy == old(busy) && keys == old(keys)
      ensures next == if !r.Granted? then old(next) else if r.lane + 1 < |busy| then r.lane + 1 else 0
      ensures waiting == if r.Granted? || r.Cancelled? then Without(old(waiting), t) else old(waiting)
      ensures ready == if r.Prepare? then old(ready) - {t} else old(ready) + {t}
    {
      hide Pool.Valid, Unblocked, Without, FirstIn;
      LanesExist(Abs());
      ready := ready + {t};
      if cancelled {
        Erase(t);
        return Cancelled;
      }
      if own == -2 {
        ready := ready - {t};
        return Prepare;
      }
      FirstIs(waiting, ready, keys, keyOf, peek, t);
      var first := FirstSelectable(peek);
      if first != t || reserve < 0 || reserve >= |busy| || busy[reserve] { return Wait; }
      GrantKeeps(Abs(), reserve, t);
      busy, keys := busy[reserve := true], keys[reserve := keyOf[t]];
      holder, granted := holder[reserve := t], granted + [t];
      next := if reserve + 1 == |busy| then 0 else reserve + 1;
      waiting := Without(waiting, t);
      r := Granted(reserve);
    }

    /** wait_turn(), one pass: done says whether to return, and turn what. */
    method WaitTurn(t: nat, cancelled: bool) returns (done: bool, turn: bool)
      requires Valid() && t in keyOf
      modifies this`waiting
      ensures Valid()
      ensures turn <==> !cancelled && Unblocked(keys, old(waiting), keyOf, t)
      ensures done <==> cancelled || Unblocked(keys, old(waiting), keyOf, t)
      ensures waiting == if cancelled && !Unblocked(keys, old(waiting), keyOf, t) then Without(old(waiting), t)
              else old(waiting)
    {
      var unblocked := GroupReady(t);
      if unblocked { return true, !cancelled; }
      if cancelled {
        Erase(t);
        return true, false;
      }
      return false, false;
    }

    method Release(lane: nat)
      requires Valid() && lane in holder
      modifies this`busy, this`keys, this`holder
      ensures lane < |old(busy)| && Valid() && holder == old(holder) - {lane} && busy == old(busy)[lane := false]
      ensures Enabled(old(Abs()), Action.Release(lane)) && Abs() == After(old(Abs()), Action.Release(lane))
    {
      hide Pool.Valid;
      LanesExist(Abs());
      ReleaseKeeps(Abs(), lane);
      busy, keys := busy[lane := false], keys[lane := NoKey];
      holder := holder - {lane};
    }

    // The default callback: the first free lane in rotation.
    method Rotate() returns (lane: int)
      requires Valid()
      ensures lane == -1 <==> forall l :: 0 <= l < |busy| ==> busy[l]
      ensures lane != -1 ==> exists n :: 0 <= n < |busy| && lane == Turn(next, n, |busy|) && !busy[lane] &&
                                         forall m :: 0 <= m < n ==> busy[Turn(next, m, |busy|)]
    {
      for n := 0 to |busy|
        invariant forall m :: 0 <= m < n ==> busy[Turn(next, m, |busy|)]
      {
        if !busy[Turn(next, n, |busy|)] { return Turn(next, n, |busy|); }
      }
      lane := -1;
      forall l | 0 <= l < |busy| ensures busy[l] {
        TurnReaches(next, l, |busy|);
      }
    }
  }

  // n lanes after next, around the ring.
  function Turn(next: nat, n: nat, count: nat): (lane: nat)
    requires next < count && n < count
    ensures lane < count
  {
    if next + n < count then next + n else next + n - count
  }

  lemma TurnReaches(next: nat, l: nat, count: nat)
    requires next < count && l < count
    ensures exists n :: 0 <= n < count && Turn(next, n, count) == l
  {
    var n := if l >= next then l - next else l - next + count;
    assert Turn(next, n, count) == l;
  }

  /* ---------- The queue ---------- */

  predicate CanGo(waiting: seq<nat>, ready: set<nat>, keys: seq<Key>, keyOf: map<nat, Key>, peek: nat -> int, t: nat) {
    t in ready && Unblocked(keys, waiting, keyOf, t) && peek(t) >= 0
  }

  function FirstFrom(waiting: seq<nat>, i: nat, ready: set<nat>, keys: seq<Key>, keyOf: map<nat, Key>,
                     peek: nat -> int): (first: int)
    ensures first >= -1
    decreases |waiting| - i
  {
    if i >= |waiting| then -1
    else if CanGo(waiting, ready, keys, keyOf, peek, waiting[i]) then waiting[i]
    else FirstFrom(waiting, i + 1, ready, keys, keyOf, peek)
  }

  function FirstIn(waiting: seq<nat>, ready: set<nat>, keys: seq<Key>, keyOf: map<nat, Key>, peek: nat -> int): int {
    FirstFrom(waiting, 0, ready, keys, keyOf, peek)
  }

  lemma {:induction false} FirstFromIs(waiting: seq<nat>, i: nat, ready: set<nat>, keys: seq<Key>, keyOf: map<nat, Key>,
                                       peek: nat -> int, t: nat)
    requires FirstFrom(waiting, i, ready, keys, keyOf, peek) == t
    ensures exists k :: i <= k < |waiting| && waiting[k] == t && CanGo(waiting, ready, keys, keyOf, peek, t) &&
                        forall j :: i <= j < k ==> !CanGo(waiting, ready, keys, keyOf, peek, waiting[j])
    decreases |waiting| - i
  {
    if !CanGo(waiting, ready, keys, keyOf, peek, waiting[i]) {
      FirstFromIs(waiting, i + 1, ready, keys, keyOf, peek, t);
    }
  }

  lemma {:induction false} FirstFromIsNone(waiting: seq<nat>, i: nat, ready: set<nat>, keys: seq<Key>,
                                           keyOf: map<nat, Key>, peek: nat -> int)
    requires FirstFrom(waiting, i, ready, keys, keyOf, peek) == -1
    ensures forall j :: i <= j < |waiting| ==> !CanGo(waiting, ready, keys, keyOf, peek, waiting[j])
    decreases |waiting| - i
  {
    if i < |waiting| { FirstFromIsNone(waiting, i + 1, ready, keys, keyOf, peek); }
  }

  /** No grant overtakes: the first request is one that waits, is ready, unblocked and selectable, while nobody
      enqueued earlier that is still waiting is all that. */
  lemma FirstIs(waiting: seq<nat>, ready: set<nat>, keys: seq<Key>, keyOf: map<nat, Key>, peek: nat -> int, t: nat)
    requires Increasing(waiting)
    ensures FirstIn(waiting, ready, keys, keyOf, peek) == t <==>
              && t in waiting && t in ready && Unblocked(keys, waiting, keyOf, t) && peek(t) >= 0
              && forall w :: w in waiting && w < t && w in ready && Unblocked(keys, waiting, keyOf, w) ==> peek(w) < 0
  {
    hide Unblocked;
    var first := FirstIn(waiting, ready, keys, keyOf, peek);
    if first == -1 {
      FirstFromIsNone(waiting, 0, ready, keys, keyOf, peek);
    } else {
      FirstFromIs(waiting, 0, ready, keys, keyOf, peek, first);
      var k :| 0 <= k < |waiting| && waiting[k] == first &&
      forall j :: 0 <= j < k ==> !CanGo(waiting, ready, keys, keyOf, peek, waiting[j]);
      assert CanGo(waiting, ready, keys, keyOf, peek, first);
      forall w | w in waiting && w < first ensures !CanGo(waiting, ready, keys, keyOf, peek, w) {
        var j :| 0 <= j < |waiting| && waiting[j] == w;
        assert j < k;
      }
    }
  }

  lemma FirstKnown(waiting: seq<nat>, ready: set<nat>, keys: seq<Key>, keyOf: map<nat, Key>, peek: nat -> int)
    requires Increasing(waiting)
    ensures var first := FirstIn(waiting, ready, keys, keyOf, peek);
            && first == FirstFrom(waiting, 0, ready, keys, keyOf, peek)
            && (first != -1 ==> first in waiting && first in ready && Unblocked(keys, waiting, keyOf, first) &&
                                peek(first) >= 0)
            && forall w :: w in waiting && w in ready && Unblocked(keys, waiting, keyOf, w) && peek(w) >= 0 ==>
                 first != -1 && first <= w
  {
    hide Unblocked;
    var first := FirstIn(waiting, ready, keys, keyOf, peek);
    if first == -1 {
      FirstFromIsNone(waiting, 0, ready, keys, keyOf, peek);
    } else {
      FirstIs(waiting, ready, keys, keyOf, peek, first);
    }
  }

  // With no lane leased, the head of the queue is never blocked: the queue cannot stop itself.
  lemma HeadIsUnblocked(p: Pool)
    requires p.Valid() && p.holder == map[] && p.waiting != []
    ensures Unblocked(p.keys, p.waiting, p.keyOf, p.waiting[0])
  {
    assert forall k :: k in p.keys ==> k == NoKey;
  }

  lemma LanesExist(p: Pool)
    requires p.Valid()
    ensures 0 < |p.busy| == |p.keys| && (forall i :: 0 <= i < |p.waiting| ==> p.waiting[i] in p.keyOf) &&
            Increasing(p.waiting)
    ensures forall l :: l in p.holder ==> l < |p.busy|
  {
  }
}
