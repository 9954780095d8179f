/**
 The media embedding cache of kvmem_vision::prepare, tools/kvmem-vision.cpp: an LRU cache under a
 hard limit, whose entries stay while a prompt holds them.

 An embedding is alive while the cache or a prompt holds it, and its bytes are counted until it
 is destroyed. The size of an embedding is fixed by its media id. Preparation holds the
 preparation lock throughout, so while it waits other prompts can only let go of what they hold;
 which ones do so during each wait, and after how many waits the request is cancelled, are
 parameters. So are the encoder's failures.
 */
module EmbeddingCache {
  import opened MapSums

  const LIMIT: nat := 128 * 1024 * 1024

  type Media = int
  type PromptId = int

  datatype Entry = Entry(bytes: nat, used: nat)

  function Size(x: Entry): nat { x.bytes }

  /** One media chunk of a prompt: its rows, its media id and the bytes of its embedding. */
  datatype Range = Range(begin: nat, end: nat, media: Media, bytes: nat)

  datatype Result = Ready | TooLarge | Cancelled | EncoderFailed

  // What each prompt holds, by row.
  type Holdings = map<PromptId, map<int, Media>>

  predicate Pins(held: Holdings, id: Media) { exists p, row :: p in held && row in held[p] && held[p][row] == id }

  // The source tests tokens against the limit by a division, so that the product cannot overflow.
  lemma DivisionTestsTheProduct(tokens: nat, width: nat)
    requires width > 0
    ensures tokens > LIMIT / (4 * width) <==> tokens * (4 * width) > LIMIT
  {
    var unit := 4 * width;
    var q := LIMIT / unit;
    assert q * unit <= LIMIT < (q + 1) * unit;
    if tokens > q { MulMonotone(q + 1, tokens, unit); } else { MulMonotone(tokens, q, unit); }
  }

  lemma SomeElement(s: set<Media>)
    requires s != {}
    ensures exists id :: id in s
  {
    if !(exists id :: id in s) { assert false; }
  }

  lemma MulMonotone(a: nat, b: nat, c: nat)
    requires a <= b
    ensures a * c <= b * c
  {
  }

  class EmbeddingCache {
    var cache: map<Media, Entry>
    var cacheBytes: nat
    var live: nat
    var clock: nat
    var held: Holdings
    ghost const sizeOf: Media -> nat

    /** Live bytes are the cache's bytes, within the limit, and everything held is in the cache: so there is one live
        copy of each media id, and none that is not cached. */
    ghost predicate Valid()
      reads this
    {
      && live == cacheBytes == Total(cache, Size) && live <= LIMIT
      && (forall id :: id in cache ==> cache[id].bytes == sizeOf(id))
      && forall p, row :: p in held && row in held[p] ==> held[p][row] in cache
    }

    constructor (ghost sizeOf: Media -> nat)
      ensures Valid() && cache == map[] && held == map[] && this.sizeOf == sizeOf
    {
      this.sizeOf := sizeOf;
      cache, cacheBytes, live, clock, held := map[], 0, 0, 0, map[];
    }

    // A prompt that ends lets go of its embeddings; the cache still has them.
    method Drop(p: PromptId)
      requires Valid()
      modifies this`held
      ensures Valid() && held == old(held) - {p}
    {
      held := held - {p};
    }

    // While this prompt waits, others let go.
    method Wait(p: PromptId, gone: set<PromptId>)
      requires Valid()
      modifies this`held
      ensures Valid() && held == Without(old(held), gone - {p})
    {
      held := Without(held, gone - {p});
    }

    // The least recently used entry that only the cache holds.
    method FindVictim() returns (found: bool, victim: Media)
      requires Valid()
      ensures found ==>
                victim in cache && !Pins(held, victim) &&
                forall id :: id in cache && !Pins(held, id) ==> cache[victim].used <= cache[id].used
      ensures !found ==> live == Total(cache, Size) && forall id :: id in cache ==> Pins(held, id)
    {
      hide Pins, Total;
      found, victim := false, 0;
      var left := cache.Keys;
      while left != {}
        invariant left <= cache.Keys
        invariant found ==>
                    victim in cache && !Pins(held, victim) &&
                    forall id :: id in cache && id !in left && !Pins(held, id) ==> cache[victim].used <= cache[id].used
        invariant !found ==> forall id :: id in cache && id !in left ==> Pins(held, id)
        decreases |left|
      {
        SomeElement(left);
        var id :| id in left;
        left := left - {id};
        if !Pins(held, id) && (!found || cache[id].used < cache[victim].used) { found, victim := true, id; }
      }
    }

    method Evict(victim: Media)
      requires Valid() && victim in cache && !Pins(held, victim)
      modifies this`cache, this`cacheBytes, this`live
      ensures Valid() && cache == old(cache) - {victim} && live == old(live) - old(cache)[victim].bytes
    {
      TotalWithout(cache, Size, victim);
      cacheBytes, live := cacheBytes - cache[victim].bytes, live - cache[victim].bytes;
      cache := cache - {victim};
    }

    /** Makes room for bytes more, least recently used first and no further than needed. waits is how often it had to
        wait for another prompt. */
    method MakeRoom(p: PromptId, bytes: nat, releases: nat -> set<PromptId>, patience: nat)
      returns (ok: bool, waits: nat, ghost last: Media, ghost pinned: map<Media, Entry>)
      requires Valid() && bytes <= LIMIT
      modifies this`cache, this`cacheBytes, this`live, this`held
      ensures Valid() && Shrunk(old(cache), cache, held) && Released(old(held), held, p) &&
              (waits == 0 ==> held == old(held))
      ensures if ok then live + bytes <= LIMIT else live + bytes > LIMIT && waits == patience
      ensures OldestWent(old(cache), cache, old(held)) &&
              (cache != old(cache) ==> LastNeeded(old(cache), cache, last, live + bytes))
      ensures waits > 0 || !ok ==> Stuck(pinned, old(cache), old(held), bytes)
      // Written out: only entries that no prompt holds go, and before the last of them went there was no room.
      ensures forall id :: id in old(cache) && id !in cache ==> !Pins(held, id)
      ensures forall id :: id in cache ==> id in old(cache) && cache[id] == old(cache)[id]
      ensures cache != old(cache) ==>
                last in old(cache) && last !in cache && live + bytes + old(cache)[last].bytes > LIMIT
    {
      hide Valid, Pins, Total, OldestWent, Stuck, Released, Without;
      waits, ok, last, pinned := 0, true, 0, map[];
      NothingGone(cache, held, p);
      while live + bytes > LIMIT
        invariant Valid() && ok && waits <= patience
        invariant Shrunk(old(cache), cache, held) && Released(old(held), held, p) && (waits == 0 ==> held == old(held))
        invariant OldestWent(old(cache), cache, old(held)) &&
                  (cache != old(cache) ==> LastNeeded(old(cache), cache, last, live + bytes))
        invariant waits > 0 ==> Stuck(pinned, old(cache), old(held), bytes)
        decreases patience - waits, |cache|
      {
        var found, victim := FindVictim();
        if found {
          OldestGoes(old(cache), cache, old(held), held, p, victim, live + bytes);
          Evict(victim);
          last := victim;
        } else {
          if waits == 0 {
            AllPinned(old(cache), cache, held, bytes);
            pinned := cache;
          }
          if waits == patience { return false, waits, last, pinned; }
          ReleasedMore(old(cache), cache, old(held), held, p, releases(waits));
          Wait(p, releases(waits));
          waits := waits + 1;
        }
      }
    }

    // The size of everything the prompt will hold, each media id once.
    method Request(p: PromptId, ranges: seq<Range>, begin: nat) returns (fits: bool)
      requires Valid() && p in held && SizesKnown(ranges, sizeOf)
      ensures fits <==> Total(Needed(ranges, begin, held[p], |ranges|), Size) <= LIMIT
    {
      hide Total;
      var requested, distinct := 0, {};
      EmptyTotal();
      for i := 0 to |ranges|
        invariant distinct == Needed(ranges, begin, held[p], i).Keys &&
                  requested == Total(Needed(ranges, begin, held[p], i), Size) <= LIMIT
      {
        var range := ranges[i];
        ghost var before := Needed(ranges, begin, held[p], i);
        NeededSizes(ranges, begin, held[p], i, sizeOf);
        if Wanted(range, begin, held[p]) && range.media !in distinct {
          distinct := distinct + {range.media};
          TotalPut(before, Size, range.media, Entry(range.bytes, 0));
          assert before - {range.media} == before;
          if range.bytes > LIMIT || requested + range.bytes > LIMIT {
            NeededGrows(ranges, begin, held[p], i + 1, |ranges|, sizeOf);
            ghost var some, all := Needed(ranges, begin, held[p], i + 1), Needed(ranges, begin, held[p], |ranges|);
            assert forall id :: id in some ==> id in all && Size(some[id]) <= Size(all[id]);
            TotalOfPart(some, all, Size);
            return false;
          }
          requested := requested + range.bytes;
        } else {
          assert Wanted(range, begin, held[p]) ==> before[range.media := Entry(range.bytes, 0)] == before;
        }
      }
      fits := true;
    }

    // A new embedding enters the cache.
    method Encode(id: Media, bytes: nat)
      requires Valid() && id !in cache && bytes == sizeOf(id) && live + bytes <= LIMIT
      modifies this`cache, this`cacheBytes, this`live
      ensures Valid() && cache == old(cache)[id := Entry(bytes, 0)]
    {
      TotalPut(cache, Size, id, Entry(bytes, 0));
      assert cache - {id} == cache;
      hide Total;
      live, cacheBytes, cache := live + bytes, cacheBytes + bytes, cache[id := Entry(bytes, 0)];
    }

    // The prompt takes hold of a cached embedding.
    method Hold(p: PromptId, row: nat, id: Media)
      requires Valid() && p in held && id in cache
      modifies this`cache, this`clock, this`held
      ensures Valid() && held == old(held)[p := old(held)[p][row := id]] && cache.Keys == old(cache.Keys)
      ensures clock == old(clock) + 1 && cache[id].used == clock &&
              forall x :: x in cache && x != id ==> cache[x] == old(cache)[x]
    {
      TotalPut(cache, Size, id, cache[id].(used := clock + 1));
      TotalWithout(cache, Size, id);
      hide Total;
      clock := clock + 1;
      cache := cache[id := cache[id].(used := clock)];
      held := held[p := held[p][row := id]];
    }

    // One media chunk of prepare(), not held yet.
    method PrepareOne(p: PromptId, ranges: seq<Range>, i: nat, begin: nat, releases: nat -> set<PromptId>,
                      patience: nat, fails: bool,
                      ghost start: Holdings)
      returns (r: Result, waits: nat)
      requires Valid() && i < |ranges| && ranges[i].end > begin && SizesKnown(ranges, sizeOf) && DistinctRows(ranges) &&
               Kept(start, held, p, ranges, begin)
      requires ranges[i].begin !in held[p] && Total(Needed(ranges, begin, start[p], |ranges|), Size) <= LIMIT
      modifies this
      ensures Valid() && Kept(start, held, p, ranges, begin) && !r.TooLarge?
      ensures forall row :: row in old(held)[p] ==> row in held[p]
      ensures r.Ready? ==> ranges[i].begin in held[p] && held[p][ranges[i].begin] == ranges[i].media
      // A hit evicts nothing, and what is held is now the most recently used.
      ensures ranges[i].media in old(cache) ==> r.Ready? && cache.Keys == old(cache.Keys)
      ensures r.Ready? ==> ranges[i].media in cache && cache[ranges[i].media].used == clock == old(clock) + 1
      // What can go wrong on a miss: the encoder fails, or patience runs out while there is no room.
      ensures r.EncoderFailed? <==> fails && ranges[i].media !in old(cache) && !r.Cancelled?
      ensures r.Cancelled? ==> waits == patience && live + ranges[i].bytes > LIMIT && ranges[i].media !in cache
      ensures Alone(start, p) ==> waits == 0 && !r.Cancelled?
    {
      hide Total, Needed, Pins, Kept, Stuck, Shrunk, RowsOf, DistinctRows;
      KeptMeans(start, held, p, ranges, begin);
      var range := ranges[i];
      waits := 0;
      if range.media !in cache {
        ghost var was, holding := cache, held;
        WithinRequest(ranges, begin, start[p], i, sizeOf);
        var room;
        ghost var last, pinned;
        room, waits, last, pinned := MakeRoom(p, range.bytes, releases, patience);
        if Alone(start, p) && (waits > 0 || !room) {
          NeverStuck(was, holding, start, p, ranges, begin, range, sizeOf);
          assert false;
        }
        ReleasedKeeps(start, holding, held, p, ranges, begin);
        StillAbsent(was, cache, held, range.media);
        if !room { return Cancelled, waits; }
        if fails { return EncoderFailed, waits; }
        Encode(range.media, range.bytes);
      }
      HoldKeeps(start, held, p, ranges, begin, i);
      Hold(p, range.begin, range.media);
      r := Ready;
    }

    /** prepare(). When it is ready the prompt holds all its media from begin on. If no other prompt holds anything,
        it never waits, and is never cancelled while making room. */
    method Prepare(p: PromptId, ranges: seq<Range>, begin: nat, releases: nat -> set<PromptId>, patience: nat -> nat,
                   cancelled: nat -> bool, fails: nat -> bool)
      returns (r: Result, waits: nat, ghost stopped: nat)
      requires Valid() && p in held && SizesKnown(ranges, sizeOf) && DistinctRows(ranges) && RowsOf(held[p], ranges)
      modifies this
      ensures Valid() && Kept(old(held), held, p, ranges, begin) && live <= LIMIT
      // It keeps what it held, gains media of its own only, and nobody else gains anything.
      ensures forall row :: row in old(held)[p] ==> row in held[p] && held[p][row] == old(held)[p][row]
      ensures forall row :: row in held[p] ==>
                exists i :: 0 <= i < |ranges| && ranges[i].begin == row && ranges[i].media == held[p][row]
      ensures forall q :: q in held && q != p ==> q in old(held) && held[q] == old(held)[q]
      ensures r.TooLarge? <==> Total(Needed(ranges, begin, old(held)[p], |ranges|), Size) > LIMIT
      ensures r.Ready? ==> forall i :: 0 <= i < |ranges| && ranges[i].end > begin ==>
                ranges[i].begin in held[p] && held[p][ranges[i].begin] == ranges[i].media
      // stopped is the range at which the encoder failed or the request was cancelled, and why.
      ensures r.EncoderFailed? ==> stopped < |ranges| && fails(stopped)
      ensures r.Cancelled? ==> stopped < |ranges|
      ensures r.Cancelled? && !cancelled(stopped) ==>
                waits >= patience(stopped) && live + ranges[stopped].bytes > LIMIT && ranges[stopped].media !in cache
      ensures Alone(old(held), p) ==> waits == 0 && (r.Cancelled? ==> cancelled(stopped))
      // So a request that fits, alone, undisturbed and with a working encoder, is prepared.
      ensures Alone(old(held), p) && !r.TooLarge? && (forall i :: 0 <= i < |ranges| ==> !cancelled(i) && !fails(i)) ==>
                r.Ready?
    {
      hide Total, Needed, Pins, Kept, DistinctRows;
      waits, stopped := 0, 0;
      KeptAtStart(held, p, ranges, begin);
      KeptMeans(held, held, p, ranges, begin);
      var fits := Request(p, ranges, begin);
      if !fits { return TooLarge, 0, 0; }
      for i := 0 to |ranges|
        invariant Valid() && Kept(old(held), held, p, ranges, begin)
        invariant p in held && forall j :: 0 <= j < i && ranges[j].end > begin ==> ranges[j].begin in held[p]
        invariant Alone(old(held), p) ==> waits == 0
      {
        KeptMeans(old(held), held, p, ranges, begin);
        if ranges[i].end <= begin || ranges[i].begin in held[p] { continue; }
        stopped := i;
        if cancelled(i) { return Cancelled, waits, i; }
        var more;
        r, more := PrepareOne(p, ranges, i, begin, releases, patience(i), fails(i), old(held));
        KeptMeans(old(held), held, p, ranges, begin);
        waits := waits + more;
        if !r.Ready? { return; }
      }
      KeptMeans(old(held), held, p, ranges, begin);
      HeldIsMedia(held[p], ranges);
      r := Ready;
    }
  }

  /** What a preparation leaves of everybody's holdings: this prompt keeps what it held and gains wanted media of its
      own; the others only let go. */
  ghost predicate Kept(start: Holdings, held: Holdings, p: PromptId, ranges: seq<Range>, begin: nat) {
    && p in start && p in held && RowsOf(held[p], ranges)
    && (forall row :: row in start[p] ==> row in held[p] && held[p][row] == start[p][row])
    && (forall row ::
          row in held[p] && row !in start[p] ==>
            exists i :: 0 <= i < |ranges| && ranges[i].begin == row && ranges[i].end > begin)
    && (forall q :: q in held && q != p ==> q in start && held[q] == start[q])
  }

  lemma KeptAtStart(held: Holdings, p: PromptId, ranges: seq<Range>, begin: nat)
    requires p in held && RowsOf(held[p], ranges)
    ensures Kept(held, held, p, ranges, begin)
  {
  }

  lemma KeptMeans(start: Holdings, held: Holdings, p: PromptId, ranges: seq<Range>, begin: nat)
    requires Kept(start, held, p, ranges, begin)
    ensures p in start && p in held && (Alone(start, p) ==> Alone(held, p))
    ensures forall row :: row in start[p] ==> row in held[p] && held[p][row] == start[p][row]
    ensures forall q :: q in held && q != p ==> q in start && held[q] == start[q]
    ensures forall row :: row in held[p] ==>
              exists i :: 0 <= i < |ranges| && ranges[i].begin == row && ranges[i].media == held[p][row]
  {
  }

  // With one range to a row, what is held there is that range's media.
  lemma HeldIsMedia(held: map<int, Media>, ranges: seq<Range>)
    requires DistinctRows(ranges)
    requires forall row :: row in held ==>
               exists i :: 0 <= i < |ranges| && ranges[i].begin == row && ranges[i].media == held[row]
    ensures forall i :: 0 <= i < |ranges| && ranges[i].begin in held ==> held[ranges[i].begin] == ranges[i].media
  {
    forall i | 0 <= i < |ranges| && ranges[i].begin in held ensures held[ranges[i].begin] == ranges[i].media {
      var j :| 0 <= j < |ranges| && ranges[j].begin == ranges[i].begin && ranges[j].media == held[ranges[i].begin];
      assert i == j || i < j || j < i;
    }
  }

  lemma ReleasedKeeps(start: Holdings, before: Holdings, after: Holdings, p: PromptId, ranges: seq<Range>, begin: nat)
    requires Kept(start, before, p, ranges, begin) && Released(before, after, p)
    ensures Kept(start, after, p, ranges, begin)
  {
  }

  lemma HoldKeeps(start: Holdings, held: Holdings, p: PromptId, ranges: seq<Range>, begin: nat, i: nat)
    requires Kept(start, held, p, ranges, begin) && i < |ranges| && ranges[i].end > begin && ranges[i].begin !in held[p]
    ensures Kept(start, held[p := held[p][ranges[i].begin := ranges[i].media]], p, ranges, begin)
  {
  }

  // Everything the prompt holds is part of its request.
  lemma HeldIsNeeded(start: Holdings, held: Holdings, p: PromptId, ranges: seq<Range>, begin: nat, row: int,
                     sizeOf: Media -> nat)
    requires Kept(start, held, p, ranges, begin) && row in held[p] && SizesKnown(ranges, sizeOf) && DistinctRows(ranges)
    ensures held[p][row] in Needed(ranges, begin, start[p], |ranges|)
  {
    hide Needed;
    var i :| 0 <= i < |ranges| && ranges[i].begin == row && ranges[i].media == held[p][row];
    assert row !in start[p] ==> ranges[i].end > begin;
    NeededSizes(ranges, begin, start[p], |ranges|, sizeOf);
  }

  lemma StillAbsent(before: map<Media, Entry>, after: map<Media, Entry>, held: Holdings, id: Media)
    requires Shrunk(before, after, held) && id !in before
    ensures id !in after
  {
  }

  predicate DistinctRows(ranges: seq<Range>) {
    forall i, j :: 0 <= i < j < |ranges| ==> ranges[i].begin != ranges[j].begin
  }

  // What is held is media of the prompt.
  predicate RowsOf(rows: map<int, Media>, ranges: seq<Range>) {
    forall row ::
      row in rows ==> exists i :: 0 <= i < |ranges| && ranges[i].begin == row && ranges[i].media == rows[row]
  }

  predicate Alone(held: Holdings, p: PromptId) { forall q :: q in held && q != p ==> held[q] == map[] }

  predicate SizesKnown(ranges: seq<Range>, sizeOf: Media -> nat) {
    forall i :: 0 <= i < |ranges| ==> ranges[i].bytes == sizeOf(ranges[i].media)
  }

  predicate Wanted(range: Range, begin: nat, rows: map<int, Media>) { range.end > begin || range.begin in rows }

  function Needed(ranges: seq<Range>, begin: nat, rows: map<int, Media>, n: nat): map<Media, Entry>
    requires n <= |ranges|
  {
    if n == 0 then map[]
    else if Wanted(ranges[n - 1], begin, rows) then
      Needed(ranges, begin, rows, n - 1)[ranges[n - 1].media := Entry(ranges[n - 1].bytes, 0)]
    else Needed(ranges, begin, rows, n - 1)
  }

  /** What counts towards the limit: each media id once that the request still has to prepare or that the prompt already
      holds. */
  lemma {:induction false} NeededIs(ranges: seq<Range>, begin: nat, rows: map<int, Media>, n: nat, id: Media)
    requires n <= |ranges|
    ensures id in Needed(ranges, begin, rows, n) <==>
            exists i ::
              0 <= i < n && ranges[i].media == id && (ranges[i].end > begin || ranges[i].begin in rows)
    ensures id in Needed(ranges, begin, rows, n) ==>
              exists i ::
                0 <= i < n && ranges[i].media == id && Size(Needed(ranges, begin, rows, n)[id]) == ranges[i].bytes
  {
    if n > 0 { NeededIs(ranges, begin, rows, n - 1, id); }
  }

  lemma EmptyTotal()
    ensures Total<Media, Entry>(map[], Size) == 0
  {
  }

  lemma {:induction false} NeededSizes(ranges: seq<Range>, begin: nat, rows: map<int, Media>, n: nat,
                                       sizeOf: Media -> nat)
    requires n <= |ranges| && SizesKnown(ranges, sizeOf)
    ensures forall id ::
              id in Needed(ranges, begin, rows, n) ==> Needed(ranges, begin, rows, n)[id] == Entry(sizeOf(id), 0)
    ensures forall i ::
              0 <= i < n && Wanted(ranges[i], begin, rows) ==> ranges[i].media in Needed(ranges, begin, rows, n)
  {
    if n > 0 { NeededSizes(ranges, begin, rows, n - 1, sizeOf); }
  }

  lemma {:induction false} NeededGrows(ranges: seq<Range>, begin: nat, rows: map<int, Media>, n: nat, m: nat,
                                       sizeOf: Media -> nat)
    requires n <= m <= |ranges| && SizesKnown(ranges, sizeOf)
    ensures forall id ::
              id in Needed(ranges, begin, rows, n) ==>
                id in Needed(ranges, begin, rows, m) &&
                Needed(ranges, begin, rows, m)[id] == Needed(ranges, begin, rows, n)[id]
  {
    NeededSizes(ranges, begin, rows, n, sizeOf);
    NeededSizes(ranges, begin, rows, m, sizeOf);
    if n < m { NeededGrows(ranges, begin, rows, n, m - 1, sizeOf); }
  }

  function Without(held: Holdings, gone: set<PromptId>): Holdings { held - gone }

  // Entries only left, and none that is held at the end did.
  predicate Shrunk(before: map<Media, Entry>, after: map<Media, Entry>, held: Holdings) {
    && (forall id :: id in after ==> id in before && after[id] == before[id])
    && forall id :: id in before && Pins(held, id) ==> id in after
  }

  // What went had been used no later than anything that stayed and that no prompt held at the start.
  predicate OldestWent(before: map<Media, Entry>, after: map<Media, Entry>, held: Holdings) {
    forall d, id ::
      d in before && d !in after && id in before && id in after && !Pins(held, id) ==> before[d].used <= before[id].used
  }

  // Before the last one went there was no room.
  predicate LastNeeded(before: map<Media, Entry>, after: map<Media, Entry>, last: Media, total: int) {
    last in before && last !in after && total + before[last].bytes > LIMIT
  }

  lemma OldestGoes(start: map<Media, Entry>, cache: map<Media, Entry>, held0: Holdings, held: Holdings, p: PromptId,
                   victim: Media, total: nat)
    requires OldestWent(start, cache, held0) && Shrunk(start, cache, held) && Released(held0, held, p) && total > LIMIT
    requires victim in cache && !Pins(held, victim) &&
             forall id :: id in cache && !Pins(held, id) ==> cache[victim].used <= cache[id].used
    ensures var after := cache - {victim};
            && OldestWent(start, after, held0) && Shrunk(start, after, held)
            && LastNeeded(start, after, victim, total - cache[victim].bytes)
  {
    FewerPins(held0, held, p);
    hide Pins, Released;
  }

  lemma FewerPins(before: Holdings, after: Holdings, p: PromptId)
    requires Released(before, after, p)
    ensures forall id :: Pins(after, id) ==> Pins(before, id)
  {
  }

  lemma NothingGone(cache: map<Media, Entry>, held: Holdings, p: PromptId)
    ensures Shrunk(cache, cache, held) && Released(held, held, p) && OldestWent(cache, cache, held)
  {
  }

  lemma AllPinned(start: map<Media, Entry>, cache: map<Media, Entry>, held: Holdings, bytes: nat)
    requires Shrunk(start, cache, held) && (forall id :: id in cache ==> Pins(held, id)) &&
             Total(cache, Size) + bytes > LIMIT
    ensures Stuck(cache, start, held, bytes)
  {
  }

  lemma ReleasedMore(start: map<Media, Entry>, cache: map<Media, Entry>, held0: Holdings, held: Holdings, p: PromptId,
                     gone: set<PromptId>)
    requires Released(held0, held, p) && Shrunk(start, cache, held)
    ensures Released(held0, Without(held, gone - {p}), p) && Shrunk(start, cache, Without(held, gone - {p}))
  {
    var after := Without(held, gone - {p});
    FewerPins(held, after, p);
    hide Pins;
  }

  predicate Released(before: Holdings, after: Holdings, p: PromptId) {
    && (forall q :: q in after ==> q in before && after[q] == before[q])
    && (p in before ==> p in after)
  }

  // Everything that is left is held by some prompt, and it leaves no room.
  ghost predicate Stuck(pinned: map<Media, Entry>, cache: map<Media, Entry>, held: Holdings, bytes: nat) {
    && (forall id :: id in pinned ==> id in cache && pinned[id] == cache[id] && Pins(held, id))
    && Total(pinned, Size) + bytes > LIMIT
  }

  lemma WithinRequest(ranges: seq<Range>, begin: nat, rows: map<int, Media>, i: nat, sizeOf: Media -> nat)
    requires SizesKnown(ranges, sizeOf) && Total(Needed(ranges, begin, rows, |ranges|), Size) <= LIMIT &&
             i < |ranges| &&
             ranges[i].end > begin
    ensures ranges[i].bytes <= LIMIT
  {
    NeededSizes(ranges, begin, rows, |ranges|, sizeOf);
    TotalWithout(Needed(ranges, begin, rows, |ranges|), Size, ranges[i].media);
  }

  /** What one prompt pins and what it still needs are all part of its request, so they fit together. */
  lemma NeverStuck(cache: map<Media, Entry>, held: Holdings, start: Holdings, p: PromptId, ranges: seq<Range>,
                   begin: nat,
                   range: Range, sizeOf: Media -> nat)
    requires Kept(start, held, p, ranges, begin) && Alone(start, p) && SizesKnown(ranges, sizeOf) &&
             DistinctRows(ranges)
    requires range in ranges && range.end > begin && range.media !in cache
    requires Total(Needed(ranges, begin, start[p], |ranges|), Size) <= LIMIT &&
             forall id :: id in cache ==> cache[id].bytes == sizeOf(id)
    ensures forall pinned :: !Stuck(pinned, cache, held, range.bytes)
  {
    hide Needed, Total, RowsOf, DistinctRows;
    forall pinned ensures !Stuck(pinned, cache, held, range.bytes) {
      if Stuck(pinned, cache, held, range.bytes) {
        var needed := Needed(ranges, begin, start[p], |ranges|);
        NeededSizes(ranges, begin, start[p], |ranges|, sizeOf);
        forall id | id in pinned ensures id in needed && Size(pinned[id]) == sizeOf(id) {
          var q, row :| q in held && row in held[q] && held[q][row] == id;
          assert q == p;
          HeldIsNeeded(start, held, p, ranges, begin, row, sizeOf);
        }
        var all := pinned[range.media := Entry(range.bytes, 0)];
        TotalPut(pinned, Size, range.media, Entry(range.bytes, 0));
        assert pinned - {range.media} == pinned;
        assert forall id :: id in all ==> id in needed && Size(all[id]) <= Size(needed[id]);
        TotalOfPart(all, needed, Size);
      }
    }
  }
}
