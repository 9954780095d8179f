/**
 How a session's buffers are grouped into chunks, the constructor of kvmem_session_payload in
 tools/kvmem-session-transfer.h. Buffers are their sizes; each costs eight bytes more in a chunk.
 */
module SessionGrouping {

  function Cost(chunk: seq<nat>): nat { if chunk == [] then 0 else Cost(chunk[..|chunk| - 1]) + chunk[|chunk| - 1] + 8 }

  function Flatten(chunks: seq<seq<nat>>): seq<nat> {
    if chunks == [] then [] else Flatten(chunks[..|chunks| - 1]) + chunks[|chunks| - 1]
  }

  // The buffer would take the chunk over the group size.
  predicate Overflows(chunk: seq<nat>, size: nat, group: nat) { size >= group || Cost(chunk) > group - size }

  // A chunk of more than one buffer never grew past the group size before its last buffer's own eight bytes.
  predicate Packed(chunk: seq<nat>, group: nat) { |chunk| == 1 || (|chunk| > 1 && Cost(chunk) <= group + 8) }

  predicate Forced(chunk: seq<nat>, next: seq<nat>, group: nat) { next != [] && Overflows(chunk, next[0], group) }

  // Each chunk was closed only because the next buffer did not fit.
  predicate ClosedInNeed(chunks: seq<seq<nat>>, group: nat) {
    var k := |chunks| - 1;
    k >= 1 ==> ClosedInNeed(chunks[..k], group) && Forced(chunks[k - 1], chunks[k], group)
  }

  /** Every buffer once and in order, no chunk empty or too big, and none closed early. */
  method Group(sizes: seq<nat>, group: nat) returns (chunks: seq<seq<nat>>)
    ensures Flatten(chunks) == sizes && ClosedInNeed(chunks, group)
    ensures forall i :: 0 <= i < |chunks| ==> Packed(chunks[i], group)
    // A buffer opens a new chunk exactly if it would take the one before over the group size.
    ensures forall i :: 0 < i < |chunks| ==>
              |chunks[i]| > 0 && (chunks[i][0] >= group || Cost(chunks[i - 1]) > group - chunks[i][0])
    ensures forall i, j :: 0 <= i < |chunks| && 0 < j < |chunks[i]| ==>
              chunks[i][j] < group && Cost(chunks[i][..j]) <= group - chunks[i][j]
  {
    hide Cost, Flatten, ClosedInNeed, Packed, AllPacked, AllFilled;
    Nothing(group);
    chunks := [];
    var used := 0;
    for n := 0 to |sizes|
      invariant Flatten(chunks) == sizes[..n] && ClosedInNeed(chunks, group)
      invariant AllPacked(chunks, group) && AllFilled(chunks, group)
      invariant chunks != [] ==> used == Cost(chunks[|chunks| - 1]) > 0
    {
      var size := sizes[n];
      assert sizes[..n + 1] == sizes[..n] + [size];
      if chunks == [] || (used > 0 && (size >= group || used > group - size)) {
        OpenChunk(chunks, size, group);
        OpenFilled(chunks, size, group);
        chunks, used := chunks + [[size]], size + 8;
      } else {
        GrowChunk(chunks, size, group);
        GrowFilled(chunks, size, group);
        var last := chunks[|chunks| - 1];
        chunks, used := chunks[..|chunks| - 1] + [last + [size]], used + size + 8;
      }
    }
    assert sizes[..|sizes|] == sizes;
    EachPacked(chunks, group);
    EachFilled(chunks, group);
    EachForced(chunks, group);
  }

  // Each buffer after the first did fit.
  predicate Filled(chunk: seq<nat>, group: nat) {
    forall j :: 0 < j < |chunk| ==> !Overflows(chunk[..j], chunk[j], group)
  }

  predicate AllFilled(chunks: seq<seq<nat>>, group: nat) { forall i :: 0 <= i < |chunks| ==> Filled(chunks[i], group) }

  lemma OpenFilled(chunks: seq<seq<nat>>, size: nat, group: nat)
    requires AllFilled(chunks, group)
    ensures AllFilled(chunks + [[size]], group)
  {
  }

  lemma GrowFilled(chunks: seq<seq<nat>>, size: nat, group: nat)
    requires chunks != [] && AllFilled(chunks, group) && !Overflows(chunks[|chunks| - 1], size, group)
    ensures AllFilled(chunks[..|chunks| - 1] + [chunks[|chunks| - 1] + [size]], group)
  {
    var last := chunks[|chunks| - 1];
    var grown := last + [size];
    assert Filled(last, group);
    forall j | 0 < j < |grown| ensures !Overflows(grown[..j], grown[j], group) {
      if j < |last| { assert grown[..j] == last[..j]; } else { assert grown[..j] == last; }
    }
    assert Filled(grown, group);
    hide Filled;
  }

  lemma EachFilled(chunks: seq<seq<nat>>, group: nat)
    requires AllFilled(chunks, group)
    ensures forall i, j :: 0 <= i < |chunks| && 0 < j < |chunks[i]| ==>
              chunks[i][j] < group && Cost(chunks[i][..j]) <= group - chunks[i][j]
  {
    forall i, j | 0 <= i < |chunks| && 0 < j < |chunks[i]| ensures !Overflows(chunks[i][..j], chunks[i][j], group) {
      assert Filled(chunks[i], group);
    }
  }

  lemma {:induction false} EachForced(chunks: seq<seq<nat>>, group: nat)
    requires ClosedInNeed(chunks, group)
    ensures forall i :: 0 < i < |chunks| ==>
              |chunks[i]| > 0 && (chunks[i][0] >= group || Cost(chunks[i - 1]) > group - chunks[i][0])
    decreases |chunks|
  {
    if |chunks| > 1 { EachForced(chunks[..|chunks| - 1], group); }
  }

  predicate AllPacked(chunks: seq<seq<nat>>, group: nat) { forall i :: 0 <= i < |chunks| ==> Packed(chunks[i], group) }

  lemma EachPacked(chunks: seq<seq<nat>>, group: nat)
    requires AllPacked(chunks, group)
    ensures forall i :: 0 <= i < |chunks| ==> Packed(chunks[i], group)
  {
  }

  lemma Nothing(group: nat)
    ensures Flatten([]) == [] && ClosedInNeed([], group) && AllPacked([], group) && AllFilled([], group)
  {
  }

  lemma OneCost(chunk: seq<nat>, size: nat)
    ensures Cost(chunk + [size]) == Cost(chunk) + size + 8
  {
    assert (chunk + [size])[..|chunk|] == chunk;
  }

  lemma OpenChunk(chunks: seq<seq<nat>>, size: nat, group: nat)
    requires ClosedInNeed(chunks, group) && (chunks != [] ==> Overflows(chunks[|chunks| - 1], size, group))
    requires AllPacked(chunks, group)
    ensures AllPacked(chunks + [[size]], group)
    ensures Flatten(chunks + [[size]]) == Flatten(chunks) + [size] && ClosedInNeed(chunks + [[size]], group) &&
            Cost([size]) == size + 8
  {
    assert (chunks + [[size]])[..|chunks|] == chunks;
    OneCost([], size);
    assert [] + [size] == [size];
    assert Cost([]) == 0;
  }

  lemma GrowChunk(chunks: seq<seq<nat>>, size: nat, group: nat)
    requires chunks != [] && ClosedInNeed(chunks, group) && AllPacked(chunks, group) &&
             !Overflows(chunks[|chunks| - 1], size, group)
    ensures var k := |chunks| - 1; var grown := chunks[..k] + [chunks[k] + [size]];
            && Flatten(grown) == Flatten(chunks) + [size] && ClosedInNeed(grown, group) && AllPacked(grown, group)
            && Cost(chunks[k] + [size]) == Cost(chunks[k]) + size + 8
  {
    var k := |chunks| - 1;
    var grown := chunks[..k] + [chunks[k] + [size]];
    assert grown[..k] == chunks[..k];
    OneCost(chunks[k], size);
    assert Flatten(chunks[..k]) + (chunks[k] + [size]) == (Flatten(chunks[..k]) + chunks[k]) + [size];
    if k > 0 { assert (chunks[k] + [size])[0] == chunks[k][0]; }
  }
}
