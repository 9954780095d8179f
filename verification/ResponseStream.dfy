/**
 The event stream of tools/kvmem-responses-stream.cpp: sequence numbers, output indices, and a
 client that rebuilds the output from the events.

 Events and items are values; the JSON text is not modelled. An item's text is what its deltas
 add up to: reasoning text, message text or call arguments, with the reasoning summary beside it.
 */
module ResponseStream {

  // Item ids as the source forms them; a call without an id of its own takes the response's.
  datatype ItemId = Reasoning | Message | Call(id: string)

  /** part says that the text part of a message, or the summary part of a reasoning item, has been announced. */
  datatype Item = Item(id: ItemId, text: string, summary: string, part: bool)

  datatype Event =
    | Created(n: nat)
    | InProgress(n: nat)
    | Added(n: nat, index: int, id: ItemId)
    | PartAdded(n: nat, index: int, id: ItemId)
    | Delta(n: nat, index: int, id: ItemId, text: string)
    | SummaryDelta(n: nat, index: int, id: ItemId, text: string)
    | TextDone(n: nat, index: int, id: ItemId, text: string)
    | PartDone(n: nat, index: int, id: ItemId, text: string)
    | ItemDone(n: nat, index: int, item: Item)
    | Completed(n: nat, output: seq<Item>)

  /* ---------- The client ---------- */

  predicate Names(out: seq<Item>, index: int, id: ItemId) { 0 <= index < |out| && out[index].id == id }

  // A strict client applies an event only if it names an item it has, and appends items in order.
  function Apply(out: seq<Item>, e: Event): seq<Item> {
    match e
    case Added(_, index, id) => if index == |out| then out + [Item(id, [], [], false)] else out
    case PartAdded(_, index, id) => if Names(out, index, id) then out[index := out[index].(part := true)] else out
    case Delta(_, index, id, text) => if Names(out, index, id) then
           out[index := out[index].(text := out[index].text + text)]
         else out
    case SummaryDelta(_, index, id, text) => if Names(out, index, id) then
           out[index := out[index].(summary := out[index].summary + text)]
         else out
    case _ => out
  }

  function Client(log: seq<Event>): seq<Item> {
    if log == [] then [] else Apply(Client(log[..|log| - 1]), log[|log| - 1])
  }

  // The client can place the event: a new item takes the next index, everything else names an item it has.
  predicate Placed(out: seq<Item>, e: Event) {
    match e
    case Added(_, index, _) => index == |out|
    case PartAdded(_, index, id) => Names(out, index, id)
    case Delta(_, index, id, _) => Names(out, index, id) && (id.Message? ==> out[index].part)
    case SummaryDelta(_, index, id, _) => Names(out, index, id) && out[index].part
    case _ => true
  }

  /** Numbers are consecutive from zero, indices are handed out once each from zero without gaps, and every delta
      names an item announced before it with that id and index, and a part that has been announced. */
  predicate WellFormed(log: seq<Event>) {
    forall i :: 0 <= i < |log| ==> log[i].n == i && Placed(Client(log[..i]), log[i])
  }

  lemma OneMore(log: seq<Event>, e: Event)
    requires WellFormed(log) && e.n == |log| && Placed(Client(log), e)
    ensures WellFormed(log + [e]) && Client(log + [e]) == Apply(Client(log), e)
  {
    var all := log + [e];
    assert all[..|log|] == log;
    forall i | 0 <= i < |log| ensures all[..i] == log[..i] && all[i] == log[i] {}
  }

  predicate IsAdded(e: Event, index: int, id: ItemId) { e.Added? && e.index == index && e.id == id }

  predicate IsPartAdded(e: Event, index: int, id: ItemId) { e.PartAdded? && e.index == index && e.id == id }

  function AddedCount(log: seq<Event>): nat {
    if log == [] then 0 else AddedCount(log[..|log| - 1]) + if log[|log| - 1].Added? then 1 else 0
  }

  lemma AllButLast(log: seq<Event>)
    requires WellFormed(log) && log != []
    ensures var before, e := log[..|log| - 1], log[|log| - 1];
            WellFormed(before) && Placed(Client(before), e) && Client(log) == Apply(Client(before), e)
  {
    FrontIsWellFormed(log, |log| - 1);
    hide Placed, Apply;
  }

  lemma FrontIsWellFormed(log: seq<Event>, n: nat)
    requires WellFormed(log) && n <= |log|
    ensures WellFormed(log[..n])
  {
    hide Client, Placed;
    forall i | 0 <= i < n ensures log[..n][..i] == log[..i] {}
  }

  // Every item the client has was announced, and so was its part.
  lemma {:induction false} ItemWasAdded(log: seq<Event>, k: nat)
    requires WellFormed(log) && k < |Client(log)|
    ensures exists j :: 0 <= j < |log| && IsAdded(log[j], k, Client(log)[k].id)
    ensures Client(log)[k].part ==> exists j :: 0 <= j < |log| && IsPartAdded(log[j], k, Client(log)[k].id)
  {
    if log == [] { return; }
    hide WellFormed, Client;
    var n := |log| - 1;
    AllButLast(log);
    var out, item := Client(log[..n]), Client(log)[k];
    if k < |out| {
      ItemWasAdded(log[..n], k);
      var j :| 0 <= j < n && IsAdded(log[..n][j], k, out[k].id);
      assert IsAdded(log[j], k, item.id);
      if item.part {
        if out[k].part {
          var p :| 0 <= p < n && IsPartAdded(log[..n][p], k, out[k].id);
          assert IsPartAdded(log[p], k, item.id);
        } else {
          assert IsPartAdded(log[n], k, item.id);
        }
      }
    } else {
      assert IsAdded(log[n], k, item.id) && !item.part;
    }
  }

  lemma {:induction false} ItemsAreCounted(log: seq<Event>)
    requires WellFormed(log)
    ensures |Client(log)| == AddedCount(log)
  {
    hide WellFormed;
    if log != [] {
      AllButLast(log);
      ItemsAreCounted(log[..|log| - 1]);
    }
  }

  /** In terms of the events alone: numbers count from zero, and so do the indices of the items, an item is announced
      before its part and its deltas, and a part before the deltas that go into it. */
  lemma EventInOrder(log: seq<Event>, i: nat)
    requires WellFormed(log) && i < |log|
    ensures log[i].n == i && (log[i].Added? ==> log[i].index == AddedCount(log[..i]))
    ensures log[i].PartAdded? || log[i].Delta? || log[i].SummaryDelta? ==>
              exists j :: 0 <= j < i && IsAdded(log[j], log[i].index, log[i].id)
    ensures (log[i].Delta? && log[i].id.Message?) || log[i].SummaryDelta? ==>
              exists j :: 0 <= j < i && IsPartAdded(log[j], log[i].index, log[i].id)
  {
    var before, e := log[..i], log[i];
    FrontIsWellFormed(log, i);
    ItemsAreCounted(before);
    hide Client, WellFormed;
    if e.PartAdded? || e.Delta? || e.SummaryDelta? {
      ItemWasAdded(before, e.index);
      var j :| 0 <= j < i && IsAdded(before[j], e.index, e.id);
      assert IsAdded(log[j], e.index, e.id);
      if (e.Delta? && e.id.Message?) || e.SummaryDelta? {
        var p :| 0 <= p < i && IsPartAdded(before[p], e.index, e.id);
        assert IsPartAdded(log[p], e.index, e.id);
      }
    }
  }

  /* ---------- The source's state ---------- */

  datatype CallState = CallState(id: ItemId, index: int)

  datatype Diff = Diff(reasoning: string, content: string, hasCall: bool, call: nat, name: string, id: string,
                       arguments: string)

  datatype ToolCall = ToolCall(id: string, arguments: string)

  datatype Msg = Msg(reasoning: string, content: string, calls: seq<ToolCall>)

  function CallItem(call: ToolCall): Item { Item(Call(call.id), call.arguments, [], false) }

  function CallItems(calls: seq<ToolCall>): seq<Item> {
    seq(|calls|, i requires 0 <= i < |calls| => CallItem(calls[i]))
  }

  lemma OneMoreCall(calls: seq<ToolCall>, k: nat)
    requires k < |calls|
    ensures CallItems(calls[..k + 1]) == CallItems(calls[..k]) + [CallItem(calls[k])]
  {
  }

  // The output array of the final response.
  function OutputOf(msg: Msg): seq<Item> {
    (if |msg.reasoning| > 0 then [Item(Reasoning, msg.reasoning, msg.reasoning, true)] else []) +
    (if |msg.content| > 0 then [Item(Message, msg.content, [], true)] else []) +
    CallItems(msg.calls)
  }

  /* ---------- The end of the stream ---------- */

  // Whether a closing event names the item it closes.
  predicate Closes(out: seq<Item>, e: Event) {
    match e
    case TextDone(_, index, id, _) => Names(out, index, id)
    case PartDone(_, index, id, _) => Names(out, index, id)
    case ItemDone(_, index, item) => Names(out, index, item.id)
    case _ => true
  }

  predicate AllClose(out: seq<Item>, events: seq<Event>) { forall i :: 0 <= i < |events| ==> Closes(out, events[i]) }

  lemma CloseMore(out: seq<Item>, a: seq<Event>, b: seq<Event>)
    ensures AllClose(out, a + b) <==> AllClose(out, a) && AllClose(out, b)
  {
    if AllClose(out, a + b) {
      assert forall i :: 0 <= i < |a| ==> a[i] == (a + b)[i];
      assert forall i :: 0 <= i < |b| ==> b[i] == (a + b)[|a| + i];
    }
  }

  // The items that are reported as done, in order.
  function DoneItems(events: seq<Event>): seq<Item> {
    if events == [] then [] else (if events[0].ItemDone? then [events[0].item] else []) + DoneItems(events[1..])
  }

  lemma DoneFirst(events: seq<Event>)
    requires events != []
    ensures DoneItems(events) == (if events[0].ItemDone? then [events[0].item] else []) + DoneItems(events[1..])
  {
  }

  lemma DoneNone()
    ensures DoneItems([]) == []
  {
  }

  lemma {:induction false} DoneMore(a: seq<Event>, b: seq<Event>)
    ensures DoneItems(a + b) == DoneItems(a) + DoneItems(b)
  {
    hide DoneItems;
    if a == [] {
      DoneNone();
      assert a + b == b;
    } else {
      DoneMore(a[1..], b);
      DoneFirst(a);
      DoneFirst(a + b);
      assert (a + b)[1..] == a[1..] + b;
    }
  }

  // What a closing event says, leaving out where.
  datatype Closing =
    | TextClosed(id: ItemId, text: string)
    | PartClosed(id: ItemId, text: string)
    | ItemClosed(id: ItemId)

  // What is closed, in order.
  function Closings(events: seq<Event>): seq<Closing> {
    if events == [] then []
    else
      (match events[0]
       case TextDone(_, _, id, text) => [TextClosed(id, text)]
       case PartDone(_, _, id, text) => [PartClosed(id, text)]
       case ItemDone(_, _, item) => [ItemClosed(item.id)]
       case _ => []) + Closings(events[1..])
  }

  lemma ClosingsFirst(events: seq<Event>)
    requires events != []
    ensures Closings(events) == Closings([events[0]]) + Closings(events[1..])
  {
    assert [events[0]][1..] == [];
  }

  lemma ClosingsNone()
    ensures Closings([]) == []
  {
  }

  lemma {:induction false} ClosingsMore(a: seq<Event>, b: seq<Event>)
    ensures Closings(a + b) == Closings(a) + Closings(b)
  {
    hide Closings;
    if a == [] {
      ClosingsNone();
      assert a + b == b;
    } else {
      ClosingsMore(a[1..], b);
      ClosingsFirst(a);
      ClosingsFirst(a + b);
      assert (a + b)[1..] == a[1..] + b;
    }
  }

  // An opened call closes its arguments, under the id it opened with, and then every call its item.
  function CallClosings(b: Blocks, calls: seq<ToolCall>): seq<Closing> {
    if calls == [] then []
    else
      var k := |calls| - 1;
      CallClosings(b, calls[..k]) +
      (if Opened(b, k) then [TextClosed(b.calls[k].id, calls[k].arguments)] else []) + [ItemClosed(Call(calls[k].id))]
  }

  // A closing event says of its item what the client has of it.
  predicate Agrees(out: seq<Item>, e: Event) {
    match e
    case TextDone(_, index, id, text) => Names(out, index, id) && out[index].text == text
    case PartDone(_, index, id, text) => Names(out, index, id) && out[index].part && out[index].text == text
    case ItemDone(_, index, item) => 0 <= index < |out| && out[index] == item
    case _ => true
  }

  predicate AllAgree(out: seq<Item>, events: seq<Event>) { forall i :: 0 <= i < |events| ==> Agrees(out, events[i]) }

  lemma AgreeMore(out: seq<Item>, a: seq<Event>, b: seq<Event>)
    requires AllAgree(out, a) && AllAgree(out, b)
    ensures AllAgree(out, a + b)
  {
  }

  /** The final message has the texts that the deltas said. */
  predicate Says(b: Blocks, msg: Msg) {
    && (b.reasoningStarted <==> |msg.reasoning| > 0) && (b.textStarted <==> |msg.content| > 0)
    && b.reasoning == msg.reasoning && b.content == msg.content
  }

  // The call was opened under its own id, and the deltas said its arguments.
  predicate CallSaid(b: Blocks, call: ToolCall, k: nat) {
    Opened(b, k) && b.calls[k].id == Call(call.id) && k < |b.arguments| && b.arguments[k] == call.arguments
  }

  predicate Opened(b: Blocks, k: nat) { k < |b.calls| && b.calls[k].index >= 0 }

  // Every call of the message was opened under its own id.
  predicate OpenedAsSaid(b: Blocks, msg: Msg) {
    forall k :: 0 <= k < |msg.calls| ==> Opened(b, k) && b.calls[k].id == Call(msg.calls[k].id)
  }

  // And the deltas said these calls, with these arguments, and no others.
  predicate CallsSaid(b: Blocks, msg: Msg) {
    && |b.calls| == |msg.calls| == |b.arguments| && OpenedAsSaid(b, msg)
    && forall k :: 0 <= k < |b.calls| ==> b.arguments[k] == msg.calls[k].arguments
  }

  /** What closing a call needs: it was opened under its own id, or, as it was never opened, the position counted for it
      happens to hold an item of that id. */
  predicate CallCloses(b: Blocks, call: ToolCall, k: nat, index: int) {
    if Opened(b, k) then b.calls[k].id == Call(call.id) else Names(b.client, index, Call(call.id))
  }

  predicate CallsClose(b: Blocks, msg: Msg) {
    forall k :: 0 <= k < |msg.calls| ==> CallCloses(b, msg.calls[k], k, Heads(msg) + k)
  }

  predicate DistinctIds(msg: Msg) {
    forall k, l :: 0 <= k < l < |msg.calls| ==> msg.calls[k].id != msg.calls[l].id
  }

  /** Where the calls of a message have ids of their own, there is no such coincidence. */
  lemma CallsCloseIffOpened(b: Blocks, msg: Msg)
    requires b.Valid() && DistinctIds(msg) && |b.calls| <= |msg.calls|
    ensures CallsClose(b, msg) <==> OpenedAsSaid(b, msg)
  {
    if CallsClose(b, msg) {
      forall k | 0 <= k < |msg.calls| ensures Opened(b, k) && b.calls[k].id == Call(msg.calls[k].id) {
        assert CallCloses(b, msg.calls[k], k, Heads(msg) + k);
        if !Opened(b, k) {
          var l := Holder(b, Heads(msg) + k, msg.calls[k].id);
          HolderIsThat(b, msg, k, l);
        }
      }
    }
  }

  // The open call whose item has this index and id.
  lemma Holder(b: Blocks, i: int, id: string) returns (l: nat)
    requires b.Valid() && Names(b.client, i, Call(id))
    ensures Opened(b, l) && b.calls[l].id == Call(id)
  {
    assert b.Owner(i);
    l :| l < |b.calls| && b.calls[l].index == i;
    assert b.CallOpen(l);
  }

  lemma HolderIsThat(b: Blocks, msg: Msg, k: nat, l: nat)
    requires DistinctIds(msg) && |b.calls| <= |msg.calls| && CallsClose(b, msg) && k < |msg.calls|
    requires Opened(b, l) && b.calls[l].id == Call(msg.calls[k].id)
    ensures l == k
  {
    assert CallCloses(b, msg.calls[l], l, Heads(msg) + l);
  }

  function Head(msg: Msg): nat { if |msg.reasoning| > 0 then 1 else 0 }

  function Heads(msg: Msg): nat { Head(msg) + if |msg.content| > 0 then 1 else 0 }

  // The reasoning opened first, and the message next.
  predicate HeadInOrder(b: Blocks, msg: Msg) {
    (|msg.reasoning| > 0 ==> b.reasoningIndex == 0) && (|msg.content| > 0 ==> b.textIndex == Head(msg))
  }

  // And then the calls, in order.
  predicate InOrder(b: Blocks, msg: Msg) {
    HeadInOrder(b, msg) && forall k :: 0 <= k < |b.calls| ==> b.calls[k].index == Heads(msg) + k
  }

  /** A client that folds the events has the final output when the items opened in order. */
  lemma ClientRebuildsTheOutput(b: Blocks, msg: Msg)
    requires b.Valid() && Says(b, msg) && CallsSaid(b, msg) && InOrder(b, msg)
    ensures b.client == OutputOf(msg)
  {
    hide OutputOf, Says, CallsSaid, InOrder, HeadInOrder, Blocks.Valid, CallItem, Heads;
    var out := OutputOf(msg);
    OutputLength(b, msg);
    OutputParts(msg);
    forall i | 0 <= i < |out| ensures b.client[i] == out[i] {
      if i >= Heads(msg) {
        SaidCall(b, msg, i - Heads(msg));
      } else {
        SaidHead(b, msg, i);
      }
    }
  }

  lemma OutputLength(b: Blocks, msg: Msg)
    requires b.Valid() && Says(b, msg) && CallsSaid(b, msg) && InOrder(b, msg)
    ensures |OutputOf(msg)| == Heads(msg) + |msg.calls| == |b.client|
  {
    if |b.client| > 0 { OwnerBelow(b, msg, |b.client| - 1); }
    if |msg.calls| > 0 { assert b.CallOpen(|b.calls| - 1); }
  }

  function HeadItem(msg: Msg, i: nat): Item {
    if i == 0 && |msg.reasoning| > 0 then Item(Reasoning, msg.reasoning, msg.reasoning, true)
    else Item(Message, msg.content, [], true)
  }

  lemma OutputParts(msg: Msg)
    ensures var out := OutputOf(msg);
            && |out| == Heads(msg) + |msg.calls|
            && (forall i :: 0 <= i < Heads(msg) ==> out[i] == HeadItem(msg, i))
            && forall k :: 0 <= k < |msg.calls| ==> out[Heads(msg) + k] == CallItem(msg.calls[k])
  {
  }

  lemma SaidCall(b: Blocks, msg: Msg, k: nat)
    requires b.Valid() && CallsSaid(b, msg) && InOrder(b, msg) && k < |msg.calls|
    ensures Heads(msg) + k < |b.client| && b.client[Heads(msg) + k] == CallItem(msg.calls[k])
  {
    assert b.CallOpen(k) && Opened(b, k);
  }

  lemma SaidHead(b: Blocks, msg: Msg, i: nat)
    requires b.Valid() && Says(b, msg) && InOrder(b, msg) && i < Heads(msg)
    ensures i < |b.client| && b.client[i] == HeadItem(msg, i)
  {
  }

  lemma OwnerBelow(b: Blocks, msg: Msg, i: nat)
    requires b.Valid() && Says(b, msg) && CallsSaid(b, msg) && InOrder(b, msg) && i < |b.client|
    ensures i < Heads(msg) + |msg.calls|
  {
    assert b.Owner(i);
  }

  // The head indices the source uses are right exactly if the head opened in order.
  lemma HeadIndices(b: Blocks, msg: Msg)
    requires b.Valid() && Says(b, msg)
    ensures |msg.reasoning| > 0 ==> (Names(b.client, 0, Reasoning) <==> b.reasoningIndex == 0)
    ensures |msg.content| > 0 ==> (Names(b.client, Head(msg), Message) <==> b.textIndex == Head(msg))
    ensures forall k :: 0 <= k < |b.calls| && b.calls[k].index >= 0 ==> Names(b.client, b.calls[k].index, b.calls[k].id)
  {
    forall k | 0 <= k < |b.calls| && b.calls[k].index >= 0
      ensures Names(b.client, b.calls[k].index, b.calls[k].id)
    {
      assert b.CallOpen(k);
    }
    if Names(b.client, 0, Reasoning) { OwnerByKind(b, 0); }
    if Names(b.client, Head(msg), Message) { OwnerByKind(b, Head(msg)); }
  }

  lemma OwnerByKind(b: Blocks, i: nat)
    requires b.Valid() && i < |b.client|
    ensures b.client[i].id.Reasoning? ==> b.reasoningStarted && b.reasoningIndex == i
    ensures b.client[i].id.Message? ==> b.textStarted && b.textIndex == i
  {
    assert b.Owner(i);
    forall k | 0 <= k < |b.calls| && b.calls[k].index == i ensures b.client[i].id.Call? { assert b.CallOpen(k); }
  }

  /** The blocks that are open, the client's array, and the texts sent so far. */
  datatype Blocks = Blocks(client: seq<Item>, reasoningStarted: bool, reasoningIndex: int, reasoning: string,
                           textStarted: bool, textIndex: int, content: string, calls: seq<CallState>,
                               arguments: seq<string>)
  {
    // Every index belongs to an open block.
    predicate Owner(i: int) {
      (reasoningStarted && reasoningIndex == i) || (textStarted && textIndex == i) ||
      exists k :: 0 <= k < |calls| && calls[k].index == i
    }

    predicate CallOpen(k: nat)
      requires k < |calls| == |arguments|
    {
      0 <= calls[k].index < |client| && calls[k].id.Call? &&
      client[calls[k].index] == Item(calls[k].id, arguments[k], [], false)
    }

    // Every open block is an item of the client with the text sent for it, and every item is one block's.
    predicate Valid() {
      && |arguments| == |calls|
      && (if reasoningStarted then
            0 <= reasoningIndex < |client| && client[reasoningIndex] == Item(Reasoning, reasoning, reasoning, true)
          else reasoning == [])
      && (if textStarted then 0 <= textIndex < |client| && client[textIndex] == Item(Message, content, [], true)
          else content == [])
      && (forall k :: 0 <= k < |calls| ==> if calls[k].index >= 0 then CallOpen(k) else arguments[k] == [])
      && (forall k, l :: 0 <= k < l < |calls| && calls[k].index >= 0 ==> calls[k].index != calls[l].index)
      && (forall i :: 0 <= i < |client| ==> Owner(i))
    }

    function Grown(id: ItemId): seq<Item> { client + [Item(id, [], [], !id.Call?)] }
  }

  // Where the open blocks are.
  lemma Placement(b: Blocks)
    requires b.Valid()
    ensures |b.arguments| == |b.calls|
    ensures b.reasoningStarted ==>
              0 <= b.reasoningIndex < |b.client| &&
              b.client[b.reasoningIndex] == Item(Reasoning, b.reasoning, b.reasoning, true)
    ensures b.textStarted ==>
              0 <= b.textIndex < |b.client| && b.client[b.textIndex] == Item(Message, b.content, [], true)
    ensures forall k :: 0 <= k < |b.calls| && b.calls[k].index >= 0 ==> b.CallOpen(k)
    ensures !b.reasoningStarted ==> b.reasoning == []
    ensures !b.textStarted ==> b.content == []
    ensures forall k :: 0 <= k < |b.calls| && b.calls[k].index < 0 ==> b.arguments[k] == []
  {
  }

  lemma OpenReasoning(b: Blocks)
    requires b.Valid() && !b.reasoningStarted
    ensures b.(client := b.Grown(Reasoning), reasoningStarted := true, reasoningIndex := |b.client|).Valid()
  {
    var c := b.(client := b.Grown(Reasoning), reasoningStarted := true, reasoningIndex := |b.client|);
    forall i | 0 <= i < |c.client| ensures c.Owner(i) { if i < |b.client| { assert b.Owner(i); } }
    forall k | 0 <= k < |b.calls| && b.calls[k].index >= 0 ensures c.CallOpen(k) { assert b.CallOpen(k); }
  }

  lemma OpenText(b: Blocks)
    requires b.Valid() && !b.textStarted
    ensures b.(client := b.Grown(Message), textStarted := true, textIndex := |b.client|).Valid()
  {
    var c := b.(client := b.Grown(Message), textStarted := true, textIndex := |b.client|);
    forall i | 0 <= i < |c.client| ensures c.Owner(i) { if i < |b.client| { assert b.Owner(i); } }
    forall k | 0 <= k < |b.calls| && b.calls[k].index >= 0 ensures c.CallOpen(k) { assert b.CallOpen(k); }
  }

  lemma OpenCall(b: Blocks, k: nat, id: ItemId)
    requires b.Valid() && k < |b.calls| && b.calls[k].index < 0 && id.Call?
    ensures b.(client := b.Grown(id), calls := b.calls[k := CallState(id, |b.client|)]).Valid()
  {
    var c := b.(client := b.Grown(id), calls := b.calls[k := CallState(id, |b.client|)]);
    forall i | 0 <= i < |c.client| ensures c.Owner(i) {
      if i < |b.client| {
        assert b.Owner(i);
        if l :| 0 <= l < |b.calls| && b.calls[l].index == i { assert c.calls[l].index == i; }
      } else {
        assert c.calls[k].index == i;
      }
    }
    forall l | 0 <= l < |b.calls| && c.calls[l].index >= 0 ensures c.CallOpen(l) { if l != k { assert b.CallOpen(l); } }
  }

  function Said(out: seq<Item>, index: int, item: Item): seq<Item> {
    if 0 <= index < |out| then out[index := item] else out
  }

  lemma SayReasoning(b: Blocks, text: string)
    requires b.Valid() && b.reasoningStarted
    ensures var all := b.reasoning + text;
            b.(client := Said(b.client, b.reasoningIndex, Item(Reasoning, all, all, true)), reasoning := all).Valid()
  {
    var all := b.reasoning + text;
    var c := b.(client := Said(b.client, b.reasoningIndex, Item(Reasoning, all, all, true)), reasoning := all);
    forall i | 0 <= i < |c.client| ensures c.Owner(i) { assert b.Owner(i); }
    forall k | 0 <= k < |b.calls| && b.calls[k].index >= 0 ensures c.CallOpen(k) { assert b.CallOpen(k); }
  }

  lemma SayText(b: Blocks, text: string)
    requires b.Valid() && b.textStarted
    ensures var all := b.content + text;
            b.(client := Said(b.client, b.textIndex, Item(Message, all, [], true)), content := all).Valid()
  {
    var all := b.content + text;
    var c := b.(client := Said(b.client, b.textIndex, Item(Message, all, [], true)), content := all);
    forall i | 0 <= i < |c.client| ensures c.Owner(i) { assert b.Owner(i); }
    forall k | 0 <= k < |b.calls| && b.calls[k].index >= 0 ensures c.CallOpen(k) { assert b.CallOpen(k); }
  }

  lemma SayCall(b: Blocks, k: nat, text: string)
    requires b.Valid() && k < |b.calls| && b.calls[k].index >= 0
    ensures var all := b.arguments[k] + text;
            b.(client := Said(b.client, b.calls[k].index, Item(b.calls[k].id, all, [], false)),
               arguments := b.arguments[k := all]).Valid()
  {
    var all := b.arguments[k] + text;
    var c := b.(client := Said(b.client, b.calls[k].index, Item(b.calls[k].id, all, [], false)),
                arguments := b.arguments[k := all]);
    assert b.CallOpen(k);
    forall i | 0 <= i < |c.client| ensures c.Owner(i) { assert b.Owner(i); }
    forall l | 0 <= l < |b.calls| && b.calls[l].index >= 0 ensures c.CallOpen(l) { assert b.CallOpen(l); }
  }

  // The table of calls grows with calls that are not open.
  lemma MoreCalls(b: Blocks, n: nat)
    requires b.Valid()
    ensures b.(calls := b.calls + seq(n, _ => CallState(Call([]), -1)),
               arguments := b.arguments + seq(n, _ => [])).Valid()
  {
    var c := b.(calls := b.calls + seq(n, _ => CallState(Call([]), -1)), arguments := b.arguments + seq(n, _ => []));
    forall i | 0 <= i < |c.client| ensures c.Owner(i) {
      assert b.Owner(i);
      if l :| 0 <= l < |b.calls| && b.calls[l].index == i { assert c.calls[l].index == i; }
    }
    forall l | 0 <= l < |c.calls| && c.calls[l].index >= 0 ensures c.CallOpen(l) { assert b.CallOpen(l); }
  }

  // The two events of a reasoning delta.
  lemma BothGrow(out: seq<Item>, n: nat, index: int, all: string, text: string)
    requires 0 <= index < |out| && out[index] == Item(Reasoning, all, all, true)
    ensures var e, f := Delta(n, index, Reasoning, text), SummaryDelta(n + 1, index, Reasoning, text);
            && Placed(out, e) && Placed(Apply(out, e), f)
            && Apply(Apply(out, e), f) == Said(out, index, Item(Reasoning, all + text, all + text, true))
  {
    var grown := Item(Reasoning, all + text, all, true);
    assert Apply(out, Delta(n, index, Reasoning, text)) == out[index := grown];
    assert out[index := grown][index := grown.(summary := all + text)] ==
           out[index := grown.(summary := all + text)];
  }

  // What one delta about call k does to the table of calls. A call opens once its name is known, and takes an id then.
  predicate CallHeard(diff: Diff, responseId: string, calls: seq<CallState>, arguments: seq<string>,
                      calls': seq<CallState>, arguments': seq<string>) {
    var k := diff.call;
    var was := k < |calls| && calls[k].index >= 0;
    && |calls| == |arguments| <= |calls'| == |arguments'| && k < |calls'|
    && (calls'[k].index >= 0 <==> was || |diff.name| > 0)
    && (was ==> calls'[k] == calls[k])
    && (!was && calls'[k].index >= 0 ==> calls'[k].id == Call(if |diff.id| == 0 then responseId else diff.id))
    && (calls'[k].index >= 0 ==> arguments'[k] == (if k < |arguments| then arguments[k] else []) + diff.arguments)
    && (forall l :: 0 <= l < |calls| && l != k ==> calls'[l] == calls[l] && arguments'[l] == arguments[l])
    && (forall l :: |calls| <= l < |calls'| && l != k ==> calls'[l].index < 0)
  }

  // The table before, once it reaches the call, and at the end.
  lemma HeardSoFar(diff: Diff, responseId: string, c: seq<CallState>, a: seq<string>, c1: seq<CallState>,
                   a1: seq<string>, c2: seq<CallState>, a2: seq<string>)
    requires var k := diff.call; |c| == |a| <= |c1| == |a1| == |c2| && k < |c1|
    requires forall l :: 0 <= l < |c| ==> c1[l] == c[l] && a1[l] == a[l]
    requires forall l :: |c| <= l < |c1| ==> c1[l].index < 0 && a1[l] == []
    requires var k := diff.call; if |diff.name| > 0 && c1[k].index < 0
                                 then c2 == c1[k := c2[k]] && c2[k].index >= 0 &&
                                 c2[k].id == Call(if |diff.id| == 0 then responseId else diff.id)
                                 else c2 == c1
    requires var k := diff.call; a2 == if c2[k].index >= 0 then a1[k := a1[k] + diff.arguments] else a1
    ensures CallHeard(diff, responseId, c, a, c2, a2)
  {
  }

  class Stream {
    const responseId: string
    var reasoningStarted: bool
    var textStarted: bool
    var calls: seq<CallState>
    var nextOutput: nat
    var reasoningIndex: int
    var textIndex: int
    var nextSequence: nat
    // What has been sent, the client's array, and the texts sent so far.
    ghost var log: seq<Event>
    ghost var client: seq<Item>
    ghost var reasoning: string
    ghost var content: string
    ghost var arguments: seq<string>

    ghost predicate Sent()
      reads this
    {
      WellFormed(log) && client == Client(log) && nextSequence == |log| && nextOutput == |client|
    }

    ghost function Abs(): Blocks
      reads this
    {
      Blocks(client, reasoningStarted, reasoningIndex, reasoning, textStarted, textIndex, content, calls, arguments)
    }

    ghost predicate Valid()
      reads this
    {
      Sent() && Abs().Valid()
    }

    constructor (responseId: string)
      ensures Valid() && log == [] && this.responseId == responseId
      ensures Abs() == Blocks([], false, -1, [], false, -1, [], [], [])
    {
      this.responseId := responseId;
      reasoningStarted, textStarted, calls, nextOutput, reasoningIndex, textIndex, nextSequence := false, false, [], 0,
          -1, -1, 0;
      log, client, reasoning, content, arguments := [], [], [], [], [];
    }

    // One event, with its number.
    method Send(e: Event)
      requires Sent() && e.n == nextSequence && Placed(client, e) && !e.Added?
      modifies this`log, this`client, this`nextSequence
      ensures Sent() && log == old(log) + [e] && client == Apply(old(client), e) &&
              nextSequence == old(nextSequence) + 1
    {
      hide WellFormed, Client, Placed;
      OneMore(log, e);
      log, client, nextSequence := log + [e], Apply(client, e), nextSequence + 1;
    }

    // A new item takes the next output index.
    method Open(id: ItemId) returns (index: int, e: Event)
      requires Sent()
      modifies this`log, this`client, this`nextSequence, this`nextOutput
      ensures Sent() && index == |old(client)| && log == old(log) + [e] &&
              client == old(client) + [Item(id, [], [], false)]
    {
      index := nextOutput;
      e := Added(nextSequence, index, id);
      OneMore(log, e);
      hide WellFormed, Client;
      log, client, nextSequence, nextOutput := log + [e], Apply(client, e), nextSequence + 1, nextOutput + 1;
    }

    method Created() returns (events: seq<Event>)
      requires Valid()
      modifies this`log, this`client, this`nextSequence
      ensures Valid() && Abs() == old(Abs()) && log == old(log) + events
      ensures events == [Event.Created(old(nextSequence)), InProgress(old(nextSequence) + 1)]
    {
      hide Blocks.Valid, WellFormed, Client;
      events := [Event.Created(nextSequence)];
      Send(events[0]);
      var e := InProgress(nextSequence);
      Send(e);
      events := events + [e];
    }

    method StartReasoning() returns (events: seq<Event>)
      requires Valid() && !reasoningStarted
      modifies this`log, this`client, this`nextSequence, this`nextOutput, this`reasoningStarted, this`reasoningIndex
      ensures Valid() && log == old(log) + events && reasoningStarted
      ensures reasoningIndex == |old(client)| && |client| == |old(client)| + 1
    {
      hide Blocks.Valid, WellFormed, Client;
      OpenReasoning(Abs());
      var e;
      reasoningIndex, e := Open(Reasoning);
      reasoningStarted, events := true, [e];
      e := PartAdded(nextSequence, reasoningIndex, Reasoning);
      Send(e);
      events := events + [e];
      assert client == old(Abs()).Grown(Reasoning);
    }

    // The reasoning part of one parsed delta.
    method Reason(text: string) returns (events: seq<Event>)
      requires Valid()
      modifies this`log, this`client, this`nextSequence, this`nextOutput, this`reasoningStarted, this`reasoningIndex,
          this`reasoning
      ensures Valid() && log == old(log) + events && reasoningStarted && reasoning == old(reasoning) + text
      ensures reasoningIndex == if old(reasoningStarted) then old(reasoningIndex) else |old(client)|
      ensures |client| == |old(client)| + if old(reasoningStarted) then 0 else 1
    {
      hide Blocks.Valid, WellFormed, Client;
      events := [];
      if !reasoningStarted { events := StartReasoning(); }
      var more := GrowReasoning(text);
      events := events + more;
    }

    // The two deltas, once the item and its part are there.
    method GrowReasoning(text: string) returns (events: seq<Event>)
      requires Valid() && reasoningStarted
      modifies this`log, this`client, this`nextSequence, this`reasoning
      ensures Valid() && log == old(log) + events && reasoning == old(reasoning) + text && |client| == |old(client)|
    {
      hide Blocks.Valid, WellFormed, Client;
      Placement(Abs());
      SayReasoning(Abs(), text);
      BothGrow(client, nextSequence, reasoningIndex, reasoning, text);
      hide Apply, Placed;
      var e := Delta(nextSequence, reasoningIndex, Reasoning, text);
      Send(e);
      events := [e];
      e := SummaryDelta(nextSequence, reasoningIndex, Reasoning, text);
      Send(e);
      events := events + [e];
      reasoning := reasoning + text;
    }

    method StartText() returns (events: seq<Event>)
      requires Valid() && !textStarted
      modifies this`log, this`client, this`nextSequence, this`nextOutput, this`textStarted, this`textIndex
      ensures Valid() && log == old(log) + events && textStarted
      ensures textIndex == |old(client)| && |client| == |old(client)| + 1
    {
      hide Blocks.Valid, WellFormed, Client;
      OpenText(Abs());
      var e;
      textIndex, e := Open(Message);
      textStarted, events := true, [e];
      e := PartAdded(nextSequence, textIndex, Message);
      Send(e);
      events := events + [e];
      assert client == old(Abs()).Grown(Message);
    }

    // The message part.
    method Say(text: string) returns (events: seq<Event>)
      requires Valid()
      modifies this`log, this`client, this`nextSequence, this`nextOutput, this`textStarted, this`textIndex, this`content
      ensures Valid() && log == old(log) + events && textStarted && content == old(content) + text
      ensures textIndex == if old(textStarted) then old(textIndex) else |old(client)|
    {
      hide Blocks.Valid, WellFormed, Client;
      events := [];
      if !textStarted { events := StartText(); }
      Placement(Abs());
      SayText(Abs(), text);
      ghost var was := client;
      var e := Delta(nextSequence, textIndex, Message, text);
      Send(e);
      events := events + [e];
      content := content + text;
      assert client == Said(was, textIndex, Item(Message, content, [], true));
    }

    // The table of calls reaches k.
    method GrowCalls(k: nat)
      requires Valid()
      modifies this`calls, this`arguments
      ensures Valid() && k < |calls| == |arguments| && |old(calls)| <= |calls| &&
              (k < |old(calls)| ==> calls == old(calls) && arguments == old(arguments))
      ensures forall l ::
                0 <= l < |old(calls)| ==>
                  calls[l] == old(calls)[l] && l < |old(arguments)| && arguments[l] == old(arguments)[l]
      ensures forall l :: |old(calls)| <= l < |calls| ==> calls[l].index < 0 && arguments[l] == []
    {
      hide Blocks.Valid, WellFormed, Client;
      Placement(Abs());
      if |calls| <= k {
        MoreCalls(Abs(), k + 1 - |calls|);
        calls, arguments := calls + seq(k + 1 - |calls|, _ => CallState(Call([]), -1)),
            arguments + seq(k + 1 - |arguments|, _ => []);
      }
    }

    method StartCall(k: nat, id: string) returns (e: Event)
      requires Valid() && k < |calls| == |arguments| && calls[k].index < 0
      modifies this`log, this`client, this`nextSequence, this`nextOutput, this`calls
      ensures Valid() && log == old(log) + [e] && calls[k].index >= 0 && calls == old(calls)[k := calls[k]]
      ensures calls[k].id == Call(if |id| == 0 then responseId else id)
    {
      hide Blocks.Valid, WellFormed, Client;
      var own := Call(if |id| == 0 then responseId else id);
      OpenCall(Abs(), k, own);
      var index;
      index, e := Open(own);
      calls := calls[k := CallState(own, index)];
    }

    method Argue(k: nat, text: string) returns (e: Event)
      requires Valid() && k < |calls| == |arguments| && calls[k].index >= 0
      modifies this`log, this`client, this`nextSequence, this`arguments
      ensures Valid() && log == old(log) + [e] && arguments == old(arguments)[k := old(arguments)[k] + text]
    {
      hide Blocks.Valid, WellFormed, Client;
      Placement(Abs());
      SayCall(Abs(), k, text);
      assert Abs().CallOpen(k);
      ghost var was := client;
      e := Delta(nextSequence, calls[k].index, calls[k].id, text);
      Send(e);
      arguments := arguments[k := arguments[k] + text];
      assert client == Said(was, calls[k].index, Item(calls[k].id, arguments[k], [], false));
    }

    // The tool call part. A call opens once its name is known; arguments before that are not sent.
    method CallTool(diff: Diff) returns (events: seq<Event>)
      requires Valid()
      modifies this`log, this`client, this`nextSequence, this`nextOutput, this`calls, this`arguments
      ensures Valid() && log == old(log) + events &&
              CallHeard(diff, responseId, old(calls), old(arguments), calls, arguments)
      ensures calls[diff.call].index < 0 ==> events == []
    {
      hide Blocks.Valid, Blocks.CallOpen, WellFormed, Client, CallHeard;
      Placement(Abs());
      var k := diff.call;
      events := [];
      GrowCalls(k);
      Placement(Abs());
      ghost var grown, said := calls, arguments;
      if |diff.name| > 0 && calls[k].index < 0 {
        var e := StartCall(k, diff.id);
        events := [e];
      }
      if |diff.arguments| > 0 && calls[k].index >= 0 {
        var e := Argue(k, diff.arguments);
        events := events + [e];
      } else {
        assert |diff.arguments| == 0 ==> said[k] + diff.arguments == said[k];
      }
      HeardSoFar(diff, responseId, old(calls), old(arguments), grown, said, calls, arguments);
    }

    /** kvmem_responses_stream_events: one parsed delta. */
    method Events(diff: Diff) returns (events: seq<Event>)
      requires Valid()
      modifies this
      ensures Valid() && log == old(log) + events
      ensures reasoning == old(reasoning) + diff.reasoning && content == old(content) + diff.content
      // Each block opens with its first text, reasoning before the message, at the next index.
      ensures (reasoningStarted <==> old(reasoningStarted) || |diff.reasoning| > 0)
      ensures (textStarted <==> old(textStarted) || |diff.content| > 0)
      ensures reasoningIndex == if old(reasoningStarted) || diff.reasoning == [] then old(reasoningIndex)
              else |old(client)|
      ensures textIndex == if old(textStarted) || diff.content == [] then old(textIndex)
                           else |old(client)| + if reasoningStarted && !old(reasoningStarted) then 1 else 0
      ensures diff.reasoning == [] && diff.content == [] && !diff.hasCall ==> events == []
      ensures !diff.hasCall ==> calls == old(calls) && arguments == old(arguments)
      ensures diff.hasCall ==> CallHeard(diff, responseId, old(calls), old(arguments), calls, arguments)
    {
      hide Blocks.Valid, WellFormed, Client;
      events := [];
      if |diff.reasoning| > 0 {
        var more := Reason(diff.reasoning);
        events := events + more;
      }
      if |diff.content| > 0 {
        var more := Say(diff.content);
        events := events + more;
      }
      if diff.hasCall {
        var more := CallTool(diff);
        events := events + more;
      }
    }

    // A closing event, which no client array depends on.
    method Close(e: Event)
      requires Valid() && e.n == nextSequence && (e.TextDone? || e.PartDone? || e.ItemDone? || e.Completed?)
      modifies this`log, this`client, this`nextSequence
      ensures Valid() && Abs() == old(Abs()) && log == old(log) + [e] && nextSequence == old(nextSequence) + 1
    {
      hide Blocks.Valid, WellFormed, Client;
      Send(e);
    }

    // The two text events and the item event that close reasoning or a message.
    method CloseText(index: int, id: ItemId, text: string, summary: string) returns (events: seq<Event>)
      requires Valid()
      modifies this`log, this`client, this`nextSequence
      ensures Valid() && Abs() == old(Abs()) && log == old(log) + events
      ensures events == TextClosing(old(nextSequence), index, id, text, summary)
    {
      hide Blocks.Valid, WellFormed, Client;
      var e := TextDone(nextSequence, index, id, text);
      Close(e);
      events := [e];
      e := PartDone(nextSequence, index, id, text);
      Close(e);
      events := events + [e];
      e := ItemDone(nextSequence, index, Item(id, text, summary, true));
      Close(e);
      events := events + [e];
    }

    // The events that close one call. A call that was never opened has no index of its own.
    method CloseCall(k: nat, call: ToolCall, index: int) returns (events: seq<Event>)
      requires Valid()
      modifies this`log, this`client, this`nextSequence
      ensures Valid() && Abs() == old(Abs()) && log == old(log) + events
      ensures events == CallClosing(old(nextSequence), Abs(), k, call, index)
    {
      hide Blocks.Valid, WellFormed, Client;
      events := [];
      var isOpen := k < |calls| && calls[k].index >= 0;
      if isOpen {
        var e := TextDone(nextSequence, calls[k].index, calls[k].id, call.arguments);
        Close(e);
        events := [e];
      }
      var e := ItemDone(nextSequence, if isOpen then calls[k].index else index, CallItem(call));
      Close(e);
      events := events + [e];
    }

    // The events that close reasoning and message, with the positions the source counts for them.
    method CloseHead(msg: Msg) returns (events: seq<Event>, output: seq<Item>)
      requires Valid()
      modifies this`log, this`client, this`nextSequence
      ensures Valid() && Abs() == old(Abs()) && log == old(log) + events
      ensures AllClose(client, events) <==>
                (|msg.reasoning| > 0 ==> Names(client, 0, Reasoning)) &&
                (|msg.content| > 0 ==> Names(client, Head(msg), Message))
      ensures output == DoneItems(events) == OutputOf(msg.(calls := [])) && |output| == Heads(msg)
      // Text, part and item, in this order, with the whole text; and they agree with a client that has the items there.
      ensures Closings(events) ==
              (if |msg.reasoning| > 0 then
                 [TextClosed(Reasoning, msg.reasoning), PartClosed(Reasoning, msg.reasoning), ItemClosed(Reasoning)]
               else []) +
              (if |msg.content| > 0 then
                 [TextClosed(Message, msg.content), PartClosed(Message, msg.content), ItemClosed(Message)]
               else [])
      ensures Says(Abs(), msg) && HeadInOrder(Abs(), msg) ==> AllAgree(client, events)
    {
      hide Blocks.Valid, WellFormed, Client, AllClose, Names, AllAgree, Closings, DoneItems, TextClosing, Says,
          HeadInOrder;
      ghost var b := Abs();
      HeadAgrees(b, msg);
      NothingCloses(client);
      events, output := [], [];
      if |msg.reasoning| > 0 {
        ClosingOfText(client, nextSequence, 0, Reasoning, msg.reasoning, msg.reasoning);
        events := CloseText(0, Reasoning, msg.reasoning, msg.reasoning);
        output := [Item(Reasoning, msg.reasoning, msg.reasoning, true)];
      }
      if |msg.content| > 0 {
        ClosingOfText(client, nextSequence, Head(msg), Message, msg.content, []);
        var more := CloseText(Head(msg), Message, msg.content, []);
        CloseMore(client, events, more);
        DoneMore(events, more);
        ClosingsMore(events, more);
        if Says(b, msg) && HeadInOrder(b, msg) { AgreeMore(client, events, more); }
        events, output := events + more, output + [Item(Message, msg.content, [], true)];
      }
    }

    /** kvmem_responses_stream_done. The last event carries the final output. If the message has the texts that the
        deltas said, the closing events name the right items exactly when reasoning and message opened in that order and
        every call closes, and when the calls were said and followed in order the client already has the final
        output. */
    method Done(msg: Msg) returns (events: seq<Event>)
      requires Valid()
      modifies this`log, this`client, this`nextSequence
      ensures Valid() && Abs() == old(Abs()) && log == old(log) + events
      ensures events != [] && events[|events| - 1] == Completed(events[|events| - 1].n, OutputOf(msg))
      ensures DoneItems(events) == OutputOf(msg)
      // Reasoning and message close their text, then their part, then the item; opened calls their arguments first.
      ensures Closings(events) ==
              (if |msg.reasoning| > 0 then
                 [TextClosed(Reasoning, msg.reasoning), PartClosed(Reasoning, msg.reasoning), ItemClosed(Reasoning)]
               else []) +
              (if |msg.content| > 0 then
                 [TextClosed(Message, msg.content), PartClosed(Message, msg.content), ItemClosed(Message)]
               else []) +
              CallClosings(Abs(), msg.calls)
      // What they say of an item is what the deltas have built at the client.
      ensures Says(Abs(), msg) && CallsSaid(Abs(), msg) && HeadInOrder(Abs(), msg) ==> AllAgree(client, events)
      ensures Says(Abs(), msg) ==> (AllClose(client, events) <==> HeadInOrder(Abs(), msg) && CallsClose(Abs(), msg))
      ensures Says(Abs(), msg) && CallsSaid(Abs(), msg) && InOrder(Abs(), msg) ==> client == OutputOf(msg)
    {
      hide Blocks.Valid, WellFormed, Client, AllClose, Says, HeadInOrder, InOrder, Names, DoneItems, CallsClose,
          CallsSaid, Closings, CallClosings, AllAgree;
      ghost var b := Abs();
      SaysMeans(b, msg);
      var head, output := CloseHead(msg);
      var calls := CloseCalls(msg);
      output := output + CallItems(msg.calls);
      var last := Completed(nextSequence, output);
      Close(last);
      CompletedCloses(client, last);
      CloseMore(client, head, calls);
      CloseMore(client, head + calls, [last]);
      DoneMore(head, calls);
      DoneMore(head + calls, [last]);
      ClosingsMore(head, calls);
      ClosingsMore(head + calls, [last]);
      if Says(b, msg) && CallsSaid(b, msg) && HeadInOrder(b, msg) {
        AgreeMore(client, head, calls);
        AgreeMore(client, head + calls, [last]);
      }
      events := head + calls + [last];
      if Says(b, msg) && CallsSaid(b, msg) && InOrder(b, msg) { ClientRebuildsTheOutput(b, msg); }
    }

    // The events that close the calls.
    method CloseCalls(msg: Msg) returns (events: seq<Event>)
      requires Valid()
      modifies this`log, this`client, this`nextSequence
      ensures Valid() && Abs() == old(Abs()) && log == old(log) + events
      ensures DoneItems(events) == CallItems(msg.calls) && (AllClose(client, events) <==> CallsClose(Abs(), msg))
      ensures Closings(events) == CallClosings(Abs(), msg.calls)
      ensures CallsSaid(Abs(), msg) ==> AllAgree(client, events)
    {
      hide Blocks.Valid, WellFormed, Client, AllClose, Names, DoneItems, CallCloses, Closings, AllAgree, CallsSaid,
          CallClosing;
      ghost var b := Abs();
      NothingCloses(client);
      var index := Heads(msg);
      events := [];
      for k := 0 to |msg.calls|
        invariant Valid() && Abs() == b && log == old(log) + events && index == Heads(msg) + k
        invariant DoneItems(events) == CallItems(msg.calls[..k])
        invariant AllClose(client, events) <==>
                    forall j :: 0 <= j < k ==> CallCloses(b, msg.calls[j], j, Heads(msg) + j)
        invariant Closings(events) == CallClosings(b, msg.calls[..k])
        invariant CallsSaid(b, msg) ==> AllAgree(client, events)
      {
        ClosingOfCall(nextSequence, b, k, msg.calls[k], index);
        var more := CloseCall(k, msg.calls[k], index);
        CloseMore(client, events, more);
        DoneMore(events, more);
        ClosingsMore(events, more);
        CallClosingsNext(b, msg, k);
        if CallsSaid(b, msg) { AgreeMore(client, events, more); }
        OneMoreCall(msg.calls, k);
        events, index := events + more, index + 1;
      }
      assert msg.calls[..|msg.calls|] == msg.calls;
    }
  }

  /** Text before thought: the message opens at index 0 and the reasoning at 1, and the closing events, which count the
      other way round, name the wrong items. */
  method HeadOutOfOrder(responseId: string, text: string, thought: string) returns (stream: Stream, events: seq<Event>)
    requires |text| > 0 && |thought| > 0
    ensures stream.Valid() && Says(stream.Abs(), Msg(thought, text, []))
    ensures !AllClose(stream.client, events)
  {
    hide Blocks.Valid, WellFormed, Client, AllClose;
    stream := new Stream(responseId);
    var first := stream.Events(Diff([], text, false, 0, [], [], []));
    var second := stream.Events(Diff(thought, [], false, 0, [], [], []));
    assert [] + thought + [] == thought && [] + text + [] == text;
    events := stream.Done(Msg(thought, text, []));
  }

  /** A call that is named without an id opens under the response's id, and is reported as done under none. */
  method CallWithoutId(responseId: string, name: string, arguments: string)
    returns (stream: Stream, events: seq<Event>)
    requires |responseId| > 0 && |name| > 0
    ensures stream.Valid() && Says(stream.Abs(), Msg([], [], [ToolCall([], arguments)]))
    ensures HeadInOrder(stream.Abs(), Msg([], [], [ToolCall([], arguments)])) && !AllClose(stream.client, events)
  {
    hide Blocks.Valid, WellFormed, Client, AllClose;
    stream := new Stream(responseId);
    var first := stream.Events(Diff([], [], true, 0, name, [], arguments));
    var msg := Msg([], [], [ToolCall([], arguments)]);
    events := stream.Done(msg);
    assert !CallCloses(stream.Abs(), msg.calls[0], 0, Heads(msg));
  }

  lemma OpenCallIsNamed(b: Blocks, k: nat)
    requires b.Valid() && Opened(b, k)
    ensures forall id :: Names(b.client, b.calls[k].index, id) <==> b.calls[k].id == id
  {
    assert b.CallOpen(k);
  }

  function TextClosing(n: nat, index: int, id: ItemId, text: string, summary: string): seq<Event> {
    [TextDone(n, index, id, text), PartDone(n + 1, index, id, text),
     ItemDone(n + 2, index, Item(id, text, summary, true))]
  }

  lemma ClosingOfText(out: seq<Item>, n: nat, index: int, id: ItemId, text: string, summary: string)
    ensures var events := TextClosing(n, index, id, text, summary);
            && (AllClose(out, events) <==> Names(out, index, id))
            && (0 <= index < |out| && out[index] == Item(id, text, summary, true) ==> AllAgree(out, events))
            && DoneItems(events) == [Item(id, text, summary, true)]
            && Closings(events) == [TextClosed(id, text), PartClosed(id, text), ItemClosed(id)]
  {
    var events := TextClosing(n, index, id, text, summary);
    assert Closes(out, events[0]) <==> Names(out, index, id);
    var a, b, c := events[0], events[1], events[2];
    assert events == [a] + [b] + [c];
    OneEvent(a);
    OneEvent(b);
    OneEvent(c);
    hide DoneItems, Closings;
    DoneMore([a], [b]);
    DoneMore([a] + [b], [c]);
    ClosingsMore([a], [b]);
    ClosingsMore([a] + [b], [c]);
  }

  lemma OneEvent(e: Event)
    ensures DoneItems([e]) == if e.ItemDone? then [e.item] else []
    ensures Closings([e]) == match e
                             case TextDone(_, _, id, text) => [TextClosed(id, text)]
                             case PartDone(_, _, id, text) => [PartClosed(id, text)]
                             case ItemDone(_, _, item) => [ItemClosed(item.id)]
                             case _ => []
  {
    assert [e][1..] == [];
  }

  // The events that close one call.
  function CallClosing(n: nat, b: Blocks, k: nat, call: ToolCall, index: int): seq<Event> {
    if Opened(b, k) then
      [TextDone(n, b.calls[k].index, b.calls[k].id, call.arguments), ItemDone(n + 1, b.calls[k].index, CallItem(call))]
    else [ItemDone(n, index, CallItem(call))]
  }

  lemma ClosingOfCall(n: nat, b: Blocks, k: nat, call: ToolCall, index: int)
    requires b.Valid()
    ensures var events := CallClosing(n, b, k, call, index);
            && (AllClose(b.client, events) <==> CallCloses(b, call, k, index))
            && (CallSaid(b, call, k) ==> AllAgree(b.client, events))
            && DoneItems(events) == [CallItem(call)]
            && Closings(events) ==
               (if Opened(b, k) then [TextClosed(b.calls[k].id, call.arguments)] else []) +
               [ItemClosed(Call(call.id))]
  {
    hide Blocks.Valid;
    var events := CallClosing(n, b, k, call, index);
    if CallSaid(b, call, k) { CallAgrees(b, call, k); }
    OneEvent(events[0]);
    if Opened(b, k) {
      OpenCallIsNamed(b, k);
      assert Closes(b.client, events[1]) <==> Names(b.client, b.calls[k].index, Call(call.id));
      OneEvent(events[1]);
      assert events == [events[0]] + [events[1]];
      hide DoneItems, Closings;
      DoneMore([events[0]], [events[1]]);
      ClosingsMore([events[0]], [events[1]]);
    } else {
      assert Closes(b.client, events[0]) <==> Names(b.client, index, Call(call.id));
    }
  }

  // Where the head opened in order, the client has its items where it closes.
  lemma HeadAgrees(b: Blocks, msg: Msg)
    requires b.Valid()
    ensures Says(b, msg) && HeadInOrder(b, msg) && |msg.reasoning| > 0 ==>
              0 < |b.client| && b.client[0] == Item(Reasoning, msg.reasoning, msg.reasoning, true)
    ensures Says(b, msg) && HeadInOrder(b, msg) && |msg.content| > 0 ==>
              Head(msg) < |b.client| && b.client[Head(msg)] == Item(Message, msg.content, [], true)
  {
  }

  lemma CallClosingsNext(b: Blocks, msg: Msg, k: nat)
    requires k < |msg.calls|
    ensures CallClosings(b, msg.calls[..k + 1]) ==
            CallClosings(b, msg.calls[..k]) +
            ((if Opened(b, k) then [TextClosed(b.calls[k].id, msg.calls[k].arguments)] else []) +
             [ItemClosed(Call(msg.calls[k].id))])
    ensures CallsSaid(b, msg) ==> CallSaid(b, msg.calls[k], k)
  {
    assert msg.calls[..k + 1][..k] == msg.calls[..k];
  }

  lemma CallAgrees(b: Blocks, call: ToolCall, k: nat)
    requires b.Valid() && CallSaid(b, call, k)
    ensures 0 <= b.calls[k].index < |b.client| && b.client[b.calls[k].index] == CallItem(call)
  {
    assert b.CallOpen(k);
  }

  lemma NothingCloses(out: seq<Item>)
    ensures AllClose(out, []) && DoneItems([]) == [] && AllAgree(out, []) && Closings([]) == []
  {
  }

  lemma CompletedCloses(out: seq<Item>, e: Event)
    requires e.Completed?
    ensures AllClose(out, [e]) && DoneItems([e]) == [] && Closings([e]) == [] && AllAgree(out, [e])
  {
    OneEvent(e);
  }

  lemma SaysMeans(b: Blocks, msg: Msg)
    requires b.Valid()
    ensures Says(b, msg) ==>
              (HeadInOrder(b, msg) <==>
                    (|msg.reasoning| > 0 ==> Names(b.client, 0, Reasoning)) &&
                    (|msg.content| > 0 ==> Names(b.client, Head(msg), Message)))
  {
    if Says(b, msg) { HeadIndices(b, msg); }
  }
}
