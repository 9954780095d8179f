/**
 The speculative generation loop of tools/kvmem-spec.cpp.

 The target model and the sampler are deterministic but otherwise arbitrary; draft
 proposals are arbitrary. The reference is one-token-at-a-time sampling. The loop is
 given twice: as a function on values (Round, Run), about which the theorems are stated,
 and as the imperative loop over a mutable target context, proved against that function.
 */
module SpeculativeGeneration {
  type Token = int

  // The sampler's state: grammar, penalties, random generator.
  type Sampler(!new)

  /** pick looks at the sampler, the attention rows and the rows folded into the recurrent state.
      The two row sequences are kept apart because a rollback can truncate one without the other. */
  datatype Model = Model(
    pick: (Sampler, seq<Token>, seq<Token>) -> Token,
    accept: (Sampler, Token) -> Sampler,
    isEnd: Token -> bool)

  /** How a context undoes rejected rows of the recurrent state. */
  datatype Rollback =
    | Dense              // no recurrent state
    | HostCheckpoint     // only a saved copy can be reloaded
    | Planes(n: nat)     // the last n rows can be undone on the device
    | Replay(n: nat)     // up to n + 1 rows are recorded and folded on commit
  {
    function RsRows(): nat { if Planes? || Replay? then n else 0 }
    predicate UsesHostCheckpoint(nDraft: nat) { HostCheckpoint? || (RsRows() > 0 && nDraft > RsRows()) }
    predicate Valid() { Planes? || Replay? ==> n > 0 }
  }

  datatype Config = Config(
    model: Model,
    mode: Rollback,
    nCtx: nat,
    nPredict: nat,
    drafts: nat -> seq<Token>)   // what the draft model proposes in each round

  /* ---------- The reference: one token at a time ---------- */

  // The tokens sampled after text, at most n of them, the last one possibly an end token.
  function Reference(m: Model, s: Sampler, text: seq<Token>, n: nat): seq<Token>
    decreases n
  {
    if n == 0 then [] else
    var t := m.pick(s, text, text);
    if m.isEnd(t) then [t] else [t] + Reference(m, m.accept(s, t), text + [t], n - 1)
  }

  function Goal(c: Config, s: Sampler, prompt: seq<Token>): seq<Token> {
    Reference(c.model, s, prompt, c.nPredict)
  }

  // What a caller is shown: everything but the end token.
  function Shown(m: Model, ids: seq<Token>): seq<Token> {
    if ids != [] && m.isEnd(ids[|ids| - 1]) then ids[..|ids| - 1] else ids
  }

  /* ---------- One round ---------- */

  // The contract of llama.cpp's sample-and-accept: the agreed part of the draft, then one fresh token.
  function SampleAndAccept(m: Model, s: Sampler, rows: seq<Token>, rec: seq<Token>,
                           draft: seq<Token>): (ids: seq<Token>)
    ensures 1 <= |ids| <= |draft| + 1
    ensures ids[..|ids| - 1] == draft[..|ids| - 1]
    decreases |draft|
  {
    var t := m.pick(s, rows, rec);
    if draft == [] || draft[0] != t then [t]
    else [t] + SampleAndAccept(m, m.accept(s, t), rows + [t], rec + [t], draft[1..])
  }

  function AcceptAll(m: Model, s: Sampler, ids: seq<Token>): Sampler {
    if ids == [] then s else AcceptAll(m, m.accept(s, ids[0]), ids[1..])
  }

  predicate NoEnd(m: Model, ids: seq<Token>) {
    forall i :: 0 <= i < |ids| ==> !m.isEnd(ids[i])
  }

  // Everything up to and including the first end token.
  function CutAtEnd(m: Model, ids: seq<Token>): (r: seq<Token>)
    ensures r <= ids && (ids != [] ==> r != [])
    ensures forall i :: 0 <= i < |r| - 1 ==> !m.isEnd(r[i])
  {
    if ids == [] || m.isEnd(ids[0]) then (if ids == [] then [] else [ids[0]]) else [ids[0]] + CutAtEnd(m, ids[1..])
  }

  function Min(a: int, b: int): int { if a < b then a else b }
  function Max(a: int, b: int): int { if a < b then b else a }

  /** The loop's variables. restored counts rounds that went back to the checkpoint. */
  datatype Gen = Gen(prompt: seq<Token>, idLast: Token, draft: seq<Token>, sampler: Sampler,
                     emitted: seq<Token>, ended: bool, drafted: nat, accepted: nat, restored: nat, round: nat)
  {
    function Text(): seq<Token> { prompt + [idLast] }
  }

  predicate Done(c: Config, g: Gen) { |g.emitted| >= c.nPredict || g.ended }

  function DraftCap(c: Config, g: Gen): nat {
    Max(Min(c.nCtx - |g.prompt| - 2, c.nPredict - |g.emitted| - 1), 0)
  }

  function Proposal(c: Config, g: Gen): seq<Token> {
    var p := c.drafts(g.round);
    p[..Min(|p|, DraftCap(c, g))]
  }

  function DraftOf(c: Config, g: Gen): seq<Token> {
    if g.draft == [] then Proposal(c, g) else g.draft
  }

  function Room(c: Config, g: Gen): nat { Max(c.nPredict - |g.emitted|, 0) }

  // The sampled ids of the round, cut to the room left and at the first end token.
  function Verified(c: Config, g: Gen): seq<Token> {
    var ids := SampleAndAccept(c.model, g.sampler, g.Text(), g.Text(), DraftOf(c, g));
    CutAtEnd(c.model, ids[..Min(|ids|, Room(c, g))])
  }

  predicate Restores(c: Config, g: Gen) {
    c.mode.UsesHostCheckpoint(|DraftOf(c, g)|) && Verified(c, g) != [] && |Verified(c, g)| - 1 < |DraftOf(c, g)|
  }

  /** A round goes back to the checkpoint exactly if it has not taken its whole draft and the device cannot undo it: it
      never can without planes or a recording, and with n of them not when the draft is longer than n. */
  lemma RestoresIff(c: Config, g: Gen)
    requires c.mode.Valid() && !Done(c, g)
    ensures Restores(c, g) <==>
              && |Verified(c, g)| <= |DraftOf(c, g)|
              && match c.mode
                 case Dense => false
                 case HostCheckpoint => true
                 case Planes(n) => |DraftOf(c, g)| > n
                 case Replay(n) => |DraftOf(c, g)| > n
  {
    hide DraftOf;
    assert Verified(c, g) != [];
  }

  function Round(c: Config, g: Gen): Gen {
    var draft := DraftOf(c, g);
    var ids := Verified(c, g);
    if ids == [] then g
    else if Restores(c, g) then g.(draft := ids, restored := g.restored + 1, round := g.round + 1)
    else
      var k := |ids| - 1;
      Gen(g.Text() + ids[..k], ids[k], [],
          AcceptAll(c.model, g.sampler, SampleAndAccept(c.model, g.sampler, g.Text(), g.Text(), draft)),
          g.emitted + Shown(c.model, ids), c.model.isEnd(ids[k]),
          g.drafted + |draft|, g.accepted + k, g.restored, g.round + 1)
  }

  // The state at the k-th loop head; a finished generation stays where it is.
  function Run(c: Config, g: Gen, k: nat): Gen {
    if k == 0 then g else
    var h := Run(c, g, k - 1);
    if Done(c, h) then h else Round(c, h)
  }

  function Start(s: Sampler, prompt: seq<Token>): Gen
    requires prompt != []
  {
    Gen(prompt[..|prompt| - 1], prompt[|prompt| - 1], [], s, [], false, 0, 0, 0, 0)
  }

  /* ---------- Verification agrees with the reference ---------- */

  // n sampled tokens, regardless of end tokens.
  function Stream(m: Model, s: Sampler, text: seq<Token>, n: nat): (r: seq<Token>)
    ensures |r| == n
    decreases n
  {
    if n == 0 then [] else
    var t := m.pick(s, text, text);
    [t] + Stream(m, m.accept(s, t), text + [t], n - 1)
  }

  lemma {:induction false} StreamPrefix(m: Model, s: Sampler, text: seq<Token>, n: nat, k: nat)
    requires k <= n
    ensures Stream(m, s, text, n)[..k] == Stream(m, s, text, k)
    decreases k
  {
    if k > 0 {
      var t := m.pick(s, text, text);
      StreamPrefix(m, m.accept(s, t), text + [t], n - 1, k - 1);
    }
  }

  lemma {:induction false} DraftedIdsAreStream(m: Model, s: Sampler, text: seq<Token>, draft: seq<Token>)
    ensures var ids := SampleAndAccept(m, s, text, text, draft); ids == Stream(m, s, text, |ids|)
    decreases |draft|
  {
    var t := m.pick(s, text, text);
    if draft != [] && draft[0] == t {
      DraftedIdsAreStream(m, m.accept(s, t), text + [t], draft[1..]);
    }
  }

  lemma Assoc(a: seq<Token>, b: seq<Token>, d: seq<Token>)
    ensures (a + b) + d == a + (b + d)
  {
  }

  lemma DropOfSum(a: seq<Token>, b: seq<Token>, n: nat)
    requires n <= |a|
    ensures (a + b)[n..] == a[n..] + b
  {
  }

  lemma NoEndCons(m: Model, t: Token, rest: seq<Token>)
    requires !m.isEnd(t)
    ensures NoEnd(m, [t] + rest) <==> NoEnd(m, rest)
  {
    if NoEnd(m, [t] + rest) { assert ([t] + rest)[1..] == rest; NoEndTail(m, [t] + rest); }
  }

  lemma StreamStep(m: Model, s: Sampler, text: seq<Token>, n: nat)
    requires n > 0
    ensures var t := m.pick(s, text, text);
            Stream(m, s, text, n) == [t] + Stream(m, m.accept(s, t), text + [t], n - 1)
  {
  }

  lemma ReferenceStep(m: Model, s: Sampler, text: seq<Token>, n: nat)
    requires n > 0
    ensures var t := m.pick(s, text, text);
            Reference(m, s, text, n) ==
            if m.isEnd(t) then [t] else [t] + Reference(m, m.accept(s, t), text + [t], n - 1)
  {
  }

  lemma CutCons(m: Model, t: Token, rest: seq<Token>)
    ensures CutAtEnd(m, [t] + rest) == if m.isEnd(t) then [t] else [t] + CutAtEnd(m, rest)
  {
    assert ([t] + rest)[1..] == rest;
  }

  // The reference, read k tokens at a time: an end token among them stops it ...
  lemma {:induction false} ReferenceStops(m: Model, s: Sampler, text: seq<Token>, n: nat, k: nat)
    requires k <= n && !NoEnd(m, Stream(m, s, text, k))
    ensures Reference(m, s, text, n) == CutAtEnd(m, Stream(m, s, text, k))
    decreases k
  {
    hide Stream, Reference, CutAtEnd;
    var t := m.pick(s, text, text);
    if k > 0 {
      var rest := Stream(m, m.accept(s, t), text + [t], k - 1);
      StreamStep(m, s, text, k);
      ReferenceStep(m, s, text, n);
      CutCons(m, t, rest);
      if !m.isEnd(t) {
        NoEndCons(m, t, rest);
        ReferenceStops(m, m.accept(s, t), text + [t], n - 1, k - 1);
      }
    }
  }

  // ... and otherwise it goes on after them.
  lemma {:induction false} ReferenceContinues(m: Model, s: Sampler, text: seq<Token>, n: nat, k: nat)
    requires k <= n && NoEnd(m, Stream(m, s, text, k))
    ensures var ids := Stream(m, s, text, k);
            Reference(m, s, text, n) == ids + Reference(m, AcceptAll(m, s, ids), text + ids, n - k)
    decreases k
  {
    var ids := Stream(m, s, text, k);
    if k == 0 {
      assert text + ids == text;
    } else {
      var t := m.pick(s, text, text);
      var next, rest := m.accept(s, t), Stream(m, m.accept(s, t), text + [t], k - 1);
      assert ids[0] == t && ids[1..] == rest;
      assert NoEnd(m, rest) by { NoEndTail(m, ids); }
      ReferenceContinues(m, next, text + [t], n - 1, k - 1);
      Assoc(text, [t], rest);
      Assoc([t], rest, Reference(m, AcceptAll(m, next, rest), text + ids, n - k));
    }
  }

  lemma NoEndTail(m: Model, ids: seq<Token>)
    requires ids != [] && NoEnd(m, ids)
    ensures NoEnd(m, ids[1..])
  {
  }

  lemma {:induction false} CutKeepsWhole(m: Model, ids: seq<Token>)
    ensures ids != [] ==> (m.isEnd(CutAtEnd(m, ids)[|CutAtEnd(m, ids)| - 1]) <==> !NoEnd(m, ids))
    ensures NoEnd(m, ids) ==> CutAtEnd(m, ids) == ids
  {
    if ids != [] && !m.isEnd(ids[0]) {
      CutKeepsWhole(m, ids[1..]);
      if NoEnd(m, ids[1..]) {
        forall i | 0 <= i < |ids| ensures !m.isEnd(ids[i]) { if i > 0 { assert ids[1..][i - 1] == ids[i]; } }
      } else if NoEnd(m, ids) {
        NoEndTail(m, ids);
      }
    }
  }

  lemma {:induction false} CutIdempotent(m: Model, ids: seq<Token>)
    requires ids != []
    ensures var cut := CutAtEnd(m, ids); CutAtEnd(m, cut) == cut && (!m.isEnd(cut[|cut| - 1]) ==> cut == ids)
  {
    if !m.isEnd(ids[0]) && |ids| > 1 {
      hide CutAtEnd;
      var rest := CutAtEnd(m, ids[1..]);
      CutIdempotent(m, ids[1..]);
      assert ids == [ids[0]] + ids[1..];
      CutCons(m, ids[0], ids[1..]);
      CutCons(m, ids[0], rest);
    }
  }

  lemma {:induction false} CutSnoc(m: Model, ids: seq<Token>, t: Token)
    requires ids != [] && CutAtEnd(m, ids) == ids
    ensures CutAtEnd(m, ids + [t]) == if m.isEnd(ids[|ids| - 1]) then ids else ids + [t]
  {
    if |ids| > 1 {
      hide CutAtEnd;
      var first, rest := ids[0], ids[1..];
      assert ids == [first] + rest && ids + [t] == [first] + (rest + [t]);
      CutCons(m, first, rest);
      CutCons(m, first, rest + [t]);
      assert CutAtEnd(m, ids)[1..] == CutAtEnd(m, rest);
      CutSnoc(m, rest, t);
    } else {
      assert (ids + [t])[1..] == [t];
    }
  }

  /* ---------- What every loop head satisfies ---------- */

  // What has been sampled since text0, and what the reference would still sample.
  function Sent(text0: seq<Token>, g: Gen): seq<Token> {
    if |text0| <= |g.Text()| then g.Text()[|text0|..] else []
  }

  function Rest(c: Config, g: Gen): seq<Token> {
    if g.ended then [] else Reference(c.model, g.sampler, g.Text(), Room(c, g))
  }

  function Tail(g: Gen): seq<Token> { if g.ended then [g.idLast] else [] }

  predicate RestoredDraft(c: Config, g: Gen) {
    && |g.draft| < Room(c, g)
    && g.draft == Stream(c.model, g.sampler, g.Text(), |g.draft|)
    && CutAtEnd(c.model, g.draft) == g.draft
  }

  predicate OnTrack(c: Config, whole: seq<Token>, text0: seq<Token>, g: Gen) {
    && text0 <= g.Text()
    && Sent(text0, g) == g.emitted + Tail(g)
    && |g.emitted| <= c.nPredict
    && NoEnd(c.model, g.emitted)
    && g.accepted <= g.drafted
    && (g.ended ==> c.model.isEnd(g.idLast) && g.draft == [])
    && whole == Sent(text0, g) + Rest(c, g)
    && (g.draft != [] ==> RestoredDraft(c, g))
  }

  // What one verification yields, in terms of the reference.
  lemma VerifiedFacts(c: Config, g: Gen)
    requires !Done(c, g)
    requires g.draft != [] ==> |g.draft| < Room(c, g)
    ensures var ids := SampleAndAccept(c.model, g.sampler, g.Text(), g.Text(), DraftOf(c, g));
            var cut := Verified(c, g);
            var room := Room(c, g);
            && |DraftOf(c, g)| < room
            && cut == CutAtEnd(c.model, ids)
            && |cut| <= |ids| <= room
            && cut == Stream(c.model, g.sampler, g.Text(), |cut|)
            && CutAtEnd(c.model, cut) == cut
            && (if c.model.isEnd(cut[|cut| - 1]) then Reference(c.model, g.sampler, g.Text(), room) == cut
                else cut == ids && Reference(c.model, g.sampler, g.Text(), room) ==
                       ids + Reference(c.model, AcceptAll(c.model, g.sampler, ids), g.Text() + ids, room - |ids|))
  {
    hide SampleAndAccept, CutAtEnd, Stream, AcceptAll, Reference;
    var m, s, text := c.model, g.sampler, g.Text();
    var ids := SampleAndAccept(m, s, text, text, DraftOf(c, g));
    assert ids[..Min(|ids|, Room(c, g))] == ids;
    DraftedIdsAreStream(m, s, text, DraftOf(c, g));
    CutKeepsWhole(m, ids);
    if NoEnd(m, ids) {
      ReferenceContinues(m, s, text, Room(c, g), |ids|);
    } else {
      ReferenceStops(m, s, text, Room(c, g), |ids|);
    }
    CutIdempotent(m, ids);
    StreamPrefix(m, s, text, |ids|, |Verified(c, g)|);
  }

  // h has accepted ids after g.
  predicate Accepts(m: Model, g: Gen, h: Gen, ids: seq<Token>) {
    && ids != []
    && h.Text() == g.Text() + ids
    && h.idLast == ids[|ids| - 1]
    && h.emitted == g.emitted + Shown(m, ids)
    && h.ended == m.isEnd(h.idLast)
  }

  lemma AcceptedIdsAreSent(m: Model, text0: seq<Token>, g: Gen, h: Gen, ids: seq<Token>)
    requires text0 <= g.Text() && Accepts(m, g, h, ids)
    requires NoEnd(m, g.emitted) && NoEnd(m, ids[..|ids| - 1])
    ensures text0 <= h.Text()
    ensures Sent(text0, h) == Sent(text0, g) + ids
    ensures h.emitted + Tail(h) == g.emitted + ids
    ensures NoEnd(m, h.emitted)
  {
    DropOfSum(g.Text(), ids, |text0|);
    ShownAndTail(m, g, h, ids);
  }

  lemma ShownAndTail(m: Model, g: Gen, h: Gen, ids: seq<Token>)
    requires Accepts(m, g, h, ids)
    requires NoEnd(m, g.emitted) && NoEnd(m, ids[..|ids| - 1])
    ensures h.emitted + Tail(h) == g.emitted + ids
    ensures NoEnd(m, h.emitted)
  {
    var shown := Shown(m, ids);
    assert NoEnd(m, shown) && shown + Tail(h) == ids;
    Assoc(g.emitted, shown, Tail(h));
  }

  lemma RoundAccepts(c: Config, g: Gen)
    requires !Done(c, g) && !Restores(c, g)
    ensures Accepts(c.model, g, Round(c, g), Verified(c, g))
    ensures NoEnd(c.model, Verified(c, g)[..|Verified(c, g)| - 1])
  {
    hide SampleAndAccept, CutAtEnd, AcceptAll;
    var h, ids := Round(c, g), Verified(c, g);
    assert h.Text() == g.Text() + ids;
  }

  // An accepting round sends exactly the verified ids ...
  lemma AcceptingRoundSends(c: Config, text0: seq<Token>, g: Gen)
    requires text0 <= g.Text() && NoEnd(c.model, g.emitted) && !Done(c, g) && !Restores(c, g)
    ensures var h := Round(c, g);
            && h.Text() == g.Text() + Verified(c, g)
            && text0 <= h.Text()
            && Sent(text0, h) == Sent(text0, g) + Verified(c, g)
            && h.emitted + Tail(h) == g.emitted + Verified(c, g)
            && NoEnd(c.model, h.emitted)
  {
    RoundAccepts(c, g);
    AcceptedIdsAreSent(c.model, text0, g, Round(c, g), Verified(c, g));
  }

  // ... and leaves to the reference exactly what is still to be sent.
  lemma AcceptingRoundLeaves(c: Config, g: Gen)
    requires !Done(c, g) && !Restores(c, g)
    requires g.draft != [] ==> |g.draft| < Room(c, g)
    ensures |Round(c, g).emitted| <= c.nPredict
    ensures Rest(c, g) == Verified(c, g) + Rest(c, Round(c, g))
  {
    hide SampleAndAccept, CutAtEnd, Stream, AcceptAll;
    VerifiedFacts(c, g);
    RoundAccepts(c, g);
    var h, ids := Round(c, g), Verified(c, g);
    if h.ended {
      assert ids + [] == ids;
    } else {
      assert Room(c, h) == Room(c, g) - |ids|;
    }
  }

  lemma RestoringRoundKeepsTrack(c: Config, whole: seq<Token>, text0: seq<Token>, g: Gen)
    requires OnTrack(c, whole, text0, g) && !Done(c, g) && Restores(c, g)
    ensures OnTrack(c, whole, text0, Round(c, g))
  {
    hide SampleAndAccept, CutAtEnd, Stream, AcceptAll, Reference, DraftOf;
    VerifiedFacts(c, g);
    assert Round(c, g).Text() == g.Text();
  }

  lemma AcceptingRoundKeepsTrack(c: Config, whole: seq<Token>, text0: seq<Token>, g: Gen)
    requires OnTrack(c, whole, text0, g) && !Done(c, g) && !Restores(c, g)
    ensures OnTrack(c, whole, text0, Round(c, g))
  {
    hide SampleAndAccept, CutAtEnd, Stream, AcceptAll, Reference, DraftOf, Shown, Rest, Sent;
    AcceptingRoundSends(c, text0, g);
    AcceptingRoundLeaves(c, g);
    Assoc(Sent(text0, g), Verified(c, g), Rest(c, Round(c, g)));
  }

  lemma RoundKeepsTrack(c: Config, whole: seq<Token>, text0: seq<Token>, g: Gen)
    requires OnTrack(c, whole, text0, g) && !Done(c, g)
    ensures OnTrack(c, whole, text0, Round(c, g))
  {
    if Restores(c, g) {
      RestoringRoundKeepsTrack(c, whole, text0, g);
    } else {
      AcceptingRoundKeepsTrack(c, whole, text0, g);
    }
  }

  lemma {:induction false} RunKeepsTrack(c: Config, s0: Sampler, prompt: seq<Token>, k: nat)
    requires prompt != []
    ensures OnTrack(c, Goal(c, s0, prompt), prompt, Run(c, Start(s0, prompt), k))
  {
    var g := Start(s0, prompt);
    if k == 0 {
      assert g.Text() == prompt;
    } else {
      RunKeepsTrack(c, s0, prompt, k - 1);
      var h := Run(c, g, k - 1);
      if !Done(c, h) { RoundKeepsTrack(c, Goal(c, s0, prompt), prompt, h); }
    }
  }

  /* ---------- Termination, and the one way it fails ---------- */

  /** A restored draft that ends in an end token: the cut at the end token makes the verified ids one
      shorter than the draft plus its fresh token, so the restore test succeeds again and again. */
  predicate Stuck(c: Config, g: Gen) {
    && !Done(c, g)
    && g.draft != []
    && c.mode.UsesHostCheckpoint(|g.draft|)
    && c.model.isEnd(g.draft[|g.draft| - 1])
  }

  lemma {:induction false} StreamSnoc(m: Model, s: Sampler, text: seq<Token>, n: nat)
    ensures SampleAndAccept(m, s, text, text, Stream(m, s, text, n)) == Stream(m, s, text, n + 1)
    decreases n
  {
    if n > 0 {
      var t := m.pick(s, text, text);
      StreamSnoc(m, m.accept(s, t), text + [t], n - 1);
      assert Stream(m, s, text, n)[1..] == Stream(m, m.accept(s, t), text + [t], n - 1);
    }
  }

  // After a restored round the next one restores again exactly when it is stuck.
  lemma RestoredRoundRestoresIffStuck(c: Config, whole: seq<Token>, text0: seq<Token>, g: Gen)
    requires OnTrack(c, whole, text0, g) && !Done(c, g) && g.draft != []
    ensures Restores(c, g) <==> Stuck(c, g)
    ensures Stuck(c, g) ==> Verified(c, g) == g.draft
  {
    hide Reference, Rest, Sent, AcceptAll;
    var m, s, text, n := c.model, g.sampler, g.Text(), |g.draft|;
    StreamSnoc(m, s, text, n);
    StreamPrefix(m, s, text, n + 1, n);
    var ids := Stream(m, s, text, n + 1);
    assert ids == g.draft + [ids[n]];
    CutSnoc(m, g.draft, ids[n]);
    VerifiedFacts(c, g);
  }

  lemma StuckRound(c: Config, whole: seq<Token>, text0: seq<Token>, g: Gen)
    requires OnTrack(c, whole, text0, g) && Stuck(c, g)
    ensures Round(c, g) == g.(restored := g.restored + 1, round := g.round + 1)
    ensures Stuck(c, Round(c, g)) && OnTrack(c, whole, text0, Round(c, g))
  {
    RestoredRoundRestoresIffStuck(c, whole, text0, g);
    RestoringRoundKeepsTrack(c, whole, text0, g);
  }

  // A stuck generation shows nothing more and stays stuck at every later loop head.
  lemma {:induction false} StuckForever(c: Config, whole: seq<Token>, text0: seq<Token>, g: Gen, k: nat)
    requires OnTrack(c, whole, text0, g) && Stuck(c, g)
    ensures var h := Run(c, g, k);
            && h == g.(restored := g.restored + k, round := g.round + k)
            && Stuck(c, h) && OnTrack(c, whole, text0, h)
  {
    hide Round, OnTrack;
    if k > 0 {
      StuckForever(c, whole, text0, g, k - 1);
      StuckRound(c, whole, text0, Run(c, g, k - 1));
    }
  }

  function Work(c: Config, g: Gen): int {
    2 * Room(c, g) - (if g.draft == [] then 0 else 1)
  }

  predicate Settled(c: Config, g: Gen, budget: int) {
    Done(c, g) || Stuck(c, g) || Work(c, g) <= budget
  }

  lemma RoundSettles(c: Config, whole: seq<Token>, text0: seq<Token>, g: Gen, budget: int)
    requires OnTrack(c, whole, text0, g) && !Done(c, g) && Settled(c, g, budget)
    ensures Settled(c, Round(c, g), budget - 1)
  {
    if Stuck(c, g) {
      StuckRound(c, whole, text0, g);
    } else {
      VerifiedFacts(c, g);
      if g.draft != [] { RestoredRoundRestoresIffStuck(c, whole, text0, g); }
    }
  }

  lemma {:induction false} SettledWithin(c: Config, s0: Sampler, prompt: seq<Token>, k: nat)
    requires prompt != []
    ensures Settled(c, Run(c, Start(s0, prompt), k), 2 * c.nPredict - k)
  {
    hide Round, OnTrack, Goal, Stuck, Done;
    if k > 0 {
      SettledWithin(c, s0, prompt, k - 1);
      RunKeepsTrack(c, s0, prompt, k - 1);
      var h := Run(c, Start(s0, prompt), k - 1);
      if !Done(c, h) { RoundSettles(c, Goal(c, s0, prompt), prompt, h, 2 * c.nPredict - k + 1); }
    }
  }

  /** Generation finishes if and only if it is not stuck after 2 * nPredict rounds; when it finishes, what
      it has shown is what one-at-a-time sampling shows. */
  lemma FinishesIffNotStuck(c: Config, s0: Sampler, prompt: seq<Token>)
    requires prompt != []
    ensures var g := Run(c, Start(s0, prompt), 2 * c.nPredict);
            && (Done(c, g) <==> !Stuck(c, g))
            && (Stuck(c, g) ==> forall k :: !Done(c, Run(c, g, k)))
  {
    SettledWithin(c, s0, prompt, 2 * c.nPredict);
    RunKeepsTrack(c, s0, prompt, 2 * c.nPredict);
    var g := Run(c, Start(s0, prompt), 2 * c.nPredict);
    if Stuck(c, g) {
      forall k: nat ensures !Done(c, Run(c, g, k)) { StuckForever(c, Goal(c, s0, prompt), prompt, g, k); }
    }
  }

  /* ---------- When it gets stuck ---------- */

  /** A loop head from which a generation gets stuck: nothing is carried, the proposal is at least as long as what
      one-at-a-time sampling has still to say and agrees with all of it but perhaps the last token, that is an end
      token, and a draft of that length uses the host checkpoint. */
  predicate Trap(c: Config, g: Gen) {
    var p, rest := Proposal(c, g), Rest(c, g);
    && !Done(c, g) && g.draft == []
    && 0 < |rest| <= |p| && p[..|rest| - 1] == rest[..|rest| - 1]
    && c.model.isEnd(rest[|rest| - 1]) && c.mode.UsesHostCheckpoint(|rest|)
  }

  // A draft is followed as far as it agrees with what is sampled.
  lemma {:induction false} AgreedDraftIsFollowed(m: Model, s: Sampler, text: seq<Token>, draft: seq<Token>, k: nat)
    requires k <= |draft| && draft[..k] == Stream(m, s, text, k)
    ensures |SampleAndAccept(m, s, text, text, draft)| > k
    decreases k
  {
    if k > 0 {
      var t := m.pick(s, text, text);
      assert draft[0] == draft[..k][0] == t && draft[1..][..k - 1] == draft[..k][1..];
      AgreedDraftIsFollowed(m, m.accept(s, t), text + [t], draft[1..], k - 1);
    }
  }

  // The reference is the sampled stream, cut at the first end token.
  lemma ReferenceIsStream(m: Model, s: Sampler, text: seq<Token>, n: nat)
    ensures var ids := Reference(m, s, text, n); ids == CutAtEnd(m, Stream(m, s, text, n)) == Stream(m, s, text, |ids|)
  {
    var whole := Stream(m, s, text, n);
    CutKeepsWhole(m, whole);
    if NoEnd(m, whole) {
      ReferenceContinues(m, s, text, n, n);
      assert whole + [] == whole;
    } else {
      ReferenceStops(m, s, text, n, n);
    }
    StreamPrefix(m, s, text, n, |Reference(m, s, text, n)|);
  }

  lemma NoEarlyEnd(m: Model, ids: seq<Token>, k: nat)
    requires k < |ids| && m.isEnd(ids[k])
    ensures !NoEnd(m, ids)
  {
  }

  // The first proposal that gets stuck, exactly.
  lemma TrapRound(c: Config, g: Gen)
    requires !Done(c, g) && g.draft == []
    ensures Trap(c, g) <==> Restores(c, g) && Stuck(c, Round(c, g))
  {
    hide Reference, SampleAndAccept, Stream, AcceptAll, CutAtEnd;
    VerifiedFacts(c, g);
    if Trap(c, g) { TrapCutsRest(c, g); }
    if Restores(c, g) && Stuck(c, Round(c, g)) { assert Verified(c, g) == Rest(c, g); }
  }

  // In a trap the proposal is followed up to the end token.
  lemma TrapCutsRest(c: Config, g: Gen)
    requires Trap(c, g)
    ensures Verified(c, g) == Rest(c, g)
  {
    hide Reference, SampleAndAccept, Stream, AcceptAll, CutAtEnd;
    var m, s, text, p, rest := c.model, g.sampler, g.Text(), Proposal(c, g), Rest(c, g);
    var ids, k := SampleAndAccept(m, s, text, text, p), |rest| - 1;
    VerifiedFacts(c, g);
    ReferenceIsStream(m, s, text, Room(c, g));
    StreamPrefix(m, s, text, |rest|, k);
    AgreedDraftIsFollowed(m, s, text, p, k);
    DraftedIdsAreStream(m, s, text, p);
    StreamPrefix(m, s, text, |ids|, |rest|);
    NoEarlyEnd(m, ids, k);
    CutKeepsWhole(m, ids);
  }

  lemma StartCarriesNothing(s: Sampler, prompt: seq<Token>)
    requires prompt != []
    ensures Start(s, prompt).draft == []
  {
  }

  // A draft is carried only out of a round that restores.
  lemma CarriedIsRestored(c: Config, g: Gen)
    requires !Done(c, g) && Round(c, g).draft != []
    ensures Restores(c, g) || (Round(c, g) == g && g.draft != [])
  {
    hide SampleAndAccept, CutAtEnd, AcceptAll;
  }

  // A stuck generation went through a trap.
  lemma {:induction false} StuckFromTrap(c: Config, s0: Sampler, prompt: seq<Token>, k: nat) returns (j: nat)
    requires prompt != [] && Stuck(c, Run(c, Start(s0, prompt), k))
    ensures j < k && Trap(c, Run(c, Start(s0, prompt), j))
  {
    hide Round, OnTrack, Done, Goal, Restores, Trap;
    StartCarriesNothing(s0, prompt);
    var h := Run(c, Start(s0, prompt), k - 1);
    RunKeepsTrack(c, s0, prompt, k - 1);
    StuckIsNotDone(c, Run(c, Start(s0, prompt), k));
    CarriedIsRestored(c, h);
    if h.draft == [] {
      TrapRound(c, h);
      j := k - 1;
    } else {
      RestoredRoundRestoresIffStuck(c, Goal(c, s0, prompt), prompt, h);
      j := StuckFromTrap(c, s0, prompt, k - 1);
    }
  }

  lemma {:induction false} RunJoins(c: Config, g: Gen, j: nat, k: nat)
    ensures Run(c, g, j + k) == Run(c, Run(c, g, j), k)
  {
    hide Round, Done;
    if k > 0 { RunJoins(c, g, j, k - 1); }
  }

  lemma {:induction false} DoneStays(c: Config, g: Gen, k: nat)
    requires Done(c, g)
    ensures Run(c, g, k) == g
  {
    hide Round, Done;
    if k > 0 { DoneStays(c, g, k - 1); }
  }

  // Nobody comes out of a trap.
  lemma TrappedForever(c: Config, s0: Sampler, prompt: seq<Token>, j: nat, k: nat)
    requires prompt != [] && Trap(c, Run(c, Start(s0, prompt), j))
    ensures !Done(c, Run(c, Start(s0, prompt), k))
  {
    hide Round, OnTrack, Done, Goal, Stuck;
    var g := Start(s0, prompt);
    var h := Run(c, g, j);
    assert !Done(c, h);
    if k <= j {
      RunJoins(c, g, k, j - k);
      if Done(c, Run(c, g, k)) { DoneStays(c, Run(c, g, k), j - k); }
    } else {
      TrapRound(c, h);
      RunKeepsTrack(c, s0, prompt, j + 1);
      StuckForever(c, Goal(c, s0, prompt), prompt, Run(c, g, j + 1), k - j - 1);
      RunJoins(c, g, j + 1, k - j - 1);
      StuckIsNotDone(c, Run(c, g, k));
    }
  }

  lemma StuckIsNotDone(c: Config, g: Gen)
    requires Stuck(c, g)
    ensures !Done(c, g)
  {
  }

  /** Generation finishes, and within 2 * nPredict rounds, if and only if it meets no trap at any loop head. */
  lemma FinishesIffNeverTrapped(c: Config, s0: Sampler, prompt: seq<Token>)
    requires prompt != []
    ensures Done(c, Run(c, Start(s0, prompt), 2 * c.nPredict)) <==> forall k :: !Trap(c, Run(c, Start(s0, prompt), k))
    ensures (exists k :: Done(c, Run(c, Start(s0, prompt), k))) <==> Done(c, Run(c, Start(s0, prompt), 2 * c.nPredict))
  {
    hide Round, OnTrack, Trap, Goal;
    var n := 2 * c.nPredict;
    FinishesIffNotStuck(c, s0, prompt);
    if !Done(c, Run(c, Start(s0, prompt), n)) {
      var j := StuckFromTrap(c, s0, prompt, n);
      forall k: nat ensures !Done(c, Run(c, Start(s0, prompt), k)) { TrappedForever(c, s0, prompt, j, k); }
    } else {
      forall k: nat ensures !Trap(c, Run(c, Start(s0, prompt), k)) {
        if Trap(c, Run(c, Start(s0, prompt), k)) { TrappedForever(c, s0, prompt, k, n); }
      }
    }
  }

  /* ---------- When some draft source gets stuck ---------- */

  /** What makes a call unsafe: the reference ends in an end token before the limit and within the context, and a draft
      of its length uses the host checkpoint. */
  predicate CanBeTrapped(c: Config, s0: Sampler, prompt: seq<Token>) {
    var goal := Goal(c, s0, prompt);
    && goal != [] && c.model.isEnd(goal[|goal| - 1]) && c.mode.UsesHostCheckpoint(|goal|)
    && |goal| < c.nPredict && |prompt| + |goal| < c.nCtx
  }

  // Every trap is part of an unsafe call, whatever was proposed before it.
  lemma TrapNeedsUnsafe(c: Config, s0: Sampler, prompt: seq<Token>, k: nat)
    requires prompt != [] && Trap(c, Run(c, Start(s0, prompt), k))
    ensures CanBeTrapped(c, s0, prompt)
  {
    hide Run, Reference, Proposal;
    RunKeepsTrack(c, s0, prompt, k);
    var g := Run(c, Start(s0, prompt), k);
    ProposalIsCapped(c, g);
    assert Goal(c, s0, prompt) == g.emitted + Rest(c, g) by { assert Sent(prompt, g) == g.emitted + []; }
  }

  lemma ProposalIsCapped(c: Config, g: Gen)
    ensures |Proposal(c, g)| <= DraftCap(c, g)
  {
  }

  // The source that proposes the whole reference gets stuck at once.
  lemma WholeReferenceTraps(c: Config, s0: Sampler, prompt: seq<Token>)
    requires prompt != [] && CanBeTrapped(c, s0, prompt) && forall r :: c.drafts(r) == Goal(c, s0, prompt)
    ensures Trap(c, Start(s0, prompt))
  {
    hide Reference;
    var g, goal := Start(s0, prompt), Goal(c, s0, prompt);
    assert g.Text() == prompt;
    assert goal[..|goal|] == goal;
    assert Proposal(c, g) == goal;
  }

  /** A call finishes with every draft source if and only if it is not unsafe: the condition speaks of the model, the
      mode, the limits and the prompt only. */
  lemma FinishesWithEveryDraft(c: Config, s0: Sampler, prompt: seq<Token>)
    requires prompt != []
    ensures (forall d :: Done(c.(drafts := d), Run(c.(drafts := d), Start(s0, prompt), 2 * c.nPredict))) <==>
            !CanBeTrapped(c, s0, prompt)
  {
    hide Run, Trap, Done, Reference;
    if CanBeTrapped(c, s0, prompt) {
      var goal := Goal(c, s0, prompt);
      var bad := c.(drafts := (r: nat) => goal);
      WholeReferenceTraps(bad, s0, prompt);
      RunStart(bad, Start(s0, prompt));
      TrappedForever(bad, s0, prompt, 0, 2 * c.nPredict);
    } else {
      forall d ensures Done(c.(drafts := d), Run(c.(drafts := d), Start(s0, prompt), 2 * c.nPredict)) {
        var e := c.(drafts := d);
        forall k: nat ensures !Trap(e, Run(e, Start(s0, prompt), k)) {
          if Trap(e, Run(e, Start(s0, prompt), k)) { TrapNeedsUnsafe(e, s0, prompt, k); }
        }
        FinishesIffNeverTrapped(e, s0, prompt);
      }
    }
  }

  lemma RunStart(c: Config, g: Gen)
    ensures Run(c, g, 0) == g
  {
  }

  lemma SpeculationIsLossless(c: Config, s0: Sampler, prompt: seq<Token>, k: nat)
    requires prompt != []
    ensures var g := Run(c, Start(s0, prompt), k);
            var reference := Goal(c, s0, prompt);
            && g.emitted <= Shown(c.model, reference)
            && (Done(c, g) ==> g.emitted == Shown(c.model, reference))
            && g.accepted <= g.drafted
            && |g.emitted| <= c.nPredict
  {
    RunKeepsTrack(c, s0, prompt, k);
    hide Run, Stream, CutAtEnd;
    var g := Run(c, Start(s0, prompt), k);
    Assoc(g.emitted, Tail(g), Rest(c, g));
    var left := Tail(g) + Rest(c, g);
    assert Goal(c, s0, prompt) == g.emitted + left;
    ShownSplits(c.model, g.emitted, left);
    assert Done(c, g) ==> Shown(c.model, left) == [];
  }

  lemma ShownSplits(m: Model, a: seq<Token>, b: seq<Token>)
    requires NoEnd(m, a)
    ensures Shown(m, a + b) == a + Shown(m, b)
  {
    if b == [] {
      assert a + b == a;
    } else {
      assert (a + b)[..|a + b| - 1] == a + b[..|b| - 1];
    }
  }

  /* ---------- What the counters count ---------- */

  // The draft lengths of the rounds before the k-th loop head that were not restored.
  function DraftedBefore(c: Config, s0: Sampler, prompt: seq<Token>, k: nat): nat
    requires prompt != []
  {
    if k == 0 then 0
    else
      var g := Run(c, Start(s0, prompt), k - 1);
      DraftedBefore(c, s0, prompt, k - 1) + if Done(c, g) || Restores(c, g) then 0 else |DraftOf(c, g)|
  }

  // The rounds played before the k-th loop head, and those of them that went back to the checkpoint.
  function RoundsBefore(c: Config, s0: Sampler, prompt: seq<Token>, k: nat): nat
    requires prompt != []
  {
    if k == 0 then 0
    else RoundsBefore(c, s0, prompt, k - 1) + if Done(c, Run(c, Start(s0, prompt), k - 1)) then 0 else 1
  }

  function RestoredBefore(c: Config, s0: Sampler, prompt: seq<Token>, k: nat): nat
    requires prompt != []
  {
    if k == 0 then 0
    else
      var g := Run(c, Start(s0, prompt), k - 1);
      RestoredBefore(c, s0, prompt, k - 1) + if !Done(c, g) && Restores(c, g) then 1 else 0
  }

  lemma RoundCounts(c: Config, g: Gen)
    requires !Done(c, g) && (g.draft != [] ==> |g.draft| < Room(c, g))
    ensures var h := Round(c, g);
            && h.round == g.round + 1
            && (Restores(c, g) ==>
                  h.restored == g.restored + 1 && h.accepted == g.accepted && h.drafted == g.drafted &&
                  h.Text() == g.Text())
            && (!Restores(c, g) ==>
                  h.restored == g.restored && h.drafted == g.drafted + |DraftOf(c, g)| &&
                  |h.Text()| == |g.Text()| + 1 + h.accepted - g.accepted)
  {
    hide SampleAndAccept, CutAtEnd, AcceptAll, Stream, Reference, Shown, DraftOf;
    VerifiedFacts(c, g);
    if !Restores(c, g) { RoundAccepts(c, g); }
  }

  /** What the statistics count, at every loop head: the rounds, those that were restored, and the draft tokens of the
      others; and every token of the text beyond one for each of those others is an accepted draft token. */
  lemma {:induction false} CountersCount(c: Config, s0: Sampler, prompt: seq<Token>, k: nat)
    requires prompt != []
    ensures var g := Run(c, Start(s0, prompt), k);
            && g.round == RoundsBefore(c, s0, prompt, k) && g.restored == RestoredBefore(c, s0, prompt, k)
            && g.drafted == DraftedBefore(c, s0, prompt, k)
            && |g.Text()| == |prompt| + g.accepted + g.round - g.restored
            && |g.Text()| == |prompt| + |g.emitted| + (if g.ended then 1 else 0)
  {
    hide Round, Restores, DraftOf, OnTrack;
    if k == 0 {
      StartCounts(s0, prompt);
      RunStart(c, Start(s0, prompt));
    } else {
      CountersCount(c, s0, prompt, k - 1);
      var g := Run(c, Start(s0, prompt), k - 1);
      RunKeepsTrack(c, s0, prompt, k - 1);
      DraftFits(c, Goal(c, s0, prompt), prompt, g);
      if !Done(c, g) { RoundCounts(c, g); }
    }
    RunKeepsTrack(c, s0, prompt, k);
    TextIsShown(c, Goal(c, s0, prompt), prompt, Run(c, Start(s0, prompt), k));
  }

  lemma StartCounts(s: Sampler, prompt: seq<Token>)
    requires prompt != []
    ensures var g := Start(s, prompt);
            g.Text() == prompt && g.round == g.restored == g.drafted == g.accepted == 0
  {
  }

  lemma DraftFits(c: Config, whole: seq<Token>, text0: seq<Token>, g: Gen)
    requires OnTrack(c, whole, text0, g)
    ensures g.draft != [] ==> |g.draft| < Room(c, g)
  {
    hide Stream, CutAtEnd, Reference, Shown;
  }

  lemma TextIsShown(c: Config, whole: seq<Token>, text0: seq<Token>, g: Gen)
    requires OnTrack(c, whole, text0, g)
    ensures |g.Text()| == |text0| + |g.emitted| + (if g.ended then 1 else 0)
  {
    hide Stream, CutAtEnd, Reference, Shown;
  }

  // While no loop head before it is done, a round is played at each.
  lemma {:induction false} EachHeadPlays(c: Config, s0: Sampler, prompt: seq<Token>, k: nat)
    requires prompt != [] && forall j :: 0 <= j < k ==> !Done(c, Run(c, Start(s0, prompt), j))
    ensures RoundsBefore(c, s0, prompt, k) == k
  {
    hide Run, Done;
    if k > 0 { EachHeadPlays(c, s0, prompt, k - 1); }
  }

  // Where no proposal needs the host checkpoint, generation always finishes.
  lemma {:induction false} FinishesWithoutHostCheckpoint(c: Config, s0: Sampler, prompt: seq<Token>, k: nat)
    requires prompt != [] && forall r :: !c.mode.UsesHostCheckpoint(|c.drafts(r)|)
    ensures Run(c, Start(s0, prompt), k).draft == []
    ensures k >= 2 * c.nPredict ==> Done(c, Run(c, Start(s0, prompt), k))
  {
    hide Round, OnTrack;
    if k > 0 {
      FinishesWithoutHostCheckpoint(c, s0, prompt, k - 1);
      var h := Run(c, Start(s0, prompt), k - 1);
      if !Done(c, h) { FitsThePlanes(c, h); }
    } else {
      StartCarriesNothing(s0, prompt);
    }
    SettledWithin(c, s0, prompt, k);
    RunKeepsTrack(c, s0, prompt, k);
  }

  // A proposal that fits needs no restoring.
  lemma FitsThePlanes(c: Config, g: Gen)
    requires !Done(c, g) && g.draft == [] && !c.mode.UsesHostCheckpoint(|c.drafts(g.round)|)
    ensures !Restores(c, g) && Round(c, g).draft == []
  {
    hide SampleAndAccept, CutAtEnd, AcceptAll, Shown;
  }

  // The failing case is real: a target that ends at once and a draft of one other token.
  function LivelockConfig(): Config {
    Config(Model((s, rows, rec) => 0, (s: Sampler, t: Token) => s, (t: Token) => t == 0),
           HostCheckpoint, 100, 2, (r: nat) => [5])
  }

  lemma {:induction false} RunOneMore(c: Config, g: Gen, k: nat)
    ensures Run(c, g, k + 1) == Run(c, Run(c, g, 1), k)
  {
    hide Round, Done;
    if k > 0 { RunOneMore(c, g, k - 1); }
  }

  lemma LivelockFirstRound(s0: Sampler)
    ensures var c, g := LivelockConfig(), Start(s0, [7]);
            !Done(c, g) && Round(c, g) == g.(draft := [0], restored := 1, round := 1)
  {
    var c, g := LivelockConfig(), Start(s0, [7]);
    assert DraftOf(c, g) == [5];
    assert SampleAndAccept(c.model, s0, g.Text(), g.Text(), [5]) == [0];
    assert [0][..1] == [0];
    assert Verified(c, g) == [0];
  }

  lemma LivelockStarts(s0: Sampler)
    ensures var c, h := LivelockConfig(), Run(LivelockConfig(), Start(s0, [7]), 1);
            Stuck(c, h) && !Done(c, Start(s0, [7]))
  {
    hide Reference, SampleAndAccept, CutAtEnd, Stream, Round;
    LivelockFirstRound(s0);
    assert Run(LivelockConfig(), Start(s0, [7]), 0) == Start(s0, [7]);
  }

  lemma LivelockExample(s0: Sampler)
    ensures forall k: nat :: !Done(LivelockConfig(), Run(LivelockConfig(), Start(s0, [7]), k))
  {
    hide Round, OnTrack, Done, Goal, LivelockConfig;
    var c, g := LivelockConfig(), Start(s0, [7]);
    LivelockStarts(s0);
    RunKeepsTrack(c, s0, [7], 1);
    forall k: nat ensures !Done(c, Run(c, g, k)) {
      if k == 0 {
        assert Run(c, g, 0) == g;
      } else {
        RunOneMore(c, g, k - 1);
        StuckForever(c, Goal(c, s0, [7]), [7], Run(c, g, 1), k - 1);
      }
    }
  }
}
