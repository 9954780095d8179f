/**
 The loop of kvmem_spec_generate as the source writes it: a target context changed in place,
 a draft carried from a restored round into the next one, and a checkpoint of the recurrent
 state. Its result is the value-level Run of SpeculativeGeneration.
 */
module SpeculativeLoop {
  import opened SpeculativeGeneration

  datatype Recording = Off | On(width: nat, batch: seq<Token>)

  /** The target context. rows is what attention sees; recurrent is what has been folded into the
      recurrent state. Truncating rows need not truncate recurrent: that is what rollback is about.
      A dense model has no recurrent state; there recurrent simply follows rows. */
  class TargetContext {
    const mode: Rollback
    var rows: seq<Token>
    var recurrent: seq<Token>
    var recording: Recording

    constructor (mode: Rollback, prefix: seq<Token>)
      ensures this.mode == mode && rows == prefix && recurrent == prefix && recording == Off
    {
      this.mode := mode;
      rows, recurrent, recording := prefix, prefix, Off;
    }

    method ReplayBegin(start: nat, width: nat) returns (ok: bool)
      modifies this`recording
      ensures ok == (mode.Replay? && old(recording).Off? && 0 < width <= mode.n + 1 && start == |recurrent|)
      ensures recording == if ok then On(width, []) else old(recording)
    {
      ok := mode.Replay? && recording.Off? && 0 < width <= mode.n + 1 && start == |recurrent|;
      if ok { recording := On(width, []); }
    }

    method Decode(batch: seq<Token>)
      modifies this
      ensures rows == old(rows) + batch
      ensures recurrent == if old(recording).On? then old(recurrent) else old(recurrent) + batch
      ensures recording == if old(recording).On? then On(old(recording).width, batch) else Off
    {
      rows := rows + batch;
      if recording.On? {
        recording := recording.(batch := batch);
      } else {
        recurrent := recurrent + batch;
      }
    }

    // Keep the first keep recorded rows. Without a recording only statistics are committed.
    method Commit(keep: nat)
      requires recording.On? ==> keep <= |recording.batch|
      modifies this`recurrent, this`recording
      ensures recurrent == if old(recording).On? then old(recurrent) + old(recording).batch[..keep] else old(recurrent)
      ensures recording == Off
    {
      if recording.On? {
        recurrent := recurrent + recording.batch[..keep];
        recording := Off;
      }
    }

    // Drop the rows from begin on. Recurrent rows follow only within the reach of the device planes.
    method RemoveLogical(begin: nat)
      requires begin <= |rows|
      modifies this`rows, this`recurrent
      ensures rows == old(rows)[..begin]
      ensures recurrent ==
              if mode.Dense? && begin <= |old(recurrent)| then old(recurrent)[..begin]
              else if mode.Planes? && 0 < begin < |old(recurrent)| <= begin + mode.n then old(recurrent)[..begin]
              else old(recurrent)
    {
      rows := rows[..begin];
      if mode.Dense? && begin <= |recurrent| {
        recurrent := recurrent[..begin];
      } else if mode.Planes? && 0 < begin < |recurrent| <= begin + mode.n {
        recurrent := recurrent[..begin];
      }
    }

    method LoadCheckpoint(saved: seq<Token>)
      modifies this`recurrent
      ensures recurrent == saved
    {
      recurrent := saved;
    }
  }

  // The library call that fails in a round, if any.
  datatype Fault = NoFault | DecodeFault | CommitFault | RemoveFault

  datatype Stop = Finished | Aborted | Failed

  datatype Stats = Stats(nPast: nat, nGen: nat, nDrafted: nat, nAccept: nat, nRestore: nat)

  lemma {:induction false} CutSkips(m: Model, a: seq<Token>, b: seq<Token>)
    requires NoEnd(m, a)
    ensures CutAtEnd(m, a + b) == a + CutAtEnd(m, b)
  {
    if a == [] {
      assert a + b == b;
    } else {
      assert (a + b)[0] == a[0] && (a + b)[1..] == a[1..] + b;
      NoEndTail(m, a);
      CutSkips(m, a[1..], b);
      assert a == [a[0]] + a[1..];
      Assoc([a[0]], a[1..], CutAtEnd(m, b));
    }
  }

  method TrimAtEnd(m: Model, ids: seq<Token>) returns (r: seq<Token>)
    ensures r == CutAtEnd(m, ids)
  {
    r := ids;
    for i := 0 to |ids|
      invariant r == ids && NoEnd(m, ids[..i])
    {
      if m.isEnd(ids[i]) {
        assert ids == ids[..i] + ids[i..];
        CutSkips(m, ids[..i], ids[i..]);
        return ids[..i + 1];
      }
    }
    assert ids[..|ids|] == ids;
    CutKeepsWhole(m, ids);
  }

  // Hands the accepted ids to the caller one by one, up to an end token or the limit.
  method Deliver(m: Model, ids: seq<Token>, prompt: seq<Token>, idLast: Token, emitted: seq<Token>, nPredict: nat)
    returns (prompt': seq<Token>, idLast': Token, emitted': seq<Token>, hasEos: bool)
    requires ids != [] && NoEnd(m, ids[..|ids| - 1]) && |emitted| + |ids| <= nPredict
    ensures prompt' == prompt + [idLast] + ids[..|ids| - 1] && idLast' == ids[|ids| - 1]
    ensures emitted' == emitted + Shown(m, ids) && hasEos == m.isEnd(idLast')
  {
    prompt', idLast', emitted', hasEos := prompt, idLast, emitted, false;
    for i := 0 to |ids|
      invariant i == 0 ==> prompt' == prompt && idLast' == idLast
      invariant i > 0 ==> prompt' == prompt + [idLast] + ids[..i - 1] && idLast' == ids[i - 1]
      invariant emitted' == emitted + ids[..i] && !hasEos
      invariant i == |ids| ==> !m.isEnd(ids[i - 1])
    {
      prompt' := prompt' + [idLast'];
      idLast' := ids[i];
      assert i < |ids| - 1 ==> !m.isEnd(ids[..|ids| - 1][i]);
      if m.isEnd(idLast') {
        hasEos := true;
        return;
      }
      emitted' := emitted' + [idLast'];
      if |emitted'| >= nPredict { break; }
    }
  }

  // The decoded batch: recorded on the side in replay mode, folded into the recurrent state otherwise.
  ghost predicate Decoded(ctx: TargetContext, prompt: seq<Token>, batch: seq<Token>)
    reads ctx
  {
    && ctx.rows == prompt + batch
    && (if ctx.mode.Replay? then ctx.recurrent == prompt && ctx.recording == On(|batch|, batch)
        else ctx.recurrent == prompt + batch && ctx.recording == Off)
  }

  ghost predicate InStep(ctx: TargetContext, prompt: seq<Token>)
    reads ctx
  {
    ctx.rows == ctx.recurrent == prompt && ctx.recording == Off
  }

  // Decode the last token and the draft in one batch and sample along it.
  method Verify(m: Model, ctx: TargetContext, smpl: Sampler, idLast: Token, draft: seq<Token>, nPast: nat, fails: bool)
    returns (ok: bool, ids: seq<Token>)
    requires InStep(ctx, ctx.rows) && nPast == |ctx.rows|
    modifies ctx
    ensures ok ==> Decoded(ctx, old(ctx.rows), [idLast] + draft)
    ensures ok ==> ids == SampleAndAccept(m, smpl, old(ctx.rows) + [idLast], old(ctx.rows) + [idLast], draft)
    ensures ok <==> !fails && (ctx.mode.Replay? ==> |draft| <= ctx.mode.n)
  {
    var batch := [idLast] + draft;
    var attention, folded := ctx.rows, ctx.recurrent;
    ids := [];
    if ctx.mode.Replay? {
      ok := ctx.ReplayBegin(nPast, |batch|);
      if !ok { return; }
    }
    if fails { return false, ids; }
    ctx.Decode(batch);
    ok, ids := true, SampleAndAccept(m, smpl, attention + [idLast], folded + [idLast], draft);
  }

  // Back to the checkpoint: the saved recurrent state first, then the attention rows.
  method Restore(ctx: TargetContext, saved: seq<Token>, savedRows: nat, ghost prompt: seq<Token>,
                 ghost batch: seq<Token>)
    requires Decoded(ctx, prompt, batch) && !ctx.mode.Replay? && saved == prompt && savedRows == |prompt|
    modifies ctx
    ensures InStep(ctx, prompt)
  {
    ctx.LoadCheckpoint(saved);
    ctx.RemoveLogical(savedRows);
  }

  // Keep the first keep rows of the batch and roll the rest back.
  method Settle(ctx: TargetContext, keep: nat, nPast: nat, fault: Fault, ghost prompt: seq<Token>,
                ghost batch: seq<Token>)
    returns (ok: bool)
    requires Decoded(ctx, prompt, batch) && keep <= |batch| && nPast == |prompt| + keep
    requires ctx.mode.HostCheckpoint? ==> keep == |batch|
    requires ctx.mode.Planes? ==> 0 < keep && |batch| - keep <= ctx.mode.n
    modifies ctx
    ensures ok ==> InStep(ctx, prompt + batch[..keep])
    ensures ok == (!fault.CommitFault? && !(fault.RemoveFault? && ctx.mode.Replay?))
  {
    if fault.CommitFault? {
      if ctx.recording.On? { ctx.Commit(0); }
      return false;
    }
    ctx.Commit(keep);
    if fault.RemoveFault? && ctx.mode.Replay? { return false; }
    assert (prompt + batch)[..nPast] == prompt + batch[..keep];
    ctx.RemoveLogical(nPast);
    ok := true;
  }

  // A disconnected replay round folds nothing and goes back to where the round began.
  method Abandon(ctx: TargetContext, nPast: nat, fault: Fault, ghost prompt: seq<Token>, ghost batch: seq<Token>)
    returns (ok: bool)
    requires ctx.mode.Replay? && Decoded(ctx, prompt, batch) && nPast == |prompt|
    modifies ctx
    ensures ok <==> !fault.CommitFault? && !fault.RemoveFault?
    ensures !fault.RemoveFault? ==> InStep(ctx, prompt)
  {
    ok := !fault.CommitFault?;
    ctx.Commit(0);
    assert prompt + batch[..0] == prompt;
    if fault.RemoveFault? { return false; }
    ctx.RemoveLogical(nPast);
  }

  // The library call that fails counts in a round, or the replay recording is too short for the draft.
  predicate RoundFails(c: Config, g: Gen, fault: Fault) {
    || fault.DecodeFault? || (c.mode.Replay? && |DraftOf(c, g)| > c.mode.n)
    || (!Restores(c, g) && TailFails(c, fault))
  }

  predicate TailFails(c: Config, fault: Fault) { fault.CommitFault? || (fault.RemoveFault? && c.mode.Replay?) }

  // A removal that fails after the round has been counted.
  predicate FailsCounted(c: Config, g: Gen, fault: Fault, disconnected: bool) {
    c.mode.Replay? && fault.RemoveFault? && |DraftOf(c, g)| <= c.mode.n && !disconnected
  }

  // What the tail of an accepting round leaves in the loop's variables.
  lemma AcceptedIds(c: Config, g: Gen)
    requires !Done(c, g) && !Restores(c, g)
    requires g.draft != [] ==> |g.draft| < Room(c, g)
    ensures var ids, draft := Verified(c, g), DraftOf(c, g);
            && ids != [] && NoEnd(c.model, ids[..|ids| - 1]) && |g.emitted| + |ids| <= c.nPredict
            && |ids| <= |draft| + 1
            && ids[..|ids| - 1] == draft[..|ids| - 1]
            && (c.mode.UsesHostCheckpoint(|draft|) ==> |ids| == |draft| + 1)
  {
    hide SampleAndAccept, CutAtEnd, Stream, AcceptAll, Reference, Shown;
    VerifiedFacts(c, g);
    RoundAccepts(c, g);
  }

  method ProposeDraft(c: Config, ctx: TargetContext, g: Gen, nPast: nat, saved: seq<Token>, savedRows: nat)
    returns (draft: seq<Token>, saved': seq<Token>, savedRows': nat)
    requires ctx.recurrent == g.prompt && nPast == |g.prompt|
    requires g.draft != [] ==> saved == g.prompt && savedRows == |g.prompt|
    ensures draft == DraftOf(c, g) && (g.draft != [] ==> draft == g.draft)
    // A new draft is as much of the proposal as the context and the limit leave room for after the last token.
    ensures g.draft == [] ==>
              && draft <= c.drafts(g.round)
              && (draft != [] ==> |g.prompt| + 2 + |draft| <= c.nCtx && |g.emitted| + 1 + |draft| <= c.nPredict)
              && (draft == c.drafts(g.round) ||
                  |g.prompt| + 3 + |draft| > c.nCtx || |g.emitted| + 2 + |draft| > c.nPredict)
    ensures draft != [] && c.mode.UsesHostCheckpoint(|draft|) ==> saved' == g.prompt && savedRows' == |g.prompt|
  {
    draft, saved', savedRows' := g.draft, saved, savedRows;
    if draft == [] {
      savedRows' := |g.prompt|;
      var cap := Max(Min(c.nCtx - nPast - 2, c.nPredict - |g.emitted| - 1), 0);
      var proposal := c.drafts(g.round);
      draft := proposal[..Min(|proposal|, cap)];
      if draft != [] && c.mode.UsesHostCheckpoint(|draft|) { saved' := ctx.recurrent; }
    }
  }

  method SampleIds(c: Config, ctx: TargetContext, g: Gen, draft: seq<Token>, nPast: nat, fails: bool)
    returns (ok: bool, sampled: seq<Token>, ids: seq<Token>)
    requires InStep(ctx, g.prompt) && nPast == |g.prompt| && draft == DraftOf(c, g) && !Done(c, g)
    modifies ctx
    ensures ok <==> !fails && (ctx.mode.Replay? ==> |draft| <= ctx.mode.n)
    ensures ok ==> Decoded(ctx, g.prompt, [g.idLast] + draft)
    ensures ok ==> sampled == SampleAndAccept(c.model, g.sampler, g.Text(), g.Text(), draft) && ids == Verified(c, g)
  {
    ids := [];
    ok, sampled := Verify(c.model, ctx, g.sampler, g.idLast, draft, nPast, fails);
    if !ok { return; }
    var room := c.nPredict - |g.emitted|;
    ids := TrimAtEnd(c.model, if |sampled| > room then sampled[..room] else sampled);
    assert sampled[..|sampled|] == sampled;
  }

  // The rest of an accepting round: fold and keep the accepted rows, then hand out the tokens.
  method AcceptIds(c: Config, ctx: TargetContext, g: Gen, draft: seq<Token>, sampled: seq<Token>, ids: seq<Token>,
                   nPast: nat, fault: Fault, disconnected: bool)
    returns (stop: Stop, g': Gen, nPast': nat)
    requires ctx.mode == c.mode && c.mode.Valid() && Decoded(ctx, g.prompt, [g.idLast] + draft) && nPast == |g.prompt|
    requires !Done(c, g) && !Restores(c, g) && (g.draft != [] ==> |g.draft| < Room(c, g))
    requires draft == DraftOf(c, g) && (c.mode.Replay? ==> |draft| <= c.mode.n)
    requires sampled == SampleAndAccept(c.model, g.sampler, g.Text(), g.Text(), draft) && ids == Verified(c, g)
    modifies ctx
    ensures stop == Finished ==> g' == Round(c, g) && InStep(ctx, g'.prompt) && nPast' == |g'.prompt|
    ensures stop == Aborted ==> g' == g && InStep(ctx, g.prompt) && nPast' == nPast
    // The round is counted before its rows are removed.
    ensures stop == Failed ==>
              g' == if fault.RemoveFault? && !disconnected
                    then g.(drafted := g.drafted + |draft|, accepted := g.accepted + |ids| - 1) else g
    ensures stop == Failed <==> TailFails(c, fault)
    ensures stop == Aborted <==> !TailFails(c, fault) && c.mode.Replay? && disconnected
    ensures g.accepted <= g.drafted ==> g'.accepted <= g'.drafted
  {
    hide SampleAndAccept, CutAtEnd, AcceptAll;
    ghost var batch := [g.idLast] + draft;
    g', nPast' := g, nPast;
    var ok;
    AcceptedIds(c, g);
    if c.mode.Replay? && disconnected {
      ok := Abandon(ctx, nPast, fault, g.prompt, batch);
      stop := if ok then Aborted else Failed;
      return;
    }
    ok := Settle(ctx, |ids|, nPast + |ids|, fault, g.prompt, batch);
    if fault.CommitFault? { stop := Failed; return; }
    nPast' := nPast + |ids|;
    g' := g.(drafted := g.drafted + |draft|, accepted := g.accepted + |ids| - 1);
    if !ok { stop := Failed; return; }
    assert g.prompt + batch[..|ids|] == g.prompt + [g.idLast] + ids[..|ids| - 1];
    var prompt', idLast', emitted', hasEos := Deliver(c.model, ids, g.prompt, g.idLast, g.emitted, c.nPredict);
    g' := Gen(prompt', idLast', [], AcceptAll(c.model, g.sampler, sampled), emitted', hasEos,
              g'.drafted, g'.accepted, g.restored, g.round + 1);
    stop := Finished;
  }

  /** One pass of the loop body. */
  method PlayRound(c: Config, ctx: TargetContext, g: Gen, nPast: nat, saved: seq<Token>, savedRows: nat,
                   fault: Fault, disconnected: bool)
    returns (stop: Stop, g': Gen, nPast': nat, saved': seq<Token>, savedRows': nat)
    requires c.mode.Valid() && ctx.mode == c.mode && InStep(ctx, g.prompt) && nPast == |g.prompt|
    requires !Done(c, g) && (g.draft != [] ==> |g.draft| < Room(c, g) && saved == g.prompt && savedRows == |g.prompt|)
    modifies ctx
    // Finished here says that the pass ran to its end.
    ensures stop == Finished ==>
              && g' == Round(c, g)
              && InStep(ctx, g'.prompt) && nPast' == |g'.prompt|
              && (g'.draft != [] ==> saved' == g'.prompt && savedRows' == |g'.prompt|)
    ensures stop == Aborted ==> g' == g && InStep(ctx, g.prompt) && nPast' == nPast
    ensures stop == Failed ==>
              g' == if FailsCounted(c, g, fault, disconnected)
                    then g.(drafted := g.drafted + |DraftOf(c, g)|, accepted := g.accepted + |Verified(c, g)| - 1)
                    else g
    ensures stop == Failed <==> RoundFails(c, g, fault)
    ensures stop == Aborted <==> !RoundFails(c, g, fault) && !Restores(c, g) && c.mode.Replay? && disconnected
    ensures g.accepted <= g.drafted ==> g'.accepted <= g'.drafted
  {
    g', nPast', saved', savedRows' := g, nPast, saved, savedRows;
    var draft;
    draft, saved', savedRows' := ProposeDraft(c, ctx, g, nPast, saved, savedRows);
    var ok, sampled, ids := SampleIds(c, ctx, g, draft, nPast, fault.DecodeFault?);
    if !ok { stop := Failed; return; }
    ghost var batch := [g.idLast] + draft;

    if c.mode.UsesHostCheckpoint(|draft|) && ids != [] && |ids| - 1 < |draft| {
      Restore(ctx, saved', savedRows', g.prompt, batch);
      g' := g.(draft := ids, restored := g.restored + 1, round := g.round + 1);
      return Finished, g', savedRows', saved', savedRows';
    }
    stop, g', nPast' := AcceptIds(c, ctx, g, draft, sampled, ids, nPast, fault, disconnected);
  }

  lemma RunZero(c: Config, g: Gen)
    ensures Run(c, g, 0) == g
  {
  }

  // What the loop needs to know about its head.
  lemma HeadFacts(c: Config, s0: Sampler, prompt: seq<Token>, k: nat)
    requires prompt != []
    ensures var g := Run(c, Start(s0, prompt), k);
            && (g.draft != [] ==> |g.draft| < Room(c, g))
            && (Done(c, g) ==> Run(c, Start(s0, prompt), k + 1) == g)
            && (!Done(c, g) ==> Run(c, Start(s0, prompt), k + 1) == Round(c, g))
            && g.emitted <= Shown(c.model, Goal(c, s0, prompt))
            && (Done(c, g) ==> g.emitted == Shown(c.model, Goal(c, s0, prompt)))
            && (!Done(c, g) && k >= 2 * c.nPredict ==> Stuck(c, g))
            && g.accepted <= g.drafted && |g.emitted| <= c.nPredict
  {
    RunKeepsTrack(c, s0, prompt, k);
    SpeculationIsLossless(c, s0, prompt, k);
    SettledWithin(c, s0, prompt, k);
  }

  /* ---------- When and how a call ends ---------- */

  // abort() is asked at every loop head and, in replay mode, once more in every round.
  function Polls(c: Config, rounds: nat): nat { if c.mode.Replay? then 2 * rounds else rounds }

  // A call ends at the first loop head at which it is done, out of polls, failing, or disconnected in its round.
  predicate EndsAt(c: Config, g: Gen, polls: nat, deadline: nat, fault: Fault) {
    Done(c, g) || polls >= deadline || RoundFails(c, g, fault) || (c.mode.Replay? && polls + 1 == deadline)
  }

  function StopAt(c: Config, g: Gen, polls: nat, deadline: nat, fault: Fault): Stop {
    if Done(c, g) then Finished else if polls < deadline && RoundFails(c, g, fault) then Failed else Aborted
  }

  // The loop heads before this one, none of which ended the call.
  ghost predicate Passed(c: Config, s0: Sampler, prompt: seq<Token>, deadline: nat, fault: nat -> Fault, rounds: nat)
    requires prompt != []
  {
    forall k :: 0 <= k < rounds ==> !EndsAt(c, Run(c, Start(s0, prompt), k), Polls(c, k), deadline, fault(k))
  }

  lemma Counted(c: Config, s0: Sampler, prompt: seq<Token>, deadline: nat, fault: nat -> Fault, rounds: nat)
    requires prompt != [] && Passed(c, s0, prompt, deadline, fault, rounds)
    ensures var g := Run(c, Start(s0, prompt), rounds);
            && g.round == rounds && g.drafted == DraftedBefore(c, s0, prompt, rounds)
            && g.restored == RestoredBefore(c, s0, prompt, rounds)
            && |g.prompt| + 1 == |prompt| + g.accepted + rounds - g.restored
            && |g.prompt| + 1 == |prompt| + |g.emitted| + (if g.ended then 1 else 0)
  {
    hide Run, RoundFails, Done;
    CountersCount(c, s0, prompt, rounds);
    EachHeadPlays(c, s0, prompt, rounds);
  }

  // No library call fails and no replay recording is too short.
  ghost predicate Clean(c: Config, fault: nat -> Fault) {
    forall k :: fault(k) == NoFault && (c.mode.Replay? ==> |c.drafts(k)| <= c.mode.n)
  }

  // Without carried drafts a replay round asks twice.
  lemma ReplayCarriesNothing(c: Config, g: Gen, fault: Fault)
    requires c.mode.Replay? && !Done(c, g) && !RoundFails(c, g, fault) && (g.draft != [] ==> |g.draft| < Room(c, g))
    ensures !Restores(c, g) && Round(c, g).draft == []
  {
    hide SampleAndAccept, CutAtEnd, AcceptAll, Shown;
    AcceptedIds(c, g);
  }

  lemma CleanNeverFails(c: Config, s0: Sampler, prompt: seq<Token>, fault: nat -> Fault, k: nat)
    requires prompt != [] && c.mode.Valid() && Clean(c, fault)
    ensures !RoundFails(c, Run(c, Start(s0, prompt), k), fault(k))
  {
    hide Run;
    assert fault(k) == NoFault;
    if c.mode.Replay? {
      forall r: nat ensures !c.mode.UsesHostCheckpoint(|c.drafts(r)|) { assert fault(r) == NoFault; }
      FinishesWithoutHostCheckpoint(c, s0, prompt, k);
      var g := Run(c, Start(s0, prompt), k);
      assert fault(g.round) == NoFault;
      assert DraftOf(c, g) == Proposal(c, g);
    }
  }

  lemma RunStays(c: Config, g: Gen, j: nat, k: nat)
    requires j <= k && Done(c, Run(c, g, j))
    ensures Done(c, Run(c, g, k))
  {
    hide Run, Done;
    RunJoins(c, g, j, k - j);
    DoneStays(c, Run(c, g, j), k - j);
  }

  /** A clean call never fails, and given 2 * nPredict rounds it finishes if and only if it meets no trap. */
  lemma CleanCallEnds(c: Config, s0: Sampler, prompt: seq<Token>, deadline: nat, fault: nat -> Fault, rounds: nat)
    requires prompt != [] && c.mode.Valid() && Clean(c, fault)
    requires EndsAt(c, Run(c, Start(s0, prompt), rounds), Polls(c, rounds), deadline, fault(rounds))
    ensures var stop := StopAt(c, Run(c, Start(s0, prompt), rounds), Polls(c, rounds), deadline, fault(rounds));
            && stop != Failed
            && (deadline >= Polls(c, 2 * c.nPredict) ==>
                  (stop == Finished <==> forall k :: !Trap(c, Run(c, Start(s0, prompt), k))))
            && (deadline >= Polls(c, 2 * c.nPredict) && c.mode.Replay? ==> stop == Finished)
  {
    hide Run, Round, RoundFails, Trap, Done, Stuck;
    CleanNeverFails(c, s0, prompt, fault, rounds);
    FinishesIffNeverTrapped(c, s0, prompt);
    var n := 2 * c.nPredict;
    if Done(c, Run(c, Start(s0, prompt), n)) && n <= rounds { RunStays(c, Start(s0, prompt), n, rounds); }
    if c.mode.Replay? {
      forall r: nat ensures !c.mode.UsesHostCheckpoint(|c.drafts(r)|) { assert fault(r) == NoFault; }
      FinishesWithoutHostCheckpoint(c, s0, prompt, n);
    }
  }

  /** One call of kvmem_spec_generate. deadline is the number of polls after which abort() says yes;
      fault names the library call that fails in each round. The final loop variables are returned. */
  method Generate(c: Config, ctx: TargetContext, s0: Sampler, prompt: seq<Token>, deadline: nat, fault: nat -> Fault)
    returns (stop: Stop, st: Stats, emitted: seq<Token>, rounds: nat)
    requires c.mode.Valid() && ctx.mode == c.mode && ctx.recording == Off
    requires prompt != [] ==> ctx.rows == ctx.recurrent == prompt[..|prompt| - 1]
    modifies ctx
    ensures prompt == [] || c.nPredict == 0 ==>
              stop == Failed && emitted == [] && ctx.rows == old(ctx.rows) && ctx.recurrent == old(ctx.recurrent)
    ensures prompt != [] && c.nPredict > 0 ==>
              var g := Run(c, Start(s0, prompt), rounds);
              && emitted == g.emitted && st.nGen == |emitted|
              // Which loop head ends the call, and how, is determined by the deadline and the faults.
              && EndsAt(c, g, Polls(c, rounds), deadline, fault(rounds)) &&
                 Passed(c, s0, prompt, deadline, fault, rounds)
              && stop == StopAt(c, g, Polls(c, rounds), deadline, fault(rounds))
              && (stop == Finished <==> |emitted| == c.nPredict || g.ended)
              && (stop != Failed ==>
                    && InStep(ctx, g.prompt)
                    && st == Stats(|g.prompt|, |g.emitted|, g.drafted, g.accepted, g.restored)
                    // What the statistics count.
                    && st.nPast + 1 == |prompt| + st.nAccept + rounds - st.nRestore
                    && st.nPast + 1 == |prompt| + st.nGen + (if g.ended then 1 else 0)
                    && st.nDrafted == DraftedBefore(c, s0, prompt, rounds)
                    && st.nRestore == RestoredBefore(c, s0, prompt, rounds))
              // A failing round counts only if its rows were committed.
              && (stop == Failed ==>
                    var counted := FailsCounted(c, g, fault(rounds), Polls(c, rounds) + 1 >= deadline);
                    && st.nDrafted == g.drafted + (if counted then |DraftOf(c, g)| else 0)
                    && st.nAccept == g.accepted + (if counted then |Verified(c, g)| - 1 else 0)
                    && st.nRestore == g.restored)
              // abort() said yes when it had been asked deadline times.
              && (stop == Aborted ==> rounds == if c.mode.Replay? then deadline / 2 else deadline)
    // Whatever happens, the caller has seen a prefix of one-at-a-time sampling; at the end, all of it.
    ensures prompt != [] ==> emitted <= Shown(c.model, Goal(c, s0, prompt))
    ensures stop == Finished ==> emitted == Shown(c.model, Goal(c, s0, prompt))
    // A clean call never fails. With polls for 2 * nPredict rounds it finishes exactly if it meets no trap.
    ensures prompt != [] && c.nPredict > 0 && Clean(c, fault) ==>
              && stop != Failed
              && (deadline >= Polls(c, 2 * c.nPredict) ==>
                    (stop == Finished <==> forall k :: !Trap(c, Run(c, Start(s0, prompt), k))))
              && (deadline >= Polls(c, 2 * c.nPredict) && c.mode.Replay? ==> stop == Finished)
    ensures st.nAccept <= st.nDrafted && |emitted| <= c.nPredict
  {
    hide Run, Round, Goal, Stuck, Shown, Trap, RoundFails, Clean, Restores;
    st, emitted, rounds := Stats(0, 0, 0, 0, 0), [], 0;
    if prompt == [] || c.nPredict == 0 { stop := Failed; return; }
    var g := Start(s0, prompt);
    var nPast, polls, saved, savedRows := |prompt| - 1, 0, [], 0;
    assert g == Run(c, g, 0) by { RunZero(c, g); }
    HeadFacts(c, s0, prompt, 0);
    stop := Finished;
    while |g.emitted| < c.nPredict && !g.ended
      invariant g == Run(c, Start(s0, prompt), rounds) && g.accepted <= g.drafted
      invariant nPast == |g.prompt| && InStep(ctx, g.prompt)
      invariant g.draft != [] ==> saved == g.prompt && savedRows == |g.prompt|
      invariant polls == Polls(c, rounds) <= deadline && Passed(c, s0, prompt, deadline, fault, rounds)
      invariant stop == Finished
      decreases deadline - polls
    {
      if polls >= deadline { stop := Aborted; break; }
      polls := polls + 1;
      HeadFacts(c, s0, prompt, rounds);
      var g';
      stop, g', nPast, saved,
          savedRows := PlayRound(c, ctx, g, nPast, saved, savedRows, fault(rounds), polls >= deadline);
      if stop != Finished { g := g'; break; }
      if c.mode.Replay? { ReplayCarriesNothing(c, g, fault(rounds)); }
      if c.mode.Replay? && g'.draft == [] && polls < deadline { polls := polls + 1; }
      g, rounds := g', rounds + 1;
    }
    HeadFacts(c, s0, prompt, rounds);
    Counted(c, s0, prompt, deadline, fault, rounds);
    if Clean(c, fault) { CleanCallEnds(c, s0, prompt, deadline, fault, rounds); }
    emitted := g.emitted;
    st := Stats(nPast, |g.emitted|, g.drafted, g.accepted, g.restored);
  }
}
