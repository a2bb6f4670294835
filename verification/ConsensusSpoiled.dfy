/**
 * Entries that votes can no longer finalise. Vote results are filed unchecked, an entry
 * keeps every one of them, and all must be valid for its block: one that is not, or two
 * for different blocks, bar the entry until the block arrives as finalised or a
 * conflicting proposal drops the entry.
 */
module ConsensusSpoiled {
  import opened Primitives
  import opened ChainStore
  import opened Consensus
  import opened ConsensusSafety
  import opened ConsensusChain
  import opened ConsensusPass

  /** Some result is invalid whatever the block, or two results are for different blocks. */
  ghost predicate Unfit(results: seq<VoteResult>, valid: VoteResult -> bool) {
    exists i, j :: && 0 <= i < |results| && 0 <= j < |results|
                   && (!valid(results[i]) || results[i].hash != results[j].hash)
  }

  /** The entry of an unexecuted number holds such results. */
  ghost predicate Spoiled(cfg: Config, nd: Node, n: BlockNumber, valid: VoteResult -> bool) {
    && Filed(nd.pending) && ChainOk(nd.core, cfg.cluster) && !IsExecuted(nd.core.store, n, cfg.cluster)
    && n in nd.pending && Unfit(nd.pending[n].results, valid)
  }

  /** The checks that an attempt on `n` runs accept valid results only. */
  ghost predicate Heeds(ask: Oracle, n: BlockNumber, valid: VoteResult -> bool) {
    forall r :: ask(n).resultOk(r) ==> valid(r)
  }

  // ---------------------------------------------------------------- one attempt

  lemma ValidAreFit(results: seq<VoteResult>, b: Block, resultOk: VoteResult -> bool, valid: VoteResult -> bool)
    requires forall i :: 0 <= i < |results| ==> ResultValid(results[i], b, resultOk)
    requires forall r :: resultOk(r) ==> valid(r)
    ensures !Unfit(results, valid)
  {
    forall i | 0 <= i < |results| ensures valid(results[i]) && results[i].hash == b.header.hash {
      assert ResultValid(results[i], b, resultOk);
    }
  }

  lemma UnfitFails(cfg: Config, nd: Node, n: BlockNumber, a: Answers, valid: VoteResult -> bool)
    requires n in nd.pending && Unfit(nd.pending[n].results, valid) && forall r :: a.resultOk(r) ==> valid(r)
    ensures !TryOne(cfg, nd, n, a).ok
  {
    hide Accept, HeaderOk, CastVote, Unfit;
    var p := nd.pending[n];
    if p.block.Some? && Carried(p.results, p.block.value.block, a) {
      ValidAreFit(p.results, p.block.value.block, a.resultOk, valid);
    }
  }

  /** What is executed after an attempt was so before, or is the number attempted. */
  lemma TriedOrBefore(c: Address, s: Core, m: BlockNumber, t: Core, ok: bool, n: BlockNumber)
    requires ChainOk(s, c) && TriedOk(c, s, m, t, ok) && IsExecuted(t.store, n, c)
    ensures IsExecuted(s.store, n, c) || n == m
  {
    hide PastSettled;
    var j := LogIndex(t, c, n);
    if j < |s.log| {
      LoggedExecuted(s, c, j);
    } else {
      assert t.log[j] in t.log[|s.log|..];
    }
  }

  lemma TrySpoiled(cfg: Config, nd: Node, m: BlockNumber, a: Answers, n: BlockNumber, valid: VoteResult -> bool)
    requires Spoiled(cfg, nd, n, valid) && m in nd.pending && !IsExecuted(nd.core.store, m, cfg.cluster)
    requires m == n ==> forall r :: a.resultOk(r) ==> valid(r)
    ensures var one := TryOne(cfg, nd, m, a); Spoiled(cfg, one.node, n, valid) && (m == n ==> !one.ok)
  {
    hide TryOne, ChainOk, Filed, Unfit;
    var one := TryOne(cfg, nd, m, a);
    TryOneEffect(cfg, nd, m, a);
    SinceOk(nd.core, one.node.core, cfg.cluster);
    if m == n {
      UnfitFails(cfg, nd, n, a, valid);
    } else {
      if IsExecuted(one.node.core.store, n, cfg.cluster) {
        TriedOrBefore(cfg.cluster, nd.core, m, one.node.core, one.ok, n);
      }
    }
    assert Keeps(nd.pending[n], one.node.pending[n]);
  }

  lemma {:induction false} PassSpoiled(cfg: Config, nd: Node, ns: seq<BlockNumber>, ask: Oracle, n: BlockNumber,
                                       valid: VoteResult -> bool)
    requires Spoiled(cfg, nd, n, valid) && Heeds(ask, n, valid) && forall i :: 0 <= i < |ns| ==> ns[i] in nd.pending
    ensures var p := RunPass(cfg, nd, ns, ask); Spoiled(cfg, p.node, n, valid) && n !in p.finalised
    decreases |ns|
  {
    if ns != [] {
      SpoiledUnexecuted(cfg, nd, n, valid);
      hide Spoiled, TryOne, Heeds;
      if IsExecuted(nd.core.store, ns[0], cfg.cluster) {
        PassSpoiled(cfg, nd, ns[1..], ask, n, valid);
      } else {
        HeedsAt(ask, n, valid);
        TrySpoiled(cfg, nd, ns[0], ask(ns[0]), n, valid);
        KeepsKeys(cfg, nd, ns[0], ask(ns[0]));
        var one := TryOne(cfg, nd, ns[0], ask(ns[0]));
        if one.ok {
          PassSpoiled(cfg, one.node, ns[1..], ask, n, valid);
        }
      }
    }
  }

  lemma SpoiledUnexecuted(cfg: Config, nd: Node, n: BlockNumber, valid: VoteResult -> bool)
    requires Spoiled(cfg, nd, n, valid)
    ensures !IsExecuted(nd.core.store, n, cfg.cluster)
  {
  }

  lemma HeedsAt(ask: Oracle, n: BlockNumber, valid: VoteResult -> bool)
    requires Heeds(ask, n, valid)
    ensures forall r :: ask(n).resultOk(r) ==> valid(r)
  {
  }

  lemma FinalizeSpoiled(cfg: Config, nd: Node, ask: Oracle, n: BlockNumber, valid: VoteResult -> bool)
    requires Spoiled(cfg, nd, n, valid) && Heeds(ask, n, valid)
    ensures Spoiled(cfg, Finalize(cfg, nd, ask), n, valid)
  {
    hide RunPass, ChainOk, Unfit, Heeds;
    PassSpoiled(cfg, nd, Ascending(nd.pending.Keys), ask, n, valid);
  }

  // ----------------------------------------------------------------- whole runs

  /** The block itself arrives as finalised, or a conflicting proposal drops the entry. */
  predicate Clears(cfg: Config, nd: Node, step: Step, n: BlockNumber) {
    || (step.ReceiveBlock? && step.payload.block.header.number == n)
    || (step.AddAndBroadcast? && step.payload.block.header.number == n
        && Removes(cfg, nd, step.payload, step.authorised))
  }

  ghost predicate StepHeeds(step: Step, n: BlockNumber, valid: VoteResult -> bool) {
    Numbered(step) && (step.AddAndBroadcast? || Heeds(step.ask, n, valid))
  }

  /** The entry keeps its results, or gains some. */
  lemma EntryGrows(cfg: Config, nd: Node, m: PendingMap, n: BlockNumber, valid: VoteResult -> bool)
    requires Spoiled(cfg, nd, n, valid) && Filed(m) && n in m && nd.pending[n].results <= m[n].results
    ensures Spoiled(cfg, nd.(pending := m), n, valid)
  {
    hide ChainOk, Filed;
    var old' := nd.pending[n].results;
    var i, j :| 0 <= i < |old'| && 0 <= j < |old'| && (!valid(old'[i]) || old'[i].hash != old'[j].hash);
    assert m[n].results[i] == old'[i] && m[n].results[j] == old'[j];
  }

  lemma AcceptSpoiled(cfg: Config, nd: Node, b: Block, ok: bool, n: BlockNumber, valid: VoteResult -> bool)
    requires Spoiled(cfg, nd, n, valid) && b.header.number >= 1 && b.header.number != n
    requires HeaderOk(nd.core.store, cfg.cluster, b)
    ensures Spoiled(cfg, nd.(core := Accept(nd.core, b, ok).core), n, valid)
  {
    hide ChainOk, Accept, HeaderOk, Unfit, Filed;
    AcceptKeepsChain(nd.core, cfg.cluster, b, ok);
    SinceOk(nd.core, Accept(nd.core, b, ok).core, cfg.cluster);
    OnlyOwnNumber(nd.core, cfg.cluster, b, ok, n);
  }

  lemma VoteSpoiled(cfg: Config, nd: Node, step: Step, n: BlockNumber, valid: VoteResult -> bool)
    requires Spoiled(cfg, nd, n, valid) && step.ReceiveVote? && StepHeeds(step, n, valid)
    ensures Spoiled(cfg, Next(cfg, nd, step), n, valid)
  {
    hide ChainOk, Finalize, Filed, VoteResultOf, Unfit, Heeds;
    var pending := AddVote(nd.pending, step.vote);
    FiledAddVote(nd.pending, step.vote);
    EntryGrows(cfg, nd, pending, n, valid);
    var r := VoteResultOf(cfg, pending[step.vote.number].votes, step.tally);
    if r.Some? {
      FiledAddResult(pending, r.value);
      EntryGrows(cfg, nd, AddResult(pending, r.value), n, valid);
      var counted := nd.(pending := AddResult(pending, r.value));
      FinalizeSpoiled(cfg, Publish(cfg, counted, r.value, step.vote), step.ask, n, valid);
    }
  }

  lemma ProposeSpoiled(cfg: Config, nd: Node, step: Step, n: BlockNumber, valid: VoteResult -> bool)
    requires Spoiled(cfg, nd, n, valid) && step.AddAndBroadcast? && Numbered(step) && !Clears(cfg, nd, step, n)
    ensures Spoiled(cfg, Next(cfg, nd, step), n, valid)
  {
    hide ChainOk, Filed, Unfit, OwnIn;
    var p := step.payload;
    var v := OwnVote(cfg, p.block.header);
    FiledPropose(nd.pending, v, p);
    EntryGrows(cfg, nd, AddBlock(AddVote(nd.pending, v), p), n, valid);
    if p.block.header.number != n {
      EntryGrows(cfg, nd, nd.pending - {p.block.header.number}, n, valid);
    }
  }

  lemma StepSpoiled(cfg: Config, nd: Node, step: Step, n: BlockNumber, valid: VoteResult -> bool)
    requires Spoiled(cfg, nd, n, valid) && StepHeeds(step, n, valid) && !Clears(cfg, nd, step, n)
    ensures Spoiled(cfg, Next(cfg, nd, step), n, valid)
  {
    hide ChainOk, Finalize, HeaderOk, Accept, StoreBlock, Filed, Unfit, Heeds, OnPropose, OnVote;
    match step
    case ReceiveValidateBlock(p, authorised, ask) =>
      FiledAddBlock(nd.pending, p);
      EntryGrows(cfg, nd, AddBlock(nd.pending, p), n, valid);
      FinalizeSpoiled(cfg, nd.(pending := AddBlock(nd.pending, p)), ask, n, valid);
    case ReceiveVote(v, _, _, tally, ask) =>
      VoteSpoiled(cfg, nd, step, n, valid);
    case ReceiveVoteResult(r, ask) =>
      FiledAddResult(nd.pending, r);
      EntryGrows(cfg, nd, AddResult(nd.pending, r), n, valid);
      FinalizeSpoiled(cfg, nd.(pending := AddResult(nd.pending, r)), ask, n, valid);
    case ReceiveBlock(p, _, evidence, resultOk, executes, ask) =>
      StoreOnly(nd.core, p.block);
      if HeaderOk(nd.core.store, cfg.cluster, p.block) {
        AcceptSpoiled(cfg, nd, p.block, false, n, valid);
        AcceptSpoiled(cfg, nd, p.block, executes, n, valid);
        FinalizeSpoiled(cfg, nd.(core := Accept(nd.core, p.block, executes).core), ask, n, valid);
      }
    case AddAndBroadcast(p, authorised) =>
      ProposeSpoiled(cfg, nd, step, n, valid);
  }

  /**
   * Such an entry stays, unexecuted, and no pass finalises it, through every run in which its
   * block does not arrive as finalised and no conflicting proposal drops it.
   */
  lemma {:induction false} SpoiledForever(cfg: Config, nd: Node, steps: seq<Step>, n: BlockNumber,
                                          valid: VoteResult -> bool)
    requires Spoiled(cfg, nd, n, valid)
    requires forall i :: 0 <= i < |steps| ==> StepHeeds(steps[i], n, valid)
    requires forall i :: 0 <= i < |steps| ==> !Clears(cfg, Run(cfg, nd, steps[..i]), steps[i], n)
    ensures Spoiled(cfg, Run(cfg, nd, steps), n, valid)
    decreases |steps|
  {
    hide Spoiled, Next, StepHeeds, Clears;
    if steps != [] {
      var init := steps[..|steps| - 1];
      forall i | 0 <= i < |init| ensures !Clears(cfg, Run(cfg, nd, init[..i]), init[i], n) {
        assert init[..i] == steps[..i];
      }
      assert !Clears(cfg, Run(cfg, nd, init), steps[|steps| - 1], n);
      SpoiledForever(cfg, nd, init, n, valid);
      StepSpoiled(cfg, Run(cfg, nd, init), steps[|steps| - 1], n, valid);
    }
  }

  /** One vote result that is invalid, or for another block than one already filed, does it. */
  lemma BadResultSpoils(cfg: Config, nd: Node, r: VoteResult, ask: Oracle, valid: VoteResult -> bool)
    requires Filed(nd.pending) && ChainOk(nd.core, cfg.cluster) && !IsExecuted(nd.core.store, r.number, cfg.cluster)
    requires Heeds(ask, r.number, valid)
    requires !valid(r) || exists i :: 0 <= i < |Entry(nd.pending, r.number).results|
                                      && Entry(nd.pending, r.number).results[i].hash != r.hash
    ensures Spoiled(cfg, Next(cfg, nd, ReceiveVoteResult(r, ask)), r.number, valid)
  {
    hide ChainOk, Finalize, Heeds, Filed;
    var before := Entry(nd.pending, r.number).results;
    var filed := nd.(pending := AddResult(nd.pending, r));
    var results := filed.pending[r.number].results;
    FiledAddResult(nd.pending, r);
    assert results[|before|] == r;
    if valid(r) {
      var i :| 0 <= i < |before| && before[i].hash != r.hash;
      assert results[i] == before[i];
    }
    FinalizeSpoiled(cfg, filed, ask, r.number, valid);
  }
}
