/**
 * Elections over runs of the handlers. A pending block elects for the epoch of the block
 * after it before it is executed, and a received block never elects. While no attempt
 * that elected fails to execute, epochs are elected in ascending order, once each.
 */
module ConsensusElections {
  import opened Primitives
  import opened ChainStore
  import opened Consensus
  import opened ConsensusSafety
  import opened ConsensusChain
  import opened ConsensusPass
  import opened Epochs

  ghost predicate Ascends(es: seq<Epoch>) { forall i, j :: 0 <= i < j < |es| ==> es[i] < es[j] }

  /** Up to number `top` and the one after it epochs never go back, and they fit the column they are stored in. */
  ghost predicate Regular(cfg: Config, top: nat) {
    && (forall m: nat, n: nat :: m <= n <= top + 1 ==> cfg.epochOf(m) <= cfg.epochOf(n))
    && (forall n: nat :: n <= top ==> cfg.epochOf(n) <= I64_MAX)
  }

  /** The header names the epoch of its own number. */
  predicate Honest(cfg: Config, h: Header) { h.epoch == cfg.epochOf(h.number) }

  ghost predicate HonestPending(cfg: Config, top: nat, m: PendingMap) {
    forall n :: n in m && m[n].block.Some? ==>
      Honest(cfg, m[n].block.value.block.header) && m[n].block.value.block.header.number <= top
  }

  /** No elected epoch is above that of the next block, or of the head while that is not executed. */
  ghost predicate Bounded(cfg: Config, s: Core, elected: seq<Epoch>) {
    var head := HeadNumber(s, cfg.cluster);
    forall e :: e in elected ==>
      && e <= cfg.epochOf(head + 1)
      && (head >= 1 && !IsExecuted(s.store, head, cfg.cluster) ==> e <= cfg.epochOf(head))
  }

  ghost predicate ElectOk(cfg: Config, top: nat, nd: Node) {
    && Filed(nd.pending) && ChainOk(nd.core, cfg.cluster) && HonestPending(cfg, top, nd.pending)
    && HeadNumber(nd.core, cfg.cluster) <= top && Ascends(nd.elected) && Bounded(cfg, nd.core, nd.elected)
  }

  // --------------------------------------------------------------- one attempt

  lemma AcceptBounded(cfg: Config, top: nat, s: Core, b: Block, ok: bool, elected: seq<Epoch>)
    requires Regular(cfg, top) && ChainOk(s, cfg.cluster)
    requires 1 <= b.header.number <= top && HeaderOk(s.store, cfg.cluster, b)
    requires Bounded(cfg, s, elected)
    ensures Bounded(cfg, Accept(s, b, ok).core, elected) && HeadNumber(Accept(s, b, ok).core, cfg.cluster) <= top
  {
    hide ChainOk, HeaderOk, Accept, PastSettled;
    AcceptKeepsChain(s, cfg.cluster, b, ok);
    AcceptedNumber(s, cfg.cluster, b);
    var n := b.header.number;
    assert cfg.epochOf(n) <= cfg.epochOf(n + 1);
  }

  /** A block that elects and is executed adds a later epoch than any before. */
  lemma AcceptElects(cfg: Config, top: nat, s: Core, b: Block, elected: seq<Epoch>)
    requires Regular(cfg, top) && ChainOk(s, cfg.cluster)
    requires 1 <= b.header.number <= top && HeaderOk(s.store, cfg.cluster, b)
    requires Honest(cfg, b.header) && StartsEpoch(cfg, b.header) && !IsExecuted(s.store, b.header.number, cfg.cluster)
    requires Bounded(cfg, s, elected) && Ascends(elected)
    ensures var more := elected + [cfg.epochOf(b.header.number + 1)];
            Ascends(more) && Bounded(cfg, Accept(s, b, true).core, more)
  {
    hide ChainOk, HeaderOk, Accept, PastSettled;
    AcceptKeepsChain(s, cfg.cluster, b, true);
    AcceptLogs(s, cfg.cluster, b, true);
    AcceptedNumber(s, cfg.cluster, b);
    AcceptBounded(cfg, top, s, b, true, elected);
    forall i | 0 <= i < |elected| ensures elected[i] < cfg.epochOf(b.header.number + 1) {
      assert elected[i] in elected;
    }
  }

  lemma CastElects(cfg: Config, top: nat, nd: Node, n: BlockNumber, h: Header)
    requires n in nd.pending && HonestPending(cfg, top, nd.pending)
    ensures var t := CastVote(cfg, nd, n, h);
            HonestPending(cfg, top, t.pending) && t.elected == nd.elected && t.core == nd.core
  {
  }

  /** Attempts keep the order of elections where no attempt that elects fails to execute. */
  lemma TryOneElects(cfg: Config, top: nat, nd: Node, n: BlockNumber, a: Answers)
    requires Regular(cfg, top) && n in nd.pending && ElectOk(cfg, top, nd) && !IsExecuted(nd.core.store, n, cfg.cluster)
    requires a.executes
    ensures ElectOk(cfg, top, TryOne(cfg, nd, n, a).node)
  {
    hide Regular, Filed, ChainOk, HonestPending, Bounded, Ascends, Accept, HeaderOk, CastVote, Carried;
    TryOneEffect(cfg, nd, n, a);
    SinceOk(nd.core, TryOne(cfg, nd, n, a).node.core, cfg.cluster);
    if nd.pending[n].block.Some? && HeaderOk(nd.core.store, cfg.cluster, nd.pending[n].block.value.block) {
      var b := nd.pending[n].block.value.block;
      FiledAt(nd.pending, n);
      HonestAt(cfg, top, nd.pending, n);
      CastElects(cfg, top, nd, n, b.header);
      AcceptBounded(cfg, top, nd.core, b, true, nd.elected);
      if StartsEpoch(cfg, b.header) {
        AcceptElects(cfg, top, nd.core, b, nd.elected);
      }
    } else {
      assert TryOne(cfg, nd, n, a).node == nd;
    }
  }

  lemma HonestAt(cfg: Config, top: nat, m: PendingMap, n: BlockNumber)
    requires HonestPending(cfg, top, m) && n in m && m[n].block.Some?
    ensures Honest(cfg, m[n].block.value.block.header) && m[n].block.value.block.header.number <= top
  {
  }

  lemma {:induction false} PassElects(cfg: Config, top: nat, nd: Node, ns: seq<BlockNumber>, ask: Oracle)
    requires Regular(cfg, top) && ElectOk(cfg, top, nd) && (forall i :: 0 <= i < |ns| ==> ns[i] in nd.pending)
    requires forall n :: ask(n).executes
    ensures ElectOk(cfg, top, RunPass(cfg, nd, ns, ask).node)
    decreases |ns|
  {
    hide Regular, ElectOk, TryOne;
    if ns != [] {
      if IsExecuted(nd.core.store, ns[0], cfg.cluster) {
        PassElects(cfg, top, nd, ns[1..], ask);
      } else {
        TryOneElects(cfg, top, nd, ns[0], ask(ns[0]));
        KeepsKeys(cfg, nd, ns[0], ask(ns[0]));
        var one := TryOne(cfg, nd, ns[0], ask(ns[0]));
        if one.ok {
          PassElects(cfg, top, one.node, ns[1..], ask);
        }
      }
    }
  }

  lemma FinalizeElects(cfg: Config, top: nat, nd: Node, ask: Oracle)
    requires Regular(cfg, top) && ElectOk(cfg, top, nd) && forall n :: ask(n).executes
    ensures ElectOk(cfg, top, Finalize(cfg, nd, ask))
  {
    hide RunPass, ChainOk, Bounded, Ascends, Regular;
    PassElects(cfg, top, nd, Ascending(nd.pending.Keys), ask);
  }

  // ----------------------------------------------------------------- whole runs

  /** Block messages up to number `top` name their own epoch, and what a pass attempts does not fail to execute. */
  ghost predicate Steady(cfg: Config, top: nat, step: Step) {
    && Numbered(step)
    && (match step
        case ReceiveValidateBlock(p, _, ask) =>
          Honest(cfg, p.block.header) && p.block.header.number <= top && forall n :: ask(n).executes
        case ReceiveVote(_, _, _, _, ask) => forall n :: ask(n).executes
        case ReceiveVoteResult(_, ask) => forall n :: ask(n).executes
        case ReceiveBlock(p, _, _, _, _, ask) => p.block.header.number <= top && forall n :: ask(n).executes
        case AddAndBroadcast(p, _) => Honest(cfg, p.block.header) && p.block.header.number <= top)
  }

  lemma AddElects(cfg: Config, top: nat, nd: Node, p: Payload)
    requires ElectOk(cfg, top, nd) && Honest(cfg, p.block.header) && 1 <= p.block.header.number <= top
    ensures ElectOk(cfg, top, nd.(pending := AddBlock(nd.pending, p)))
  {
    hide ChainOk, Bounded, Ascends;
  }

  /** The same blocks pending, or fewer, and the same elections. */
  lemma QuietElects(cfg: Config, top: nat, nd: Node, t: Node)
    requires ElectOk(cfg, top, nd) && t.core == nd.core && t.elected == nd.elected
    requires forall n :: n in t.pending && t.pending[n].block.Some?
                         ==> n in nd.pending && t.pending[n].block == nd.pending[n].block
    ensures ElectOk(cfg, top, t)
  {
    hide ChainOk, Bounded, Ascends;
  }

  lemma OnVoteElects(cfg: Config, top: nat, nd: Node, step: Step)
    requires Regular(cfg, top) && ElectOk(cfg, top, nd) && step.ReceiveVote? && Steady(cfg, top, step)
    ensures ElectOk(cfg, top, Next(cfg, nd, step))
  {
    hide Regular, ElectOk, Finalize;
    var voted := nd.(pending := AddVote(nd.pending, step.vote));
    QuietElects(cfg, top, nd, voted);
    var r := VoteResultOf(cfg, voted.pending[step.vote.number].votes, step.tally);
    if r.Some? {
      var counted := voted.(pending := AddResult(voted.pending, r.value));
      QuietElects(cfg, top, voted, counted);
      QuietElects(cfg, top, counted, Publish(cfg, counted, r.value, step.vote));
      FinalizeElects(cfg, top, Publish(cfg, counted, r.value, step.vote), step.ask);
    }
  }

  lemma OnBlockElects(cfg: Config, top: nat, nd: Node, step: Step)
    requires Regular(cfg, top) && ElectOk(cfg, top, nd) && step.ReceiveBlock? && Steady(cfg, top, step)
    ensures ElectOk(cfg, top, Next(cfg, nd, step))
  {
    hide Regular, Finalize, HeaderOk, Accept, StoreBlock, ChainOk, Filed, HonestPending, Ascends, Bounded;
    var b := step.payload.block;
    StoreOnly(nd.core, b);
    if HeaderOk(nd.core.store, cfg.cluster, b) {
      forall ok ensures ElectOk(cfg, top, nd.(core := Accept(nd.core, b, ok).core)) {
        AcceptKeepsChain(nd.core, cfg.cluster, b, ok);
        AcceptBounded(cfg, top, nd.core, b, ok, nd.elected);
      }
      FinalizeElects(cfg, top, nd.(core := Accept(nd.core, b, step.executes).core), step.ask);
    }
  }

  lemma OnProposeElects(cfg: Config, top: nat, nd: Node, p: Payload, authorised: bool)
    requires ElectOk(cfg, top, nd) && Honest(cfg, p.block.header) && 1 <= p.block.header.number <= top
    ensures ElectOk(cfg, top, OnPropose(cfg, nd, p, authorised))
  {
    hide ElectOk, OwnIn;
    var voted := nd.(pending := AddVote(nd.pending, OwnVote(cfg, p.block.header)));
    QuietElects(cfg, top, nd, voted);
    AddElects(cfg, top, voted, p);
    var t := OnPropose(cfg, nd, p, authorised);
    if t != voted.(pending := AddBlock(voted.pending, p)) {
      QuietElects(cfg, top, nd, t);
    }
  }

  lemma StepElects(cfg: Config, top: nat, nd: Node, step: Step)
    requires Regular(cfg, top) && ElectOk(cfg, top, nd) && Steady(cfg, top, step)
    ensures ElectOk(cfg, top, Next(cfg, nd, step))
  {
    hide Regular, ElectOk, Finalize, AddBlock, OnVote, OnBlock, OnPropose;
    match step
    case ReceiveValidateBlock(p, authorised, ask) =>
      AddElects(cfg, top, nd, p);
      FinalizeElects(cfg, top, nd.(pending := AddBlock(nd.pending, p)), ask);
    case ReceiveVote(_, _, _, _, _) =>
      OnVoteElects(cfg, top, nd, step);
    case ReceiveVoteResult(r, ask) =>
      QuietElects(cfg, top, nd, nd.(pending := AddResult(nd.pending, r)));
      FinalizeElects(cfg, top, nd.(pending := AddResult(nd.pending, r)), ask);
    case ReceiveBlock(_, _, _, _, _, _) =>
      OnBlockElects(cfg, top, nd, step);
    case AddAndBroadcast(p, authorised) =>
      OnProposeElects(cfg, top, nd, p, authorised);
  }

  lemma {:induction false} RunElects(cfg: Config, top: nat, nd: Node, steps: seq<Step>)
    requires Regular(cfg, top) && ElectOk(cfg, top, nd) && forall i :: 0 <= i < |steps| ==> Steady(cfg, top, steps[i])
    ensures ElectOk(cfg, top, Run(cfg, nd, steps))
    decreases |steps|
  {
    hide Regular, ElectOk, Next, Steady;
    if steps != [] {
      RunElects(cfg, top, nd, steps[..|steps| - 1]);
      StepElects(cfg, top, Run(cfg, nd, steps[..|steps| - 1]), steps[|steps| - 1]);
    }
  }

  /** Over every such run of a node process, each epoch is elected at most once, in ascending order. */
  lemma ElectedOnce(cfg: Config, top: nat, start: Core, steps: seq<Step>)
    requires Regular(cfg, top) && ChainOk(start, cfg.cluster) && HeadNumber(start, cfg.cluster) <= top
    requires forall i :: 0 <= i < |steps| ==> Steady(cfg, top, steps[i])
    ensures Ascends(Run(cfg, Started(start), steps).elected)
  {
    hide Regular, ChainOk, Steady, Run;
    RunElects(cfg, top, Started(start), steps);
  }

  // ------------------------------------------------------- elected, but not executed

  /** The attempt on `n` gets as far as electing. */
  predicate Electing(cfg: Config, nd: Node, n: BlockNumber, a: Answers)
    requires n in nd.pending
  {
    var p := nd.pending[n];
    && p.block.Some? && Proposable(cfg, nd.core.store, p.block.value.block, a)
    && Carried(p.results, p.block.value.block, a) && StartsEpoch(cfg, p.block.value.block.header) && a.selects
  }

  /** Whatever epoch the block names: the order is kept exactly when its election is later than the last one. */
  lemma ElectionOrderIff(cfg: Config, nd: Node, n: BlockNumber, a: Answers)
    requires n in nd.pending && Filed(nd.pending) && Electing(cfg, nd, n, a) && Ascends(nd.elected)
    ensures var t := TryOne(cfg, nd, n, a).node;
            && t.elected == nd.elected + [cfg.epochOf(n + 1)]
            && (Ascends(t.elected) <==> nd.elected == [] || nd.elected[|nd.elected| - 1] < cfg.epochOf(n + 1))
  {
    hide Accept, HeaderOk, Carried;
    FiledAt(nd.pending, n);
    var es, e := nd.elected, cfg.epochOf(n + 1);
    if es != [] {
      assert (es + [e])[|es|] == e && (es + [e])[|es| - 1] == es[|es| - 1];
    }
  }

  lemma StoredHead(st: Store, c: Address, b: Block) returns (h: Header)
    requires Linked(st, c) && b.header.number >= 1 && HeaderOk(st, c, b) && b.header.epoch <= I64_MAX
    ensures HeadHeader(StoreBlock(st, b), c) == Some(h)
    ensures SameHeader(h, b.header) && h.epoch == b.header.epoch
  {
    hide InsertTxs;
    StoreKeepsLinks(st, c, b);
    h := HeadHeader(StoreBlock(st, b), c).value;
  }

  /** The stored header proposed again, with answers that let everything through. */
  function TryAgain(p: Payload, h: Header): Step {
    ReceiveValidateBlock(p.(block := p.block.(header := h)), true, n => AGREE)
  }

  /** The attempt elects and stores the block, and fails. */
  lemma TryFails(cfg: Config, nd: Node, n: BlockNumber, a: Answers)
    requires n in nd.pending && Filed(nd.pending) && ChainOk(nd.core, cfg.cluster)
    requires !IsExecuted(nd.core.store, n, cfg.cluster) && Electing(cfg, nd, n, a) && !a.executes
    ensures var one := TryOne(cfg, nd, n, a);
            && !one.ok && one.node.elected == nd.elected + [cfg.epochOf(n + 1)]
            && one.node.core.store == StoreBlock(nd.core.store, nd.pending[n].block.value.block)
            && one.node.pending.Keys == nd.pending.Keys && one.node.pending[n].results == nd.pending[n].results
  {
    hide ChainOk, HeaderOk, Carried, StoreBlock;
    var b := nd.pending[n].block.value.block;
    FiledAt(nd.pending, n);
    AcceptLogs(nd.core, cfg.cluster, b, false);
    StoreOnly(nd.core, b);
  }

  lemma StopsAtFirst(cfg: Config, nd: Node, n: BlockNumber, ask: Oracle)
    requires IsLeast(nd.pending.Keys, n) && !IsExecuted(nd.core.store, n, cfg.cluster)
    requires !TryOne(cfg, nd, n, ask(n)).ok
    ensures Finalize(cfg, nd, ask) == TryOne(cfg, nd, n, ask(n)).node
  {
    hide TryOne;
    FirstIsLeast(nd.pending.Keys, n);
    var one := TryOne(cfg, nd, n, ask(n));
    assert RunPass(cfg, nd, Ascending(nd.pending.Keys), ask) == Pass(one.node, []);
    assert Elements([]) == {};
    assert one.node.pending - {} == one.node.pending;
  }

  /** The stored block proposed again elects again. */
  lemma AgainElects(cfg: Config, nd: Node, t: Node, n: BlockNumber, a: Answers, h: Header)
    requires n in nd.pending && Filed(nd.pending) && Electing(cfg, nd, n, a)
    requires t.elected == nd.elected + [cfg.epochOf(n + 1)] && !IsExecuted(t.core.store, n, cfg.cluster)
    requires t.pending.Keys == nd.pending.Keys && t.pending[n].results == nd.pending[n].results
    requires HeadHeader(t.core.store, cfg.cluster) == Some(h)
    requires SameHeader(h, nd.pending[n].block.value.block.header)
    requires h.epoch == nd.pending[n].block.value.block.header.epoch
    ensures var p := nd.pending[n].block.value.(block := nd.pending[n].block.value.block.(header := h));
            TryOne(cfg, t.(pending := AddBlock(t.pending, p)), n, AGREE).node.elected
            == t.elected + [cfg.epochOf(n + 1)]
  {
    hide Accept;
    FiledAt(nd.pending, n);
    var p := nd.pending[n].block.value.(block := nd.pending[n].block.value.block.(header := h));
    assert FirstVerdict(nd.pending[n].results, AGREE.passes, 0);
  }

  lemma {:induction false} PassExtends(cfg: Config, nd: Node, ns: seq<BlockNumber>, ask: Oracle)
    requires forall i :: 0 <= i < |ns| ==> ns[i] in nd.pending
    ensures nd.elected <= RunPass(cfg, nd, ns, ask).node.elected
    decreases |ns|
  {
    hide Accept, HeaderOk, Carried, StartsEpoch;
    if ns != [] {
      if IsExecuted(nd.core.store, ns[0], cfg.cluster) {
        PassExtends(cfg, nd, ns[1..], ask);
      } else {
        var one := TryOne(cfg, nd, ns[0], ask(ns[0]));
        KeepsKeys(cfg, nd, ns[0], ask(ns[0]));
        if one.ok {
          PassExtends(cfg, one.node, ns[1..], ask);
        }
      }
    }
  }

  lemma FirstElected(cfg: Config, nd: Node, n: BlockNumber, ask: Oracle)
    requires IsLeast(nd.pending.Keys, n) && !IsExecuted(nd.core.store, n, cfg.cluster)
    ensures TryOne(cfg, nd, n, ask(n)).node.elected <= Finalize(cfg, nd, ask).elected
  {
    hide TryOne;
    FirstIsLeast(nd.pending.Keys, n);
    var one := TryOne(cfg, nd, n, ask(n));
    var ns := Ascending(nd.pending.Keys);
    KeepsKeys(cfg, nd, n, ask(n));
    if one.ok {
      PassExtends(cfg, one.node, ns[1..], ask);
    }
  }

  lemma Twice(es: seq<Epoch>, e: Epoch, more: seq<Epoch>)
    requires es + [e] + [e] <= more
    ensures !Ascends(more)
  {
    assert more[|es|] == (es + [e] + [e])[|es|] == e;
    assert more[|es| + 1] == (es + [e] + [e])[|es| + 1] == e;
  }

  ghost predicate AllSteady(cfg: Config, top: nat, steps: seq<Step>) {
    forall i :: 0 <= i < |steps| ==> Steady(cfg, top, steps[i])
  }

  lemma AgainRepeats(cfg: Config, nd: Node, t: Node, n: BlockNumber, a: Answers, h: Header)
    requires IsLeast(nd.pending.Keys, n) && Filed(nd.pending) && Electing(cfg, nd, n, a)
    requires t.elected == nd.elected + [cfg.epochOf(n + 1)] && !IsExecuted(t.core.store, n, cfg.cluster)
    requires t.pending.Keys == nd.pending.Keys && t.pending[n].results == nd.pending[n].results
    requires HeadHeader(t.core.store, cfg.cluster) == Some(h)
    requires SameHeader(h, nd.pending[n].block.value.block.header)
    requires h.epoch == nd.pending[n].block.value.block.header.epoch
    ensures !Ascends(Run(cfg, t, [TryAgain(nd.pending[n].block.value, h)]).elected)
  {
    FiledAt(nd.pending, n);
    hide TryOne, Finalize, Electing, Ascends, HeadHeader;
    AgainElects(cfg, nd, t, n, a, h);
    var step := TryAgain(nd.pending[n].block.value, h);
    var filed := t.(pending := AddBlock(t.pending, step.payload));
    assert filed.pending.Keys == nd.pending.Keys;
    FirstElected(cfg, filed, n, step.ask);
    RunOne(cfg, t, step);
    Twice(nd.elected, cfg.epochOf(n + 1), Next(cfg, t, step).elected);
  }

  lemma FailedElectsAgain(cfg: Config, top: nat, nd: Node, n: BlockNumber, ask: Oracle)
    requires Regular(cfg, top) && ElectOk(cfg, top, nd) && IsLeast(nd.pending.Keys, n)
    requires !IsExecuted(nd.core.store, n, cfg.cluster) && Electing(cfg, nd, n, ask(n)) && !ask(n).executes
    ensures exists more :: AllSteady(cfg, top, more) && !Ascends(Run(cfg, Finalize(cfg, nd, ask), more).elected)
  {
    hide ChainOk, StoreBlock, Regular, TryOne, Finalize, Electing, Filed, Ascends, Run, HeadHeader, HonestPending,
      AllSteady, Bounded;
    ElectingBlock(cfg, top, nd, n, ask(n));
    var p := nd.pending[n].block.value;
    TryFails(cfg, nd, n, ask(n));
    StopsAtFirst(cfg, nd, n, ask);
    var h := ElectingHead(cfg, nd, n, ask(n));
    AgainRepeats(cfg, nd, Finalize(cfg, nd, ask), n, ask(n), h);
    AgainSteady(cfg, top, p, h);
  }

  lemma AgainSteady(cfg: Config, top: nat, p: Payload, h: Header)
    requires 1 <= h.number <= top && Honest(cfg, h)
    ensures AllSteady(cfg, top, [TryAgain(p, h)])
  {
  }

  lemma ElectingBlock(cfg: Config, top: nat, nd: Node, n: BlockNumber, a: Answers)
    requires Regular(cfg, top) && ElectOk(cfg, top, nd) && n in nd.pending && Electing(cfg, nd, n, a)
    ensures nd.pending[n].block.Some?
    ensures var h := nd.pending[n].block.value.block.header;
            1 <= h.number == n <= top && Honest(cfg, h) && h.epoch <= I64_MAX
  {
    FiledAt(nd.pending, n);
    HonestAt(cfg, top, nd.pending, n);
  }

  lemma RunOne(cfg: Config, nd: Node, step: Step)
    ensures Run(cfg, nd, [step]) == Next(cfg, nd, step)
  {
    hide Next;
    assert [step][..0] == [];
  }

  lemma ElectingHead(cfg: Config, nd: Node, n: BlockNumber, a: Answers) returns (h: Header)
    requires n in nd.pending && Filed(nd.pending) && ChainOk(nd.core, cfg.cluster) && Electing(cfg, nd, n, a)
    requires nd.pending[n].block.value.block.header.epoch <= I64_MAX
    ensures var b := nd.pending[n].block.value.block;
            && HeadHeader(StoreBlock(nd.core.store, b), cfg.cluster) == Some(h)
            && SameHeader(h, b.header) && h.epoch == b.header.epoch
            && (IsExecuted(StoreBlock(nd.core.store, b), n, cfg.cluster) <==> IsExecuted(nd.core.store, n, cfg.cluster))
  {
    hide HeaderOk, Carried, StoreBlock;
    var b := nd.pending[n].block.value.block;
    FiledAt(nd.pending, n);
    StoreKeepsLinks(nd.core.store, cfg.cluster, b);
    h := StoredHead(nd.core.store, cfg.cluster, b);
  }

  /**
   * What was elected can be elected again exactly when the block that elected it failed to
   * execute: then proposing the stored block once more elects the same epoch.
   */
  lemma ElectedAgainIff(cfg: Config, top: nat, nd: Node, n: BlockNumber, ask: Oracle)
    requires Regular(cfg, top) && ElectOk(cfg, top, nd) && IsLeast(nd.pending.Keys, n)
    requires !IsExecuted(nd.core.store, n, cfg.cluster) && Electing(cfg, nd, n, ask(n))
    requires forall m :: m != n ==> ask(m).executes
    ensures (exists more :: AllSteady(cfg, top, more) && !Ascends(Run(cfg, Finalize(cfg, nd, ask), more).elected))
        <==> !ask(n).executes
  {
    hide Regular, ElectOk, Electing, Finalize, Steady, Run;
    if ask(n).executes {
      FinalizeElects(cfg, top, nd, ask);
      forall more | AllSteady(cfg, top, more) ensures Ascends(Run(cfg, Finalize(cfg, nd, ask), more).elected) {
        RunElects(cfg, top, Finalize(cfg, nd, ask), more);
        ElectOrder(cfg, top, Run(cfg, Finalize(cfg, nd, ask), more));
      }
    } else {
      FailedElectsAgain(cfg, top, nd, n, ask);
    }
  }

  lemma ElectOrder(cfg: Config, top: nat, nd: Node)
    requires ElectOk(cfg, top, nd)
    ensures Ascends(nd.elected)
  {
  }

  // --------------------------------------------------------- the node's own epochs

  lemma QuotientMonotone(m: nat, n: nat, slots: nat)
    requires slots >= 1 && m <= n
    ensures m / slots <= n / slots
    decreases n - m
  {
    if m < n {
      QuotientStep(n - 1, slots);
      QuotientMonotone(m, n - 1, slots);
    }
  }

  lemma EpochBelow(n: nat, top: nat, slots: nat)
    requires slots >= 1 && n <= top + 1 && (top + 1) / slots <= I64_MAX
    ensures CurrentEpoch(n, slots) == n / slots <= I64_MAX
  {
    QuotientMonotone(n, top + 1, slots);
    if n == 0 {
      DivModUnique(0, slots, 0, 0);
    } else {
      SmallModulus(n / slots);
    }
  }

  lemma EpochsRise(m: nat, n: nat, top: nat, slots: nat)
    requires slots >= 1 && m <= n <= top + 1 && (top + 1) / slots <= I64_MAX
    ensures CurrentEpoch(m, slots) <= CurrentEpoch(n, slots) <= I64_MAX
  {
    hide CurrentEpoch;
    EpochBelow(m, top, slots);
    EpochBelow(n, top, slots);
    QuotientMonotone(m, n, slots);
  }

  /** The epochs a node computes are regular up to every number whose epoch fits the column. */
  lemma CurrentEpochsRegular(cfg: Config, slots: nat, top: nat)
    requires slots >= 1 && (top + 1) / slots <= I64_MAX && forall n: nat :: cfg.epochOf(n) == CurrentEpoch(n, slots)
    ensures Regular(cfg, top)
  {
    hide CurrentEpoch;
    forall m: nat, n: nat | m <= n <= top + 1 ensures cfg.epochOf(m) <= cfg.epochOf(n) <= I64_MAX {
      EpochsRise(m, n, top, slots);
    }
  }

  /** With the node's own epoch function, for as long as epochs fit i64. */
  lemma NodeElectsOnce(cfg: Config, slots: nat, top: nat, start: Core, steps: seq<Step>)
    requires slots >= 1 && (top + 1) / slots <= I64_MAX && forall n: nat :: cfg.epochOf(n) == CurrentEpoch(n, slots)
    requires ChainOk(start, cfg.cluster) && HeadNumber(start, cfg.cluster) <= top && AllSteady(cfg, top, steps)
    ensures Ascends(Run(cfg, Started(start), steps).elected)
  {
    hide Regular, ChainOk, Steady, Run, CurrentEpoch;
    CurrentEpochsRegular(cfg, slots, top);
    ElectedOnce(cfg, top, start, steps);
  }
}
