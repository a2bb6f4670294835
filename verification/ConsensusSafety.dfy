/**
 * Safety over whole runs of the message handlers: at-most-once execution, the linked
 * chain of stored headers, and what a failed execution leaves behind.
 */
module ConsensusSafety {
  import opened Primitives
  import opened ChainStore
  import opened Consensus
  import opened Synchronisation

  // ------------------------------------------------- an induction principle for runs

  /**
   * `inv` survives storing and trying to execute any block that passes the header check;
   * with `must`, only if the execution succeeds.
   */
  ghost predicate Closed(c: Address, must: bool, inv: Core -> bool) {
    forall s: Core, b: Block, ok: bool :: inv(s) && b.header.number >= 1 && HeaderOk(s.store, c, b) && (must ==> ok)
      ==> inv(Accept(s, b, ok).core)
  }

  /** No execution asked for in the step fails, and no vote result it delivers is refused. */
  ghost predicate Succeeding(step: Step) {
    match step
    case ReceiveValidateBlock(_, _, ask) => Executes(ask)
    case ReceiveVote(_, _, _, _, ask) => Executes(ask)
    case ReceiveVoteResult(_, ask) => Executes(ask)
    case ReceiveBlock(p, _, evidence, resultOk, executes, ask) =>
      executes && Executes(ask) && (evidence.Some? ==> ResultValid(evidence.value, p.block, resultOk))
    case AddAndBroadcast(_, _) => true
  }

  ghost predicate Executes(ask: Oracle) { forall n :: ask(n).executes }

  lemma TryOneKeeps(cfg: Config, nd: Node, n: BlockNumber, a: Answers, must: bool, inv: Core -> bool)
    requires must ==> a.executes
    requires n in nd.pending && Filed(nd.pending) && Closed(cfg.cluster, must, inv) && inv(nd.core)
    ensures var t := TryOne(cfg, nd, n, a); inv(t.node.core) && Filed(t.node.pending)
  {
    hide Accept, HeaderOk;
  }

  lemma {:induction false} PassKeeps(cfg: Config, nd: Node, ns: seq<BlockNumber>, ask: Oracle, must: bool,
                                     inv: Core -> bool)
    requires must ==> Executes(ask)
    requires forall i :: 0 <= i < |ns| ==> ns[i] in nd.pending
    requires Filed(nd.pending) && Closed(cfg.cluster, must, inv) && inv(nd.core)
    ensures var p := RunPass(cfg, nd, ns, ask); inv(p.node.core) && Filed(p.node.pending)
    decreases |ns|
  {
    if ns != [] {
      if IsExecuted(nd.core.store, ns[0], cfg.cluster) {
        PassKeeps(cfg, nd, ns[1..], ask, must, inv);
      } else {
        var one := TryOne(cfg, nd, ns[0], ask(ns[0]));
        TryOneKeeps(cfg, nd, ns[0], ask(ns[0]), must, inv);
        assert one.node.pending.Keys == nd.pending.Keys;
        if one.ok {
          hide TryOne, Closed;
          PassKeeps(cfg, one.node, ns[1..], ask, must, inv);
        }
      }
    }
  }

  lemma FinalizeKeeps(cfg: Config, nd: Node, ask: Oracle, must: bool, inv: Core -> bool)
    requires must ==> Executes(ask)
    requires Filed(nd.pending) && Closed(cfg.cluster, must, inv) && inv(nd.core)
    ensures var t := Finalize(cfg, nd, ask); inv(t.core) && Filed(t.pending)
  {
    PassKeeps(cfg, nd, Ascending(nd.pending.Keys), ask, must, inv);
    hide RunPass, Closed;
  }

  lemma FiledPropose(m: PendingMap, v: Vote, p: Payload)
    requires Filed(m) && p.block.header.number >= 1
    ensures Filed(AddBlock(AddVote(m, v), p)) && Filed(m - {p.block.header.number})
  {
  }

  lemma OnBlockKeeps(cfg: Config, nd: Node, step: Step, must: bool, inv: Core -> bool)
    requires step.ReceiveBlock? && Numbered(step) && (must ==> Succeeding(step))
    requires Filed(nd.pending) && Closed(cfg.cluster, must, inv) && inv(nd.core)
    ensures var t := Next(cfg, nd, step); inv(t.core) && Filed(t.pending)
  {
    hide Finalize, HeaderOk, Accept, Filed, StoreBlock;
    var b := step.payload.block;
    StoreOnly(nd.core, b);
    if HeaderOk(nd.core.store, cfg.cluster, b) {
      assert !must ==> inv(Accept(nd.core, b, false).core);
      FinalizeKeeps(cfg, nd.(core := Accept(nd.core, b, step.executes).core), step.ask, must, inv);
    }
  }

  lemma StepKeeps(cfg: Config, nd: Node, step: Step, must: bool, inv: Core -> bool)
    requires Numbered(step) && (must ==> Succeeding(step))
    requires Filed(nd.pending) && Closed(cfg.cluster, must, inv) && inv(nd.core)
    ensures var t := Next(cfg, nd, step); inv(t.core) && Filed(t.pending)
  {
    hide Finalize, OnBlock, Filed, Closed, AddVote, AddResult, AddBlock;
    match step
    case ReceiveValidateBlock(p, authorised, ask) =>
      FiledAddBlock(nd.pending, p);
      FinalizeKeeps(cfg, nd.(pending := AddBlock(nd.pending, p)), ask, must, inv);
    case ReceiveVote(v, asProposer, known, tally, ask) =>
      OnVoteKeeps(cfg, nd, step, must, inv);
    case ReceiveVoteResult(r, ask) =>
      FiledAddResult(nd.pending, r);
      FinalizeKeeps(cfg, nd.(pending := AddResult(nd.pending, r)), ask, must, inv);
    case ReceiveBlock(p, valid, evidence, resultOk, executes, ask) =>
      OnBlockKeeps(cfg, nd, step, must, inv);
    case AddAndBroadcast(p, authorised) =>
      FiledPropose(nd.pending, OwnVote(cfg, p.block.header), p);
  }

  lemma OnVoteKeeps(cfg: Config, nd: Node, step: Step, must: bool, inv: Core -> bool)
    requires step.ReceiveVote? && (must ==> Succeeding(step))
    requires Filed(nd.pending) && Closed(cfg.cluster, must, inv) && inv(nd.core)
    ensures var t := Next(cfg, nd, step); inv(t.core) && Filed(t.pending)
  {
    hide Finalize, Filed, Closed, AddResult;
    var pending := AddVote(nd.pending, step.vote);
    FiledAddVote(nd.pending, step.vote);
    var r := VoteResultOf(cfg, pending[step.vote.number].votes, step.tally);
    if r.Some? {
      FiledAddResult(pending, r.value);
      var counted := nd.(pending := AddResult(pending, r.value));
      FinalizeKeeps(cfg, Publish(cfg, counted, r.value, step.vote), step.ask, must, inv);
    }
  }

  lemma StoreOnly(s: Core, b: Block)
    ensures Accept(s, b, false).core == s.(store := StoreBlock(s.store, b))
  {
  }

  /** A property of the tables and the execution log that every accepted block keeps holds after every run. */
  lemma {:induction false} RunKeeps(cfg: Config, nd: Node, steps: seq<Step>, must: bool, inv: Core -> bool)
    requires Filed(nd.pending) && Closed(cfg.cluster, must, inv) && inv(nd.core)
    requires forall i :: 0 <= i < |steps| ==> Numbered(steps[i]) && (must ==> Succeeding(steps[i]))
    ensures var t := Run(cfg, nd, steps); inv(t.core) && Filed(t.pending)
    decreases |steps|
  {
    if steps != [] {
      RunKeeps(cfg, nd, steps[..|steps| - 1], must, inv);
      StepKeeps(cfg, Run(cfg, nd, steps[..|steps| - 1]), steps[|steps| - 1], must, inv);
    }
  }

  // ------------------------------------------------------------ at most once

  /** What was executed: the cluster and number of every logged header. */
  ghost function Done(log: seq<Header>): set<(Address, BlockNumber)> {
    set h | h in log :: (h.cluster, h.number)
  }

  ghost predicate NoRepeats(log: seq<Header>) {
    forall i, j :: 0 <= i < j < |log| ==> (log[i].cluster, log[i].number) != (log[j].cluster, log[j].number)
  }

  /** No block was executed twice, and the flags say exactly what was executed. */
  ghost predicate Once(s: Core) {
    && NoRepeats(s.log)
    && (forall c: Address, n: BlockNumber :: IsExecuted(s.store, n, c) <==> (c, n) in Done(s.log))
  }

  /** Every header is filed under its number and, genesis apart, has a flag row. */
  ghost predicate RowsPair(hs: map<BlockNumber, Header>, e: map<(Address, BlockNumber), bool>) {
    forall n :: n in hs ==> hs[n].number == n && (n >= 1 ==> (hs[n].cluster, n) in e)
  }

  ghost predicate Flagged(st: Store) { RowsPair(st.headers, st.executed) }

  /** The log only grows and no flag is reset. */
  ghost predicate Grown(s: Core, t: Core) {
    && s.log <= t.log
    && (forall c: Address, n: BlockNumber :: IsExecuted(s.store, n, c) ==> IsExecuted(t.store, n, c))
  }

  ghost predicate OnceSince(s: Core, t: Core) { Once(t) && Flagged(t.store) && Grown(s, t) }

  lemma ExecuteOnce(s: Core, h: Header, ok: bool)
    requires Once(s) && Flagged(s.store) && (h.cluster, h.number) in s.store.executed
    ensures var t := Execute(s, h, ok).core; OnceSince(s, t)
    ensures Execute(s, h, ok).ok <==> IsExecuted(Execute(s, h, ok).core.store, h.number, h.cluster)
  {
    var t := Execute(s, h, ok).core;
    if !IsExecuted(s.store, h.number, h.cluster) && ok {
      assert t.log == s.log + [h];
      assert Done(t.log) == Done(s.log) + {(h.cluster, h.number)};
      forall i, j | 0 <= i < j < |t.log|
        ensures (t.log[i].cluster, t.log[i].number) != (t.log[j].cluster, t.log[j].number)
      {
        assert t.log[i] in s.log;
        assert (t.log[i].cluster, t.log[i].number) in Done(s.log);
      }
    }
  }

  lemma AcceptOnce(s: Core, b: Block, ok: bool)
    requires Once(s) && Flagged(s.store)
    ensures OnceSince(s, Accept(s, b, ok).core)
  {
    hide InsertTxs, Execute;
    ExecuteOnce(s.(store := StoreBlock(s.store, b)), b.header, ok);
  }

  lemma GrownTransitive(s: Core, t: Core, u: Core)
    requires Grown(s, t) && Grown(t, u)
    ensures Grown(s, u)
  {
  }

  // Synchronisation beside the handlers. A full node synchronises when it starts, with nothing
  // pending; an archive node does so while its handlers run, so that stores and executions of
  // the two interleave.

  datatype Event =
    | Handle(step: Step)
    | Startup(steps: seq<SyncStep>)
    | SyncStore(blocks: seq<Block>)
    | SyncExecute(number: BlockNumber, valid: bool, executes: bool)

  function OnEvent(cfg: Config, nd: Node, e: Event): Node {
    match e
    case Handle(step) => Next(cfg, nd, step)
    case Startup(steps) => Started(SyncSession(cfg, nd.core, steps))
    case SyncStore(bs) =>
      if bs == [] then nd else nd.(core := nd.core.(store := BatchStore(nd.core.store, bs)))
    case SyncExecute(n, valid, executes) =>
      if n !in nd.core.store.headers then nd
      else nd.(core := SyncExecuteOne(cfg, nd.core, n, valid, executes).core)
  }

  ghost predicate Numeric(e: Event) {
    match e
    case Handle(step) => Numbered(step)
    case SyncExecute(n, _, _) => n >= 1
    case _ => true
  }

  function RunEvents(cfg: Config, nd: Node, es: seq<Event>): Node
    decreases |es|
  {
    if es == [] then nd else OnEvent(cfg, RunEvents(cfg, nd, es[..|es| - 1]), es[|es| - 1])
  }

  /** Flags keep their values, and new ones are not set. */
  ghost predicate FlagsKept(e: map<(Address, BlockNumber), bool>, e': map<(Address, BlockNumber), bool>) {
    forall k :: (k in e ==> k in e') && (k in e' && e'[k] <==> k in e && e[k])
  }

  lemma {:induction false} BatchFlags(hs: map<BlockNumber, Header>, e: map<(Address, BlockNumber), bool>,
                                      bs: seq<Block>)
    requires RowsPair(hs, e)
    ensures RowsPair(InsertHeaders(hs, bs), InsertFlags(e, bs)) && FlagsKept(e, InsertFlags(e, bs))
    decreases |bs|
  {
    if bs != [] {
      var hs', e' := InsertHeader(hs, bs[0].header), InsertFlag(e, bs[0].header);
      assert RowsPair(hs', e') && FlagsKept(e, e');
      BatchFlags(hs', e', bs[1..]);
    }
  }

  lemma SyncStoreOnce(s: Core, bs: seq<Block>)
    requires bs != [] && Once(s) && Flagged(s.store)
    ensures OnceSince(s, s.(store := BatchStore(s.store, bs)))
  {
    hide InsertFlat, Flatten, InsertHeaders, InsertFlags, BatchOk;
    var e, e' := s.store.executed, InsertFlags(s.store.executed, bs);
    BatchFlags(s.store.headers, e, bs);
    FlagsPair(s.store.headers, e, e');
    forall c: Address, n: BlockNumber
      ensures IsExecuted(BatchStore(s.store, bs), n, c) <==> IsExecuted(s.store, n, c)
    {
      assert (c, n) in e' && e'[(c, n)] <==> (c, n) in e && e[(c, n)];
    }
  }

  lemma FlagsPair(hs: map<BlockNumber, Header>, e: map<(Address, BlockNumber), bool>,
                  e': map<(Address, BlockNumber), bool>)
    requires RowsPair(hs, e) && FlagsKept(e, e')
    ensures RowsPair(hs, e')
  {
  }

  lemma SyncExecuteOnce(cfg: Config, s: Core, n: BlockNumber, valid: bool, executes: bool)
    requires n >= 1 && n in s.store.headers && Once(s) && Flagged(s.store)
    ensures OnceSince(s, SyncExecuteOne(cfg, s, n, valid, executes).core)
  {
    hide Execute;
    OnceReflexive(s);
    ExecuteOnce(s, RowHeader(s.store.headers[n]), executes);
  }

  lemma OnceReflexive(s: Core)
    requires Once(s) && Flagged(s.store)
    ensures OnceSince(s, s)
  {
  }

  lemma OnceTransitive(s: Core, t: Core, u: Core)
    requires OnceSince(s, t) && OnceSince(t, u)
    ensures OnceSince(s, u)
  {
    hide Once, Flagged;
    GrownTransitive(s, t, u);
  }

  lemma OnceParts(s: Core, t: Core)
    requires OnceSince(s, t)
    ensures Once(t) && Flagged(t.store)
  {
  }

  lemma SyncNextOnce(cfg: Config, p: Progress, step: SyncStep)
    requires Once(p.core) && Flagged(p.core.store) && (p.next.Some? ==> p.next.value >= 1)
    ensures var q := SyncNext(cfg, p, step); OnceSince(p.core, q.core) && (q.next.Some? ==> q.next.value >= 1)
  {
    hide Once, Flagged, OnceSince, BatchStore, SyncExecuteOne;
    OnceReflexive(p.core);
    match step
    case StoreBatch(bs) =>
      if bs != [] {
        SyncStoreOnce(p.core, SortBlocks(bs));
      }
    case ExecuteNext(valid, executes) =>
      if p.next.Some? && p.next.value in p.core.store.headers {
        SyncExecuteOnce(cfg, p.core, p.next.value, valid, executes);
      }
  }

  lemma {:induction false} SyncRunOnce(cfg: Config, p: Progress, steps: seq<SyncStep>)
    requires Once(p.core) && Flagged(p.core.store) && (p.next.Some? ==> p.next.value >= 1)
    ensures OnceSince(p.core, SyncRun(cfg, p, steps).core)
    decreases |steps|
  {
    hide Once, Flagged, OnceSince, SyncNext;
    OnceReflexive(p.core);
    if steps != [] {
      var q := SyncNext(cfg, p, steps[0]);
      SyncNextOnce(cfg, p, steps[0]);
      OnceParts(p.core, q.core);
      SyncRunOnce(cfg, q, steps[1..]);
      OnceTransitive(p.core, q.core, SyncRun(cfg, q, steps[1..]).core);
    }
  }

  lemma EventOnce(cfg: Config, nd: Node, e: Event)
    requires Numeric(e) && Filed(nd.pending) && Once(nd.core) && Flagged(nd.core.store)
    ensures var t := OnEvent(cfg, nd, e); OnceSince(nd.core, t.core) && Filed(t.pending)
  {
    hide Next, BatchStore, SyncExecuteOne, Once, Flagged, OnceSince;
    OnceReflexive(nd.core);
    match e
    case Handle(step) =>
      HandleOnce(cfg, nd, step);
    case Startup(steps) =>
      SyncRunOnce(cfg, Progress(nd.core, SyncStart(nd.core.store, cfg.cluster)), steps);
    case SyncStore(bs) =>
      if bs != [] {
        SyncStoreOnce(nd.core, bs);
      }
    case SyncExecute(n, valid, executes) =>
      if n in nd.core.store.headers {
        SyncExecuteOnce(cfg, nd.core, n, valid, executes);
      }
  }

  lemma HandleOnce(cfg: Config, nd: Node, step: Step)
    requires Numbered(step) && Filed(nd.pending) && Once(nd.core) && Flagged(nd.core.store)
    ensures var t := Next(cfg, nd, step); OnceSince(nd.core, t.core) && Filed(t.pending)
  {
    hide Next;
    var inv: Core -> bool := t => OnceSince(nd.core, t);
    forall s: Core, b: Block, ok: bool | inv(s) ensures inv(Accept(s, b, ok).core) {
      AcceptOnce(s, b, ok);
      GrownTransitive(nd.core, s, Accept(s, b, ok).core);
    }
    StepKeeps(cfg, nd, step, false, inv);
  }

  /**
   * In every interleaving of the five handlers with block synchronisation, no block is
   * executed twice, the flags record exactly what was executed, and none is ever reset.
   */
  lemma {:induction false} ExecutedAtMostOnce(cfg: Config, nd: Node, es: seq<Event>)
    requires Filed(nd.pending) && Once(nd.core) && Flagged(nd.core.store)
    requires forall i :: 0 <= i < |es| ==> Numeric(es[i])
    ensures var t := RunEvents(cfg, nd, es); OnceSince(nd.core, t.core) && Filed(t.pending)
    decreases |es|
  {
    hide OnEvent, Filed, Once, Flagged, OnceSince;
    OnceReflexive(nd.core);
    if es != [] {
      var before := RunEvents(cfg, nd, es[..|es| - 1]);
      ExecutedAtMostOnce(cfg, nd, es[..|es| - 1]);
      OnceParts(nd.core, before.core);
      EventOnce(cfg, before, es[|es| - 1]);
      OnceTransitive(nd.core, before.core, OnEvent(cfg, before, es[|es| - 1]).core);
    }
  }

  lemma GenesisOnce(c: Address)
    ensures Filed(Genesis(c).pending) && Once(Genesis(c).core) && Flagged(Genesis(c).core.store)
  {
  }
}
