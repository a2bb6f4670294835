/**
 * Runs that show where the guarantees end: a gap in the executed chain after a failed
 * execution, two different votes for one number after `remove_block`, and after a restart.
 */
module ConsensusExamples {
  import opened Primitives
  import opened ChainStore
  import opened Consensus
  import opened ConsensusSafety
  import opened ConsensusChain
  import opened ConsensusPass
  import opened ConsensusVotes
  import opened Synchronisation
  import ConsensusEvents

  const CLUSTER: Address := 9
  const OWN_KEY: Key := [1]
  const OTHER_KEY: Key := [5]

  function KeyAddress(k: Key): Option<Address> {
    if k == OTHER_KEY then Some(5) else if k == OWN_KEY then Some(7) else None
  }

  const CFG: Config := Config(CLUSTER, 7, OWN_KEY, true, KeyAddress, (n: nat) => 0)

  /** In epoch 1 the other node proposes, in epoch 2 this one does. */
  function EmptyBlock(n: BlockNumber, digest: nat, parent: nat, epoch: Epoch): Block {
    Block(Header(n, Hash(digest), Hash(parent), L1XTokenBlock, CLUSTER, 0, 0, 0, ZERO_HASH, epoch), [])
  }

  /** A validator's view: everything is in order, but no vote result passes yet. */
  const WAITING: Answers :=
    Answers(true, true, true, true, false, (r: VoteResult) => true, (r: VoteResult) => Some(false), true, true)

  const ASK: Oracle := (n: BlockNumber) => WAITING

  function Arrive(b: Block, executes: bool): Step {
    ReceiveBlock(Payload(b, OTHER_KEY, 5), true, None, (r: VoteResult) => true, executes, ASK)
  }

  function Propose(b: Block): Step { ReceiveValidateBlock(Payload(b, OTHER_KEY, 5), true, ASK) }

  const B1 := EmptyBlock(1, 11, 0, 1)
  const B2 := EmptyBlock(2, 22, 11, 1)
  const OWN_B2 := EmptyBlock(2, 33, 11, 2)
  const RIVAL := EmptyBlock(2, 44, 11, 1)

  function Tables(head: nat, executed: map<(Address, BlockNumber), bool>): Store {
    var headers := map[0 := GenesisHeader(CLUSTER), 1 := B1.header];
    if head == 1 then Store(map[CLUSTER := Head(1, Hash(11))], headers, executed, map[])
    else Store(map[CLUSTER := Head(2, Hash(22))], headers[2 := B2.header], executed, map[])
  }

  lemma RunSnoc(cfg: Config, nd: Node, steps: seq<Step>, step: Step)
    ensures Run(cfg, nd, steps + [step]) == Next(cfg, Run(cfg, nd, steps), step)
  {
    assert (steps + [step])[..|steps|] == steps;
  }

  lemma AscendingOne(s: set<BlockNumber>, n: BlockNumber)
    requires s == {n}
    ensures Ascending(s) == [n]
  {
    assert s - {n} == {};
  }

  /** A pass over one pending number. */
  lemma FinalizeOne(cfg: Config, nd: Node, n: BlockNumber, ask: Oracle)
    requires nd.pending.Keys == {n}
    ensures IsExecuted(nd.core.store, n, cfg.cluster) ==> Finalize(cfg, nd, ask) == nd.(pending := map[])
    ensures (!IsExecuted(nd.core.store, n, cfg.cluster) && !TryOne(cfg, nd, n, ask(n)).ok)
            ==> Finalize(cfg, nd, ask) == TryOne(cfg, nd, n, ask(n)).node
  {
    hide TryOne;
    AscendingOne(nd.pending.Keys, n);
    assert [n][1..] == [];
    assert RunPass(cfg, nd, [n], ask).finalised
        == if IsExecuted(nd.core.store, n, cfg.cluster) || TryOne(cfg, nd, n, ask(n)).ok then [n] else [];
  }

  lemma FinalizeNone(cfg: Config, nd: Node, ask: Oracle)
    requires nd.pending == map[]
    ensures Finalize(cfg, nd, ask) == nd
  {
    assert nd.pending.Keys == {};
  }

  // ------------------------------------------------------------------------ gap

  const STORED: Node := Started(Core(Tables(1, map[(CLUSTER, 1) := false]), []))

  /** Block 1 arrives, is stored, and fails to execute. */
  lemma Stored()
    ensures Next(CFG, Genesis(CLUSTER), Arrive(B1, false)) == STORED
  {
    var st := GenesisCore(CLUSTER).store;
    assert StoreBlock(st, B1) == Tables(1, map[(CLUSTER, 1) := false]);
  }

  /**
   * Block 2 goes on top of it all the same: block 1 is below the head, and no message,
   * restart or synchronisation ever executes it.
   */
  lemma GapAfterFailure(es: seq<Event>)
    requires var nd := Run(CFG, Genesis(CLUSTER), [Arrive(B1, false), Arrive(B2, true)]);
             ConsensusEvents.RuledRun(CFG, nd, es)
    ensures var nd := Run(CFG, Genesis(CLUSTER), [Arrive(B1, false), Arrive(B2, true)]);
            && !Gapless(nd.core, CLUSTER) && IsExecuted(nd.core.store, 2, CLUSTER)
            && !IsExecuted(RunEvents(CFG, nd, es).core.store, 1, CLUSTER)
  {
    var nd := Run(CFG, Genesis(CLUSTER), [Arrive(B1, false), Arrive(B2, true)]);
    GapState();
    GenesisChain(CLUSTER);
    hide Run, ConsensusEvents.RuledRun, RunEvents, ChainOk;
    RunChain(CFG, Genesis(CLUSTER), [Arrive(B1, false), Arrive(B2, true)]);
    ConsensusEvents.SkippedForever(CFG, nd, es, 1);
  }

  const SKIPPED: Node :=
    Started(Core(Tables(2, map[(CLUSTER, 1) := false, (CLUSTER, 2) := true]), [B2.header]))

  lemma Skipped()
    ensures Next(CFG, STORED, Arrive(B2, true)) == SKIPPED
  {
    var st := STORED.core.store;
    assert StoreBlock(st, B2) == Tables(2, map[(CLUSTER, 1) := false, (CLUSTER, 2) := false]);
    FinalizeNone(CFG, STORED.(core := Accept(STORED.core, B2, true).core), ASK);
  }

  lemma GapState()
    ensures var nd := Run(CFG, Genesis(CLUSTER), [Arrive(B1, false), Arrive(B2, true)]);
            && HeadNumber(nd.core, CLUSTER) == 2
            && IsExecuted(nd.core.store, 2, CLUSTER) && !IsExecuted(nd.core.store, 1, CLUSTER)
  {
    RunTwo(CFG, Genesis(CLUSTER), Arrive(B1, false), Arrive(B2, true));
    Stored();
    Skipped();
  }

  lemma RunTwo(cfg: Config, nd: Node, s1: Step, s2: Step)
    ensures Run(cfg, nd, [s1, s2]) == Next(cfg, Next(cfg, nd, s1), s2)
  {
    hide Next;
    RunSnoc(cfg, nd, [], s1);
    RunSnoc(cfg, nd, [s1], s2);
    assert [] + [s1] == [s1] && [s1] + [s2] == [s1, s2];
  }

  // ---------------------------------------------------------------- equivocation

  const VOTE_B2: Vote := OwnVote(CFG, B2.header)
  const VOTE_RIVAL: Vote := OwnVote(CFG, RIVAL.header)

  /** A vote on block 1 from elsewhere. */
  const STRAY: Vote := Vote(1, Hash(11), CLUSTER, 2, true, 5, OTHER_KEY)

  function Waiting(b: Block, v: Vote): Pending { Pending([v], [], Some(Payload(b, OTHER_KEY, 5))) }

  const VOTED: Node := STORED.(pending := map[2 := Waiting(B2, VOTE_B2)], sent := [VOTE_B2], created := [VOTE_B2])

  /** Block 2 is proposed on the stored block 1, and the node votes for it. */
  lemma Voted()
    ensures Next(CFG, STORED, Propose(B2)) == VOTED
  {
    var nd := STORED.(pending := AddBlock(STORED.pending, Payload(B2, OTHER_KEY, 5)));
    assert nd.pending == map[2 := Pending([], [], Some(Payload(B2, OTHER_KEY, 5)))];
    assert [] + [VOTE_B2] == [VOTE_B2];
    assert TryOne(CFG, nd, 2, WAITING).node.pending == VOTED.pending;
    FinalizeOne(CFG, nd, 2, ASK);
  }

  const STRAYED: Node := VOTED.(pending := VOTED.pending[1 := Pending([STRAY], [], None)])

  /** A vote on block 1 makes the predecessor of block 2 pending. */
  lemma Strayed()
    ensures Next(CFG, VOTED, ReceiveVote(STRAY, true, false, (vs: seq<Vote>) => None, ASK)) == STRAYED
  {
    assert [] + [STRAY] == [STRAY];
  }

  const DROPPED: Node := STRAYED.(pending := map[1 := Pending([STRAY], [], None)])

  /** The node proposes its own block 2; the pending one conflicts and is dropped, vote and all. */
  lemma Dropped()
    ensures Next(CFG, STRAYED, AddAndBroadcast(Payload(OWN_B2, OWN_KEY, 7), true)) == DROPPED
  {
    assert STRAYED.pending - {2} == map[1 := Pending([STRAY], [], None)];
  }

  const CAUGHT_UP: Node := DROPPED.(core := Core(Tables(1, map[(CLUSTER, 1) := true]), [B1.header]), pending := map[])

  /** Block 1 arrives again and executes, which settles its entry. */
  lemma CaughtUp()
    ensures Next(CFG, DROPPED, Arrive(B1, true)) == CAUGHT_UP
  {
    var st := DROPPED.core.store;
    assert StoreBlock(st, B1) == st;
    FinalizeOne(CFG, DROPPED.(core := Accept(DROPPED.core, B1, true).core), 1, ASK);
  }

  /** The rival block 2 is proposed, and the node votes for it as well. */
  lemma VotedAgain()
    ensures Next(CFG, CAUGHT_UP, Propose(RIVAL)).sent == [VOTE_B2, VOTE_RIVAL]
  {
    var nd := CAUGHT_UP.(pending := AddBlock(CAUGHT_UP.pending, Payload(RIVAL, OTHER_KEY, 5)));
    assert nd.pending == map[2 := Pending([], [], Some(Payload(RIVAL, OTHER_KEY, 5)))];
    FinalizeOne(CFG, nd, 2, ASK);
  }

  /** Without the condition on dropping, a run can broadcast two different votes for one number. */
  lemma EquivocationAfterRemove() returns (steps: seq<Step>)
    ensures AllWellFormed(steps) && !OneVoice(Run(CFG, Genesis(CLUSTER), steps).sent)
  {
    hide Next;
    var s1, s2 := Arrive(B1, false), Propose(B2);
    var s3 := ReceiveVote(STRAY, true, false, (vs: seq<Vote>) => None, ASK);
    var s4 := AddAndBroadcast(Payload(OWN_B2, OWN_KEY, 7), true);
    var s5, s6 := Arrive(B1, true), Propose(RIVAL);
    var g := Genesis(CLUSTER);
    RunTwo(CFG, g, s1, s2);
    RunSnoc(CFG, g, [s1, s2], s3);
    RunSnoc(CFG, g, [s1, s2] + [s3], s4);
    RunSnoc(CFG, g, [s1, s2] + [s3] + [s4], s5);
    RunSnoc(CFG, g, [s1, s2] + [s3] + [s4] + [s5], s6);
    Stored();
    Voted();
    Strayed();
    Dropped();
    CaughtUp();
    VotedAgain();
    steps := [s1, s2] + [s3] + [s4] + [s5] + [s6];
    var sent := Run(CFG, g, steps).sent;
    assert sent[0] in sent && sent[1] in sent;
  }

  // ------------------------------------------------------------------- restart

  /** What is pending is not stored: a node that voted for one block votes for another after a restart. */
  lemma RestartForgetsVote(cfg: Config, s: Core, p: Payload, q: Payload)
    requires HeaderOk(s.store, cfg.cluster, p.block) && HeaderOk(s.store, cfg.cluster, q.block)
    requires p.block.header.kind != SystemBlock && q.block.header.kind != SystemBlock
    requires p.block.header.number == q.block.header.number && p.block.header.hash != q.block.header.hash
    requires !IsExecuted(s.store, p.block.header.number, cfg.cluster)
    ensures var t := Next(cfg, Started(s), ReceiveValidateBlock(p, true, ASK));
            var u := Next(cfg, Started(t.core), ReceiveValidateBlock(q, true, ASK));
            !OneVoice(t.sent + u.sent)
  {
    FirstVoteOut(cfg, s, p);
    FirstVoteOut(cfg, s, q);
    hide Next;
    var v, w := OwnVote(cfg, p.block.header), OwnVote(cfg, q.block.header);
    assert v in [v] + [w] && w in [v] + [w];
  }

  lemma FirstVoteOut(cfg: Config, s: Core, p: Payload)
    requires HeaderOk(s.store, cfg.cluster, p.block) && p.block.header.kind != SystemBlock
    requires !IsExecuted(s.store, p.block.header.number, cfg.cluster)
    ensures var t := Next(cfg, Started(s), ReceiveValidateBlock(p, true, ASK));
            t.core == s && t.sent == [OwnVote(cfg, p.block.header)]
  {
    var n := p.block.header.number;
    var nd := Started(s).(pending := AddBlock(map[], p));
    assert nd.pending == map[n := Pending([], [], Some(p))];
    assert !Carried([], p.block, WAITING);
    FinalizeOne(cfg, nd, n, ASK);
  }

  // ------------------------------------------------------------ received blocks

  /** A received block is executed on the checks of its header and evidence: no count of votes is asked for. */
  lemma ReceivedExecutesIff(cfg: Config, nd: Node, step: Step)
    requires Filed(nd.pending) && ChainOk(nd.core, cfg.cluster) && step.ReceiveBlock? && Numbered(step)
    requires !IsExecuted(nd.core.store, step.payload.block.header.number, cfg.cluster)
    ensures var b := step.payload.block;
            IsExecuted(Next(cfg, nd, step).core.store, b.header.number, cfg.cluster)
            <==> (&& step.valid && cfg.addressOf(step.payload.key) == Some(step.payload.sender)
                  && HeaderOk(nd.core.store, cfg.cluster, b) && step.executes
                  && (step.evidence.Some? ==> ResultValid(step.evidence.value, b, step.resultOk)))
  {
    hide ChainOk, HeaderOk, Accept, Finalize, StoreBlock;
    var b := step.payload.block;
    if HeaderOk(nd.core.store, cfg.cluster, b) {
      AcceptKeepsChain(nd.core, cfg.cluster, b, step.executes);
      AcceptLogs(nd.core, cfg.cluster, b, step.executes);
      var done := Accept(nd.core, b, step.executes);
      SinceOk(nd.core, done.core, cfg.cluster);
      StoreKeepsLinksOf(nd.core, cfg.cluster, b);
      FinalizeGrows(cfg, nd.(core := done.core), step.ask);
    }
  }

  lemma StoreKeepsLinksOf(s: Core, c: Address, b: Block)
    requires ChainOk(s, c) && b.header.number >= 1 && HeaderOk(s.store, c, b)
    ensures forall n: BlockNumber :: IsExecuted(StoreBlock(s.store, b), n, c) <==> IsExecuted(s.store, n, c)
  {
    StoreKeepsLinks(s.store, c, b);
  }

  lemma FinalizeGrows(cfg: Config, nd: Node, ask: Oracle)
    requires Filed(nd.pending) && ChainOk(nd.core, cfg.cluster)
    ensures Grown(nd.core, Finalize(cfg, nd, ask).core)
  {
    hide RunPass, ChainOk, Grown;
    PassEffect(cfg, nd, Ascending(nd.pending.Keys), ask);
  }

  const OTHER_B1 := EmptyBlock(1, 12, 0, 2)

  /** Two nodes at genesis, no vote anywhere: each executes the block 1 that it receives. */
  lemma ReceivedBlocksDiffer()
    ensures var t := Next(CFG, Genesis(CLUSTER), Arrive(B1, true));
            var u := Next(CFG, Genesis(CLUSTER), Arrive(OTHER_B1, true));
            && IsExecuted(t.core.store, 1, CLUSTER) && IsExecuted(u.core.store, 1, CLUSTER)
            && B1.header.hash != OTHER_B1.header.hash && t.published == u.published == []
  {
    GenesisChain(CLUSTER);
    ReceivedExecutesIff(CFG, Genesis(CLUSTER), Arrive(B1, true));
    ReceivedExecutesIff(CFG, Genesis(CLUSTER), Arrive(OTHER_B1, true));
    FinalizeNone(CFG, Genesis(CLUSTER).(core := Accept(GenesisCore(CLUSTER), B1, true).core), ASK);
    FinalizeNone(CFG, Genesis(CLUSTER).(core := Accept(GenesisCore(CLUSTER), OTHER_B1, true).core), ASK);
  }

  /** A batch with block 1 alone, after blocks 1 and 2: the head row goes back to 1, below an executed block 2. */
  lemma BatchDragsHeadBack()
    ensures var t := BatchStore(SKIPPED.core.store, SortBlocks([B1]));
            && ChainState(t, CLUSTER) == Head(1, Hash(11)) && 2 in t.headers && IsExecuted(t, 2, CLUSTER)
            && !Linked(t, CLUSTER)
  {
    Stored();
    Skipped();
    GenesisChain(CLUSTER);
    RunTwo(CFG, Genesis(CLUSTER), Arrive(B1, false), Arrive(B2, true));
    RunChain(CFG, Genesis(CLUSTER), [Arrive(B1, false), Arrive(B2, true)]);
    assert [B1][1..] == [];
    assert SortBlocks([B1]) == [B1];
    hide Linked;
    ConsensusEvents.HeadGoesBack(SKIPPED.core.store, CLUSTER, [B1]);
    SyncStoreOnce(SKIPPED.core, [B1]);
  }
}
