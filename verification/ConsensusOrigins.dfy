/**
 * Where everything in a node comes from: what its votes say, and that over every run its
 * pending blocks, votes and vote results, what it signs, publishes and relays, and what it
 * executes go back to messages of that run which the handlers' own checks let through.
 */
module ConsensusOrigins {
  import opened Primitives
  import opened ChainStore
  import opened Consensus
  import opened ConsensusSafety
  import opened ConsensusChain
  import opened ConsensusPass
  import opened ConsensusVotes
  import opened VoteQuorum

  // ------------------------------------------------------------- the vote itself

  /** An aye for the block, under the node's own address and key. */
  predicate Approves(cfg: Config, v: Vote, h: Header) {
    && v.aye && v.number == h.number && v.hash == h.hash && v.epoch == h.epoch && v.cluster == cfg.cluster
    && v.validator == cfg.address && v.key == cfg.key
  }

  /** Every check before the vote is in order. */
  predicate InOrderFor(cfg: Config, st: Store, b: Block, a: Answers) {
    && a.belowMaxHeight && a.proposalOk && a.validatorsKnown
    && b.header.kind != SystemBlock && HeaderOk(st, cfg.cluster, b)
  }

  /**
   * An attempt signs a vote exactly when the node is a validator and not the proposer, the
   * block is in order, and the entry has no vote with the own key; the vote is an aye for
   * that block, and it is filed and sent.
   */
  lemma SignsIff(cfg: Config, nd: Node, n: BlockNumber, a: Answers)
    requires n in nd.pending
    ensures var p, t := nd.pending[n], TryOne(cfg, nd, n, a).node;
            var signs := && p.block.Some? && InOrderFor(cfg, nd.core.store, p.block.value.block, a)
                         && a.isValidator && !a.isProposer && FirstVote(p.votes, cfg.key).None?;
            && (!signs ==> t.created == nd.created && t.pending == nd.pending)
            && (signs ==> exists v :: && Approves(cfg, v, p.block.value.block.header)
                                      && t.created == nd.created + [v] && t.sent == nd.sent + [v]
                                      && t.pending == nd.pending[n := p.(votes := p.votes + [v])])
  {
    hide Accept, HeaderOk, Carried, StartsEpoch;
    var p := nd.pending[n];
    if p.block.Some? {
      var h := p.block.value.block.header;
      assert Approves(cfg, OwnVote(cfg, h), h);
    }
  }

  /** A validator's node about to try the block of a header that it has not voted on. */
  datatype Voter = Voter(cfg: Config, node: Node, answers: Answers)

  ghost predicate VotesOn(u: Voter, h: Header) {
    && h.number in u.node.pending && u.node.pending[h.number].block.Some?
    && u.node.pending[h.number].block.value.block.header == h
    && InOrderFor(u.cfg, u.node.core.store, u.node.pending[h.number].block.value.block, u.answers)
    && u.answers.isValidator && !u.answers.isProposer && FirstVote(u.node.pending[h.number].votes, u.cfg.key).None?
  }

  /** What the attempt sends. */
  function SentOn(u: Voter, h: Header): seq<Vote> {
    if h.number !in u.node.pending then [] else
    var sent := TryOne(u.cfg, u.node, h.number, u.answers).node.sent;
    if |u.node.sent| <= |sent| then sent[|u.node.sent|..] else []
  }

  lemma SendsOne(u: Voter, h: Header) returns (v: Vote)
    requires VotesOn(u, h)
    ensures SentOn(u, h) == [v] && Approves(u.cfg, v, h)
  {
    hide TryOne;
    SignsIff(u.cfg, u.node, h.number, u.answers);
    var t := TryOne(u.cfg, u.node, h.number, u.answers).node;
    v :| Approves(u.cfg, v, h) && t.sent == u.node.sent + [v];
    assert (u.node.sent + [v])[|u.node.sent|..] == [v];
  }

  /** The votes that the nodes of a staked table so send for one header pass its count. */
  lemma ValidatorsCarry(t: Table, h: Header, voters: map<Address, Voter>, votes: seq<Vote>)
    requires voters.Keys == t.validators && Staked(t.validators, t.stakeOf) && CountableIn(t)
    requires forall a :: a in voters ==> voters[a].cfg.address == a && VotesOn(voters[a], h)
    requires OneEach(votes) && Voters(votes) == t.validators
    requires forall v :: v in votes && v.validator in voters ==> v in SentOn(voters[v.validator], h)
    ensures PassesIn(votes, t) && forall v :: v in votes ==> v.number == h.number && v.hash == h.hash
  {
    hide SentOn, VotesOn, Staked, Countable, Passes;
    forall v | v in votes ensures v.aye && v.number == h.number && v.hash == h.hash {
      assert v.validator in Voters(votes);
      var w := SendsOne(voters[v.validator], h);
    }
    VotersCount(votes);
    NeededFits(t);
    AyesPass(votes, t.validators, Needed(t), t.stakeOf);
  }

  lemma NeededFits(t: Table)
    ensures Needed(t) <= |t.validators|
  {
  }

  // ------------------------------------------------------------------- origins

  /** The step brings the block and its sender is the proposer. */
  predicate Brings(step: Step, p: Payload) {
    (step.ReceiveValidateBlock? || step.AddAndBroadcast?) && step.payload == p && step.authorised
  }

  ghost predicate Brought(steps: seq<Step>, p: Payload) { exists i :: 0 <= i < |steps| && Brings(steps[i], p) }

  /** The vote arrived while this node was the proposer. */
  predicate Hears(cfg: Config, step: Step, v: Vote) {
    step.ReceiveVote? && step.vote == v && step.asProposer && cfg.addressOf(cfg.key).Some?
  }

  ghost predicate Heard(cfg: Config, steps: seq<Step>, v: Vote) {
    exists i :: 0 <= i < |steps| && Hears(cfg, steps[i], v)
  }

  /** The vote is the node's own aye for a block that was brought. */
  ghost predicate OwnAye(cfg: Config, steps: seq<Step>, v: Vote) {
    exists p :: Brought(steps, p) && Approves(cfg, v, p.block.header)
  }

  ghost predicate Known(cfg: Config, steps: seq<Step>, v: Vote) { Heard(cfg, steps, v) || OwnAye(cfg, steps, v) }

  /**
   * The result states, under the own key and its address, that the counted votes pass, for
   * the block of the first of the votes that were counted; the last of them just arrived.
   */
  ghost predicate Counts(cfg: Config, step: Step, votes: seq<Vote>, r: VoteResult) {
    && step.ReceiveVote? && step.asProposer && step.validatorsKnown && votes != [] && step.tally(votes) == Some(r.votes)
    && votes[|votes| - 1] == step.vote
    && r.number == votes[0].number && r.hash == votes[0].hash && r.cluster == votes[0].cluster
    && r.passed && r.key == cfg.key && cfg.addressOf(cfg.key) == Some(r.validator)
  }

  ghost predicate Generated(cfg: Config, steps: seq<Step>, r: VoteResult) {
    exists i, votes :: 0 <= i < |steps| && Counts(cfg, steps[i], votes, r) && AllKnown(cfg, steps, votes)
  }

  ghost predicate AllKnown(cfg: Config, steps: seq<Step>, votes: seq<Vote>) {
    forall v :: v in votes ==> Known(cfg, steps, v)
  }

  ghost predicate Delivered(steps: seq<Step>, r: VoteResult) {
    exists i :: 0 <= i < |steps| && steps[i].ReceiveVoteResult? && steps[i].result == r
  }

  ghost predicate Obtained(cfg: Config, steps: seq<Step>, r: VoteResult) {
    Delivered(steps, r) || Generated(cfg, steps, r)
  }

  /** The block arrived as finalised, and its own checks are in order. */
  ghost predicate Receives(cfg: Config, step: Step, h: Header) {
    && step.ReceiveBlock? && step.payload.block.header == h && step.valid && step.executes
    && cfg.addressOf(step.payload.key) == Some(step.payload.sender)
    && (step.evidence.Some? ==> ResultValid(step.evidence.value, step.payload.block, step.resultOk))
  }

  /** A pass was told that the block is in order, that `r` is valid for it and passes, and that it executes. */
  predicate Told(ask: Oracle, p: Payload, r: VoteResult) {
    var a := ask(p.block.header.number);
    && a.belowMaxHeight && a.proposalOk && a.validatorsKnown && a.executes && p.block.header.kind != SystemBlock
    && ResultValid(r, p.block, a.resultOk) && a.passes(r) == Some(true)
  }

  ghost predicate Finalised(cfg: Config, steps: seq<Step>, h: Header) {
    exists i, p: Payload, r :: && 0 <= i < |steps| && !steps[i].AddAndBroadcast? && p.block.header == h
                      && Told(steps[i].ask, p, r) && Brought(steps, p) && Obtained(cfg, steps, r)
  }

  ghost predicate Justified(cfg: Config, steps: seq<Step>, h: Header) {
    Finalised(cfg, steps, h) || exists i :: 0 <= i < |steps| && Receives(cfg, steps[i], h)
  }

  // ----------------------------------------------------------------- the invariant

  ghost predicate EntryKnown(cfg: Config, steps: seq<Step>, p: Pending) {
    && (p.block.Some? ==> Brought(steps, p.block.value))
    && AllKnown(cfg, steps, p.votes)
    && (forall r :: r in p.results ==> Obtained(cfg, steps, r))
  }

  ghost predicate EntriesKnown(cfg: Config, steps: seq<Step>, m: PendingMap) {
    forall n :: n in m ==> EntryKnown(cfg, steps, m[n])
  }

  ghost predicate OutKnown(cfg: Config, steps: seq<Step>, nd: Node) {
    && AllKnown(cfg, steps, nd.sent)
    && (forall v :: v in nd.created ==> OwnAye(cfg, steps, v))
    && (forall r :: r in nd.published ==> Generated(cfg, steps, r))
    && (forall v :: v in nd.relayed ==> Heard(cfg, steps, v))
  }

  ghost predicate LogKnown(cfg: Config, steps: seq<Step>, old': nat, s: Core) {
    forall i :: old' <= i < |s.log| ==> Justified(cfg, steps, s.log[i])
  }

  /** `old'` headers had been executed before the run. */
  ghost predicate Origins(cfg: Config, steps: seq<Step>, old': nat, nd: Node) {
    && Filed(nd.pending) && ChainOk(nd.core, cfg.cluster) && Tagged(nd.pending)
    && EntriesKnown(cfg, steps, nd.pending) && OutKnown(cfg, steps, nd) && LogKnown(cfg, steps, old', nd.core)
  }

  // ------------------------------------------------------------------- more steps

  lemma KnownLater(cfg: Config, steps: seq<Step>, more: seq<Step>, v: Vote)
    requires steps <= more
    ensures Heard(cfg, steps, v) ==> Heard(cfg, more, v)
    ensures OwnAye(cfg, steps, v) ==> OwnAye(cfg, more, v)
  {
    if OwnAye(cfg, steps, v) {
      var p :| Brought(steps, p) && Approves(cfg, v, p.block.header);
      BroughtLater(steps, more, p);
    }
  }

  lemma BroughtLater(steps: seq<Step>, more: seq<Step>, p: Payload)
    requires steps <= more && Brought(steps, p)
    ensures Brought(more, p)
  {
    var i :| 0 <= i < |steps| && Brings(steps[i], p);
    assert Brings(more[i], p);
  }

  lemma AllKnownLater(cfg: Config, steps: seq<Step>, more: seq<Step>, votes: seq<Vote>)
    requires steps <= more && AllKnown(cfg, steps, votes)
    ensures AllKnown(cfg, more, votes)
  {
    hide Heard, OwnAye;
    forall v | v in votes ensures Known(cfg, more, v) {
      KnownLater(cfg, steps, more, v);
    }
  }

  lemma ObtainedLater(cfg: Config, steps: seq<Step>, more: seq<Step>, r: VoteResult)
    requires steps <= more
    ensures Generated(cfg, steps, r) ==> Generated(cfg, more, r)
    ensures Obtained(cfg, steps, r) ==> Obtained(cfg, more, r)
  {
    hide AllKnown, Counts;
    if Generated(cfg, steps, r) {
      var i, votes :| 0 <= i < |steps| && Counts(cfg, steps[i], votes, r) && AllKnown(cfg, steps, votes);
      AllKnownLater(cfg, steps, more, votes);
      assert Counts(cfg, more[i], votes, r);
    }
    if Delivered(steps, r) {
      var i :| 0 <= i < |steps| && steps[i].ReceiveVoteResult? && steps[i].result == r;
      assert more[i] == steps[i];
    }
  }

  lemma JustifiedLater(cfg: Config, steps: seq<Step>, more: seq<Step>, h: Header)
    requires steps <= more && Justified(cfg, steps, h)
    ensures Justified(cfg, more, h)
  {
    hide Brought, Obtained, Told, Receives;
    if Finalised(cfg, steps, h) {
      var i, p: Payload, r :| && 0 <= i < |steps| && !steps[i].AddAndBroadcast? && p.block.header == h
                     && Told(steps[i].ask, p, r) && Brought(steps, p) && Obtained(cfg, steps, r);
      BroughtLater(steps, more, p);
      ObtainedLater(cfg, steps, more, r);
      assert Told(more[i].ask, p, r);
    } else {
      var i :| 0 <= i < |steps| && Receives(cfg, steps[i], h);
      assert Receives(cfg, more[i], h);
    }
  }

  lemma EntriesLater(cfg: Config, steps: seq<Step>, more: seq<Step>, m: PendingMap)
    requires steps <= more && EntriesKnown(cfg, steps, m)
    ensures EntriesKnown(cfg, more, m)
  {
    hide Brought, AllKnown, Obtained;
    forall n | n in m ensures EntryKnown(cfg, more, m[n]) {
      assert EntryKnown(cfg, steps, m[n]);
      if m[n].block.Some? {
        BroughtLater(steps, more, m[n].block.value);
      }
      AllKnownLater(cfg, steps, more, m[n].votes);
      forall r | r in m[n].results ensures Obtained(cfg, more, r) {
        ObtainedLater(cfg, steps, more, r);
      }
    }
  }

  lemma OriginsLater(cfg: Config, steps: seq<Step>, more: seq<Step>, old': nat, nd: Node)
    requires steps <= more && Origins(cfg, steps, old', nd)
    ensures Origins(cfg, more, old', nd)
  {
    hide ChainOk, Filed, EntriesKnown, AllKnown, Heard, OwnAye, Generated, Justified;
    EntriesLater(cfg, steps, more, nd.pending);
    AllKnownLater(cfg, steps, more, nd.sent);
    forall v ensures (v in nd.created ==> OwnAye(cfg, more, v)) && (v in nd.relayed ==> Heard(cfg, more, v)) {
      KnownLater(cfg, steps, more, v);
    }
    forall r | r in nd.published ensures Generated(cfg, more, r) {
      ObtainedLater(cfg, steps, more, r);
    }
    forall i | old' <= i < |nd.core.log| ensures Justified(cfg, more, nd.core.log[i]) {
      JustifiedLater(cfg, steps, more, nd.core.log[i]);
    }
  }

  // ------------------------------------------------------------------ one attempt

  /** What a successful attempt was told, and the one header that it adds to the log. */
  lemma SucceedsOn(cfg: Config, nd: Node, n: BlockNumber, ask: Oracle) returns (r: VoteResult)
    requires n in nd.pending && Filed(nd.pending) && ChainOk(nd.core, cfg.cluster)
    requires !IsExecuted(nd.core.store, n, cfg.cluster) && TryOne(cfg, nd, n, ask(n)).ok
    ensures nd.pending[n].block.Some? && r in nd.pending[n].results && Told(ask, nd.pending[n].block.value, r)
    ensures TryOne(cfg, nd, n, ask(n)).node.core.log == nd.core.log + [nd.pending[n].block.value.block.header]
  {
    hide ChainOk, HeaderOk, Accept, CastVote;
    var p := nd.pending[n];
    FiledAt(nd.pending, n);
    AcceptLogs(nd.core, cfg.cluster, p.block.value.block, ask(n).executes);
    var i :| 0 <= i < |p.results| && FirstVerdict(p.results, ask(n).passes, i);
    r := p.results[i];
    assert ResultValid(p.results[i], p.block.value.block, ask(n).resultOk);
  }

  lemma FailsQuietly(cfg: Config, nd: Node, n: BlockNumber, a: Answers)
    requires n in nd.pending && Filed(nd.pending) && ChainOk(nd.core, cfg.cluster)
    requires !IsExecuted(nd.core.store, n, cfg.cluster) && !TryOne(cfg, nd, n, a).ok
    ensures TryOne(cfg, nd, n, a).node.core.log == nd.core.log
  {
    hide ChainOk, HeaderOk, Accept, CastVote, Carried;
    if nd.pending[n].block.Some? && HeaderOk(nd.core.store, cfg.cluster, nd.pending[n].block.value.block) {
      FiledAt(nd.pending, n);
      AcceptLogs(nd.core, cfg.cluster, nd.pending[n].block.value.block, a.executes);
    }
    if nd.pending[n].block.Some? {
      CastKeeps(cfg, nd, n, nd.pending[n].block.value.block.header);
    }
  }

  /** What an attempt sends is filed in its entry. */
  lemma SendsFiled(cfg: Config, nd: Node, n: BlockNumber, a: Answers)
    requires n in nd.pending
    ensures var t := TryOne(cfg, nd, n, a).node;
            && n in t.pending && (forall v :: v in t.sent ==> v in nd.sent || v in t.pending[n].votes)
            && t.published == nd.published && t.relayed == nd.relayed
  {
    hide Accept, HeaderOk, Carried, StartsEpoch;
    FirstVoteIn(nd.pending[n].votes, cfg.key);
    var found := FirstVote(nd.pending[n].votes, cfg.key);
    if found.Some? {
      OwnInMembers(cfg, [found.value]);
    }
  }

  lemma {:induction false} FirstVoteIn(votes: seq<Vote>, key: Key)
    ensures FirstVote(votes, key).Some? ==> FirstVote(votes, key).value in votes
    decreases |votes|
  {
    if votes != [] {
      FirstVoteIn(votes[1..], key);
    }
  }

  ghost predicate Asks(steps: seq<Step>, ask: Oracle) {
    exists i :: 0 <= i < |steps| && !steps[i].AddAndBroadcast? && steps[i].ask == ask
  }

  lemma LogGrows(cfg: Config, steps: seq<Step>, old': nat, nd: Node, n: BlockNumber, ask: Oracle)
    requires Origins(cfg, steps, old', nd) && Asks(steps, ask)
    requires n in nd.pending && !IsExecuted(nd.core.store, n, cfg.cluster)
    ensures LogKnown(cfg, steps, old', TryOne(cfg, nd, n, ask(n)).node.core)
  {
    hide ChainOk, Filed, TryOne, Told, Brought, Obtained, OutKnown;
    var t := TryOne(cfg, nd, n, ask(n));
    if t.ok {
      var r := SucceedsOn(cfg, nd, n, ask);
      var p := nd.pending[n].block.value;
      assert EntryKnown(cfg, steps, nd.pending[n]);
      var i :| 0 <= i < |steps| && !steps[i].AddAndBroadcast? && steps[i].ask == ask;
      assert Told(steps[i].ask, p, r);
      assert Finalised(cfg, steps, p.block.header);
      hide Finalised;
      assert forall k :: 0 <= k < |nd.core.log| ==> t.node.core.log[k] == nd.core.log[k];
    } else {
      FailsQuietly(cfg, nd, n, ask(n));
    }
  }

  /** Adding one's own aye to the entry of a block that was brought. */
  lemma AyeKnown(cfg: Config, steps: seq<Step>, m: PendingMap, n: BlockNumber, v: Vote)
    requires EntriesKnown(cfg, steps, m) && Tagged(m) && Filed(m) && n in m && m[n].block.Some?
    requires Approves(cfg, v, m[n].block.value.block.header)
    ensures var m' := m[n := m[n].(votes := m[n].votes + [v])];
            EntriesKnown(cfg, steps, m') && Tagged(m') && OwnAye(cfg, steps, v)
  {
    hide Brought, Heard, Obtained;
    assert EntryKnown(cfg, steps, m[n]);
    var m' := m[n := m[n].(votes := m[n].votes + [v])];
    forall k | k in m' ensures EntryKnown(cfg, steps, m'[k]) {
      assert EntryKnown(cfg, steps, m[k]);
    }
  }

  lemma TryOrigins(cfg: Config, steps: seq<Step>, old': nat, nd: Node, n: BlockNumber, ask: Oracle)
    requires Origins(cfg, steps, old', nd) && Asks(steps, ask)
    requires n in nd.pending && !IsExecuted(nd.core.store, n, cfg.cluster)
    ensures Origins(cfg, steps, old', TryOne(cfg, nd, n, ask(n)).node)
  {
    LogGrows(cfg, steps, old', nd, n, ask);
    SignsKnown(cfg, steps, old', nd, n, ask(n));
    hide ChainOk, Filed, TryOne, EntriesKnown, OwnAye, Known, Generated, Heard, LogKnown, Tagged;
    var t := TryOne(cfg, nd, n, ask(n)).node;
    TryOneEffect(cfg, nd, n, ask(n));
    SinceOk(nd.core, t.core, cfg.cluster);
    SendsFiled(cfg, nd, n, ask(n));
    EntryVotesKnown(cfg, steps, t.pending, n);
  }

  lemma SignsKnown(cfg: Config, steps: seq<Step>, old': nat, nd: Node, n: BlockNumber, a: Answers)
    requires Origins(cfg, steps, old', nd) && n in nd.pending
    ensures var t := TryOne(cfg, nd, n, a).node;
            && EntriesKnown(cfg, steps, t.pending) && Tagged(t.pending)
            && forall v :: v in t.created ==> OwnAye(cfg, steps, v)
  {
    SignsIff(cfg, nd, n, a);
    hide ChainOk, Filed, TryOne, EntriesKnown, OwnAye, Approves, InOrderFor, Tagged;
    var t := TryOne(cfg, nd, n, a).node;
    if t.created != nd.created {
      var v :| && Approves(cfg, v, nd.pending[n].block.value.block.header) && t.created == nd.created + [v]
               && t.pending == nd.pending[n := nd.pending[n].(votes := nd.pending[n].votes + [v])];
      AyeKnown(cfg, steps, nd.pending, n, v);
    }
  }

  lemma EntryVotesKnown(cfg: Config, steps: seq<Step>, m: PendingMap, n: BlockNumber)
    requires EntriesKnown(cfg, steps, m) && n in m
    ensures AllKnown(cfg, steps, m[n].votes)
  {
    assert EntryKnown(cfg, steps, m[n]);
  }

  lemma {:induction false} PassOrigins(cfg: Config, steps: seq<Step>, old': nat, nd: Node, ns: seq<BlockNumber>,
                                       ask: Oracle)
    requires Origins(cfg, steps, old', nd) && Asks(steps, ask) && forall i :: 0 <= i < |ns| ==> ns[i] in nd.pending
    ensures Origins(cfg, steps, old', RunPass(cfg, nd, ns, ask).node)
    decreases |ns|
  {
    hide Origins, TryOne, Asks;
    if ns != [] {
      if IsExecuted(nd.core.store, ns[0], cfg.cluster) {
        PassOrigins(cfg, steps, old', nd, ns[1..], ask);
      } else {
        var one := TryOne(cfg, nd, ns[0], ask(ns[0]));
        TryOrigins(cfg, steps, old', nd, ns[0], ask);
        KeepsKeys(cfg, nd, ns[0], ask(ns[0]));
        if one.ok {
          PassOrigins(cfg, steps, old', one.node, ns[1..], ask);
        }
      }
    }
  }

  lemma FewerOrigins(cfg: Config, steps: seq<Step>, old': nat, nd: Node, gone: set<BlockNumber>)
    requires Origins(cfg, steps, old', nd)
    ensures Origins(cfg, steps, old', nd.(pending := nd.pending - gone))
  {
    hide ChainOk, EntryKnown, AllKnown, OwnAye, Generated, Heard, LogKnown;
  }

  lemma FinalizeOrigins(cfg: Config, steps: seq<Step>, old': nat, nd: Node, ask: Oracle)
    requires Origins(cfg, steps, old', nd) && Asks(steps, ask)
    ensures Origins(cfg, steps, old', Finalize(cfg, nd, ask))
  {
    hide Origins, RunPass, Asks;
    var p := RunPass(cfg, nd, Ascending(nd.pending.Keys), ask);
    PassOrigins(cfg, steps, old', nd, Ascending(nd.pending.Keys), ask);
    FewerOrigins(cfg, steps, old', p.node, Elements(p.finalised));
  }

  // ----------------------------------------------------------------- the handlers

  /** Another entry map, and nothing else, that is known as well. */
  lemma PendingOrigins(cfg: Config, steps: seq<Step>, old': nat, nd: Node, m: PendingMap)
    requires Origins(cfg, steps, old', nd) && Filed(m) && Tagged(m) && EntriesKnown(cfg, steps, m)
    ensures Origins(cfg, steps, old', nd.(pending := m))
  {
    hide ChainOk, EntriesKnown, AllKnown, OwnAye, Generated, Heard, LogKnown, Filed, Tagged;
  }

  lemma EntryAt(cfg: Config, steps: seq<Step>, m: PendingMap, n: BlockNumber)
    requires EntriesKnown(cfg, steps, m)
    ensures EntryKnown(cfg, steps, Entry(m, n))
  {
    hide AllKnown, Brought, Obtained;
    assert AllKnown(cfg, steps, []) by {
      NoneKnown(cfg, steps);
    }
  }

  lemma NoneKnown(cfg: Config, steps: seq<Step>)
    ensures AllKnown(cfg, steps, [])
  {
  }

  lemma SetEntry(cfg: Config, steps: seq<Step>, m: PendingMap, n: BlockNumber, p: Pending)
    requires EntriesKnown(cfg, steps, m) && EntryKnown(cfg, steps, p)
    ensures EntriesKnown(cfg, steps, m[n := p])
  {
    hide EntryKnown;
  }

  lemma MoreKnown(cfg: Config, steps: seq<Step>, votes: seq<Vote>, v: Vote)
    requires AllKnown(cfg, steps, votes) && Known(cfg, steps, v)
    ensures AllKnown(cfg, steps, votes + [v])
  {
    hide Known;
  }

  lemma AddVoteOrigins(cfg: Config, steps: seq<Step>, old': nat, nd: Node, v: Vote)
    requires Origins(cfg, steps, old', nd) && Known(cfg, steps, v)
    ensures Origins(cfg, steps, old', nd.(pending := AddVote(nd.pending, v)))
  {
    FiledAddVote(nd.pending, v);
    EntryAt(cfg, steps, nd.pending, v.number);
    hide Known, Brought, Obtained, OutKnown, LogKnown, ChainOk;
    var p := Entry(nd.pending, v.number);
    MoreKnown(cfg, steps, p.votes, v);
    assert EntryKnown(cfg, steps, p.(votes := p.votes + [v]));
    SetEntry(cfg, steps, nd.pending, v.number, p.(votes := p.votes + [v]));
    PendingOrigins(cfg, steps, old', nd, AddVote(nd.pending, v));
  }

  lemma AddResultOrigins(cfg: Config, steps: seq<Step>, old': nat, nd: Node, r: VoteResult)
    requires Origins(cfg, steps, old', nd) && Obtained(cfg, steps, r)
    ensures Origins(cfg, steps, old', nd.(pending := AddResult(nd.pending, r)))
  {
    FiledAddResult(nd.pending, r);
    EntryAt(cfg, steps, nd.pending, r.number);
    hide AllKnown, Brought, Obtained, OutKnown, LogKnown, ChainOk;
    var p := Entry(nd.pending, r.number);
    assert EntryKnown(cfg, steps, p.(results := p.results + [r]));
    SetEntry(cfg, steps, nd.pending, r.number, p.(results := p.results + [r]));
    PendingOrigins(cfg, steps, old', nd, AddResult(nd.pending, r));
  }

  lemma AddBlockOrigins(cfg: Config, steps: seq<Step>, old': nat, nd: Node, p: Payload)
    requires Origins(cfg, steps, old', nd) && Brought(steps, p) && p.block.header.number >= 1
    ensures Origins(cfg, steps, old', nd.(pending := AddBlock(nd.pending, p)))
  {
    FiledAddBlock(nd.pending, p);
    var n := p.block.header.number;
    EntryAt(cfg, steps, nd.pending, n);
    hide AllKnown, Brought, Obtained, OutKnown, LogKnown, ChainOk;
    assert EntryKnown(cfg, steps, Entry(nd.pending, n).(block := Some(p)));
    SetEntry(cfg, steps, nd.pending, n, Entry(nd.pending, n).(block := Some(p)));
    PendingOrigins(cfg, steps, old', nd, AddBlock(nd.pending, p));
  }

  /** The count of an entry that just got its vote. */
  lemma CountOrigins(cfg: Config, steps: seq<Step>, old': nat, nd: Node, i: nat)
    requires i < |steps| && steps[i].ReceiveVote? && Origins(cfg, steps, old', nd)
    requires Files(cfg, nd, steps[i].vote, steps[i].asProposer) && Hears(cfg, steps[i], steps[i].vote)
    ensures var v := steps[i].vote;
            var r := VoteResultOf(cfg, AddVote(nd.pending, v)[v.number].votes, steps[i].tally);
            r.Some? && steps[i].validatorsKnown ==> Generated(cfg, steps, r.value) && r.value.number == v.number
  {
    var step := steps[i];
    assert Known(cfg, steps, step.vote);
    AddVoteOrigins(cfg, steps, old', nd, step.vote);
    hide Known, AllKnown, OutKnown, LogKnown, ChainOk;
    var m := AddVote(nd.pending, step.vote);
    var votes := m[step.vote.number].votes;
    EntryVotesKnown(cfg, steps, m, step.vote.number);
    var r := VoteResultOf(cfg, votes, step.tally);
    if r.Some? && step.validatorsKnown {
      assert Counts(cfg, steps[i], votes, r.value);
      assert votes[0] in votes;
    }
  }

  lemma PublishOrigins(cfg: Config, steps: seq<Step>, old': nat, nd: Node, r: VoteResult, v: Vote)
    requires Origins(cfg, steps, old', nd) && Generated(cfg, steps, r) && Heard(cfg, steps, v)
    requires r.number in nd.pending && forall w :: w in r.votes ==> w in nd.pending[r.number].votes
    ensures Origins(cfg, steps, old', Publish(cfg, nd, r, v))
  {
    OwnInMembers(cfg, r.votes);
    EntryVotesKnown(cfg, steps, nd.pending, r.number);
    hide ChainOk, EntriesKnown, Known, OwnAye, Generated, Heard, LogKnown, Filed, Tagged;
  }

  lemma OnVoteOrigins(cfg: Config, steps: seq<Step>, old': nat, nd: Node, i: nat)
    requires i < |steps| && steps[i].ReceiveVote? && WellFormed(steps[i]) && Origins(cfg, steps, old', nd)
    ensures Origins(cfg, steps, old', Next(cfg, nd, steps[i]))
  {
    var step := steps[i];
    var v := step.vote;
    if Files(cfg, nd, v, step.asProposer) {
      assert Hears(cfg, step, v) && Heard(cfg, steps, v) && Known(cfg, steps, v);
      assert Asks(steps, step.ask);
      CountOrigins(cfg, steps, old', nd, i);
      hide Origins, Heard, Known, Generated, Asks, Finalize, AddResult, Publish, Uniques, FirstOf, Hears;
      var voted := nd.(pending := AddVote(nd.pending, v));
      AddVoteOrigins(cfg, steps, old', nd, v);
      var votes := voted.pending[v.number].votes;
      var r := VoteResultOf(cfg, votes, step.tally);
      if r.Some? && step.validatorsKnown {
        var counted := voted.(pending := AddResult(voted.pending, r.value));
        AddResultOrigins(cfg, steps, old', voted, r.value);
        ResultVotes(voted.pending, r.value);
        UniqueVotesIn(votes, r.value.votes);
        PublishOrigins(cfg, steps, old', counted, r.value, v);
        FinalizeOrigins(cfg, steps, old', Publish(cfg, counted, r.value, v), step.ask);
      }
    }
  }

  lemma UniqueVotesIn(votes: seq<Vote>, unique: seq<Vote>)
    requires Uniques(votes, unique)
    ensures forall v :: v in unique ==> v in votes
  {
    forall v | v in unique ensures v in votes {
      FirstOfIdentity(votes, IdentityOf(v));
    }
  }

  lemma CoreOrigins(cfg: Config, steps: seq<Step>, old': nat, nd: Node, s: Core)
    requires Origins(cfg, steps, old', nd) && ChainOk(s, cfg.cluster) && LogKnown(cfg, steps, old', s)
    ensures Origins(cfg, steps, old', nd.(core := s))
  {
    hide ChainOk, EntriesKnown, AllKnown, OwnAye, Generated, Heard, LogKnown, Filed, Tagged;
  }

  lemma OnBlockOrigins(cfg: Config, steps: seq<Step>, old': nat, nd: Node, i: nat)
    requires i < |steps| && steps[i].ReceiveBlock? && Numbered(steps[i]) && Origins(cfg, steps, old', nd)
    ensures Origins(cfg, steps, old', Next(cfg, nd, steps[i]))
  {
    var step := steps[i];
    var b := step.payload.block;
    assert Asks(steps, step.ask);
    hide ChainOk, HeaderOk, Accept, StoreBlock, Finalize, EntriesKnown, OutKnown, Filed, Tagged, Asks;
    if !IsExecuted(nd.core.store, b.header.number, cfg.cluster) && HeaderOk(nd.core.store, cfg.cluster, b)
       && step.valid && cfg.addressOf(step.payload.key) == Some(step.payload.sender) {
      StoreOnly(nd.core, b);
      forall ok | ok ==> step.executes && (step.evidence.Some? ==> ResultValid(step.evidence.value, b, step.resultOk))
        ensures Origins(cfg, steps, old', nd.(core := Accept(nd.core, b, ok).core))
      {
        AcceptKeepsChain(nd.core, cfg.cluster, b, ok);
        SinceOk(nd.core, Accept(nd.core, b, ok).core, cfg.cluster);
        AcceptLogs(nd.core, cfg.cluster, b, ok);
        ReceivedLog(cfg, steps, old', nd.core, Accept(nd.core, b, ok).core, i, ok);
        CoreOrigins(cfg, steps, old', nd, Accept(nd.core, b, ok).core);
      }
      hide Origins;
      if step.evidence.Some? ==> ResultValid(step.evidence.value, b, step.resultOk) {
        FinalizeOrigins(cfg, steps, old', nd.(core := Accept(nd.core, b, step.executes).core), step.ask);
      }
    }
  }

  lemma ReceivedLog(cfg: Config, steps: seq<Step>, old': nat, s: Core, t: Core, i: nat, ok: bool)
    requires i < |steps| && steps[i].ReceiveBlock? && LogKnown(cfg, steps, old', s)
    requires t.log == if ok then s.log + [steps[i].payload.block.header] else s.log
    requires ok ==> Receives(cfg, steps[i], steps[i].payload.block.header)
    ensures LogKnown(cfg, steps, old', t)
  {
    hide Receives, Finalised;
    forall k | old' <= k < |t.log| ensures Justified(cfg, steps, t.log[k]) {
      if k < |s.log| {
        assert t.log[k] == s.log[k];
      }
    }
  }

  lemma OnProposeOrigins(cfg: Config, steps: seq<Step>, old': nat, nd: Node, i: nat)
    requires i < |steps| && steps[i].AddAndBroadcast? && Numbered(steps[i]) && Origins(cfg, steps, old', nd)
    ensures Origins(cfg, steps, old', Next(cfg, nd, steps[i]))
  {
    var step := steps[i];
    var p := step.payload;
    var n := p.block.header.number;
    hide Origins, Brought, Known, OwnIn, AddVote, AddBlock;
    if step.authorised {
      var v := OwnVote(cfg, p.block.header);
      BringsAye(cfg, steps, i);
      FewerOrigins(cfg, steps, old', nd, {n});
      if n in nd.pending && FirstVote(nd.pending[n].votes, p.key).Some? {
        ResendOrigins(cfg, steps, old', nd, n, p.key);
      }
      AddVoteOrigins(cfg, steps, old', nd, v);
      AddBlockOrigins(cfg, steps, old', nd.(pending := AddVote(nd.pending, v)), p);
    }
  }

  lemma BringsAye(cfg: Config, steps: seq<Step>, i: nat)
    requires i < |steps| && steps[i].AddAndBroadcast? && steps[i].authorised
    ensures Brought(steps, steps[i].payload) && Known(cfg, steps, OwnVote(cfg, steps[i].payload.block.header))
  {
    var p := steps[i].payload;
    assert Brings(steps[i], p);
    assert Approves(cfg, OwnVote(cfg, p.block.header), p.block.header);
  }

  lemma ResendOrigins(cfg: Config, steps: seq<Step>, old': nat, nd: Node, n: BlockNumber, key: Key)
    requires Origins(cfg, steps, old', nd) && n in nd.pending && FirstVote(nd.pending[n].votes, key).Some?
    ensures Origins(cfg, steps, old', nd.(sent := nd.sent + OwnIn(cfg, [FirstVote(nd.pending[n].votes, key).value])))
  {
    FirstVoteIn(nd.pending[n].votes, key);
    OwnInMembers(cfg, [FirstVote(nd.pending[n].votes, key).value]);
    EntryVotesKnown(cfg, steps, nd.pending, n);
    hide ChainOk, EntriesKnown, Known, OwnAye, Generated, Heard, LogKnown, Filed, Tagged;
  }

  lemma StepOrigins(cfg: Config, steps: seq<Step>, old': nat, nd: Node, i: nat)
    requires i < |steps| && WellFormed(steps[i]) && Origins(cfg, steps, old', nd)
    ensures Origins(cfg, steps, old', Next(cfg, nd, steps[i]))
  {
    hide Origins, Finalize, AddBlock, AddResult, OnVote, OnBlock, OnPropose, CountsUnique;
    var step := steps[i];
    match step
    case ReceiveValidateBlock(p, authorised, ask) =>
      if authorised {
        assert Brings(step, p) && Brought(steps, p) && Asks(steps, ask);
        AddBlockOrigins(cfg, steps, old', nd, p);
        FinalizeOrigins(cfg, steps, old', nd.(pending := AddBlock(nd.pending, p)), ask);
      }
    case ReceiveVote(_, _, _, _, _) =>
      OnVoteOrigins(cfg, steps, old', nd, i);
    case ReceiveVoteResult(r, ask) =>
      assert Delivered(steps, r) && Obtained(cfg, steps, r) && Asks(steps, ask);
      AddResultOrigins(cfg, steps, old', nd, r);
      FinalizeOrigins(cfg, steps, old', nd.(pending := AddResult(nd.pending, r)), ask);
    case ReceiveBlock(_, _, _, _, _, _) =>
      OnBlockOrigins(cfg, steps, old', nd, i);
    case AddAndBroadcast(p, authorised) =>
      OnProposeOrigins(cfg, steps, old', nd, i);
  }

  // ------------------------------------------------------------------- whole runs

  lemma StartOrigins(cfg: Config, start: Core, steps: seq<Step>)
    requires ChainOk(start, cfg.cluster)
    ensures Origins(cfg, steps, |start.log|, Started(start))
  {
    hide ChainOk;
  }

  lemma {:induction false} RunOrigins(cfg: Config, start: Core, steps: seq<Step>)
    requires ChainOk(start, cfg.cluster) && AllWellFormed(steps)
    ensures Origins(cfg, steps, |start.log|, Run(cfg, Started(start), steps))
    decreases |steps|
  {
    hide Origins, Next, ChainOk, WellFormed;
    if steps == [] {
      StartOrigins(cfg, start, steps);
    } else {
      var init := steps[..|steps| - 1];
      RunOrigins(cfg, start, init);
      OriginsLater(cfg, init, steps, |start.log|, Run(cfg, Started(start), init));
      StepOrigins(cfg, steps, |start.log|, Run(cfg, Started(start), init), |steps| - 1);
    }
  }

  /**
   * Over every run of a node process: a pending block was brought by an authorised proposal;
   * a vote that is filed or sent was heard while proposing or is the own aye for such a
   * block, and what is signed is the latter; a vote result was delivered, or generated here
   * from such votes; and a block was executed because it arrived as finalised with its
   * checks in order, or because a pass was told that such a result passes for such a block.
   */
  lemma EverythingHasAnOrigin(cfg: Config, start: Core, steps: seq<Step>)
    requires ChainOk(start, cfg.cluster) && AllWellFormed(steps)
    ensures var t := Run(cfg, Started(start), steps);
            && (forall n :: n in t.pending && t.pending[n].block.Some? ==> Brought(steps, t.pending[n].block.value))
            && (forall n, v :: n in t.pending && v in t.pending[n].votes ==> Known(cfg, steps, v))
            && (forall n, r :: n in t.pending && r in t.pending[n].results ==> Obtained(cfg, steps, r))
            && (forall v :: v in t.sent ==> Known(cfg, steps, v))
            && (forall v :: v in t.created ==> OwnAye(cfg, steps, v))
            && (forall r :: r in t.published ==> Generated(cfg, steps, r))
            && (forall v :: v in t.relayed ==> Heard(cfg, steps, v))
            && (forall i :: |start.log| <= i < |t.core.log| ==> Justified(cfg, steps, t.core.log[i]))
  {
    hide ChainOk, AllWellFormed, Run, Brought, Known, Obtained, OwnAye, Generated, Heard, Justified;
    var t := Run(cfg, Started(start), steps);
    RunOrigins(cfg, start, steps);
    forall n | n in t.pending ensures EntryKnown(cfg, steps, t.pending[n]) {
    }
  }

  /** A proposal from anyone but the proposer changes nothing, either way it comes. */
  lemma UnauthorisedChangesNothing(cfg: Config, nd: Node, p: Payload, ask: Oracle)
    ensures Next(cfg, nd, ReceiveValidateBlock(p, false, ask)) == nd == Next(cfg, nd, AddAndBroadcast(p, false))
  {
  }
}
