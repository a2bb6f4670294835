/**
 * Own votes over the life of a node process: all own votes that leave it for one block
 * number, by themselves or inside vote results, are the same vote, and its finalise path
 * signs at most one a number. Two kinds of step endanger that, exactly: `remove_block` on
 * an entry whose vote is out, and a received vote under the node's own name that differs
 * from the one that is out.
 */
module ConsensusVotes {
  import opened Primitives
  import opened ChainStore
  import opened Consensus
  import opened ConsensusSafety
  import opened ConsensusChain
  import opened ConsensusPass
  import opened VoteQuorum

  // ------------------------------------------------------------- the node's own votes

  function OwnId(cfg: Config): Identity { (cfg.address, cfg.key[..Min(KEY_PREFIX, |cfg.key|)]) }

  function FirstOwn(cfg: Config, votes: seq<Vote>): Option<Vote>
    decreases |votes|
  {
    if votes == [] then None else if IsOwn(cfg, votes[0]) then Some(votes[0]) else FirstOwn(cfg, votes[1..])
  }

  /** The own vote that a count of these votes includes: the first under the own identity, if it is an own one. */
  function Voice(cfg: Config, votes: seq<Vote>): Option<Vote> {
    var first := FirstOf(votes, OwnId(cfg));
    if first.Some? && IsOwn(cfg, first.value) then first else None
  }

  lemma {:induction false} FirstOwnAppend(cfg: Config, votes: seq<Vote>, more: seq<Vote>)
    ensures FirstOwn(cfg, votes + more)
         == if FirstOwn(cfg, votes).Some? then FirstOwn(cfg, votes) else FirstOwn(cfg, more)
    decreases |votes|
  {
    if votes == [] {
      assert votes + more == more;
    } else {
      assert (votes + more)[1..] == votes[1..] + more;
      FirstOwnAppend(cfg, votes[1..], more);
    }
  }

  lemma {:induction false} FirstOwnMember(cfg: Config, votes: seq<Vote>)
    ensures FirstOwn(cfg, votes).Some? ==> FirstOwn(cfg, votes).value in votes && IsOwn(cfg, FirstOwn(cfg, votes).value)
    ensures FirstOwn(cfg, votes).Some? ==> FirstOf(votes, OwnId(cfg)).Some?
    decreases |votes|
  {
    if votes != [] {
      FirstOwnMember(cfg, votes[1..]);
    }
  }

  /** What a count includes, and what the finalise path finds by key, is the first own vote or none. */
  lemma {:induction false} OwnVotesAgree(cfg: Config, votes: seq<Vote>)
    ensures Voice(cfg, votes).Some? ==> FirstOwn(cfg, votes) == Voice(cfg, votes)
    ensures var found := FirstVote(votes, cfg.key);
            && (found.Some? && IsOwn(cfg, found.value) ==> FirstOwn(cfg, votes) == found)
            && (found.None? ==> FirstOwn(cfg, votes).None?)
    decreases |votes|
  {
    if votes != [] {
      OwnVotesAgree(cfg, votes[1..]);
    }
  }

  lemma {:induction false} OwnInMembers(cfg: Config, votes: seq<Vote>)
    ensures forall v :: v in OwnIn(cfg, votes) <==> v in votes && IsOwn(cfg, v)
    decreases |votes|
  {
    if votes != [] {
      OwnInMembers(cfg, votes[1..]);
    }
  }

  lemma OwnInOne(cfg: Config, v: Vote)
    ensures OwnIn(cfg, [v]) == if IsOwn(cfg, v) then [v] else []
  {
    assert [v][1..] == [];
  }

  // ---------------------------------------------------------------- the invariant

  /** Votes are filed under the number they vote on. */
  ghost predicate Tagged(m: PendingMap) {
    forall n, v :: n in m && v in m[n].votes ==> v.number == n
  }

  /** A count of the entry's votes includes no own vote but `v`. */
  ghost predicate Quiet(cfg: Config, m: PendingMap, v: Vote) {
    cfg.multinode && v.number in m ==>
      Voice(cfg, m[v.number].votes).None? || Voice(cfg, m[v.number].votes) == Some(v)
  }

  /** A vote that is out stays the first own vote of its entry until its block is executed. */
  ghost predicate Held(cfg: Config, s: Core, m: PendingMap, v: Vote) {
    && Quiet(cfg, m, v)
    && (IsExecuted(s.store, v.number, cfg.cluster)
        || (v.number in m && FirstOwn(cfg, m[v.number].votes) == Some(v)))
  }

  ghost predicate AllHeld(cfg: Config, s: Core, m: PendingMap, sent: seq<Vote>) {
    forall v :: v in sent ==> Held(cfg, s, m, v)
  }

  /** No two different own votes for one number have left the node. */
  ghost predicate OneVoice(sent: seq<Vote>) {
    forall v, w :: v in sent && w in sent && v.number == w.number ==> v == w
  }

  /** The finalise path never signed two votes for one number, and sent what it signed. */
  ghost predicate SignedOnce(created: seq<Vote>, sent: seq<Vote>) {
    && (forall v :: v in created ==> v in sent)
    && (forall i, j :: 0 <= i < j < |created| ==> created[i].number != created[j].number)
  }

  ghost predicate VotesOk(cfg: Config, nd: Node) {
    && Tagged(nd.pending) && AllHeld(cfg, nd.core, nd.pending, nd.sent)
    && OneVoice(nd.sent) && SignedOnce(nd.created, nd.sent)
  }

  ghost predicate NodeOk(cfg: Config, nd: Node) {
    Filed(nd.pending) && ChainOk(nd.core, cfg.cluster) && VotesOk(cfg, nd)
  }

  // ------------------------------------------------------------- changes that keep it

  /** `m'` is `m` with votes appended to entry `k`. */
  ghost predicate Appends(m: PendingMap, m': PendingMap, k: BlockNumber, more: seq<Vote>) {
    k in m' && m' == m[k := m'[k]] && m'[k].votes == Entry(m, k).votes + more
  }

  lemma HeldAppend(cfg: Config, s: Core, m: PendingMap, m': PendingMap, k: BlockNumber, more: seq<Vote>, v: Vote)
    requires Held(cfg, s, m, v) && Appends(m, m', k, more)
    requires cfg.multinode && v.number == k && FirstOf(Entry(m, k).votes, OwnId(cfg)).None?
             ==> more == [] || (|more| == 1 && (IsOwn(cfg, more[0]) ==> more[0] == v))
    ensures Held(cfg, s, m', v)
  {
    if v.number == k {
      var votes := Entry(m, k).votes;
      FirstOwnAppend(cfg, votes, more);
      FirstOfAppend(votes, more, OwnId(cfg));
      if |more| == 1 {
        assert more[1..] == [];
      }
    }
  }

  lemma AllHeldAppend(cfg: Config, s: Core, m: PendingMap, m': PendingMap, k: BlockNumber, more: seq<Vote>,
                      sent: seq<Vote>)
    requires AllHeld(cfg, s, m, sent) && Appends(m, m', k, more)
    requires cfg.multinode && FirstOf(Entry(m, k).votes, OwnId(cfg)).None?
             ==> || more == []
                 || (|more| == 1
                     && (IsOwn(cfg, more[0]) ==> forall v :: v in sent && v.number == k ==> more[0] == v))
    ensures AllHeld(cfg, s, m', sent)
  {
    hide Held;
    forall v | v in sent ensures Held(cfg, s, m', v) {
      HeldAppend(cfg, s, m, m', k, more, v);
    }
  }

  lemma CoreMoves(cfg: Config, nd: Node, s: Core)
    requires VotesOk(cfg, nd) && Grown(nd.core, s)
    ensures VotesOk(cfg, nd.(core := s))
  {
    forall v | v in nd.sent ensures Held(cfg, s, nd.pending, v) {
      assert Held(cfg, nd.core, nd.pending, v);
    }
  }

  lemma OneVoiceGrows(sent: seq<Vote>, more: seq<Vote>)
    requires OneVoice(sent)
    requires forall v, w :: v in more && w in sent + more && w.number == v.number ==> w == v
    ensures OneVoice(sent + more)
  {
  }

  lemma SignedGrows(created: seq<Vote>, sent: seq<Vote>, v: Vote)
    requires SignedOnce(created, sent) && forall w :: w in sent ==> w.number != v.number
    ensures SignedOnce(created + [v], sent + [v])
  {
    forall i | 0 <= i < |created| ensures created[i].number != v.number {
      assert created[i] in created;
    }
  }

  lemma SignedSent(created: seq<Vote>, sent: seq<Vote>, more: seq<Vote>)
    requires SignedOnce(created, sent)
    ensures SignedOnce(created, sent + more)
  {
  }

  /** Sending again what the entry of an unexecuted number holds, or what a count of it includes. */
  lemma SendOwn(cfg: Config, nd: Node, n: BlockNumber, more: seq<Vote>)
    requires VotesOk(cfg, nd) && n in nd.pending
    requires forall v :: v in more ==> v.number == n
    requires forall v :: v in more ==>
               || (cfg.multinode && Voice(cfg, nd.pending[n].votes) == Some(v))
               || (!IsExecuted(nd.core.store, n, cfg.cluster) && FirstOwn(cfg, nd.pending[n].votes) == Some(v))
    requires more != [] ==> IsExecuted(nd.core.store, n, cfg.cluster) || FirstOwn(cfg, nd.pending[n].votes).Some?
    ensures VotesOk(cfg, nd.(sent := nd.sent + more))
  {
    var votes := nd.pending[n].votes;
    OwnVotesAgree(cfg, votes);
    forall v, w | v in more && w in nd.sent + more && w.number == v.number ensures w == v {
      if w in nd.sent {
        assert Held(cfg, nd.core, nd.pending, w);
      }
    }
    OneVoiceGrows(nd.sent, more);
    SignedSent(nd.created, nd.sent, more);
    forall v | v in nd.sent + more ensures Held(cfg, nd.core, nd.pending, v) {
      if v in nd.sent {
        assert Held(cfg, nd.core, nd.pending, v);
      }
    }
  }

  lemma AppendTagged(m: PendingMap, m': PendingMap, k: BlockNumber, more: seq<Vote>)
    requires Tagged(m) && Appends(m, m', k, more) && forall v :: v in more ==> v.number == k
    ensures Tagged(m')
  {
  }

  /** Appending to an entry, with the votes in order afterwards. */
  lemma AppendVotes(cfg: Config, nd: Node, m': PendingMap, k: BlockNumber, more: seq<Vote>)
    requires VotesOk(cfg, nd) && Appends(nd.pending, m', k, more) && forall v :: v in more ==> v.number == k
    requires cfg.multinode && FirstOf(Entry(nd.pending, k).votes, OwnId(cfg)).None?
             ==> || more == []
                 || (|more| == 1
                     && (IsOwn(cfg, more[0]) ==> forall v :: v in nd.sent && v.number == k ==> more[0] == v))
    ensures VotesOk(cfg, nd.(pending := m'))
  {
    AppendTagged(nd.pending, m', k, more);
    AllHeldAppend(cfg, nd.core, nd.pending, m', k, more, nd.sent);
  }

  // ------------------------------------------------------------------ the pass

  lemma CastVotes(cfg: Config, nd: Node, n: BlockNumber, h: Header)
    requires n in nd.pending && VotesOk(cfg, nd) && h.number == n && !IsExecuted(nd.core.store, n, cfg.cluster)
    ensures VotesOk(cfg, CastVote(cfg, nd, n, h))
  {
    var p := nd.pending[n];
    var found := FirstVote(p.votes, cfg.key);
    OwnVotesAgree(cfg, p.votes);
    if found.Some? {
      OwnInOne(cfg, found.value);
      FirstOwnMember(cfg, p.votes);
      hide VotesOk;
      VotesTagged(cfg, nd, n);
      SendOwn(cfg, nd, n, OwnIn(cfg, [found.value]));
    } else {
      SignFirst(cfg, nd, n, h);
    }
  }

  lemma VotesTagged(cfg: Config, nd: Node, n: BlockNumber)
    requires VotesOk(cfg, nd) && n in nd.pending
    ensures forall v :: v in nd.pending[n].votes ==> v.number == n
  {
  }

  lemma NoneOut(cfg: Config, nd: Node, n: BlockNumber)
    requires VotesOk(cfg, nd) && !IsExecuted(nd.core.store, n, cfg.cluster)
    requires FirstOwn(cfg, Entry(nd.pending, n).votes).None?
    ensures forall v :: v in nd.sent ==> v.number != n
  {
    forall v | v in nd.sent ensures v.number != n {
      assert Held(cfg, nd.core, nd.pending, v);
    }
  }

  lemma SignFirst(cfg: Config, nd: Node, n: BlockNumber, h: Header)
    requires n in nd.pending && VotesOk(cfg, nd) && h.number == n && !IsExecuted(nd.core.store, n, cfg.cluster)
    requires FirstVote(nd.pending[n].votes, cfg.key).None?
    ensures VotesOk(cfg, CastVote(cfg, nd, n, h))
  {
    hide VotesOk;
    var p, v := nd.pending[n], OwnVote(cfg, h);
    OwnVotesAgree(cfg, p.votes);
    NoneOut(cfg, nd, n);
    var m' := nd.pending[n := p.(votes := p.votes + [v])];
    AppendVotes(cfg, nd, m', n, [v]);
    var filed := nd.(pending := m');
    FirstOwnAppend(cfg, p.votes, [v]);
    SendOwn(cfg, filed, n, [v]);
    Sign(cfg, nd, filed.(sent := filed.sent + [v]), v);
  }

  lemma Sign(cfg: Config, nd: Node, t: Node, v: Vote)
    requires VotesOk(cfg, nd) && VotesOk(cfg, t) && t.sent == nd.sent + [v] && t.created == nd.created
    requires forall w :: w in nd.sent ==> w.number != v.number
    ensures VotesOk(cfg, t.(created := t.created + [v]))
  {
    SignedGrows(nd.created, nd.sent, v);
  }

  lemma TryOneVotes(cfg: Config, nd: Node, n: BlockNumber, a: Answers)
    requires n in nd.pending && NodeOk(cfg, nd) && !IsExecuted(nd.core.store, n, cfg.cluster)
    ensures NodeOk(cfg, TryOne(cfg, nd, n, a).node)
  {
    hide Accept, HeaderOk, ChainOk, CastVote, Carried, VotesOk, Filed, StartsEpoch;
    var t := TryOne(cfg, nd, n, a).node;
    TryOneEffect(cfg, nd, n, a);
    SinceOk(nd.core, t.core, cfg.cluster);
    if nd.pending[n].block.Some? {
      FiledAt(nd.pending, n);
      var h := nd.pending[n].block.value.block.header;
      var voted := CastVote(cfg, nd, n, h);
      CastVotes(cfg, nd, n, h);
      CastKeeps(cfg, nd, n, h);
      CoreMoves(cfg, nd, t.core);
      CoreMoves(cfg, voted, t.core);
      ElectVotes(cfg, nd, h);
      ElectVotes(cfg, nd.(core := t.core), h);
      ElectVotes(cfg, voted.(core := t.core), h);
    }
  }

  lemma ElectVotes(cfg: Config, nd: Node, h: Header)
    requires VotesOk(cfg, nd)
    ensures VotesOk(cfg, Elect(cfg, nd, h))
  {
  }

  lemma {:induction false} PassVotes(cfg: Config, nd: Node, ns: seq<BlockNumber>, ask: Oracle)
    requires (forall i :: 0 <= i < |ns| ==> ns[i] in nd.pending) && NodeOk(cfg, nd)
    ensures NodeOk(cfg, RunPass(cfg, nd, ns, ask).node)
    decreases |ns|
  {
    hide NodeOk, TryOne;
    if ns != [] {
      if IsExecuted(nd.core.store, ns[0], cfg.cluster) {
        PassVotes(cfg, nd, ns[1..], ask);
      } else {
        var one := TryOne(cfg, nd, ns[0], ask(ns[0]));
        TryOneVotes(cfg, nd, ns[0], ask(ns[0]));
        KeepsKeys(cfg, nd, ns[0], ask(ns[0]));
        if one.ok {
          PassVotes(cfg, one.node, ns[1..], ask);
        }
      }
    }
  }

  lemma RemoveExecuted(cfg: Config, nd: Node, done: set<BlockNumber>)
    requires VotesOk(cfg, nd) && Filed(nd.pending)
    requires forall n :: n in done ==> IsExecuted(nd.core.store, n, cfg.cluster)
    ensures VotesOk(cfg, nd.(pending := nd.pending - done)) && Filed(nd.pending - done)
  {
    forall v | v in nd.sent ensures Held(cfg, nd.core, nd.pending - done, v) {
      assert Held(cfg, nd.core, nd.pending, v);
    }
  }

  lemma FinalizeVotes(cfg: Config, nd: Node, ask: Oracle)
    requires NodeOk(cfg, nd)
    ensures NodeOk(cfg, Finalize(cfg, nd, ask))
  {
    hide RunPass, ChainOk, ChainSince, NewIn, Filed, VotesOk, PassEntries;
    var ns := Ascending(nd.pending.Keys);
    PassVotes(cfg, nd, ns, ask);
    PassEffect(cfg, nd, ns, ask);
    var p := RunPass(cfg, nd, ns, ask);
    RemoveExecuted(cfg, p.node, Elements(p.finalised));
  }

  // --------------------------------------------------------------- the handlers

  predicate Out(sent: seq<Vote>, n: BlockNumber) { exists i :: 0 <= i < |sent| && sent[i].number == n }

  /** The step removes the entry of a number for which an own vote is out. */
  predicate Drops(cfg: Config, nd: Node, step: Step) {
    step.AddAndBroadcast? && Removes(cfg, nd, step.payload, step.authorised)
    && Out(nd.sent, step.payload.block.header.number)
  }

  /** The handler files the received vote. */
  predicate Files(cfg: Config, nd: Node, v: Vote, asProposer: bool) {
    cfg.addressOf(cfg.key).Some? && asProposer
    && (v.number in nd.pending || !IsExecuted(nd.core.store, v.number, cfg.cluster))
  }

  /** A vote under the own name is filed first in its entry, and another one is out for its number. */
  predicate Misleads(cfg: Config, nd: Node, step: Step) {
    && cfg.multinode && step.ReceiveVote? && Files(cfg, nd, step.vote, step.asProposer) && IsOwn(cfg, step.vote)
    && FirstOf(Entry(nd.pending, step.vote.number).votes, OwnId(cfg)).None?
    && exists i :: 0 <= i < |nd.sent| && nd.sent[i].number == step.vote.number && nd.sent[i] != step.vote
  }

  predicate Breaks(cfg: Config, nd: Node, step: Step) { Drops(cfg, nd, step) || Misleads(cfg, nd, step) }

  /** Counts are of unique votes, in whatever order. */
  ghost predicate CountsUnique(tally: seq<Vote> -> Option<seq<Vote>>) {
    forall votes :: tally(votes).Some? ==> Uniques(votes, tally(votes).value)
  }

  ghost predicate WellFormed(step: Step) {
    Numbered(step) && (step.ReceiveVote? ==> CountsUnique(step.tally))
  }

  lemma AddResultOk(cfg: Config, nd: Node, r: VoteResult)
    requires NodeOk(cfg, nd)
    ensures NodeOk(cfg, nd.(pending := AddResult(nd.pending, r)))
  {
    hide ChainOk, Filed, VotesOk;
    FiledAddResult(nd.pending, r);
    AppendVotes(cfg, nd, AddResult(nd.pending, r), r.number, []);
  }

  lemma AddBlockOk(cfg: Config, nd: Node, p: Payload)
    requires NodeOk(cfg, nd) && p.block.header.number >= 1
    ensures NodeOk(cfg, nd.(pending := AddBlock(nd.pending, p)))
  {
    hide ChainOk, Filed, VotesOk;
    FiledAddBlock(nd.pending, p);
    AppendVotes(cfg, nd, AddBlock(nd.pending, p), p.block.header.number, []);
  }

  lemma AddVoteOk(cfg: Config, nd: Node, v: Vote)
    requires NodeOk(cfg, nd)
    requires cfg.multinode && FirstOf(Entry(nd.pending, v.number).votes, OwnId(cfg)).None? && IsOwn(cfg, v)
             ==> forall w :: w in nd.sent && w.number == v.number ==> v == w
    ensures NodeOk(cfg, nd.(pending := AddVote(nd.pending, v)))
  {
    hide ChainOk, Filed, VotesOk;
    FiledAddVote(nd.pending, v);
    AppendVotes(cfg, nd, AddVote(nd.pending, v), v.number, [v]);
  }

  /** The own votes in a count are the entry's voice. */
  lemma CountedVoice(cfg: Config, votes: seq<Vote>, unique: seq<Vote>, v: Vote)
    requires Uniques(votes, unique) && v in OwnIn(cfg, unique)
    ensures Voice(cfg, votes) == Some(v) && v in votes
  {
    OwnInMembers(cfg, unique);
    assert IdentityOf(v) == OwnId(cfg);
    FirstOfIdentity(votes, OwnId(cfg));
  }

  lemma PublishVotes(cfg: Config, nd: Node, r: VoteResult, v: Vote)
    requires NodeOk(cfg, nd) && cfg.multinode && v.number in nd.pending && Uniques(nd.pending[v.number].votes, r.votes)
    ensures NodeOk(cfg, Publish(cfg, nd, r, v))
  {
    hide ChainOk, Filed, VotesOk, Uniques;
    var n := v.number;
    var votes := nd.pending[n].votes;
    forall w | w in OwnIn(cfg, r.votes) ensures Voice(cfg, votes) == Some(w) && w.number == n {
      CountedVoice(cfg, votes, r.votes, w);
      VotesTagged(cfg, nd, n);
    }
    OwnVotesAgree(cfg, votes);
    if OwnIn(cfg, r.votes) != [] {
      assert OwnIn(cfg, r.votes)[0] in OwnIn(cfg, r.votes);
    }
    SendOwn(cfg, nd, n, OwnIn(cfg, r.votes));
    LogsOnly(cfg, nd.(sent := nd.sent + OwnIn(cfg, r.votes)), Publish(cfg, nd, r, v));
  }

  lemma LogsOnly(cfg: Config, nd: Node, t: Node)
    requires VotesOk(cfg, nd) && t.core == nd.core && t.pending == nd.pending && t.sent == nd.sent
    requires t.created == nd.created
    ensures VotesOk(cfg, t)
  {
  }

  lemma NotMisled(cfg: Config, nd: Node, step: Step)
    requires step.ReceiveVote? && Files(cfg, nd, step.vote, step.asProposer) && !Misleads(cfg, nd, step)
    ensures (cfg.multinode && FirstOf(Entry(nd.pending, step.vote.number).votes, OwnId(cfg)).None?
             && IsOwn(cfg, step.vote))
            ==> forall w :: w in nd.sent && w.number == step.vote.number ==> step.vote == w
  {
  }

  lemma OnVoteVotes(cfg: Config, nd: Node, step: Step)
    requires step.ReceiveVote? && WellFormed(step) && NodeOk(cfg, nd) && !Misleads(cfg, nd, step)
    ensures NodeOk(cfg, Next(cfg, nd, step))
  {
    if Files(cfg, nd, step.vote, step.asProposer) {
      NotMisled(cfg, nd, step);
      hide NodeOk, Finalize, AddResult, Misleads, Uniques, Publish, FirstOf;
      var v := step.vote;
      var voted := nd.(pending := AddVote(nd.pending, v));
      AddVoteOk(cfg, nd, v);
      var votes := voted.pending[v.number].votes;
      var r := VoteResultOf(cfg, votes, step.tally);
      if r.Some? {
        EntryTagged(cfg, voted, v.number);
        assert r.value.number == v.number by {
          assert votes[0] in votes;
        }
        var counted := voted.(pending := AddResult(voted.pending, r.value));
        AddResultOk(cfg, voted, r.value);
        ResultVotes(voted.pending, r.value);
        if cfg.multinode {
          PublishVotes(cfg, counted, r.value, v);
          FinalizeVotes(cfg, Publish(cfg, counted, r.value, v), step.ask);
        }
      }
    }
  }

  lemma EntryTagged(cfg: Config, nd: Node, n: BlockNumber)
    requires NodeOk(cfg, nd) && n in nd.pending
    ensures forall v :: v in nd.pending[n].votes ==> v.number == n
  {
  }

  lemma ResultVotes(m: PendingMap, r: VoteResult)
    requires r.number in m
    ensures r.number in AddResult(m, r) && AddResult(m, r)[r.number].votes == m[r.number].votes
  {
  }

  lemma AcceptVotes(cfg: Config, nd: Node, b: Block, ok: bool)
    requires NodeOk(cfg, nd) && b.header.number >= 1 && HeaderOk(nd.core.store, cfg.cluster, b)
    ensures NodeOk(cfg, nd.(core := Accept(nd.core, b, ok).core))
  {
    hide ChainOk, VotesOk, Filed, Accept, HeaderOk;
    AcceptKeepsChain(nd.core, cfg.cluster, b, ok);
    CoreMoves(cfg, nd, Accept(nd.core, b, ok).core);
  }

  lemma OnBlockVotes(cfg: Config, nd: Node, step: Step)
    requires step.ReceiveBlock? && Numbered(step) && NodeOk(cfg, nd)
    ensures NodeOk(cfg, Next(cfg, nd, step))
  {
    hide NodeOk, Finalize, HeaderOk, Accept, StoreBlock;
    var b := step.payload.block;
    StoreOnly(nd.core, b);
    if HeaderOk(nd.core.store, cfg.cluster, b) {
      AcceptVotes(cfg, nd, b, false);
      AcceptVotes(cfg, nd, b, step.executes);
      FinalizeVotes(cfg, nd.(core := Accept(nd.core, b, step.executes).core), step.ask);
    }
  }

  /** A header is stored for every executed number. */
  lemma UnstoredUnexecuted(s: Core, c: Address, n: BlockNumber)
    requires ChainOk(s, c) && n !in s.store.headers
    ensures !IsExecuted(s.store, n, c)
  {
    NotLogged(s, c, n);
  }

  lemma ResendVotes(cfg: Config, nd: Node, n: BlockNumber, key: Key)
    requires NodeOk(cfg, nd) && n in nd.pending && FirstVote(nd.pending[n].votes, key).Some?
    requires !IsExecuted(nd.core.store, n, cfg.cluster)
    ensures NodeOk(cfg, nd.(sent := nd.sent + OwnIn(cfg, [FirstVote(nd.pending[n].votes, key).value])))
  {
    var votes := nd.pending[n].votes;
    var v := FirstVote(votes, key).value;
    OwnInOne(cfg, v);
    FirstVoteKey(votes, key);
    OwnVotesAgree(cfg, votes);
    FirstOwnMember(cfg, votes);
    hide ChainOk, Filed, VotesOk;
    VotesTagged(cfg, nd, n);
    SendOwn(cfg, nd, n, OwnIn(cfg, [v]));
  }

  lemma {:induction false} FirstVoteKey(votes: seq<Vote>, key: Key)
    ensures FirstVote(votes, key).Some? ==> FirstVote(votes, key).value.key == key
    decreases |votes|
  {
    if votes != [] {
      FirstVoteKey(votes[1..], key);
    }
  }

  lemma RemoveVotes(cfg: Config, nd: Node, n: BlockNumber)
    requires NodeOk(cfg, nd) && !Out(nd.sent, n)
    ensures NodeOk(cfg, nd.(pending := nd.pending - {n}))
  {
    hide ChainOk;
    forall v | v in nd.sent ensures Held(cfg, nd.core, nd.pending - {n}, v) {
      assert Held(cfg, nd.core, nd.pending, v);
    }
  }

  /** Filing the own vote for a number whose first own vote, if there is one, is already filed. */
  lemma OwnVoteOk(cfg: Config, nd: Node, h: Header)
    requires NodeOk(cfg, nd) && !IsExecuted(nd.core.store, h.number, cfg.cluster)
    ensures NodeOk(cfg, nd.(pending := AddVote(nd.pending, OwnVote(cfg, h))))
  {
    FirstOwnMember(cfg, Entry(nd.pending, h.number).votes);
    if FirstOwn(cfg, Entry(nd.pending, h.number).votes).None? {
      NoneOut(cfg, nd, h.number);
    }
    hide NodeOk;
    AddVoteOk(cfg, nd, OwnVote(cfg, h));
  }

  lemma OnProposeVotes(cfg: Config, nd: Node, p: Payload, authorised: bool)
    requires p.block.header.number >= 1 && NodeOk(cfg, nd) && !Drops(cfg, nd, AddAndBroadcast(p, authorised))
    ensures NodeOk(cfg, OnPropose(cfg, nd, p, authorised))
  {
    var h := p.block.header;
    ChainOfNode(cfg, nd);
    hide NodeOk, ChainOk, AddVote, AddBlock, OwnIn;
    if MayPropose(nd, h.number) {
      UnstoredUnexecuted(nd.core, cfg.cluster, h.number);
      OwnVoteOk(cfg, nd, h);
      AddBlockOk(cfg, nd.(pending := AddVote(nd.pending, OwnVote(cfg, h))), p);
      if !Out(nd.sent, h.number) {
        RemoveVotes(cfg, nd, h.number);
      }
      if h.number in nd.pending && FirstVote(nd.pending[h.number].votes, p.key).Some? {
        ResendVotes(cfg, nd, h.number, p.key);
      }
    }
  }

  lemma ChainOfNode(cfg: Config, nd: Node)
    requires NodeOk(cfg, nd)
    ensures ChainOk(nd.core, cfg.cluster)
  {
  }

  /** A step that neither drops nor misleads keeps the votes in order. */
  lemma StepVotes(cfg: Config, nd: Node, step: Step)
    requires WellFormed(step) && NodeOk(cfg, nd) && !Breaks(cfg, nd, step)
    ensures NodeOk(cfg, Next(cfg, nd, step))
  {
    hide NodeOk, Finalize, AddBlock, AddResult, OnVote, OnBlock, OnPropose, CountsUnique;
    match step
    case ReceiveValidateBlock(p, authorised, ask) =>
      AddBlockOk(cfg, nd, p);
      FinalizeVotes(cfg, nd.(pending := AddBlock(nd.pending, p)), ask);
    case ReceiveVote(_, _, _, _, _) =>
      OnVoteVotes(cfg, nd, step);
    case ReceiveVoteResult(r, ask) =>
      AddResultOk(cfg, nd, r);
      FinalizeVotes(cfg, nd.(pending := AddResult(nd.pending, r)), ask);
    case ReceiveBlock(_, _, _, _, _, _) =>
      OnBlockVotes(cfg, nd, step);
    case AddAndBroadcast(p, authorised) =>
      OnProposeVotes(cfg, nd, p, authorised);
  }

  // ---------------------------------------------------------------- whole runs

  ghost predicate NeverBreaks(cfg: Config, nd: Node, steps: seq<Step>) {
    forall i :: 0 <= i < |steps| ==> !Breaks(cfg, Run(cfg, nd, steps[..i]), steps[i])
  }

  ghost predicate AllWellFormed(steps: seq<Step>) {
    forall i :: 0 <= i < |steps| ==> WellFormed(steps[i])
  }

  lemma {:induction false} RunVotes(cfg: Config, nd: Node, steps: seq<Step>)
    requires NodeOk(cfg, nd) && NeverBreaks(cfg, nd, steps) && AllWellFormed(steps)
    ensures NodeOk(cfg, Run(cfg, nd, steps))
    decreases |steps|
  {
    hide NodeOk, Next, Breaks, WellFormed;
    if steps != [] {
      var init := steps[..|steps| - 1];
      assert !Breaks(cfg, Run(cfg, nd, init), steps[|steps| - 1]);
      forall i | 0 <= i < |init| ensures !Breaks(cfg, Run(cfg, nd, init[..i]), init[i]) {
        assert init[..i] == steps[..i];
      }
      RunVotes(cfg, nd, init);
      StepVotes(cfg, Run(cfg, nd, init), steps[|steps| - 1]);
    }
  }

  /**
   * A node process that starts on a linked chain and takes no breaking step: all own votes
   * that leave it for a number are the same vote, whatever blocks replace pending ones, and
   * its finalise path signs at most one a number.
   */
  lemma NoEquivocation(cfg: Config, start: Core, steps: seq<Step>)
    requires ChainOk(start, cfg.cluster) && AllWellFormed(steps) && NeverBreaks(cfg, Started(start), steps)
    ensures var t := Run(cfg, Started(start), steps); OneVoice(t.sent) && SignedOnce(t.created, t.sent)
  {
    hide Run, NeverBreaks, ChainOk;
    RunVotes(cfg, Started(start), steps);
  }

  // --------------------------------------------------- breaking steps do break it

  const COUNT_ALL: seq<Vote> -> Option<seq<Vote>> := votes => Some(Counted(votes))

  lemma CountAllUnique()
    ensures CountsUnique(COUNT_ALL)
  {
    forall votes ensures Uniques(votes, COUNT_ALL(votes).value) {
      CountedUnique(votes);
    }
  }

  lemma {:induction false} PassSends(cfg: Config, nd: Node, ns: seq<BlockNumber>, ask: Oracle)
    requires forall i :: 0 <= i < |ns| ==> ns[i] in nd.pending
    ensures nd.sent <= RunPass(cfg, nd, ns, ask).node.sent
    decreases |ns|
  {
    hide Accept, HeaderOk, Carried, StartsEpoch;
    if ns != [] {
      if IsExecuted(nd.core.store, ns[0], cfg.cluster) {
        PassSends(cfg, nd, ns[1..], ask);
      } else {
        var one := TryOne(cfg, nd, ns[0], ask(ns[0]));
        KeepsKeys(cfg, nd, ns[0], ask(ns[0]));
        if one.ok {
          PassSends(cfg, one.node, ns[1..], ask);
        }
      }
    }
  }

  lemma Discord(sent: seq<Vote>, more: seq<Vote>, v: Vote, w: Vote)
    requires v in sent && w in sent && v.number == w.number && v != w && sent <= more
    ensures !OneVoice(more)
  {
    assert v in more && w in more;
  }

  /** A count goes out with the entry's voice in it. */
  lemma CountSends(cfg: Config, nd: Node, step: Step, v: Vote)
    requires cfg.multinode && step.ReceiveVote? && WellFormed(step) && Files(cfg, nd, step.vote, step.asProposer)
    requires step.validatorsKnown && step.vote.number == v.number && IsOwn(cfg, v)
    requires var votes := AddVote(nd.pending, step.vote)[v.number].votes;
             step.tally(votes).Some? && FirstOf(votes, OwnId(cfg)) == Some(v)
    ensures nd.sent <= Next(cfg, nd, step).sent && v in Next(cfg, nd, step).sent
  {
    hide RunPass;
    var pending := AddVote(nd.pending, step.vote);
    var votes := pending[v.number].votes;
    var r := VoteResultOf(cfg, votes, step.tally).value;
    var out := Publish(cfg, nd.(pending := AddResult(pending, r)), r, step.vote);
    assert IdentityOf(v) == OwnId(cfg);
    assert Uniques(votes, r.votes);
    OwnInMembers(cfg, r.votes);
    PassSends(cfg, out, Ascending(out.pending.Keys), step.ask);
    assert v in out.sent;
  }

  /** A count that goes out while the entry's voice is `v` and another own vote is already out. */
  lemma CountGoesOut(cfg: Config, nd: Node, step: Step, v: Vote, w: Vote)
    requires cfg.multinode && step.ReceiveVote? && WellFormed(step) && Files(cfg, nd, step.vote, step.asProposer)
    requires step.validatorsKnown && step.vote.number == v.number && IsOwn(cfg, v)
    requires var votes := AddVote(nd.pending, step.vote)[v.number].votes;
             step.tally(votes).Some? && FirstOf(votes, OwnId(cfg)) == Some(v)
    requires w in nd.sent && w.number == v.number && w != v
    ensures !OneVoice(Next(cfg, nd, step).sent)
  {
    hide OneVoice, Next;
    CountSends(cfg, nd, step, v);
    var sent := Next(cfg, nd, step).sent;
    assert w in sent;
    Discord(sent, sent, v, w);
  }

  lemma MisleadsVoice(cfg: Config, nd: Node, step: Step) returns (w: Vote)
    requires NodeOk(cfg, nd) && Misleads(cfg, nd, step)
    ensures w in nd.sent && w.number == step.vote.number && w != step.vote
    ensures FirstOf(AddVote(nd.pending, step.vote)[step.vote.number].votes, OwnId(cfg)) == Some(step.vote)
  {
    var i :| 0 <= i < |nd.sent| && nd.sent[i].number == step.vote.number && nd.sent[i] != step.vote;
    w := nd.sent[i];
    FirstOfAppend(Entry(nd.pending, step.vote.number).votes, [step.vote], OwnId(cfg));
    assert [step.vote][1..] == [];
  }

  /** A continuation that takes no breaking step itself and ends with two own votes out for one number. */
  ghost predicate Betrays(cfg: Config, nd: Node, more: seq<Step>) {
    AllWellFormed(more) && NeverBreaks(cfg, nd, more) && !OneVoice(Run(cfg, nd, more).sent)
  }

  lemma OneMore(cfg: Config, nd: Node, step: Step)
    requires WellFormed(step) && !Breaks(cfg, nd, step) && !OneVoice(Next(cfg, nd, step).sent)
    ensures Betrays(cfg, nd, [step])
  {
    hide WellFormed, Breaks, OneVoice, Next;
    assert [step][..0] == [];
  }

  lemma TwoMore(cfg: Config, nd: Node, a: Step, b: Step)
    requires WellFormed(a) && !Breaks(cfg, nd, a) && WellFormed(b) && !Breaks(cfg, Next(cfg, nd, a), b)
    requires !OneVoice(Next(cfg, Next(cfg, nd, a), b).sent)
    ensures Betrays(cfg, nd, [a, b])
  {
    hide WellFormed, Breaks, OneVoice, Next;
    assert [a, b][..0] == [] && [a, b][..1] == [a] && [a][..0] == [];
    assert Run(cfg, nd, [a]) == Next(cfg, nd, a);
    assert Run(cfg, nd, [a, b]) == Next(cfg, Next(cfg, nd, a), b);
    assert Run(cfg, nd, [a, b][..0]) == nd && Run(cfg, nd, [a, b][..1]) == Next(cfg, nd, a);
  }

  /** The vote repeated, with a count that lets everything through. */
  function Repeated(v: Vote, ask: Oracle): Step { ReceiveVote(v, true, true, COUNT_ALL, ask) }

  lemma RepeatedBetrays(cfg: Config, nd: Node, v: Vote, w: Vote, ask: Oracle)
    requires cfg.multinode && cfg.addressOf(cfg.key).Some? && v.number in nd.pending && IsOwn(cfg, v)
    requires FirstOf(nd.pending[v.number].votes, OwnId(cfg)) == Some(v)
    requires w in nd.sent && w.number == v.number && w != v
    ensures Betrays(cfg, nd, [Repeated(v, ask)])
  {
    hide OneVoice, Next, CountsUnique, Betrays, Counted;
    CountAllUnique();
    FirstOfAppend(nd.pending[v.number].votes, [v], OwnId(cfg));
    CountGoesOut(cfg, nd, Repeated(v, ask), v, w);
    OneMore(cfg, nd, Repeated(v, ask));
  }

  /** After the misleading vote, a count of the entry goes out, at once or with the next vote. */
  lemma MisleadsBetrays(cfg: Config, nd: Node, step: Step)
    requires NodeOk(cfg, nd) && WellFormed(step) && Misleads(cfg, nd, step)
    ensures exists more :: Betrays(cfg, Next(cfg, nd, step), more)
  {
    hide NodeOk, WellFormed, FirstOf, OneVoice, Finalize;
    var w := MisleadsVoice(cfg, nd, step);
    var v := step.vote;
    var t := Next(cfg, nd, step);
    if step.validatorsKnown && step.tally(AddVote(nd.pending, v)[v.number].votes).Some? {
      CountGoesOut(cfg, nd, step, v, w);
      NothingMore(cfg, t);
    } else {
      assert t == nd.(pending := AddVote(nd.pending, v));
      hide Betrays;
      RepeatedBetrays(cfg, t, v, w, step.ask);
    }
  }

  lemma NothingMore(cfg: Config, nd: Node)
    requires !OneVoice(nd.sent)
    ensures Betrays(cfg, nd, [])
  {
  }

  /** The node files a block of its own under a free number, and its vote goes out when it is asked again. */
  lemma ProposesTwice(cfg: Config, nd: Node, p: Payload, v: Vote)
    requires cfg.addressOf(cfg.key).Some? && p.key == cfg.key && p.block.header.number >= 1
    requires MayPropose(nd, p.block.header.number) && p.block.header.number - 1 in nd.pending
    requires p.block.header.number !in nd.pending
    requires v in nd.sent && v.number == p.block.header.number && v.hash != p.block.header.hash
    ensures Betrays(cfg, nd, [AddAndBroadcast(p, true), AddAndBroadcast(p, true)])
  {
    var step := AddAndBroadcast(p, true);
    var one := Next(cfg, nd, step);
    var w := OwnVote(cfg, p.block.header);
    assert one.pending[w.number].votes == [w];
    OwnInOne(cfg, w);
    var two := Next(cfg, one, step);
    assert two.sent == nd.sent + [w];
    Discord(two.sent, two.sent, v, w);
    TwoMore(cfg, nd, step, step);
  }

  lemma DropsState(cfg: Config, nd: Node, step: Step) returns (v: Vote)
    requires Filed(nd.pending) && Numbered(step) && Drops(cfg, nd, step)
    ensures step.AddAndBroadcast?
    ensures var n := step.payload.block.header.number;
            && n in nd.pending && nd.pending[n].block.Some? && n >= 1 && n - 1 in nd.pending
            && nd.pending[n].block.value.block.header.number == n
            && nd.pending[n].block.value.block.header.hash != step.payload.block.header.hash
            && MayPropose(nd, n) && v in nd.sent && v.number == n
            && Next(cfg, nd, step) == nd.(pending := nd.pending - {n})
  {
    var n := step.payload.block.header.number;
    FiledAt(nd.pending, n);
    var i :| 0 <= i < |nd.sent| && nd.sent[i].number == n;
    v := nd.sent[i];
  }

  /** The block as the node itself would propose it, in an epoch that neither of the two blocks names. */
  function Reproposed(cfg: Config, p: Payload, q: Payload): Payload {
    var epoch := Max(p.block.header.epoch, q.block.header.epoch) + 1;
    p.(key := cfg.key, sender := cfg.address, block := p.block.(header := p.block.header.(epoch := epoch)))
  }

  /** After the removal the node may propose either of the two blocks for the number, in an epoch of its own. */
  lemma DropsBetrays(cfg: Config, nd: Node, step: Step)
    requires Filed(nd.pending) && Numbered(step) && Drops(cfg, nd, step) && cfg.addressOf(cfg.key).Some?
    ensures exists more :: Betrays(cfg, Next(cfg, nd, step), more)
  {
    hide Filed, Drops, Next, Betrays;
    var v := DropsState(cfg, nd, step);
    var n := step.payload.block.header.number;
    var p, q := step.payload, nd.pending[n].block.value;
    ProposesTwice(cfg, nd.(pending := nd.pending - {n}),
                  if p.block.header.hash != v.hash then Reproposed(cfg, p, q) else Reproposed(cfg, q, p), v);
  }

  /**
   * Exactly the breaking steps cost the node its single voice: after a step that is not
   * one, no continuation without one lets two own votes out for a number, and after a step
   * that is one, some such continuation does.
   */
  lemma BreaksIff(cfg: Config, nd: Node, step: Step)
    requires NodeOk(cfg, nd) && WellFormed(step) && cfg.addressOf(cfg.key).Some?
    ensures Breaks(cfg, nd, step)
        <==> exists more ::
               && AllWellFormed(more) && NeverBreaks(cfg, Next(cfg, nd, step), more)
               && !OneVoice(Run(cfg, Next(cfg, nd, step), more).sent)
  {
    hide NodeOk, WellFormed, Drops, Misleads, Next, NeverBreaks, AllWellFormed, Run;
    var t := Next(cfg, nd, step);
    if Breaks(cfg, nd, step) {
      if Drops(cfg, nd, step) {
        NumberedStep(cfg, nd, step);
        DropsBetrays(cfg, nd, step);
      } else {
        MisleadsBetrays(cfg, nd, step);
      }
      var more :| Betrays(cfg, t, more);
    } else {
      StepVotes(cfg, nd, step);
      forall more | AllWellFormed(more) && NeverBreaks(cfg, t, more) ensures OneVoice(Run(cfg, t, more).sent) {
        RunVotes(cfg, t, more);
        VoiceOfNode(cfg, Run(cfg, t, more));
      }
    }
  }

  lemma NumberedStep(cfg: Config, nd: Node, step: Step)
    requires NodeOk(cfg, nd) && WellFormed(step)
    ensures Filed(nd.pending) && Numbered(step)
  {
  }

  lemma VoiceOfNode(cfg: Config, nd: Node)
    requires NodeOk(cfg, nd)
    ensures OneVoice(nd.sent)
  {
  }

  // ------------------------------------------------------------------- restarts

  /** A vote under the own name for the same number and another block. */
  function OtherVote(cfg: Config, v: Vote): (w: Vote)
    ensures IsOwn(cfg, w) && w.number == v.number && w != v
  {
    v.(validator := cfg.address, key := cfg.key, hash := if v.hash == ZERO_HASH then Hash(1) else ZERO_HASH)
  }

  function EmptyResult(n: BlockNumber): VoteResult { VoteResult(n, ZERO_HASH, 0, 0, [], false, []) }

  lemma GenesisUnexecuted(s: Core, c: Address)
    requires ChainOk(s, c)
    ensures !IsExecuted(s.store, 0, c)
  {
    LoggedBelow(s, c);
  }

  /** Filing an empty vote result while nothing below it, or number 0, can be finalised. */
  lemma Parks(cfg: Config, nd: Node, n: BlockNumber, ask: Oracle)
    requires Filed(nd.pending) && ChainOk(nd.core, cfg.cluster) && (0 in nd.pending || n == 0)
    ensures var t := Next(cfg, nd, ReceiveVoteResult(EmptyResult(n), ask));
            && Filed(t.pending) && t.core == nd.core && t.sent == nd.sent && t.pending.Keys == nd.pending.Keys + {n}
            && t.pending[n].votes == Entry(nd.pending, n).votes
  {
    hide ChainOk, Finalize;
    var filed := nd.(pending := AddResult(nd.pending, EmptyResult(n)));
    FiledAddResult(nd.pending, EmptyResult(n));
    GenesisUnexecuted(nd.core, cfg.cluster);
    StuckPass(cfg, filed, ask, 0);
    assert filed.pending.Keys == nd.pending.Keys + {n};
  }

  /** The vote of another process under the own name arrives, is filed, counted and sent. */
  lemma StrayVoteSent(cfg: Config, nd: Node, w: Vote, ask: Oracle)
    requires cfg.multinode && cfg.addressOf(cfg.key).Some? && IsOwn(cfg, w) && Entry(nd.pending, w.number).votes == []
    requires w.number in nd.pending || !IsExecuted(nd.core.store, w.number, cfg.cluster)
    ensures w in Next(cfg, nd, Repeated(w, ask)).sent
  {
    hide Next, CountsUnique, Counted;
    CountAllUnique();
    assert [] + [w] == [w];
    CountSends(cfg, nd, Repeated(w, ask), w);
  }

  /** The messages after a restart that send the vote: two empty vote results first if its block is executed. */
  function StraySteps(cfg: Config, s: Core, w: Vote, ask: Oracle): seq<Step> {
    if IsExecuted(s.store, w.number, cfg.cluster)
    then [ReceiveVoteResult(EmptyResult(0), ask), ReceiveVoteResult(EmptyResult(w.number), ask), Repeated(w, ask)]
    else [Repeated(w, ask)]
  }

  lemma NotBreaking(cfg: Config, nd: Node, w: Vote, ask: Oracle)
    requires nd.sent == []
    ensures !Breaks(cfg, nd, Repeated(w, ask))
    ensures forall r :: !Breaks(cfg, nd, ReceiveVoteResult(r, ask))
    ensures WellFormed(Repeated(w, ask)) && forall r :: WellFormed(ReceiveVoteResult(r, ask))
  {
    CountAllUnique();
  }

  lemma ThreeMore(cfg: Config, nd: Node, a: Step, b: Step, c: Step)
    requires WellFormed(a) && !Breaks(cfg, nd, a) && WellFormed(b) && !Breaks(cfg, Next(cfg, nd, a), b)
    requires WellFormed(c) && !Breaks(cfg, Next(cfg, Next(cfg, nd, a), b), c)
    ensures AllWellFormed([a, b, c]) && NeverBreaks(cfg, nd, [a, b, c])
    ensures Run(cfg, nd, [a, b, c]) == Next(cfg, Next(cfg, Next(cfg, nd, a), b), c)
  {
    hide WellFormed, Breaks, Next;
    var steps := [a, b, c];
    assert steps[..0] == [] && steps[..1] == [a] && steps[..2] == [a, b] && [a, b][..1] == [a] && [a][..0] == [];
    assert Run(cfg, nd, [a]) == Next(cfg, nd, a);
    assert Run(cfg, nd, [a, b]) == Next(cfg, Next(cfg, nd, a), b);
    forall i | 0 <= i < 3 ensures !Breaks(cfg, Run(cfg, nd, steps[..i]), steps[i]) {
      assert i == 0 || i == 1 || i == 2;
    }
  }

  lemma StraySends(cfg: Config, s: Core, w: Vote, ask: Oracle)
    requires cfg.multinode && cfg.addressOf(cfg.key).Some? && ChainOk(s, cfg.cluster) && IsOwn(cfg, w)
    ensures var more := StraySteps(cfg, s, w, ask);
            && AllWellFormed(more) && NeverBreaks(cfg, Started(s), more)
            && w in Run(cfg, Started(s), more).sent
  {
    hide Next, Breaks, WellFormed, ChainOk, IsOwn;
    var start := Started(s);
    NotBreaking(cfg, start, w, ask);
    if IsExecuted(s.store, w.number, cfg.cluster) {
      GenesisUnexecuted(s, cfg.cluster);
      var one := Next(cfg, start, ReceiveVoteResult(EmptyResult(0), ask));
      Parks(cfg, start, 0, ask);
      var two := Next(cfg, one, ReceiveVoteResult(EmptyResult(w.number), ask));
      Parks(cfg, one, w.number, ask);
      NotBreaking(cfg, one, w, ask);
      NotBreaking(cfg, two, w, ask);
      StrayVoteSent(cfg, two, w, ask);
      ThreeMore(cfg, start, ReceiveVoteResult(EmptyResult(0), ask), ReceiveVoteResult(EmptyResult(w.number), ask),
                Repeated(w, ask));
    } else {
      StrayVoteSent(cfg, start, w, ask);
      assert [Repeated(w, ask)][..0] == [];
    }
  }

  /**
   * A restart forgets what is out: the process that follows can send another own vote for a
   * number, without any breaking step, exactly when the one before had sent a vote at all.
   */
  lemma RestartIff(cfg: Config, nd: Node)
    requires cfg.multinode && cfg.addressOf(cfg.key).Some? && ChainOk(nd.core, cfg.cluster)
    ensures (exists more ::
               && AllWellFormed(more) && NeverBreaks(cfg, Started(nd.core), more)
               && !OneVoice(nd.sent + Run(cfg, Started(nd.core), more).sent))
        <==> nd.sent != []
  {
    hide ChainOk, AllWellFormed, NeverBreaks, Run, OneVoice;
    if nd.sent == [] {
      forall more | AllWellFormed(more) && NeverBreaks(cfg, Started(nd.core), more)
        ensures OneVoice(nd.sent + Run(cfg, Started(nd.core), more).sent)
      {
        NoEquivocation(cfg, nd.core, more);
        assert [] + Run(cfg, Started(nd.core), more).sent == Run(cfg, Started(nd.core), more).sent;
      }
    } else {
      var v := nd.sent[0];
      var w, ask: Oracle := OtherVote(cfg, v), (n: BlockNumber) => AGREE;
      var more := StraySteps(cfg, nd.core, w, ask);
      StraySends(cfg, nd.core, w, ask);
      var all := nd.sent + Run(cfg, Started(nd.core), more).sent;
      assert v in all && w in all;
      Discord(all, all, v, w);
    }
  }
}
