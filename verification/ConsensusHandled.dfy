/**
 * What each message does to a node, outcome by outcome: when an attempt finalises, resends
 * or elects, and what the handlers file, send, drop and store, or leave alone.
 */
module ConsensusHandled {
  import opened Primitives
  import opened ChainStore
  import opened Consensus
  import opened ConsensusSafety
  import opened ConsensusChain
  import opened ConsensusPass
  import opened ConsensusVotes
  import opened ConsensusOrigins
  import opened Epochs

  // --------------------------------------------------------------- one attempt

  /** Every result is for the block and checks out. */
  ghost predicate AllFor(results: seq<VoteResult>, h: Header, a: Answers) {
    forall r :: r in results ==> r.number == h.number && r.hash == h.hash && r.cluster == h.cluster && a.resultOk(r)
  }

  /** Asked one after another, the results fail until one passes, and no answer is an error. */
  predicate PassesInTurn(results: seq<VoteResult>, passes: VoteResult -> Option<bool>)
    decreases |results|
  {
    results != [] && (passes(results[0]) == Some(true)
                      || (passes(results[0]) == Some(false) && PassesInTurn(results[1..], passes)))
  }

  lemma {:induction false} InTurnIsFirstVerdict(results: seq<VoteResult>, passes: VoteResult -> Option<bool>)
    ensures PassesInTurn(results, passes) <==> exists i :: 0 <= i < |results| && FirstVerdict(results, passes, i)
    decreases |results|
  {
    if results != [] {
      var rest := results[1..];
      InTurnIsFirstVerdict(rest, passes);
      if passes(results[0]) == Some(true) {
        assert FirstVerdict(results, passes, 0);
      } else if passes(results[0]) == Some(false) {
        if PassesInTurn(rest, passes) {
          var i :| 0 <= i < |rest| && FirstVerdict(rest, passes, i);
          assert FirstVerdict(results, passes, i + 1) by {
            assert forall j :: 1 <= j < i + 1 ==> results[j] == rest[j - 1];
          }
        }
        if exists i :: 0 <= i < |results| && FirstVerdict(results, passes, i) {
          var i :| 0 <= i < |results| && FirstVerdict(results, passes, i);
          assert forall j :: 0 <= j < i - 1 ==> rest[j] == results[j + 1];
          assert FirstVerdict(rest, passes, i - 1);
        }
      } else {
        forall i | 0 <= i < |results| ensures !FirstVerdict(results, passes, i) {
          assert i > 0 ==> passes(results[0]) != Some(false);
        }
      }
    }
  }

  lemma CarriedIff(results: seq<VoteResult>, b: Block, a: Answers)
    ensures Carried(results, b, a) <==> AllFor(results, b.header, a) && PassesInTurn(results, a.passes)
  {
    hide PassesInTurn, FirstVerdict;
    InTurnIsFirstVerdict(results, a.passes);
    if AllFor(results, b.header, a) {
      forall i | 0 <= i < |results| ensures ResultValid(results[i], b, a.resultOk) {
        assert results[i] in results;
      }
    }
    if forall i :: 0 <= i < |results| ==> ResultValid(results[i], b, a.resultOk) {
      forall r | r in results ensures r.number == b.header.number && r.hash == b.header.hash
                                      && r.cluster == b.header.cluster && a.resultOk(r)
      {
        var i :| 0 <= i < |results| && results[i] == r;
        assert ResultValid(results[i], b, a.resultOk);
      }
    }
  }

  /** The attempt gets past the votes: block in order, results for it, one of which passes. */
  ghost predicate Carries(cfg: Config, nd: Node, n: BlockNumber, a: Answers) {
    && n in nd.pending && nd.pending[n].block.Some?
    && InOrderFor(cfg, nd.core.store, nd.pending[n].block.value.block, a)
    && AllFor(nd.pending[n].results, nd.pending[n].block.value.block.header, a)
    && PassesInTurn(nd.pending[n].results, a.passes)
  }

  /**
   * An attempt finalises its block exactly when the votes carry it, any validators needed for
   * a new epoch are selected, and it executes; it elects exactly when it gets past the
   * selection, and a failed one has stored the block exactly from there on.
   */
  lemma FinalisesIff(cfg: Config, nd: Node, n: BlockNumber, a: Answers)
    requires n in nd.pending && Filed(nd.pending) && ChainOk(nd.core, cfg.cluster)
    requires !IsExecuted(nd.core.store, n, cfg.cluster)
    ensures var t := TryOne(cfg, nd, n, a);
            var starts := nd.pending[n].block.Some?
                          && cfg.epochOf(n + 1) > nd.pending[n].block.value.block.header.epoch;
            var selected := Carries(cfg, nd, n, a) && (starts ==> a.selects);
            && (t.ok <==> selected && a.executes)
            && t.node.elected == nd.elected + (if selected && starts then [cfg.epochOf(n + 1)] else [])
            && (t.node.core == nd.core || selected) && (selected ==> n in t.node.core.store.headers)
  {
    hide ChainOk, HeaderOk, Accept, Carried, CastVote, AllFor, PassesInTurn;
    if nd.pending[n].block.Some? {
      var b := nd.pending[n].block.value.block;
      FiledAt(nd.pending, n);
      CastKeeps(cfg, nd, n, b.header);
      CastElected(cfg, nd, n, b.header);
      CarriedIff(nd.pending[n].results, b, a);
      if HeaderOk(nd.core.store, cfg.cluster, b) {
        AcceptLogs(nd.core, cfg.cluster, b, a.executes);
        AcceptKeepsChain(nd.core, cfg.cluster, b, a.executes);
        StoredUpToHead(Accept(nd.core, b, a.executes).core, cfg.cluster, n);
      }
    }
  }

  lemma CastElected(cfg: Config, nd: Node, n: BlockNumber, h: Header)
    requires n in nd.pending
    ensures CastVote(cfg, nd, n, h).elected == nd.elected
  {
  }

  /** With the epochs that the node computes, a block that names its own elects exactly at the end of an epoch. */
  lemma ElectsAtEpochEnd(cfg: Config, nd: Node, n: BlockNumber, a: Answers, slots: nat)
    requires n in nd.pending && Filed(nd.pending) && ChainOk(nd.core, cfg.cluster)
    requires !IsExecuted(nd.core.store, n, cfg.cluster) && Carries(cfg, nd, n, a) && a.selects
    requires slots >= 2 && (n + 1) / slots < U64_LIMIT && forall m: nat :: cfg.epochOf(m) == CurrentEpoch(m, slots)
    requires nd.pending[n].block.value.block.header.epoch == CurrentEpoch(n, slots)
    ensures TryOne(cfg, nd, n, a).node.elected
         == nd.elected + (if (n + 1) % slots == 0 then [(n + 1) / slots] else [])
  {
    hide ChainOk, TryOne, CurrentEpoch, InOrderFor, AllFor, PassesInTurn;
    FinalisesIff(cfg, nd, n, a);
    EpochsAt(n, slots);
  }

  lemma EpochsAt(n: nat, slots: nat)
    requires slots >= 2 && (n + 1) / slots < U64_LIMIT
    ensures CurrentEpoch(n + 1, slots) > CurrentEpoch(n, slots) <==> (n + 1) % slots == 0
    ensures CurrentEpoch(n + 1, slots) == (n + 1) / slots
  {
    EpochEndsAtMultiple(n, slots);
  }

  /** What an attempt sends: the own vote that the entry holds, the one it signs, or nothing. */
  lemma SendsIff(cfg: Config, nd: Node, n: BlockNumber, a: Answers)
    requires n in nd.pending
    ensures var p, t := nd.pending[n], TryOne(cfg, nd, n, a).node;
            var votes := && p.block.Some? && InOrderFor(cfg, nd.core.store, p.block.value.block, a)
                         && a.isValidator && !a.isProposer;
            var held := FirstVote(p.votes, cfg.key);
            && (!votes ==> t.sent == nd.sent)
            && (votes && held.Some? ==>
                  t.sent == nd.sent + (if held.value.validator == cfg.address then [held.value] else []))
            && (votes && held.None? ==> |t.sent| == |nd.sent| + 1)
  {
    hide Accept, HeaderOk, Carried, StartsEpoch;
    FirstVoteKey(nd.pending[n].votes, cfg.key);
    if FirstVote(nd.pending[n].votes, cfg.key).Some? {
      OwnInOne(cfg, FirstVote(nd.pending[n].votes, cfg.key).value);
    }
  }

  // ------------------------------------------------------------------- the handlers

  /** `t` has the vote appended to its entry, and is `nd` otherwise. */
  ghost predicate VoteFiled(nd: Node, t: Node, v: Vote) {
    t == nd.(pending := t.pending) && v.number in t.pending
    && t.pending == nd.pending[v.number := t.pending[v.number]]
    && t.pending[v.number] == Entry(nd.pending, v.number).(votes := Entry(nd.pending, v.number).votes + [v])
  }

  /**
   * A vote is filed exactly when the node proposes, its own key has an address, and the
   * number is pending or not executed. It completes a result exactly when, besides, the
   * validators are known and the votes of the entry pass a count; the result is then filed,
   * and among several nodes published, with the vote relayed, before a pass.
   */
  lemma VoteHandled(cfg: Config, nd: Node, step: Step) returns (r: VoteResult, filed: Node)
    requires step.ReceiveVote?
    ensures var v, t := step.vote, Next(cfg, nd, step);
            var files := && step.asProposer && cfg.addressOf(cfg.key).Some?
                         && (v.number in nd.pending || !IsExecuted(nd.core.store, v.number, cfg.cluster));
            var completes := files && step.validatorsKnown
                             && step.tally(Entry(nd.pending, v.number).votes + [v]).Some?;
            && (!files ==> t == nd)
            && (files ==> VoteFiled(nd, filed, v))
            && (files && !completes ==> t == filed)
            && (completes ==>
                  && Counts(cfg, step, Entry(nd.pending, v.number).votes + [v], r)
                  && t == if !cfg.multinode then filed.(pending := AddResult(filed.pending, r))
                          else Finalize(cfg, filed.(pending := AddResult(filed.pending, r),
                                                    published := nd.published + [r], relayed := nd.relayed + [v],
                                                    sent := nd.sent + OwnIn(cfg, r.votes)), step.ask))
  {
    var v := step.vote;
    hide Finalize, AddResult, OwnIn;
    filed := nd.(pending := AddVote(nd.pending, v));
    var votes := Entry(nd.pending, v.number).votes + [v];
    var made := VoteResultOf(cfg, votes, step.tally);
    r := if made.Some? then made.value else VoteResult(0, ZERO_HASH, 0, 0, [], false, []);
  }

  /** A filed result is one more result of its entry, and every other entry stays. */
  lemma ResultFiled(m: PendingMap, r: VoteResult)
    ensures var m' := AddResult(m, r);
            && m' == m[r.number := m'[r.number]]
            && m'[r.number] == Entry(m, r.number).(results := Entry(m, r.number).results + [r])
  {
  }

  /** A received vote result is filed whatever it is, and a pass follows. */
  lemma ResultHandled(cfg: Config, nd: Node, r: VoteResult, ask: Oracle)
    ensures Next(cfg, nd, ReceiveVoteResult(r, ask)) == Finalize(cfg, nd.(pending := AddResult(nd.pending, r)), ask)
    ensures !IsExecuted(nd.core.store, r.number, cfg.cluster) && nd.pending == map[] ==>
              Next(cfg, nd, ReceiveVoteResult(r, ask)) == nd.(pending := map[r.number := Pending([], [r], None)])
  {
    if !IsExecuted(nd.core.store, r.number, cfg.cluster) && nd.pending == map[] {
      var filed := nd.(pending := AddResult(nd.pending, r));
      assert [] + [r] == [r];
      assert filed.pending == map[r.number := Pending([], [r], None)];
      assert filed.pending.Keys == {r.number};
      assert IsLeast(filed.pending.Keys, r.number);
      FirstIsLeast(filed.pending.Keys, r.number);
      var one := TryOne(cfg, filed, r.number, ask(r.number));
      assert one == Attempt(filed, false);
      assert RunPass(cfg, filed, Ascending(filed.pending.Keys), ask) == Pass(filed, []);
      assert Elements([]) == {};
      assert filed.pending - {} == filed.pending;
    }
  }

  /** A proposed block is filed exactly when its sender is the proposer and it is not executed; a pass follows. */
  lemma ProposalHandled(cfg: Config, nd: Node, p: Payload, authorised: bool, ask: Oracle)
    ensures var n := p.block.header.number;
            var t := Next(cfg, nd, ReceiveValidateBlock(p, authorised, ask));
            && (!authorised || IsExecuted(nd.core.store, n, cfg.cluster) ==> t == nd)
            && (authorised && !IsExecuted(nd.core.store, n, cfg.cluster) ==>
                  exists m: PendingMap :: && n in m && m == nd.pending[n := m[n]]
                                          && m[n] == Entry(nd.pending, n).(block := Some(p))
                                          && t == Finalize(cfg, nd.(pending := m), ask))
  {
    hide Finalize;
    var n := p.block.header.number;
    assert AddBlock(nd.pending, p)[n] == Entry(nd.pending, n).(block := Some(p));
  }

  /**
   * A received block that is executed, invalid, not its sender's, or that does not fit the
   * head changes nothing; any other is stored. One with invalid evidence, or that fails to
   * execute, changes nothing else; after the others a pass follows.
   */
  lemma BlockHandled(cfg: Config, nd: Node, step: Step)
    requires ChainOk(nd.core, cfg.cluster) && step.ReceiveBlock? && Numbered(step)
    ensures var b, t := step.payload.block, Next(cfg, nd, step);
            var takes := && !IsExecuted(nd.core.store, b.header.number, cfg.cluster) && step.valid
                         && cfg.addressOf(step.payload.key) == Some(step.payload.sender)
                         && HeaderOk(nd.core.store, cfg.cluster, b);
            var good := step.evidence.Some? ==> ResultValid(step.evidence.value, b, step.resultOk);
            && (!takes ==> t == nd)
            && (takes && !(good && step.executes) ==>
                  t == nd.(core := nd.core.(store := StoreBlock(nd.core.store, b))))
            && (takes && good && step.executes ==>
                  exists s: Core :: && s.log == nd.core.log + [b.header]
                                    && IsExecuted(s.store, b.header.number, cfg.cluster)
                                    && t == Finalize(cfg, nd.(core := s), step.ask))
  {
    hide ChainOk, HeaderOk, StoreBlock, Finalize;
    var b := step.payload.block;
    StoreOnly(nd.core, b);
    if HeaderOk(nd.core.store, cfg.cluster, b) {
      AcceptKeepsChain(nd.core, cfg.cluster, b, step.executes);
      AcceptLogs(nd.core, cfg.cluster, b, step.executes);
      StoreExecutes(nd.core, cfg.cluster, b);
    }
  }

  lemma StoreExecutes(s: Core, c: Address, b: Block)
    requires ChainOk(s, c) && b.header.number >= 1 && HeaderOk(s.store, c, b)
    ensures b.header.cluster == c
    ensures IsExecuted(StoreBlock(s.store, b), b.header.number, c) <==> IsExecuted(s.store, b.header.number, c)
  {
    StoreKeepsLinks(s.store, c, b);
  }

  /** `t` is `nd` with the block in its entry, and an own aye for it behind the votes there. */
  ghost predicate BlockFiled(cfg: Config, nd: Node, t: Node, p: Payload) {
    var n := p.block.header.number;
    exists v :: && Approves(cfg, v, p.block.header)
                && t == nd.(pending := nd.pending[n := Pending(Entry(nd.pending, n).votes + [v],
                                                               Entry(nd.pending, n).results, Some(p))])
  }

  /**
   * The proposer's own path. Refused are a number that is stored or does not continue what
   * is pending, and malformed keys. For a number that is not pending, or pending with the
   * same block of another proposer, block and own aye are filed; for the same proposer's
   * the vote with the block's key goes out again; a conflicting block of another proposer
   * loses its whole entry.
   */
  lemma ProposeHandled(cfg: Config, nd: Node, p: Payload, authorised: bool)
    ensures var h, t := p.block.header, Next(cfg, nd, AddAndBroadcast(p, authorised));
            var n := h.number;
            var may := authorised && n !in nd.core.store.headers && (nd.pending == map[] || n - 1 in nd.pending);
            var held := if n in nd.pending then nd.pending[n].block else None;
            var theirs := if held.Some? then cfg.addressOf(held.value.key) else None;
            && (!may ==> t == nd)
            && (may && n !in nd.pending ==> BlockFiled(cfg, nd, t, p))
            && (may && n in nd.pending ==>
                  && (cfg.addressOf(p.key).None? || theirs.None? ==> t == nd)
                  && (cfg.addressOf(p.key).Some? && theirs.Some? ==>
                        && (theirs == cfg.addressOf(p.key) ==>
                              t == nd.(sent := nd.sent + Again(cfg, nd.pending[n].votes, p.key)))
                        && (theirs != cfg.addressOf(p.key) ==>
                              if held.value.block.header.hash != h.hash then t == nd.(pending := nd.pending - {n})
                              else BlockFiled(cfg, nd, t, p))))
  {
    var v, n := OwnVote(cfg, p.block.header), p.block.header.number;
    assert Approves(cfg, v, p.block.header);
    var entry := Pending(Entry(nd.pending, n).votes + [v], Entry(nd.pending, n).results, Some(p));
    assert AddBlock(AddVote(nd.pending, v), p) == nd.pending[n := entry];
    hide OwnIn;
  }

  /** The own vote among those, if the first with the key is one. */
  function Again(cfg: Config, votes: seq<Vote>, key: Key): seq<Vote> {
    if FirstVote(votes, key).None? then [] else OwnIn(cfg, [FirstVote(votes, key).value])
  }
}
