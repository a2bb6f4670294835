/**
 * The stored chain over whole runs of the handlers: headers 0 to the head, each linked to
 * its predecessor, executed in ascending order, and when a failed execution leaves a gap.
 */
module ConsensusChain {
  import opened Primitives
  import opened ChainStore
  import opened Consensus
  import opened ConsensusSafety
  import BlockBuilder

  function HeadNumber(s: Core, c: Address): BlockNumber { ChainState(s.store, c).number }

  /** Header `n` is filed under its number and names the hash of header `n - 1`. */
  ghost predicate LinkedAt(hs: map<BlockNumber, Header>, c: Address, n: BlockNumber) {
    && n in hs && hs[n].number == n && hs[n].cluster == c && hs[n].state == ZERO_HASH
    && (n >= 1 ==> n - 1 in hs && hs[n].parent == hs[n - 1].hash && hs[n - 1].timestamp <= hs[n].timestamp)
  }

  /** The same header up to the two columns that a row may lose. */
  predicate SameHeader(h: Header, row: Header) {
    h.(version := 0, epoch := 0) == row.(version := 0, epoch := 0)
  }

  /** Headers 0 to the head, linked, under the head's hash, each but genesis with a flag row. */
  ghost predicate Linked(st: Store, c: Address) {
    var head := ChainState(st, c);
    && (forall n: BlockNumber :: n in st.headers <==> n <= head.number)
    && (forall n: BlockNumber :: n <= head.number ==> LinkedAt(st.headers, c, n))
    && st.headers[head.number].hash == head.hash
    && (forall n :: 1 <= n <= head.number ==> (c, n) in st.executed)
  }

  ghost predicate LoggedAt(s: Core, c: Address, i: nat)
    requires i < |s.log|
  {
    var h := s.log[i];
    1 <= h.number <= HeadNumber(s, c) && h.number in s.store.headers && SameHeader(h, s.store.headers[h.number])
  }

  /** The executed headers are stored ones, in ascending order of number. */
  ghost predicate Logged(s: Core, c: Address) {
    && (forall i :: 0 <= i < |s.log| ==> LoggedAt(s, c, i))
    && (forall i, j :: 0 <= i < j < |s.log| ==> s.log[i].number < s.log[j].number)
  }

  ghost predicate ChainOk(s: Core, c: Address) { Linked(s.store, c) && Logged(s, c) && Once(s) && Flagged(s.store) }

  /** From `s` to `t`: nothing below the head of `s` gets executed any more. */
  ghost predicate PastSettled(s: Core, t: Core, c: Address) {
    && HeadNumber(s, c) <= HeadNumber(t, c)
    && (forall n: BlockNumber :: n < HeadNumber(s, c) ==> (IsExecuted(t.store, n, c) <==> IsExecuted(s.store, n, c)))
    && (forall n :: n in s.store.headers ==> n in t.store.headers && t.store.headers[n] == s.store.headers[n])
  }

  ghost predicate ChainSince(s: Core, t: Core, c: Address) { ChainOk(t, c) && Grown(s, t) && PastSettled(s, t, c) }

  // ------------------------------------------------------------ accepting one block

  lemma StoreKeepsLinks(st: Store, c: Address, b: Block)
    requires Linked(st, c) && b.header.number >= 1 && HeaderOk(st, c, b)
    ensures var t := StoreBlock(st, b);
            && Linked(t, c) && b.header.cluster == c && ChainState(t, c).number == b.header.number
            && SameHeader(b.header, t.headers[b.header.number])
            && ChainState(st, c).number <= b.header.number <= ChainState(st, c).number + 1
            && (forall n :: n in st.headers ==> n in t.headers && t.headers[n] == st.headers[n])
            && (forall n: BlockNumber, d: Address :: IsExecuted(t, n, d) <==> IsExecuted(st, n, d))
  {
    hide InsertTxs;
    var t := StoreBlock(st, b);
    var head := ChainState(st, c);
    assert LinkedAt(st.headers, c, head.number);
    if b.header.number == head.number + 1 {
      forall n: BlockNumber | n <= b.header.number ensures LinkedAt(t.headers, c, n) {
        assert n <= head.number ==> LinkedAt(st.headers, c, n);
      }
    } else {
      assert t.headers == st.headers && t.heads == st.heads && t.executed == st.executed;
    }
  }

  lemma LoggedBelow(s: Core, c: Address)
    requires Logged(s, c)
    ensures forall h :: h in s.log ==> 1 <= h.number <= HeadNumber(s, c)
  {
    forall i | 0 <= i < |s.log| ensures 1 <= s.log[i].number <= HeadNumber(s, c) {
      assert LoggedAt(s, c, i);
    }
  }

  lemma LoggedExecuted(s: Core, c: Address, i: nat)
    requires ChainOk(s, c) && i < |s.log|
    ensures IsExecuted(s.store, s.log[i].number, c)
  {
    var n := s.log[i].number;
    assert LoggedAt(s, c, i);
    assert s.log[i] in s.log;
    assert (s.log[i].cluster, n) in Done(s.log);
    assert LinkedAt(s.store.headers, c, n);
  }

  /** The log survives a store that keeps the headers, with or without one more header at its end. */
  lemma LogSurvives(s: Core, t: Core, c: Address)
    requires Logged(s, c) && s.log == t.log && HeadNumber(s, c) <= HeadNumber(t, c)
    requires forall n :: n in s.store.headers ==> n in t.store.headers && t.store.headers[n] == s.store.headers[n]
    ensures Logged(t, c)
  {
    forall i | 0 <= i < |t.log| ensures LoggedAt(t, c, i) {
      assert LoggedAt(s, c, i);
    }
  }

  lemma LogAppends(s: Core, c: Address, h: Header)
    requires Logged(s, c) && 1 <= h.number <= HeadNumber(s, c) && h.number in s.store.headers
    requires SameHeader(h, s.store.headers[h.number]) && forall i :: 0 <= i < |s.log| ==> s.log[i].number < h.number
    ensures Logged(s.(log := s.log + [h]), c)
  {
    var t := s.(log := s.log + [h]);
    forall i | 0 <= i < |t.log| ensures LoggedAt(t, c, i) {
      assert i < |s.log| ==> LoggedAt(s, c, i);
    }
  }

  lemma SetKeepsLinks(st: Store, c: Address, n: BlockNumber)
    requires Linked(st, c)
    ensures Linked(SetExecuted(st, n, c), c)
    ensures forall m: BlockNumber :: m != n ==> (IsExecuted(SetExecuted(st, n, c), m, c) <==> IsExecuted(st, m, c))
  {
    assert forall m: BlockNumber :: m <= ChainState(st, c).number ==> LinkedAt(st.headers, c, m);
  }

  lemma ExecuteKeepsChain(s: Core, c: Address, h: Header, ok: bool)
    requires ChainOk(s, c) && h.cluster == c && h.number == HeadNumber(s, c) >= 1
    requires h.number in s.store.headers && SameHeader(h, s.store.headers[h.number])
    ensures ChainSince(s, Execute(s, h, ok).core, c)
    ensures Execute(s, h, ok).ok <==> IsExecuted(Execute(s, h, ok).core.store, h.number, c)
  {
    ExecuteOnce(s, h, ok);
    SetKeepsLinks(s.store, c, h.number);
    var t := Execute(s, h, ok).core;
    if !IsExecuted(s.store, h.number, c) && ok {
      forall i | 0 <= i < |s.log| ensures s.log[i].number < h.number {
        LoggedExecuted(s, c, i);
        assert LoggedAt(s, c, i);
      }
      hide Linked, Once;
      LogAppends(s, c, h);
      LogSurvives(s.(log := s.log + [h]), t, c);
    }
  }

  lemma AcceptKeepsChain(s: Core, c: Address, b: Block, ok: bool)
    requires ChainOk(s, c) && b.header.number >= 1 && HeaderOk(s.store, c, b)
    ensures ChainSince(s, Accept(s, b, ok).core, c)
    ensures HeadNumber(Accept(s, b, ok).core, c) == b.header.number
    ensures Accept(s, b, ok).ok <==> IsExecuted(Accept(s, b, ok).core.store, b.header.number, c)
  {
    var put := s.(store := StoreBlock(s.store, b));
    StoreKeepsLinks(s.store, c, b);
    AcceptOnce(s, b, false);
    StoreOnly(s, b);
    hide StoreBlock, HeaderOk;
    LogSurvives(s, put, c);
    hide Linked, Logged;
    ExecuteKeepsChain(put, c, b.header, ok);
    hide Execute, ChainOk;
    GrownTransitive(s, put, Accept(s, b, ok).core);
  }

  /** What accepting a block adds to the log. */
  lemma AcceptLogs(s: Core, c: Address, b: Block, ok: bool)
    requires ChainOk(s, c) && b.header.number >= 1 && HeaderOk(s.store, c, b)
    ensures var done := Accept(s, b, ok);
            && done.ok == (ok || IsExecuted(s.store, b.header.number, c))
            && done.core.log
               == if done.ok && !IsExecuted(s.store, b.header.number, c) then s.log + [b.header] else s.log
  {
    StoreKeepsLinks(s.store, c, b);
    hide StoreBlock;
  }

  // --------------------------------------------------------------- whole runs

  lemma ChainTransitive(s: Core, t: Core, u: Core, c: Address)
    requires ChainSince(s, t, c) && ChainSince(t, u, c)
    ensures ChainSince(s, u, c)
  {
    hide ChainOk;
    GrownTransitive(s, t, u);
  }

  lemma ChainReflexive(s: Core, c: Address)
    requires ChainOk(s, c)
    ensures ChainSince(s, s, c)
  {
  }

  lemma ChainClosed(s: Core, c: Address)
    requires ChainOk(s, c)
    ensures Closed(c, false, t => ChainSince(s, t, c))
  {
    var inv: Core -> bool := t => ChainSince(s, t, c);
    hide ChainSince, HeaderOk, Accept;
    forall t: Core, b: Block, ok: bool | inv(t) && b.header.number >= 1 && HeaderOk(t.store, c, b)
      ensures inv(Accept(t, b, ok).core)
    {
      SinceOk(s, t, c);
      AcceptKeepsChain(t, c, b, ok);
      ChainTransitive(s, t, Accept(t, b, ok).core, c);
    }
  }

  lemma SinceOk(s: Core, t: Core, c: Address)
    requires ChainSince(s, t, c)
    ensures ChainOk(t, c)
  {
  }

  /** Every run keeps the chain linked, its headers fixed, its log ascending and its past settled. */
  lemma RunChain(cfg: Config, nd: Node, steps: seq<Step>)
    requires Filed(nd.pending) && ChainOk(nd.core, cfg.cluster)
    requires forall i :: 0 <= i < |steps| ==> Numbered(steps[i])
    ensures var t := Run(cfg, nd, steps); ChainSince(nd.core, t.core, cfg.cluster) && Filed(t.pending)
  {
    hide Run, ChainSince;
    ChainReflexive(nd.core, cfg.cluster);
    ChainClosed(nd.core, cfg.cluster);
    RunKeeps(cfg, nd, steps, false, t => ChainSince(nd.core, t, cfg.cluster));
  }

  lemma GenesisChain(c: Address)
    ensures ChainOk(GenesisCore(c), c) && Filed(Genesis(c).pending)
    ensures var head := HeadHeader(GenesisCore(c).store, c);
            && head.Some? && head.value.number == 0 && head.value.hash == ZERO_HASH && head.value.epoch == 1
            && GenesisCore(c).log == [] && forall n: BlockNumber :: !IsExecuted(GenesisCore(c).store, n, c)
  {
    GenesisOnce(c);
    assert LinkedAt(GenesisCore(c).store.headers, c, 0);
  }

  lemma StoredUpToHead(s: Core, c: Address, n: BlockNumber)
    requires ChainOk(s, c) && n <= HeadNumber(s, c)
    ensures n in s.store.headers
  {
  }

  /** An executed number is in the log. */
  lemma LogIndex(s: Core, c: Address, n: BlockNumber) returns (j: nat)
    requires ChainOk(s, c) && IsExecuted(s.store, n, c)
    ensures j < |s.log| && s.log[j].number == n
  {
    assert (c, n) in Done(s.log);
    var h :| h in s.log && (h.cluster, h.number) == (c, n);
    j :| 0 <= j < |s.log| && s.log[j] == h;
  }

  lemma LogOrder(s: Core, c: Address, j: nat, i: nat)
    requires ChainOk(s, c) && j < |s.log| && i < |s.log| && s.log[j].number < s.log[i].number
    ensures j < i
  {
  }

  // -------------------------------------------------------------------- gaps

  /** Every block below the head is executed. */
  ghost predicate Gapless(s: Core, c: Address) {
    forall n: BlockNumber :: 1 <= n < HeadNumber(s, c) ==> IsExecuted(s.store, n, c)
  }

  /**
   * Accepting a block leaves a gap behind exactly when it goes on top of a head that is
   * neither genesis nor executed.
   */
  lemma AcceptGapless(s: Core, c: Address, b: Block, ok: bool)
    requires ChainOk(s, c) && Gapless(s, c) && b.header.number >= 1 && HeaderOk(s.store, c, b)
    ensures Gapless(Accept(s, b, ok).core, c)
        <==> (b.header.number == HeadNumber(s, c) || HeadNumber(s, c) == 0 || IsExecuted(s.store, HeadNumber(s, c), c))
  {
    hide Accept, ChainOk, Grown;
    var t := Accept(s, b, ok).core;
    var k := HeadNumber(s, c);
    AcceptKeepsChain(s, c, b, ok);
    AcceptedNumber(s, c, b);
    if b.header.number != k {
      OnlyOwnNumber(s, c, b, ok, k);
    }
  }

  lemma OnlyOwnNumber(s: Core, c: Address, b: Block, ok: bool, n: BlockNumber)
    requires ChainOk(s, c) && b.header.number >= 1 && HeaderOk(s.store, c, b) && n != b.header.number
    ensures IsExecuted(Accept(s, b, ok).core.store, n, c) <==> IsExecuted(s.store, n, c)
  {
    StoreKeepsLinks(s.store, c, b);
    hide StoreBlock;
  }

  /** The log is exactly the blocks 1 to the head, in order. */
  ghost predicate Complete(s: Core, c: Address) {
    |s.log| == HeadNumber(s, c) && forall i :: 0 <= i < |s.log| ==> s.log[i].number == i + 1
  }

  ghost predicate CompleteChain(s: Core, c: Address) { ChainOk(s, c) && Complete(s, c) }

  lemma AcceptComplete(s: Core, c: Address, b: Block)
    requires CompleteChain(s, c) && b.header.number >= 1 && HeaderOk(s.store, c, b)
    ensures CompleteChain(Accept(s, b, true).core, c)
  {
    hide Accept, ChainOk, ChainSince;
    AcceptKeepsChain(s, c, b, true);
    SinceOk(s, Accept(s, b, true).core, c);
    AcceptLogs(s, c, b, true);
    AcceptedNumber(s, c, b);
    var k := HeadNumber(s, c);
    if b.header.number == k {
      LoggedExecuted(s, c, k - 1);
    } else {
      NotLogged(s, c, k + 1);
    }
  }

  lemma AcceptedNumber(s: Core, c: Address, b: Block)
    requires ChainOk(s, c) && HeaderOk(s.store, c, b)
    ensures HeadNumber(s, c) <= b.header.number <= HeadNumber(s, c) + 1
  {
    assert LinkedAt(s.store.headers, c, HeadNumber(s, c));
  }

  lemma NotLogged(s: Core, c: Address, n: BlockNumber)
    requires ChainOk(s, c) && n > HeadNumber(s, c)
    ensures !IsExecuted(s.store, n, c)
  {
    LoggedBelow(s, c);
  }

  /** While no execution fails, the executed blocks are exactly 1 to the head, in order, and there is no gap. */
  lemma SucceedingRunsComplete(cfg: Config, steps: seq<Step>)
    requires forall i :: 0 <= i < |steps| ==> Numbered(steps[i]) && Succeeding(steps[i])
    ensures var s := Run(cfg, Genesis(cfg.cluster), steps).core;
            CompleteChain(s, cfg.cluster) && Gapless(s, cfg.cluster)
  {
    var c := cfg.cluster;
    var s := Run(cfg, Genesis(c), steps).core;
    GenesisChain(c);
    assert CompleteChain(GenesisCore(c), c);
    CompleteClosed(c);
    hide Run, ChainOk, Complete;
    RunKeeps(cfg, Genesis(c), steps, true, t => CompleteChain(t, c));
    CompleteGapless(s, c);
  }

  lemma CompleteGapless(s: Core, c: Address)
    requires CompleteChain(s, c)
    ensures Gapless(s, c)
  {
    forall n: BlockNumber | 1 <= n < HeadNumber(s, c) ensures IsExecuted(s.store, n, c) {
      LoggedExecuted(s, c, n - 1);
    }
  }

  lemma CompleteClosed(c: Address)
    ensures Closed(c, true, t => CompleteChain(t, c))
  {
    var inv: Core -> bool := t => CompleteChain(t, c);
    hide CompleteChain, HeaderOk, Accept;
    forall t: Core, b: Block, ok: bool | inv(t) && b.header.number >= 1 && HeaderOk(t.store, c, b) && ok
      ensures inv(Accept(t, b, ok).core)
    {
      AcceptComplete(t, c, b);
    }
  }

  // ---------------------------------------------------------------- proposals

  /**
   * What `create_block` builds on a reachable chain passes the validators' header check
   * exactly when its time does not run backwards and its transaction count fits i32.
   */
  lemma ProposalPassesIff(s: Core, c: Address, q: BlockBuilder.Request, epochOf: BlockBuilder.EpochOf,
                          hashOf: BlockBuilder.HashOf)
    requires ChainOk(s, c)
    ensures HeaderOk(s.store, c, BlockBuilder.CreateBlock(s.store, c, q, epochOf, hashOf))
        <==> s.store.headers[HeadNumber(s, c)].timestamp <= q.timestamp && |q.txs| <= I32_MAX
  {
    assert LinkedAt(s.store.headers, c, HeadNumber(s, c));
  }
}
