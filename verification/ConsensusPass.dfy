/**
 * One finalisation pass: it finalises a prefix of the ascending pending numbers, in
 * order, and keeps what the other entries hold.
 */
module ConsensusPass {
  import opened Primitives
  import opened ChainStore
  import opened Consensus
  import opened ConsensusSafety
  import opened ConsensusChain

  /** Same block and results, and the earlier votes still in front. */
  ghost predicate Keeps(p: Pending, q: Pending) {
    p.votes <= q.votes && p.results == q.results && p.block == q.block
  }

  ghost predicate EntriesKept(m: PendingMap, m': PendingMap) {
    m.Keys == m'.Keys && forall n :: n in m ==> Keeps(m[n], m'[n])
  }

  /** Execution in a pass: `f` is done, the number after it is not, and only `f` was logged. */
  ghost predicate PassCore(c: Address, s: Core, t: Core, ns: seq<BlockNumber>, f: seq<BlockNumber>)
    requires f <= ns
  {
    && ChainSince(s, t, c)
    && (forall k :: k in f ==> IsExecuted(t.store, k, c))
    && (|f| < |ns| ==> !IsExecuted(t.store, ns[|f|], c))
    && NewIn(s, t, f)
  }

  ghost predicate NewIn(s: Core, t: Core, f: seq<BlockNumber>) {
    s.log <= t.log && forall h :: h in t.log[|s.log|..] ==> h.number in f
  }

  /** Only the finalised numbers and the one after them may have gained a vote. */
  ghost predicate PassEntries(m: PendingMap, m': PendingMap, ns: seq<BlockNumber>, f: seq<BlockNumber>) {
    EntriesKept(m, m') && forall n :: n in m && n !in f && (|f| < |ns| ==> n != ns[|f|]) ==> m'[n] == m[n]
  }

  ghost predicate PassOk(c: Address, nd: Node, ns: seq<BlockNumber>, p: Pass) {
    && p.finalised <= ns && Filed(p.node.pending)
    && PassCore(c, nd.core, p.node.core, ns, p.finalised)
    && PassEntries(nd.pending, p.node.pending, ns, p.finalised)
  }

  // ------------------------------------------------------------- one attempt

  lemma CastKeeps(cfg: Config, nd: Node, n: BlockNumber, h: Header)
    requires n in nd.pending && Filed(nd.pending)
    ensures var t := CastVote(cfg, nd, n, h);
            && t.core == nd.core && Filed(t.pending) && EntriesKept(nd.pending, t.pending)
            && forall m :: m in nd.pending && m != n ==> t.pending[m] == nd.pending[m]
  {
  }

  /** The core went from `s` to `t` in trying block `n`. */
  ghost predicate TriedOk(c: Address, s: Core, n: BlockNumber, t: Core, ok: bool) {
    && ChainSince(s, t, c)
    && (ok <==> IsExecuted(t.store, n, c))
    && NewIn(s, t, if ok then [n] else [])
  }

  /** One attempt executes its block exactly when it succeeds, and touches no other entry. */
  lemma TryOneEffect(cfg: Config, nd: Node, n: BlockNumber, a: Answers)
    requires n in nd.pending && Filed(nd.pending) && ChainOk(nd.core, cfg.cluster)
    requires !IsExecuted(nd.core.store, n, cfg.cluster)
    ensures var t := TryOne(cfg, nd, n, a);
            && TriedOk(cfg.cluster, nd.core, n, t.node.core, t.ok)
            && Filed(t.node.pending) && EntriesKept(nd.pending, t.node.pending)
            && (forall m :: m in nd.pending && m != n ==> t.node.pending[m] == nd.pending[m])
  {
    hide Accept, HeaderOk, ChainOk, CastVote, Carried, TriedOk, Filed, EntriesKept;
    var p := nd.pending[n];
    NothingTried(nd, cfg.cluster, n);
    EntriesSame(nd.pending);
    if p.block.Some? {
      FiledAt(nd.pending, n);
      var b := p.block.value.block;
      CastKeeps(cfg, nd, n, b.header);
      if HeaderOk(nd.core.store, cfg.cluster, b) {
        AcceptTried(nd, cfg.cluster, b, a.executes);
      }
    }
  }

  lemma EntriesSame(m: PendingMap)
    ensures EntriesKept(m, m)
  {
  }

  lemma NothingTried(nd: Node, c: Address, n: BlockNumber)
    requires ChainOk(nd.core, c) && !IsExecuted(nd.core.store, n, c)
    ensures TriedOk(c, nd.core, n, nd.core, false)
  {
    ChainReflexive(nd.core, c);
  }

  lemma AcceptTried(nd: Node, c: Address, b: Block, ok: bool)
    requires ChainOk(nd.core, c) && b.header.number >= 1 && HeaderOk(nd.core.store, c, b)
    requires !IsExecuted(nd.core.store, b.header.number, c)
    ensures var done := Accept(nd.core, b, ok);
            TriedOk(c, nd.core, b.header.number, done.core, done.ok)
  {
    hide StoreBlock, ChainSince, HeaderOk, ChainOk;
    AcceptKeepsChain(nd.core, c, b, ok);
    AcceptLogs(nd.core, c, b, ok);
    assert (nd.core.log + [b.header])[|nd.core.log|..] == [b.header];
  }

  // ---------------------------------------------------------------- the loop

  lemma CoreCons(c: Address, s: Core, mid: Core, t: Core, ns: seq<BlockNumber>, f: seq<BlockNumber>)
    requires ns != [] && f <= ns[1..] && ChainSince(s, mid, c) && IsExecuted(mid.store, ns[0], c)
    requires NewIn(s, mid, [ns[0]]) && PassCore(c, mid, t, ns[1..], f)
    ensures [ns[0]] + f <= ns && PassCore(c, s, t, ns, [ns[0]] + f)
  {
    hide ChainOk, PastSettled;
    ChainTransitive(s, mid, t, c);
    assert t.log[|s.log|..] == mid.log[|s.log|..] + t.log[|mid.log|..];
    assert |f| + 1 < |ns| ==> ns[|f| + 1] == ns[1..][|f|];
  }

  lemma EntriesCons(m: PendingMap, mid: PendingMap, m': PendingMap, ns: seq<BlockNumber>, f: seq<BlockNumber>)
    requires ns != [] && f <= ns[1..] && EntriesKept(m, mid) && PassEntries(mid, m', ns[1..], f)
    requires forall n :: n in m && n != ns[0] ==> mid[n] == m[n]
    ensures PassEntries(m, m', ns, [ns[0]] + f)
  {
    assert |f| + 1 < |ns| ==> ns[|f| + 1] == ns[1..][|f|];
    forall n | n in m ensures Keeps(m[n], m'[n]) {
      assert Keeps(m[n], mid[n]) && Keeps(mid[n], m'[n]);
    }
  }

  lemma {:induction false} PassEffect(cfg: Config, nd: Node, ns: seq<BlockNumber>, ask: Oracle)
    requires forall i :: 0 <= i < |ns| ==> ns[i] in nd.pending
    requires Filed(nd.pending) && ChainOk(nd.core, cfg.cluster)
    ensures PassOk(cfg.cluster, nd, ns, RunPass(cfg, nd, ns, ask))
    decreases |ns|
  {
    hide ChainOk, ChainSince, Filed, TryOne, PassOk, EntriesKept, NewIn;
    var c := cfg.cluster;
    ChainReflexive(nd.core, c);
    EntriesSame(nd.pending);
    NothingNew(nd.core);
    if ns == [] {
      PassStops(c, nd, nd, ns);
    } else if IsExecuted(nd.core.store, ns[0], c) {
      PassEffect(cfg, nd, ns[1..], ask);
      NewMore(nd.core, nd.core, ns[0]);
      PassCons(cfg, nd, nd, ns, ask);
    } else {
      var one := TryOne(cfg, nd, ns[0], ask(ns[0]));
      TryOneEffect(cfg, nd, ns[0], ask(ns[0]));
      if one.ok {
        SinceOk(nd.core, one.node.core, c);
        KeysKept(nd.pending, one.node.pending);
        PassEffect(cfg, one.node, ns[1..], ask);
        PassCons(cfg, nd, one.node, ns, ask);
      } else {
        PassStops(c, nd, one.node, ns);
      }
    }
  }

  lemma KeysKept(m: PendingMap, m': PendingMap)
    requires EntriesKept(m, m')
    ensures m.Keys == m'.Keys
  {
  }

  lemma NothingNew(s: Core)
    ensures NewIn(s, s, [])
  {
  }

  lemma NewMore(s: Core, t: Core, n: BlockNumber)
    requires NewIn(s, t, [])
    ensures NewIn(s, t, [n])
  {
  }

  lemma PassStops(c: Address, nd: Node, t: Node, ns: seq<BlockNumber>)
    requires ChainSince(nd.core, t.core, c) && Filed(t.pending) && NewIn(nd.core, t.core, [])
    requires EntriesKept(nd.pending, t.pending)
    requires forall n :: n in nd.pending && (ns == [] || n != ns[0]) ==> t.pending[n] == nd.pending[n]
    requires ns != [] ==> !IsExecuted(t.core.store, ns[0], c)
    ensures PassOk(c, nd, ns, Pass(t, []))
  {
    hide ChainSince, Filed, NewIn;
  }

  lemma PassCons(cfg: Config, nd: Node, mid: Node, ns: seq<BlockNumber>, ask: Oracle)
    requires ns != [] && (forall i :: 1 <= i < |ns| ==> ns[i] in mid.pending)
    requires ChainSince(nd.core, mid.core, cfg.cluster) && IsExecuted(mid.core.store, ns[0], cfg.cluster)
    requires NewIn(nd.core, mid.core, [ns[0]]) && EntriesKept(nd.pending, mid.pending)
    requires forall n :: n in nd.pending && n != ns[0] ==> mid.pending[n] == nd.pending[n]
    requires PassOk(cfg.cluster, mid, ns[1..], RunPass(cfg, mid, ns[1..], ask))
    ensures var rest := RunPass(cfg, mid, ns[1..], ask);
            PassOk(cfg.cluster, nd, ns, Pass(rest.node, [ns[0]] + rest.finalised))
  {
    hide RunPass, PassCore, PassEntries, Filed, ChainSince, NewIn, EntriesKept;
    var rest := RunPass(cfg, mid, ns[1..], ask);
    CoreCons(cfg.cluster, nd.core, mid.core, rest.node.core, ns, rest.finalised);
    EntriesCons(nd.pending, mid.pending, rest.node.pending, ns, rest.finalised);
  }

  // ------------------------------------------------------------ the whole pass

  /** When header `log[i]` was executed, every smaller pending number had been executed before. */
  ghost predicate InOrder(c: Address, s: Core, t: Core, pending: set<BlockNumber>, i: nat)
    requires i < |t.log|
  {
    forall k :: k in pending && k < t.log[i].number
      ==> IsExecuted(s.store, k, c) || exists j :: |s.log| <= j < i && t.log[j].number == k
  }

  /**
   * A pass removes exactly a prefix of the ascending pending numbers, all executed, and
   * stops at one that is not; it executes each number after every smaller pending one;
   * the entries it retains keep their block, their results and their votes in order, and
   * only the first of them may have gained a vote.
   */
  lemma FinalizePass(cfg: Config, nd: Node, ask: Oracle)
    requires Filed(nd.pending) && ChainOk(nd.core, cfg.cluster)
    ensures var ns := Ascending(nd.pending.Keys);
            var f := RunPass(cfg, nd, ns, ask).finalised;
            var t := Finalize(cfg, nd, ask);
            && f <= ns && t.pending.Keys == Elements(ns[|f|..])
            && PassCore(cfg.cluster, nd.core, t.core, ns, f)
            && (forall n :: n in t.pending ==> Keeps(nd.pending[n], t.pending[n])
                                               && (n != ns[|f|] ==> t.pending[n] == nd.pending[n]))
            && (forall i :: |nd.core.log| <= i < |t.core.log|
                  ==> InOrder(cfg.cluster, nd.core, t.core, nd.pending.Keys, i))
  {
    hide ChainOk, ChainSince, Filed, NewIn, RunPass;
    var ns := Ascending(nd.pending.Keys);
    PassEffect(cfg, nd, ns, ask);
    var p := RunPass(cfg, nd, ns, ask);
    var f := p.finalised;
    RetainedKeys(ns, f);
    forall i | |nd.core.log| <= i < |p.node.core.log|
      ensures InOrder(cfg.cluster, nd.core, p.node.core, nd.pending.Keys, i)
    {
      ExecutedInOrder(cfg.cluster, nd.core, p.node.core, ns, f, i);
      OrderOfKeys(cfg.cluster, nd.core, p.node.core, nd.pending.Keys, Elements(ns), i);
    }
  }

  lemma OrderOfKeys(c: Address, s: Core, t: Core, a: set<BlockNumber>, b: set<BlockNumber>, i: nat)
    requires i < |t.log| && a <= b && InOrder(c, s, t, b, i)
    ensures InOrder(c, s, t, a, i)
  {
  }

  lemma RetainedKeys(ns: seq<BlockNumber>, f: seq<BlockNumber>)
    requires f <= ns && Increasing(ns)
    ensures Elements(ns) - Elements(f) == Elements(ns[|f|..])
    ensures forall n :: n in Elements(ns[|f|..]) ==> |f| < |ns| && n !in f
  {
    assert ns == f + ns[|f|..];
    forall n | n in ns[|f|..] ensures n !in f {
      var j :| |f| <= j < |ns| && ns[j] == n;
      assert forall i :: 0 <= i < |f| ==> f[i] == ns[i] < n;
    }
  }

  lemma ExecutedInOrder(c: Address, s: Core, t: Core, ns: seq<BlockNumber>, f: seq<BlockNumber>, i: nat)
    requires f <= ns && Increasing(ns) && ChainOk(s, c) && PassCore(c, s, t, ns, f) && |s.log| <= i < |t.log|
    ensures InOrder(c, s, t, Elements(ns), i)
  {
    hide ChainOk, PastSettled, Grown;
    var m := t.log[i].number;
    assert t.log[i] in t.log[|s.log|..];
    forall k | k in ns && k < m
      ensures IsExecuted(s.store, k, c) || exists j :: |s.log| <= j < i && t.log[j].number == k
    {
      BeforeInList(ns, f, m, k);
      var j := LogIndex(t, c, k);
      LogOrder(t, c, j, i);
      if j < |s.log| {
        LoggedExecuted(s, c, j);
      }
    }
  }

  lemma BeforeInList(ns: seq<BlockNumber>, f: seq<BlockNumber>, m: BlockNumber, k: BlockNumber)
    requires f <= ns && Increasing(ns) && m in f && k in ns && k < m
    ensures k in f
  {
    var a :| 0 <= a < |f| && f[a] == m;
    var b :| 0 <= b < |ns| && ns[b] == k;
    assert b < a && f[b] == k;
  }

  // ----------------------------------------------------------------- stuck passes

  /** The entry's own data allow its block to be finalised: the answers decide the rest. */
  predicate Ready(cfg: Config, st: Store, p: Pending) {
    && p.block.Some? && p.block.value.block.header.kind != SystemBlock && HeaderOk(st, cfg.cluster, p.block.value.block)
    && p.results != []
    && forall i :: 0 <= i < |p.results| ==> ResultValid(p.results[i], p.block.value.block, r => true)
  }

  const AGREE: Answers :=
    Answers(true, true, true, false, false, (r: VoteResult) => true, (r: VoteResult) => Some(true), true, true)

  lemma ReadyTried(cfg: Config, nd: Node, n: BlockNumber)
    requires n in nd.pending && Filed(nd.pending) && ChainOk(nd.core, cfg.cluster)
    requires Ready(cfg, nd.core.store, nd.pending[n])
    ensures TryOne(cfg, nd, n, AGREE).ok
  {
    hide ChainOk, Accept, HeaderOk;
    var p := nd.pending[n];
    var b := p.block.value.block;
    FiledAt(nd.pending, n);
    AcceptLogs(nd.core, cfg.cluster, b, true);
    assert FirstVerdict(p.results, AGREE.passes, 0);
  }

  lemma TriedReady(cfg: Config, nd: Node, n: BlockNumber, a: Answers)
    requires n in nd.pending && TryOne(cfg, nd, n, a).ok
    ensures Ready(cfg, nd.core.store, nd.pending[n])
  {
    hide Accept, HeaderOk, CastVote;
  }

  lemma FirstRemoved(cfg: Config, nd: Node, m: BlockNumber, ask: Oracle)
    requires IsLeast(nd.pending.Keys, m)
    requires IsExecuted(nd.core.store, m, cfg.cluster) || TryOne(cfg, nd, m, ask(m)).ok
    ensures m !in Finalize(cfg, nd, ask).pending
  {
    hide TryOne, Ascending;
    FirstIsLeast(nd.pending.Keys, m);
    assert RunPass(cfg, nd, Ascending(nd.pending.Keys), ask).finalised[0] == m;
  }

  lemma FirstKept(cfg: Config, nd: Node, m: BlockNumber, ask: Oracle)
    requires IsLeast(nd.pending.Keys, m)
    requires !IsExecuted(nd.core.store, m, cfg.cluster) && !TryOne(cfg, nd, m, ask(m)).ok
    ensures m in Finalize(cfg, nd, ask).pending
  {
    FirstIsLeast(nd.pending.Keys, m);
    KeepsKeys(cfg, nd, m, ask(m));
    hide TryOne;
    var p := RunPass(cfg, nd, Ascending(nd.pending.Keys), ask);
    assert p == Pass(TryOne(cfg, nd, m, ask(m)).node, []);
  }

  lemma KeepsKeys(cfg: Config, nd: Node, n: BlockNumber, a: Answers)
    requires n in nd.pending
    ensures TryOne(cfg, nd, n, a).node.pending.Keys == nd.pending.Keys
  {
    hide Accept, HeaderOk, Carried;
  }

  /** A pass gets past its least pending number, for some answers, exactly if that is executed or ready. */
  lemma PassableIff(cfg: Config, nd: Node, m: BlockNumber)
    requires Filed(nd.pending) && ChainOk(nd.core, cfg.cluster) && IsLeast(nd.pending.Keys, m)
    ensures (exists ask :: m !in Finalize(cfg, nd, ask).pending)
        <==> IsExecuted(nd.core.store, m, cfg.cluster) || Ready(cfg, nd.core.store, nd.pending[m])
  {
    hide ChainOk, Ready, TryOne, Finalize;
    if IsExecuted(nd.core.store, m, cfg.cluster) || Ready(cfg, nd.core.store, nd.pending[m]) {
      var ask: Oracle := (n: BlockNumber) => AGREE;
      if !IsExecuted(nd.core.store, m, cfg.cluster) {
        ReadyTried(cfg, nd, m);
      }
      FirstRemoved(cfg, nd, m, ask);
    } else {
      forall ask: Oracle ensures m in Finalize(cfg, nd, ask).pending {
        if TryOne(cfg, nd, m, ask(m)).ok {
          TriedReady(cfg, nd, m, ask(m));
        }
        FirstKept(cfg, nd, m, ask);
      }
    }
  }

  lemma FirstIsLeast(s: set<BlockNumber>, m: BlockNumber)
    requires IsLeast(s, m)
    ensures Ascending(s) != [] && Ascending(s)[0] == m
  {
  }

  /** An unexecuted entry at genesis or below the head. */
  ghost predicate Stuck(cfg: Config, nd: Node, n: BlockNumber) {
    && Filed(nd.pending) && ChainOk(nd.core, cfg.cluster)
    && n in nd.pending && !IsExecuted(nd.core.store, n, cfg.cluster)
    && (n == 0 || n < HeadNumber(nd.core, cfg.cluster))
  }

  lemma LowTry(cfg: Config, nd: Node, k: BlockNumber, a: Answers)
    requires k in nd.pending && Filed(nd.pending) && ChainOk(nd.core, cfg.cluster)
    requires k == 0 || k < HeadNumber(nd.core, cfg.cluster)
    ensures TryOne(cfg, nd, k, a) == Attempt(nd, false)
  {
    hide ChainOk, HeaderOk, Accept;
    var p := nd.pending[k];
    if p.block.Some? && HeaderOk(nd.core.store, cfg.cluster, p.block.value.block) {
      FiledAt(nd.pending, k);
      AcceptedNumber(nd.core, cfg.cluster, p.block.value.block);
    }
  }

  lemma {:induction false} LowPass(cfg: Config, nd: Node, ns: seq<BlockNumber>, ask: Oracle, n: BlockNumber)
    requires Stuck(cfg, nd, n) && n in ns && Increasing(ns) && forall i :: 0 <= i < |ns| ==> ns[i] in nd.pending
    ensures RunPass(cfg, nd, ns, ask).node == nd
    decreases |ns|
  {
    hide ChainOk, TryOne;
    assert ns[0] <= n;
    if IsExecuted(nd.core.store, ns[0], cfg.cluster) {
      LowPass(cfg, nd, ns[1..], ask, n);
    } else {
      LowTry(cfg, nd, ns[0], ask(ns[0]));
    }
  }

  /** While an entry is stuck, a pass can only remove entries below it: it changes nothing else. */
  lemma StuckPass(cfg: Config, nd: Node, ask: Oracle, n: BlockNumber)
    requires Stuck(cfg, nd, n)
    ensures var t := Finalize(cfg, nd, ask);
            && t.core == nd.core && t.sent == nd.sent && t.elected == nd.elected && Stuck(cfg, t, n)
            && t.pending.Keys <= nd.pending.Keys
            && forall k :: k in nd.pending && k >= n ==> k in t.pending && t.pending[k] == nd.pending[k]
  {
    hide ChainOk, RunPass, PassEntries;
    var ns := Ascending(nd.pending.Keys);
    LowPass(cfg, nd, ns, ask, n);
    PassEffect(cfg, nd, ns, ask);
    var f := RunPass(cfg, nd, ns, ask).finalised;
    forall k | k in f ensures k < n {
      if k >= n {
        BeforeOrSame(ns, f, k, n);
      }
    }
  }

  lemma BeforeOrSame(ns: seq<BlockNumber>, f: seq<BlockNumber>, m: BlockNumber, k: BlockNumber)
    requires f <= ns && Increasing(ns) && m in f && k in ns && k <= m
    ensures k in f
  {
    if k < m {
      BeforeInList(ns, f, m, k);
    }
  }

  lemma StuckAdd(cfg: Config, nd: Node, m: PendingMap, n: BlockNumber)
    requires Stuck(cfg, nd, n) && Filed(m) && n in m
    ensures Stuck(cfg, nd.(pending := m), n)
  {
  }

  lemma AcceptStuck(cfg: Config, nd: Node, b: Block, ok: bool, n: BlockNumber)
    requires Stuck(cfg, nd, n) && b.header.number >= 1 && HeaderOk(nd.core.store, cfg.cluster, b)
    ensures Stuck(cfg, nd.(core := Accept(nd.core, b, ok).core), n)
  {
    hide ChainOk, Accept, HeaderOk, Grown;
    AcceptKeepsChain(nd.core, cfg.cluster, b, ok);
    SinceOk(nd.core, Accept(nd.core, b, ok).core, cfg.cluster);
    AcceptedNumber(nd.core, cfg.cluster, b);
    OnlyOwnNumber(nd.core, cfg.cluster, b, ok, n);
  }

  lemma StepStuck(cfg: Config, nd: Node, step: Step, n: BlockNumber)
    requires Stuck(cfg, nd, n) && Numbered(step)
    ensures Stuck(cfg, Next(cfg, nd, step), n)
  {
    hide ChainOk, Finalize, HeaderOk, Accept, StoreBlock, AddBlock, AddVote, AddResult, Filed;
    match step
    case ReceiveValidateBlock(p, authorised, ask) =>
      FiledAddBlock(nd.pending, p);
      AddKeys(nd.pending, p, OwnVote(cfg, p.block.header));
      StuckAdd(cfg, nd, AddBlock(nd.pending, p), n);
      StuckPass(cfg, nd.(pending := AddBlock(nd.pending, p)), ask, n);
    case ReceiveVote(v, _, _, tally, ask) =>
      VoteStuck(cfg, nd, step, n);
    case ReceiveVoteResult(r, ask) =>
      FiledAddResult(nd.pending, r);
      ResultKeys(nd.pending, r);
      StuckAdd(cfg, nd, AddResult(nd.pending, r), n);
      StuckPass(cfg, nd.(pending := AddResult(nd.pending, r)), ask, n);
    case ReceiveBlock(p, _, evidence, resultOk, executes, ask) =>
      StoreOnly(nd.core, p.block);
      if HeaderOk(nd.core.store, cfg.cluster, p.block) {
        AcceptStuck(cfg, nd, p.block, false, n);
        AcceptStuck(cfg, nd, p.block, executes, n);
        StuckPass(cfg, nd.(core := Accept(nd.core, p.block, executes).core), ask, n);
      }
    case AddAndBroadcast(p, authorised) =>
      ProposeStuck(cfg, nd, p, authorised, n);
  }

  lemma AddKeys(m: PendingMap, p: Payload, v: Vote)
    ensures m.Keys <= AddBlock(m, p).Keys && m.Keys <= AddVote(m, v).Keys && m.Keys <= AddBlock(AddVote(m, v), p).Keys
  {
  }

  lemma ResultKeys(m: PendingMap, r: VoteResult)
    ensures m.Keys <= AddResult(m, r).Keys
  {
  }

  lemma VoteStuck(cfg: Config, nd: Node, step: Step, n: BlockNumber)
    requires Stuck(cfg, nd, n) && step.ReceiveVote?
    ensures Stuck(cfg, Next(cfg, nd, step), n)
  {
    hide ChainOk, Finalize, AddResult, Filed, VoteResultOf;
    var pending := AddVote(nd.pending, step.vote);
    FiledAddVote(nd.pending, step.vote);
    StuckAdd(cfg, nd, pending, n);
    var r := VoteResultOf(cfg, pending[step.vote.number].votes, step.tally);
    if r.Some? {
      FiledAddResult(pending, r.value);
      ResultKeys(pending, r.value);
      var counted := nd.(pending := AddResult(pending, r.value));
      StuckAdd(cfg, nd, AddResult(pending, r.value), n);
      StuckPass(cfg, Publish(cfg, counted, r.value, step.vote), step.ask, n);
    }
  }

  lemma ProposeStuck(cfg: Config, nd: Node, p: Payload, authorised: bool, n: BlockNumber)
    requires Stuck(cfg, nd, n) && p.block.header.number >= 1
    ensures Stuck(cfg, OnPropose(cfg, nd, p, authorised), n)
  {
    hide ChainOk, AddBlock, AddVote, Filed;
    var v := OwnVote(cfg, p.block.header);
    FiledPropose(nd.pending, v, p);
    AddKeys(nd.pending, p, v);
    StuckAdd(cfg, nd, AddBlock(AddVote(nd.pending, v), p), n);
    if MayPropose(nd, p.block.header.number) {
      StoredUpToHead(nd.core, cfg.cluster, n);
      StuckAdd(cfg, nd, nd.pending - {p.block.header.number}, n);
    }
  }

  /** Once an entry is stuck, no pass ever executes, stores, votes or elects again. */
  lemma {:induction false} StuckForever(cfg: Config, nd: Node, steps: seq<Step>, n: BlockNumber)
    requires Stuck(cfg, nd, n) && forall i :: 0 <= i < |steps| ==> Numbered(steps[i])
    ensures Stuck(cfg, Run(cfg, nd, steps), n)
    ensures forall ask :: Finalize(cfg, Run(cfg, nd, steps), ask).core == Run(cfg, nd, steps).core
    decreases |steps|
  {
    hide Stuck, Next, Finalize;
    if steps != [] {
      StuckForever(cfg, nd, steps[..|steps| - 1], n);
      StepStuck(cfg, Run(cfg, nd, steps[..|steps| - 1]), steps[|steps| - 1], n);
    }
    var t := Run(cfg, nd, steps);
    forall ask: Oracle ensures Finalize(cfg, t, ask).core == t.core {
      StuckPass(cfg, t, ask, n);
    }
  }

  /** One vote result for genesis, or for an unexecuted block below the head, is enough. */
  lemma VoteResultSticks(cfg: Config, nd: Node, r: VoteResult, ask: Oracle)
    requires Filed(nd.pending) && ChainOk(nd.core, cfg.cluster) && !IsExecuted(nd.core.store, r.number, cfg.cluster)
    requires r.number == 0 || r.number < HeadNumber(nd.core, cfg.cluster)
    ensures Stuck(cfg, Next(cfg, nd, ReceiveVoteResult(r, ask)), r.number)
  {
    hide ChainOk, Finalize;
    FiledAddResult(nd.pending, r);
    StuckPass(cfg, nd.(pending := AddResult(nd.pending, r)), ask, r.number);
  }
}
