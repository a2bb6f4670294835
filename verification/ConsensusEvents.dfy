/**
 * Handlers and start-ups together: a node handles messages, restarts, synchronises and
 * handles messages again. Which batches keep the chain, which states are reachable, and
 * which blocks can still be executed.
 */
module ConsensusEvents {
  import opened Primitives
  import opened ChainStore
  import opened Consensus
  import opened Synchronisation
  import opened ConsensusSafety
  import opened ConsensusChain

  // ----------------------------------------------------------- storing a batch

  /** Numbers above the head, strictly ascending. */
  ghost predicate Rising(bs: seq<Block>, head: BlockNumber)
    decreases |bs|
  {
    bs == [] || (bs[0].header.number > head && Rising(bs[1..], bs[0].header.number))
  }

  /** Header `h` continues the chain after `last`. */
  predicate Follows(last: Header, c: Address, h: Header) {
    && h.number == last.number + 1 && h.cluster == c && h.state == ZERO_HASH
    && h.parent == last.hash && last.timestamp <= h.timestamp
  }

  /** The blocks link onto `last`, one after another. */
  predicate Joins(last: Header, c: Address, bs: seq<Block>)
    decreases |bs|
  {
    bs == [] || (Follows(last, c, bs[0].header) && Joins(bs[0].header, c, bs[1..]))
  }

  function HeadRow(st: Store, c: Address): Header
    requires ChainState(st, c).number in st.headers
  {
    st.headers[ChainState(st, c).number]
  }

  lemma FollowingKeepsLinks(st: Store, c: Address, b: Block)
    requires Linked(st, c) && Follows(HeadRow(st, c), c, b.header)
    ensures var t := StoreBlock(st, b);
            && Linked(t, c) && ChainState(t, c).number == ChainState(st, c).number + 1
            && HeadRow(t, c) == HeaderRow(b.header)
  {
    hide InsertTxs;
    var t := StoreBlock(st, b);
    var head := ChainState(st, c).number;
    assert LinkedAt(st.headers, c, head);
    forall n: BlockNumber | n <= head + 1 ensures LinkedAt(t.headers, c, n) {
      assert n <= head ==> LinkedAt(st.headers, c, n);
    }
  }

  lemma {:induction false} JoinsRow(h: Header, c: Address, bs: seq<Block>)
    ensures Joins(HeaderRow(h), c, bs) == Joins(h, c, bs)
  {
  }

  lemma {:induction false} JoiningKeepsLinks(st: Store, c: Address, bs: seq<Block>)
    requires Linked(st, c) && Joins(HeadRow(st, c), c, bs)
    ensures Linked(StoreAll(st, bs), c) && Contiguous(bs, c, ChainState(st, c).number + 1)
    ensures ChainState(StoreAll(st, bs), c).number == ChainState(st, c).number + |bs|
    decreases |bs|
  {
    hide Linked, StoreBlock;
    if bs != [] {
      assert HeadRow(st, c).number == ChainState(st, c).number by {
        HeadRowNumber(st, c);
      }
      FollowingKeepsLinks(st, c, bs[0]);
      JoinsRow(bs[0].header, c, bs[1..]);
      JoiningKeepsLinks(StoreBlock(st, bs[0]), c, bs[1..]);
    }
  }

  lemma HeadRowNumber(st: Store, c: Address)
    requires Linked(st, c)
    ensures ChainState(st, c).number in st.headers && HeadRow(st, c).number == ChainState(st, c).number
  {
    assert LinkedAt(st.headers, c, ChainState(st, c).number);
  }

  // the other direction

  lemma {:induction false} InsertedAbove(hs: map<BlockNumber, Header>, bs: seq<Block>, head: BlockNumber)
    requires Rising(bs, head)
    ensures var hs' := InsertHeaders(hs, bs);
            && (forall n :: n in hs ==> n in hs' && hs'[n] == hs[n])
            && (forall n :: n in hs' && n !in hs ==> n > head)
    decreases |bs|
  {
    if bs != [] {
      InsertedAbove(InsertHeader(hs, bs[0].header), bs[1..], bs[0].header.number);
    }
  }

  ghost predicate AllBack(hs: map<BlockNumber, Header>, c: Address) {
    forall n: BlockNumber :: n in hs ==> LinkedAt(hs, c, n)
  }

  lemma BackAt(hs: map<BlockNumber, Header>, c: Address, n: BlockNumber)
    requires AllBack(hs, c) && n in hs
    ensures LinkedAt(hs, c, n)
  {
  }

  /** If every header links back, a rising batch must have joined. */
  lemma {:induction false} LinkedBack(hs: map<BlockNumber, Header>, c: Address, last: Header, bs: seq<Block>)
    requires Rising(bs, last.number) && last.number in hs
    requires hs[last.number].hash == last.hash && hs[last.number].timestamp == last.timestamp
    requires forall n :: n in hs ==> n <= last.number
    requires AllBack(InsertHeaders(hs, bs), c)
    ensures Joins(last, c, bs)
    decreases |bs|
  {
    hide AllBack;
    if bs != [] {
      var h, rest := bs[0].header, bs[1..];
      var hs1, hs' := InsertHeader(hs, h), InsertHeaders(hs, bs);
      assert hs' == InsertHeaders(hs1, rest);
      InsertedAbove(hs1, rest, h.number);
      assert hs1[h.number] == HeaderRow(h) && h.number in hs' && hs'[h.number] == HeaderRow(h);
      BackAt(hs', c, h.number);
      assert hs'[last.number] == hs[last.number];
      assert h.number - 1 in hs1;
      LinkedBack(hs1, c, h, rest);
    }
  }

  lemma AllLinked(st: Store, c: Address)
    requires Linked(st, c)
    ensures AllBack(st.headers, c) && forall n :: n in st.headers ==> n <= ChainState(st, c).number
  {
    forall n: BlockNumber | n in st.headers ensures LinkedAt(st.headers, c, n) {
      assert n <= ChainState(st, c).number;
    }
  }

  lemma {:induction false} FlagsStay(e: map<(Address, BlockNumber), bool>, bs: seq<Block>)
    ensures e.Keys <= InsertFlags(e, bs).Keys
    decreases |bs|
  {
    if bs != [] {
      FlagsStay(InsertFlag(e, bs[0].header), bs[1..]);
    }
  }

  lemma MalformedKeepsLinks(st: Store, c: Address, bs: seq<Block>)
    requires Linked(st, c) && bs != [] && !BatchOk(bs)
    ensures Linked(BatchStore(st, bs), c) && ChainState(BatchStore(st, bs), c) == ChainState(st, c)
  {
    hide InsertFlags, BatchOk;
    FlagsStay(st.executed, bs);
  }

  // ------------------------------------------------- batches in any numbers

  /** The first block of each number above `head`, in a sorted batch: the headers that it adds. */
  function Fresh(bs: seq<Block>, head: BlockNumber): (r: seq<Block>)
    ensures Rising(r, head) && forall b :: b in r ==> b in bs
    decreases |bs|
  {
    if bs == [] then []
    else if bs[0].header.number > head then [bs[0]] + Fresh(bs[1..], bs[0].header.number)
    else Fresh(bs[1..], head)
  }

  lemma TailSorted(bs: seq<Block>)
    requires bs != [] && Sorted(bs)
    ensures Sorted(bs[1..]) && forall b :: b in bs[1..] ==> bs[0].header.number <= b.header.number
  {
    forall b | b in bs[1..] ensures bs[0].header.number <= b.header.number {
      var i :| 0 <= i < |bs[1..]| && bs[1..][i] == b;
      assert bs[i + 1] == b;
    }
  }

  lemma {:induction false} InsertFresh(hs: map<BlockNumber, Header>, bs: seq<Block>, head: BlockNumber)
    requires Sorted(bs) && (forall n :: n in hs ==> n <= head)
    requires forall b :: b in bs && b.header.number <= head ==> b.header.number in hs
    ensures InsertHeaders(hs, bs) == InsertHeaders(hs, Fresh(bs, head))
    decreases |bs|
  {
    if bs != [] {
      TailSorted(bs);
      var h := bs[0].header;
      assert bs[0] in bs;
      if h.number > head {
        InsertFresh(InsertHeader(hs, h), bs[1..], h.number);
        assert ([bs[0]] + Fresh(bs[1..], h.number))[1..] == Fresh(bs[1..], h.number);
      } else {
        forall b | b in bs[1..] ensures b in bs {
        }
        InsertFresh(hs, bs[1..], head);
      }
    }
  }

  lemma FreshCons(bs: seq<Block>, head: BlockNumber)
    requires bs != []
    ensures Fresh(bs, head) == if bs[0].header.number > head then [bs[0]] + Fresh(bs[1..], bs[0].header.number)
                               else Fresh(bs[1..], head)
  {
  }

  lemma LastOfTail(bs: seq<Block>)
    requires |bs| > 1 && Sorted(bs)
    ensures bs[1..][|bs[1..]| - 1] == bs[|bs| - 1] && bs[0].header.number <= bs[|bs| - 1].header.number
    ensures Sorted(bs[1..])
  {
  }

  /** The last block of a sorted batch has the number of the last fresh one, if there is one. */
  lemma {:induction false} FreshLast(bs: seq<Block>, head: BlockNumber)
    requires bs != [] && Sorted(bs)
    ensures var r, last := Fresh(bs, head), bs[|bs| - 1].header.number;
            if r == [] then last <= head else last > head && r[|r| - 1].header.number == last
    decreases |bs|
  {
    hide Fresh, Sorted, Rising;
    FreshCons(bs, head);
    if |bs| == 1 {
      assert Fresh(bs[1..], bs[0].header.number) == [] == Fresh(bs[1..], head) by {
        NoneFresh(bs[1..]);
      }
    } else {
      LastOfTail(bs);
      FreshLast(bs[1..], if bs[0].header.number > head then bs[0].header.number else head);
    }
  }

  lemma NoneFresh(bs: seq<Block>)
    requires bs == []
    ensures forall head :: Fresh(bs, head) == []
  {
  }

  /** The hash at the top of the chain once the fresh headers are stored. */
  function TopHash(st: Store, c: Address, fresh': seq<Block>): Hash {
    if fresh' == [] then ChainState(st, c).hash else fresh'[|fresh'| - 1].header.hash
  }

  /**
   * The fresh blocks link onto the head one after another, and the last block of all, which
   * becomes its cluster's head, is the top of the chain that results, by number and hash.
   */
  predicate Extends(st: Store, c: Address, bs: seq<Block>)
    requires bs != []
  {
    var head, last := ChainState(st, c).number, bs[|bs| - 1].header;
    && head in st.headers && Joins(HeadRow(st, c), c, Fresh(bs, head))
    && (if last.cluster == c then last.number >= head && last.hash == TopHash(st, c, Fresh(bs, head))
        else last.number <= head)
  }

  lemma {:induction false} FlagKeys(e: map<(Address, BlockNumber), bool>, bs: seq<Block>)
    ensures forall k :: k in InsertFlags(e, bs)
                        <==> k in e || exists b :: b in bs && k == (b.header.cluster, b.header.number)
    decreases |bs|
  {
    if bs != [] {
      FlagKeys(InsertFlag(e, bs[0].header), bs[1..]);
      assert bs == [bs[0]] + bs[1..];
    }
  }

  /** Linking is about one head, the headers and the flag rows. */
  lemma LinkedMore(st: Store, t: Store, c: Address)
    requires Linked(st, c) && ChainState(st, c) == ChainState(t, c) && st.headers == t.headers
    requires st.executed.Keys <= t.executed.Keys
    ensures Linked(t, c)
  {
  }

  lemma FlagsOfFresh(e: map<(Address, BlockNumber), bool>, bs: seq<Block>, head: BlockNumber)
    ensures InsertFlags(e, Fresh(bs, head)).Keys <= InsertFlags(e, bs).Keys
  {
    FlagKeys(e, bs);
    FlagKeys(e, Fresh(bs, head));
  }

  lemma StoreFresh(st: Store, c: Address, bs: seq<Block>)
    requires Linked(st, c) && Sorted(bs)
    ensures InsertHeaders(st.headers, bs) == InsertHeaders(st.headers, Fresh(bs, ChainState(st, c).number))
  {
    InsertFresh(st.headers, bs, ChainState(st, c).number);
  }

  lemma ExtendingKeepsLinks(st: Store, c: Address, bs: seq<Block>)
    requires Linked(st, c) && bs != [] && Sorted(bs) && BatchOk(bs) && Extends(st, c, bs)
    ensures Linked(BatchStore(st, bs), c) && ChainState(st, c).number <= ChainState(BatchStore(st, bs), c).number
  {
    hide Linked, Joins, InsertHeaders, InsertFlags, InsertFlat, Flatten, BatchOk, StoreAll, Fresh, Sorted, InsertBlocks;
    var head := ChainState(st, c).number;
    var r, t := Fresh(bs, head), BatchStore(st, bs);
    FreshLast(bs, head);
    StoreFresh(st, c, bs);
    FlagsOfFresh(st.executed, bs, head);
    JoiningKeepsLinks(st, c, r);
    StoreAllTables(st, r);
    if r == [] {
      assert StoreAll(st, r) == st by {
        NothingStored(st);
      }
    } else {
      StoreAllHead(st, r, c);
    }
    LinkedMore(StoreAll(st, r), t, c);
  }

  lemma NothingStored(st: Store)
    ensures StoreAll(st, []) == st
  {
  }

  lemma LinkedExtends(st: Store, c: Address, bs: seq<Block>)
    requires Linked(st, c) && bs != [] && Sorted(bs) && BatchOk(bs) && Linked(BatchStore(st, bs), c)
    ensures Extends(st, c, bs)
  {
    hide Joins, InsertFlags, InsertFlat, Flatten, BatchOk, Fresh, Sorted, LinkedAt, AllBack;
    var head := ChainState(st, c).number;
    var r, t := Fresh(bs, head), BatchStore(st, bs);
    HeadRowNumber(st, c);
    AllLinked(st, c);
    AllLinked(t, c);
    StoreFresh(st, c, bs);
    LinkedBack(st.headers, c, HeadRow(st, c), r);
    FreshLast(bs, head);
    HeadersStay(st.headers, r);
    if r != [] {
      LastInserted(st.headers, r, head);
    }
  }

  lemma {:induction false} LastInserted(hs: map<BlockNumber, Header>, bs: seq<Block>, head: BlockNumber)
    requires bs != [] && Rising(bs, head) && forall n :: n in hs ==> n <= head
    ensures var last := bs[|bs| - 1].header;
            last.number in InsertHeaders(hs, bs) && InsertHeaders(hs, bs)[last.number] == HeaderRow(last)
    decreases |bs|
  {
    var h := bs[0].header;
    if |bs| == 1 {
      assert bs[1..] == [];
    } else {
      LastInserted(InsertHeader(hs, h), bs[1..], h.number);
    }
  }

  /**
   * A downloaded batch, whatever is in it, keeps the stored chain a chain exactly when its
   * fresh blocks link onto the head and its last block is the top of the result, or when a
   * malformed key makes it store no header.
   */
  lemma BatchKeepsChainIff(st: Store, c: Address, bs: seq<Block>)
    requires Linked(st, c) && bs != []
    ensures var sorted := SortBlocks(bs);
            Linked(BatchStore(st, sorted), c) <==> !BatchOk(sorted) || Extends(st, c, sorted)
  {
    hide Linked, BatchStore, BatchOk, Extends;
    var sorted := SortBlocks(bs);
    if !BatchOk(sorted) {
      MalformedKeepsLinks(st, c, sorted);
    } else if Extends(st, c, sorted) {
      ExtendingKeepsLinks(st, c, sorted);
    } else if Linked(BatchStore(st, sorted), c) {
      LinkedExtends(st, c, sorted);
    }
  }

  /** For numbers above the head, each once, that is: the batch links onto the head. */
  lemma RisingExtends(st: Store, c: Address, bs: seq<Block>)
    requires Linked(st, c) && bs != [] && Rising(bs, ChainState(st, c).number)
    ensures Extends(st, c, bs) <==> Joins(HeadRow(st, c), c, bs)
  {
    hide Linked, Joins;
    HeadRowNumber(st, c);
    FreshOfRising(bs, ChainState(st, c).number);
    if Joins(HeadRow(st, c), c, bs) {
      JoinedCluster(HeadRow(st, c), c, bs);
    }
  }

  lemma {:induction false} FreshOfRising(bs: seq<Block>, head: BlockNumber)
    requires Rising(bs, head)
    ensures Fresh(bs, head) == bs && (bs != [] ==> bs[|bs| - 1].header.number > head)
    decreases |bs|
  {
    if bs != [] {
      FreshOfRising(bs[1..], bs[0].header.number);
    }
  }

  lemma {:induction false} JoinedCluster(last: Header, c: Address, bs: seq<Block>)
    requires bs != [] && Joins(last, c, bs)
    ensures bs[|bs| - 1].header.cluster == c
    decreases |bs|
  {
    if |bs| > 1 {
      JoinedCluster(bs[0].header, c, bs[1..]);
    }
  }

  /** A batch that ends below the head drags the head row back, under headers that stay. */
  lemma HeadGoesBack(st: Store, c: Address, bs: seq<Block>)
    requires Linked(st, c) && bs != [] && BatchOk(SortBlocks(bs))
    requires forall b :: b in bs ==> b.header.cluster == c && b.header.number < ChainState(st, c).number
    ensures var t := BatchStore(st, SortBlocks(bs));
            ChainState(t, c).number < ChainState(st, c).number && t.headers == st.headers && !Linked(t, c)
  {
    hide Linked, SortBlocks, BatchOk;
    var sorted := SortBlocks(bs);
    assert sorted[|sorted| - 1] in sorted;
    StoreFresh(st, c, sorted);
    NothingFresh(sorted, ChainState(st, c).number);
    BatchKeepsChainIff(st, c, bs);
  }

  lemma {:induction false} NothingFresh(bs: seq<Block>, head: BlockNumber)
    requires forall b :: b in bs ==> b.header.number <= head
    ensures Fresh(bs, head) == []
    decreases |bs|
  {
    if bs != [] {
      assert bs[0] in bs;
      NothingFresh(bs[1..], head);
    }
  }

  // ------------------------------------------------------------------ sessions

  /** From `s` to `t`: still a chain, at least as long, with a longer log and no flag reset. */
  ghost predicate Later(s: Core, t: Core, c: Address) {
    ChainOk(t, c) && Grown(s, t) && HeadNumber(s, c) <= HeadNumber(t, c)
  }

  lemma LaterTransitive(s: Core, t: Core, u: Core, c: Address)
    requires Later(s, t, c) && Later(t, u, c)
    ensures Later(s, u, c)
  {
    hide ChainOk;
    GrownTransitive(s, t, u);
  }

  lemma LaterReflexive(s: Core, c: Address)
    requires ChainOk(s, c)
    ensures Later(s, s, c)
  {
  }

  lemma LaterOk(s: Core, t: Core, c: Address)
    requires Later(s, t, c)
    ensures ChainOk(t, c)
  {
  }

  lemma {:induction false} HeadersStay(hs: map<BlockNumber, Header>, bs: seq<Block>)
    ensures forall n :: n in hs ==> n in InsertHeaders(hs, bs) && InsertHeaders(hs, bs)[n] == hs[n]
    decreases |bs|
  {
    if bs != [] {
      HeadersStay(InsertHeader(hs, bs[0].header), bs[1..]);
    }
  }

  /** The batch stores no header, or extends the chain. */
  predicate MayStore(st: Store, c: Address, bs: seq<Block>) {
    bs == [] || !BatchOk(SortBlocks(bs)) || Extends(st, c, SortBlocks(bs))
  }

  lemma StoreBatchChain(s: Core, c: Address, bs: seq<Block>)
    requires ChainOk(s, c) && bs != [] && MayStore(s.store, c, bs)
    ensures var t := s.(store := BatchStore(s.store, SortBlocks(bs)));
            Later(s, t, c) && forall n: BlockNumber :: IsExecuted(t.store, n, c) <==> IsExecuted(s.store, n, c)
  {
    var sorted := SortBlocks(bs);
    var t := s.(store := BatchStore(s.store, sorted));
    SyncStoreOnce(s, sorted);
    HeadersStay(s.store.headers, sorted);
    hide Extends, SortBlocks;
    if BatchOk(sorted) {
      ExtendingKeepsLinks(s.store, c, sorted);
    } else {
      MalformedKeepsLinks(s.store, c, sorted);
    }
    LogSurvives(s, t, c);
  }

  /** No block from `n` on is executed. */
  ghost predicate NoneFrom(s: Core, c: Address, n: BlockNumber) {
    forall m: BlockNumber :: n <= m ==> !IsExecuted(s.store, m, c)
  }

  lemma ExecuteStoredChain(s: Core, c: Address, n: BlockNumber, ok: bool)
    requires ChainOk(s, c) && n >= 1 && n in s.store.headers && NoneFrom(s, c, n)
    ensures var done := Execute(s, RowHeader(s.store.headers[n]), ok);
            && Later(s, done.core, c) && done.ok == ok && HeadNumber(done.core, c) == HeadNumber(s, c)
            && (forall m: BlockNumber ::
                  IsExecuted(done.core.store, m, c) == (IsExecuted(s.store, m, c) || (ok && m == n)))
  {
    assert LinkedAt(s.store.headers, c, n);
    var h := RowHeader(s.store.headers[n]);
    var t := Execute(s, h, ok).core;
    ExecuteOnce(s, h, ok);
    SetKeepsLinks(s.store, c, n);
    if ok {
      forall i | 0 <= i < |s.log| ensures s.log[i].number < n {
        LoggedExecuted(s, c, i);
      }
      hide Linked, Once;
      LogAppends(s, c, h);
      LogSurvives(s.(log := s.log + [h]), t, c);
    }
  }

  /** A session executes a stored block exactly when it is valid, its parent is executed and it does not fail. */
  lemma SyncExecutesIff(cfg: Config, s: Core, n: BlockNumber, valid: bool, executes: bool)
    requires ChainOk(s, cfg.cluster) && n >= 1 && n in s.store.headers && !IsExecuted(s.store, n, cfg.cluster)
    ensures var done := SyncExecuteOne(cfg, s, n, valid, executes);
            && (done.ok <==> valid && executes && (n == 1 || IsExecuted(s.store, n - 1, cfg.cluster)))
            && (IsExecuted(done.core.store, n, cfg.cluster) <==> done.ok) && (!done.ok ==> done.core == s)
            && (done.ok ==> |done.core.log| == |s.log| + 1 && done.core.log[|s.log|].number == n)
  {
    assert LinkedAt(s.store.headers, cfg.cluster, n);
    SetExecutedIff(s.store, n, cfg.cluster);
  }

  /** A session goes on after a success, ends after a failure, and waits for what is not stored. */
  lemma SyncProgresses(cfg: Config, p: Progress, valid: bool, executes: bool)
    requires p.next.Some?
    ensures var n, q := p.next.value, SyncNext(cfg, p, ExecuteNext(valid, executes));
            && (n !in p.core.store.headers ==> q == p)
            && (n in p.core.store.headers ==>
                  var done := SyncExecuteOne(cfg, p.core, n, valid, executes);
                  q.core == done.core && q.next == if done.ok then Some(n + 1) else None)
  {
  }

  /** A session in progress: everything executed lies below the number it executes next. */
  ghost predicate ProgressOk(p: Progress, c: Address) {
    ChainOk(p.core, c) && (p.next.Some? ==> p.next.value >= 1 && NoneFrom(p.core, c, p.next.value))
  }

  lemma {:induction false} ScanAbove(st: Store, c: Address, n: BlockNumber)
    ensures Scan(st, c, n).Some? ==> forall m: BlockNumber :: Scan(st, c, n).value < m <= n ==> !IsExecuted(st, m, c)
    decreases n
  {
    if !IsExecuted(st, n, c) && n > 0 && n - 1 != 1 {
      ScanAbove(st, c, n - 1);
    }
  }

  lemma StartOk(s: Core, c: Address)
    requires ChainOk(s, c)
    ensures ProgressOk(Progress(s, SyncStart(s.store, c)), c)
  {
    hide ChainOk;
    var head := HeadNumber(s, c);
    ScanAbove(s.store, c, head);
    forall m: BlockNumber | m > head ensures !IsExecuted(s.store, m, c) {
      NotLogged(s, c, m);
    }
  }

  predicate MayTake(p: Progress, c: Address, step: SyncStep) {
    step.StoreBatch? ==> MayStore(p.core.store, c, step.blocks)
  }

  lemma SyncNextChain(cfg: Config, p: Progress, step: SyncStep)
    requires ProgressOk(p, cfg.cluster) && MayTake(p, cfg.cluster, step)
    ensures var q := SyncNext(cfg, p, step); ProgressOk(q, cfg.cluster) && Later(p.core, q.core, cfg.cluster)
  {
    hide ChainOk, MayStore, BatchStore, Execute, Later;
    var c := cfg.cluster;
    LaterReflexive(p.core, c);
    match step
    case StoreBatch(bs) =>
      if bs != [] {
        StoreBatchChain(p.core, c, bs);
        LaterOk(p.core, p.core.(store := BatchStore(p.core.store, SortBlocks(bs))), c);
      }
    case ExecuteNext(valid, executes) =>
      if p.next.Some? && p.next.value in p.core.store.headers {
        var n := p.next.value;
        ExecuteStoredChain(p.core, c, n, executes);
        LaterOk(p.core, Execute(p.core, RowHeader(p.core.store.headers[n]), executes).core, c);
      }
  }

  /** Every batch of the session stores no header or extends the chain it finds. */
  predicate SyncJoins(cfg: Config, p: Progress, steps: seq<SyncStep>)
    decreases |steps|
  {
    steps == [] || (MayTake(p, cfg.cluster, steps[0]) && SyncJoins(cfg, SyncNext(cfg, p, steps[0]), steps[1..]))
  }

  lemma {:induction false} SyncRunChain(cfg: Config, p: Progress, steps: seq<SyncStep>)
    requires ProgressOk(p, cfg.cluster) && SyncJoins(cfg, p, steps)
    ensures Later(p.core, SyncRun(cfg, p, steps).core, cfg.cluster)
    decreases |steps|
  {
    hide ProgressOk, Later, SyncNext, MayTake;
    if steps == [] {
      ProgressChain(p, cfg.cluster);
      LaterReflexive(p.core, cfg.cluster);
    } else {
      var q := SyncNext(cfg, p, steps[0]);
      SyncNextChain(cfg, p, steps[0]);
      SyncRunChain(cfg, q, steps[1..]);
      LaterTransitive(p.core, q.core, SyncRun(cfg, q, steps[1..]).core, cfg.cluster);
    }
  }

  lemma ProgressChain(p: Progress, c: Address)
    requires ProgressOk(p, c)
    ensures ChainOk(p.core, c)
  {
  }

  // ------------------------------------------------------------------ whole runs

  /** A numbered message, or a start-up whose batches extend the chain they find. */
  ghost predicate Ruled(cfg: Config, nd: Node, e: Event) {
    match e
    case Handle(step) => Numbered(step)
    case Startup(steps) => SyncJoins(cfg, Progress(nd.core, SyncStart(nd.core.store, cfg.cluster)), steps)
    case _ => false
  }

  ghost predicate RuledRun(cfg: Config, nd: Node, es: seq<Event>)
    decreases |es|
  {
    es == [] || (RuledRun(cfg, nd, es[..|es| - 1])
                 && Ruled(cfg, RunEvents(cfg, nd, es[..|es| - 1]), es[|es| - 1]))
  }

  lemma EventChain(cfg: Config, nd: Node, e: Event)
    requires Filed(nd.pending) && ChainOk(nd.core, cfg.cluster) && Ruled(cfg, nd, e)
    ensures var t := OnEvent(cfg, nd, e); Filed(t.pending) && Later(nd.core, t.core, cfg.cluster)
  {
    hide ChainOk, Next, SyncRun, SyncJoins, ChainSince, ProgressOk;
    match e
    case Handle(step) =>
      HandleChain(cfg, nd, step);
    case Startup(steps) =>
      StartOk(nd.core, cfg.cluster);
      SyncRunChain(cfg, Progress(nd.core, SyncStart(nd.core.store, cfg.cluster)), steps);
  }

  lemma HandleChain(cfg: Config, nd: Node, step: Step)
    requires Filed(nd.pending) && ChainOk(nd.core, cfg.cluster) && Numbered(step)
    ensures var t := Next(cfg, nd, step); Filed(t.pending) && Later(nd.core, t.core, cfg.cluster)
  {
    hide ChainOk, Next;
    RunChain(cfg, nd, [step]);
    assert [step][..0] == [];
    assert Run(cfg, nd, [step]) == Next(cfg, nd, step);
  }

  /** Over every run of messages and start-ups the stored chain stays a chain and only grows. */
  lemma {:induction false} EventsChain(cfg: Config, nd: Node, es: seq<Event>)
    requires Filed(nd.pending) && ChainOk(nd.core, cfg.cluster) && RuledRun(cfg, nd, es)
    ensures var t := RunEvents(cfg, nd, es); Filed(t.pending) && Later(nd.core, t.core, cfg.cluster)
    decreases |es|
  {
    hide ChainOk, OnEvent, Ruled, Filed, Later;
    if es == [] {
      LaterReflexive(nd.core, cfg.cluster);
    } else {
      var before := RunEvents(cfg, nd, es[..|es| - 1]);
      EventsChain(cfg, nd, es[..|es| - 1]);
      LaterOk(nd.core, before.core, cfg.cluster);
      EventChain(cfg, before, es[|es| - 1]);
      LaterTransitive(nd.core, before.core, OnEvent(cfg, before, es[|es| - 1]).core, cfg.cluster);
    }
  }

  /**
   * From genesis, through messages, restarts and synchronisation whose batches extend
   * the chain: headers 0 to the head are linked, and the executed blocks are stored ones in
   * ascending order, each once.
   */
  lemma ReachableChain(cfg: Config, es: seq<Event>)
    requires RuledRun(cfg, Genesis(cfg.cluster), es)
    ensures ChainOk(RunEvents(cfg, Genesis(cfg.cluster), es).core, cfg.cluster)
  {
    hide RunEvents, RuledRun, ChainOk;
    GenesisChain(cfg.cluster);
    EventsChain(cfg, Genesis(cfg.cluster), es);
  }

  // ------------------------------------------------- what can still be executed

  ghost predicate AnyDone(s: Core, c: Address) { exists m: BlockNumber :: IsExecuted(s.store, m, c) }

  ghost predicate DoneAbove(s: Core, c: Address, n: BlockNumber) {
    exists m: BlockNumber :: m > n && IsExecuted(s.store, m, c)
  }

  /**
   * Block `n` is executed, or nothing above it is and either it is not below the head or
   * there is an executed block from which a start-up can go on.
   */
  ghost predicate Executable(s: Core, c: Address, n: BlockNumber) {
    IsExecuted(s.store, n, c) || (!DoneAbove(s, c, n) && (AnyDone(s, c) || n >= HeadNumber(s, c)))
  }

  /** An executed block is in the log, and the log ascends: nothing below it follows. */
  lemma AboveStays(s: Core, t: Core, c: Address, n: BlockNumber)
    requires ChainOk(s, c) && Later(s, t, c) && !IsExecuted(s.store, n, c) && DoneAbove(s, c, n)
    ensures !IsExecuted(t.store, n, c) && DoneAbove(t, c, n)
  {
    hide ChainOk;
    var m: BlockNumber :| m > n && IsExecuted(s.store, m, c);
    assert IsExecuted(t.store, m, c);
    if IsExecuted(t.store, n, c) {
      var i := LogIndex(s, c, m);
      var j := LogIndex(t, c, n);
      assert t.log[i] == s.log[i];
      LogOrder(t, c, j, i);
      LoggedExecuted(s, c, j);
    }
  }

  lemma AcceptDead(s: Core, c: Address, b: Block, ok: bool, n: BlockNumber)
    requires ChainOk(s, c) && b.header.number >= 1 && HeaderOk(s.store, c, b) && !Executable(s, c, n)
    ensures var t := Accept(s, b, ok).core; ChainOk(t, c) && !Executable(t, c, n)
  {
    hide ChainOk, Accept, HeaderOk, Grown;
    var t := Accept(s, b, ok).core;
    AcceptKeepsChain(s, c, b, ok);
    SinceOk(s, t, c);
    AcceptedNumber(s, c, b);
    if DoneAbove(s, c, n) {
      SinceLater(s, t, c);
      AboveStays(s, t, c, n);
    } else {
      forall m: BlockNumber | m != b.header.number ensures IsExecuted(t.store, m, c) <==> IsExecuted(s.store, m, c) {
        OnlyOwnNumber(s, c, b, ok, m);
      }
    }
  }

  lemma SinceLater(s: Core, t: Core, c: Address)
    requires ChainSince(s, t, c)
    ensures Later(s, t, c)
  {
  }

  ghost predicate DeadChain(s: Core, c: Address, n: BlockNumber) { ChainOk(s, c) && !Executable(s, c, n) }

  lemma DeadClosed(c: Address, n: BlockNumber)
    ensures Closed(c, false, t => DeadChain(t, c, n))
  {
    hide Accept, HeaderOk, ChainOk, Executable;
    var inv: Core -> bool := t => DeadChain(t, c, n);
    forall s: Core, b: Block, ok: bool | inv(s) && b.header.number >= 1 && HeaderOk(s.store, c, b)
      ensures inv(Accept(s, b, ok).core)
    {
      AcceptDead(s, c, b, ok, n);
    }
  }

  lemma HandleDead(cfg: Config, nd: Node, step: Step, n: BlockNumber)
    requires Filed(nd.pending) && Numbered(step) && DeadChain(nd.core, cfg.cluster, n)
    ensures DeadChain(Next(cfg, nd, step).core, cfg.cluster, n)
  {
    hide DeadChain, Next;
    DeadClosed(cfg.cluster, n);
    StepKeeps(cfg, nd, step, false, t => DeadChain(t, cfg.cluster, n));
  }

  lemma {:induction false} ScanNothing(st: Store, c: Address, h: BlockNumber)
    requires h >= 2 && forall m: BlockNumber :: !IsExecuted(st, m, c)
    ensures Scan(st, c, h) == Some(1)
    decreases h
  {
    if h > 2 {
      ScanNothing(st, c, h - 1);
    }
  }

  /** With nothing executed, a session on top of block 1 starts at block 2 and fails for want of its parent. */
  ghost predicate DeadProgress(p: Progress, c: Address, n: BlockNumber) {
    ProgressOk(p, c) && !Executable(p.core, c, n) && (AnyDone(p.core, c) || p.next.None? || p.next.value == 2)
  }

  lemma SyncNextDead(cfg: Config, p: Progress, step: SyncStep, n: BlockNumber)
    requires DeadProgress(p, cfg.cluster, n) && MayTake(p, cfg.cluster, step)
    ensures DeadProgress(SyncNext(cfg, p, step), cfg.cluster, n)
  {
    hide ChainOk, MayStore, BatchStore, Execute, ProgressOk;
    var c := cfg.cluster;
    var q := SyncNext(cfg, p, step);
    SyncNextChain(cfg, p, step);
    ProgressChain(p, c);
    if DoneAbove(p.core, c, n) {
      AboveStays(p.core, q.core, c, n);
      assert AnyDone(q.core, c) by {
        var m: BlockNumber :| m > n && IsExecuted(q.core.store, m, c);
      }
    } else {
      match step
      case StoreBatch(bs) =>
        if bs != [] {
          StoreBatchChain(p.core, c, bs);
        }
      case ExecuteNext(valid, executes) =>
        assert q.core == p.core;
    }
  }

  lemma {:induction false} SyncRunDead(cfg: Config, p: Progress, steps: seq<SyncStep>, n: BlockNumber)
    requires DeadProgress(p, cfg.cluster, n) && SyncJoins(cfg, p, steps)
    ensures !Executable(SyncRun(cfg, p, steps).core, cfg.cluster, n)
    decreases |steps|
  {
    hide ProgressOk, Executable, SyncNext, MayTake, AnyDone;
    if steps != [] {
      SyncNextDead(cfg, p, steps[0], n);
      SyncRunDead(cfg, SyncNext(cfg, p, steps[0]), steps[1..], n);
    }
  }

  lemma StartDead(s: Core, c: Address, n: BlockNumber)
    requires ChainOk(s, c) && n >= 1 && !Executable(s, c, n)
    ensures DeadProgress(Progress(s, SyncStart(s.store, c)), c, n)
  {
    hide ChainOk, ProgressOk;
    StartOk(s, c);
    if !AnyDone(s, c) {
      ScanNothing(s.store, c, HeadNumber(s, c));
    }
  }

  lemma EventDead(cfg: Config, nd: Node, e: Event, n: BlockNumber)
    requires Filed(nd.pending) && n >= 1 && DeadChain(nd.core, cfg.cluster, n) && Ruled(cfg, nd, e)
    ensures !Executable(OnEvent(cfg, nd, e).core, cfg.cluster, n)
  {
    hide ChainOk, Executable, Next, SyncRun, SyncJoins, DeadProgress;
    match e
    case Handle(step) =>
      HandleDead(cfg, nd, step, n);
    case Startup(steps) =>
      StartDead(nd.core, cfg.cluster, n);
      SyncRunDead(cfg, Progress(nd.core, SyncStart(nd.core.store, cfg.cluster)), steps, n);
  }

  /** A block that is not executable now stays unexecuted over every run. */
  lemma {:induction false} DeadForever(cfg: Config, nd: Node, es: seq<Event>, n: BlockNumber)
    requires Filed(nd.pending) && ChainOk(nd.core, cfg.cluster) && RuledRun(cfg, nd, es)
    requires n >= 1 && !Executable(nd.core, cfg.cluster, n)
    ensures !Executable(RunEvents(cfg, nd, es).core, cfg.cluster, n)
    decreases |es|
  {
    hide ChainOk, Executable, OnEvent, Ruled, Filed, Later;
    if es != [] {
      var before := RunEvents(cfg, nd, es[..|es| - 1]);
      EventsChain(cfg, nd, es[..|es| - 1]);
      LaterOk(nd.core, before.core, cfg.cluster);
      DeadForever(cfg, nd, es[..|es| - 1], n);
      EventDead(cfg, before, es[|es| - 1], n);
    }
  }

  // the witnesses

  const REFUSE: Answers :=
    Answers(false, false, false, false, false, (r: VoteResult) => false, (r: VoteResult) => None, false, false)

  /** The block arrives as finalised from the node's own proposer key and executes. */
  function Deliver(cfg: Config, b: Block): Step {
    ReceiveBlock(Payload(b, cfg.key, cfg.address), true, None, (r: VoteResult) => true, true,
                 (n: BlockNumber) => REFUSE)
  }

  /** The node's key is the key of its address. */
  predicate WellKeyed(cfg: Config) { cfg.addressOf(cfg.key) == Some(cfg.address) }

  lemma DeliverStarted(cfg: Config, s: Core, b: Block)
    requires WellKeyed(cfg) && ChainOk(s, cfg.cluster) && b.header.number >= 1 && HeaderOk(s.store, cfg.cluster, b)
    requires !IsExecuted(s.store, b.header.number, cfg.cluster)
    ensures var t := Accept(s, b, true).core;
            && Next(cfg, Started(s), Deliver(cfg, b)) == Started(t) && ChainOk(t, cfg.cluster)
            && HeadNumber(t, cfg.cluster) == b.header.number && IsExecuted(t.store, b.header.number, cfg.cluster)
  {
    hide Accept, HeaderOk, ChainOk;
    AcceptKeepsChain(s, cfg.cluster, b, true);
    AcceptLogs(s, cfg.cluster, b, true);
    SinceOk(s, Accept(s, b, true).core, cfg.cluster);
    var done := Started(Accept(s, b, true).core);
    assert done.pending.Keys == {};
    assert Finalize(cfg, done, (n: BlockNumber) => REFUSE) == done;
  }

  function OwnHead(s: Core, c: Address): Block
    requires HeadNumber(s, c) in s.store.headers
  {
    Block(RowHeader(s.store.headers[HeadNumber(s, c)]), [])
  }

  function Successor(s: Core, c: Address): Block
    requires HeadNumber(s, c) in s.store.headers
  {
    var h := s.store.headers[HeadNumber(s, c)];
    Block(Header(h.number + 1, ZERO_HASH, h.hash, L1XTokenBlock, h.cluster, h.timestamp, 0, 0, h.state, 0), [])
  }

  lemma WitnessBlocks(s: Core, c: Address)
    requires ChainOk(s, c)
    ensures HeadNumber(s, c) in s.store.headers
    ensures HeaderOk(s.store, c, OwnHead(s, c)) && OwnHead(s, c).header.number == HeadNumber(s, c)
    ensures HeaderOk(s.store, c, Successor(s, c)) && Successor(s, c).header.number == HeadNumber(s, c) + 1
  {
    assert LinkedAt(s.store.headers, c, HeadNumber(s, c));
  }

  lemma {:induction false} RunCons(cfg: Config, nd: Node, e: Event, es: seq<Event>)
    ensures RunEvents(cfg, nd, [e] + es) == RunEvents(cfg, OnEvent(cfg, nd, e), es)
    ensures RuledRun(cfg, nd, [e] + es) <==> Ruled(cfg, nd, e) && RuledRun(cfg, OnEvent(cfg, nd, e), es)
    decreases |es|
  {
    hide OnEvent, Ruled;
    var all := [e] + es;
    if es == [] {
      assert all[..0] == [] && all[0] == e;
      assert RunEvents(cfg, nd, []) == nd;
      assert RunEvents(cfg, nd, all) == OnEvent(cfg, nd, e);
    } else {
      var init := es[..|es| - 1];
      assert all[..|all| - 1] == [e] + init && all[|all| - 1] == es[|es| - 1];
      RunCons(cfg, nd, e, init);
    }
  }

  /** `k` blocks in a row, all valid and executing. */
  function CatchUp(k: nat): seq<SyncStep> { seq(k, _ => ExecuteNext(true, true)) }

  lemma CatchUpOne(cfg: Config, p: Progress)
    requires ProgressOk(p, cfg.cluster) && p.next.Some? && p.next.value <= HeadNumber(p.core, cfg.cluster)
    requires p.next.value == 1 || IsExecuted(p.core.store, p.next.value - 1, cfg.cluster)
    ensures var q := SyncNext(cfg, p, ExecuteNext(true, true));
            && ProgressOk(q, cfg.cluster) && q.next == Some(p.next.value + 1)
            && IsExecuted(q.core.store, p.next.value, cfg.cluster)
            && HeadNumber(q.core, cfg.cluster) == HeadNumber(p.core, cfg.cluster)
  {
    hide ChainOk, Execute, Later, Grown;
    ProgressChain(p, cfg.cluster);
    StoredUpToHead(p.core, cfg.cluster, p.next.value);
    ExecuteStoredChain(p.core, cfg.cluster, p.next.value, true);
    SyncNextChain(cfg, p, ExecuteNext(true, true));
  }

  lemma {:induction false} CatchUpExecutes(cfg: Config, p: Progress, k: nat)
    requires ProgressOk(p, cfg.cluster) && p.next.Some? && k >= 1
    requires p.next.value == 1 || IsExecuted(p.core.store, p.next.value - 1, cfg.cluster)
    requires p.next.value + k - 1 <= HeadNumber(p.core, cfg.cluster)
    ensures SyncJoins(cfg, p, CatchUp(k))
    ensures IsExecuted(SyncRun(cfg, p, CatchUp(k)).core.store, p.next.value + k - 1, cfg.cluster)
    decreases k
  {
    hide ProgressOk, SyncNext;
    var q := SyncNext(cfg, p, ExecuteNext(true, true));
    CatchUpOne(cfg, p);
    assert CatchUp(k)[0] == ExecuteNext(true, true) && CatchUp(k)[1..] == CatchUp(k - 1);
    if k > 1 {
      CatchUpExecutes(cfg, q, k - 1);
    } else {
      assert CatchUp(0) == [];
    }
  }

  lemma {:induction false} ScanFinds(st: Store, c: Address, h: BlockNumber, k: BlockNumber)
    requires 1 <= k <= h && IsExecuted(st, k, c) && forall m: BlockNumber :: k < m <= h ==> !IsExecuted(st, m, c)
    ensures Scan(st, c, h) == Some(k)
    decreases h
  {
    if h > k && h - 1 != 1 {
      ScanFinds(st, c, h - 1, k);
    }
  }

  /** The last logged header is the highest executed block. */
  lemma HighestDone(s: Core, c: Address) returns (k: BlockNumber)
    requires ChainOk(s, c) && AnyDone(s, c)
    ensures 1 <= k <= HeadNumber(s, c) && IsExecuted(s.store, k, c)
    ensures forall m: BlockNumber :: m > k ==> !IsExecuted(s.store, m, c)
  {
    hide ChainOk;
    var x: BlockNumber :| IsExecuted(s.store, x, c);
    var i := LogIndex(s, c, x);
    k := s.log[|s.log| - 1].number;
    LoggedExecuted(s, c, |s.log| - 1);
    LastInRange(s, c);
    forall m: BlockNumber | m > k ensures !IsExecuted(s.store, m, c) {
      if IsExecuted(s.store, m, c) {
        var j := LogIndex(s, c, m);
        LogOrder(s, c, |s.log| - 1, j);
      }
    }
  }

  lemma LastInRange(s: Core, c: Address)
    requires ChainOk(s, c) && s.log != []
    ensures 1 <= s.log[|s.log| - 1].number <= HeadNumber(s, c)
  {
    assert LoggedAt(s, c, |s.log| - 1);
  }

  /** From a started node: the head by delivery, later blocks by building on it, earlier ones by a start-up. */
  lemma {:induction false} Reach(cfg: Config, s: Core, n: BlockNumber) returns (es: seq<Event>)
    requires WellKeyed(cfg) && ChainOk(s, cfg.cluster) && n >= 1 && Executable(s, cfg.cluster, n)
    ensures RuledRun(cfg, Started(s), es)
    ensures IsExecuted(RunEvents(cfg, Started(s), es).core.store, n, cfg.cluster)
    decreases n - HeadNumber(s, cfg.cluster)
  {
    hide ChainOk, HeaderOk, Accept, Next, SyncRun, SyncJoins;
    var c := cfg.cluster;
    var head := HeadNumber(s, c);
    WitnessBlocks(s, c);
    if IsExecuted(s.store, n, c) {
      es := [];
    } else if n == head {
      var b := OwnHead(s, c);
      DeliverStarted(cfg, s, b);
      es := [Handle(Deliver(cfg, b))];
      RunCons(cfg, Started(s), es[0], []);
    } else if n > head {
      var b := Successor(s, c);
      NotLogged(s, c, head + 1);
      DeliverStarted(cfg, s, b);
      var t := Accept(s, b, true).core;
      if n > head + 1 {
        NoneDoneAbove(t, c, n);
      }
      var rest := Reach(cfg, t, n);
      es := [Handle(Deliver(cfg, b))] + rest;
      RunCons(cfg, Started(s), es[0], rest);
    } else {
      es := ReachBelow(cfg, s, n);
    }
  }

  lemma NoneDoneAbove(s: Core, c: Address, n: BlockNumber)
    requires ChainOk(s, c) && n > HeadNumber(s, c)
    ensures Executable(s, c, n)
  {
    forall m: BlockNumber | m > n ensures !IsExecuted(s.store, m, c) {
      NotLogged(s, c, m);
    }
  }

  lemma ReachBelow(cfg: Config, s: Core, n: BlockNumber) returns (es: seq<Event>)
    requires ChainOk(s, cfg.cluster) && 1 <= n < HeadNumber(s, cfg.cluster) && Executable(s, cfg.cluster, n)
    requires !IsExecuted(s.store, n, cfg.cluster)
    ensures RuledRun(cfg, Started(s), es)
    ensures IsExecuted(RunEvents(cfg, Started(s), es).core.store, n, cfg.cluster)
  {
    hide ChainOk, SyncRun, SyncJoins, ProgressOk;
    var c := cfg.cluster;
    var k := HighestDone(s, c);
    assert k < n;
    ScanFinds(s.store, c, HeadNumber(s, c), k);
    StartOk(s, c);
    CatchUpExecutes(cfg, Progress(s, Some(k + 1)), n - k);
    es := [Startup(CatchUp(n - k))];
    RunCons(cfg, Started(s), es[0], []);
  }

  /**
   * A block of any reachable chain can still be executed, by some run of messages and
   * start-ups, exactly when it is executed already, or nothing above it is executed and
   * either it is not below the head or some block is executed from which a start-up goes on.
   */
  lemma ExecutableIff(cfg: Config, nd: Node, n: BlockNumber)
    requires WellKeyed(cfg) && Filed(nd.pending) && ChainOk(nd.core, cfg.cluster) && n >= 1
    ensures (exists es :: RuledRun(cfg, nd, es) && IsExecuted(RunEvents(cfg, nd, es).core.store, n, cfg.cluster))
        <==> Executable(nd.core, cfg.cluster, n)
  {
    hide ChainOk, RunEvents, RuledRun, Filed;
    var c := cfg.cluster;
    if Executable(nd.core, c, n) {
      var es := Reach(cfg, nd.core, n);
      RunCons(cfg, nd, Startup([]), es);
      var all := [Startup([])] + es;
      assert RuledRun(cfg, nd, all) && IsExecuted(RunEvents(cfg, nd, all).core.store, n, c);
    } else {
      forall es | RuledRun(cfg, nd, es) ensures !IsExecuted(RunEvents(cfg, nd, es).core.store, n, c) {
        DeadForever(cfg, nd, es, n);
      }
    }
  }

  /** In particular a block below an executed one is skipped for good. */
  lemma SkippedForever(cfg: Config, nd: Node, es: seq<Event>, n: BlockNumber)
    requires Filed(nd.pending) && ChainOk(nd.core, cfg.cluster) && RuledRun(cfg, nd, es)
    requires n >= 1 && !IsExecuted(nd.core.store, n, cfg.cluster) && DoneAbove(nd.core, cfg.cluster, n)
    ensures !IsExecuted(RunEvents(cfg, nd, es).core.store, n, cfg.cluster)
  {
    hide ChainOk, RunEvents, RuledRun;
    DeadForever(cfg, nd, es, n);
  }
}
