/**
 * Block synchronisation: a node that starts up stores downloaded batches and executes
 * stored blocks, from the block after the highest one it finds executed.
 */
module Synchronisation {
  import opened Primitives
  import opened ChainStore
  import opened Consensus

  // ------------------------------------------------------- the order of a batch

  ghost predicate Sorted(bs: seq<Block>) {
    forall i, j :: 0 <= i < j < |bs| ==> bs[i].header.number <= bs[j].header.number
  }

  function InsertBlock(b: Block, bs: seq<Block>): (r: seq<Block>)
    ensures r != [] && forall x :: x in r <==> x == b || x in bs
    decreases |bs|
  {
    if bs == [] then [b]
    else if b.header.number <= bs[0].header.number then [b] + bs
    else [bs[0]] + InsertBlock(b, bs[1..])
  }

  lemma {:induction false} InsertBlockSorted(b: Block, bs: seq<Block>)
    requires Sorted(bs)
    ensures Sorted(InsertBlock(b, bs))
    decreases |bs|
  {
    if bs != [] && b.header.number > bs[0].header.number {
      InsertBlockSorted(b, bs[1..]);
      var rest := InsertBlock(b, bs[1..]);
      forall j | 0 <= j < |rest| ensures bs[0].header.number <= rest[j].header.number {
        assert rest[j] in rest;
      }
    }
  }

  /** `sort_by_key` by block number, which keeps the order of equal numbers. */
  function SortBlocks(bs: seq<Block>): (r: seq<Block>)
    ensures Sorted(r) && (r == [] <==> bs == []) && forall b :: b in r <==> b in bs
    decreases |bs|
  {
    if bs == [] then [] else
    InsertBlockSorted(bs[0], SortBlocks(bs[1..]));
    InsertBlock(bs[0], SortBlocks(bs[1..]))
  }

  // ------------------------------------------------------------------- a session

  /** What a session does, in the order in which its storing and its executing task happen to run. */
  datatype SyncStep =
    | StoreBatch(blocks: seq<Block>)
    | ExecuteNext(valid: bool, executes: bool)

  /**
   * `find_highest_local_executed_block` from `n` down: it answers 1 when it comes down to 1
   * without having looked there, and counts below 0 when it starts at 1 and finds nothing.
   */
  function Scan(st: Store, c: Address, n: BlockNumber): Option<BlockNumber> {
    if IsExecuted(st, n, c) then Some(n)
    else if n == 0 then None
    else if n - 1 == 1 then Some(1)
    else Scan(st, c, n - 1)
  }

  method FindHighestExecuted(store: BlockStore, c: Address, from: BlockNumber) returns (r: Option<BlockNumber>)
    ensures r == if from == 0 then Some(0) else Scan(store.View(), c, from)
  {
    if from == 0 {
      return Some(0);
    }
    var n := from;
    while true
      invariant Scan(store.View(), c, n) == Scan(store.View(), c, from)
      decreases n
    {
      if (c, n) in store.executed && store.executed[(c, n)] {
        return Some(n);
      }
      if n == 0 {
        return None;
      }
      n := n - 1;
      if n == 1 {
        return Some(1);
      }
    }
  }

  /** The number a session executes first; None when the scan fails. */
  function SyncStart(st: Store, c: Address): Option<BlockNumber> {
    var head := ChainState(st, c).number;
    if head == 0 then Some(1) else
    match Scan(st, c, head)
    case Some(n) => Some(n + 1)
    case None => None
  }

  /** One more block of `execute_blocks`: it waits for the block to be stored and demands an executed parent. */
  function SyncExecuteOne(cfg: Config, s: Core, n: BlockNumber, valid: bool, executes: bool): Outcome
    requires n in s.store.headers
  {
    if !valid || (n > 1 && !IsExecuted(s.store, n - 1, cfg.cluster)) then Outcome(s, false)
    else Execute(s, RowHeader(s.store.headers[n]), executes)
  }

  /** A session's tables and the number it executes next, None once a block has failed. */
  datatype Progress = Progress(core: Core, next: Option<BlockNumber>)

  function SyncNext(cfg: Config, p: Progress, step: SyncStep): Progress {
    match step
    case StoreBatch(bs) =>
      if bs == [] then p else p.(core := p.core.(store := BatchStore(p.core.store, SortBlocks(bs))))
    case ExecuteNext(valid, executes) =>
      if p.next.None? || p.next.value !in p.core.store.headers then p else
      var done := SyncExecuteOne(cfg, p.core, p.next.value, valid, executes);
      Progress(done.core, if done.ok then Some(p.next.value + 1) else None)
  }

  function SyncRun(cfg: Config, p: Progress, steps: seq<SyncStep>): Progress
    decreases |steps|
  {
    if steps == [] then p else SyncRun(cfg, SyncNext(cfg, p, steps[0]), steps[1..])
  }

  function SyncSession(cfg: Config, s: Core, steps: seq<SyncStep>): Core {
    SyncRun(cfg, Progress(s, SyncStart(s.store, cfg.cluster)), steps).core
  }
}
