/**
 * Block production: `create_block` builds on the stored chain head, and the result is
 * stored before the next block is built.
 */
module BlockBuilder {
  import opened Primitives
  import opened ChainStore
  import Epochs

  const BLOCK_VERSION: nat := 5

  /** SHA-256 over the serialised sign payload: the block without its own hash. */
  type HashOf = Block -> Hash

  /** `calculate_current_epoch` for the configured epoch length. */
  type EpochOf = nat -> Epoch

  /** What one call of `create_block` is given, the transactions already nonce-filtered. */
  datatype Request = Request(txs: seq<Transaction>, timestamp: nat, kind: BlockType)

  const DEFAULT_HEADER: Header := Header(0, ZERO_HASH, ZERO_HASH, L1XTokenBlock, 0, 0, 0, 0, ZERO_HASH, 0)

  function Unhashed(b: Block): Block { b.(header := b.header.(hash := ZERO_HASH)) }

  /** `create_block_internal` */
  function BuildOn(last: Header, c: Address, q: Request, epoch: Epoch, hashOf: HashOf): Block {
    var count := if |q.txs| <= I32_MAX then |q.txs| else I32_MAX;
    var draft := Block(Header(last.number + 1, ZERO_HASH, last.hash, q.kind, c, q.timestamp, count, BLOCK_VERSION,
                              ZERO_HASH, epoch), q.txs);
    draft.(header := draft.header.(hash := hashOf(draft)))
  }

  /** `create_block`: an unreadable head header means building on the default header. */
  function CreateBlock(st: Store, c: Address, q: Request, epochOf: EpochOf, hashOf: HashOf): Block {
    var head := HeadHeader(st, c);
    var last := if head.Some? then head.value else DEFAULT_HEADER;
    BuildOn(last, c, q, epochOf(last.number + 1), hashOf)
  }

  datatype Built = Built(st: Store, blocks: seq<Block>)

  /** Creating and storing one block for each request, in turn. */
  function Build(st: Store, c: Address, qs: seq<Request>, epochOf: EpochOf, hashOf: HashOf): Built
    decreases |qs|
  {
    if qs == [] then Built(st, [])
    else CreateAndStoreOn(Build(st, c, qs[..|qs| - 1], epochOf, hashOf), c, qs[|qs| - 1], epochOf, hashOf)
  }

  function CreateAndStoreOn(p: Built, c: Address, q: Request, epochOf: EpochOf, hashOf: HashOf): Built {
    var b := CreateBlock(p.st, c, q, epochOf, hashOf);
    Built(StoreBlock(p.st, b), p.blocks + [b])
  }

  class Builder {
    const store: BlockStore
    const cluster: Address
    const epochOf: EpochOf
    const hashOf: HashOf

    constructor (store: BlockStore, cluster: Address, epochOf: EpochOf, hashOf: HashOf)
      ensures this.store == store && this.cluster == cluster && this.epochOf == epochOf && this.hashOf == hashOf
    {
      this.store, this.cluster, this.epochOf, this.hashOf := store, cluster, epochOf, hashOf;
    }

    method CreateAndStore(q: Request) returns (b: Block)
      modifies store
      ensures b == CreateBlock(old(store.View()), cluster, q, epochOf, hashOf)
      ensures store.View() == StoreBlock(old(store.View()), b)
    {
      var chain := if cluster in store.heads then store.heads[cluster] else Head(0, ZERO_HASH);
      var last := if chain.number in store.headers then RowHeader(store.headers[chain.number]) else DEFAULT_HEADER;
      var number := last.number + 1;
      b := BuildOn(last, cluster, q, epochOf(number), hashOf);
      store.InsertBlock(b);
    }
  }

  /** Block `b` at height `n` on top of a block with hash `parent`. */
  ghost predicate WellBuilt(b: Block, n: nat, parent: Hash, q: Request, c: Address, epochOf: EpochOf, hashOf: HashOf)
  {
    && b.header.number == n && b.header.parent == parent && b.header.cluster == c
    && b.header.epoch == epochOf(n)
    && b.header.hash == hashOf(Unhashed(b))
    && b.txs == q.txs && b.header.timestamp == q.timestamp && b.header.kind == q.kind
    && b.header.version == 5 && b.header.state == ZERO_HASH && b.header.count == Min(|q.txs|, 0x7FFF_FFFF)
  }

  ghost function ParentHash(blocks: seq<Block>, i: nat): Hash
    requires i <= |blocks|
  {
    if i == 0 then ZERO_HASH else blocks[i - 1].header.hash
  }

  /** The store holds exactly these blocks as its chain, numbered from 1. */
  ghost predicate Holds(st: Store, c: Address, blocks: seq<Block>) {
    && ChainState(st, c) == Head(|blocks|, ParentHash(blocks, |blocks|))
    && (forall n :: n in st.headers <==> 1 <= n <= |blocks|)
    && (forall i :: 0 <= i < |blocks| ==> st.headers[i + 1] == HeaderRow(blocks[i].header))
    && (forall n: BlockNumber :: n > |blocks| ==> RowsOf(st.txs, n) == map[])
  }

  lemma StoreNext(st: Store, c: Address, blocks: seq<Block>, b: Block)
    requires Holds(st, c, blocks) && b.header.number == |blocks| + 1 && b.header.cluster == c
    ensures Holds(StoreBlock(st, b), c, blocks + [b])
  {
    InsertTxsRows(st.txs, b.header.number, b.header.hash, b.txs, 0);
  }

  lemma CreateNext(st: Store, c: Address, blocks: seq<Block>, q: Request, epochOf: EpochOf, hashOf: HashOf)
    requires Holds(st, c, blocks)
    requires blocks != [] ==> blocks[|blocks| - 1].header.number == |blocks|
    ensures WellBuilt(CreateBlock(st, c, q, epochOf, hashOf), |blocks| + 1, ParentHash(blocks, |blocks|), q, c,
                      epochOf, hashOf)
  {
    var n := |blocks|;
    if n > 0 {
      assert st.headers[(n - 1) + 1] == HeaderRow(blocks[n - 1].header);
    }
  }

  /** Block `i` is built for its request, on top of the one before it. */
  ghost predicate BuiltAt(blocks: seq<Block>, qs: seq<Request>, i: nat, c: Address, epochOf: EpochOf, hashOf: HashOf)
    requires i < |blocks| == |qs|
  {
    WellBuilt(blocks[i], i + 1, ParentHash(blocks, i), qs[i], c, epochOf, hashOf)
  }

  ghost predicate BuiltChain(blocks: seq<Block>, qs: seq<Request>, c: Address, epochOf: EpochOf, hashOf: HashOf) {
    |blocks| == |qs| && forall i :: 0 <= i < |qs| ==> BuiltAt(blocks, qs, i, c, epochOf, hashOf)
  }

  lemma LinkNext(blocks: seq<Block>, qs: seq<Request>, b: Block, q: Request, c: Address, epochOf: EpochOf,
                 hashOf: HashOf)
    requires BuiltChain(blocks, qs, c, epochOf, hashOf)
    requires WellBuilt(b, |blocks| + 1, ParentHash(blocks, |blocks|), q, c, epochOf, hashOf)
    ensures BuiltChain(blocks + [b], qs + [q], c, epochOf, hashOf)
  {
    forall i | 0 <= i < |qs| + 1 ensures BuiltAt(blocks + [b], qs + [q], i, c, epochOf, hashOf) {
      assert ParentHash(blocks + [b], i) == ParentHash(blocks, i);
      if i < |qs| {
        assert BuiltAt(blocks, qs, i, c, epochOf, hashOf);
      }
    }
  }

  /** Block by block, the chain reads back as built, first occurrences of the transactions with a sender. */
  ghost predicate ReadsBack(st: Store, qs: seq<Request>) {
    forall i :: 0 <= i < |qs| ==> LoadsExactly(RowsOf(st.txs, i + 1), Kept(qs[i].txs))
  }

  lemma ReadsBackNext(st: Store, qs: seq<Request>, q: Request, b: Block)
    requires ReadsBack(st, qs) && b.header.number == |qs| + 1 && b.txs == q.txs && |q.txs| <= U32_LIMIT
    requires b.header.number !in st.headers && RowsOf(st.txs, b.header.number) == map[]
    ensures ReadsBack(StoreBlock(st, b), qs + [q])
  {
    StoreThenLoad(st, b);
    InsertTxsRows(st.txs, b.header.number, b.header.hash, b.txs, 0);
  }

  /** The store holds the blocks, they are linked, and they read back. */
  ghost predicate IsChain(p: Built, c: Address, qs: seq<Request>, epochOf: EpochOf, hashOf: HashOf) {
    && Holds(p.st, c, p.blocks)
    && BuiltChain(p.blocks, qs, c, epochOf, hashOf)
    && ((forall q :: q in qs ==> |q.txs| <= U32_LIMIT) ==> ReadsBack(p.st, qs))
  }

  lemma ChainNext(p: Built, c: Address, qs: seq<Request>, q: Request, epochOf: EpochOf, hashOf: HashOf)
    requires IsChain(p, c, qs, epochOf, hashOf)
    ensures IsChain(CreateAndStoreOn(p, c, q, epochOf, hashOf), c, qs + [q], epochOf, hashOf)
  {
    var b := CreateBlock(p.st, c, q, epochOf, hashOf);
    if p.blocks != [] {
      assert BuiltAt(p.blocks, qs, |p.blocks| - 1, c, epochOf, hashOf);
    }
    CreateNext(p.st, c, p.blocks, q, epochOf, hashOf);
    hide CreateBlock;
    StoreNext(p.st, c, p.blocks, b);
    LinkNext(p.blocks, qs, b, q, c, epochOf, hashOf);
    if forall r :: r in qs + [q] ==> |r.txs| <= U32_LIMIT {
      assert q in qs + [q] && forall r :: r in qs ==> r in qs + [q];
      ReadsBackNext(p.st, qs, q, b);
    }
  }

  lemma EmptyChain(c: Address, epochOf: EpochOf, hashOf: HashOf)
    ensures IsChain(Built(EMPTY, []), c, [], epochOf, hashOf)
  {
    assert Holds(EMPTY, c, []) && BuiltChain([], [], c, epochOf, hashOf);
  }

  /**
   * Every chain built from the empty store is numbered from 1 without gaps, each block
   * names its predecessor's hash and carries its own, its epoch is its number's, the store
   * holds exactly these headers with the head on top, and every block reads back.
   */
  lemma {:induction false} BuiltChainIsChain(c: Address, qs: seq<Request>, epochOf: EpochOf, hashOf: HashOf)
    ensures IsChain(Build(EMPTY, c, qs, epochOf, hashOf), c, qs, epochOf, hashOf)
    decreases |qs|
  {
    hide IsChain, CreateAndStoreOn;
    if qs == [] {
      EmptyChain(c, epochOf, hashOf);
    } else {
      var init, q := qs[..|qs| - 1], qs[|qs| - 1];
      BuiltChainIsChain(c, init, epochOf, hashOf);
      ChainNext(Build(EMPTY, c, init, epochOf, hashOf), c, init, q, epochOf, hashOf);
      assert init + [q] == qs;
    }
  }

  /** With the source's epoch function, every block's epoch is its number divided by the epoch length. */
  lemma BuiltChainEpochs(c: Address, qs: seq<Request>, slots: nat, hashOf: HashOf, i: nat)
    requires slots >= 1 && i < |qs| < U64_LIMIT
    ensures var p := Build(EMPTY, c, qs, (n: nat) => Epochs.CurrentEpoch(n, slots), hashOf);
            |p.blocks| == |qs| && p.blocks[i].header.epoch == (i + 1) / slots
  {
    var epochOf := (n: nat) => Epochs.CurrentEpoch(n, slots);
    Epochs.SmallEpoch(i + 1, slots);
    BuiltChainIsChain(c, qs, epochOf, hashOf);
    hide Build;
    assert BuiltAt(Build(EMPTY, c, qs, epochOf, hashOf).blocks, qs, i, c, epochOf, hashOf);
  }
}
