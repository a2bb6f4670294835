/**
 * The chain tables of the Postgres back end: chain heads, block headers, executed
 * flags and block transactions. Every insert is "do nothing on conflict".
 */
module ChainStore {
  import opened Primitives

  datatype Hash = Hash(digest: nat)

  const ZERO_HASH := Hash(0)

  type BlockNumber = nat
  type Epoch = nat

  datatype BlockType =
    L1XTokenBlock | L1XContractBlock | XTalkTokenBlock | XTalkContractBlock | SuperBlock | SystemBlock

  datatype Header = Header(number: BlockNumber, hash: Hash, parent: Hash, kind: BlockType, cluster: Address,
                           timestamp: nat, count: int, version: nat, state: Hash, epoch: Epoch)

  type Key = seq<Byte>

  /**
   * `hash` is the transaction's own hash, `key` the sender's verifying key and `sender`
   * the address derived from it: None for bytes that are no public key.
   */
  datatype Transaction = Transaction(hash: Hash, key: Key, sender: Option<Address>, nonce: U128, payload: seq<Byte>)

  datatype Block = Block(header: Header, txs: seq<Transaction>)

  datatype Head = Head(number: BlockNumber, hash: Hash)

  datatype TxRow = TxRow(blockHash: Hash, tx: Transaction, sequence: nat)

  /** The rows of one block, by transaction hash. */
  type TxRows = map<Hash, TxRow>

  /** The transaction table, keyed by block number and transaction hash. */
  type TxTable = map<BlockNumber, TxRows>

  function RowsOf(t: TxTable, n: BlockNumber): TxRows {
    if n in t then t[n] else map[]
  }

  datatype Store = Store(heads: map<Address, Head>, headers: map<BlockNumber, Header>,
                         executed: map<(Address, BlockNumber), bool>, txs: TxTable)

  const EMPTY: Store := Store(map[], map[], map[], map[])

  // ---------------------------------------------------------- rows and values

  /** The header row: a version that does not fit i32 is stored as 0. */
  function HeaderRow(h: Header): Header {
    h.(version := if h.version <= I32_MAX then h.version else 0)
  }

  /** Reading a row back: an epoch that does not fit i64 reads as 0. */
  function RowHeader(row: Header): Header {
    row.(epoch := if row.epoch <= I64_MAX then row.epoch else 0)
  }

  function LoadHeader(st: Store, n: BlockNumber): Option<Header> {
    if n in st.headers then Some(RowHeader(st.headers[n])) else None
  }

  /** `load_chain_state`: a cluster without a row is at block 0 with the zero hash. */
  function ChainState(st: Store, c: Address): Head {
    if c in st.heads then st.heads[c] else Head(0, ZERO_HASH)
  }

  function HeadHeader(st: Store, c: Address): Option<Header> {
    LoadHeader(st, ChainState(st, c).number)
  }

  function IsExecuted(st: Store, n: BlockNumber, c: Address): bool {
    (c, n) in st.executed && st.executed[(c, n)]
  }

  // ---------------------------------------------------------- writing, on values

  /** The sequence column is a u32: the running index is truncated to it. */
  function Truncate32(index: nat): (r: nat)
    ensures r < U32_LIMIT && (index < U32_LIMIT ==> r == index)
  {
    index % 0x1_0000_0000
  }

  /** A transaction without sender address is an error, which leaves no row. */
  function InsertRow(rows: TxRows, blockHash: Hash, tx: Transaction, index: nat): TxRows {
    if tx.sender.None? || tx.hash in rows then rows else rows[tx.hash := TxRow(blockHash, tx, Truncate32(index))]
  }

  function InsertTx(t: TxTable, n: BlockNumber, blockHash: Hash, tx: Transaction, index: nat): TxTable {
    if tx.sender.None? then t else t[n := InsertRow(RowsOf(t, n), blockHash, tx, index)]
  }

  function InsertTxs(t: TxTable, n: BlockNumber, blockHash: Hash, txs: seq<Transaction>, index: nat): TxTable
    decreases |txs|
  {
    if txs == [] then t
    else InsertTxs(InsertTx(t, n, blockHash, txs[0], index), n, blockHash, txs[1..], index + 1)
  }

  function InsertHeader(hs: map<BlockNumber, Header>, h: Header): map<BlockNumber, Header> {
    if h.number in hs then hs else hs[h.number := HeaderRow(h)]
  }

  function InsertFlag(e: map<(Address, BlockNumber), bool>, h: Header): map<(Address, BlockNumber), bool> {
    if (h.cluster, h.number) in e then e else e[(h.cluster, h.number) := false]
  }

  function AdvanceHead(st: Store, h: Header): map<Address, Head> {
    if ChainState(st, h.cluster).number == h.number - 1 then st.heads[h.cluster := Head(h.number, h.hash)]
    else st.heads
  }

  function StoreBlock(st: Store, b: Block): Store {
    Store(AdvanceHead(st, b.header), InsertHeader(st.headers, b.header), InsertFlag(st.executed, b.header),
          InsertTxs(st.txs, b.header.number, b.header.hash, b.txs, 0))
  }

  function SetExecuted(st: Store, n: BlockNumber, c: Address): Store {
    if (c, n) in st.executed then st.(executed := st.executed[(c, n) := true]) else st
  }

  function StoreAll(st: Store, bs: seq<Block>): Store
    decreases |bs|
  {
    if bs == [] then st else StoreAll(StoreBlock(st, bs[0]), bs[1..])
  }

  /** Marking a block executed takes effect exactly if it has a flag row, and never makes one. */
  lemma SetExecutedIff(st: Store, n: BlockNumber, c: Address)
    ensures var t := SetExecuted(st, n, c);
            && (IsExecuted(t, n, c) <==> (c, n) in st.executed) && t.executed.Keys == st.executed.Keys
            && t == st.(executed := t.executed)
            && forall k :: k in st.executed && k != (c, n) ==> t.executed[k] == st.executed[k]
  {
  }

  // the batch path

  datatype FlatTx = FlatTx(number: BlockNumber, blockHash: Hash, tx: Transaction)

  function Tag(h: Header, txs: seq<Transaction>): seq<FlatTx> {
    seq(|txs|, i requires 0 <= i < |txs| => FlatTx(h.number, h.hash, txs[i]))
  }

  predicate FlatOk(flat: seq<FlatTx>) { forall i :: 0 <= i < |flat| ==> flat[i].tx.sender.Some? }

  function Flatten(bs: seq<Block>): seq<FlatTx>
    decreases |bs|
  {
    if bs == [] then [] else Tag(bs[0].header, bs[0].txs) + Flatten(bs[1..])
  }

  function InsertFlat(t: TxTable, flat: seq<FlatTx>, index: nat): TxTable
    decreases |flat|
  {
    if flat == [] then t
    else InsertFlat(InsertTx(t, flat[0].number, flat[0].blockHash, flat[0].tx, index), flat[1..], index + 1)
  }

  function InsertHeaders(hs: map<BlockNumber, Header>, bs: seq<Block>): map<BlockNumber, Header>
    decreases |bs|
  {
    if bs == [] then hs else InsertHeaders(InsertHeader(hs, bs[0].header), bs[1..])
  }

  function InsertFlags(e: map<(Address, BlockNumber), bool>, bs: seq<Block>): map<(Address, BlockNumber), bool>
    decreases |bs|
  {
    if bs == [] then e else InsertFlags(InsertFlag(e, bs[0].header), bs[1..])
  }

  predicate AllSent(txs: seq<Transaction>) { forall i :: 0 <= i < |txs| ==> txs[i].sender.Some? }

  /** Every transaction of the batch has a sender address. */
  predicate BatchOk(bs: seq<Block>) { forall i :: 0 <= i < |bs| ==> AllSent(bs[i].txs) }

  /**
   * `batch_store_blocks`: one statement a table, flags first, then the head is set to the
   * last block. A transaction without sender address ends it after the flags.
   */
  function BatchStore(st: Store, bs: seq<Block>): Store
    requires bs != []
  {
    if !BatchOk(bs) then st.(executed := InsertFlags(st.executed, bs)) else
    var last := bs[|bs| - 1].header;
    Store(st.heads[last.cluster := Head(last.number, last.hash)], InsertHeaders(st.headers, bs),
          InsertFlags(st.executed, bs), InsertFlat(st.txs, Flatten(bs), 0))
  }

  // ------------------------------------------------------------------ loading

  /** Row `h` has the largest sequence number. */
  ghost predicate Greatest(rows: TxRows, h: Hash) {
    h in rows && forall g :: g in rows ==> rows[g].sequence <= rows[h].sequence
  }

  /** No two rows of the block share a sequence number, so ordering by it leaves no choice. */
  ghost predicate Distinct(rows: TxRows) {
    forall g, h :: g in rows && h in rows && g != h ==> rows[g].sequence != rows[h].sequence
  }

  ghost function LastRow(rows: TxRows): (h: Hash)
    requires rows != map[]
    ensures Greatest(rows, h)
  {
    assert rows.Keys != {};
    GreatestExists(rows, rows.Keys);
    assert exists h :: Greatest(rows, h) by {
      var h :| h in rows.Keys && forall g :: g in rows.Keys ==> rows[g].sequence <= rows[h].sequence;
      assert Greatest(rows, h);
    }
    var h :| Greatest(rows, h); h
  }

  /** The transactions of the rows in ascending order of the sequence column. */
  ghost function LoadList(rows: TxRows): seq<Transaction>
    decreases |rows|
  {
    if rows == map[] then [] else LoadList(rows - {LastRow(rows)}) + [rows[LastRow(rows)].tx]
  }

  function HashSet(txs: seq<Transaction>): set<Hash> { set t | t in txs :: t.hash }

  /** The transactions whose hash does not occur earlier in the list. */
  function Dedup(txs: seq<Transaction>): seq<Transaction>
    decreases |txs|
  {
    if txs == [] then [] else
    var init, last := txs[..|txs| - 1], txs[|txs| - 1];
    if last.hash in HashSet(init) then Dedup(init) else Dedup(init) + [last]
  }

  /** The transactions that have a sender address. */
  function WithSender(txs: seq<Transaction>): seq<Transaction>
    decreases |txs|
  {
    if txs == [] then [] else
    var init, last := txs[..|txs| - 1], txs[|txs| - 1];
    if last.sender.Some? then WithSender(init) + [last] else WithSender(init)
  }

  /** What loading returns of a stored list: the first occurrences of those with a sender. */
  function Kept(txs: seq<Transaction>): seq<Transaction> { Dedup(WithSender(txs)) }

  method CollectTransactions(bs: seq<Block>) returns (flat: seq<FlatTx>)
    ensures flat == Flatten(bs)
  {
    flat := [];
    for i := 0 to |bs|
      invariant flat + Flatten(bs[i..]) == Flatten(bs)
    {
      assert bs[i..][1..] == bs[i + 1..];
      flat := flat + Tag(bs[i].header, bs[i].txs);
    }
  }

  // ---------------------------------------------------------------- the object

  class BlockStore {
    var heads: map<Address, Head>
    var headers: map<BlockNumber, Header>
    var executed: map<(Address, BlockNumber), bool>
    var txs: TxTable

    ghost function View(): Store reads this { Store(heads, headers, executed, txs) }

    constructor ()
      ensures View() == EMPTY
    {
      heads, headers, executed, txs := map[], map[], map[], map[];
    }

    method UpdateBlockHead(c: Address, n: BlockNumber, hash: Hash)
      modifies this`heads
      ensures heads == old(heads)[c := Head(n, hash)]
    {
      heads := heads[c := Head(n, hash)];
    }

    method StoreTransaction(n: BlockNumber, blockHash: Hash, tx: Transaction, index: nat) returns (ok: bool)
      modifies this`txs
      ensures ok <==> tx.sender.Some?
      ensures txs == InsertTx(old(txs), n, blockHash, tx, index)
    {
      if tx.sender.None? { return false; }
      ok := true;
      var rows := RowsOf(txs, n);
      if tx.hash !in rows {
        rows := rows[tx.hash := TxRow(blockHash, tx, Truncate32(index))];
      }
      txs := txs[n := rows];
    }

    /** Blocks are numbered from 1: the source computes `block_number - 1` unsigned. */
    method InsertBlock(b: Block)
      requires b.header.number >= 1
      modifies this
      ensures View() == StoreBlock(old(View()), b)
    {
      var h := b.header;
      var i := 0;
      while i < |b.txs|
        invariant 0 <= i <= |b.txs|
        invariant heads == old(heads) && headers == old(headers) && executed == old(executed)
        invariant InsertTxs(txs, h.number, h.hash, b.txs[i..], i)
               == InsertTxs(old(txs), h.number, h.hash, b.txs, 0)
      {
        assert b.txs[i..][1..] == b.txs[i + 1..];
        var _ := StoreTransaction(h.number, h.hash, b.txs[i], i);
        i := i + 1;
      }
      if h.number !in headers {
        headers := headers[h.number := HeaderRow(h)];
      }
      var chain := if h.cluster in heads then heads[h.cluster] else Head(0, ZERO_HASH);
      if chain.number == h.number - 1 {
        UpdateBlockHead(h.cluster, h.number, h.hash);
      }
      if (h.cluster, h.number) !in executed {
        executed := executed[(h.cluster, h.number) := false];
      }
    }

    /** All rows are built before any is inserted. */
    method BatchStoreTransactions(flat: seq<FlatTx>) returns (ok: bool)
      modifies this`txs
      ensures ok <==> FlatOk(flat)
      ensures txs == if ok then InsertFlat(old(txs), flat, 0) else old(txs)
    {
      for i := 0 to |flat|
        invariant forall j :: 0 <= j < i ==> flat[j].tx.sender.Some?
      {
        if flat[i].tx.sender.None? { return false; }
      }
      var i := 0;
      while i < |flat|
        invariant 0 <= i <= |flat|
        invariant InsertFlat(txs, flat[i..], i) == InsertFlat(old(txs), flat, 0)
      {
        assert flat[i..][1..] == flat[i + 1..];
        var _ := StoreTransaction(flat[i].number, flat[i].blockHash, flat[i].tx, i);
        i := i + 1;
      }
      ok := true;
    }

    method BatchStoreBlockHeaders(bs: seq<Block>)
      modifies this`headers
      ensures headers == InsertHeaders(old(headers), bs)
    {
      var i := 0;
      while i < |bs|
        invariant 0 <= i <= |bs|
        invariant InsertHeaders(headers, bs[i..]) == InsertHeaders(old(headers), bs)
      {
        assert bs[i..][1..] == bs[i + 1..];
        headers := InsertHeader(headers, bs[i].header);
        i := i + 1;
      }
    }

    method BatchStoreFlags(bs: seq<Block>)
      modifies this`executed
      ensures executed == InsertFlags(old(executed), bs)
    {
      var i := 0;
      while i < |bs|
        invariant 0 <= i <= |bs|
        invariant InsertFlags(executed, bs[i..]) == InsertFlags(old(executed), bs)
      {
        assert bs[i..][1..] == bs[i + 1..];
        executed := InsertFlag(executed, bs[i].header);
        i := i + 1;
      }
    }

    method InsertBatch(bs: seq<Block>) returns (ok: bool)
      modifies this
      ensures ok <==> bs != [] && BatchOk(bs)
      ensures View() == if bs != [] then BatchStore(old(View()), bs) else old(View())
    {
      if bs == [] { return false; }
      var last := bs[|bs| - 1].header;
      var flat := CollectTransactions(bs);
      FlatSent(bs);
      BatchStoreFlags(bs);
      ok := BatchStoreTransactions(flat);
      if !ok { return; }
      BatchStoreBlockHeaders(bs);
      UpdateBlockHead(last.cluster, last.number, last.hash);
    }

    method SetBlockExecuted(n: BlockNumber, c: Address)
      modifies this`executed
      ensures View() == SetExecuted(old(View()), n, c)
    {
      if (c, n) in executed {
        executed := executed[(c, n) := true];
      }
    }

    /** TxRows that share a sequence number come in whatever order the database returns them. */
    method LoadTransactions(n: BlockNumber) returns (r: seq<Transaction>)
      ensures Distinct(RowsOf(txs, n)) ==> r == LoadList(RowsOf(txs, n))
    {
      var left := RowsOf(txs, n);
      r := [];
      while left != map[]
        invariant Distinct(RowsOf(txs, n)) ==> Distinct(left) && LoadList(left) + r == LoadList(RowsOf(txs, n))
        decreases |left|
      {
        GreatestExists(left, left.Keys);
        var h :| h in left && forall g :: g in left ==> left[g].sequence <= left[h].sequence;
        assert Greatest(left, h);
        if Distinct(left) {
          TakeLast(left, h, r);
        }
        r := [left[h].tx] + r;
        left := left - {h};
      }
    }
  }

  lemma {:induction false} FlatSent(bs: seq<Block>)
    ensures BatchOk(bs) <==> FlatOk(Flatten(bs))
    decreases |bs|
  {
    if bs != [] {
      FlatSent(bs[1..]);
      TagSent(bs[0].header, bs[0].txs);
      SplitSent(Tag(bs[0].header, bs[0].txs), Flatten(bs[1..]));
      assert bs == [bs[0]] + bs[1..];
      assert BatchOk(bs) <==> AllSent(bs[0].txs) && BatchOk(bs[1..]);
    }
  }

  lemma TagSent(h: Header, txs: seq<Transaction>)
    ensures AllSent(txs) <==> FlatOk(Tag(h, txs))
  {
    assert forall i :: 0 <= i < |txs| ==> Tag(h, txs)[i].tx == txs[i];
  }

  lemma SplitSent(a: seq<FlatTx>, b: seq<FlatTx>)
    ensures FlatOk(a + b) <==> FlatOk(a) && FlatOk(b)
  {
    assert forall i :: 0 <= i < |b| ==> (a + b)[|a| + i] == b[i];
    assert forall i :: 0 <= i < |a| ==> (a + b)[i] == a[i];
  }

  lemma TakeLast(rows: TxRows, h: Hash, r: seq<Transaction>)
    requires Distinct(rows) && Greatest(rows, h)
    ensures Distinct(rows - {h})
    ensures LoadList(rows) + r == LoadList(rows - {h}) + ([rows[h].tx] + r)
  {
    assert rows != map[] && h == LastRow(rows);
  }

  lemma {:induction false} GreatestExists(rows: TxRows, keys: set<Hash>)
    requires keys != {} && keys <= rows.Keys
    ensures exists h :: h in keys && forall g :: g in keys ==> rows[g].sequence <= rows[h].sequence
    decreases |keys|
  {
    var a :| a in keys;
    var rest := keys - {a};
    assert keys == rest + {a};
    if rest != {} {
      GreatestExists(rows, rest);
      var b :| b in rest && forall g :: g in rest ==> rows[g].sequence <= rows[b].sequence;
      var h := if rows[a].sequence >= rows[b].sequence then a else b;
      assert h in keys && forall g :: g in keys ==> rows[g].sequence <= rows[h].sequence;
    }
  }

  // ------------------------------------------------------- store, then load

  function InsertRows(rows: TxRows, blockHash: Hash, txs: seq<Transaction>, index: nat): TxRows
    decreases |txs|
  {
    if txs == [] then rows
    else InsertRows(InsertRow(rows, blockHash, txs[0], index), blockHash, txs[1..], index + 1)
  }

  lemma {:induction false} InsertRowsSnoc(rows: TxRows, blockHash: Hash, txs: seq<Transaction>, tx: Transaction, k: nat)
    ensures InsertRows(rows, blockHash, txs + [tx], k)
         == InsertRow(InsertRows(rows, blockHash, txs, k), blockHash, tx, k + |txs|)
    decreases |txs|
  {
    if txs == [] {
      assert ([] + [tx])[1..] == [];
    } else {
      assert (txs + [tx])[1..] == txs[1..] + [tx];
      InsertRowsSnoc(InsertRow(rows, blockHash, txs[0], k), blockHash, txs[1..], tx, k + 1);
    }
  }

  /** The rows load as `txs`, whatever order the database prefers among equals. */
  ghost predicate LoadsExactly(rows: TxRows, txs: seq<Transaction>) {
    Distinct(rows) && LoadList(rows) == txs
  }

  /** A row above all others is loaded last, after whatever the others load as. */
  lemma AppendRowLoads(rows: TxRows, h: Hash, row: TxRow, txs: seq<Transaction>)
    requires LoadsExactly(rows, txs) && h !in rows
    requires forall g :: g in rows ==> rows[g].sequence < row.sequence
    ensures LoadsExactly(rows[h := row], txs + [row.tx])
  {
    assert h in rows[h := row] && LastRow(rows[h := row]) == h;
    assert rows[h := row] - {h} == rows;
  }

  /** The rows of a whole list, built from the back: what `InsertRows` leaves in an empty block. */
  function RowsOfList(blockHash: Hash, txs: seq<Transaction>, k: nat): TxRows
    decreases |txs|
  {
    if txs == [] then map[]
    else InsertRow(RowsOfList(blockHash, txs[..|txs| - 1], k), blockHash, txs[|txs| - 1], k + |txs| - 1)
  }

  lemma {:induction false} InsertRowsIsList(blockHash: Hash, txs: seq<Transaction>, k: nat)
    ensures InsertRows(map[], blockHash, txs, k) == RowsOfList(blockHash, txs, k)
    decreases |txs|
  {
    if txs != [] {
      var init, last := txs[..|txs| - 1], txs[|txs| - 1];
      InsertRowsIsList(blockHash, init, k);
      InsertRowsSnoc(map[], blockHash, init, last, k);
      assert txs == init + [last];
    }
  }

  lemma HashSetSnoc(txs: seq<Transaction>, tx: Transaction)
    ensures HashSet(txs + [tx]) == HashSet(txs) + {tx.hash}
  {
  }

  lemma {:induction false} ListKeys(blockHash: Hash, txs: seq<Transaction>, k: nat)
    requires k + |txs| <= U32_LIMIT
    ensures var rows := RowsOfList(blockHash, txs, k);
            rows.Keys == HashSet(WithSender(txs)) && forall h :: h in rows ==> rows[h].sequence < k + |txs|
    decreases |txs|
  {
    if txs != [] {
      var init, last := txs[..|txs| - 1], txs[|txs| - 1];
      ListKeys(blockHash, init, k);
      HashSetSnoc(WithSender(init), last);
    }
  }

  lemma {:induction false} InsertLoads(blockHash: Hash, txs: seq<Transaction>, k: nat)
    requires k + |txs| <= U32_LIMIT
    ensures LoadsExactly(RowsOfList(blockHash, txs, k), Kept(txs))
    decreases |txs|
  {
    if txs == [] {
      assert LoadsExactly(map[], Kept(txs));
    } else {
      hide LoadsExactly, WithSender, Dedup, HashSet;
      var init, last := txs[..|txs| - 1], txs[|txs| - 1];
      var rows := RowsOfList(blockHash, init, k);
      InsertLoads(blockHash, init, k);
      ListKeys(blockHash, init, k);
      assert RowsOfList(blockHash, txs, k) == InsertRow(rows, blockHash, last, k + |init|);
      assert txs == init + [last];
      KeptSnoc(init, last);
      if last.sender.Some? {
        if last.hash !in rows {
          var row := TxRow(blockHash, last, k + |init|);
          assert InsertRow(rows, blockHash, last, k + |init|) == rows[last.hash := row];
          AppendRowLoads(rows, last.hash, row, Kept(init));
        }
      }
    }
  }

  lemma KeptSnoc(init: seq<Transaction>, last: Transaction)
    ensures Kept(init + [last])
         == if last.sender.None? || last.hash in HashSet(WithSender(init)) then Kept(init) else Kept(init) + [last]
  {
    var txs := init + [last];
    assert txs[..|txs| - 1] == init;
    var sent := WithSender(init);
    assert (sent + [last])[..|sent|] == sent;
  }

  /** Storing a block's transactions touches the rows of that block only. */
  lemma {:induction false} InsertTxsRows(t: TxTable, n: BlockNumber, blockHash: Hash, txs: seq<Transaction>, k: nat)
    ensures RowsOf(InsertTxs(t, n, blockHash, txs, k), n) == InsertRows(RowsOf(t, n), blockHash, txs, k)
    ensures forall m: BlockNumber :: m != n ==> RowsOf(InsertTxs(t, n, blockHash, txs, k), m) == RowsOf(t, m)
    decreases |txs|
  {
    if txs != [] {
      var t1 := InsertTx(t, n, blockHash, txs[0], k);
      assert forall m: BlockNumber :: m != n ==> RowsOf(t1, m) == RowsOf(t, m);
      InsertTxsRows(t1, n, blockHash, txs[1..], k + 1);
    }
  }

  /**
   * Round trip for a fresh number: the transactions with a sender address come back in
   * order with later duplicates dropped, all of the list exactly when every one has an
   * address and none is a duplicate, and the header comes back unchanged if and only if its version
   * fits i32 and its epoch fits i64.
   */
  lemma StoreThenLoad(st: Store, b: Block)
    requires b.header.number !in st.headers && RowsOf(st.txs, b.header.number) == map[] && |b.txs| <= U32_LIMIT
    ensures LoadsExactly(RowsOf(StoreBlock(st, b).txs, b.header.number), Kept(b.txs))
    ensures Kept(b.txs) == b.txs <==> AllSent(b.txs) && Dedup(b.txs) == b.txs
    ensures LoadHeader(StoreBlock(st, b), b.header.number) == Some(b.header)
        <==> b.header.version <= I32_MAX && b.header.epoch <= I64_MAX
    ensures LoadHeader(StoreBlock(st, b), b.header.number)
         == Some(b.header.(version := if b.header.version < 0x8000_0000 then b.header.version else 0,
                           epoch := if b.header.epoch < 0x8000_0000_0000_0000 then b.header.epoch else 0))
  {
    InsertTxsRows(st.txs, b.header.number, b.header.hash, b.txs, 0);
    InsertRowsIsList(b.header.hash, b.txs, 0);
    InsertLoads(b.header.hash, b.txs, 0);
    WithSenderIsAll(b.txs);
    DedupLength(WithSender(b.txs));
  }

  /** A row is filed under its transaction's hash, names this block, and holds one of its transactions. */
  ghost predicate RowOf(row: TxRow, h: Hash, blockHash: Hash, txs: seq<Transaction>) {
    row.blockHash == blockHash && row.tx.hash == h && row.tx in txs && row.tx.sender.Some?
  }

  lemma {:induction false} RowsNameBlock(rows: TxRows, blockHash: Hash, txs: seq<Transaction>, k: nat)
    ensures var rows' := InsertRows(rows, blockHash, txs, k);
            forall h :: h in rows' ==> (h in rows && rows'[h] == rows[h]) || RowOf(rows'[h], h, blockHash, txs)
    decreases |txs|
  {
    if txs != [] {
      RowsNameBlock(InsertRow(rows, blockHash, txs[0], k), blockHash, txs[1..], k + 1);
      forall t | t in txs[1..] ensures t in txs {
      }
    }
  }

  /** Whatever a block's number held before, storing it adds only rows of its own transactions, under its hash. */
  lemma StoredRowsNameBlock(st: Store, b: Block, h: Hash)
    requires h in RowsOf(StoreBlock(st, b).txs, b.header.number)
    ensures var n := b.header.number;
            var row := RowsOf(StoreBlock(st, b).txs, n)[h];
            (h in RowsOf(st.txs, n) && row == RowsOf(st.txs, n)[h]) || RowOf(row, h, b.header.hash, b.txs)
  {
    InsertTxsRows(st.txs, b.header.number, b.header.hash, b.txs, 0);
    RowsNameBlock(RowsOf(st.txs, b.header.number), b.header.hash, b.txs, 0);
  }

  /** The same for a batch: each row names a block of the batch with that number and transaction. */
  ghost predicate RowOfBatch(row: TxRow, n: BlockNumber, bs: seq<Block>) {
    exists b :: b in bs && b.header.number == n && b.header.hash == row.blockHash && row.tx in b.txs
  }

  lemma {:induction false} FlatRowsNamed(t: TxTable, flat: seq<FlatTx>, k: nat, n: BlockNumber, h: Hash)
    requires h in RowsOf(InsertFlat(t, flat, k), n)
    ensures var row := RowsOf(InsertFlat(t, flat, k), n)[h];
            || (h in RowsOf(t, n) && row == RowsOf(t, n)[h])
            || exists f :: f in flat && f.number == n && f.blockHash == row.blockHash && f.tx == row.tx
    decreases |flat|
  {
    if flat != [] {
      var t1 := InsertTx(t, flat[0].number, flat[0].blockHash, flat[0].tx, k);
      FlatRowsNamed(t1, flat[1..], k + 1, n, h);
      assert flat[0] in flat;
      forall f | f in flat[1..] ensures f in flat {
      }
    }
  }

  lemma {:induction false} FlatOfBlocks(bs: seq<Block>, f: FlatTx)
    requires f in Flatten(bs)
    ensures exists b :: b in bs && b.header.number == f.number && b.header.hash == f.blockHash && f.tx in b.txs
    decreases |bs|
  {
    if f in Tag(bs[0].header, bs[0].txs) {
      assert bs[0] in bs;
    } else {
      FlatOfBlocks(bs[1..], f);
    }
  }

  lemma BatchRowsNameBlocks(st: Store, bs: seq<Block>, n: BlockNumber, h: Hash)
    requires bs != [] && BatchOk(bs) && h in RowsOf(BatchStore(st, bs).txs, n)
    ensures var row := RowsOf(BatchStore(st, bs).txs, n)[h];
            (h in RowsOf(st.txs, n) && row == RowsOf(st.txs, n)[h]) || RowOfBatch(row, n, bs)
  {
    FlatRowsNamed(st.txs, Flatten(bs), 0, n, h);
    var row := RowsOf(BatchStore(st, bs).txs, n)[h];
    if !(h in RowsOf(st.txs, n) && row == RowsOf(st.txs, n)[h]) {
      var f :| f in Flatten(bs) && f.number == n && f.blockHash == row.blockHash && f.tx == row.tx;
      FlatOfBlocks(bs, f);
    }
  }

  lemma {:induction false} WithSenderIsAll(txs: seq<Transaction>)
    ensures |WithSender(txs)| <= |txs|
    ensures AllSent(txs) ==> WithSender(txs) == txs
    ensures !AllSent(txs) ==> |WithSender(txs)| < |txs|
    decreases |txs|
  {
    if txs != [] {
      WithSenderIsAll(txs[..|txs| - 1]);
      assert txs == txs[..|txs| - 1] + [txs[|txs| - 1]];
    }
  }

  lemma {:induction false} DedupLength(txs: seq<Transaction>)
    ensures |Dedup(txs)| <= |txs|
    decreases |txs|
  {
    if txs != [] {
      DedupLength(txs[..|txs| - 1]);
    }
  }

  // ---------------------------------------------- batch refines one by one

  /** Block by block insertion; the index restarts for each block, or runs on. */
  function InsertBlocks(t: TxTable, bs: seq<Block>, k: nat, restart: bool): TxTable
    decreases |bs|
  {
    if bs == [] then t else
    var h := bs[0].header;
    InsertBlocks(InsertTxs(t, h.number, h.hash, bs[0].txs, k), bs[1..], if restart then 0 else k + |bs[0].txs|, restart)
  }

  function TxCount(bs: seq<Block>): nat
    decreases |bs|
  {
    if bs == [] then 0 else |bs[0].txs| + TxCount(bs[1..])
  }

  lemma {:induction false} InsertFlatTagged(t: TxTable, h: Header, txs: seq<Transaction>, rest: seq<FlatTx>, k: nat)
    ensures InsertFlat(t, Tag(h, txs) + rest, k)
         == InsertFlat(InsertTxs(t, h.number, h.hash, txs, k), rest, k + |txs|)
    decreases |txs|
  {
    if txs == [] {
      assert Tag(h, txs) + rest == rest;
    } else {
      var flat := Tag(h, txs) + rest;
      assert flat[1..] == Tag(h, txs[1..]) + rest;
      InsertFlatTagged(InsertTx(t, h.number, h.hash, txs[0], k), h, txs[1..], rest, k + 1);
    }
  }

  /** The batch's single numbered list is block by block insertion with a running index. */
  lemma {:induction false} FlatIsBlockwise(t: TxTable, bs: seq<Block>, k: nat)
    ensures InsertFlat(t, Flatten(bs), k) == InsertBlocks(t, bs, k, false)
    decreases |bs|
  {
    if bs != [] {
      var h := bs[0].header;
      InsertFlatTagged(t, h, bs[0].txs, Flatten(bs[1..]), k);
      FlatIsBlockwise(InsertTxs(t, h.number, h.hash, bs[0].txs, k), bs[1..], k + |bs[0].txs|);
    }
  }

  /** Consecutive blocks of cluster `c` starting at number `n`. */
  ghost predicate Contiguous(bs: seq<Block>, c: Address, n: BlockNumber) {
    forall i :: 0 <= i < |bs| ==> bs[i].header.number == n + i && bs[i].header.cluster == c
  }

  /** No table has a row for any of these blocks. */
  ghost predicate Unstored(t: TxTable, bs: seq<Block>) {
    forall b :: b in bs ==> RowsOf(t, b.header.number) == map[]
  }

  /** Every one of the blocks loads back as its own transactions, first occurrences only. */
  ghost predicate AllLoad(t: TxTable, bs: seq<Block>) {
    forall b :: b in bs ==> LoadsExactly(RowsOf(t, b.header.number), Kept(b.txs))
  }

  lemma {:induction false} BlocksLoad(t: TxTable, bs: seq<Block>, k: nat, restart: bool, c: Address, n: BlockNumber)
    requires Contiguous(bs, c, n) && Unstored(t, bs)
    requires if restart then k == 0 && forall b :: b in bs ==> |b.txs| <= U32_LIMIT else k + TxCount(bs) <= U32_LIMIT
    ensures AllLoad(InsertBlocks(t, bs, k, restart), bs)
    ensures forall m: BlockNumber ::
              m < n || n + |bs| <= m ==> RowsOf(InsertBlocks(t, bs, k, restart), m) == RowsOf(t, m)
    decreases |bs|
  {
    if bs != [] {
      var h := bs[0].header;
      var t1 := InsertTxs(t, n, h.hash, bs[0].txs, k);
      assert bs[0] in bs;
      InsertTxsRows(t, n, h.hash, bs[0].txs, k);
      InsertRowsIsList(h.hash, bs[0].txs, k);
      InsertLoads(h.hash, bs[0].txs, k);
      BlocksLoad(t1, bs[1..], if restart then 0 else k + |bs[0].txs|, restart, c, n + 1);
    }
  }

  lemma {:induction false} StoreAllTables(st: Store, bs: seq<Block>)
    ensures StoreAll(st, bs).headers == InsertHeaders(st.headers, bs)
    ensures StoreAll(st, bs).executed == InsertFlags(st.executed, bs)
    ensures StoreAll(st, bs).txs == InsertBlocks(st.txs, bs, 0, true)
    decreases |bs|
  {
    if bs != [] {
      StoreAllTables(StoreBlock(st, bs[0]), bs[1..]);
    }
  }

  lemma {:induction false} StoreAllHead(st: Store, bs: seq<Block>, c: Address)
    requires bs != [] && Contiguous(bs, c, ChainState(st, c).number + 1)
    ensures StoreAll(st, bs).heads == st.heads[c := Head(bs[|bs| - 1].header.number, bs[|bs| - 1].header.hash)]
    decreases |bs|
  {
    var st1 := StoreBlock(st, bs[0]);
    if |bs| > 1 {
      StoreAllHead(st1, bs[1..], c);
    }
  }

  lemma {:induction false} TxCountBounds(bs: seq<Block>)
    ensures forall b :: b in bs ==> |b.txs| <= TxCount(bs)
  {
    if bs != [] {
      TxCountBounds(bs[1..]);
    }
  }

  /** Both stores answer every read alike, whatever their sequence numbers. */
  ghost predicate SameReads(st: Store, st': Store) {
    && st.heads == st'.heads && st.headers == st'.headers && st.executed == st'.executed
    && forall n: BlockNumber :: LoadList(RowsOf(st.txs, n)) == LoadList(RowsOf(st'.txs, n))
  }

  lemma BatchLoads(st: Store, bs: seq<Block>, c: Address)
    requires bs != [] && Contiguous(bs, c, ChainState(st, c).number + 1) && Unstored(st.txs, bs)
    requires TxCount(bs) <= U32_LIMIT
    ensures var one, batch := InsertBlocks(st.txs, bs, 0, true), InsertFlat(st.txs, Flatten(bs), 0);
            && AllLoad(batch, bs) && AllLoad(one, bs)
            && (forall n: BlockNumber :: LoadList(RowsOf(batch, n)) == LoadList(RowsOf(one, n)))
  {
    var n0 := ChainState(st, c).number + 1;
    var one, batch := InsertBlocks(st.txs, bs, 0, true), InsertFlat(st.txs, Flatten(bs), 0);
    FlatIsBlockwise(st.txs, bs, 0);
    TxCountBounds(bs);
    BlocksLoad(st.txs, bs, 0, true, c, n0);
    BlocksLoad(st.txs, bs, 0, false, c, n0);
    forall n: BlockNumber ensures LoadList(RowsOf(batch, n)) == LoadList(RowsOf(one, n)) {
      if n0 <= n < n0 + |bs| {
        assert bs[n - n0] in bs && bs[n - n0].header.number == n;
      }
    }
  }

  /**
   * For consecutive new blocks on top of the head, whose transactions together fit the
   * sequence column: the batch and one-by-one storing agree on heads, headers, flags and on
   * what every block number loads, although their sequence numbers differ, if and only if
   * every transaction has a sender address.
   */
  lemma BatchRefinesSequentialIff(st: Store, bs: seq<Block>, c: Address)
    requires bs != [] && Contiguous(bs, c, ChainState(st, c).number + 1) && Unstored(st.txs, bs)
    requires TxCount(bs) <= U32_LIMIT
    ensures SameReads(BatchStore(st, bs), StoreAll(st, bs)) <==> BatchOk(bs)
    ensures AllLoad(StoreAll(st, bs).txs, bs) && (BatchOk(bs) ==> AllLoad(BatchStore(st, bs).txs, bs))
  {
    hide InsertFlat, InsertBlocks, AllLoad, BatchOk, LoadList;
    StoreAllTables(st, bs);
    StoreAllHead(st, bs, c);
    BatchLoads(st, bs, c);
    assert StoreAll(st, bs).heads[c].number == ChainState(st, c).number + |bs|;
  }

  /** One malformed key: one by one the block is stored without its transaction, the batch stores nothing but a flag. */
  lemma MalformedKeySplitsPaths()
    ensures var tx := Transaction(Hash(7), [1], None, 1, []);
            var b := Block(Header(1, Hash(5), ZERO_HASH, L1XTokenBlock, 9, 0, 1, 0, ZERO_HASH, 0), [tx]);
            var one, batch := StoreBlock(EMPTY, b), BatchStore(EMPTY, [b]);
            && ChainState(one, 9).number == 1 && 1 in one.headers && RowsOf(one.txs, 1) == map[]
            && ChainState(batch, 9).number == 0 && batch.headers == map[] && (9 as Address, 1) in batch.executed
  {
    var tx := Transaction(Hash(7), [1], None, 1, []);
    var b := Block(Header(1, Hash(5), ZERO_HASH, L1XTokenBlock, 9, 0, 1, 0, ZERO_HASH, 0), [tx]);
    assert [tx][1..] == [];
    assert InsertTxs(EMPTY.txs, 1, Hash(5), [tx], 0) == map[];
    assert !AllSent([tx]) && !BatchOk([b]) by {
      assert [tx][0].sender.None? && [b][0].txs == [tx];
    }
    assert [b][1..] == [];
    assert InsertFlags(map[], [b]) == map[(9 as Address, 1) := false];
  }

  // ------------------------------------------------- runs of block storing

  /** Every number from 1 to each cluster's head has a header. */
  ghost predicate HeadersCover(st: Store) {
    forall c, n: BlockNumber :: 1 <= n <= ChainState(st, c).number ==> n in st.headers
  }

  /** Nothing stored is ever lost or overwritten, and heads never go back. */
  ghost predicate Grows(st: Store, st': Store) {
    && (forall n :: n in st.headers ==> n in st'.headers && st'.headers[n] == st.headers[n])
    && (forall k :: k in st.executed ==> k in st'.executed && st'.executed[k] == st.executed[k])
    && (forall n: BlockNumber, h :: h in RowsOf(st.txs, n) ==>
          h in RowsOf(st'.txs, n) && RowsOf(st'.txs, n)[h] == RowsOf(st.txs, n)[h])
    && (forall c :: ChainState(st, c).number <= ChainState(st', c).number)
  }

  lemma {:induction false} InsertTxsGrows(t: TxTable, n: BlockNumber, blockHash: Hash, txs: seq<Transaction>, k: nat)
    ensures var t' := InsertTxs(t, n, blockHash, txs, k);
            forall m: BlockNumber, h :: h in RowsOf(t, m) ==> h in RowsOf(t', m) && RowsOf(t', m)[h] == RowsOf(t, m)[h]
    decreases |txs|
  {
    if txs != [] {
      InsertTxsGrows(InsertTx(t, n, blockHash, txs[0], k), n, blockHash, txs[1..], k + 1);
    }
  }

  lemma StoreBlockGrows(st: Store, b: Block)
    requires b.header.number >= 1
    ensures Grows(st, StoreBlock(st, b))
    ensures forall c :: ChainState(StoreBlock(st, b), c).number <= ChainState(st, c).number + 1
    ensures HeadersCover(st) ==> HeadersCover(StoreBlock(st, b))
  {
    InsertTxsGrows(st.txs, b.header.number, b.header.hash, b.txs, 0);
  }

  /** Any blocks, in any order and with repeats, for any number of clusters. */
  lemma {:induction false} StoreRunLaw(st: Store, bs: seq<Block>)
    requires HeadersCover(st) && forall b :: b in bs ==> b.header.number >= 1
    ensures Grows(st, StoreAll(st, bs)) && HeadersCover(StoreAll(st, bs))
    ensures forall c :: ChainState(StoreAll(st, bs), c).number <= ChainState(st, c).number + |bs|
    decreases |bs|
  {
    if bs != [] {
      StoreBlockGrows(st, bs[0]);
      StoreRunLaw(StoreBlock(st, bs[0]), bs[1..]);
    }
  }

  /** The head row names the header stored under its number. */
  ghost predicate HeadAgrees(st: Store, c: Address) {
    c in st.heads ==> st.heads[c].number in st.headers && st.headers[st.heads[c].number].hash == st.heads[c].hash
  }

  /**
   * Storing a block keeps the head row and the header table in agreement if and only if
   * it does not advance the head onto a number that already has another block's header.
   */
  lemma HeadAgreesIff(st: Store, b: Block)
    requires b.header.number >= 1 && HeadAgrees(st, b.header.cluster)
    ensures HeadAgrees(StoreBlock(st, b), b.header.cluster)
        <==> !(ChainState(st, b.header.cluster).number + 1 == b.header.number
               && b.header.number in st.headers && st.headers[b.header.number].hash != b.header.hash)
  {
  }

  /** Blocks 2, 1 and another 2 arrive: the head names the last one, the header table the first. */
  lemma HeadDisagrees()
    ensures var b2 := Block(Header(2, Hash(22), Hash(11), L1XTokenBlock, 9, 0, 0, 0, ZERO_HASH, 0), []);
            var b1 := Block(Header(1, Hash(11), ZERO_HASH, L1XTokenBlock, 9, 0, 0, 0, ZERO_HASH, 0), []);
            var rival := Block(Header(2, Hash(33), Hash(11), L1XTokenBlock, 9, 0, 0, 0, ZERO_HASH, 0), []);
            var st := StoreAll(EMPTY, [b2, b1, rival]);
            ChainState(st, 9) == Head(2, Hash(33)) && 2 in st.headers && st.headers[2].hash == Hash(22)
            && !HeadAgrees(st, 9)
  {
    var b2 := Block(Header(2, Hash(22), Hash(11), L1XTokenBlock, 9, 0, 0, 0, ZERO_HASH, 0), []);
    var b1 := Block(Header(1, Hash(11), ZERO_HASH, L1XTokenBlock, 9, 0, 0, 0, ZERO_HASH, 0), []);
    var rival := Block(Header(2, Hash(33), Hash(11), L1XTokenBlock, 9, 0, 0, 0, ZERO_HASH, 0), []);
    assert [b2, b1, rival][1..] == [b1, rival] && [b1, rival][1..] == [rival] && [rival][1..] == [];
    var st1 := StoreBlock(EMPTY, b2);
    var st2 := StoreBlock(st1, b1);
    assert ChainState(st1, 9).number == 0 && ChainState(st2, 9).number == 1;
    assert StoreAll(EMPTY, [b2, b1, rival]) == StoreAll(st1, [b1, rival]);
    assert StoreAll(st1, [b1, rival]) == StoreAll(st2, [rival]);
    assert StoreAll(st2, [rival]) == StoreBlock(st2, rival);
  }
}
