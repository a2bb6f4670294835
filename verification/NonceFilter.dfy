/**
 * `validate_nonce`: from the transactions offered for a block, keep for each sender
 * key the run of consecutive nonces that continues the sender's account.
 */
module NonceFilter {
  import opened Primitives
  import opened Ledger
  import opened ChainStore

  type Txs = seq<Transaction>

  /** The address of a verifying key, None for bytes that are no public key. */
  type AddressOf = Key -> Option<Address>

  // ------------------------------------------------------------ specification

  /** The transactions of one key, in their order in the list. */
  function Group(txs: Txs, key: Key): Txs
    decreases |txs|
  {
    if txs == [] then [] else
    var init, last := txs[..|txs| - 1], txs[|txs| - 1];
    if last.key == key then Group(init, key) + [last] else Group(init, key)
  }

  function InsertByNonce(tx: Transaction, sorted: Txs): Txs
    decreases |sorted|
  {
    if sorted == [] || tx.nonce <= sorted[0].nonce then [tx] + sorted
    else [sorted[0]] + InsertByNonce(tx, sorted[1..])
  }

  /** The stable sort by nonce. */
  function SortByNonce(txs: Txs): Txs
    decreases |txs|
  {
    if txs == [] then [] else InsertByNonce(txs[0], SortByNonce(txs[1..]))
  }

  /** The longest prefix whose nonces are prev + 1, prev + 2, ... */
  function ConsecutivePrefix(sorted: Txs, prev: nat): Txs
    decreases |sorted|
  {
    if sorted == [] || sorted[0].nonce != prev + 1 then []
    else [sorted[0]] + ConsecutivePrefix(sorted[1..], prev + 1)
  }

  function ValidFor(txs: Txs, key: Key, base: nat): Txs {
    ConsecutivePrefix(SortByNonce(Group(txs, key)), base)
  }

  function BaseNonce(rows: Rows, address: AddressOf, key: Key): nat
    requires address(key).Some?
  {
    GetNonce(rows, address(key).value)
  }

  function Keys(txs: Txs): set<Key> { set t | t in txs :: t.key }

  /** The keys in `done` have their valid run in `valid`, all others nothing. */
  ghost predicate Settled(txs: Txs, rows: Rows, address: AddressOf, done: set<Key>, valid: Txs) {
    && (forall k :: k in done ==> address(k).Some? && Group(valid, k) == ValidFor(txs, k, BaseNonce(rows, address, k)))
    && (forall k :: k !in done ==> Group(valid, k) == [])
  }

  /** `r` is a possible result for `txs`: each key's valid run, groups in any order. */
  ghost predicate Filtered(txs: Txs, rows: Rows, address: AddressOf, r: Txs) {
    Settled(txs, rows, address, Keys(txs), r)
  }

  // --------------------------------------------------------------- the method

  lemma KeysSnoc(txs: Txs, tx: Transaction)
    ensures Keys(txs + [tx]) == Keys(txs) + {tx.key}
  {
  }

  method GroupByKey(txs: Txs) returns (groups: map<Key, Txs>)
    ensures groups.Keys == Keys(txs)
    ensures forall k :: k in groups ==> groups[k] == Group(txs, k)
  {
    groups := map[];
    assert Keys([]) == {};
    hide Keys;
    for i := 0 to |txs|
      invariant groups.Keys == Keys(txs[..i])
      invariant forall k :: k in groups ==> groups[k] == Group(txs[..i], k)
    {
      var key := txs[i].key;
      assert txs[..i + 1][..i] == txs[..i] && txs[..i + 1] == txs[..i] + [txs[i]];
      KeysSnoc(txs[..i], txs[i]);
      GroupMembers(txs[..i], key);
      groups := groups[key := (if key in groups then groups[key] else []) + [txs[i]]];
    }
    assert txs[..|txs|] == txs;
  }

  /** Account nonces are below u128::MAX: the source adds one to them. */
  method ValidateNonce(txs: Txs, rows: Rows, address: AddressOf) returns (r: Option<Txs>)
    requires forall a :: a in rows ==> rows[a].nonce + 1 < U128_LIMIT
    ensures r.None? <==> exists k :: k in Keys(txs) && address(k).None?
    ensures r.Some? ==> Filtered(txs, rows, address, r.value)
  {
    var groups := GroupByKey(txs);
    var valid: Txs := [];
    hide Settled, Group, SortByNonce, ConsecutivePrefix;
    NothingSettled(txs, rows, address);
    assert groups.Keys - groups.Keys == {};
    var todo := groups.Keys;
    while todo != {}
      invariant todo <= groups.Keys
      invariant Settled(txs, rows, address, groups.Keys - todo, valid)
      decreases |todo|
    {
      var key :| key in todo;
      if address(key).None? { return None; }
      var base := GetNonce(rows, address(key).value);
      GroupMembers(txs, key);
      SortMembers(groups[key]);
      var run := TakeRun(SortByNonce(groups[key]), base, key);
      SettleKey(txs, rows, address, groups.Keys - todo, valid, key, run);
      assert groups.Keys - (todo - {key}) == groups.Keys - todo + {key};
      todo := todo - {key};
      valid := valid + run;
    }
    assert groups.Keys - todo == Keys(txs);
    SettledAddresses(txs, rows, address, Keys(txs), valid);
    r := Some(valid);
  }

  lemma SettledAddresses(txs: Txs, rows: Rows, address: AddressOf, done: set<Key>, valid: Txs)
    requires Settled(txs, rows, address, done, valid)
    ensures forall k :: k in done ==> address(k).Some?
  {
  }

  lemma NothingSettled(txs: Txs, rows: Rows, address: AddressOf)
    ensures Settled(txs, rows, address, {}, [])
  {
  }

  lemma SettleKey(txs: Txs, rows: Rows, address: AddressOf, done: set<Key>, valid: Txs, key: Key, run: Txs)
    requires Settled(txs, rows, address, done, valid) && key !in done && address(key).Some?
    requires run == ValidFor(txs, key, BaseNonce(rows, address, key)) && forall t :: t in run ==> t.key == key
    ensures Settled(txs, rows, address, done + {key}, valid + run)
  {
    forall k ensures Group(valid + run, k) == Group(valid, k) + if k == key then run else [] {
      GroupAppend(valid, run, key, k);
    }
  }

  method TakeRun(sorted: Txs, base: nat, key: Key) returns (run: Txs)
    requires forall t :: t in sorted ==> t.key == key
    ensures run == ConsecutivePrefix(sorted, base)
    ensures forall t :: t in run ==> t.key == key
  {
    run := [];
    var prev: nat := base;
    for i := 0 to |sorted|
      invariant run + ConsecutivePrefix(sorted[i..], prev) == ConsecutivePrefix(sorted, base)
      invariant forall t :: t in run ==> t.key == key
    {
      assert sorted[i..][1..] == sorted[i + 1..];
      if sorted[i].nonce == prev + 1 {
        run := run + [sorted[i]];
        prev := sorted[i].nonce;
      } else {
        break;
      }
    }
  }

  // ------------------------------------------------------------------- groups

  lemma {:induction false} GroupMembers(txs: Txs, key: Key)
    ensures key !in Keys(txs) ==> Group(txs, key) == []
    ensures forall t :: t in Group(txs, key) ==> t.key == key && t in txs
    decreases |txs|
  {
    if txs != [] {
      var init, last := txs[..|txs| - 1], txs[|txs| - 1];
      GroupMembers(init, key);
      assert last in txs && last.key in Keys(txs) && Keys(init) <= Keys(txs);
    }
  }

  lemma {:induction false} GroupAppend(a: Txs, run: Txs, key: Key, k: Key)
    requires forall t :: t in run ==> t.key == key
    ensures Group(a + run, k) == Group(a, k) + if k == key then run else []
    decreases |run|
  {
    if run == [] {
      assert a + run == a;
    } else {
      var init, last := run[..|run| - 1], run[|run| - 1];
      assert (a + run)[..|a + run| - 1] == a + init;
      assert run == init + [last] && last in run;
      GroupAppend(a, init, key, k);
    }
  }

  lemma {:induction false} InsertMembers(tx: Transaction, sorted: Txs)
    ensures multiset(InsertByNonce(tx, sorted)) == multiset{tx} + multiset(sorted)
    decreases |sorted|
  {
    if !(sorted == [] || tx.nonce <= sorted[0].nonce) {
      InsertMembers(tx, sorted[1..]);
      assert sorted == [sorted[0]] + sorted[1..];
    }
  }

  lemma {:induction false} SortMembers(txs: Txs)
    ensures multiset(SortByNonce(txs)) == multiset(txs)
    ensures forall t :: t in SortByNonce(txs) ==> t in txs
    decreases |txs|
  {
    if txs != [] {
      SortMembers(txs[1..]);
      InsertMembers(txs[0], SortByNonce(txs[1..]));
      assert txs == [txs[0]] + txs[1..];
      assert forall t :: t in SortByNonce(txs) ==> t in multiset(SortByNonce(txs));
    }
  }

  ghost predicate SortedByNonce(txs: Txs) {
    forall i, j :: 0 <= i < j < |txs| ==> txs[i].nonce <= txs[j].nonce
  }

  lemma {:induction false} InsertSorted(tx: Transaction, sorted: Txs)
    requires SortedByNonce(sorted)
    ensures SortedByNonce(InsertByNonce(tx, sorted))
    ensures forall t :: t in InsertByNonce(tx, sorted) ==> t == tx || t in sorted
    decreases |sorted|
  {
    if !(sorted == [] || tx.nonce <= sorted[0].nonce) {
      InsertSorted(tx, sorted[1..]);
      assert forall t :: t in InsertByNonce(tx, sorted[1..]) ==> t.nonce >= sorted[0].nonce;
    }
  }

  /** `SortByNonce` sorts: with `SortMembers`, a sorted permutation. */
  lemma {:induction false} SortSorts(txs: Txs)
    ensures SortedByNonce(SortByNonce(txs))
    decreases |txs|
  {
    if txs != [] {
      SortSorts(txs[1..]);
      InsertSorted(txs[0], SortByNonce(txs[1..]));
    }
  }

  // -------------------------------------------------------------- properties

  /** The run is the longest prefix of the sorted group that counts up from base + 1. */
  lemma {:induction false} PrefixIsLongest(sorted: Txs, base: nat)
    ensures var k := |ConsecutivePrefix(sorted, base)|;
            && k <= |sorted| && ConsecutivePrefix(sorted, base) == sorted[..k]
            && (forall j :: 0 <= j < k ==> sorted[j].nonce == base + 1 + j)
            && (k < |sorted| ==> sorted[k].nonce != base + 1 + k)
    decreases |sorted|
  {
    if sorted != [] && sorted[0].nonce == base + 1 {
      PrefixIsLongest(sorted[1..], base + 1);
      var k := |ConsecutivePrefix(sorted[1..], base + 1)|;
      assert sorted[..k + 1] == [sorted[0]] + sorted[1..][..k];
    }
  }

  /** A list that counts up from base + 1 is its own sorted, consecutive prefix. */
  lemma {:induction false} RunIsFixed(run: Txs, base: nat)
    requires forall j :: 0 <= j < |run| ==> run[j].nonce == base + 1 + j
    ensures SortByNonce(run) == run && ConsecutivePrefix(run, base) == run
    decreases |run|
  {
    if run != [] {
      RunIsFixed(run[1..], base + 1);
      assert run == [run[0]] + run[1..];
    }
  }

  /** Filtering is idempotent: a second pass over any result keeps every key's run. */
  lemma FilterIdempotent(txs: Txs, rows: Rows, address: AddressOf, r: Txs, again: Txs)
    requires Filtered(txs, rows, address, r) && Filtered(r, rows, address, again)
    ensures forall k :: Group(again, k) == Group(r, k)
  {
    forall k ensures Group(again, k) == Group(r, k) {
      GroupMembers(r, k);
      if k in Keys(r) {
        GroupNonempty(r, k);
        assert k in Keys(txs);
        var base := BaseNonce(rows, address, k);
        PrefixIsLongest(SortByNonce(Group(txs, k)), base);
        RunIsFixed(Group(r, k), base);
      }
    }
  }

  lemma {:induction false} GroupNonempty(txs: Txs, key: Key)
    ensures key in Keys(txs) <==> Group(txs, key) != []
    decreases |txs|
  {
    if txs != [] {
      var init, last := txs[..|txs| - 1], txs[|txs| - 1];
      GroupNonempty(init, key);
      assert txs == init + [last] && Keys(txs) == Keys(init) + {last.key};
    }
  }

  function WithNonce(txs: Txs, v: nat): Txs
    decreases |txs|
  {
    if txs == [] then [] else (if txs[0].nonce == v then [txs[0]] else []) + WithNonce(txs[1..], v)
  }

  lemma WithNonceCons(tx: Transaction, rest: Txs, v: nat)
    ensures WithNonce([tx] + rest, v) == (if tx.nonce == v then [tx] else []) + WithNonce(rest, v)
  {
    assert ([tx] + rest)[1..] == rest;
  }

  lemma {:induction false} InsertStable(tx: Transaction, sorted: Txs, v: nat)
    ensures WithNonce(InsertByNonce(tx, sorted), v) == (if tx.nonce == v then [tx] else []) + WithNonce(sorted, v)
    decreases |sorted|
  {
    hide WithNonce;
    if sorted == [] || tx.nonce <= sorted[0].nonce {
      WithNonceCons(tx, sorted, v);
    } else {
      var first, rest := sorted[0], sorted[1..];
      assert sorted == [first] + rest;
      InsertStable(tx, rest, v);
      WithNonceCons(first, rest, v);
      WithNonceCons(first, InsertByNonce(tx, rest), v);
    }
  }

  /** Transactions with equal nonces keep their order: the sort is stable. */
  lemma {:induction false} SortStable(txs: Txs, v: nat)
    ensures WithNonce(SortByNonce(txs), v) == WithNonce(txs, v)
    decreases |txs|
  {
    if txs != [] {
      SortStable(txs[1..], v);
      InsertStable(txs[0], SortByNonce(txs[1..]), v);
    }
  }

  // ------------------------------------------------------------------- replay

  /** Executing in order, each transaction must carry its sender's current nonce plus one. */
  function ReplayOk(rows: Rows, address: AddressOf, r: Txs): bool
    decreases |r|
  {
    if r == [] then true else
    var a := address(r[0].key);
    a.Some? && r[0].nonce == GetNonce(rows, a.value) + 1 && ReplayOk(IncrementNonce(rows, a.value), address, r[1..])
  }

  /** The transactions of one account, in order, whatever key bytes they name it by. */
  function ByAddress(r: Txs, address: AddressOf, a: Address): Txs
    decreases |r|
  {
    if r == [] then [] else (if address(r[0].key) == Some(a) then [r[0]] else []) + ByAddress(r[1..], address, a)
  }

  ghost predicate CountsUp(run: Txs, base: nat) {
    forall j :: 0 <= j < |run| ==> run[j].nonce == base + 1 + j
  }

  ghost predicate SendersExist(rows: Rows, address: AddressOf, r: Txs) {
    forall t :: t in r ==> address(t.key).Some? && address(t.key).value in rows
  }

  lemma CountsUpCons(tx: Transaction, run: Txs, base: nat)
    ensures CountsUp([tx] + run, base) <==> tx.nonce == base + 1 && CountsUp(run, base + 1)
  {
    if CountsUp([tx] + run, base) {
      assert ([tx] + run)[0] == tx;
      assert forall j :: 0 <= j < |run| ==> run[j] == ([tx] + run)[j + 1];
    }
  }

  /** A list replays exactly when every account's own transactions count up from its nonce. */
  lemma {:induction false} ReplayIff(rows: Rows, address: AddressOf, r: Txs)
    requires SendersExist(rows, address, r)
    ensures ReplayOk(rows, address, r)
        <==> forall a :: CountsUp(ByAddress(r, address, a), GetNonce(rows, a))
    decreases |r|
  {
    if r != [] {
      assert r[0] in r;
      var a0 := address(r[0].key).value;
      var base := GetNonce(rows, a0);
      CountsUpCons(r[0], ByAddress(r[1..], address, a0), base);
      if r[0].nonce == base + 1 {
        var rows' := IncrementNonce(rows, a0);
        assert forall a :: GetNonce(rows', a) == if a == a0 then base + 1 else GetNonce(rows, a);
        assert SendersExist(rows', address, r[1..]);
        ReplayIff(rows', address, r[1..]);
        forall a ensures CountsUp(ByAddress(r, address, a), GetNonce(rows, a))
                    <==> CountsUp(ByAddress(r[1..], address, a), GetNonce(rows', a)) {
          assert a != a0 ==> ByAddress(r, address, a) == ByAddress(r[1..], address, a);
        }
      }
    }
  }

  lemma {:induction false} GroupCons(tx: Transaction, rest: Txs, k: Key)
    ensures Group([tx] + rest, k) == (if tx.key == k then [tx] else []) + Group(rest, k)
    decreases |rest|
  {
    var all := [tx] + rest;
    if rest == [] {
      assert all[..0] == [];
    } else {
      var init, last := rest[..|rest| - 1], rest[|rest| - 1];
      assert all[..|all| - 1] == [tx] + init;
      GroupCons(tx, init, k);
    }
  }

  /** If only key `k` names account `a`, the account's transactions are the key's group. */
  lemma {:induction false} ByAddressIsGroup(r: Txs, address: AddressOf, a: Address, k: Key)
    requires forall t :: t in r ==> (address(t.key) == Some(a) <==> t.key == k)
    ensures ByAddress(r, address, a) == Group(r, k)
    decreases |r|
  {
    if r != [] {
      assert r[0] in r && r == [r[0]] + r[1..];
      ByAddressIsGroup(r[1..], address, a, k);
      GroupCons(r[0], r[1..], k);
    }
  }

  lemma {:induction false} ByAddressMembers(r: Txs, address: AddressOf, a: Address)
    ensures forall t :: t in ByAddress(r, address, a) <==> t in r && address(t.key) == Some(a)
    decreases |r|
  {
    if r != [] {
      ByAddressMembers(r[1..], address, a);
    }
  }

  /** Two different key encodings in the list stand for the same account. */
  ghost predicate SharedAddress(r: Txs, address: AddressOf) {
    exists k1, k2 :: k1 in Keys(r) && k2 in Keys(r) && k1 != k2 && address(k1) == address(k2)
  }

  lemma RunOfKey(txs: Txs, rows: Rows, address: AddressOf, r: Txs, k: Key)
    requires Filtered(txs, rows, address, r) && k in Keys(r)
    ensures address(k).Some? && Group(r, k) != [] && CountsUp(Group(r, k), BaseNonce(rows, address, k))
  {
    GroupNonempty(r, k);
    assert k in Keys(txs);
    PrefixIsLongest(SortByNonce(Group(txs, k)), BaseNonce(rows, address, k));
  }

  lemma TwiceIsNoCount(run: Txs, base: nat, t1: Transaction, t2: Transaction)
    requires t1 in run && t2 in run && t1 != t2 && t1.nonce == t2.nonce
    ensures !CountsUp(run, base)
  {
    var i :| 0 <= i < |run| && run[i] == t1;
    var j :| 0 <= j < |run| && run[j] == t2;
    assert i != j;
  }

  /** The first transaction of a key's run. */
  lemma FirstOfRun(txs: Txs, rows: Rows, address: AddressOf, r: Txs, k: Key) returns (t: Transaction)
    requires Filtered(txs, rows, address, r) && k in Keys(r)
    ensures t in r && t.key == k && address(k).Some? && t.nonce == BaseNonce(rows, address, k) + 1
  {
    RunOfKey(txs, rows, address, r, k);
    GroupMembers(r, k);
    t := Group(r, k)[0];
    assert t in Group(r, k);
  }

  lemma SharedAddressFails(txs: Txs, rows: Rows, address: AddressOf, r: Txs)
    requires Filtered(txs, rows, address, r) && SendersExist(rows, address, r) && SharedAddress(r, address)
    ensures !ReplayOk(rows, address, r)
  {
    var k1, k2 :| k1 in Keys(r) && k2 in Keys(r) && k1 != k2 && address(k1) == address(k2);
    hide Filtered, ReplayOk, ByAddress, CountsUp;
    var t1 := FirstOfRun(txs, rows, address, r, k1);
    var t2 := FirstOfRun(txs, rows, address, r, k2);
    var a := address(k1).value;
    ByAddressMembers(r, address, a);
    TwiceIsNoCount(ByAddress(r, address, a), GetNonce(rows, a), t1, t2);
    ReplayIff(rows, address, r);
  }

  /**
   * Whatever order the groups come out in, the filtered list replays on existing sender
   * accounts if and only if no two different key encodings in it name the same account.
   */
  lemma FilteredReplaysIff(txs: Txs, rows: Rows, address: AddressOf, r: Txs)
    requires Filtered(txs, rows, address, r) && SendersExist(rows, address, r)
    ensures ReplayOk(rows, address, r) <==> !SharedAddress(r, address)
  {
    if SharedAddress(r, address) {
      SharedAddressFails(txs, rows, address, r);
    } else {
      ReplayIff(rows, address, r);
      forall a ensures CountsUp(ByAddress(r, address, a), GetNonce(rows, a)) {
        ByAddressMembers(r, address, a);
        if ByAddress(r, address, a) != [] {
          var t := ByAddress(r, address, a)[0];
          assert t in ByAddress(r, address, a) && t.key in Keys(r);
          forall u | u in r && address(u.key) == Some(a) ensures u.key == t.key {
            assert u.key in Keys(r);
          }
          ByAddressIsGroup(r, address, a, t.key);
          RunOfKey(txs, rows, address, r, t.key);
        }
      }
    }
  }

  /** A sender without an account row starts at nonce 1, one with a row right behind its nonce. */
  lemma RunsStartBehindNonce(txs: Txs, rows: Rows, address: AddressOf, key: Key)
    requires address(key).Some?
    ensures var a, run := address(key).value, ValidFor(txs, key, BaseNonce(rows, address, key));
            run != [] ==> run[0].nonce == if a in rows then rows[a].nonce + 1 else 1
  {
  }

  lemma PairGroups(t1: Transaction, t2: Transaction, k: Key)
    requires t1.key != t2.key
    ensures Group([t1, t2], k) == (if k == t1.key then [t1] else if k == t2.key then [t2] else [])
    ensures Keys([t1, t2]) == {t1.key, t2.key}
  {
    assert [] + [t1] + [t2] == [t1, t2];
    GroupAppend([], [t1], t1.key, k);
    GroupAppend([] + [t1], [t2], t2.key, k);
    assert [t1, t2][0].key == t1.key && [t1, t2][1].key == t2.key;
  }

  /** Two transactions with an account's next nonce, under two keys of that account, both pass the filter. */
  lemma PairFiltered(rows: Rows, address: AddressOf, t1: Transaction, t2: Transaction)
    requires t1.key != t2.key && address(t1.key).Some? && address(t1.key) == address(t2.key)
    requires t1.nonce == t2.nonce == GetNonce(rows, address(t1.key).value) + 1
    ensures Filtered([t1, t2], rows, address, [t1, t2]) && SharedAddress([t1, t2], address)
  {
    hide ConsecutivePrefix, Group, Keys;
    var n := GetNonce(rows, address(t1.key).value);
    RunIsFixed([t1], n);
    RunIsFixed([t2], n);
    forall k ensures Group([t1, t2], k) == (if k == t1.key then [t1] else if k == t2.key then [t2] else []) {
      PairGroups(t1, t2, k);
    }
    PairGroups(t1, t2, t1.key);
    assert t1.key in Keys([t1, t2]) && t2.key in Keys([t1, t2]);
  }

  const COMPRESSED: Key := [2] + seq(32, _ => 1 as Byte)
  const UNCOMPRESSED: Key := [4] + seq(64, _ => 1 as Byte)

  /** One account under its compressed and its uncompressed key: both first nonces pass, the second cannot replay. */
  lemma TwoEncodingsDoNotReplay()
    ensures var address: AddressOf := (k: Key) => if k == COMPRESSED || k == UNCOMPRESSED then Some(1) else None;
            var rows: Rows := map[1 := Account(0, 0, User)];
            var t1 := Transaction(Hash(1), COMPRESSED, Some(1), 1, []);
            var t2 := Transaction(Hash(2), UNCOMPRESSED, Some(1), 1, []);
            Filtered([t1, t2], rows, address, [t1, t2]) && !ReplayOk(rows, address, [t1, t2])
  {
    hide Filtered, ReplayOk, SharedAddress;
    var address: AddressOf := (k: Key) => if k == COMPRESSED || k == UNCOMPRESSED then Some(1) else None;
    var rows: Rows := map[1 := Account(0, 0, User)];
    var t1 := Transaction(Hash(1), COMPRESSED, Some(1), 1, []);
    var t2 := Transaction(Hash(2), UNCOMPRESSED, Some(1), 1, []);
    assert COMPRESSED[0] != UNCOMPRESSED[0];
    PairFiltered(rows, address, t1, t2);
    SharedAddressFails([t1, t2], rows, address, [t1, t2]);
  }
}
