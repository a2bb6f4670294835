/**
 * `UpdatedState`: a write overlay over the database. Reads are cached in it,
 * writes are marked, deleted slots leave a tombstone, and `merge` lays one
 * overlay over another.
 *
 * `World` is the plain state that an overlay and its database stand for. Every
 * primitive write is defined on both sides, and `WriteRefinesIff` connects them.
 */
module StateOverlay {
  import opened Primitives
  import opened Ledger

  type SlotKey = nat
  type Value = nat
  type Slot = (Address, SlotKey)
  type Event = nat

  datatype ContractKind = L1XVM | EVM | XTALK
  datatype Contract = Contract(kind: ContractKind, code: nat)

  datatype Db = Db(accounts: Rows, contracts: map<Address, Contract>,
                   instances: map<Address, Address>, storage: map<Slot, Value>)

  // ---------------------------------------------------------------- overlays

  datatype Entry<+T> = Cached(cached: T) | Updated(updated: Option<T>)

  function Inner<T>(e: Entry<T>): Option<T> {
    match e
    case Cached(v) => Some(v)
    case Updated(v) => v
  }

  datatype Overlay = Overlay(accounts: map<Address, Entry<Account>>,
                             contracts: map<Address, Entry<Contract>>,
                             instances: map<Address, Entry<Address>>,
                             storage: map<Slot, Entry<Option<Value>>>,
                             events: seq<Event>)

  /** What a keyed read answers: the overlay's entry, else the database row. */
  function Lookup<K(==), T>(rows: map<K, T>, entries: map<K, Entry<T>>, k: K): Option<T> {
    if k in entries then Inner(entries[k]) else if k in rows then Some(rows[k]) else None
  }

  /** A read that reaches the database leaves a cached entry behind. */
  function Fetched<K(==), T>(rows: map<K, T>, entries: map<K, Entry<T>>, k: K): map<K, Entry<T>> {
    if k in entries || k !in rows then entries else entries[k := Cached(rows[k])]
  }

  type SlotEntries = map<Slot, Entry<Option<Value>>>

  function LookupSlot(rows: map<Slot, Value>, entries: SlotEntries, k: Slot): Option<Value> {
    if k in entries then
      match Inner(entries[k])
      case Some(v) => v
      case None => None
    else if k in rows then Some(rows[k]) else None
  }

  /** A slot read caches the answer even when the database has no row. */
  function FetchedSlot(rows: map<Slot, Value>, entries: SlotEntries, k: Slot): SlotEntries {
    if k in entries then entries else entries[k := Cached(LookupSlot(rows, entries, k))]
  }

  type AccountEntries = map<Address, Entry<Account>>

  function Put(entries: AccountEntries, a: Address, acc: Account): AccountEntries {
    entries[a := Updated(Some(acc))]
  }

  /**
   * `CachedStatus::update`, through which contracts and instances are stored: on a cached
   * entry it puts the cached value back over the new one.
   */
  function StoreEntry<K(==), T>(entries: map<K, Entry<T>>, k: K, v: T): map<K, Entry<T>> {
    entries[k := Updated(Some(if k in entries && entries[k].Cached? then entries[k].cached else v))]
  }

  function Merge(o: Overlay, other: Overlay): Overlay {
    Overlay(o.accounts + other.accounts, o.contracts + other.contracts, o.instances + other.instances,
            o.storage + other.storage, other.events)
  }

  // ------------------------------------------------------------------ writes

  datatype Write =
    | SetSlot(slot: Slot, value: Value)
    | DeleteSlot(slot: Slot)
    | Move(from: Address, to: Address, amount: U128)
    | Emit(event: Event)
    | BumpNonce(account: Address)
    | NewSystemAccount(account: Address)
    | PutContract(address: Address, contract: Contract)
    | PutInstance(address: Address, code: Address)

  /** `UpdatedState::transfer`; the flag is false when it returns an error. */
  function MoveEntries(rows: Rows, e: AccountEntries, from: Address, to: Address, amount: U128)
    : (AccountEntries, bool)
  {
    var sender := Lookup(rows, e, from);
    var e1 := Fetched(rows, e, from);
    if sender.None? || sender.value.balance < amount then (e1, false) else
    var debited := sender.value.(balance := sender.value.balance - amount);
    var found := Lookup(rows, e1, to);
    var e2 := if found.Some? then Fetched(rows, e1, to) else Put(e1, to, NewAccount());
    var recipient := if found.None? then NewAccount() else if from == to then debited else found.value;
    if recipient.balance + amount >= U128_LIMIT then (e2, false)
    else (Put(Put(e2, from, debited), to, recipient.(balance := recipient.balance + amount)), true)
  }

  function BumpEntries(rows: Rows, e: AccountEntries, a: Address): (AccountEntries, bool) {
    var found := Lookup(rows, e, a);
    var e1 := Fetched(rows, e, a);
    if found.None? || found.value.nonce + 1 >= U128_LIMIT then (e1, false)
    else (Put(e1, a, found.value.(nonce := found.value.nonce + 1)), true)
  }

  /** `create_account`: refuses an address that is already an account. */
  function CreateEntries(rows: Rows, e: AccountEntries, a: Address): (AccountEntries, bool) {
    if Lookup(rows, e, a).Some? then (Fetched(rows, e, a), false) else (Put(e, a, Account(0, 0, System)), true)
  }

  /** One primitive write on an overlay; a failed one may still leave cached reads. */
  function OverlayWrite(db: Db, o: Overlay, w: Write): (Overlay, bool) {
    match w
    case SetSlot(k, v) => (o.(storage := o.storage[k := Updated(Some(Some(v)))]), true)
    case DeleteSlot(k) => (o.(storage := o.storage[k := Updated(None)]), true)
    case Move(from, to, amount) =>
      var (e, ok) := MoveEntries(db.accounts, o.accounts, from, to, amount);
      (o.(accounts := e), ok)
    case Emit(e) => (o.(events := o.events + [e]), true)
    case BumpNonce(a) =>
      var (e, ok) := BumpEntries(db.accounts, o.accounts, a);
      (o.(accounts := e), ok)
    case NewSystemAccount(a) =>
      var (e, ok) := CreateEntries(db.accounts, o.accounts, a);
      (o.(accounts := e), ok)
    case PutContract(a, c) => (o.(contracts := StoreEntry(o.contracts, a, c)), true)
    case PutInstance(a, c) => (o.(instances := StoreEntry(o.instances, a, c)), true)
  }

  // ------------------------------------------------------------ plain states

  datatype World = World(accounts: Rows, contracts: map<Address, Contract>,
                         instances: map<Address, Address>, storage: map<Slot, Value>, events: seq<Event>)

  ghost function Effective<K(!new), T>(rows: map<K, T>, entries: map<K, Entry<T>>): map<K, T> {
    map k | k in rows.Keys + entries.Keys && Lookup(rows, entries, k).Some? :: Lookup(rows, entries, k).value
  }

  ghost function EffectiveSlots(rows: map<Slot, Value>, entries: SlotEntries): map<Slot, Value> {
    map k | k in rows.Keys + entries.Keys && LookupSlot(rows, entries, k).Some? :: LookupSlot(rows, entries, k).value
  }

  ghost function View(db: Db, o: Overlay): World {
    World(Effective(db.accounts, o.accounts), Effective(db.contracts, o.contracts),
          Effective(db.instances, o.instances), EffectiveSlots(db.storage, o.storage), o.events)
  }

  function WorldMove(rows: Rows, from: Address, to: Address, amount: U128): (Rows, bool) {
    if from !in rows || rows[from].balance < amount then (rows, false)
    else if from == to then (rows, true)
    else if Balance(rows, to) + amount >= U128_LIMIT then (rows, false)
    else
      var recipient := if to in rows then rows[to] else NewAccount();
      (rows[from := rows[from].(balance := rows[from].balance - amount)]
           [to := recipient.(balance := recipient.balance + amount)], true)
  }

  function WorldWrite(s: World, w: Write): (World, bool) {
    match w
    case SetSlot(k, v) => (s.(storage := s.storage[k := v]), true)
    case DeleteSlot(k) => (s.(storage := s.storage - {k}), true)
    case Move(from, to, amount) =>
      var (rows, ok) := WorldMove(s.accounts, from, to, amount);
      (s.(accounts := rows), ok)
    case Emit(e) => (s.(events := s.events + [e]), true)
    case BumpNonce(a) =>
      if a !in s.accounts || s.accounts[a].nonce + 1 >= U128_LIMIT then (s, false)
      else (s.(accounts := s.accounts[a := s.accounts[a].(nonce := s.accounts[a].nonce + 1)]), true)
    case NewSystemAccount(a) =>
      if a in s.accounts then (s, false)
      else (s.(accounts := s.accounts[a := Account(0, 0, System)]), true)
    case PutContract(a, c) => (s.(contracts := s.contracts[a := c]), true)
    case PutInstance(a, c) => (s.(instances := s.instances[a := c]), true)
  }

  /** What each write means to the reads that follow, and that it leaves everything else alone. */
  lemma WriteMeans(s: World, w: Write)
    ensures var (t, ok) := WorldWrite(s, w);
            && (!ok ==> t == s)
            && (w.SetSlot? ==> && ok && t == s.(storage := t.storage) && w.slot in t.storage
                               && t.storage[w.slot] == w.value && t.storage - {w.slot} == s.storage - {w.slot})
            && (w.DeleteSlot? ==> && ok && t == s.(storage := t.storage) && w.slot !in t.storage
                                  && t.storage == s.storage - {w.slot})
            && (w.Emit? ==> ok && t == s.(events := t.events) && t.events == s.events + [w.event])
            && (w.PutContract? ==> && ok && t == s.(contracts := t.contracts) && w.address in t.contracts
                                   && t.contracts[w.address] == w.contract
                                   && t.contracts - {w.address} == s.contracts - {w.address})
            && (w.PutInstance? ==> && ok && t == s.(instances := t.instances) && w.address in t.instances
                                   && t.instances[w.address] == w.code
                                   && t.instances - {w.address} == s.instances - {w.address})
            && (w.BumpNonce? ==>
                  && (ok <==> w.account in s.accounts && s.accounts[w.account].nonce < U128_LIMIT - 1)
                  && (ok ==> t == s.(accounts := s.accounts[w.account := t.accounts[w.account]])
                             && t.accounts[w.account].nonce == s.accounts[w.account].nonce + 1
                             && t.accounts[w.account].balance == s.accounts[w.account].balance
                             && t.accounts[w.account].kind == s.accounts[w.account].kind))
            && (w.NewSystemAccount? ==>
                  && (ok <==> w.account !in s.accounts)
                  && (ok ==> t == s.(accounts := s.accounts[w.account := Account(0, 0, System)])))
  {
  }

  /** A transfer between accounts: exactly when it happens, and what each of the two has then. */
  lemma MoveMeans(rows: Rows, from: Address, to: Address, amount: U128)
    ensures var (after, ok) := WorldMove(rows, from, to, amount);
            && (ok <==> from in rows && rows[from].balance >= amount
                        && (from == to || Balance(rows, to) + amount < U128_LIMIT))
            && (!ok || from == to ==> after == rows)
            && (ok && from != to ==>
                  && after.Keys == rows.Keys + {to}
                  && after[from] == Account(rows[from].balance - amount, rows[from].nonce, rows[from].kind)
                  && after[to] == (if to in rows then Account(rows[to].balance + amount, rows[to].nonce, rows[to].kind)
                                   else Account(amount, 0, User))
                  && forall a :: a in rows && a != from && a != to ==> after[a] == rows[a])
  {
  }

  // -------------------------------------------------------------- refinement

  /** `o2` was reached from `o1`: entries are never dropped and events only appended. */
  ghost predicate Extends(o1: Overlay, o2: Overlay) {
    && o1.accounts.Keys <= o2.accounts.Keys && o1.contracts.Keys <= o2.contracts.Keys
    && o1.instances.Keys <= o2.instances.Keys && o1.storage.Keys <= o2.storage.Keys
    && o1.events <= o2.events
  }

  /** Merging an overlay that was cloned from `o` and only grew adopts it outright. */
  lemma MergeAdopts(o: Overlay, clone: Overlay)
    requires Extends(o, clone)
    ensures Merge(o, clone) == clone
  {
  }

  lemma FetchKeepsEffective<K(!new), T>(rows: map<K, T>, entries: map<K, Entry<T>>, k: K)
    ensures Effective(rows, Fetched(rows, entries, k)) == Effective(rows, entries)
    ensures Lookup(rows, entries, k).Some? <==> k in Effective(rows, entries)
    ensures k in Effective(rows, entries) ==> Effective(rows, entries)[k] == Lookup(rows, entries, k).value
  {
  }

  lemma PutEffective<K(!new), T>(rows: map<K, T>, entries: map<K, Entry<T>>, k: K, v: T)
    ensures Effective(rows, entries[k := Updated(Some(v))]) == Effective(rows, entries)[k := v]
  {
  }

  lemma MoveRefines(rows: Rows, e: AccountEntries, from: Address, to: Address, amount: U128)
    ensures var (e', ok) := MoveEntries(rows, e, from, to, amount);
            e.Keys <= e'.Keys && (Effective(rows, e'), ok) == WorldMove(Effective(rows, e), from, to, amount)
  {
    hide Effective, Lookup;
    var plain := Effective(rows, e);
    var sender := Lookup(rows, e, from);
    var e1 := Fetched(rows, e, from);
    FetchKeepsEffective(rows, e, from);
    if sender.Some? && sender.value.balance >= amount {
      var debited := sender.value.(balance := sender.value.balance - amount);
      FetchKeepsEffective(rows, e1, to);
      if Lookup(rows, e1, to).None? {
        PutEffective(rows, e1, to, NewAccount());
        var credited := NewAccount().(balance := amount);
        var e2 := Put(e1, to, NewAccount());
        PutEffective(rows, e2, from, debited);
        PutEffective(rows, Put(e2, from, debited), to, credited);
        assert plain[to := NewAccount()][from := debited][to := credited] == plain[from := debited][to := credited];
      } else {
        var e2 := Fetched(rows, e1, to);
        var recipient := if from == to then debited else Lookup(rows, e1, to).value;
        if recipient.balance + amount < U128_LIMIT {
          PutEffective(rows, e2, from, debited);
          PutEffective(rows, Put(e2, from, debited), to, recipient.(balance := recipient.balance + amount));
          var settled: Rows := plain[from := debited];
          assert from == to ==> settled[from := sender.value] == plain;
        }
      }
    }
  }

  lemma BumpRefines(rows: Rows, e: AccountEntries, a: Address)
    ensures var (e', ok) := BumpEntries(rows, e, a);
            var plain := Effective(rows, e);
            && e.Keys <= e'.Keys
            && (ok <==> a in plain && plain[a].nonce + 1 < U128_LIMIT)
            && Effective(rows, e')
               == if ok then plain[a := plain[a].(nonce := plain[a].nonce + 1)] else plain
  {
    FetchKeepsEffective(rows, e, a);
    var found := Lookup(rows, e, a);
    if found.Some? && found.value.nonce + 1 < U128_LIMIT {
      PutEffective(rows, Fetched(rows, e, a), a, found.value.(nonce := found.value.nonce + 1));
    }
  }

  lemma CreateRefines(rows: Rows, e: AccountEntries, a: Address)
    ensures var (e', ok) := CreateEntries(rows, e, a);
            var plain := Effective(rows, e);
            && e.Keys <= e'.Keys && (ok <==> a !in plain)
            && Effective(rows, e') == if ok then plain[a := Account(0, 0, System)] else plain
  {
    FetchKeepsEffective(rows, e, a);
    PutEffective(rows, e, a, Account(0, 0, System));
  }

  lemma SetSlotRefines(rows: map<Slot, Value>, entries: SlotEntries, k: Slot, v: Value)
    ensures EffectiveSlots(rows, entries[k := Updated(Some(Some(v)))]) == EffectiveSlots(rows, entries)[k := v]
  {
  }

  /** A tombstone hides the database row. */
  lemma DeleteSlotRefines(rows: map<Slot, Value>, entries: SlotEntries, k: Slot)
    ensures EffectiveSlots(rows, entries[k := Updated(None)]) == EffectiveSlots(rows, entries) - {k}
  {
  }

  lemma FetchedSlotKeepsEffective(rows: map<Slot, Value>, entries: SlotEntries, k: Slot)
    ensures EffectiveSlots(rows, FetchedSlot(rows, entries, k)) == EffectiveSlots(rows, entries)
  {
  }

  /** Storing `v` would not be undone by a cached entry with another value. */
  predicate Storable<K(==), T(==)>(entries: map<K, Entry<T>>, k: K, v: T) {
    k in entries && entries[k].Cached? ==> entries[k].cached == v
  }

  predicate Lossless(o: Overlay, w: Write) {
    match w
    case PutContract(a, c) => Storable(o.contracts, a, c)
    case PutInstance(a, c) => Storable(o.instances, a, c)
    case _ => true
  }

  lemma StoreEffectiveIff<K(!new), T>(rows: map<K, T>, entries: map<K, Entry<T>>, k: K, v: T)
    ensures Effective(rows, StoreEntry(entries, k, v)) == Effective(rows, entries)[k := v]
        <==> (k in entries && entries[k].Cached? ==> entries[k].cached == v)
  {
    var stored := StoreEntry(entries, k, v);
    PutEffective(rows, entries, k, Inner(stored[k]).value);
    if k in entries && entries[k].Cached? && entries[k].cached != v {
      assert Effective(rows, stored)[k] == entries[k].cached;
    }
  }

  /**
   * A primitive write on an overlay is the plain write on the state it stands for, with the
   * same success, exactly if it is no store over a cached entry with another value.
   */
  lemma WriteRefinesIff(db: Db, o: Overlay, w: Write)
    ensures Extends(o, OverlayWrite(db, o, w).0)
    ensures var (o', ok) := OverlayWrite(db, o, w);
            (View(db, o'), ok) == WorldWrite(View(db, o), w) <==> Lossless(o, w)
  {
    hide Effective, EffectiveSlots, MoveEntries, WorldMove, StoreEntry;
    match w
    case SetSlot(k, v) =>
      SetSlotRefines(db.storage, o.storage, k, v);
    case DeleteSlot(k) =>
      DeleteSlotRefines(db.storage, o.storage, k);
    case Move(from, to, amount) => MoveRefines(db.accounts, o.accounts, from, to, amount);
    case Emit(e) =>
    case BumpNonce(a) => BumpRefines(db.accounts, o.accounts, a);
    case NewSystemAccount(a) => CreateRefines(db.accounts, o.accounts, a);
    case PutContract(a, c) =>
      StoreEffectiveIff(db.contracts, o.contracts, a, c);
      StoreKeys(o.contracts, a, c);
    case PutInstance(a, c) =>
      StoreEffectiveIff(db.instances, o.instances, a, c);
      StoreKeys(o.instances, a, c);
  }

  lemma StoreKeys<K, T>(entries: map<K, Entry<T>>, k: K, v: T)
    ensures entries.Keys <= StoreEntry(entries, k, v).Keys
  {
  }

  /** A contract read before it is stored again keeps its old code. */
  lemma CachedContractSurvivesStore()
    ensures var before, after := Contract(EVM, 1), Contract(EVM, 2);
            var db := Db(map[], map[9 := before], map[], map[]);
            var o := Overlay(map[], Fetched(db.contracts, map[], 9), map[], map[], []);
            var stored := OverlayWrite(db, o, PutContract(9, after)).0;
            && Lookup(db.contracts, stored.contracts, 9) == Some(before)
            && WorldWrite(View(db, o), PutContract(9, after)).0.contracts[9] == after
            && !Lossless(o, PutContract(9, after))
  {
  }

  // ------------------------------------------------------------------ commit

  /** A cached account agrees with its row, and an update never changes an account's kind. */
  ghost predicate AccountConsistent(rows: Rows, e: AccountEntries, a: Address) {
    a in e ==>
      match e[a]
      case Cached(acc) => a in rows && rows[a] == acc
      case Updated(v) => v.Some? && (a in rows ==> v.value.kind == rows[a].kind)
  }

  ghost predicate AccountsConsistent(rows: Rows, e: AccountEntries) {
    forall a :: AccountConsistent(rows, e, a)
  }

  ghost predicate SlotsConsistent(rows: map<Slot, Value>, e: SlotEntries) {
    forall k :: k in e && e[k].Cached? ==> e[k].cached == (if k in rows then Some(rows[k]) else None)
  }

  /** A cached entry agrees with its row, and what was stored is new. */
  ghost predicate InsertsConsistent<T(!new)>(rows: map<Address, T>, e: map<Address, Entry<T>>) {
    forall a :: a in e ==>
      match e[a]
      case Cached(v) => a in rows && rows[a] == v
      case Updated(v) => v.Some? && a !in rows
  }

  ghost predicate Consistent(db: Db, o: Overlay) {
    && AccountsConsistent(db.accounts, o.accounts) && SlotsConsistent(db.storage, o.storage)
    && InsertsConsistent(db.contracts, o.contracts) && InsertsConsistent(db.instances, o.instances)
  }

  /** The write stores no contract or instance that has a row. */
  predicate Harmless(db: Db, w: Write) {
    match w
    case PutContract(a, _) => a !in db.contracts
    case PutInstance(a, _) => a !in db.instances
    case _ => true
  }

  lemma HarmlessIsLossless(db: Db, o: Overlay, w: Write)
    requires Consistent(db, o) && Harmless(db, w)
    ensures Lossless(o, w)
  {
    hide AccountsConsistent, SlotsConsistent;
  }

  predicate HasUpdate(e: AccountEntries, a: Address) { a in e && e[a].Updated? && e[a].updated.Some? }

  /** The row `commit` leaves for a written account: `update_account` keeps the kind of an existing row. */
  function CommitRow(rows: Rows, e: AccountEntries, a: Address): Account
    requires a in rows || HasUpdate(e, a)
  {
    if !HasUpdate(e, a) then rows[a]
    else if a in rows then e[a].updated.value.(kind := rows[a].kind) else e[a].updated.value
  }

  function CommitAccounts(rows: Rows, e: AccountEntries): Rows {
    map a | a in rows.Keys + e.Keys && (a in rows || HasUpdate(e, a)) :: CommitRow(rows, e, a)
  }

  /** A commit writes balance and nonce of an updated account; a row that exists keeps its kind. */
  lemma CommitWrites(rows: Rows, e: AccountEntries, a: Address)
    ensures a in CommitAccounts(rows, e) <==> a in rows || HasUpdate(e, a)
    ensures HasUpdate(e, a) ==>
              var row, acc := CommitAccounts(rows, e)[a], e[a].updated.value;
              && row.balance == acc.balance && row.nonce == acc.nonce
              && row.kind == if a in rows then rows[a].kind else acc.kind
    ensures a in rows && !HasUpdate(e, a) ==> CommitAccounts(rows, e)[a] == rows[a]
  {
  }

  lemma CommitNothing(rows: Rows)
    ensures CommitAccounts(rows, map[]) == rows
  {
  }

  /** One more entry committed. */
  lemma CommitOneMore(rows: Rows, done: AccountEntries, a: Address, entry: Entry<Account>)
    requires a !in done && entry != Updated(None)
    ensures var r := CommitAccounts(rows, done);
            CommitAccounts(rows, done[a := entry]) == CommitEntry(r, a, entry)
  {
    var more := done[a := entry];
    forall b | b != a && (b in rows || HasUpdate(done, b))
      ensures CommitRow(rows, more, b) == CommitRow(rows, done, b)
    {
    }
  }

  /** The account loop of `commit`, in whatever order the hash map is walked; a deleted account is an error. */
  method CommitAccountRows(rows: Rows, e: AccountEntries) returns (r: Option<Rows>)
    ensures r.None? <==> exists a :: a in e && e[a] == Updated(None)
    ensures r.Some? ==> r.value == CommitAccounts(rows, e)
  {
    hide CommitAccounts;
    var out := rows;
    var todo := e.Keys;
    assert e - todo == map[];
    CommitNothing(rows);
    while todo != {}
      invariant todo <= e.Keys && forall a :: a in e && a !in todo ==> e[a] != Updated(None)
      invariant out == CommitAccounts(rows, e - todo)
      decreases |todo|
    {
      var a :| a in todo;
      if e[a] == Updated(None) {
        return None;
      }
      CommitOneMore(rows, e - todo, a, e[a]);
      assert e - (todo - {a}) == (e - todo)[a := e[a]];
      todo := todo - {a};
      out := CommitEntry(out, a, e[a]);
    }
    assert e - todo == e;
    r := Some(out);
  }

  /** `update_account`: a new row, or balance and nonce of the existing one. */
  function CommitEntry(rows: Rows, a: Address, entry: Entry<Account>): Rows
    requires entry != Updated(None)
  {
    match entry
    case Cached(_) => rows
    case Updated(v) =>
      if a in rows then rows[a := rows[a].(balance := v.value.balance, nonce := v.value.nonce)]
      else rows[a := v.value]
  }

  /** The rows `commit` leaves of a table it only inserts into. */
  ghost function CommitInserts<T(!new)>(rows: map<Address, T>, e: map<Address, Entry<T>>): map<Address, T> {
    map a | a in rows.Keys + e.Keys && (a in rows || Inserted(e, a)) ::
      if Inserted(e, a) then e[a].updated.value else rows[a]
  }

  predicate Inserted<T>(e: map<Address, Entry<T>>, a: Address) {
    a in e && e[a].Updated? && e[a].updated.Some?
  }

  lemma InsertNothing<T(!new)>(rows: map<Address, T>)
    ensures CommitInserts(rows, map[]) == rows
  {
  }

  lemma InsertOneMore<T(!new)>(rows: map<Address, T>, done: map<Address, Entry<T>>, a: Address, entry: Entry<T>)
    requires a !in done
    ensures var r := CommitInserts(rows, done);
            && CommitInserts(rows, done[a := entry])
               == (if entry.Updated? && entry.updated.Some? then r[a := entry.updated.value] else r)
            && (a in r <==> a in rows)
  {
  }

  /** The contract and instance loops of `commit`: a deleted entry is an error, and so is a row that exists. */
  method CommitInsertRows<T(!new)>(rows: map<Address, T>, e: map<Address, Entry<T>>)
      returns (r: Option<map<Address, T>>)
    ensures r.None? <==> exists a :: a in e && e[a].Updated? && (e[a].updated.None? || a in rows)
    ensures r.Some? ==> r.value == CommitInserts(rows, e)
  {
    hide CommitInserts;
    var out := rows;
    var todo := e.Keys;
    assert e - todo == map[];
    InsertNothing(rows);
    while todo != {}
      invariant todo <= e.Keys && out == CommitInserts(rows, e - todo)
      invariant forall a :: a in e && a !in todo && e[a].Updated? ==> e[a].updated.Some? && a !in rows
      decreases |todo|
    {
      var a :| a in todo;
      InsertOneMore(rows, e - todo, a, e[a]);
      assert e - (todo - {a}) == (e - todo)[a := e[a]];
      if e[a].Updated? {
        if e[a].updated.None? || a in out {
          return None;
        }
        out := out[a := e[a].updated.value];
      }
      todo := todo - {a};
    }
    assert e - todo == e;
    r := Some(out);
  }

  lemma CommitInsertsIsView<T(!new)>(rows: map<Address, T>, e: map<Address, Entry<T>>)
    requires InsertsConsistent(rows, e)
    ensures CommitInserts(rows, e) == Effective(rows, e)
    ensures forall a :: a in e && e[a].Updated? ==> e[a].updated.Some? && a !in rows
  {
  }

  ghost function CommitSlots(rows: map<Slot, Value>, e: SlotEntries): map<Slot, Value> {
    map k | k in rows.Keys + e.Keys
            && (if k in e && e[k].Updated? then LookupSlot(rows, e, k).Some? else k in rows) ::
      if k in e && e[k].Updated? then LookupSlot(rows, e, k).value else rows[k]
  }

  /** The tables `commit` leaves, events apart. */
  ghost function Commit(db: Db, o: Overlay): Db {
    Db(CommitAccounts(db.accounts, o.accounts), CommitInserts(db.contracts, o.contracts),
       CommitInserts(db.instances, o.instances), CommitSlots(db.storage, o.storage))
  }

  /** No deleted account, and no contract or instance whose row exists: the error exits of `commit`. */
  ghost predicate Committable(db: Db, o: Overlay) {
    && (forall a :: a in o.accounts ==> o.accounts[a] != Updated(None))
    && (forall a :: a in o.contracts && o.contracts[a].Updated? ==> o.contracts[a].updated.Some? && a !in db.contracts)
    && (forall a :: a in o.instances && o.instances[a].Updated? ==> o.instances[a].updated.Some? && a !in db.instances)
  }

  /** Committing succeeds and turns the overlay's state into the database's: nothing is lost or left over. */
  lemma CommitIsView(db: Db, o: Overlay)
    requires Consistent(db, o)
    ensures Committable(db, o)
    ensures var s := View(db, o); Commit(db, o) == Db(s.accounts, s.contracts, s.instances, s.storage)
  {
    hide AccountsConsistent, InsertsConsistent, CommitAccounts, CommitInserts, Effective;
    CommitAccountsIsView(db.accounts, o.accounts);
    CommitInsertsIsView(db.contracts, o.contracts);
    CommitInsertsIsView(db.instances, o.instances);
  }

  lemma CommitAccountsIsView(rows: Rows, e: AccountEntries)
    requires AccountsConsistent(rows, e)
    ensures forall a :: a in e ==> e[a] != Updated(None)
    ensures CommitAccounts(rows, e) == Effective(rows, e)
  {
    forall a | a in e ensures e[a] != Updated(None) {
      assert AccountConsistent(rows, e, a);
    }
    forall a | a in rows || a in e
      ensures a in CommitAccounts(rows, e) && a in Effective(rows, e)
      ensures CommitAccounts(rows, e)[a] == Effective(rows, e)[a]
    {
      assert AccountConsistent(rows, e, a);
    }
  }

  lemma FetchConsistent(rows: Rows, e: AccountEntries, a: Address)
    requires AccountsConsistent(rows, e)
    ensures AccountsConsistent(rows, Fetched(rows, e, a))
    ensures var found := Lookup(rows, e, a);
            (found.None? ==> a !in rows) && (found.Some? && a in rows ==> found.value.kind == rows[a].kind)
  {
    assert AccountConsistent(rows, e, a);
    forall b ensures AccountConsistent(rows, Fetched(rows, e, a), b) {
      assert AccountConsistent(rows, e, b);
    }
  }

  lemma PutConsistent(rows: Rows, e: AccountEntries, a: Address, acc: Account)
    requires AccountsConsistent(rows, e) && (a in rows ==> acc.kind == rows[a].kind)
    ensures AccountsConsistent(rows, Put(e, a, acc))
  {
    forall b ensures AccountConsistent(rows, Put(e, a, acc), b) {
      assert AccountConsistent(rows, e, b);
    }
  }

  lemma MoveConsistent(rows: Rows, e: AccountEntries, from: Address, to: Address, amount: U128)
    requires AccountsConsistent(rows, e)
    ensures AccountsConsistent(rows, MoveEntries(rows, e, from, to, amount).0)
  {
    hide AccountsConsistent, Fetched, Lookup, Put;
    var sender := Lookup(rows, e, from);
    var e1 := Fetched(rows, e, from);
    FetchConsistent(rows, e, from);
    if sender.Some? && sender.value.balance >= amount {
      var debited := sender.value.(balance := sender.value.balance - amount);
      var found := Lookup(rows, e1, to);
      FetchConsistent(rows, e1, to);
      var recipient := if found.None? then NewAccount() else if from == to then debited else found.value;
      if found.None? {
        PutConsistent(rows, e1, to, NewAccount());
      }
      var e2 := if found.Some? then Fetched(rows, e1, to) else Put(e1, to, NewAccount());
      if recipient.balance + amount < U128_LIMIT {
        PutConsistent(rows, e2, from, debited);
        PutConsistent(rows, Put(e2, from, debited), to, recipient.(balance := recipient.balance + amount));
      }
    }
  }

  lemma StoreConsistent<T(!new)>(rows: map<Address, T>, e: map<Address, Entry<T>>, a: Address, v: T)
    requires InsertsConsistent(rows, e) && a !in rows
    ensures InsertsConsistent(rows, StoreEntry(e, a, v))
  {
  }

  lemma WriteConsistent(db: Db, o: Overlay, w: Write)
    requires Consistent(db, o) && Harmless(db, w)
    ensures Consistent(db, OverlayWrite(db, o, w).0)
  {
    hide AccountsConsistent, MoveEntries, Fetched, Lookup, Put, InsertsConsistent, StoreEntry;
    match w
    case Move(from, to, amount) => MoveConsistent(db.accounts, o.accounts, from, to, amount);
    case BumpNonce(a) =>
      FetchConsistent(db.accounts, o.accounts, a);
      var found := Lookup(db.accounts, o.accounts, a);
      if found.Some? && found.value.nonce + 1 < U128_LIMIT {
        PutConsistent(db.accounts, Fetched(db.accounts, o.accounts, a), a,
                      found.value.(nonce := found.value.nonce + 1));
      }
    case NewSystemAccount(a) =>
      FetchConsistent(db.accounts, o.accounts, a);
      if Lookup(db.accounts, o.accounts, a).None? {
        PutConsistent(db.accounts, o.accounts, a, Account(0, 0, System));
      }
    case PutContract(a, c) => StoreConsistent(db.contracts, o.contracts, a, c);
    case PutInstance(a, c) => StoreConsistent(db.instances, o.instances, a, c);
    case _ =>
  }

  // ------------------------------------------------------------ conservation

  lemma MoveConserves(rows: Rows, from: Address, to: Address, amount: U128)
    ensures Total(WorldMove(rows, from, to, amount).0) == Total(rows)
  {
    if from in rows && rows[from].balance >= amount && from != to && Balance(rows, to) + amount < U128_LIMIT {
      var debited := rows[from].(balance := rows[from].balance - amount);
      var recipient := if to in rows then rows[to] else NewAccount();
      TotalSet(rows, from, debited);
      TotalSet(rows[from := debited], to, recipient.(balance := recipient.balance + amount));
    }
  }

  /** No primitive write makes or destroys tokens. */
  lemma WriteConserves(s: World, w: Write)
    ensures Total(WorldWrite(s, w).0.accounts) == Total(s.accounts)
  {
    match w
    case Move(from, to, amount) => MoveConserves(s.accounts, from, to, amount);
    case BumpNonce(a) =>
      if a in s.accounts && s.accounts[a].nonce + 1 < U128_LIMIT {
        TotalSet(s.accounts, a, s.accounts[a].(nonce := s.accounts[a].nonce + 1));
      }
    case NewSystemAccount(a) => TotalSet(s.accounts, a, Account(0, 0, System));
    case _ =>
  }
}
