/**
 * The account table and the token transfers on it: `AccountManager::transfer`
 * works on a copy of the sender's row and writes both parties back one after
 * the other.
 */
module Ledger {
  import opened Primitives

  datatype Kind = User | System

  datatype Account = Account(balance: U128, nonce: U128, kind: Kind)

  type Rows = map<Address, Account>

  function NewAccount(): Account { Account(0, 0, User) }

  function Balance(rows: Rows, a: Address): U128 {
    if a in rows then rows[a].balance else 0
  }

  // ------------------------------------------------------------ total supply

  ghost function Pick(rows: Rows): Address
    requires rows != map[]
  {
    var a :| a in rows; a
  }

  ghost function Total(rows: Rows): nat
    decreases |rows|
  {
    if rows == map[] then 0 else
    var a := Pick(rows);
    rows[a].balance + Total(rows - {a})
  }

  lemma {:induction false} TotalRemove(rows: Rows, a: Address)
    requires a in rows
    ensures Total(rows) == rows[a].balance + Total(rows - {a})
    decreases |rows|
  {
    var p := Pick(rows);
    if p != a {
      TotalRemove(rows - {p}, a);
      TotalRemove(rows - {a}, p);
      assert rows - {p} - {a} == rows - {a} - {p};
    }
  }

  /** Replacing one row moves the total by the difference of the two balances. */
  lemma TotalSet(rows: Rows, a: Address, acc: Account)
    ensures Total(rows[a := acc]) == Total(rows) - Balance(rows, a) + acc.balance
  {
    TotalRemove(rows[a := acc], a);
    assert rows[a := acc] - {a} == rows - {a};
    if a in rows {
      TotalRemove(rows, a);
    } else {
      assert rows - {a} == rows;
    }
  }

  lemma BalanceWithinTotal(rows: Rows, a: Address)
    ensures Balance(rows, a) <= Total(rows)
  {
    if a in rows {
      TotalRemove(rows, a);
    }
  }

  // ------------------------------------------------------ the table, on values

  /** `update_balance`: sets the balance of an existing row, else inserts the account. */
  function UpdateBalance(rows: Rows, a: Address, acc: Account): Rows {
    if a in rows then rows[a := rows[a].(balance := acc.balance)] else rows[a := acc]
  }

  function GetNonce(rows: Rows, a: Address): U128 {
    if a in rows then rows[a].nonce else 0
  }

  /** `increment_nonce`: the update of a missing row touches nothing. */
  function IncrementNonce(rows: Rows, a: Address): Rows
    requires GetNonce(rows, a) + 1 < U128_LIMIT
  {
    if a in rows then rows[a := rows[a].(nonce := rows[a].nonce + 1)] else rows
  }

  /**
   * Panicked is the failed conversion of the recipient's new balance to u128; it
   * comes after the sender's row was written.
   */
  datatype Outcome = Done | Insufficient | NoSender | Panicked

  datatype Moved = Moved(outcome: Outcome, rows: Rows, copy: Account)

  /** `AccountManager::transfer` with the manager's copy `copy` of account `from`. */
  function TransferSpec(rows: Rows, from: Address, copy: Account, to: Address, amount: U128): Moved {
    if copy.balance < amount then Moved(Insufficient, rows, copy) else
    var debited := copy.(balance := copy.balance - amount);
    var rows1 := UpdateBalance(rows, from, debited);
    var recipient := if to in rows1 then rows1[to] else NewAccount();
    if recipient.balance + amount >= U128_LIMIT then Moved(Panicked, rows1, debited)
    else Moved(Done, UpdateBalance(rows1, to, recipient.(balance := recipient.balance + amount)), debited)
  }

  datatype Transfer = Transfer(source: Address, target: Address, value: U256)

  /** `transfer_token`: the sender is loaded afresh; values a u128 cannot hold are skipped. */
  function TransferToken(rows: Rows, t: Transfer): (Outcome, Rows) {
    if t.value == 0 || t.value >= U128_LIMIT - 1 then (Done, rows)
    else if t.source !in rows then (NoSender, rows)
    else
      var m := TransferSpec(rows, t.source, rows[t.source], t.target, t.value);
      (m.outcome, m.rows)
  }

  // ------------------------------------------------------------- the objects

  class AccountTable {
    var rows: Rows

    constructor ()
      ensures rows == map[]
    {
      rows := map[];
    }

    method Create(a: Address, acc: Account)
      modifies this
      ensures rows == if a in old(rows) then old(rows) else old(rows)[a := acc]
    {
      if a !in rows {
        rows := rows[a := acc];
      }
    }

    method UpdateBalanceOf(a: Address, acc: Account)
      modifies this
      ensures rows == UpdateBalance(old(rows), a, acc)
    {
      if a !in rows {
        Create(a, acc);
      } else {
        rows := rows[a := rows[a].(balance := acc.balance)];
      }
    }
  }

  class AccountManager {
    const address: Address
    var account: Account

    constructor (address: Address, account: Account)
      ensures this.address == address && this.account == account
    {
      this.address, this.account := address, account;
    }

    method TransferTo(table: AccountTable, to: Address, amount: U128) returns (outcome: Outcome)
      modifies this, table
      ensures Moved(outcome, table.rows, account)
           == TransferSpec(old(table.rows), address, old(account), to, amount)
    {
      if account.balance < amount { return Insufficient; }
      account := account.(balance := account.balance - amount);
      table.UpdateBalanceOf(address, account);
      var recipient := if to in table.rows then table.rows[to] else NewAccount();
      var sum := recipient.balance + amount;
      if sum >= U128_LIMIT { return Panicked; }
      table.UpdateBalanceOf(to, recipient.(balance := sum));
      outcome := Done;
    }
  }

  // -------------------------------------------------------------- properties

  /**
   * A completed transfer moves the total by exactly how stale the manager's copy
   * was; so, self-transfers included, it conserves tokens if and only if the copy
   * agreed with the table.
   */
  lemma TransferConservesIffFresh(rows: Rows, from: Address, copy: Account, to: Address, amount: U128)
    requires TransferSpec(rows, from, copy, to, amount).outcome.Done?
    ensures var after := TransferSpec(rows, from, copy, to, amount).rows;
            && Total(after) == Total(rows) - Balance(rows, from) + copy.balance
            && (Total(after) == Total(rows) <==> copy.balance == Balance(rows, from))
  {
    var debited := copy.(balance := copy.balance - amount);
    var rows1 := UpdateBalance(rows, from, debited);
    TotalSet(rows, from, rows1[from]);
    assert rows1 == rows[from := rows1[from]];
    var rows2 := TransferSpec(rows, from, copy, to, amount).rows;
    TotalSet(rows1, to, rows2[to]);
    assert rows2 == rows1[to := rows2[to]];
  }

  /** Nothing but balances changes in rows that exist, and no row goes away. */
  ghost predicate KeepsIdentity(before: Rows, after: Rows) {
    forall a :: a in before ==> a in after && after[a].nonce == before[a].nonce && after[a].kind == before[a].kind
  }

  /**
   * What a transfer does however stale the copy is: it is refused exactly if the copy does
   * not cover the amount, and then changes nothing; else the copy is debited. Either way no
   * existing row changes in anything but its balance, and no other row changes.
   */
  lemma TransferAnyCopy(rows: Rows, from: Address, copy: Account, to: Address, amount: U128)
    ensures var m := TransferSpec(rows, from, copy, to, amount);
            && KeepsIdentity(rows, m.rows) && !m.outcome.NoSender?
            && (m.outcome.Insufficient? <==> copy.balance < amount)
            && (m.outcome.Insufficient? ==> m.rows == rows && m.copy == copy)
            && (!m.outcome.Insufficient? ==> m.copy == Account(copy.balance - amount, copy.nonce, copy.kind))
            && (m.outcome.Done? && from != to ==>
                  && Balance(m.rows, from) == copy.balance - amount
                  && Balance(m.rows, to) == Balance(rows, to) + amount)
            && (m.outcome.Panicked? ==> Balance(m.rows, from) == copy.balance - amount)
            && (forall a :: a in m.rows ==> a in rows || a == from || a == to)
            && (forall a :: a in rows && a != from && a != to ==> m.rows[a] == rows[a])
  {
  }

  /** The conversion fails exactly when a covered amount to another account takes it past u128. */
  predicate Overflows(rows: Rows, t: Transfer) {
    && 0 < t.value < U128_LIMIT - 1 && t.source in rows && rows[t.source].balance >= t.value
    && t.source != t.target && Balance(rows, t.target) + t.value >= U128_LIMIT
  }

  /**
   * A transfer fails after the debit exactly in that case, and exactly then it loses
   * tokens: the amount it took from the sender.
   */
  lemma TransferConservesIff(rows: Rows, t: Transfer)
    ensures TransferToken(rows, t).0.Panicked? <==> Overflows(rows, t)
    ensures Total(TransferToken(rows, t).1) == Total(rows) - (if Overflows(rows, t) then t.value else 0)
    ensures Total(TransferToken(rows, t).1) == Total(rows) <==> !Overflows(rows, t)
  {
    if 0 < t.value < U128_LIMIT - 1 && t.source in rows && rows[t.source].balance >= t.value {
      var debited := rows[t.source].(balance := rows[t.source].balance - t.value);
      TotalSet(rows, t.source, debited);
      if TransferToken(rows, t).0.Done? {
        TransferConservesIffFresh(rows, t.source, rows[t.source], t.target, t.value);
      }
    }
  }

  /** If the whole supply fits u128 no conversion fails, and the supply is conserved. */
  lemma TokenTransferConserves(rows: Rows, t: Transfer)
    requires Total(rows) < U128_LIMIT
    ensures !TransferToken(rows, t).0.Panicked?
    ensures Total(TransferToken(rows, t).1) == Total(rows)
  {
    TransferConservesIff(rows, t);
    if Overflows(rows, t) {
      TotalRemove(rows, t.source);
      BalanceWithinTotal(rows - {t.source}, t.target);
    }
  }

  /** What a transfer does to each row, whatever its outcome. */
  lemma TokenTransferEffect(rows: Rows, t: Transfer)
    ensures var (outcome, after) := TransferToken(rows, t);
            && KeepsIdentity(rows, after)
            && (outcome.NoSender? <==> 0 < t.value < U128_LIMIT - 1 && t.source !in rows)
            && (outcome.Insufficient?
                <==> 0 < t.value < U128_LIMIT - 1 && t.source in rows && rows[t.source].balance < t.value)
            && (outcome.Insufficient? || outcome.NoSender? ==> after == rows)
            && (outcome.Done? && 0 < t.value < U128_LIMIT - 1 && t.target !in rows ==>
                  after[t.target] == Account(t.value, 0, User))
            && (outcome.Done? && 0 < t.value < U128_LIMIT - 1 && t.source != t.target ==>
                  && Balance(after, t.source) == Balance(rows, t.source) - t.value
                  && Balance(after, t.target) == Balance(rows, t.target) + t.value)
            && (outcome.Done? && t.source == t.target ==> after == rows)
            && forall a :: a != t.source && a != t.target ==> Balance(after, a) == Balance(rows, a)
  {
  }

  function TransferRun(rows: Rows, ts: seq<Transfer>): Rows
    decreases |ts|
  {
    if ts == [] then rows else TransferRun(TransferToken(rows, ts[0]).1, ts[1..])
  }

  /** No transfer of the sequence fails after its debit. */
  predicate NoneOverflows(rows: Rows, ts: seq<Transfer>)
    decreases |ts|
  {
    ts == [] || (!Overflows(rows, ts[0]) && NoneOverflows(TransferToken(rows, ts[0]).1, ts[1..]))
  }

  /** A sequence of transfers conserves the supply exactly when none of them overflows; it never makes tokens. */
  lemma {:induction false} TransferRunConservesIff(rows: Rows, ts: seq<Transfer>)
    ensures Total(TransferRun(rows, ts)) <= Total(rows)
    ensures Total(TransferRun(rows, ts)) == Total(rows) <==> NoneOverflows(rows, ts)
    ensures KeepsIdentity(rows, TransferRun(rows, ts))
    decreases |ts|
  {
    if ts != [] {
      hide Overflows, TransferToken;
      TransferConservesIff(rows, ts[0]);
      TokenTransferEffect(rows, ts[0]);
      OverflowIsPositive(rows, ts[0]);
      TransferRunConservesIff(TransferToken(rows, ts[0]).1, ts[1..]);
    }
  }

  lemma OverflowIsPositive(rows: Rows, t: Transfer)
    ensures Overflows(rows, t) ==> t.value > 0
  {
  }

  /** While the supply fits u128 none overflows, so every sequence of transfers conserves it. */
  lemma {:induction false} TransferRunConserves(rows: Rows, ts: seq<Transfer>)
    requires Total(rows) < U128_LIMIT
    ensures NoneOverflows(rows, ts) && Total(TransferRun(rows, ts)) == Total(rows)
    ensures KeepsIdentity(rows, TransferRun(rows, ts))
    decreases |ts|
  {
    hide Overflows, TransferToken;
    TransferRunConservesIff(rows, ts);
    if ts != [] {
      TokenTransferConserves(rows, ts[0]);
      TransferConservesIff(rows, ts[0]);
      TransferRunConserves(TransferToken(rows, ts[0]).1, ts[1..]);
    }
  }

  /** An input of the failing family: the sender is debited, the recipient is not credited. */
  lemma OverflowLosesTokens()
    ensures var rows: Rows := map[1 := Account(5, 0, User), 2 := Account(U128_LIMIT - 1, 0, User)];
            var (outcome, after) := TransferToken(rows, Transfer(1, 2, 5));
            && Overflows(rows, Transfer(1, 2, 5)) && outcome.Panicked?
            && Balance(after, 1) == 0 && Balance(after, 2) == Balance(rows, 2)
  {
  }

  /** A manager that kept its copy over another transfer: 10 tokens in the table become 15. */
  lemma StaleCopyMakesTokens()
    ensures var rows: Rows := map[1 := Account(10, 0, User)];
            var spent := TransferSpec(rows, 1, rows[1], 2, 5).rows;
            var after := TransferSpec(spent, 1, rows[1], 3, 5);
            && after.outcome.Done? && Balance(after.rows, 1) == 5 && Balance(after.rows, 2) == 5
            && Balance(after.rows, 3) == 5 && Total(after.rows) == Total(rows) + 5
  {
    var rows: Rows := map[1 := Account(10, 0, User)];
    var spent := TransferSpec(rows, 1, rows[1], 2, 5).rows;
    TransferConservesIffFresh(rows, 1, rows[1], 2, 5);
    TransferConservesIffFresh(spent, 1, rows[1], 3, 5);
  }
}
