/** The account ledger of account.py: one account's balance and its append-only
    transaction history. Amounts are whole minor units; timestamps are opaque
    strings handed in by the caller. */
module Ledger {
  import opened Wrappers

  /** One history entry, as `_add_transaction` builds it. */
  datatype Transaction = Transaction(
    timestamp: string,
    kind: string,               // "Opening Balance", "Deposit", "Withdrawal", "Transfer to …", "Transfer from …"
    amount: int,                // positive for money in, negative for money out
    receiver: Option<string>,   // the other account of a transfer record, None otherwise
    balanceAfter: int)          // the account's balance when the entry was written

  /** The plain record `to_dict` produces and `from_dict` consumes. */
  datatype AccountRecord = AccountRecord(
    accountNumber: string,
    name: string,
    balance: int,
    pin: string,
    accountType: string,
    transactions: seq<Transaction>)

  /** What `deposit`/`withdraw` report, together with the account they leave behind. */
  datatype Outcome = Outcome(accepted: bool, account: AccountRecord)

  const OpeningKind := "Opening Balance"
  const DepositKind := "Deposit"
  /** The default `transaction_type` of `withdraw`. */
  const WithdrawalKind := "Withdrawal"

  /** Same owner, number, PIN and type: the fields no ledger operation touches. */
  predicate SameHolder(a: AccountRecord, b: AccountRecord) {
    a.accountNumber == b.accountNumber && a.name == b.name && a.pin == b.pin && a.accountType == b.accountType
  }

  /** `xs` is an initial part of `ys`: nothing earlier was changed or removed. */
  predicate IsPrefix(xs: seq<Transaction>, ys: seq<Transaction>) {
    |xs| <= |ys| && ys[..|xs|] == xs
  }

  /** The last entry's balance snapshot agrees with the balance. */
  predicate Reconciled(a: AccountRecord) {
    |a.transactions| > 0 && a.transactions[|a.transactions| - 1].balanceAfter == a.balance
  }

  /** The history `__init__` stores: an empty (or missing) history becomes the single
      "Opening Balance" entry; a non-empty one is kept as it is. */
  function Opened(balance: int, transactions: seq<Transaction>, now: string): (h: seq<Transaction>)
    ensures |transactions| > 0 ==> h == transactions
    ensures |transactions| == 0 ==> |h| == 1 && h[0].kind == OpeningKind && h[0].amount == balance
                                    && h[0].balanceAfter == balance && h[0].receiver == None
  {
    if |transactions| == 0 then [Transaction(now, OpeningKind, balance, None, balance)] else transactions
  }

  /** `_add_transaction`: exactly one entry is appended, carrying the current balance. */
  function Appended(a: AccountRecord, kind: string, amount: int, receiver: Option<string>, now: string): (r: AccountRecord)
    ensures SameHolder(a, r) && r.balance == a.balance
    ensures |r.transactions| == |a.transactions| + 1 && IsPrefix(a.transactions, r.transactions)
    ensures var t := r.transactions[|a.transactions|];
            t.kind == kind && t.amount == amount && t.receiver == receiver && t.timestamp == now
    ensures Reconciled(r)
  {
    a.(transactions := a.transactions + [Transaction(now, kind, amount, receiver, a.balance)])
  }

  /** `deposit`: accepted exactly when the amount is positive; then the balance rises by
      the amount and one "Deposit" entry is appended; otherwise nothing changes. */
  function Deposited(a: AccountRecord, amount: int, now: string): (r: Outcome)
    ensures r.accepted <==> amount > 0
    ensures !r.accepted ==> r.account == a
    ensures r.accepted ==> SameHolder(a, r.account) && r.account.balance == a.balance + amount
    ensures r.accepted ==> r.account.transactions
                             == a.transactions + [Transaction(now, DepositKind, amount, None, r.account.balance)]
    ensures r.accepted ==> Reconciled(r.account)
    ensures a.balance >= 0 ==> r.account.balance >= 0
  {
    if amount > 0 then
      Outcome(true, Appended(a.(balance := a.balance + amount), DepositKind, amount, None, now))
    else
      Outcome(false, a)
  }

  /** `withdraw`: accepted exactly when the amount is positive and covered by the balance;
      then the balance falls by the amount and one entry of the given kind is appended
      with the negated amount; otherwise nothing changes. */
  function Withdrawn(a: AccountRecord, amount: int, kind: string, now: string): (r: Outcome)
    ensures r.accepted <==> amount > 0 && a.balance >= amount
    ensures !r.accepted ==> r.account == a
    ensures r.accepted ==> SameHolder(a, r.account) && r.account.balance == a.balance - amount
    ensures r.accepted ==> r.account.transactions
                             == a.transactions + [Transaction(now, kind, -amount, None, r.account.balance)]
    ensures r.accepted ==> Reconciled(r.account)
    ensures a.balance >= 0 ==> r.account.balance >= 0
  {
    if amount > 0 && a.balance >= amount then
      Outcome(true, Appended(a.(balance := a.balance - amount), kind, -amount, None, now))
    else
      Outcome(false, a)
  }

  /** The receiving side of a transfer (bank.py runs it inline): a plain deposit of a
      positive amount, then a second entry "Transfer from <sender>" naming the sender.
      The balance rises once, but the amount appears in two entries. */
  function Received(a: AccountRecord, amount: int, sender: string, now: string): (r: AccountRecord)
    requires amount > 0
    ensures SameHolder(a, r) && r.balance == a.balance + amount
    ensures r.transactions
            == a.transactions + [Transaction(now, DepositKind, amount, None, r.balance),
                                 Transaction(now, "Transfer from " + sender, amount, Some(sender), r.balance)]
    ensures Reconciled(r)
    ensures a.balance >= 0 ==> r.balance >= 0
  {
    Appended(Deposited(a, amount, now).account, "Transfer from " + sender, amount, Some(sender), now)
  }

  /** `from_dict`: the account rebuilt from a record. The record comes back unchanged
      when its history is non-empty; an empty history gets the opening entry. */
  function Restored(data: AccountRecord, now: string): (r: AccountRecord)
    ensures SameHolder(data, r) && r.balance == data.balance
    ensures |data.transactions| > 0 ==> r == data
    ensures |data.transactions| == 0 ==> r.transactions == Opened(data.balance, [], now)
    ensures |data.transactions| == 0 ==> Reconciled(r) && |r.transactions| == 1
  {
    data.(transactions := Opened(data.balance, data.transactions, now))
  }

  /** Sum of the amounts in a history, oldest first. */
  function AmountSum(h: seq<Transaction>): int {
    if h == [] then 0 else AmountSum(h[..|h| - 1]) + h[|h| - 1].amount
  }

  /** The history's amounts add up to the balance. */
  predicate Balanced(a: AccountRecord) {
    AmountSum(a.transactions) == a.balance
  }

  lemma AmountSumAppend(h: seq<Transaction>, t: Transaction)
    ensures AmountSum(h + [t]) == AmountSum(h) + t.amount
  {
    assert (h + [t])[..|h|] == h;
  }

  /** A new account's history adds up to its balance, and accepted deposits and
      withdrawals keep it so. */
  lemma LedgerStaysBalanced(a: AccountRecord, amount: int, kind: string, now: string)
    ensures Balanced(Restored(a.(transactions := []), now))
    ensures Balanced(a) ==> Balanced(Deposited(a, amount, now).account)
    ensures Balanced(a) ==> Balanced(Withdrawn(a, amount, kind, now).account)
  {
    assert Opened(a.balance, [], now)[..0] == [];
    AmountSumAppend(a.transactions, Transaction(now, DepositKind, amount, None, a.balance + amount));
    AmountSumAppend(a.transactions, Transaction(now, kind, -amount, None, a.balance - amount));
  }

  /** One account of account.py. Identity fields never change after construction;
      the balance and the history are updated in place. */
  class Account {
    const accountNumber: string
    const name: string
    const pin: string
    const accountType: string
    var balance: int
    var transactions: seq<Transaction>

    /** `to_dict`: the six fields as one record, history included. */
    function ToDict(): (r: AccountRecord)
      reads this
      ensures r.accountNumber == accountNumber && r.name == name && r.pin == pin
              && r.accountType == accountType
      ensures r.balance == balance && r.transactions == transactions
    {
      AccountRecord(accountNumber, name, balance, pin, accountType, transactions)
    }

    /** `__init__`; Python's `None` history is the empty sequence here. */
    constructor (accountNumber: string, name: string, balance: int, pin: string, accountType: string,
                 transactions: seq<Transaction>, now: string)
      ensures ToDict() == AccountRecord(accountNumber, name, balance, pin, accountType,
                                        Opened(balance, transactions, now))
    {
      this.accountNumber := accountNumber;
      this.name := name;
      this.balance := balance;
      this.pin := pin;
      this.accountType := accountType;
      this.transactions := Opened(balance, transactions, now);
    }

    /** `from_dict`: a fresh account built from a saved record. */
    static method FromDict(data: AccountRecord, now: string) returns (a: Account)
      ensures fresh(a)
      ensures a.ToDict() == Restored(data, now)
    {
      a := new Account(data.accountNumber, data.name, data.balance, data.pin, data.accountType,
                       data.transactions, now);
    }

    /** `_add_transaction`. */
    method AddTransaction(kind: string, amount: int, receiver: Option<string>, now: string)
      modifies this
      ensures ToDict() == Appended(old(ToDict()), kind, amount, receiver, now)
    {
      transactions := transactions + [Transaction(now, kind, amount, receiver, balance)];
    }

    /** Credit of a transfer: `deposit` followed by the "Transfer from" entry. */
    method ReceiveTransfer(amount: int, sender: string, now: string)
      requires amount > 0
      modifies this
      ensures ToDict() == Received(old(ToDict()), amount, sender, now)
    {
      var _ := Deposit(amount, now);
      AddTransaction("Transfer from " + sender, amount, Some(sender), now);
    }

    /** `get_balance`. */
    method GetBalance() returns (b: int)
      ensures b == ToDict().balance
    {
      b := balance;
    }

    /** `deposit`. */
    method Deposit(amount: int, now: string) returns (ok: bool)
      modifies this
      ensures ok == Deposited(old(ToDict()), amount, now).accepted
      ensures ToDict() == Deposited(old(ToDict()), amount, now).account
    {
      if amount > 0 {
        balance := balance + amount;
        AddTransaction(DepositKind, amount, None, now);
        return true;
      }
      return false;
    }

    /** `withdraw`; callers that want the default type pass `WithdrawalKind`. */
    method Withdraw(amount: int, kind: string, now: string) returns (ok: bool)
      modifies this
      ensures ok == Withdrawn(old(ToDict()), amount, kind, now).accepted
      ensures ToDict() == Withdrawn(old(ToDict()), amount, kind, now).account
    {
      if amount > 0 && balance >= amount {
        balance := balance - amount;
        AddTransaction(kind, -amount, None, now);
        return true;
      }
      return false;
    }
  }
}
