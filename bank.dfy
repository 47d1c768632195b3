/** The account directory of bank.py: accounts keyed by account number, the
    counter that issues new numbers, login, and the transfer between two accounts. */
module Directory {
  import opened Wrappers
  import opened Ledger
  import Decimal

  /** The record `save_data` writes and `load_data` reads. */
  datatype BankRecord = BankRecord(nextAccountNumber: int, accounts: map<string, AccountRecord>)

  /** Why `transfer_funds` refused, in the order its guards run. */
  datatype TransferError = ReceiverNotFound | SameAccount | NonPositiveAmount | InsufficientFunds

  /** The counter a bank with no data file starts from. */
  const FirstAccountNumber := 1001

  /** Every key is the number stored in its account. */
  ghost predicate WellKeyed(s: map<string, AccountRecord>) {
    forall k :: k in s ==> s[k].accountNumber == k
  }

  /** No account has a negative balance. */
  ghost predicate Solvent(s: map<string, AccountRecord>) {
    forall k :: k in s ==> s[k].balance >= 0
  }

  /** Every account's last history entry matches its balance. */
  ghost predicate AllReconciled(s: map<string, AccountRecord>) {
    forall k :: k in s ==> Reconciled(s[k])
  }

  /** Every key is the decimal form of a number below the counter. */
  ghost predicate IssuedBelow(s: map<string, AccountRecord>, next: int) {
    forall k :: k in s ==> exists n: int :: n < next && k == Decimal.IntToString(n)
  }

  /** The key `create_account` hands out next: `str(next_account_number)`. */
  function NextKey(b: BankRecord): string {
    Decimal.IntToString(b.nextAccountNumber)
  }

  /** `create_account` on the saved view. A negative opening deposit changes nothing;
      otherwise the next key maps to a new account holding the deposit and the single
      opening entry, the counter advances by one and every other account is kept. */
  function Created(b: BankRecord, name: string, initialDeposit: int, pin: string, accountType: string,
                   now: string): (r: BankRecord)
    ensures initialDeposit < 0 ==> r == b
    ensures initialDeposit >= 0 ==>
      var key := NextKey(b);
      && r.nextAccountNumber == b.nextAccountNumber + 1
      && r.accounts.Keys == b.accounts.Keys + {key}
      && (forall k :: k in b.accounts && k != key ==> r.accounts[k] == b.accounts[k])
      && r.accounts[key].accountNumber == key && r.accounts[key].name == name
      && r.accounts[key].pin == pin && r.accounts[key].accountType == accountType
      && r.accounts[key].balance == initialDeposit
      && r.accounts[key].transactions == [Transaction(now, OpeningKind, initialDeposit, None, initialDeposit)]
    ensures WellKeyed(b.accounts) ==> WellKeyed(r.accounts)
    ensures Solvent(b.accounts) ==> Solvent(r.accounts)
    ensures AllReconciled(b.accounts) ==> AllReconciled(r.accounts)
  {
    if initialDeposit < 0 then b
    else
      var key := NextKey(b);
      BankRecord(b.nextAccountNumber + 1,
                 b.accounts[key := AccountRecord(key, name, initialDeposit, pin, accountType,
                                                 Opened(initialDeposit, [], now))])
  }

  /** Under `IssuedBelow`, the key for the counter's value is not yet taken. */
  lemma NextKeyIsFree(b: BankRecord)
    requires IssuedBelow(b.accounts, b.nextAccountNumber)
    ensures NextKey(b) !in b.accounts
  {
    if NextKey(b) in b.accounts {
      var n: int :| n < b.nextAccountNumber && NextKey(b) == Decimal.IntToString(n);
      Decimal.IntToStringInjective(n, b.nextAccountNumber);
      assert false;
    }
  }

  /** Numbers are issued in sequence and never reused: when every key was issued below
      the counter, the new key is not yet taken, the directory grows by exactly one
      account, and the property holds again for the advanced counter. */
  lemma CreateIssuesFreshNumber(b: BankRecord, name: string, initialDeposit: int, pin: string,
                                accountType: string, now: string)
    requires IssuedBelow(b.accounts, b.nextAccountNumber)
    requires initialDeposit >= 0
    ensures NextKey(b) !in b.accounts
    ensures var r := Created(b, name, initialDeposit, pin, accountType, now);
            |r.accounts| == |b.accounts| + 1 && IssuedBelow(r.accounts, r.nextAccountNumber)
  {
    var key := NextKey(b);
    NextKeyIsFree(b);
    var r := Created(b, name, initialDeposit, pin, accountType, now);
    assert r.accounts.Keys == b.accounts.Keys + {key};
    assert |r.accounts.Keys| == |b.accounts.Keys| + 1;
    forall k | k in r.accounts
      ensures exists n: int :: n < r.nextAccountNumber && k == Decimal.IntToString(n)
    {
      if k == key {
        assert k == Decimal.IntToString(b.nextAccountNumber);
      } else {
        assert k in b.accounts;
        var n: int :| n < b.nextAccountNumber && k == Decimal.IntToString(n);
        assert n < r.nextAccountNumber;
      }
    }
  }

  /** `transfer_funds` on the saved view, with the sender given by its (present) key.
      Its guards run in order: receiver present, not the sender itself, positive amount,
      then the sender's withdrawal; the receiver is only touched once that succeeded. */
  function Transfer(s: map<string, AccountRecord>, sender: string, receiver: string, amount: int,
                    now: string): (r: Result<map<string, AccountRecord>, TransferError>)
    requires sender in s && WellKeyed(s)
    ensures r == Failure(ReceiverNotFound) <==> receiver !in s
    ensures r == Failure(SameAccount) <==> receiver in s && receiver == sender
    ensures r == Failure(NonPositiveAmount) <==> receiver in s && receiver != sender && amount <= 0
    ensures r == Failure(InsufficientFunds)
            <==> receiver in s && receiver != sender && amount > 0 && s[sender].balance < amount
    ensures r.Success? ==>
      && r.value.Keys == s.Keys
      && (forall k :: k in s && k != sender && k != receiver ==> r.value[k] == s[k])
      && SameHolder(s[sender], r.value[sender]) && SameHolder(s[receiver], r.value[receiver])
      && r.value[sender].balance == s[sender].balance - amount
      && r.value[receiver].balance == s[receiver].balance + amount
      && r.value[sender].transactions
         == s[sender].transactions + [Transaction(now, "Transfer to " + receiver, -amount, None,
                                                  r.value[sender].balance)]
      && r.value[receiver].transactions
         == s[receiver].transactions + [Transaction(now, DepositKind, amount, None, r.value[receiver].balance),
                                        Transaction(now, "Transfer from " + sender, amount, Some(sender),
                                                    r.value[receiver].balance)]
    ensures r.Success? ==> WellKeyed(r.value)
    ensures r.Success? && Solvent(s) ==> Solvent(r.value)
    ensures r.Success? && AllReconciled(s) ==> AllReconciled(r.value)
  {
    if receiver !in s then Failure(ReceiverNotFound)
    else if s[sender].accountNumber == receiver then Failure(SameAccount)
    else if amount <= 0 then Failure(NonPositiveAmount)
    else
      var w := Withdrawn(s[sender], amount, "Transfer to " + receiver, now);
      if !w.accepted then Failure(InsufficientFunds)
      else
        Success(s[sender := w.account][receiver := Received(s[receiver], amount, s[sender].accountNumber, now)])
  }

  /** Sum of all balances in the directory. */
  ghost function Total(s: map<string, AccountRecord>): int
    decreases s.Keys
  {
    if s == map[] then 0
    else
      var k :| k in s;
      s[k].balance + Total(s - {k})
  }

  /** Total can be split at any key, not just the one its definition picks. */
  lemma {:induction false} TotalSplit(s: map<string, AccountRecord>, k: string)
    requires k in s
    ensures Total(s) == s[k].balance + Total(s - {k})
    decreases s.Keys
  {
    var j :| j in s && Total(s) == s[j].balance + Total(s - {j});
    if j != k {
      assert (s - {j}).Keys < s.Keys;
      assert (s - {k}).Keys < s.Keys;
      TotalSplit(s - {j}, k);
      TotalSplit(s - {k}, j);
      assert s - {j} - {k} == s - {k} - {j};
    }
  }

  /** Replacing one account changes the total by the change in that account's balance. */
  lemma TotalUpdate(s: map<string, AccountRecord>, k: string, v: AccountRecord)
    requires k in s
    ensures Total(s[k := v]) == Total(s) - s[k].balance + v.balance
  {
    TotalSplit(s, k);
    TotalSplit(s[k := v], k);
    assert s[k := v] - {k} == s - {k};
  }

  /** A transfer moves money without creating or destroying any: the sum over all
      accounts is the same before and after. */
  lemma TransferConservesTotal(s: map<string, AccountRecord>, sender: string, receiver: string,
                               amount: int, now: string)
    requires sender in s && WellKeyed(s)
    ensures var r := Transfer(s, sender, receiver, amount, now);
            r.Success? ==> Total(r.value) == Total(s)
  {
    var r := Transfer(s, sender, receiver, amount, now);
    if r.Success? {
      var mid := s[sender := r.value[sender]];
      assert r.value == mid[receiver := r.value[receiver]];
      TotalUpdate(s, sender, r.value[sender]);
      TotalUpdate(mid, receiver, r.value[receiver]);
    }
  }

  /** The receiver gets two entries for one transfer, "Deposit" and "Transfer from …",
      each carrying the full amount: a receiver whose history added up to its balance
      before now has history amounts that exceed the balance by the amount, while the
      sender's history still adds up. */
  lemma TransferOvercountsReceiver(s: map<string, AccountRecord>, sender: string, receiver: string,
                                   amount: int, now: string)
    requires sender in s && WellKeyed(s)
    requires Transfer(s, sender, receiver, amount, now).Success?
    ensures var r := Transfer(s, sender, receiver, amount, now).value;
            && (Balanced(s[sender]) ==> Balanced(r[sender]))
            && (Balanced(s[receiver]) ==> AmountSum(r[receiver].transactions) == r[receiver].balance + amount)
  {
    var r := Transfer(s, sender, receiver, amount, now).value;
    var h := s[receiver].transactions;
    var t1 := r[receiver].transactions[|h|];
    var t2 := r[receiver].transactions[|h| + 1];
    assert r[receiver].transactions == (h + [t1]) + [t2];
    AmountSumAppend(h, t1);
    AmountSumAppend(h + [t1], t2);
    AmountSumAppend(s[sender].transactions, r[sender].transactions[|s[sender].transactions|]);
  }

  /** `from_dict` applied to every saved account, as `load_data` does. */
  function RestoredAll(s: map<string, AccountRecord>, now: string): (r: map<string, AccountRecord>)
    ensures r.Keys == s.Keys
    ensures forall k :: k in s ==> SameHolder(s[k], r[k]) && r[k].balance == s[k].balance
    ensures forall k :: k in s && |s[k].transactions| > 0 ==> r[k] == s[k]
    ensures WellKeyed(s) ==> WellKeyed(r)
  {
    map k | k in s :: Restored(s[k], now)
  }

  /** Saving and loading again reproduces every account whose history is non-empty;
      one with an empty history comes back with an opening entry. */
  lemma {:induction false} SaveLoadRoundTrip(s: map<string, AccountRecord>, now: string)
    requires forall k :: k in s ==> |s[k].transactions| > 0
    ensures RestoredAll(s, now) == s
  {
    var r := RestoredAll(s, now);
    assert forall k :: k in s ==> r[k] == s[k];
  }

  /** The directory of bank.py. */
  class Bank {
    var accounts: map<string, Account>
    var nextAccountNumber: int

    /** Every key is the number stored in its account, so distinct keys hold distinct objects. */
    ghost predicate Valid()
      reads this
    {
      forall k :: k in accounts ==> accounts[k].accountNumber == k
    }

    /** The record `save_data` writes: the counter and `to_dict` of every account. */
    function SaveData(): (r: BankRecord)
      reads this, accounts.Values
      ensures r.nextAccountNumber == nextAccountNumber && r.accounts.Keys == accounts.Keys
      ensures Valid() ==> WellKeyed(r.accounts)
    {
      BankRecord(nextAccountNumber, map k | k in accounts :: accounts[k].ToDict())
    }

    /** `Bank()` when no data file exists. */
    constructor ()
      ensures Valid() && accounts == map[] && nextAccountNumber == FirstAccountNumber
    {
      accounts := map[];
      nextAccountNumber := FirstAccountNumber;
    }

    /** `Bank()` followed by `load_data` on a saved record: every saved account is rebuilt
        with `from_dict` under its key, and the counter is taken from the record. */
    constructor Load(data: BankRecord, now: string)
      requires WellKeyed(data.accounts)
      ensures Valid() && fresh(accounts.Values)
      ensures SaveData() == BankRecord(data.nextAccountNumber, RestoredAll(data.accounts, now))
    {
      accounts := map[];
      nextAccountNumber := data.nextAccountNumber;
      new;
      var pending := data.accounts.Keys;
      while pending != {}
        invariant pending <= data.accounts.Keys
        invariant accounts.Keys == data.accounts.Keys - pending
        invariant Valid() && fresh(accounts.Values)
        invariant nextAccountNumber == data.nextAccountNumber
        invariant forall k :: k in accounts ==> accounts[k].ToDict() == Restored(data.accounts[k], now)
        decreases pending
      {
        var k :| k in pending;
        var a := Account.FromDict(data.accounts[k], now);
        assert accounts[k := a].Values <= accounts.Values + {a};
        accounts := accounts[k := a];
        pending := pending - {k};
      }
      SaveDataIs(this, RestoredAll(data.accounts, now));
    }

    /** `create_account`: the new key on success, None when the opening deposit is negative. */
    method CreateAccount(name: string, initialDeposit: int, pin: string, accountType: string, now: string)
      returns (number: Option<string>)
      requires Valid()
      modifies this
      ensures Valid()
      ensures number == if initialDeposit < 0 then None else Some(Decimal.IntToString(old(nextAccountNumber)))
      ensures SaveData() == Created(old(SaveData()), name, initialDeposit, pin, accountType, now)
      ensures number.Some? ==> fresh(accounts[number.value])
      ensures forall k :: k in old(accounts) && number != Some(k) ==> k in accounts && accounts[k] == old(accounts[k])
    {
      if initialDeposit < 0 {
        return None;
      }
      ghost var before := SaveData();
      var key := Decimal.IntToString(nextAccountNumber);
      var a := new Account(key, name, initialDeposit, pin, accountType, [], now);
      accounts := accounts[key := a];
      nextAccountNumber := nextAccountNumber + 1;
      number := Some(key);
      forall k | k in accounts
        ensures accounts[k].ToDict() == before.accounts[key := a.ToDict()][k]
      {
      }
      SaveDataIs(this, before.accounts[key := a.ToDict()]);
    }

    /** `authenticate_account`: the stored account exactly when the key exists and its PIN
        matches exactly. Nothing changes. */
    method AuthenticateAccount(number: string, pin: string) returns (r: Option<Account>)
      ensures r.Some? <==> number in accounts && accounts[number].pin == pin
      ensures r.Some? ==> r.value == accounts[number]
    {
      if number in accounts {
        var a := accounts[number];
        if a.pin == pin {
          return Some(a);
        }
      }
      return None;
    }

    /** `transfer_funds`, the sender being the account stored under `sender`. On refusal
        nothing changes; on success the two accounts change as `Transfer` says. */
    method TransferFunds(sender: string, receiver: string, amount: int, now: string) returns (ok: bool)
      requires Valid() && sender in accounts
      modifies accounts.Values
      ensures accounts == old(accounts) && nextAccountNumber == old(nextAccountNumber)
      ensures var t := Transfer(old(SaveData()).accounts, sender, receiver, amount, now);
              && ok == t.Success?
              && SaveData().accounts == if ok then t.value else old(SaveData()).accounts
    {
      if receiver !in accounts {
        return false;
      }
      var to := accounts[receiver];
      var from := accounts[sender];
      if from.accountNumber == receiver {
        return false;
      }
      if amount <= 0 {
        return false;
      }
      ghost var before := SaveData().accounts;
      ok := from.Withdraw(amount, "Transfer to " + receiver, now);
      if ok {
        to.ReceiveTransfer(amount, from.accountNumber, now);
      }
      ghost var after := before[sender := from.ToDict()][receiver := to.ToDict()];
      forall i | i in accounts
        ensures accounts[i].ToDict() == after[i]
      {
        assert accounts[i].accountNumber == i;
      }
      SaveDataIs(this, after);
    }
  }

  /** The saved record is determined account by account. */
  lemma SaveDataIs(bank: Bank, expected: map<string, AccountRecord>)
    requires bank.accounts.Keys == expected.Keys
    requires forall k :: k in bank.accounts ==> bank.accounts[k].ToDict() == expected[k]
    ensures bank.SaveData().accounts == expected
  {
  }
}
