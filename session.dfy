/** A run of requests as main.py issues them against one directory: account creation,
    deposits and withdrawals on a logged-in account, and transfers. Used to state the
    invariants that hold after any sequence of public operations. */
module Session {
  import opened Wrappers
  import opened Ledger
  import opened Directory
  import Decimal

  /** One menu action with the timestamp its records get. */
  datatype Request =
    | Open(name: string, initialDeposit: int, pin: string, accountType: string, at: string)
    | Credit(number: string, amount: int, at: string)
    | Debit(number: string, amount: int, at: string)
    | Move(sender: string, receiver: string, amount: int, at: string)

  /** The saved view after one request. Deposits, withdrawals and transfers need a
      logged-in account, so a request naming an unknown account changes nothing. */
  function Apply(b: BankRecord, q: Request): (r: BankRecord)
    requires WellKeyed(b.accounts)
    ensures WellKeyed(r.accounts)
    ensures Solvent(b.accounts) ==> Solvent(r.accounts)
    ensures AllReconciled(b.accounts) ==> AllReconciled(r.accounts)
    ensures b.nextAccountNumber <= r.nextAccountNumber
    ensures !q.Open? ==> r.nextAccountNumber == b.nextAccountNumber && r.accounts.Keys == b.accounts.Keys
  {
    match q
    case Open(name, deposit, pin, accountType, at) =>
      Created(b, name, deposit, pin, accountType, at)
    case Credit(k, amount, at) =>
      if k in b.accounts then b.(accounts := b.accounts[k := Deposited(b.accounts[k], amount, at).account])
      else b
    case Debit(k, amount, at) =>
      if k in b.accounts
      then b.(accounts := b.accounts[k := Withdrawn(b.accounts[k], amount, WithdrawalKind, at).account])
      else b
    case Move(sender, receiver, amount, at) =>
      if sender in b.accounts then
        match Transfer(b.accounts, sender, receiver, amount, at)
        case Success(s) => b.(accounts := s)
        case Failure(_) => b
      else b
  }

  /** The saved view after a sequence of requests. */
  function Run(b: BankRecord, qs: seq<Request>): (r: BankRecord)
    requires WellKeyed(b.accounts)
    ensures WellKeyed(r.accounts)
    decreases |qs|
  {
    if qs == [] then b else Run(Apply(b, qs[0]), qs[1..])
  }

  /** One request keeps every key issued below the counter. */
  lemma ApplyKeepsIssued(b: BankRecord, q: Request)
    requires WellKeyed(b.accounts) && IssuedBelow(b.accounts, b.nextAccountNumber)
    ensures IssuedBelow(Apply(b, q).accounts, Apply(b, q).nextAccountNumber)
  {
    if q.Open? {
      if q.initialDeposit >= 0 {
        CreateIssuesFreshNumber(b, q.name, q.initialDeposit, q.pin, q.accountType, q.at);
      }
    } else {
      var r := Apply(b, q);
      forall k | k in r.accounts
        ensures exists n: int :: n < r.nextAccountNumber && k == Decimal.IntToString(n)
      {
        assert k in b.accounts;
      }
    }
  }

  /** Whatever requests arrive, no balance goes negative, every account's last entry
      matches its balance, the counter never goes back, and every key stays one issued
      below the counter, so creation never overwrites an account. */
  lemma {:induction false} RunKeepsInvariants(b: BankRecord, qs: seq<Request>)
    requires WellKeyed(b.accounts) && Solvent(b.accounts) && AllReconciled(b.accounts)
    requires IssuedBelow(b.accounts, b.nextAccountNumber)
    ensures var r := Run(b, qs);
            && Solvent(r.accounts) && AllReconciled(r.accounts)
            && IssuedBelow(r.accounts, r.nextAccountNumber)
            && b.nextAccountNumber <= r.nextAccountNumber
    decreases |qs|
  {
    if qs != [] {
      ApplyKeepsIssued(b, qs[0]);
      RunKeepsInvariants(Apply(b, qs[0]), qs[1..]);
    }
  }

  /** The walk-through of a typical session: open with 100, deposit 50, a refused
      withdrawal of 200, a second account opened with 0, then a transfer of 100. */
  method ExampleSession(t: string)
  {
    var bank := new Bank();
    var first := bank.CreateAccount("Ann", 100, "1234", "Savings", t);
    var k1 := Decimal.IntToString(1001);
    assert first == Some(k1);
    assert bank.SaveData().accounts[k1].balance == 100;
    assert bank.SaveData().accounts[k1].transactions == [Transaction(t, OpeningKind, 100, None, 100)];
    var login := bank.AuthenticateAccount(k1, "1234");
    assert login.Some?;
    var acct := login.value;
    assert acct.ToDict() == bank.SaveData().accounts[k1];
    var ok := acct.Deposit(50, t);
    assert ok && acct.balance == 150 && |acct.transactions| == 2;
    ok := acct.Withdraw(200, WithdrawalKind, t);
    assert !ok && acct.balance == 150 && |acct.transactions| == 2;
    ExampleTransfer(bank, k1, t);
  }

  /** The second half of the walk-through, from a directory holding only the first
      account with balance 150. */
  method ExampleTransfer(bank: Bank, k1: string, t: string)
    requires bank.Valid() && bank.nextAccountNumber == 1002 && bank.accounts.Keys == {k1}
    requires k1 == Decimal.IntToString(1001) && bank.SaveData().accounts[k1].balance == 150
    modifies bank, bank.accounts.Values
  {
    var second := bank.CreateAccount("Bo", 0, "9876", "Current", t);
    var k2 := Decimal.IntToString(1002);
    assert second == Some(k2);
    Decimal.IntToStringInjective(1001, 1002);
    assert bank.SaveData().accounts[k1].balance == 150;
    assert bank.SaveData().accounts[k2].balance == 0;
    var ok := bank.TransferFunds(k1, k2, 100, t);
    assert ok;
    var saved := bank.SaveData().accounts;
    assert saved[k1].balance == 50 && saved[k2].balance == 100;
    var h1, h2 := saved[k1].transactions, saved[k2].transactions;
    assert h1[|h1| - 1].kind == "Transfer to " + k2 && h1[|h1| - 1].amount == -100;
    assert h2[|h2| - 1].kind == "Transfer from " + k1 && h2[|h2| - 1].amount == 100;
  }
}
