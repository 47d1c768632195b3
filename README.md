# Bank ledger and account directory, modelled in Dafny

This project models the core of a small single-process bank written in Python:

- the **account ledger** of `account.py`: one account's balance and its append-only
  list of transaction records. `deposit` and `withdraw` check their arguments, change the
  balance and append exactly one record carrying a `balance_after` snapshot. `to_dict` and
  `from_dict` convert an account to and from a plain record;
- the **account directory** of `bank.py`: accounts keyed by account-number strings, a
  counter (`next_account_number`, starting at 1001) that issues new numbers, login by
  number and PIN, and `transfer_funds`, which debits one account and credits another.

Layout:

| file | module | models |
|---|---|---|
| `wrappers.dfy` | `Wrappers` | `Option` (Python's `None`) and `Result` |
| `decimal.dfy` | `Decimal` | Python's `str()` on the integer counter, proved injective |
| `ledger.dfy` | `Ledger` | `account.py`: the record types, the pure ledger steps, class `Account` |
| `bank.dfy` | `Directory` | `bank.py`: the saved record, the pure directory steps, class `Bank` |
| `session.dfy` | `Session` | sequences of the operations `main.py` calls, and the invariants they keep |

The model comes in two layers. Each Python operation that changes state is a method of a
Dafny class (`Ledger.Account`, `Directory.Bank`). Each method's postcondition ties the new
state to a pure function of the old state. The state is seen through `Account.ToDict`
(`to_dict`) and `Bank.SaveData` (the record `save_data` writes). Those pure functions
(`Opened`, `Appended`, `Deposited`, `Withdrawn`, `Received`, `Restored`, `Created`,
`Transfer`) carry the properties the source promises. The lemmas relate them further:
total money conserved, fresh account numbers, invariants over any run of requests.

Modelling choices:

- Amounts are `int`, meaning whole minor units. The Python code receives floats from its
  command-line front end; float rounding is not modelled.
- The wall-clock timestamp of each record is an opaque `now: string` parameter. All records
  written by one call share it.
- The sender of a transfer is the key it is stored under. In the source it is the object
  that `authenticate_account` returned, which is the object stored under that key.
- `Bank.Valid()` says every key equals the account number stored in its account. Since the
  account number is a constant field, distinct keys then hold distinct objects.

Behaviour of the code that the model keeps, though it may surprise a reader:

- On a successful transfer the receiver gets **two** records: a plain "Deposit" from
  `deposit` (bank.py:99), then "Transfer from <sender>" (bank.py:101). Both carry the full
  amount and the same `balance_after`.
  `Directory.TransferOvercountsReceiver` proves the consequence: for a receiver whose
  history added up to its balance before the transfer, the history amounts then add up to
  more than its balance, by exactly the transferred amount.
- `create_account` does not check the PIN format. Only the command-line front end does
  (main.py:81). So `Bank.CreateAccount` accepts any PIN string.
- The failures are not typed errors in the code. `deposit`, `withdraw`, `create_account` and
  `transfer_funds` print a message and return `False`/`None`. The model returns the same
  booleans and options. For `transfer_funds` alone, the pure `Directory.Transfer` also says
  which guard refused, as a `TransferError`, because the order of the guards is part of what
  is proved.
- `__init__` adds the "Opening Balance" record whenever the history passed in is empty or
  `None`. That includes `from_dict` on a record with an empty history (account.py:16).

## Model

| member | source | states |
|---|---|---|
| `Decimal.IntToString` | bank.py:57 | `str(n)`: a non-empty string; it starts with '-' exactly when `n` is negative |
| `Decimal.NatToString` | bank.py:57 | decimal digits of a natural number, all of them digit characters, a single one exactly below 10 |
| `Decimal.NatToStringInjective` | bank.py:57 | different naturals have different decimal forms (induction on the digits) |
| `Decimal.IntToStringInjective` | bank.py:57-60 | different counter values give different account-number keys |
| `Ledger.Opened` | account.py:14-17 | an empty or missing history becomes exactly one "Opening Balance" record with amount = balance_after = opening balance and no receiver; a non-empty history is kept unchanged |
| `Ledger.Appended` | account.py:19-28 | exactly one record is appended with the given type, amount, receiver and timestamp; its balance_after is the current balance; earlier records, balance and identity are unchanged |
| `Ledger.Deposited` | account.py:34-42 | accepted iff amount > 0; then the balance rises by exactly amount and one "Deposit" record with that amount and balance_after = new balance is appended; refused means account unchanged; a non-negative balance stays non-negative |
| `Ledger.Withdrawn` | account.py:44-56 | accepted iff amount > 0 and balance >= amount; then the balance falls by amount and one record of the given type with amount -amount and balance_after = new balance is appended; refused (non-positive amount or insufficient funds) means account unchanged; a non-negative balance stays non-negative |
| `Ledger.Received` | bank.py:98-101 | the credit side of a transfer: balance rises by amount once, and two records are appended in order, "Deposit" (amount) then "Transfer from <sender>" (amount, receiver field = sender), both with balance_after = new balance |
| `Ledger.Restored` | account.py:88-98 | `from_dict` keeps number, name, balance, PIN and type; it returns the record unchanged when the history is non-empty, and gives it exactly the history `Opened` builds from an empty one (one "Opening Balance" record) when the history is empty |
| `Ledger.LedgerStaysBalanced` | account.py:34-56 | a new account's history amounts add up to its balance, and accepted or refused deposits and withdrawals keep it so |
| `Ledger.Account.ToDict` | account.py:77-86 | the six fields as one record, history included |
| `Ledger.Account.constructor` | account.py:8-17 | the new account holds exactly the given identity fields and balance, and the history `Opened` gives |
| `Ledger.Account.FromDict` | account.py:88-98 | a fresh account whose `to_dict` is `Restored(data)`, so `from_dict(to_dict(a))` reproduces `a` when its history is non-empty |
| `Ledger.Account.AddTransaction` | account.py:19-28 | the account afterwards is `Appended` of the account before |
| `Ledger.Account.GetBalance` | account.py:30-32 | returns the stored balance and changes nothing |
| `Ledger.Account.Deposit` | account.py:34-42 | the result and the new account are exactly those of `Deposited` on the old account |
| `Ledger.Account.Withdraw` | account.py:44-56 | the result and the new account are exactly those of `Withdrawn` on the old account |
| `Ledger.Account.ReceiveTransfer` | bank.py:99-101 | `deposit` followed by `_add_transaction("Transfer from …")`: the new account is `Received` of the old one |
| `Directory.Created` | bank.py:51-64 | a negative opening deposit changes nothing; otherwise key `str(counter)` maps to a new account with that number, name, PIN, type, balance = deposit and the single opening record; the counter rises by exactly 1; every other entry is unchanged; well-keyedness, non-negative balances and reconciled histories are preserved |
| `Directory.NextKeyIsFree` | bank.py:57-59 | when every key was issued below the counter, `str(counter)` is not yet a key |
| `Directory.CreateIssuesFreshNumber` | bank.py:57-60 | numbers are never reused: creation then adds exactly one entry, overwriting none, and all keys stay issued below the advanced counter |
| `Directory.Transfer` | bank.py:79-109 | guards in order: receiver missing, then same account, then amount <= 0, then insufficient funds, each refusal with its own reason and no new state; on success the key set and every other account are unchanged, the sender loses amount with one "Transfer to <receiver>" record (-amount), the receiver gains amount with "Deposit" then "Transfer from <sender>"; non-negative balances and reconciled histories are preserved |
| `Directory.TransferConservesTotal` | bank.py:95-101 | a successful transfer leaves the sum of all balances in the directory unchanged |
| `Directory.TransferOvercountsReceiver` | bank.py:99-101 | for accounts whose history added up to the balance before the transfer: the sender's history still adds up, but the receiver's history amounts exceed its balance by exactly the transferred amount, because the amount is recorded twice |
| `Directory.RestoredAll` | bank.py:38-42 | `from_dict` on every saved account: same keys, same identity and balance, and unchanged whenever the history is non-empty |
| `Directory.SaveLoadRoundTrip` | bank.py:21-42 | rebuilding a saved record reproduces every account when no history is empty |
| `Directory.Bank.SaveData` | bank.py:21-24 | the saved record has the counter and one `to_dict` record per key, and it is well keyed when the directory is valid |
| `Directory.Bank.constructor` | bank.py:13-15 | a bank with no data file has no accounts and counter 1001 |
| `Directory.Bank.Load` | bank.py:32-42 | every saved account is rebuilt with `from_dict` under its key, as fresh objects, and the counter is taken from the record |
| `Directory.Bank.CreateAccount` | bank.py:51-64 | returns None for a negative deposit and `str(old counter)` otherwise; the saved view becomes `Created` of the old one; the new account is a fresh object; every other key keeps its object |
| `Directory.Bank.AuthenticateAccount` | bank.py:66-76 | returns the stored account iff the number is a key and its PIN equals the given PIN exactly; nothing changes |
| `Directory.Bank.TransferFunds` | bank.py:79-109 | returns true iff `Transfer` succeeds; the saved view is then `Transfer`'s result and otherwise unchanged; the key-to-object map and the counter never change |
| `Session.Apply` | main.py:30-86 | one menu request (create as at main.py:73-86; deposit, withdraw, transfer as at main.py:33-53) keeps the directory well keyed, balances non-negative and histories reconciled; only creation moves the counter or adds keys |
| `Session.Run` | main.py:69-96 | a sequence of requests applied in order keeps the directory well keyed |
| `Session.RunKeepsInvariants` | main.py:18-65 | after any sequence of requests, no balance is negative, every last record's balance_after equals the balance, every key was issued below the counter, and the counter never decreased |

## Left out

- File I/O and JSON in `save_data`/`load_data` (`open`, `json.dump`, `json.load`,
  `os.path.exists`) are foreign library calls. So are the error handling when writing
  fails (bank.py:25-30) and the fallback that empties the accounts when reading fails
  (bank.py:44-46); that fallback keeps any counter value already read at bank.py:38, so it
  does not give a fresh bank with counter 1001. Only the in-memory record is modelled:
  `Bank.SaveData` and `Bank.Load`.
- `data.get("next_account_number", 1001)`: the default for a record without a counter is
  not modelled. Records written by `save_data` always carry the counter.
- `Directory.Bank.Load` requires every saved key to equal the account number stored under
  it. Every record `save_data` writes satisfies this. A hand-edited file that breaks it is
  not modelled.
- Python shares list objects where the model uses values. `to_dict` returns the account's
  own transaction list, `from_dict` keeps the loaded list, and `Account(...)` given an
  empty list appends the opening record into the caller's list. The aliasing these allow
  is not captured.
- `Account.view_transactions` (account.py:58-74) prints a table only. All other `print`
  messages are left out too, including the two messages that tell apart the refusal
  reasons of `withdraw`. Both reasons return `False`, as in the model.
- `datetime.now()` is replaced by a timestamp parameter. Within one Python call each record
  reads the clock separately; the model gives all records of one call the same timestamp.
- `main.py`'s menu loop, `input()` parsing, `float()` conversion and PIN-format check are
  front-end glue. `Session` models only the order of calls it makes into the core.
- The persistence calls after a successful creation or transfer (bank.py:61, bank.py:104)
  write the record `Bank.SaveData` describes. The write itself is not modelled.
- Floating-point amounts are modelled as integers.
