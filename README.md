# Bank ledger core, modelled in Dafny

A model of the in-memory bank ledger in `main.go`. The ledger keeps
accounts. Each account has a fixed ID and owner name, a balance, and an
append-only history of transactions. An account service is bound to one
account and one store. It offers deposit, withdrawal, transfer to another
account, a balance read and a text statement. Every change is persisted
through the store. The store is a map from account ID to account. New
accounts get IDs `ACC000001`, `ACC000002`, … from a process-wide counter.

Layout, one module per file:

- `decimal.dfy` (`Decimal`): `%d` and `%0<w>d` rendering of naturals and the
  parse that inverts it. The parse is what makes the ID and amount
  renderings provably unambiguous.
- `ledger.dfy` (`Ledger`): the error kinds with their message texts, the
  transaction types, transactions, the `Account` class, the `%.2f`
  rendering of amounts, and `Net`, the balance a history adds up to.
- `storage.dfy` (`Storage`): `InMemoryStorage`, a class holding
  `map<string, Account>`.
- `service.dfy` (`Service`): `BankAccountService` and the statement text.
- `accounts.dfy` (`Accounts`): the ID counter and account creation.
- `session.dfy` (`Session`): three client methods that use only the
  contracts. They replay a short session: create two accounts, deposit
  100.00, have a withdrawal of 150.00 refused, then transfer 40.00.

Modelling choices:

- Amounts are whole cents (`int`), not `float64`. `%.2f` is rendered
  exactly from the cents.
- `Account` is a class. `id` and `ownerName` are `const`: the source never
  changes them after creation. `balance` and `transactions` are fields
  that the service updates in place. Because `id` is constant, two
  references to one object always carry the same ID. So the ID check in
  `Transfer` (main.go:120-122) alone rules out the bound account and the
  destination being the same object.
- A transaction's message is kept as a `Memo`: deposit, withdrawal, sent
  to an ID, or received from an ID. `Transaction.Message` renders it as the
  exact text main.go:85, 105, 130 and 139 format. With the memo kept
  structured, the model can state the ledger invariant `Account.Valid`:
  the balance is never negative, every entry has a positive amount and a
  type that matches its memo, and the balance equals `Net(transactions)`.
  Every service operation preserves it.
- Timestamps are `Timestamp` values that the caller passes in, in place
  of `time.Now()`. `Timestamp.Format` renders the layout
  `2006-01-02 15:04:05`.
- The global `accountCounter` is a field of an `AccountIdGenerator`
  object. A ghost set `issued` records the IDs handed out so far.
- `GetAllAccounts` walks the map's keys in an order picked by `:|`. This
  leaves the order open, as Go's map iteration does. The contract states
  the result as a set of accounts, with no duplicates and one entry per
  stored ID.
- Statement: main.go:159-161 writes three fixed lines: a title, the column
  header and a rule of 60 dashes. So a statement of n transactions has
  n + 3 lines, not n + 2 as a header-plus-separator reading would give;
  the model follows the code.

## Model

| member | source | states |
|---|---|---|
| `Service.BankAccountService.constructor` | main.go:68-73 | the service is bound to the given account and store |
| `Service.BankAccountService.Deposit` | main.go:75-89 | amount ≤ 0 returns InvalidAmount and changes neither the account nor the store; otherwise the balance rises by exactly the amount, exactly one DEPOSIT entry with that amount and time is appended, the account is saved under its ID, and the ledger invariant and store invariant are kept |
| `Service.BankAccountService.Withdraw` | main.go:91-109 | InvalidAmount for amount ≤ 0, then InsufficientFunds when the balance is below the amount, in both cases with nothing changed; otherwise the balance falls by the amount, one WITHDRAW entry is appended, the account is saved, and a non-negative, history-consistent balance stays so |
| `Service.BankAccountService.Transfer` | main.go:111-147 | checks in order amount > 0, funds, distinct IDs, and the first failing check decides the error with nothing changed (so a same-account transfer beyond the balance is InsufficientFunds); on success the source falls and the destination rises by the amount, so their sum is conserved, each gains one TRANSFER entry naming the other's ID, and the store holds source then destination under their IDs |
| `Service.BankAccountService.GetBalance` | main.go:149-151 | returns the bound account's balance and changes nothing |
| `Service.BankAccountService.GetStatement` | main.go:153-173 | the text built line by line equals `Statement` of the account's history: the fixed empty-history message, or the three header lines followed by one row per transaction in insertion order |
| `Service.StatementLineCount` | main.go:154-172 | an empty history gives a text with no line break; n transactions give exactly n + 3 newline-terminated lines, provided no counterparty ID holds a line break |
| `Service.StatementExtends` | main.go:163-170 | appending a transaction to a non-empty history appends exactly its row to the statement and leaves the text already printed unchanged |
| `Service.Row` | main.go:164-169 | one statement line in the `%s \| %s \| %.2f \| %s` format: it begins with the formatted time and ends with the transaction's message |
| `Service.RowNoNewline` | main.go:164-169 | a transaction row (time, type, amount, message) contains no line break of its own, provided its counterparty ID holds no line break |
| `Storage.InMemoryStorage.constructor` | main.go:180-184 | a new store holds no accounts |
| `Storage.InMemoryStorage.SaveAccount` | main.go:186-189 | upsert: the map afterwards is the old map with the account's ID bound to the account; every account stays stored under its own ID |
| `Storage.InMemoryStorage.LoadAccount` | main.go:191-197 | returns the account stored under the ID, or AccountNotFound when there is none |
| `Storage.InMemoryStorage.GetAllAccounts` | main.go:199-205 | returns each stored account exactly once, as many entries as stored IDs, and nothing else, in an order left open |
| `Storage.SaveThenLoad` | main.go:186-197 | loading an account's ID right after saving it gives that account back |
| `Storage.SaveTwice` | main.go:186-189 | saving an account twice leaves the store as saving it once does |
| `Ledger.Account.constructor` | main.go:226-230 | a new account has the given ID and owner, balance 0 and an empty history, and satisfies the ledger invariant |
| `Ledger.NetAppend` | main.go:80-81 | helper for the ledger invariant: appending an entry changes what a history adds up to by exactly that entry's effect |
| `Ledger.NetConcat` | main.go:80-81 | helper for the ledger invariant: what two histories in a row add up to is the sum of what each adds up to |
| `Ledger.Error.Text` | main.go:14-19 | the non-empty message text of each error, as `errors.New` gives it at main.go:15-18 and, for an empty owner name, at main.go:223 |
| `Ledger.ErrorTextInjective` | main.go:14-19 | distinct errors have distinct message texts |
| `Ledger.Transaction.Message` | main.go:85-139 | the messages of main.go:85, 105, 130 and 139: deposit, withdrawal, transfer to an ID, transfer from an ID, each ending with the amount's `%.2f` text |
| `Ledger.TransferMessageNamesCounterparty` | main.go:130-139 | a transfer message names its counterparty: two transfers of one direction and amount with different counterparty IDs have different messages |
| `Ledger.FormatAmount` | main.go:167 | `%.2f` of an amount of cents is at least four characters long; its layout (sign, units, point, two digits) is what `FormatAmountSign`, `FormatCentsParts` and `FormatAmountRoundTrip` state |
| `Ledger.FormatAmountRoundTrip` | main.go:167 | reading the `%.2f` text back, sign included, gives the amount |
| `Ledger.FormatAmountInjective` | main.go:167 | distinct amounts have distinct `%.2f` texts |
| `Ledger.FormatAmountSign` | main.go:167 | helper for the round trip: the text starts with a minus sign exactly when the amount is negative |
| `Ledger.FormatCentsParts` | main.go:85 | the `%.2f` text of an amount splits at the point into the whole units and two cent digits, and reading both back gives the amount |
| `Ledger.Timestamp.Format` | main.go:165 | helper for the statement rows: the `2006-01-02 15:04:05` layout yields at least 19 characters |
| `Accounts.AccountId` | main.go:211 | an ID is `ACC` followed by digits, at least nine characters |
| `Accounts.AccountIdInjective` | main.go:210-213 | distinct counter values give distinct IDs |
| `Accounts.AccountIdValue` | main.go:211 | the digits after `ACC` read back as the counter value |
| `Accounts.AccountIdNoNewline` | main.go:211 | a generated ID holds no line break, so a counterparty named by one keeps every statement row on one line |
| `Accounts.AccountIdLength` | main.go:211 | below one million the ID is exactly nine characters, the six digits zero-padded |
| `Accounts.AccountIdGenerator.constructor` | main.go:208 | the counter starts at 1 and no ID has been handed out |
| `Accounts.AccountIdGenerator.GenerateAccountId` | main.go:210-214 | returns the ID of the current counter value, raises the counter by one, and the ID was never handed out before |
| `Accounts.CreateAccount` | main.go:222-236 | an empty owner name is refused before an ID is drawn and nothing changes; otherwise a fresh account with the next ID, balance 0 and empty history is stored at once, and it never overwrites an account whose ID came from the same counter |
| `Decimal.Digits` | main.go:211 | `%d` yields only digits, with no leading zero above 9 |
| `Decimal.ValueOfDigits` | main.go:211 | parsing the `%d` rendering of n gives n |
| `Decimal.ValueOfZeroPadded` | main.go:211 | zero padding does not change the number the digits denote |
| `Decimal.ZeroPaddedInjective` | main.go:211 | distinct numbers have distinct `%06d` renderings |
| `Decimal.ZeroPaddedLength` | main.go:211 | a number below 10^w renders to exactly w characters under `%0<w>d` |

## Left out

- `main` (main.go:258-401) and `printAccounts` (main.go:239-256) are the interactive menu and console output. Their reads from standard input and their printing are not modelled.
- `createAccount`'s prompt, scanner read and `strings.TrimSpace` (main.go:218-220) are not modelled. `CreateAccount` takes the owner name as already read and trimmed.
- `float64` amounts are whole cents here. So the model does not capture rounding, `%.2f` rounding of fractions of a cent, or non-finite values. Go's `amount <= 0` is false for NaN, so a NaN amount would pass the amount and funds checks in the source; only the distinct-ID check of a transfer (main.go:120-122) still applies to it. Such an amount has no counterpart here.
- `Timestamp` fields are plain naturals taken as already normalised (month 1-12, hour 0-23, and so on), as a clock reading always is; the model does not check calendar validity.
- `time.Now()` is a `Timestamp` parameter. `Transfer` stamps both of its entries with the one reading it is given, while the source reads the clock twice.
- Storage failures are not modelled. `InMemoryStorage.SaveAccount` always returns nil, so the model's `SaveAccount` has no error result. The service's `return s.storage.SaveAccount(...)` and `createAccount`'s error branch therefore never fire. The `Storage` and `AccountService` interfaces and any other store backend are not part of this model. So the non-atomic debit, credit, save source, save destination sequence of a transfer shows up only as the order of the two map updates.
- The message of each transaction is a `Memo` plus its rendering `Transaction.Message`, not a stored string.
- `accountCounter` is unbounded here. Go's `int` overflow after 2^63 - 1 accounts is not modelled.
