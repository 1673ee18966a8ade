/** The account service: deposit, withdrawal, transfer, balance and
    statement for one bound account, persisting through the store. */
module Service {
  import opened Decimal
  import opened Ledger
  import opened Storage

  const EmptyHistory := "История транзакций пуста"
  const StatementTitle := "Выписка по счету:"
  const ColumnHeader := "Дата/Время | Тип | Сумма | Описание"
  const Rule := Repeat('-', 60)

  /** n copies of c. */
  function Repeat(c: char, n: nat): (s: string)
    ensures |s| == n && forall i :: 0 <= i < n ==> s[i] == c
  {
    seq(n, _ => c)
  }

  /** The statement's fixed first three lines. */
  function Header(): seq<string> {
    [StatementTitle, ColumnHeader, Rule]
  }

  /** One statement line, without its newline: the time first, the message last. */
  function Row(tx: Transaction): (s: string)
    ensures |s| >= |tx.timestamp.Format()| + |tx.Message()|
    ensures s[..|tx.timestamp.Format()|] == tx.timestamp.Format()
    ensures s[|s| - |tx.Message()|..] == tx.Message()
  {
    tx.timestamp.Format() + " | " + tx.kind.Name() + " | " + FormatAmount(tx.amount) + " | " + tx.Message()
  }

  function Rows(history: seq<Transaction>): (lines: seq<string>)
    ensures |lines| == |history|
    ensures forall i :: 0 <= i < |history| ==> lines[i] == Row(history[i])
  {
    seq(|history|, i requires 0 <= i < |history| => Row(history[i]))
  }

  /** Lines joined with a newline after each. */
  function Unlines(lines: seq<string>): string {
    if lines == [] then "" else Unlines(lines[..|lines| - 1]) + lines[|lines| - 1] + "\n"
  }

  /** The statement text: a fixed message for an empty history, otherwise
      the header followed by one row per transaction in history order. */
  function Statement(history: seq<Transaction>): string {
    if history == [] then EmptyHistory else Unlines(Header() + Rows(history))
  }

  predicate NoNewline(s: string) {
    '\n' !in s
  }

  /** The counterparty ID a transfer names contains no line break. */
  predicate PlainMemo(tx: Transaction) {
    match tx.memo
    case SentTo(id) => NoNewline(id)
    case ReceivedFrom(id) => NoNewline(id)
    case _ => true
  }

  lemma RowsAppend(history: seq<Transaction>, tx: Transaction)
    ensures Rows(history + [tx]) == Rows(history) + [Row(tx)]
  {
  }

  lemma HeaderText()
    ensures Unlines(Header()) == StatementTitle + "\n" + ColumnHeader + "\n" + Rule + "\n"
  {
    UnlinesAppend([], StatementTitle);
    UnlinesAppend([StatementTitle], ColumnHeader);
    UnlinesAppend([StatementTitle, ColumnHeader], Rule);
  }

  lemma UnlinesAppend(lines: seq<string>, line: string)
    ensures Unlines(lines + [line]) == Unlines(lines) + line + "\n"
  {
    assert (lines + [line])[..|lines|] == lines;
  }

  /** Joined lines hold exactly one newline per line when no line holds one. */
  lemma {:induction false} UnlinesNewlines(lines: seq<string>)
    requires forall i :: 0 <= i < |lines| ==> NoNewline(lines[i])
    ensures multiset(Unlines(lines))['\n'] == |lines|
    decreases |lines|
  {
    if lines != [] {
      var init, last := lines[..|lines| - 1], lines[|lines| - 1];
      UnlinesNewlines(init);
      assert multiset(last)['\n'] == 0;
      assert Unlines(lines) == Unlines(init) + last + "\n";
      assert multiset(Unlines(lines)) == multiset(Unlines(init)) + multiset(last) + multiset("\n");
    }
  }

  lemma DigitsNoNewline(s: string)
    requires AllDigits(s)
    ensures NoNewline(s)
  {
  }

  lemma AmountNoNewline(amount: int)
    ensures NoNewline(FormatAmount(amount))
  {
    var a := if amount < 0 then -amount else amount;
    DigitsNoNewline(Digits(a / 100));
    DigitsNoNewline(ZeroPadded(a % 100, 2));
  }

  lemma TimestampNoNewline(t: Timestamp)
    ensures NoNewline(t.Format())
  {
    DigitsNoNewline(ZeroPadded(t.year, 4));
    DigitsNoNewline(ZeroPadded(t.month, 2));
    DigitsNoNewline(ZeroPadded(t.day, 2));
    DigitsNoNewline(ZeroPadded(t.hour, 2));
    DigitsNoNewline(ZeroPadded(t.minute, 2));
    DigitsNoNewline(ZeroPadded(t.second, 2));
  }

  /** A row has no line break of its own when its counterparty ID has none. */
  lemma RowNoNewline(tx: Transaction)
    requires PlainMemo(tx)
    ensures NoNewline(Row(tx))
  {
    var sep := " | ";
    assert NoNewline(sep);
    TimestampNoNewline(tx.timestamp);
    TypeNameNoNewline(tx.kind);
    AmountNoNewline(tx.amount);
    MessageNoNewline(tx);
    ConcatNoNewline(tx.timestamp.Format(), sep);
    var prefix := tx.timestamp.Format() + sep;
    ConcatNoNewline(prefix, tx.kind.Name());
    ConcatNoNewline(prefix + tx.kind.Name(), sep);
    prefix := prefix + tx.kind.Name() + sep;
    ConcatNoNewline(prefix, FormatAmount(tx.amount));
    ConcatNoNewline(prefix + FormatAmount(tx.amount), sep);
    prefix := prefix + FormatAmount(tx.amount) + sep;
    ConcatNoNewline(prefix, tx.Message());
  }

  lemma ConcatNoNewline(a: string, b: string)
    requires NoNewline(a) && NoNewline(b)
    ensures NoNewline(a + b)
  {
  }

  lemma TypeNameNoNewline(kind: TransactionType)
    ensures NoNewline(kind.Name())
  {
  }

  lemma MessageNoNewline(tx: Transaction)
    requires PlainMemo(tx)
    ensures NoNewline(tx.Message())
  {
    var amount := FormatAmount(tx.amount);
    AmountNoNewline(tx.amount);
    MessageTextsNoNewline();
    match tx.memo
    case Deposited =>
      PrefixedNoNewline("Пополнение счета на ", amount);
    case Withdrawn =>
      PrefixedNoNewline("Снятие средств на ", amount);
    case SentTo(id) =>
      NamedNoNewline("Перевод счету ", id, amount);
    case ReceivedFrom(id) =>
      NamedNoNewline("Перевод от счета ", id, amount);
  }

  lemma MessageTextsNoNewline()
    ensures NoNewline("Пополнение счета на ") && NoNewline("Снятие средств на ")
    ensures NoNewline("Перевод счету ") && NoNewline("Перевод от счета ")
  {
  }

  lemma PrefixedNoNewline(prefix: string, amount: string)
    requires NoNewline(prefix) && NoNewline(amount)
    ensures NoNewline(prefix + amount)
  {
    ConcatNoNewline(prefix, amount);
  }

  lemma NamedNoNewline(prefix: string, id: string, amount: string)
    requires NoNewline(prefix) && NoNewline(id) && NoNewline(amount)
    ensures NoNewline(prefix + id + " на " + amount)
  {
    ConcatNoNewline(prefix, id);
    ConcatNoNewline(prefix + id, " на ");
    ConcatNoNewline(prefix + id + " на ", amount);
  }

  /** None of the three header lines holds a line break of its own. */
  lemma HeaderNoNewline()
    ensures forall i :: 0 <= i < |Header()| ==> NoNewline(Header()[i])
  {
    assert NoNewline(StatementTitle);
    assert NoNewline(ColumnHeader);
    assert NoNewline(Rule);
  }

  /** A statement of n transactions has n + 3 lines: the three header lines
      and one per transaction. The empty-history text is a single line. */
  lemma StatementLineCount(history: seq<Transaction>)
    requires forall i :: 0 <= i < |history| ==> PlainMemo(history[i])
    ensures history == [] ==> multiset(Statement(history))['\n'] == 0
    ensures history != [] ==> multiset(Statement(history))['\n'] == |history| + 3
  {
    if history == [] {
      EmptyHistoryNoNewline();
    } else {
      LinesNoNewline(history);
      UnlinesNewlines(Header() + Rows(history));
    }
  }

  lemma EmptyHistoryNoNewline()
    ensures multiset(EmptyHistory)['\n'] == 0
  {
    assert NoNewline(EmptyHistory);
    NoNewlineCount(EmptyHistory);
  }

  lemma NoNewlineCount(s: string)
    requires NoNewline(s)
    ensures multiset(s)['\n'] == 0
  {
  }

  lemma LinesNoNewline(history: seq<Transaction>)
    requires forall i :: 0 <= i < |history| ==> PlainMemo(history[i])
    ensures var lines := Header() + Rows(history);
      forall i :: 0 <= i < |lines| ==> NoNewline(lines[i])
  {
    var rows := Rows(history);
    forall i | 0 <= i < |rows| ensures NoNewline(rows[i]) {
      RowNoNewline(history[i]);
    }
    HeaderNoNewline();
    ConcatLinesNoNewline(Header(), rows);
  }

  lemma ConcatLinesNoNewline(a: seq<string>, b: seq<string>)
    requires forall i :: 0 <= i < |a| ==> NoNewline(a[i])
    requires forall i :: 0 <= i < |b| ==> NoNewline(b[i])
    ensures forall i :: 0 <= i < |a + b| ==> NoNewline((a + b)[i])
  {
  }

  /** Appending a transaction to a non-empty history appends exactly its row
      to the statement; nothing already printed changes. */
  lemma StatementExtends(history: seq<Transaction>, tx: Transaction)
    requires history != []
    ensures Statement(history + [tx]) == Statement(history) + Row(tx) + "\n"
  {
    RowsAppend(history, tx);
    assert Header() + Rows(history + [tx]) == (Header() + Rows(history)) + [Row(tx)];
    UnlinesAppend(Header() + Rows(history), Row(tx));
  }

  /** Rendering one more transaction of a history appends exactly its row. */
  lemma StatementGrowsByRow(history: seq<Transaction>, i: nat)
    requires i < |history|
    ensures Unlines(Header() + Rows(history[..i + 1])) == Unlines(Header() + Rows(history[..i])) + Row(history[i]) + "\n"
  {
    assert history[..i + 1] == history[..i] + [history[i]];
    RowsAppend(history[..i], history[i]);
    assert Header() + Rows(history[..i + 1]) == (Header() + Rows(history[..i])) + [Row(history[i])];
    UnlinesAppend(Header() + Rows(history[..i]), Row(history[i]));
  }

  /** The service bound to one account and one store. */
  class BankAccountService {
    const account: Account
    const storage: InMemoryStorage

    constructor (account: Account, storage: InMemoryStorage)
      ensures this.account == account && this.storage == storage
    {
      this.account := account;
      this.storage := storage;
    }

    /** Adds amount to the balance and records it. A non-positive amount is
        rejected and nothing changes. */
    method Deposit(amount: int, now: Timestamp) returns (r: Outcome)
      modifies account, storage
      ensures amount <= 0 ==> r == Failure(InvalidAmount) && unchanged(account, storage)
      ensures amount > 0 ==>
        && r == Success
        && account.balance == old(account.balance) + amount
        && account.transactions == old(account.transactions) + [Transaction(TransactionType.Deposit, amount, now, Deposited)]
        && storage.accounts == old(storage.accounts)[account.id := account]
      ensures old(account.Valid()) ==> account.Valid()
      ensures old(storage.Valid()) ==> storage.Valid()
    {
      if amount <= 0 {
        return Failure(InvalidAmount);
      }
      var tx := Transaction(TransactionType.Deposit, amount, now, Deposited);
      NetAppend(account.transactions, tx);
      account.balance := account.balance + amount;
      account.transactions := account.transactions + [tx];
      storage.SaveAccount(account);
      return Success;
    }

    /** Takes amount off the balance and records it. A non-positive amount,
        then an amount above the balance, is rejected and nothing changes. */
    method Withdraw(amount: int, now: Timestamp) returns (r: Outcome)
      modifies account, storage
      ensures amount <= 0 ==> r == Failure(InvalidAmount)
      ensures 0 < amount && old(account.balance) < amount ==> r == Failure(InsufficientFunds)
      ensures r.Failure? ==> unchanged(account, storage)
      ensures 0 < amount <= old(account.balance) ==>
        && r == Success
        && account.balance == old(account.balance) - amount
        && account.transactions == old(account.transactions) + [Transaction(TransactionType.Withdraw, amount, now, Withdrawn)]
        && storage.accounts == old(storage.accounts)[account.id := account]
      ensures old(account.Valid()) ==> account.Valid()
      ensures old(storage.Valid()) ==> storage.Valid()
    {
      if amount <= 0 {
        return Failure(InvalidAmount);
      }
      if account.balance < amount {
        return Failure(InsufficientFunds);
      }
      var tx := Transaction(TransactionType.Withdraw, amount, now, Withdrawn);
      NetAppend(account.transactions, tx);
      account.balance := account.balance - amount;
      account.transactions := account.transactions + [tx];
      storage.SaveAccount(account);
      return Success;
    }

    /** Moves amount from the bound account to `to`. Checked in this order:
        the amount is positive, the balance covers it, the IDs differ; the
        first check that fails decides the error and nothing changes.
        Otherwise both balances move by amount, each history gains one
        transfer naming the other account, and source then destination are
        saved. */
    method Transfer(to: Account, amount: int, now: Timestamp) returns (r: Outcome)
      modifies account, to, storage
      ensures amount <= 0 ==> r == Failure(InvalidAmount)
      ensures 0 < amount && old(account.balance) < amount ==> r == Failure(InsufficientFunds)
      ensures 0 < amount <= old(account.balance) && account.id == to.id ==> r == Failure(SameAccountTransfer)
      ensures r.Failure? ==> unchanged(account, to, storage)
      ensures 0 < amount <= old(account.balance) && account.id != to.id ==>
        && r == Success
        && account.balance == old(account.balance) - amount
        && to.balance == old(to.balance) + amount
        && account.transactions == old(account.transactions) + [Transaction(TransactionType.Transfer, amount, now, SentTo(to.id))]
        && to.transactions == old(to.transactions) + [Transaction(TransactionType.Transfer, amount, now, ReceivedFrom(account.id))]
        && storage.accounts == old(storage.accounts)[account.id := account][to.id := to]
      ensures account.balance + to.balance == old(account.balance + to.balance)
      ensures old(account.Valid()) ==> account.Valid()
      ensures old(to.Valid()) ==> to.Valid()
      ensures old(storage.Valid()) ==> storage.Valid()
    {
      if amount <= 0 {
        return Failure(InvalidAmount);
      }
      if account.balance < amount {
        return Failure(InsufficientFunds);
      }
      if account.id == to.id {
        return Failure(SameAccountTransfer);
      }
      var sent := Transaction(TransactionType.Transfer, amount, now, SentTo(to.id));
      NetAppend(account.transactions, sent);
      account.balance := account.balance - amount;
      account.transactions := account.transactions + [sent];

      var received := Transaction(TransactionType.Transfer, amount, now, ReceivedFrom(account.id));
      NetAppend(to.transactions, received);
      to.balance := to.balance + amount;
      to.transactions := to.transactions + [received];

      storage.SaveAccount(account);
      storage.SaveAccount(to);
      return Success;
    }

    method GetBalance() returns (balance: int)
      ensures balance == account.balance
    {
      return account.balance;
    }

    /** The statement of the bound account's history, built line by line. */
    method GetStatement() returns (text: string)
      ensures text == Statement(account.transactions)
    {
      var history := account.transactions;
      if |history| == 0 {
        return EmptyHistory;
      }
      text := StatementTitle + "\n";
      text := text + ColumnHeader + "\n";
      text := text + Rule + "\n";
      HeaderText();
      assert Header() + Rows(history[..0]) == Header();
      for i := 0 to |history|
        invariant text == Unlines(Header() + Rows(history[..i]))
      {
        StatementGrowsByRow(history, i);
        text := text + Row(history[i]) + "\n";
      }
      assert history[..|history|] == history;
    }
  }
}
