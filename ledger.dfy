/** Ledger entities: error kinds, transactions and accounts, and how a
    transaction is rendered as text. Amounts are whole cents. */
module Ledger {
  import opened Decimal

  /** The error values the service, the store and account creation return. */
  datatype Error =
    | InsufficientFunds
    | InvalidAmount
    | AccountNotFound
    | SameAccountTransfer
    | EmptyOwnerName
  {
    /** The error's message text. */
    function Text(): (s: string)
      ensures |s| > 0
    {
      match this
      case InsufficientFunds => "недостаточно средств на счете"
      case InvalidAmount => "некорректная сумма (отрицательная или нулевая)"
      case AccountNotFound => "счет не найден"
      case SameAccountTransfer => "попытка перевода на тот же счёт"
      case EmptyOwnerName => "имя владельца не может быть пустым"
    }
  }

  /** Each error has its own message text, so the text tells the errors apart. */
  lemma ErrorTextInjective(e: Error, f: Error)
    requires e != f
    ensures e.Text() != f.Text()
  {
  }

  /** What an operation returns: nil, or one of the errors above. */
  datatype Outcome = Success | Failure(error: Error)

  datatype Result<T> = Ok(value: T) | Err(error: Error)

  datatype TransactionType = Deposit | Withdraw | Transfer
  {
    function Name(): string {
      match this
      case Deposit => "DEPOSIT"
      case Withdraw => "WITHDRAW"
      case Transfer => "TRANSFER"
    }
  }

  /** A clock reading, supplied by the caller in place of the system clock.
      The fields are taken as already normalised (month 1-12, hour 0-23, …),
      as a clock reading always is; nothing here depends on it. */
  datatype Timestamp = Timestamp(year: nat, month: nat, day: nat, hour: nat, minute: nat, second: nat)
  {
    /** The reading in the layout "2006-01-02 15:04:05". */
    function Format(): (s: string)
      ensures |s| >= 19
    {
      ZeroPadded(year, 4) + "-" + ZeroPadded(month, 2) + "-" + ZeroPadded(day, 2) + " " +
      ZeroPadded(hour, 2) + ":" + ZeroPadded(minute, 2) + ":" + ZeroPadded(second, 2)
    }
  }

  /** What a transaction's message says: the kind of movement and, for a
      transfer, the counterparty's ID. The amount comes from the transaction. */
  datatype Memo =
    | Deposited
    | Withdrawn
    | SentTo(recipient: string)
    | ReceivedFrom(sender: string)

  datatype Transaction = Transaction(kind: TransactionType, amount: int, timestamp: Timestamp, memo: Memo)
  {
    /** The transaction's message text. It ends with the amount. */
    function Message(): (s: string)
      ensures |s| > |FormatAmount(amount)|
      ensures s[|s| - |FormatAmount(amount)|..] == FormatAmount(amount)
    {
      match memo
      case Deposited => "Пополнение счета на " + FormatAmount(amount)
      case Withdrawn => "Снятие средств на " + FormatAmount(amount)
      case SentTo(id) => "Перевод счету " + id + " на " + FormatAmount(amount)
      case ReceivedFrom(id) => "Перевод от счета " + id + " на " + FormatAmount(amount)
    }

    /** The signed change this transaction made to its account's balance. */
    function Effect(): int {
      match memo
      case Deposited => amount
      case Withdrawn => -amount
      case SentTo(_) => -amount
      case ReceivedFrom(_) => amount
    }

    /** The type and the memo agree, and the amount is positive. */
    predicate WellFormed() {
      && amount > 0
      && (kind == Deposit <==> memo.Deposited?)
      && (kind == Withdraw <==> memo.Withdrawn?)
      && (kind == Transfer <==> (memo.SentTo? || memo.ReceivedFrom?))
    }
  }

  /** A transfer's message names its counterparty: two transfer entries of
      the same direction and amount but different counterparties have
      different messages. */
  lemma TransferMessageNamesCounterparty(tx: Transaction, u: Transaction)
    requires tx.amount == u.amount && tx.memo != u.memo
    requires (tx.memo.SentTo? && u.memo.SentTo?) || (tx.memo.ReceivedFrom? && u.memo.ReceivedFrom?)
    ensures tx.Message() != u.Message()
  {
    var amount := FormatAmount(tx.amount);
    match tx.memo
    case SentTo(x) =>
      AffixCancel("Перевод счету ", x, u.memo.recipient, " на ", amount);
    case ReceivedFrom(x) =>
      AffixCancel("Перевод от счета ", x, u.memo.sender, " на ", amount);
  }

  /** A fixed prefix and fixed suffixes around two different middles give
      different strings. */
  lemma AffixCancel(p: string, x: string, y: string, q: string, r: string)
    requires x != y
    ensures p + x + q + r != p + y + q + r
  {
    assert (p + x + q + r)[|p|..|p| + |x|] == x;
    assert (p + y + q + r)[|p|..|p| + |y|] == y;
  }

  /** `%.2f` of an amount of cents. */
  function FormatAmount(cents: int): (s: string)
    ensures |s| >= 4
  {
    if cents < 0 then "-" + FormatCents(-cents) else FormatCents(cents)
  }

  function FormatCents(cents: nat): (s: string)
    ensures |s| >= 4 && s[|s| - 3] == '.'
  {
    Pow10Two();
    ZeroPaddedLength(cents % 100, 2);
    Digits(cents / 100) + "." + ZeroPadded(cents % 100, 2)
  }

  /** The cents rendering keeps whole units and cents apart: reading the
      digits around the point gives the amount back. */
  lemma FormatCentsParts(cents: nat)
    ensures var s := FormatCents(cents);
      AllDigits(s[..|s| - 3]) && AllDigits(s[|s| - 2..]) &&
      Value(s[..|s| - 3]) * 100 + Value(s[|s| - 2..]) == cents
  {
    var s := FormatCents(cents);
    Pow10Two();
    ZeroPaddedLength(cents % 100, 2);
    assert s[..|s| - 3] == Digits(cents / 100);
    assert s[|s| - 2..] == ZeroPadded(cents % 100, 2);
    ValueOfDigits(cents / 100);
    ValueOfZeroPadded(cents % 100, 2);
  }

  /** Reads a `%.2f` rendering of a non-negative amount back into cents:
      whole units, a point and two digits. Anything else reads as 0. */
  function ParseCents(s: string): nat {
    if |s| >= 4 && s[|s| - 3] == '.' && AllDigits(s[..|s| - 3]) && AllDigits(s[|s| - 2..])
    then Value(s[..|s| - 3]) * 100 + Value(s[|s| - 2..])
    else 0
  }

  /** Reads a `%.2f` rendering back into cents, minus sign included. */
  function ParseAmount(s: string): int {
    if |s| > 0 && s[0] == '-' then -(ParseCents(s[1..]) as int) else ParseCents(s)
  }

  /** Reading the `%.2f` text of an amount gives the amount back. */
  lemma FormatAmountRoundTrip(cents: int)
    ensures ParseAmount(FormatAmount(cents)) == cents
  {
    var c := if cents < 0 then -cents else cents;
    FormatCentsParts(c);
    assert ParseCents(FormatCents(c)) == c;
    FormatAmountSign(cents);
    if cents < 0 {
      assert FormatAmount(cents)[1..] == FormatCents(c);
    }
  }

  /** Distinct amounts have distinct `%.2f` renderings. */
  lemma FormatAmountInjective(a: int, b: int)
    requires a != b
    ensures FormatAmount(a) != FormatAmount(b)
  {
    FormatAmountRoundTrip(a);
    FormatAmountRoundTrip(b);
  }

  /** The rendering starts with a minus sign exactly for a negative amount. */
  lemma FormatAmountSign(cents: int)
    ensures FormatAmount(cents)[0] == '-' <==> cents < 0
  {
    if cents >= 0 {
      assert FormatCents(cents)[0] == Digits(cents / 100)[0];
    }
  }

  lemma Pow10Two()
    ensures Pow10(2) == 100
  {
    assert Pow10(1) == 10;
  }

  /** The net of a history: the sum of its transactions' effects. */
  function Net(history: seq<Transaction>): int {
    if history == [] then 0 else Net(history[..|history| - 1]) + history[|history| - 1].Effect()
  }

  /** The net of an appended history is the old net plus the new entry's effect. */
  lemma NetAppend(history: seq<Transaction>, t: Transaction)
    ensures Net(history + [t]) == Net(history) + t.Effect()
  {
    assert (history + [t])[..|history|] == history;
  }

  /** The net of two histories in a row is the sum of their nets. */
  lemma {:induction false} NetConcat(earlier: seq<Transaction>, later: seq<Transaction>)
    ensures Net(earlier + later) == Net(earlier) + Net(later)
    decreases |later|
  {
    if later != [] {
      var init := later[..|later| - 1];
      assert earlier + later == (earlier + init) + [later[|later| - 1]];
      assert later == init + [later[|later| - 1]];
      NetConcat(earlier, init);
      NetAppend(earlier + init, later[|later| - 1]);
      NetAppend(init, later[|later| - 1]);
    } else {
      assert earlier + later == earlier;
    }
  }

  /** An account. Its ID and owner are fixed at creation; the balance and the
      history change only through the account service. */
  class Account {
    const id: string
    const ownerName: string
    var balance: int
    var transactions: seq<Transaction>

    /** The ledger invariant: the balance is never negative, every entry is
        well formed, and the balance is what the history adds up to. */
    ghost predicate Valid()
      reads this
    {
      && balance >= 0
      && (forall i :: 0 <= i < |transactions| ==> transactions[i].WellFormed())
      && balance == Net(transactions)
    }

    /** A new account: balance 0, empty history. */
    constructor (id: string, ownerName: string)
      ensures this.id == id && this.ownerName == ownerName
      ensures balance == 0 && transactions == []
      ensures Valid()
    {
      this.id := id;
      this.ownerName := ownerName;
      balance := 0;
      transactions := [];
    }
  }
}
