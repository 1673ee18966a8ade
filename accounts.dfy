/** Account creation: the process-wide ID counter and the rule that turns an
    owner name into a new, stored account. */
module Accounts {
  import opened Decimal
  import opened Ledger
  import opened Storage

  /** `ACC` followed by the counter, zero-padded to six digits. */
  function AccountId(n: nat): (id: string)
    ensures |id| >= 9 && id[..3] == "ACC"
    ensures AllDigits(id[3..])
  {
    "ACC" + ZeroPadded(n, 6)
  }

  /** Distinct counter values give distinct IDs. */
  lemma AccountIdInjective(m: nat, n: nat)
    requires m != n
    ensures AccountId(m) != AccountId(n)
  {
    assert AccountId(m)[3..] == ZeroPadded(m, 6);
    assert AccountId(n)[3..] == ZeroPadded(n, 6);
    ZeroPaddedInjective(m, n, 6);
  }

  /** The ID shows the counter: its digits read back as the counter's value. */
  lemma AccountIdValue(n: nat)
    ensures Value(AccountId(n)[3..]) == n
  {
    assert AccountId(n)[3..] == ZeroPadded(n, 6);
    ValueOfZeroPadded(n, 6);
  }

  /** An ID holds no line break, so it can name a counterparty in a
      statement row without splitting the row. */
  lemma AccountIdNoNewline(n: nat)
    ensures '\n' !in AccountId(n)
  {
  }

  /** Below a million the ID is exactly nine characters long. */
  lemma AccountIdLength(n: nat)
    requires n < 1000000
    ensures |AccountId(n)| == 9
  {
    assert Pow10(6) == 1000000 by {
      assert Pow10(2) == 100 by { assert Pow10(1) == 10; }
      assert Pow10(4) == 10000 by { assert Pow10(3) == 1000; }
      assert Pow10(5) == 100000;
    }
    ZeroPaddedLength(n, 6);
  }

  /** The ID counter, which starts at 1 and goes up by one per ID. */
  class AccountIdGenerator {
    var counter: nat
    /** The IDs handed out so far. */
    ghost var issued: set<string>

    ghost predicate Valid()
      reads this
    {
      && counter >= 1
      && issued == set k | 1 <= k < counter :: AccountId(k)
    }

    constructor ()
      ensures Valid() && counter == 1 && issued == {}
    {
      counter := 1;
      issued := {};
    }

    /** The ID for the current counter; the counter then moves on, so the
        ID is one never handed out before. */
    method GenerateAccountId() returns (id: string)
      requires Valid()
      modifies this
      ensures Valid()
      ensures id == AccountId(old(counter)) && counter == old(counter) + 1
      ensures id !in old(issued) && issued == old(issued) + {id}
    {
      id := AccountId(counter);
      forall k | 1 <= k < counter
        ensures AccountId(k) != id
      {
        AccountIdInjective(k, counter);
      }
      issued := issued + {id};
      counter := counter + 1;
    }
  }

  /** Creates and stores an account for a non-empty owner name. An empty
      name is rejected before any ID is drawn. A new account has balance 0
      and no history, and never replaces a stored account whose ID came from
      the same counter. */
  method CreateAccount(storage: InMemoryStorage, ids: AccountIdGenerator, ownerName: string)
    returns (r: Result<Account>)
    requires ids.Valid()
    modifies storage, ids
    ensures ids.Valid()
    ensures ownerName == [] ==> r == Err(EmptyOwnerName) && unchanged(storage, ids)
    ensures ownerName != [] ==>
      && r.Ok?
      && fresh(r.value)
      && r.value.id == AccountId(old(ids.counter))
      && r.value.ownerName == ownerName
      && r.value.balance == 0 && r.value.transactions == []
      && r.value.Valid()
      && ids.counter == old(ids.counter) + 1
      && storage.accounts == old(storage.accounts)[r.value.id := r.value]
    ensures r.Ok? && old(storage.accounts.Keys <= ids.issued) ==>
      && r.value.id !in old(storage.accounts)
      && storage.accounts.Keys <= ids.issued
    ensures old(storage.Valid()) ==> storage.Valid()
  {
    if ownerName == [] {
      return Err(EmptyOwnerName);
    }
    var id := ids.GenerateAccountId();
    var account := new Account(id, ownerName);
    storage.SaveAccount(account);
    return Ok(account);
  }
}
