/** A caller's view: what the contracts alone let a client conclude about a
    short session of creating, depositing, withdrawing and transferring. */
module Session {
  import opened Ledger
  import opened Storage
  import opened Accounts
  import opened Service

  /** An empty owner name is refused without using up an ID. */
  method ExampleRefusedName()
  {
    var storage := new InMemoryStorage();
    var ids := new AccountIdGenerator();
    var empty := CreateAccount(storage, ids, "");
    assert empty == Err(EmptyOwnerName) && ids.counter == 1 && storage.accounts == map[];
  }

  /** Two accounts created in a row get the first two IDs, which differ,
      and both are stored. */
  method ExampleCreation()
  {
    var storage := new InMemoryStorage();
    var ids := new AccountIdGenerator();
    var created := CreateAccount(storage, ids, "Anna");
    var a := created.value;
    assert a.id == AccountId(1) && a.balance == 0;
    created := CreateAccount(storage, ids, "Boris");
    var b := created.value;
    assert b.id == AccountId(2);
    AccountIdInjective(1, 2);
    var loaded := storage.LoadAccount(a.id);
    assert loaded == Ok(a);
  }

  /** A deposit of 100.00, a refused withdrawal of 150.00, then a transfer
      of 40.00 to a second account. */
  method ExampleTransfers(storage: InMemoryStorage, a: Account, b: Account, now: Timestamp)
    requires a.id != b.id && a.balance == 0 && b.balance == 0 && a.transactions == [] && b.transactions == []
    modifies storage, a, b
  {
    var service := new BankAccountService(a, storage);
    var r := service.Deposit(10000, now);
    assert r == Success && a.balance == 10000 && |a.transactions| == 1;

    r := service.Withdraw(15000, now);
    assert r == Failure(InsufficientFunds) && a.balance == 10000;

    r := service.Deposit(0, now);
    assert r == Failure(InvalidAmount) && |a.transactions| == 1;

    r := service.Transfer(a, 20000, now);
    assert r == Failure(InsufficientFunds);
    r := service.Transfer(a, 4000, now);
    assert r == Failure(SameAccountTransfer) && a.balance == 10000;

    r := service.Transfer(b, 4000, now);
    assert r == Success && a.balance == 6000 && b.balance == 4000;
    assert |a.transactions| == 2 && |b.transactions| == 1;
    assert b.transactions[0].memo == ReceivedFrom(a.id);
    assert storage.accounts[b.id] == b;
  }
}
