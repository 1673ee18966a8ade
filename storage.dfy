/** The reference account store: a map from account ID to account, kept in
    memory, with no eviction. */
module Storage {
  import opened Ledger

  class InMemoryStorage {
    var accounts: map<string, Account>

    /** Every account is stored under its own ID. */
    ghost predicate Valid()
      reads this
    {
      forall id :: id in accounts ==> accounts[id].id == id
    }

    constructor ()
      ensures accounts == map[]
      ensures Valid()
    {
      accounts := map[];
    }

    /** Upserts the account under its ID. The in-memory store never fails. */
    method SaveAccount(account: Account)
      modifies this
      ensures accounts == old(accounts)[account.id := account]
      ensures old(Valid()) ==> Valid()
    {
      accounts := accounts[account.id := account];
    }

    /** The account stored under id, or AccountNotFound. */
    method LoadAccount(id: string) returns (r: Result<Account>)
      ensures id in accounts ==> r == Ok(accounts[id])
      ensures id !in accounts ==> r == Err(AccountNotFound)
    {
      if id !in accounts {
        return Err(AccountNotFound);
      }
      return Ok(accounts[id]);
    }

    /** Every stored account exactly once, in an order the store does not fix. */
    method GetAllAccounts() returns (all: seq<Account>)
      requires Valid()
      ensures |all| == |accounts|
      ensures forall a :: a in all <==> a in accounts.Values
      ensures forall i, j :: 0 <= i < j < |all| ==> all[i] != all[j]
    {
      all := [];
      var rest := accounts.Keys;
      while rest != {}
        invariant rest <= accounts.Keys
        invariant |all| + |rest| == |accounts.Keys|
        invariant forall a :: a in all <==> a in accounts.Values && a.id !in rest
        invariant forall i, j :: 0 <= i < j < |all| ==> all[i] != all[j]
        decreases rest
      {
        var id :| id in rest;
        var next := accounts[id];
        assert next !in all;
        all := all + [next];
        rest := rest - {id};
      }
    }
  }

  /** Loading an ID right after saving an account under it gives that account back. */
  method SaveThenLoad(store: InMemoryStorage, account: Account) returns (r: Result<Account>)
    modifies store
    ensures r == Ok(account)
  {
    store.SaveAccount(account);
    r := store.LoadAccount(account.id);
  }

  /** Saving the same account twice leaves the store as saving it once does. */
  method SaveTwice(store: InMemoryStorage, account: Account)
    modifies store
    ensures store.accounts == old(store.accounts)[account.id := account]
  {
    store.SaveAccount(account);
    store.SaveAccount(account);
  }
}
