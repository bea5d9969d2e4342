/**
 * The ledger store: the users and transactions tables behind the `Storage`
 * interface (storage.go:9-17), with the decision logic shared by
 * `PostgresStore` (storage.go:85-173) and the in-memory `MockStore`
 * (api_test.go:16-75). Tables are maps; balances are integer cents.
 */
module Storage {
  import opened Types

  /** Why a store operation refuses. */
  datatype StoreError =
    | UserNotFound          // no row for the user
    | NegativeBalance       // "balance cannot be negative"
    | DuplicateTransaction  // UNIQUE on transaction_id (storage.go:73)
    | TransactionNotFound   // no row for the transaction id

  datatype Result<T> = Ok(value: T) | Err(error: StoreError)

  /** Both tables as one value. */
  datatype Ledger = Ledger(users: map<nat, int>, txs: map<string, Transaction>)

  /** The IDs that are provisioned at start-up (storage.go:160-162, api_test.go:24). */
  const PredefinedIDs: seq<nat> := [1, 2, 3]

  predicate NonNegative(users: map<nat, int>)
  {
    forall u :: u in users ==> users[u] >= 0
  }

  /** Each record is stored under its own transaction ID. */
  predicate KeyedByID(txs: map<string, Transaction>)
  {
    forall id :: id in txs ==> txs[id].transactionID == id
  }

  predicate LedgerValid(l: Ledger)
  {
    NonNegative(l.users) && KeyedByID(l.txs)
  }

  /**
   * The read-check-write of UpdateUserBalance (storage.go:141-157,
   * api_test.go:52-63): the new users table, or why nothing is written.
   */
  function ApplyDelta(users: map<nat, int>, userID: nat, delta: int): (r: Result<map<nat, int>>)
    ensures r.Ok? <==> userID in users && users[userID] + delta >= 0
    ensures r.Err? ==> (r.error == UserNotFound <==> userID !in users)
    ensures r.Err? ==> r.error == UserNotFound || r.error == NegativeBalance
    ensures r.Ok? ==> r.value.Keys == users.Keys && r.value[userID] == users[userID] + delta
    ensures r.Ok? ==> forall u :: u in users && u != userID ==> r.value[u] == users[u]
  {
    if userID !in users then Err(UserNotFound)
    else
      var newBalance := users[userID] + delta;
      if newBalance < 0 then Err(NegativeBalance)
      else Ok(users[userID := newBalance])
  }

  /** A successful balance update keeps every balance non-negative. */
  lemma ApplyDeltaKeepsNonNegative(users: map<nat, int>, userID: nat, delta: int)
    requires NonNegative(users)
    ensures ApplyDelta(users, userID, delta).Ok? ==> NonNegative(ApplyDelta(users, userID, delta).value)
  {
  }

  /**
   * Inserting a transaction row (storage.go:85-98, api_test.go:28-34):
   * refused when the ID is already present, otherwise exactly one new entry.
   */
  function Insert(txs: map<string, Transaction>, tx: Transaction): (r: Result<map<string, Transaction>>)
    ensures r.Ok? <==> tx.transactionID !in txs
    ensures r.Err? ==> r.error == DuplicateTransaction
    ensures r.Ok? ==> r.value.Keys == txs.Keys + {tx.transactionID} && r.value[tx.transactionID] == tx
    ensures r.Ok? ==> forall id :: id in txs ==> r.value[id] == txs[id]
  {
    if tx.transactionID in txs then Err(DuplicateTransaction)
    else Ok(txs[tx.transactionID := tx])
  }

  /**
   * The users table after inserting a zero-balance row for each of `ids`
   * that is missing ("ON CONFLICT DO NOTHING", storage.go:163-167).
   */
  function WithAccounts(users: map<nat, int>, ids: set<nat>): (r: map<nat, int>)
    ensures r.Keys == users.Keys + ids
    ensures forall u :: u in users ==> r[u] == users[u]
    ensures forall u :: u in ids && u !in users ==> r[u] == 0
  {
    map u | u in users.Keys + ids :: if u in users then users[u] else 0
  }

  /** Provisioning twice is the same as provisioning once. */
  lemma WithAccountsIdempotent(users: map<nat, int>, ids: set<nat>)
    ensures WithAccounts(WithAccounts(users, ids), ids) == WithAccounts(users, ids)
  {
  }

  /** Provisioning accounts that all exist changes nothing. */
  lemma WithAccountsPresent(users: map<nat, int>, ids: set<nat>)
    requires ids <= users.Keys
    ensures WithAccounts(users, ids) == users
  {
  }

  /** New rows start at zero, so provisioning keeps balances non-negative. */
  lemma WithAccountsKeepsNonNegative(users: map<nat, int>, ids: set<nat>)
    requires NonNegative(users)
    ensures NonNegative(WithAccounts(users, ids))
  {
  }

  /** One more ID provisioned: the step of the loop in EnsurePredefinedUsers. */
  lemma {:induction false} WithAccountsStep(users: map<nat, int>, ids: set<nat>, id: nat)
    ensures WithAccounts(users, ids + {id}) ==
      (var m := WithAccounts(users, ids); if id in m then m else m[id := 0])
  {
    var m := WithAccounts(users, ids);
    var n := if id in m then m else m[id := 0];
    var r := WithAccounts(users, ids + {id});
    assert r.Keys == n.Keys;
    forall u | u in r.Keys ensures r[u] == n[u] {
      if u in users {
      } else if u != id {
        assert u in ids;
      }
    }
  }

  /**
   * The store. One class stands for both implementations: the maps are the
   * rows of the two tables, or the two maps of MockStore.
   */
  class Store {
    var users: map<nat, int>
    var txs: map<string, Transaction>

    function State(): Ledger
      reads this
    {
      Ledger(users, txs)
    }

    /** Every balance is non-negative, and every record sits under its own ID. */
    ghost predicate Valid()
      reads this
    {
      LedgerValid(State())
    }

    /** NewMockStore (api_test.go:21-26): users 1, 2, 3 at zero, no transactions. */
    constructor NewMockStore()
      ensures Valid()
      ensures users == map[1 := 0, 2 := 0, 3 := 0] && txs == map[]
    {
      users := map[1 := 0, 2 := 0, 3 := 0];
      txs := map[];
    }

    /** A PostgresStore connected to a freshly created, empty database (storage.go:23-41). */
    constructor NewPostgresStore()
      ensures Valid()
      ensures users == map[] && txs == map[]
    {
      users := map[];
      txs := map[];
    }

    /** CreateTransaction (storage.go:85-98, api_test.go:28-34). */
    method CreateTransaction(tx: Transaction) returns (err: Option<StoreError>)
      requires Valid()
      modifies this
      ensures Valid()
      ensures users == old(users)
      ensures err.Some? <==> tx.transactionID in old(txs)
      ensures err.Some? ==> err.value == DuplicateTransaction && txs == old(txs)
      ensures err.None? ==> txs == old(txs)[tx.transactionID := tx]
    {
      if tx.transactionID in txs {
        return Some(DuplicateTransaction);
      }
      txs := txs[tx.transactionID := tx];
      err := None;
    }

    /** GetUserBalance (storage.go:100-107, api_test.go:36-42): 0 and an error for an unknown user. */
    method GetUserBalance(userID: nat) returns (balance: int, err: Option<StoreError>)
      ensures err.None? <==> userID in users
      ensures err.None? ==> balance == users[userID]
      ensures err.Some? ==> balance == 0 && err.value == UserNotFound
    {
      if userID !in users {
        return 0, Some(UserNotFound);
      }
      balance, err := users[userID], None;
    }

    /** GetTransactionByID (storage.go:109-129, api_test.go:44-50): the stored record, or an error. */
    method GetTransactionByID(transactionID: string) returns (tx: Option<Transaction>, err: Option<StoreError>)
      requires Valid()
      ensures tx.Some? <==> transactionID in txs
      ensures tx.Some? ==> tx.value == txs[transactionID] && tx.value.transactionID == transactionID
      ensures err.None? <==> tx.Some?
      ensures err.Some? ==> err.value == TransactionNotFound
    {
      if transactionID !in txs {
        return None, Some(TransactionNotFound);
      }
      tx, err := Some(txs[transactionID]), None;
    }

    /**
     * UpdateUserBalance (storage.go:132-158, api_test.go:52-63): reads the
     * current balance, refuses a result below zero, and otherwise writes the
     * user's row only. A refusal writes nothing (the deferred rollback).
     */
    method UpdateUserBalance(userID: nat, delta: int) returns (err: Option<StoreError>)
      requires Valid()
      modifies this
      ensures Valid()
      ensures txs == old(txs)
      ensures err.None? <==> userID in old(users) && old(users)[userID] + delta >= 0
      ensures err.Some? ==> (err.value == UserNotFound <==> userID !in old(users))
      ensures err.Some? ==> (err.value == UserNotFound || err.value == NegativeBalance) && users == old(users)
      ensures err.None? ==> users == old(users)[userID := old(users)[userID] + delta]
    {
      if userID !in users {
        return Some(UserNotFound);
      }
      var currentBalance := users[userID];
      var newBalance := currentBalance + delta;
      if newBalance < 0 {
        return Some(NegativeBalance);
      }
      users := users[userID := newBalance];
      err := None;
    }

    /**
     * EnsurePredefinedUsers (storage.go:160-173): for each predefined ID,
     * insert a zero-balance row unless one exists.
     */
    method EnsurePredefinedUsers()
      requires Valid()
      modifies this
      ensures Valid()
      ensures txs == old(txs)
      ensures users == WithAccounts(old(users), {1, 2, 3})
    {
      WithAccountsKeepsNonNegative(users, {1, 2, 3});
      for i := 0 to |PredefinedIDs|
        invariant txs == old(txs)
        invariant users == WithAccounts(old(users), set j | 0 <= j < i :: PredefinedIDs[j])
      {
        var id := PredefinedIDs[i];
        WithAccountsStep(old(users), set j | 0 <= j < i :: PredefinedIDs[j], id);
        assert (set j | 0 <= j < i + 1 :: PredefinedIDs[j]) == (set j | 0 <= j < i :: PredefinedIDs[j]) + {id};
        if id !in users {
          users := users[id := 0];
        }
      }
      assert (set j | 0 <= j < 3 :: PredefinedIDs[j]) == {1, 2, 3} by {
        assert PredefinedIDs[0] == 1 && PredefinedIDs[1] == 2 && PredefinedIDs[2] == 3;
      }
    }

    /** Init (storage.go:44-52): the tables exist already as maps; provision the predefined users. */
    method Init()
      requires Valid()
      modifies this
      ensures Valid()
      ensures txs == old(txs)
      ensures users == WithAccounts(old(users), {1, 2, 3})
    {
      EnsurePredefinedUsers();
    }
  }
}
