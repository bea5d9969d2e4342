/**
 * The two request handlers of api.go without their HTTP shell: the
 * transaction processor (api.go:43-127) and the balance query
 * (api.go:129-152). `Process` is the decision logic as a function of the
 * ledger; `ApiServer.HandleTransaction` performs it step by step against a
 * `Store` and is proved to agree with it.
 */
module Api {
  import opened Types
  import opened Amount
  import opened Storage

  /** Why a request is answered with a client error. */
  datatype Reason =
    | MissingSourceType          // "Missing Source-Type header"
    | InvalidState               // "Invalid state value"
    | InvalidAmountFormat        // "Invalid amount format"
    | TooManyDecimals            // "Amount must have up to 2 decimal places"
    | StoreRefused(error: StoreError)  // the store's own message

  /** What a transaction request ends in; HTTP 200, 200, 400 and 500 respectively. */
  datatype Outcome =
    | Success
    | AlreadyProcessed
    | BadRequest(reason: Reason)
    | InternalError

  /** The signed change a request makes: +amount for a win, -amount otherwise (a lose). */
  function Delta(win: bool, amount: int): int
  {
    if win then amount else -amount
  }

  /**
   * HandleTransaction as a function of the ledger: the outcome and the
   * ledger afterwards. Checks run in the order of api.go:52-92; then the
   * balance is updated (api.go:102-106) and the record inserted
   * (api.go:108-120).
   */
  function Process(l: Ledger, userID: nat, sourceType: string, req: TransactionRequest, now: int): (Outcome, Ledger)
  {
    if sourceType == "" then (BadRequest(MissingSourceType), l)
    else if req.state != "win" && req.state != "lose" then (BadRequest(InvalidState), l)
    else if ParseAmount(req.amount).None? then (BadRequest(InvalidAmountFormat), l)
    else if !IsValidAmount(req.amount) then (BadRequest(TooManyDecimals), l)
    else if req.transactionID in l.txs then (AlreadyProcessed, l)
    else
      var amount := AmountCents(req.amount);
      match ApplyDelta(l.users, userID, Delta(req.state == "win", amount))
      case Err(e) => (BadRequest(StoreRefused(e)), l)
      case Ok(users) =>
        var inserted := Insert(l.txs, Transaction(req.transactionID, userID, req.state, amount, sourceType, now));
        if inserted.Ok? then (Success, Ledger(users, inserted.value))
        else (InternalError, Ledger(users, l.txs))
  }

  /** Every request keeps every balance non-negative and every record under its own ID. */
  lemma ProcessKeepsValid(l: Ledger, userID: nat, sourceType: string, req: TransactionRequest, now: int)
    requires LedgerValid(l)
    ensures LedgerValid(Process(l, userID, sourceType, req, now).1)
  {
    if sourceType != "" && (req.state == "win" || req.state == "lose") && IsValidAmount(req.amount)
      && req.transactionID !in l.txs
    {
      ApplyDeltaKeepsNonNegative(l.users, userID, Delta(req.state == "win", AmountCents(req.amount)));
    }
  }

  /**
   * Run sequentially, the insert after a missed pre-check cannot meet a
   * duplicate, because the balance update does not touch the transactions:
   * the 500 answer of api.go:117-120 never happens.
   */
  lemma NoInternalError(l: Ledger, userID: nat, sourceType: string, req: TransactionRequest, now: int)
    ensures Process(l, userID, sourceType, req, now).0 != InternalError
  {
  }

  /** Every answer but success leaves both tables exactly as they were. */
  lemma RejectionChangesNothing(l: Ledger, userID: nat, sourceType: string, req: TransactionRequest, now: int)
    ensures Process(l, userID, sourceType, req, now).0 != Success ==> Process(l, userID, sourceType, req, now).1 == l
  {
    NoInternalError(l, userID, sourceType, req, now);
  }

  /** The users table keeps its set of accounts: no request creates or deletes a user. */
  lemma ProcessKeepsAccounts(l: Ledger, userID: nat, sourceType: string, req: TransactionRequest, now: int)
    ensures Process(l, userID, sourceType, req, now).1.users.Keys == l.users.Keys
  {
  }

  /**
   * The order of the checks: header, then state, then amount format, then
   * decimals, then the idempotency pre-check; each answers before the store is
   * touched, whatever the later fields hold.
   */
  lemma ChecksInOrder(l: Ledger, userID: nat, sourceType: string, req: TransactionRequest, now: int)
    ensures var (o, l') := Process(l, userID, sourceType, req, now);
      && (sourceType == "" ==> o == BadRequest(MissingSourceType))
      && (sourceType != "" && req.state != "win" && req.state != "lose" ==> o == BadRequest(InvalidState))
      && (sourceType != "" && (req.state == "win" || req.state == "lose") ==>
            (ParseAmount(req.amount).None? ==> o == BadRequest(InvalidAmountFormat)) &&
            (ParseAmount(req.amount).Some? && !IsValidAmount(req.amount) ==> o == BadRequest(TooManyDecimals)) &&
            (IsValidAmount(req.amount) && req.transactionID in l.txs ==> o == AlreadyProcessed))
      && (o.BadRequest? && !o.reason.StoreRefused? ==> l' == l)
  {
  }

  /**
   * A success records the request's ID, the path user, the state, the
   * source type and the unsigned amount, and moves only that user's
   * balance, by +amount for a win and -amount for a loss.
   */
  lemma SuccessEffect(l: Ledger, userID: nat, sourceType: string, req: TransactionRequest, now: int)
    requires Process(l, userID, sourceType, req, now).0 == Success
    ensures sourceType != "" && (req.state == "win" || req.state == "lose")
    ensures IsValidAmount(req.amount) && req.transactionID !in l.txs && userID in l.users
    ensures var amount := AmountCents(req.amount);
      var l' := Process(l, userID, sourceType, req, now).1;
      && l'.txs == l.txs[req.transactionID := Transaction(req.transactionID, userID, req.state, amount, sourceType, now)]
      && l'.users == l.users[userID := l.users[userID] + Delta(req.state == "win", amount)]
      && l'.users[userID] >= 0
  {
  }

  /** Conversely, a well-formed new request that the balance can carry succeeds. */
  lemma ProcessAccepted(l: Ledger, userID: nat, sourceType: string, req: TransactionRequest, now: int)
    requires sourceType != "" && (req.state == "win" || req.state == "lose") && IsValidAmount(req.amount)
    requires req.transactionID !in l.txs && userID in l.users
    requires l.users[userID] + Delta(req.state == "win", AmountCents(req.amount)) >= 0
    ensures var amount := AmountCents(req.amount);
      Process(l, userID, sourceType, req, now) ==
        (Success, Ledger(l.users[userID := l.users[userID] + Delta(req.state == "win", amount)],
                         l.txs[req.transactionID := Transaction(req.transactionID, userID, req.state, amount, sourceType, now)]))
  {
  }

  /**
   * A balance update that would go below zero is refused with the store's
   * error and changes nothing (api.go:102-106).
   */
  lemma InsufficientFundsRejected(l: Ledger, userID: nat, sourceType: string, req: TransactionRequest, now: int)
    requires sourceType != "" && (req.state == "win" || req.state == "lose")
    requires IsValidAmount(req.amount) && req.transactionID !in l.txs && userID in l.users
    requires l.users[userID] + Delta(req.state == "win", AmountCents(req.amount)) < 0
    ensures Process(l, userID, sourceType, req, now) == (BadRequest(StoreRefused(NegativeBalance)), l)
  {
  }

  /**
   * Sending the same request again never changes the ledger: after a
   * success or an "already processed" the answer is "already processed";
   * after a rejection the request is rejected again in the same way.
   */
  lemma ResubmissionChangesNothing(l: Ledger, userID: nat, sourceType: string, req: TransactionRequest, now: int, later: int)
    ensures var (o1, l1) := Process(l, userID, sourceType, req, now);
      var (o2, l2) := Process(l1, userID, sourceType, req, later);
      && l2 == l1
      && (o1 == Success || o1 == AlreadyProcessed ==> o2 == AlreadyProcessed)
      && (o1.BadRequest? ==> o2 == o1)
  {
    var (o1, l1) := Process(l, userID, sourceType, req, now);
    RejectionChangesNothing(l, userID, sourceType, req, now);
    NoInternalError(l, userID, sourceType, req, now);
    if o1 == Success {
      SuccessEffect(l, userID, sourceType, req, now);
    }
  }

  /** "5.00" is 500 cents, and 500 cents read "5.00". */
  lemma FiveAmount()
    ensures FormatAmount(500) == "5.00" && IsValidAmount("5.00") && AmountCents("5.00") == 500
  {
    assert FormatAmount(500) == "5.00" by { assert NatToString(5) == "5"; }
    FormatIsValid(500);
  }

  /** "10.00" is 1000 cents, and 1000 cents read "10.00". */
  lemma TenAmount()
    ensures FormatAmount(1000) == "10.00" && IsValidAmount("10.00") && AmountCents("10.00") == 1000
  {
    assert FormatAmount(1000) == "10.00" by {
      assert NatToString(10) == "10" by { assert NatToString(1) == "1"; }
    }
    FormatIsValid(1000);
  }

  /** "-5.00" is -500 cents. */
  lemma MinusFiveAmount()
    ensures FormatAmount(-500) == "-5.00" && IsValidAmount("-5.00") && AmountCents("-5.00") == -500
  {
    assert FormatAmount(-500) == "-5.00" by { assert NatToString(5) == "5"; }
    FormatIsValid(-500);
  }

  /** The balances the integration scenario reads back. */
  lemma ScenarioBalances()
    ensures FormatAmount(0) == "0.00" && FormatAmount(500) == "5.00"
    ensures FormatAmount(1000) == "10.00" && FormatAmount(1500) == "15.00"
  {
    assert NatToString(0) == "0";
    assert NatToString(5) == "5";
    assert NatToString(10) == "10" by { assert NatToString(1) == "1"; }
    assert NatToString(15) == "15" by { assert NatToString(1) == "1"; }
  }

  /**
   * The source does not refuse a leading '-': a "win" of "-5.00" takes
   * 5.00 off the balance, and the record keeps the amount -500.
   */
  lemma NegativeWinDebits(l: Ledger, userID: nat, id: string, now: int)
    requires userID in l.users && l.users[userID] >= 500 && id !in l.txs
    ensures var (o, l') := Process(l, userID, "game", TransactionRequest("win", "-5.00", id), now);
      o == Success && l'.users[userID] == l.users[userID] - 500 && l'.txs[id].amount == -500
  {
    MinusFiveAmount();
    ProcessAccepted(l, userID, "game", TransactionRequest("win", "-5.00", id), now);
  }

  // ---------------------------------------------------------------------
  // Sequences of requests
  // ---------------------------------------------------------------------

  /** The ledger after handling `reqs` one after another for one user. */
  function RunAll(l: Ledger, userID: nat, sourceType: string, reqs: seq<TransactionRequest>, now: int): Ledger
    decreases |reqs|
  {
    if reqs == [] then l
    else RunAll(Process(l, userID, sourceType, reqs[0], now).1, userID, sourceType, reqs[1..], now)
  }

  /** One "win" request per ID, all for the same amount text. */
  function Wins(ids: seq<string>, amount: string): (r: seq<TransactionRequest>)
    ensures |r| == |ids|
    ensures forall i :: 0 <= i < |ids| ==> r[i] == TransactionRequest("win", amount, ids[i])
  {
    if ids == [] then [] else [TransactionRequest("win", amount, ids[0])] + Wins(ids[1..], amount)
  }

  /** Handling a non-empty sequence is handling its first request, then the rest. */
  lemma RunAllCons(l: Ledger, userID: nat, sourceType: string, reqs: seq<TransactionRequest>, now: int)
    requires reqs != []
    ensures RunAll(l, userID, sourceType, reqs, now) ==
      RunAll(Process(l, userID, sourceType, reqs[0], now).1, userID, sourceType, reqs[1..], now)
  {
  }

  /** A "win" of v cents, written as FormatAmount renders it, under a new ID. */
  lemma WinStep(l: Ledger, userID: nat, sourceType: string, id: string, v: nat, now: int)
    requires sourceType != "" && userID in l.users && l.users[userID] >= 0 && id !in l.txs
    ensures Process(l, userID, sourceType, TransactionRequest("win", FormatAmount(v), id), now) ==
      (Success, Ledger(l.users[userID := l.users[userID] + v], l.txs[id := Transaction(id, userID, "win", v, sourceType, now)]))
  {
    FormatIsValid(v);
    ProcessAccepted(l, userID, sourceType, TransactionRequest("win", FormatAmount(v), id), now);
  }

  lemma MulSucc(n: nat, m: nat, v: nat)
    requires m == n + 1
    ensures m * v == n * v + v
  {
  }

  /**
   * N wins of v cents under N distinct, new transaction IDs raise the
   * balance by exactly N * v: no update is lost or applied twice.
   */
  lemma {:induction false} WinsAccumulate(l: Ledger, userID: nat, sourceType: string, ids: seq<string>, v: nat, now: int)
    requires sourceType != "" && userID in l.users && l.users[userID] >= 0
    requires forall i, j :: 0 <= i < j < |ids| ==> ids[i] != ids[j]
    requires forall i :: 0 <= i < |ids| ==> ids[i] !in l.txs
    ensures var l' := RunAll(l, userID, sourceType, Wins(ids, FormatAmount(v)), now);
      userID in l'.users && l'.users[userID] == l.users[userID] + |ids| * v
    decreases |ids|
  {
    if ids != [] {
      var text := FormatAmount(v);
      var reqs := Wins(ids, text);
      var rest := ids[1..];
      WinStep(l, userID, sourceType, ids[0], v, now);
      var l1 := Ledger(l.users[userID := l.users[userID] + v],
                       l.txs[ids[0] := Transaction(ids[0], userID, "win", v, sourceType, now)]);
      RunAllCons(l, userID, sourceType, reqs, now);
      assert reqs[0] == TransactionRequest("win", text, ids[0]);
      assert reqs[1..] == Wins(rest, text);
      assert forall i :: 0 <= i < |rest| ==> rest[i] == ids[i + 1];
      WinsAccumulate(l1, userID, sourceType, rest, v, now);
      MulSucc(|rest|, |ids|, v);
    }
  }

  /** A "lose" of v cents under a new ID, when the balance covers it. */
  lemma LoseStep(l: Ledger, userID: nat, sourceType: string, id: string, v: nat, now: int)
    requires sourceType != "" && userID in l.users && l.users[userID] >= v && id !in l.txs
    ensures Process(l, userID, sourceType, TransactionRequest("lose", FormatAmount(v), id), now) ==
      (Success, Ledger(l.users[userID := l.users[userID] - v], l.txs[id := Transaction(id, userID, "lose", v, sourceType, now)]))
  {
    FormatIsValid(v);
    ProcessAccepted(l, userID, sourceType, TransactionRequest("lose", FormatAmount(v), id), now);
  }

  /** A "lose" of v cents under a new ID, when the balance does not cover it. */
  lemma LoseRefused(l: Ledger, userID: nat, sourceType: string, id: string, v: nat, now: int)
    requires sourceType != "" && userID in l.users && l.users[userID] < v && id !in l.txs
    ensures Process(l, userID, sourceType, TransactionRequest("lose", FormatAmount(v), id), now) ==
      (BadRequest(StoreRefused(NegativeBalance)), l)
  {
    FormatIsValid(v);
    InsufficientFundsRejected(l, userID, sourceType, TransactionRequest("lose", FormatAmount(v), id), now);
  }

  /** A "win" of v cents under an ID already recorded. */
  lemma WinRecorded(l: Ledger, userID: nat, sourceType: string, id: string, v: nat, now: int)
    requires sourceType != "" && id in l.txs
    ensures Process(l, userID, sourceType, TransactionRequest("win", FormatAmount(v), id), now) == (AlreadyProcessed, l)
  {
    FormatIsValid(v);
  }

  /**
   * The integration scenario (integration_test.go:28-71), for any user
   * holding 0 and four distinct new IDs (the test makes them unique with a
   * timestamp): win w, lose v, a refused lose w, win w, and the same win
   * again. The balance reads w, w - v, w - v, 2w - v, 2w - v. The test uses
   * w = 10.00 and v = 5.00; `ScenarioBalances` renders those balances.
   */
  lemma IntegrationScenario(l0: Ledger, userID: nat, sourceType: string, w: nat, v: nat,
                            win: string, lose: string, negative: string, duplicate: string, now: int)
    requires sourceType != "" && 0 < v <= w
    requires userID in l0.users && l0.users[userID] == 0
    requires win !in l0.txs && lose !in l0.txs && negative !in l0.txs && duplicate !in l0.txs
    requires win != lose && win != negative && win != duplicate
    requires lose != negative && lose != duplicate && negative != duplicate
    ensures var (o1, l1) := Process(l0, userID, sourceType, TransactionRequest("win", FormatAmount(w), win), now);
      var (o2, l2) := Process(l1, userID, sourceType, TransactionRequest("lose", FormatAmount(v), lose), now);
      var (o3, l3) := Process(l2, userID, sourceType, TransactionRequest("lose", FormatAmount(w), negative), now);
      var (o4, l4) := Process(l3, userID, sourceType, TransactionRequest("win", FormatAmount(w), duplicate), now);
      var (o5, l5) := Process(l4, userID, sourceType, TransactionRequest("win", FormatAmount(w), duplicate), now);
      && o1 == Success && userID in l1.users && l1.users[userID] == w
      && o2 == Success && userID in l2.users && l2.users[userID] == w - v
      && o3 == BadRequest(StoreRefused(NegativeBalance)) && l3 == l2
      && o4 == Success && userID in l4.users && l4.users[userID] == 2 * w - v
      && o5 == AlreadyProcessed && l5 == l4
  {
    WinStep(l0, userID, sourceType, win, w, now);
    var l1 := Process(l0, userID, sourceType, TransactionRequest("win", FormatAmount(w), win), now).1;
    LoseStep(l1, userID, sourceType, lose, v, now);
    var l2 := Process(l1, userID, sourceType, TransactionRequest("lose", FormatAmount(v), lose), now).1;
    LoseRefused(l2, userID, sourceType, negative, w, now);
    WinStep(l2, userID, sourceType, duplicate, w, now);
    var l4 := Process(l2, userID, sourceType, TransactionRequest("win", FormatAmount(w), duplicate), now).1;
    WinRecorded(l4, userID, sourceType, duplicate, w, now);
  }

  /** The HTTP handlers, over one store (api.go:14-22). */
  class ApiServer {
    const store: Store

    constructor (store: Store)
      ensures this.store == store
    {
      this.store := store;
    }

    /**
     * HandleTransaction (api.go:43-127) for the path user `userID`, the
     * Source-Type header `sourceType` ("" when absent), the decoded body
     * `req`, and `now` in place of the clock.
     */
    method HandleTransaction(userID: nat, sourceType: string, req: TransactionRequest, now: int)
      returns (outcome: Outcome)
      requires store.Valid()
      modifies store
      ensures store.Valid()
      ensures (outcome, store.State()) == Process(old(store.State()), userID, sourceType, req, now)
    {
      ghost var l := store.State();
      if sourceType == "" {
        return BadRequest(MissingSourceType);
      }
      if req.state != "win" && req.state != "lose" {
        return BadRequest(InvalidState);
      }
      var parsed := ParseAmount(req.amount);
      if parsed.None? {
        return BadRequest(InvalidAmountFormat);
      }
      if !IsValidAmount(req.amount) {
        return BadRequest(TooManyDecimals);
      }
      var existing, lookupErr := store.GetTransactionByID(req.transactionID);
      if lookupErr.None? && existing.Some? {
        return AlreadyProcessed;
      }
      outcome := Commit(userID, sourceType, req, now);
    }

    /**
     * The writes of HandleTransaction once the request has passed its
     * checks (api.go:94-126): the balance moves by the signed amount, then
     * the record is inserted.
     */
    method Commit(userID: nat, sourceType: string, req: TransactionRequest, now: int)
      returns (outcome: Outcome)
      requires store.Valid()
      requires sourceType != "" && (req.state == "win" || req.state == "lose")
      requires IsValidAmount(req.amount) && req.transactionID !in store.txs
      modifies store
      ensures store.Valid()
      ensures (outcome, store.State()) == Process(old(store.State()), userID, sourceType, req, now)
    {
      ghost var l := store.State();
      var amount := AmountCents(req.amount);
      var delta: int;
      if req.state == "win" {
        delta := amount;
      } else {
        delta := -amount;
      }
      var updateErr := store.UpdateUserBalance(userID, delta);
      if updateErr.Some? {
        return BadRequest(StoreRefused(updateErr.value));
      }
      ProcessAccepted(l, userID, sourceType, req, now);
      var tx := Transaction(req.transactionID, userID, req.state, amount, sourceType, now);
      var createErr := store.CreateTransaction(tx);
      outcome := if createErr.None? then Success else InternalError;
    }

    /**
     * HandleGetBalance (api.go:129-152): the balance rendered with two
     * decimals, or None (404 "User not found") for an unknown user.
     */
    method HandleGetBalance(userID: nat) returns (resp: Option<BalanceResponse>)
      ensures resp.Some? <==> userID in store.users
      ensures resp.Some? ==> resp.value.userID == userID
      ensures resp.Some? ==> resp.value.balance == FormatAmount(store.users[userID])
      ensures resp.Some? ==> IsValidAmount(resp.value.balance)
      ensures resp.Some? ==> ParseAmount(resp.value.balance) == Some(Decimal(store.users[userID], 2))
    {
      var balance, err := store.GetUserBalance(userID);
      if err.Some? {
        return None;
      }
      FormatIsValid(balance);
      FormatThenParse(balance);
      resp := Some(BalanceResponse(userID, FormatAmount(balance)));
    }
  }
}
