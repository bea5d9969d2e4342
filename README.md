# go-balance-manager, modelled in Dafny

go-balance-manager is a small ledger service. A client posts "win" or
"lose" transactions for a user. Each carries an amount as decimal text and a
client-chosen transaction ID. The service applies each transaction ID at
most once and never lets a balance go below zero. A second endpoint returns
a user's balance rendered with two decimals.

This project models the sequential decision logic of that service:

- `types.dfy` (module `Types`) holds the records of types.go: `Transaction`,
  `TransactionRequest` and `BalanceResponse`, plus an `Option` type.
- `amount.dfy` (module `Amount`) holds the amount codec of api.go:154-186.
  - `Split` is the character loop of `split`, proved equal to the
    specification function `Pieces`.
  - `ParseAmount` reads an optional sign, digits and an optional `.`
    fraction into an exact `Decimal`.
  - `IsValidAmount` is `isValidAmount`, written the way the source writes it
    (parse, then split at `.`).
  - `FormatAmount` renders integer cents as `D.DD`, the way `%.2f` does.
- `storage.dfy` (module `Storage`) holds the ledger store. Both back ends of
  the `Storage` interface, `PostgresStore` and the test `MockStore`, are one
  class `Store`. Its two maps stand for the two tables: balances in cents by
  user ID, and transaction records by transaction ID.
  - The pure functions `ApplyDelta`, `Insert` and `WithAccounts` state what
    each write does to a table.
  - The class methods perform those writes in place.
- `api.dfy` (module `Api`) holds the two handlers without their HTTP shell.
  - `Process` is the transaction handler as a function from a ledger to an
    outcome and a new ledger.
  - `ApiServer.HandleTransaction` performs the same steps against a `Store`
    and is proved to agree with `Process`. Its store writes (api.go:94-126)
    are the method `ApiServer.Commit`.
  - `ApiServer.HandleGetBalance` is the balance query.
  - The remaining lemmas are about `Process`: its check order, its effect on
    success, idempotent resubmission, accumulation over many requests, and
    the integration scenario.

Money is in integer cents throughout, in place of `float64`. An amount text
reads as an exact `Decimal(units, scale)`, the value units / 10^scale. So
`"10.123"` parses (scale 3) and is then refused for its three fractional
digits, as in the source. `Denotes(c, d)` says that c cents and the decimal
d are the same number.

The source accepts a leading `-` in an amount, and so does the model. A
"win" of `"-5.00"` takes 5.00 off the balance (`Api.NegativeWinDebits`).

## Model

| member | source | states |
|---|---|---|
| Amount.Split | api.go:169-182 | the character loop yields exactly `Pieces(s, sep)`, the pieces between separators read left to right |
| Amount.PiecesCount | api.go:169-182 | there is one more piece than there are separators |
| Amount.PiecesAvoidSep | api.go:169-182 | no piece contains the separator |
| Amount.JoinPieces | api.go:169-182 | joining the pieces with the separator gives back the input |
| Amount.PiecesJoin | api.go:169-182 | splitting a join of separator-free pieces gives back those pieces |
| Amount.PiecesOfPlain | api.go:169-182 | text without the separator is a single piece |
| Amount.PiecesAround | api.go:169-182 | one separator between `a` and `b` splits into the pieces of `a` followed by those of `b` |
| Amount.ParseAmount | api.go:154-156 | a parsed text is non-empty, and a negative value comes only from a leading `-` |
| Amount.UnparsableInvalid | api.go:158-161 | text that does not parse is never a valid amount |
| Amount.TooManyDecimalsInvalid | api.go:162-164 | exactly one `.` followed by more than two characters is invalid |
| Amount.ParsedPieces | api.go:158-167 | for parsable text the `.`-pieces are one piece with scale 0, or two pieces whose second has length equal to the scale |
| Amount.PointedPieces | api.go:162-163 | text whose only `.` is at `i` has the two pieces before and after it |
| Amount.IsValidAmount | api.go:158-167 | written as the source writes it (parse, then split at `.`); what it means is stated by `Amount.ValidAmountIff`, `Amount.UnparsableInvalid` and `Amount.TooManyDecimalsInvalid` |
| Amount.ValidAmountIff | api.go:158-167 | valid exactly when the text parses with at most two fractional digits (both directions) |
| Amount.AmountCentsValue | api.go:72 | a valid amount text parses with at most two fractional digits, and its cents denote the same number as the parsed decimal (c * 10^scale == units * 100) |
| Amount.FormatAmount | api.go:184-186 | the output has exactly two digits after a `.`, no other `.`, and a leading `-` exactly for negative cents |
| Amount.FormatThenParse | api.go:154-186 | parsing a formatted amount gives back the same cents at scale 2 |
| Amount.FormatIsValid | api.go:158-186 | every formatted amount is valid and denotes the cents it was formatted from |
| Amount.CanonicalForm | api.go:154-186 | formatting a valid amount gives a valid text with the same cents, and that text is a fixed point of parse-then-format |
| Amount.FormatExample | api_test.go:246-267 | 2575 cents render as `"25.75"` and 500 cents as `"5.00"` |
| Amount.ThreeDecimalsExample | api_test.go:219-244 | `"10.123"` parses but is not a valid amount |
| Storage.ApplyDelta | storage.go:141-157 | succeeds exactly when the user exists and current + delta >= 0; then only that user's balance changes, to current + delta; otherwise user-not-found or negative-balance |
| Storage.ApplyDeltaKeepsNonNegative | storage.go:147-152 | a successful update keeps every balance non-negative |
| Storage.Insert | storage.go:85-98 | refused as a duplicate exactly when the ID is present; otherwise exactly one entry is added and the others are kept (the UNIQUE rule of storage.go:73) |
| Storage.WithAccounts | storage.go:161-173 | afterwards the listed IDs are present; existing balances are kept and new rows start at 0 |
| Storage.WithAccountsIdempotent | storage.go:161-173 | provisioning twice equals provisioning once |
| Storage.WithAccountsPresent | api_test.go:65-71 | when the IDs are all present, provisioning changes nothing, which is what the mock's no-op does |
| Storage.WithAccountsKeepsNonNegative | storage.go:161-173 | provisioning keeps every balance non-negative |
| Storage.WithAccountsStep | storage.go:162-167 | provisioning one more ID inserts it at 0 unless it is already present |
| Storage.Store.NewMockStore | api_test.go:21-26 | users 1, 2, 3 at 0 and no transactions |
| Storage.Store.NewPostgresStore | storage.go:23-41 | an empty database satisfies the invariant |
| Storage.Store.CreateTransaction | storage.go:85-98 | duplicate error exactly when the ID is present, with nothing changed; otherwise that one record is added and the users are untouched (the MockStore version at api_test.go:28-34) |
| Storage.Store.GetUserBalance | storage.go:100-107 | the stored balance when the user exists; 0 and user-not-found otherwise (the MockStore version at api_test.go:36-42) |
| Storage.Store.GetTransactionByID | storage.go:109-129 | the stored record exactly when the ID is present; not-found otherwise (the MockStore version at api_test.go:44-50) |
| Storage.Store.UpdateUserBalance | storage.go:132-158 | succeeds exactly when the user exists and current + delta >= 0, writing only that row; otherwise the matching error and no change; keeps balances non-negative (the MockStore version at api_test.go:52-63) |
| Storage.Store.EnsurePredefinedUsers | storage.go:161-173 | the loop leaves the users table equal to `WithAccounts(old, {1, 2, 3})` and transactions untouched |
| Storage.Store.Init | storage.go:44-52 | provisions the predefined users and nothing else |
| Api.Process | api.go:43-127 | the decision logic of the transaction handler, from a ledger to an outcome and a new ledger; its meaning is stated by the `Api.Process*`, `Api.ChecksInOrder`, `Api.SuccessEffect` and `Api.ResubmissionChangesNothing` lemmas below |
| Api.ProcessKeepsValid | api.go:43-127 | every request keeps all balances non-negative and every record under its own ID |
| Api.NoInternalError | api.go:83-120 | handled sequentially, the insert after a missed pre-check never meets a duplicate, so in this model the 500 answer does not happen |
| Api.RejectionChangesNothing | api.go:52-106 | every outcome other than success leaves both tables unchanged |
| Api.ProcessKeepsAccounts | api.go:102-120 | no request adds or removes a user |
| Api.ChecksInOrder | api.go:52-92 | header, then state, then format, then decimals, then the idempotency pre-check, each answering before the store changes |
| Api.SuccessEffect | api.go:94-126 | success implies valid input, a new ID and an existing user; it records ID, user, state, source type and unsigned amount, and moves only that balance by the signed delta |
| Api.ProcessAccepted | api.go:94-126 | conversely, a well-formed new request that the balance can carry succeeds with exactly that effect |
| Api.InsufficientFundsRejected | api.go:102-106 | a debit below zero is refused with negative-balance and changes nothing (the check at storage.go:147-150) |
| Api.ResubmissionChangesNothing | api_test.go:147-191 | resending a request changes nothing; after success it is "already processed", after a rejection the same rejection (the duplicate step of integration_test.go:54-70) |
| Api.FiveAmount | integration_test.go:41 | `"5.00"` is valid, denotes 500 cents and is how 500 cents render |
| Api.TenAmount | integration_test.go:35 | `"10.00"` is valid, denotes 1000 cents and is how 1000 cents render |
| Api.MinusFiveAmount | api.go:154-167 | `"-5.00"` is valid and denotes -500 cents |
| Api.ScenarioBalances | integration_test.go:32-70 | 0, 500, 1000 and 1500 cents render as `"0.00"`, `"5.00"`, `"10.00"` and `"15.00"` |
| Api.NegativeWinDebits | api.go:71-106 | a "win" of `"-5.00"` succeeds, takes 500 cents off the balance and records the amount -500 |
| Api.WinStep | api.go:94-100 | a "win" of v cents under a new ID succeeds and adds v to the balance |
| Api.LoseStep | api.go:94-100 | a "lose" of v cents under a new ID succeeds when the balance covers it, and subtracts v from the balance |
| Api.LoseRefused | api.go:102-106 | a "lose" of v cents that the balance does not cover is refused and changes nothing |
| Api.WinRecorded | api.go:83-92 | a request under a recorded ID is "already processed" and changes nothing |
| Api.WinsAccumulate | api.go:43-127 | N wins of v cents under N distinct new IDs raise the balance by exactly N * v |
| Api.IntegrationScenario | integration_test.go:28-71 | win w, lose v, refused lose w, win w, duplicate win: outcomes success, success, negative-balance, success, already processed; balances w, w - v, w - v, 2w - v, 2w - v |
| Api.ApiServer.constructor | api.go:18-22 | the server holds the store it is given |
| Api.ApiServer.HandleTransaction | api.go:43-127 | the step-by-step handler against the store gives the outcome and new tables of `Process`, and keeps the store invariant |
| Api.ApiServer.Commit | api.go:94-126 | after the checks: the signed balance update, then the record; the outcome and new tables are those of `Process` |
| Api.ApiServer.HandleGetBalance | api.go:129-152 | a response exactly when the user exists, carrying its ID and exactly `FormatAmount` of its balance, a valid two-decimal text that parses back to that balance |

## Left out

- The HTTP shell: routing, `Run`, `HandleHealth`, JSON decoding and encoding, response texts and status codes (api.go:24-63). Each branch yields an `Outcome` value instead. The user ID from the path is a `nat`: the `uint64` parse and its bound are not modelled.
- The SQL layer: `sql.Open`, `Ping`, the connection pool, `Close` and the table DDL (storage.go:23-83). Tables are maps. Only the UNIQUE rule on transaction_id is kept.
- The column lengths of the transactions table: `transaction_id` is VARCHAR(255) (storage.go:73) and `source_type` VARCHAR(50) (storage.go:77). In the source a request with a longer transaction ID or Source-Type header passes every check, commits its balance change (storage.go:156), and then fails its INSERT (api.go:117): the answer is 500 and no record is kept, so resending it moves the balance again. The model stores strings of any length, so there `Api.NoInternalError` and `Api.ResubmissionChangesNothing` hold for every request.
- The NUMERIC(12, 2) range limit on balances and amounts, and the foreign key from transactions to users. `Store.CreateTransaction` does not check that the user exists. In `HandleTransaction` that check could never fire, because `UpdateUserBalance` has already refused an unknown user.
- Row locking (`FOR UPDATE`) and the race between the pre-check at api.go:84 and the insert at api.go:117. The model is sequential. The 500 outcome stays in `Process`, and `Api.NoInternalError` shows that in the model, with sequential requests, the insert never fails as a duplicate.
- Infrastructure errors such as a failed `Begin`, `Exec` or `Commit`, or a lookup error other than "no rows". A failing lookup in `HandleTransaction` is modelled only as "not found".
- `float64`: all money is exact integer cents. Rounding of inexact values such as 10.15, and `%.2f` rounding of sub-cent values, are not modelled.
- Amount.ParseAmount: models only the plain decimal part of Go's `strconv.ParseFloat` grammar. Exponents, hexadecimal floats, `inf`, `NaN`, underscores and the float range are left out. In the source such a text passes `isValidAmount` when it has no `.` or at most two characters after its one `.` (for example `"1e3"`, `"Inf"`, `"NaN"`, `"0x1p4"`, `"1.e5"`); here it is refused as an invalid format. Such a text with more than two characters after its `.` (`"1.5e3"`, `"0x1.8p1"`) is refused by the source with "Amount must have up to 2 decimal places" and here with the invalid-format reason.
- The clock `timeNowUTC`: `now` is a parameter, stored as `createdAt`.
- The surrogate key `ID` of a stored transaction, and the `User` record of types.go. Neither takes part in any decision.
- The two back ends behind one class. `Store.EnsurePredefinedUsers` and `Store.Init` do what `PostgresStore` does. The mock's versions are no-ops. The two agree on every state reachable from `NewMockStore`, because users 1, 2 and 3 stay present (`Api.ProcessKeepsAccounts`, `Storage.WithAccountsPresent`).
- `NewPostgresStore` is modelled as a connection to an empty database; connection parameters and failures are left out.
- Error message texts, which differ between the two back ends. They are reduced to the `StoreError` kinds.
- Strings are sequences of characters. Go's rune iteration in `split` and byte length in `isValidAmount` agree on the ASCII texts that parse.
- main.go (flag parsing, startup) is not part of this model.

