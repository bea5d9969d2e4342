/** Record shapes shared by the handlers and the store (types.go). */
module Types {

  datatype Option<+T> = None | Some(value: T)

  /**
   * One applied transaction, as stored in the transactions table
   * (types.go:22-30). Money is in integer cents; `createdAt` is the
   * time the caller supplies in place of the wall clock. The database
   * surrogate key `ID` is not modelled.
   */
  datatype Transaction = Transaction(
    transactionID: string,
    userID: nat,
    state: string,
    amount: int,
    sourceType: string,
    createdAt: int)

  /** The JSON body of a transaction request (types.go:5-9). */
  datatype TransactionRequest = TransactionRequest(
    state: string,
    amount: string,
    transactionID: string)

  /** The JSON body of a balance reply (types.go:11-14). */
  datatype BalanceResponse = BalanceResponse(userID: nat, balance: string)
}
