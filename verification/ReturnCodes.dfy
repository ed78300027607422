/** Answers of a node to a sent transaction (multinode/models.go). */
module ReturnCodes {
  datatype SendTxReturnCode =
    | Unassigned                // the zero value: no node ever answers it
    | Successful | Fatal | Retryable | Underpriced | Unknown | Unsupported | TransactionAlreadyKnown
    | InsufficientFunds | ExceedsMaxFee | FeeOutOfValidRange | TerminallyStuck

  const SEVERE_CODES: seq<SendTxReturnCode> :=
    [Fatal, Underpriced, Unsupported, ExceedsMaxFee, FeeOutOfValidRange, Unknown]

  const SUCCESSFUL_CODES: seq<SendTxReturnCode> := [Successful, TransactionAlreadyKnown]
}
