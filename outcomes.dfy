/** Results and handler outcomes shared by every task handler. */
module Outcomes {

  datatype Option<+T> = None | Some(value: T)

  /** The operations of the relational store; each one may fail on its own
      (constraint violation, lost connection). */
  datatype StoreOp =
    | InsertBlockOp | GetRawBlockOp | CountDeploysOp | ValidateBlockOp
    | InsertDeployOp | GetDeployOp | UpdateDeployOp | InsertDeployInfoOp
    | InsertTransferOp | InsertAuctionOp | InsertAuctionEraOp

  /** The errors a handler returns to the queue engine. */
  datatype Error =
    | Unmarshal                       // the payload did not decode
    | Fetch                           // the chain endpoint had no result for the key
    | Persist(op: StoreOp)            // a store call failed
    | NoRow                           // a store read found no row for the key
    | BadExecutionResult              // the deploy's result/cost could not be derived
    | BadNumber(text: string)         // an integer field did not parse
    | BadBidStake(validator: string)  // a bid's stake did not parse
    | BadDelegatorStake(delegator: string, delegatee: string)

  datatype Result<+T> = Success(value: T) | Failure(error: Error)

  /** What one handler invocation ends with. `Fatal` is the process exit of
      a failed enqueue; `Panic` is an out-of-range index in the handler. */
  datatype Outcome = Ok | Err(error: Error) | Fatal | Panic
}
