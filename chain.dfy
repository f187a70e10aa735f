/** What the chain RPC endpoint answers, as the handlers see it once the
    response is decoded. The endpoint is a set of lookups: a key that is
    missing means the fetch failed (unreachable endpoint, or nothing there
    yet). Every answer carries the response text it was decoded from. */
module Chain {
  import opened Outcomes

  datatype Fetched<+T> = Fetched(value: T, raw: string)

  /** A block: its hash and header fields, whether the header has an era
      end, and the hashes its body lists. */
  datatype RpcBlock = RpcBlock(
    hash: string, eraId: int, timestamp: string, height: int,
    stateRootHash: string, eraEnd: bool,
    deployHashes: seq<string>, transferHashes: seq<string>)

  /** The execution result, cost and error message derived from a deploy. */
  datatype ExecSummary = ExecSummary(result: string, cost: string, errorMessage: string)

  /** A deploy, with everything the deploy helper methods derive from it.
      Those helpers are not part of this model, so their answers are fields:
      `summary` is None when the result and cost could not be derived,
      `executionBlocks` holds the block hash of each execution result. */
  datatype RpcDeploy = RpcDeploy(
    hash: string, account: string, timestamp: string,
    executionBlocks: seq<string>,
    summary: Option<ExecSummary>,
    metadataType: string, metadata: string, events: string,
    storedContractHash: string, name: string, entrypoint: string, kind: string,
    writeContracts: seq<string>, writeContractPackages: seq<string>)

  datatype RpcDeployInfo = RpcDeployInfo(from: string, source: string, gas: string, transfers: seq<string>)

  datatype RpcTransfer = RpcTransfer(
    from: string, to: string, source: string, target: string,
    amount: string, gas: string, id: int)

  datatype Delegator = Delegator(publicKey: string, delegatee: string, stakedAmount: string, bondingPurse: string)

  datatype Bid = Bid(
    publicKey: string, bondingPurse: string, stakedAmount: string,
    delegationRate: int, inactive: bool, delegators: seq<Delegator>)

  datatype AuctionState = AuctionState(bids: seq<Bid>)

  /** The endpoint: blocks by height, deploys by hash, deploy infos and
      transfers by (state-root hash, hash), the current auction state and
      the auction state at a block height. */
  datatype Endpoint = Endpoint(
    blocks: map<int, Fetched<RpcBlock>>,
    deploys: map<string, Fetched<RpcDeploy>>,
    deployInfos: map<(string, string), Fetched<RpcDeployInfo>>,
    transfers: map<(string, string), Fetched<RpcTransfer>>,
    auction: Option<AuctionState>,
    auctionEras: map<int, AuctionState>)
}
