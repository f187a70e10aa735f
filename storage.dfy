/** The relational store reduced to its tables. Inserts are upserts on the
    primary key (a map update); the auction batches are kept as the list of
    batches written, one entry per insert call. Each store operation may
    fail on its own, and a failed call changes nothing. */
module Storage {
  import opened Outcomes
  import opened Chain

  /** A block row. The raw payload is kept together with the deploy and
      transfer hash lists that reading it back yields. */
  datatype BlockRow = BlockRow(
    eraId: int, timestamp: string, height: int, eraEnd: bool, raw: string,
    deployHashes: seq<string>, transferHashes: seq<string>)

  datatype DeployRow = DeployRow(
    account: string, summary: ExecSummary, timestamp: string, blockHash: string,
    kind: string, raw: string, metadataType: string,
    contractHash: string, contractName: string, entrypoint: string,
    metadata: string, events: string)

  datatype DeployInfoRow = DeployInfoRow(
    block: string, from: string, source: string, gas: int, raw: string, transfers: string)

  datatype TransferRow = TransferRow(
    block: string, deploy: string, from: string, to: string, source: string, target: string,
    amount: int, gas: int, raw: string, id: string)

  /** Bid and delegator rows; `block` is the block identifier that the
      era-scoped snapshot puts first in each row, None in the current one. */
  datatype BidRow = BidRow(
    block: Option<int>, publicKey: string, bondingPurse: string, staked: int,
    delegationRate: int, inactive: bool)

  datatype DelegatorRow = DelegatorRow(
    block: Option<int>, publicKey: string, delegatee: string, staked: int, bondingPurse: string)

  datatype AuctionBatch = AuctionBatch(bids: seq<BidRow>, delegators: seq<DelegatorRow>)

  datatype Tables = Tables(
    blocks: map<string, BlockRow>,
    validated: set<string>,
    deploys: map<string, DeployRow>,
    deployInfos: map<string, DeployInfoRow>,
    transfers: map<string, TransferRow>,
    auctions: seq<AuctionBatch>,
    auctionEras: seq<AuctionBatch>)

  /** How many of `hashes` have a deploy row (each distinct hash once). */
  function CountStored(hashes: seq<string>, deploys: map<string, DeployRow>): nat
  {
    |set h | h in hashes && h in deploys|
  }

  class Store {
    var tables: Tables
    const failing: set<StoreOp>

    constructor (tables: Tables, failing: set<StoreOp>)
      ensures this.tables == tables && this.failing == failing
    {
      this.tables := tables;
      this.failing := failing;
    }

    method InsertBlock(hash: string, row: BlockRow) returns (ok: bool)
      modifies this
      ensures ok == (InsertBlockOp !in failing)
      ensures !ok ==> unchanged(this)
      ensures tables == if ok then old(tables).(blocks := old(tables).blocks[hash := row]) else old(tables)
    {
      ok := InsertBlockOp !in failing;
      if ok {
        tables := tables.(blocks := tables.blocks[hash := row]);
      }
    }

    function GetRawBlock(hash: string): (r: Result<BlockRow>)
      reads this
      ensures r.Success? <==> GetRawBlockOp !in failing && hash in tables.blocks
      ensures r.Success? ==> r.value == tables.blocks[hash]
      ensures r.Failure? ==> r.error == if GetRawBlockOp in failing then Persist(GetRawBlockOp) else NoRow
    {
      if GetRawBlockOp in failing then Failure(Persist(GetRawBlockOp))
      else if hash !in tables.blocks then Failure(NoRow)
      else Success(tables.blocks[hash])
    }

    function CountDeploys(hashes: seq<string>): (r: Result<nat>)
      reads this
      ensures r.Success? <==> CountDeploysOp !in failing
      ensures r.Success? ==> r.value == CountStored(hashes, tables.deploys)
      ensures r.Failure? ==> r.error == Persist(CountDeploysOp)
    {
      if CountDeploysOp in failing then Failure(Persist(CountDeploysOp))
      else Success(CountStored(hashes, tables.deploys))
    }

    method ValidateBlock(hash: string) returns (ok: bool)
      modifies this
      ensures ok == (ValidateBlockOp !in failing)
      ensures !ok ==> unchanged(this)
      ensures tables == if ok then old(tables).(validated := old(tables).validated + {hash}) else old(tables)
    {
      ok := ValidateBlockOp !in failing;
      if ok {
        tables := tables.(validated := tables.validated + {hash});
      }
    }

    method InsertDeploy(hash: string, row: DeployRow) returns (ok: bool)
      modifies this
      ensures ok == (InsertDeployOp !in failing)
      ensures !ok ==> unchanged(this)
      ensures tables == if ok then old(tables).(deploys := old(tables).deploys[hash := row]) else old(tables)
    {
      ok := InsertDeployOp !in failing;
      if ok {
        tables := tables.(deploys := tables.deploys[hash := row]);
      }
    }

    /** Read a deploy back and decode its stored raw payload with the
        current decoding rules `decode`. */
    function GetDeploy(hash: string, decode: string -> Option<RpcDeploy>): (r: Result<RpcDeploy>)
      reads this
      ensures r.Success? <==>
        GetDeployOp !in failing && hash in tables.deploys && decode(tables.deploys[hash].raw).Some?
      ensures r.Success? ==> r.value == decode(tables.deploys[hash].raw).value
    {
      if GetDeployOp in failing then Failure(Persist(GetDeployOp))
      else if hash !in tables.deploys then Failure(NoRow)
      else match decode(tables.deploys[hash].raw)
        case None => Failure(Unmarshal)
        case Some(d) => Success(d)
    }

    /** Rewrite every column of an existing deploy row except its raw payload. */
    method UpdateDeploy(hash: string, row: DeployRow) returns (ok: bool)
      modifies this
      ensures ok == (UpdateDeployOp !in failing)
      ensures !ok ==> unchanged(this)
      ensures tables ==
        if ok && hash in old(tables).deploys
        then old(tables).(deploys := old(tables).deploys[hash := row.(raw := old(tables).deploys[hash].raw)])
        else old(tables)
    {
      ok := UpdateDeployOp !in failing;
      if ok && hash in tables.deploys {
        tables := tables.(deploys := tables.deploys[hash := row.(raw := tables.deploys[hash].raw)]);
      }
    }

    method InsertDeployInfo(hash: string, row: DeployInfoRow) returns (ok: bool)
      modifies this
      ensures ok == (InsertDeployInfoOp !in failing)
      ensures !ok ==> unchanged(this)
      ensures tables == if ok then old(tables).(deployInfos := old(tables).deployInfos[hash := row]) else old(tables)
    {
      ok := InsertDeployInfoOp !in failing;
      if ok {
        tables := tables.(deployInfos := tables.deployInfos[hash := row]);
      }
    }

    method InsertTransfer(hash: string, row: TransferRow) returns (ok: bool)
      modifies this
      ensures ok == (InsertTransferOp !in failing)
      ensures !ok ==> unchanged(this)
      ensures tables == if ok then old(tables).(transfers := old(tables).transfers[hash := row]) else old(tables)
    {
      ok := InsertTransferOp !in failing;
      if ok {
        tables := tables.(transfers := tables.transfers[hash := row]);
      }
    }

    /** Both batches of one auction snapshot in a single call. */
    method InsertAuction(batch: AuctionBatch) returns (ok: bool)
      modifies this
      ensures ok == (InsertAuctionOp !in failing)
      ensures !ok ==> unchanged(this)
      ensures tables == if ok then old(tables).(auctions := old(tables).auctions + [batch]) else old(tables)
    {
      ok := InsertAuctionOp !in failing;
      if ok {
        tables := tables.(auctions := tables.auctions + [batch]);
      }
    }

    method InsertAuctionEra(batch: AuctionBatch) returns (ok: bool)
      modifies this
      ensures ok == (InsertAuctionEraOp !in failing)
      ensures !ok ==> unchanged(this)
      ensures tables == if ok then old(tables).(auctionEras := old(tables).auctionEras + [batch]) else old(tables)
    {
      ok := InsertAuctionEraOp !in failing;
      if ok {
        tables := tables.(auctionEras := tables.auctionEras + [batch]);
      }
    }
  }

  /** A stored count equal to the list's length means every listed hash
      has a deploy row. */
  lemma CountStoredComplete(hashes: seq<string>, deploys: map<string, DeployRow>)
    requires CountStored(hashes, deploys) == |hashes|
    ensures forall i :: 0 <= i < |hashes| ==> hashes[i] in deploys
  {
    var stored := set h | h in hashes && h in deploys;
    var listed := set h | h in hashes;
    DistinctAtMost(hashes);
    forall i | 0 <= i < |hashes|
      ensures hashes[i] in deploys
    {
      if hashes[i] !in deploys {
        assert hashes[i] in listed;
        assert |listed - {hashes[i]}| == |listed| - 1;
        assert stored <= listed - {hashes[i]};
        SubsetSize(stored, listed - {hashes[i]});
        assert false;
      }
    }
  }

  /** Conversely, when every listed hash is stored and none is listed twice,
      the count is the list's length. */
  lemma CountStoredAll(hashes: seq<string>, deploys: map<string, DeployRow>)
    requires forall i :: 0 <= i < |hashes| ==> hashes[i] in deploys
    requires forall i, j :: 0 <= i < j < |hashes| ==> hashes[i] != hashes[j]
    ensures CountStored(hashes, deploys) == |hashes|
  {
    assert (set h | h in hashes && h in deploys) == (set h | h in hashes);
    DistinctExactly(hashes);
  }

  lemma {:induction false} SubsetSize(a: set<string>, b: set<string>)
    requires a <= b
    ensures |a| <= |b|
    decreases |b|
  {
    if a != {} {
      if forall x :: x !in a { assert false; }
      var x :| x in a;
      SubsetSize(a - {x}, b - {x});
    }
  }

  /** A list has at least as many entries as distinct elements. */
  lemma {:induction false} DistinctAtMost(s: seq<string>)
    ensures |set h | h in s| <= |s|
    decreases |s|
  {
    if s != [] {
      DistinctAtMost(s[1..]);
      assert (set h | h in s) == (set h | h in s[1..]) + {s[0]};
    }
  }

  /** A list without repeats has exactly as many distinct elements as entries. */
  lemma {:induction false} DistinctExactly(s: seq<string>)
    requires forall i, j :: 0 <= i < j < |s| ==> s[i] != s[j]
    ensures |set h | h in s| == |s|
    decreases |s|
  {
    if s != [] {
      DistinctExactly(s[1..]);
      assert (set h | h in s) == (set h | h in s[1..]) + {s[0]};
      assert s[0] !in s[1..];
    }
  }
}
