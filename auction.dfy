/** The auction handlers: turn an auction snapshot into one bid row per
    bid and one delegator row per delegator, abort the whole snapshot on
    the first stake that is not a decimal integer, and store both batches
    in a single call. The era variant prefixes every row with the block the
    snapshot was taken at. */
module AuctionTasks {
  import opened Outcomes
  import opened Text
  import opened Chain
  import opened Storage
  import opened Tasks

  /** The stake as the arbitrary-precision conversion reads it, then
      narrowed to 64 bits. */
  function Stake(text: string): int
    requires ParseDecimal(text).Some?
  {
    Int64Of(ParseDecimal(text).value)
  }

  /** The rows for one bid's delegators, in order; the first unreadable
      stake names that delegator and its validator. */
  function DelegatorRows(ds: seq<Delegator>, block: Option<int>): Result<seq<DelegatorRow>>
    decreases |ds|
  {
    if ds == [] then Success([])
    else match DelegatorRows(ds[..|ds| - 1], block)
      case Failure(e) => Failure(e)
      case Success(rows) =>
        var d := ds[|ds| - 1];
        if ParseDecimal(d.stakedAmount).None? then Failure(BadDelegatorStake(d.publicKey, d.delegatee))
        else Success(rows + [DelegatorRow(block, d.publicKey, d.delegatee, Stake(d.stakedAmount), d.bondingPurse)])
  }

  /** Both batches for a list of bids, bid by bid: the bid's own row, then
      its delegators' rows; the first unreadable stake aborts everything. */
  function AuctionRows(bids: seq<Bid>, block: Option<int>): Result<AuctionBatch>
    decreases |bids|
  {
    if bids == [] then Success(AuctionBatch([], []))
    else match AuctionRows(bids[..|bids| - 1], block)
      case Failure(e) => Failure(e)
      case Success(batch) =>
        var b := bids[|bids| - 1];
        if ParseDecimal(b.stakedAmount).None? then Failure(BadBidStake(b.publicKey))
        else match DelegatorRows(b.delegators, block)
          case Failure(e) => Failure(e)
          case Success(rows) =>
            var row := BidRow(block, b.publicKey, b.bondingPurse, Stake(b.stakedAmount), b.delegationRate, b.inactive);
            Success(AuctionBatch(batch.bids + [row], batch.delegators + rows))
  }

  /** All delegators of all bids, bid by bid. */
  function Delegations(bids: seq<Bid>): seq<Delegator>
    decreases |bids|
  {
    if bids == [] then [] else Delegations(bids[..|bids| - 1]) + bids[|bids| - 1].delegators
  }

  predicate DelegatorStakesParse(ds: seq<Delegator>)
  {
    forall j :: 0 <= j < |ds| ==> ParseDecimal(ds[j].stakedAmount).Some?
  }

  predicate StakesParse(bids: seq<Bid>)
  {
    forall i :: 0 <= i < |bids| ==>
      ParseDecimal(bids[i].stakedAmount).Some? && DelegatorStakesParse(bids[i].delegators)
  }

  /** A bid row holds the bid's key, purse, rate and flag, the snapshot's
      block, and the bid's stake exactly when it fits in 64 bits. */
  predicate BidRowFor(row: BidRow, b: Bid, block: Option<int>)
  {
    ParseDecimal(b.stakedAmount).Some? &&
    row.block == block && row.publicKey == b.publicKey && row.bondingPurse == b.bondingPurse &&
    row.delegationRate == b.delegationRate && row.inactive == b.inactive &&
    InInt64(row.staked) &&
    (InInt64(ParseDecimal(b.stakedAmount).value) ==> row.staked == ParseDecimal(b.stakedAmount).value)
  }

  predicate DelegatorRowFor(row: DelegatorRow, d: Delegator, block: Option<int>)
  {
    ParseDecimal(d.stakedAmount).Some? &&
    row.block == block && row.publicKey == d.publicKey && row.delegatee == d.delegatee &&
    row.bondingPurse == d.bondingPurse &&
    InInt64(row.staked) &&
    (InInt64(ParseDecimal(d.stakedAmount).value) ==> row.staked == ParseDecimal(d.stakedAmount).value)
  }

  lemma {:induction false} DelegatorRowsPrefixFailure(ds: seq<Delegator>, k: nat, block: Option<int>)
    requires k <= |ds| && DelegatorRows(ds[..k], block).Failure?
    ensures DelegatorRows(ds, block) == DelegatorRows(ds[..k], block)
    decreases |ds|
  {
    if k < |ds| {
      var pre := ds[..|ds| - 1];
      assert pre[..k] == ds[..k];
      DelegatorRowsPrefixFailure(pre, k, block);
    } else {
      assert ds[..k] == ds;
    }
  }

  lemma {:induction false} AuctionRowsPrefixFailure(bids: seq<Bid>, k: nat, block: Option<int>)
    requires k <= |bids| && AuctionRows(bids[..k], block).Failure?
    ensures AuctionRows(bids, block) == AuctionRows(bids[..k], block)
    decreases |bids|
  {
    if k < |bids| {
      var pre := bids[..|bids| - 1];
      assert pre[..k] == bids[..k];
      AuctionRowsPrefixFailure(pre, k, block);
    } else {
      assert bids[..k] == bids;
    }
  }

  /** The builder loops of both handlers: grow the two batches bid by bid,
      returning at the first unreadable stake. */
  method BuildAuctionRows(bids: seq<Bid>, block: Option<int>) returns (r: Result<AuctionBatch>)
    ensures r == AuctionRows(bids, block)
  {
    var bidRows: seq<BidRow> := [];
    var delegatorRows: seq<DelegatorRow> := [];
    var i := 0;
    while i < |bids|
      invariant 0 <= i <= |bids|
      invariant AuctionRows(bids[..i], block) == Success(AuctionBatch(bidRows, delegatorRows))
    {
      var b := bids[i];
      assert bids[..i + 1][..i] == bids[..i];
      assert bids[..i + 1][i] == b;
      var staked := ParseDecimal(b.stakedAmount);
      if staked.None? {
        AuctionRowsPrefixFailure(bids, i + 1, block);
        return Failure(BadBidStake(b.publicKey));
      }
      var rows := BuildDelegatorRows(b.delegators, block);
      if rows.Failure? {
        AuctionRowsPrefixFailure(bids, i + 1, block);
        return Failure(rows.error);
      }
      bidRows := bidRows + [BidRow(block, b.publicKey, b.bondingPurse, Int64Of(staked.value), b.delegationRate, b.inactive)];
      delegatorRows := delegatorRows + rows.value;
      i := i + 1;
    }
    assert bids[..i] == bids;
    return Success(AuctionBatch(bidRows, delegatorRows));
  }

  /** The inner loop over one bid's delegators. */
  method BuildDelegatorRows(ds: seq<Delegator>, block: Option<int>) returns (r: Result<seq<DelegatorRow>>)
    ensures r == DelegatorRows(ds, block)
  {
    var rows: seq<DelegatorRow> := [];
    var j := 0;
    while j < |ds|
      invariant 0 <= j <= |ds|
      invariant DelegatorRows(ds[..j], block) == Success(rows)
    {
      var d := ds[j];
      assert ds[..j + 1][..j] == ds[..j];
      assert ds[..j + 1][j] == d;
      var dStaked := ParseDecimal(d.stakedAmount);
      if dStaked.None? {
        DelegatorRowsPrefixFailure(ds, j + 1, block);
        return Failure(BadDelegatorStake(d.publicKey, d.delegatee));
      }
      rows := rows + [DelegatorRow(block, d.publicKey, d.delegatee, Int64Of(dStaked.value), d.bondingPurse)];
      j := j + 1;
    }
    assert ds[..j] == ds;
    return Success(rows);
  }

  lemma {:induction false} DelegatorRowsSuccess(ds: seq<Delegator>, block: Option<int>)
    ensures DelegatorRows(ds, block).Success? <==> DelegatorStakesParse(ds)
    ensures DelegatorRows(ds, block).Success? ==>
      var rows := DelegatorRows(ds, block).value;
      |rows| == |ds| && forall j :: 0 <= j < |ds| ==> DelegatorRowFor(rows[j], ds[j], block)
    decreases |ds|
  {
    if ds != [] {
      var pre := ds[..|ds| - 1];
      DelegatorRowsSuccess(pre, block);
      assert forall j :: 0 <= j < |pre| ==> pre[j] == ds[j];
    }
  }

  /** The snapshot is stored exactly when every bid stake and every
      delegator stake is a decimal integer. */
  lemma {:induction false} AuctionRowsSuccess(bids: seq<Bid>, block: Option<int>)
    ensures AuctionRows(bids, block).Success? <==> StakesParse(bids)
    decreases |bids|
  {
    if bids != [] {
      var pre := bids[..|bids| - 1];
      AuctionRowsSuccess(pre, block);
      DelegatorRowsSuccess(bids[|bids| - 1].delegators, block);
      assert forall i :: 0 <= i < |pre| ==> pre[i] == bids[i];
    }
  }

  /** A successful snapshot of several bids is the snapshot of all but the
      last, extended by the last bid's row and its delegators' rows. */
  lemma AuctionRowsLast(bids: seq<Bid>, block: Option<int>)
    requires bids != [] && AuctionRows(bids, block).Success?
    ensures var pre := bids[..|bids| - 1];
      var b := bids[|bids| - 1];
      AuctionRows(pre, block).Success? && ParseDecimal(b.stakedAmount).Some? &&
      DelegatorRows(b.delegators, block).Success? &&
      AuctionRows(bids, block).value == AuctionBatch(
        AuctionRows(pre, block).value.bids +
          [BidRow(block, b.publicKey, b.bondingPurse, Stake(b.stakedAmount), b.delegationRate, b.inactive)],
        AuctionRows(pre, block).value.delegators + DelegatorRows(b.delegators, block).value)
  {
  }

  /** On success: one bid row per bid, in bid order, each carrying that
      bid's fields and the snapshot's block. */
  lemma {:induction false} AuctionRowsBids(bids: seq<Bid>, block: Option<int>)
    requires AuctionRows(bids, block).Success?
    ensures var batch := AuctionRows(bids, block).value;
      |batch.bids| == |bids| &&
      forall i :: 0 <= i < |bids| ==> BidRowFor(batch.bids[i], bids[i], block)
    decreases |bids|
  {
    if bids != [] {
      var pre := bids[..|bids| - 1];
      AuctionRowsLast(bids, block);
      AuctionRowsBids(pre, block);
      var before := AuctionRows(pre, block).value;
      var batch := AuctionRows(bids, block).value;
      forall i | 0 <= i < |bids|
        ensures BidRowFor(batch.bids[i], bids[i], block)
      {
        if i < |pre| {
          assert bids[i] == pre[i];
          assert batch.bids[i] == before.bids[i];
        }
      }
    }
  }

  /** On success: one delegator row per delegator, in bid-then-delegator
      order, each carrying that delegator's fields and the snapshot's block;
      so as many rows as delegators in all. */
  lemma {:induction false} AuctionRowsDelegators(bids: seq<Bid>, block: Option<int>)
    requires AuctionRows(bids, block).Success?
    ensures var batch := AuctionRows(bids, block).value;
      |batch.delegators| == |Delegations(bids)| &&
      forall k :: 0 <= k < |batch.delegators| ==> DelegatorRowFor(batch.delegators[k], Delegations(bids)[k], block)
    decreases |bids|
  {
    if bids != [] {
      var pre := bids[..|bids| - 1];
      var b := bids[|bids| - 1];
      AuctionRowsLast(bids, block);
      AuctionRowsDelegators(pre, block);
      DelegatorRowsSuccess(b.delegators, block);
      var before := AuctionRows(pre, block).value.delegators;
      var rows := DelegatorRows(b.delegators, block).value;
      var after := AuctionRows(bids, block).value.delegators;
      var all := Delegations(bids);
      assert after == before + rows;
      assert all == Delegations(pre) + b.delegators;
      DelegatorRowsConcat(before, rows, Delegations(pre), b.delegators, block);
    }
  }

  /** Row lists that match their delegator lists position by position
      still do once concatenated. */
  lemma DelegatorRowsConcat(r1: seq<DelegatorRow>, r2: seq<DelegatorRow>, d1: seq<Delegator>, d2: seq<Delegator>, block: Option<int>)
    requires |r1| == |d1| && forall k :: 0 <= k < |r1| ==> DelegatorRowFor(r1[k], d1[k], block)
    requires |r2| == |d2| && forall k :: 0 <= k < |r2| ==> DelegatorRowFor(r2[k], d2[k], block)
    ensures |r1 + r2| == |d1 + d2|
    ensures forall k :: 0 <= k < |r1 + r2| ==> DelegatorRowFor((r1 + r2)[k], (d1 + d2)[k], block)
  {
    forall k | 0 <= k < |r1 + r2|
      ensures DelegatorRowFor((r1 + r2)[k], (d1 + d2)[k], block)
    {
      if k >= |r1| {
        assert (r1 + r2)[k] == r2[k - |r1|] && (d1 + d2)[k] == d2[k - |r1|];
      }
    }
  }

  /** A failure names a bid whose stake is unreadable, or a delegator (with
      its validator) whose stake is unreadable. */
  lemma {:induction false} AuctionRowsError(bids: seq<Bid>, block: Option<int>)
    requires AuctionRows(bids, block).Failure?
    ensures var e := AuctionRows(bids, block).error;
      (e.BadBidStake? &&
        exists i :: (0 <= i < |bids| &&
          bids[i].publicKey == e.validator && ParseDecimal(bids[i].stakedAmount).None?)) ||
      (e.BadDelegatorStake? &&
        exists i, j :: (0 <= i < |bids| && 0 <= j < |bids[i].delegators| &&
          bids[i].delegators[j].publicKey == e.delegator && bids[i].delegators[j].delegatee == e.delegatee &&
          ParseDecimal(bids[i].delegators[j].stakedAmount).None?))
    decreases |bids|
  {
    var pre := bids[..|bids| - 1];
    var last := |bids| - 1;
    if AuctionRows(pre, block).Failure? {
      AuctionRowsError(pre, block);
      assert forall i :: 0 <= i < |pre| ==> pre[i] == bids[i];
    } else if ParseDecimal(bids[last].stakedAmount).Some? {
      DelegatorRowsError(bids[last].delegators, block);
    }
  }

  lemma {:induction false} DelegatorRowsError(ds: seq<Delegator>, block: Option<int>)
    requires DelegatorRows(ds, block).Failure?
    ensures var e := DelegatorRows(ds, block).error;
      e.BadDelegatorStake? &&
      exists j :: (0 <= j < |ds| &&
        ds[j].publicKey == e.delegator && ds[j].delegatee == e.delegatee &&
        ParseDecimal(ds[j].stakedAmount).None?)
    decreases |ds|
  {
    var pre := ds[..|ds| - 1];
    if DelegatorRows(pre, block).Failure? {
      DelegatorRowsError(pre, block);
      assert forall j :: 0 <= j < |pre| ==> pre[j] == ds[j];
    }
  }

  /** Fetch the current auction state, build both batches and store them
      in one call. */
  method HandleAuctionTask(db: Store, chain: Endpoint) returns (out: Outcome)
    modifies db
    ensures chain.auction.None? ==> out == Err(Fetch) && unchanged(db)
    ensures chain.auction.Some? ==>
      var r := AuctionRows(chain.auction.value.bids, None);
      if r.Failure? then out == Err(r.error) && unchanged(db)
      else if InsertAuctionOp in db.failing then out == Err(Persist(InsertAuctionOp)) && unchanged(db)
      else out == Ok && db.tables == old(db.tables).(auctions := old(db.tables).auctions + [r.value])
  {
    if chain.auction.None? {
      return Err(Fetch);
    }
    var r := BuildAuctionRows(chain.auction.value.bids, None);
    if r.Failure? {
      return Err(r.error);
    }
    var ok := db.InsertAuction(r.value);
    return if ok then Ok else Err(Persist(InsertAuctionOp));
  }

  /** The same for the auction state at the payload's block, every row
      starting with that block. */
  method HandleAuctionEraTask(db: Store, chain: Endpoint, p: Option<AuctionEraPayload>) returns (out: Outcome)
    modifies db
    ensures p.None? ==> out == Err(Unmarshal) && unchanged(db)
    ensures p.Some? && p.value.blockIdentifier !in chain.auctionEras ==> out == Err(Fetch) && unchanged(db)
    ensures p.Some? && p.value.blockIdentifier in chain.auctionEras ==>
      var r := AuctionRows(chain.auctionEras[p.value.blockIdentifier].bids, Some(p.value.blockIdentifier));
      if r.Failure? then out == Err(r.error) && unchanged(db)
      else if InsertAuctionEraOp in db.failing then out == Err(Persist(InsertAuctionEraOp)) && unchanged(db)
      else out == Ok && db.tables == old(db.tables).(auctionEras := old(db.tables).auctionEras + [r.value])
  {
    if p.None? {
      return Err(Unmarshal);
    }
    var id := p.value.blockIdentifier;
    if id !in chain.auctionEras {
      return Err(Fetch);
    }
    var r := BuildAuctionRows(chain.auctionEras[id].bids, Some(id));
    if r.Failure? {
      return Err(r.error);
    }
    var ok := db.InsertAuctionEra(r.value);
    return if ok then Ok else Err(Persist(InsertAuctionEraOp));
  }

  /** In the era variant every row of the stored batch begins with the
      snapshot's block identifier. */
  lemma EraRowsCarryBlock(bids: seq<Bid>, id: int)
    requires AuctionRows(bids, Some(id)).Success?
    ensures forall row :: row in AuctionRows(bids, Some(id)).value.bids ==> row.block == Some(id)
    ensures forall row :: row in AuctionRows(bids, Some(id)).value.delegators ==> row.block == Some(id)
  {
    AuctionRowsBids(bids, Some(id));
    AuctionRowsDelegators(bids, Some(id));
  }
}
