/** The block handlers: store a fetched block and fan out its era, deploy
    and deploy-info tasks; check that every deploy of a stored block has
    been stored, then mark it validated or queue its deploys again. */
module BlockTasks {
  import opened Outcomes
  import opened Tasks
  import opened Chain
  import opened Storage

  // The tasks the enqueue helpers build, each with the queue it goes to.

  function DeployTask(hash: string): Task
  {
    Task("deploys", DeployRaw(DeployRawPayload(hash)))
  }

  function DeployInfoTask(hash: string, blockHash: string, stateRootHash: string, deployTimestamp: string): Task
  {
    Task("deployinfos", DeployInfoRaw(DeployInfoRawPayload(hash, blockHash, stateRootHash, deployTimestamp)))
  }

  /** The transfer payload has no timestamp field: the argument is accepted
      and dropped. */
  function TransferTask(hash: string, blockHash: string, deployHash: string, deployTimestamp: string, stateRootHash: string): Task
  {
    Task("transfers", TransferRaw(TransferRawPayload(hash, blockHash, deployHash, stateRootHash)))
  }

  function EraTask(hash: string): Task
  {
    Task("era", Reward(hash))
  }

  function AuctionEraTask(height: int): Task
  {
    Task("auctionera", AuctionEra(AuctionEraPayload(height)))
  }

  /** The two tasks queued for each hash a block lists. The deploy-info task
      is given the block's own timestamp in place of the deploy's. */
  function DeployPair(hash: string, b: RpcBlock): seq<Task>
  {
    [DeployTask(hash), DeployInfoTask(hash, b.hash, b.stateRootHash, b.timestamp)]
  }

  function DeployPairs(hashes: seq<string>, b: RpcBlock): seq<Task>
    decreases |hashes|
  {
    if hashes == [] then [] else DeployPair(hashes[0], b) + DeployPairs(hashes[1..], b)
  }

  function EraTasks(b: RpcBlock): seq<Task>
  {
    if b.eraEnd then [EraTask(b.hash), AuctionEraTask(b.height)] else []
  }

  /** Everything a stored block fans out, in enqueue order. */
  function BlockChildren(b: RpcBlock): seq<Task>
  {
    EraTasks(b) + DeployPairs(b.transferHashes, b) + DeployPairs(b.deployHashes, b)
  }

  /** What the verify handler queues again: a deploy task per listed hash. */
  function RequeueTasks(hashes: seq<string>): seq<Task>
    decreases |hashes|
  {
    if hashes == [] then [] else [DeployTask(hashes[0])] + RequeueTasks(hashes[1..])
  }

  /** The block row: header fields, era-end flag, the raw response, and the
      hash lists the raw response holds. */
  function BlockRowOf(f: Fetched<RpcBlock>): BlockRow
  {
    BlockRow(f.value.eraId, f.value.timestamp, f.value.height, f.value.eraEnd, f.raw,
             f.value.deployHashes, f.value.transferHashes)
  }

  /** The list the verify handler checks: deploy hashes, then transfer hashes. */
  function AllDeploys(row: BlockRow): seq<string>
  {
    row.deployHashes + row.transferHashes
  }

  /** Two tasks per hash, in the hashes' order: the deploy task at the even
      position, the deploy-info task carrying the block's hash, state root
      and timestamp right after it. */
  lemma {:induction false} DeployPairsLayout(hashes: seq<string>, b: RpcBlock)
    ensures |DeployPairs(hashes, b)| == 2 * |hashes|
    ensures forall i :: 0 <= i < |hashes| ==>
      DeployPairs(hashes, b)[2 * i] == DeployTask(hashes[i]) &&
      DeployPairs(hashes, b)[2 * i + 1] == DeployInfoTask(hashes[i], b.hash, b.stateRootHash, b.timestamp)
    decreases |hashes|
  {
    if hashes != [] {
      DeployPairsLayout(hashes[1..], b);
      var r := DeployPairs(hashes, b);
      forall i | 1 <= i < |hashes|
        ensures r[2 * i] == DeployTask(hashes[i])
        ensures r[2 * i + 1] == DeployInfoTask(hashes[i], b.hash, b.stateRootHash, b.timestamp)
      {
        assert hashes[i] == hashes[1..][i - 1];
        assert r[2 * i] == DeployPairs(hashes[1..], b)[2 * (i - 1)];
        assert r[2 * i + 1] == DeployPairs(hashes[1..], b)[2 * (i - 1) + 1];
      }
    }
  }

  /** Every task of a pair list is a deploy or a deploy-info task. */
  lemma {:induction false} DeployPairsKinds(hashes: seq<string>, b: RpcBlock)
    ensures |DeployPairs(hashes, b)| == 2 * |hashes|
    ensures forall t :: t in DeployPairs(hashes, b) ==> t.payload.DeployRaw? || t.payload.DeployInfoRaw?
    decreases |hashes|
  {
    if hashes != [] {
      DeployPairsKinds(hashes[1..], b);
    }
  }

  /** The block fan-out for N transfer hashes and M deploy hashes has
      2·(N+M) tasks after the era tasks; the era tasks come first, exactly
      when the block ends an era, and nowhere else. */
  lemma BlockChildrenEra(b: RpcBlock)
    ensures var c := BlockChildren(b);
      var e := |EraTasks(b)|;
      e == (if b.eraEnd then 2 else 0) &&
      |c| == e + 2 * (|b.transferHashes| + |b.deployHashes|) &&
      (b.eraEnd ==> c[0] == EraTask(b.hash) && c[1] == AuctionEraTask(b.height)) &&
      (forall i :: e <= i < |c| ==> !c[i].payload.Reward? && !c[i].payload.AuctionEra?)
  {
    var c := BlockChildren(b);
    var e := |EraTasks(b)|;
    var ts := DeployPairs(b.transferHashes, b);
    var ds := DeployPairs(b.deployHashes, b);
    var rest := ts + ds;
    assert c == EraTasks(b) + rest;
    DeployPairsKinds(b.transferHashes, b);
    DeployPairsKinds(b.deployHashes, b);
    forall i | e <= i < |c|
      ensures !c[i].payload.Reward? && !c[i].payload.AuctionEra?
    {
      var x := rest[i - e];
      assert c[i] == x;
      if i - e < |ts| {
        assert x == ts[i - e] && x in ts;
      } else {
        assert x == ds[i - e - |ts|] && x in ds;
      }
    }
  }

  /** After the era tasks, each transfer hash in order gets a deploy task
      followed by a deploy-info task. */
  lemma BlockChildrenTransfers(b: RpcBlock)
    ensures var c := BlockChildren(b);
      var e := |EraTasks(b)|;
      |c| >= e + 2 * |b.transferHashes| &&
      forall i :: 0 <= i < |b.transferHashes| ==>
        c[e + 2 * i] == DeployTask(b.transferHashes[i]) &&
        c[e + 2 * i + 1] == DeployInfoTask(b.transferHashes[i], b.hash, b.stateRootHash, b.timestamp)
  {
    var ts := DeployPairs(b.transferHashes, b);
    DeployPairsLayout(b.transferHashes, b);
    assert BlockChildren(b) == (EraTasks(b) + ts) + DeployPairs(b.deployHashes, b);
  }

  /** Then each deploy hash in order gets the same two tasks. */
  lemma BlockChildrenDeploys(b: RpcBlock)
    ensures var c := BlockChildren(b);
      var e := |EraTasks(b)| + 2 * |b.transferHashes|;
      |c| == e + 2 * |b.deployHashes| &&
      forall j :: 0 <= j < |b.deployHashes| ==>
        c[e + 2 * j] == DeployTask(b.deployHashes[j]) &&
        c[e + 2 * j + 1] == DeployInfoTask(b.deployHashes[j], b.hash, b.stateRootHash, b.timestamp)
  {
    var ds := DeployPairs(b.deployHashes, b);
    DeployPairsLayout(b.transferHashes, b);
    DeployPairsLayout(b.deployHashes, b);
    var pre := EraTasks(b) + DeployPairs(b.transferHashes, b);
    assert BlockChildren(b) == pre + ds;
    assert |pre| == |EraTasks(b)| + 2 * |b.transferHashes|;
  }

  /** Every listed hash is queued again, stored already or not, in order. */
  lemma {:induction false} RequeueTasksLayout(hashes: seq<string>)
    ensures |RequeueTasks(hashes)| == |hashes|
    ensures forall i :: 0 <= i < |hashes| ==> RequeueTasks(hashes)[i] == DeployTask(hashes[i])
    decreases |hashes|
  {
    if hashes != [] {
      RequeueTasksLayout(hashes[1..]);
      forall i | 1 <= i < |hashes|
        ensures RequeueTasks(hashes)[i] == DeployTask(hashes[i])
      {
        assert hashes[i] == hashes[1..][i - 1];
      }
    }
  }

  /** Fetch the block at the payload's height, store it, then queue the era
      tasks (when the block ends an era) and two tasks per transfer hash and
      per deploy hash. */
  method HandleBlockRawTask(db: Store, q: TaskQueue, chain: Endpoint, p: Option<BlockRawPayload>)
    returns (out: Outcome)
    modifies db, q
    ensures p.None? ==> out == Err(Unmarshal) && unchanged(db, q)
    ensures p.Some? && p.value.blockHeight !in chain.blocks ==> out == Err(Fetch) && unchanged(db, q)
    ensures p.Some? && p.value.blockHeight in chain.blocks && InsertBlockOp in db.failing ==>
      out == Err(Persist(InsertBlockOp)) && db.tables == old(db.tables) && q.tasks == old(q.tasks)
    ensures p.Some? && p.value.blockHeight in chain.blocks && InsertBlockOp !in db.failing ==>
      var f := chain.blocks[p.value.blockHeight];
      var d := Deliver(BlockChildren(f.value), q.down);
      db.tables == old(db.tables).(blocks := old(db.tables).blocks[f.value.hash := BlockRowOf(f)]) &&
      q.tasks == old(q.tasks) + d.sent &&
      out == if d.fatal then Fatal else Ok
  {
    if p.None? {
      return Err(Unmarshal);
    }
    if p.value.blockHeight !in chain.blocks {
      return Err(Fetch);
    }
    var f := chain.blocks[p.value.blockHeight];
    var b := f.value;
    var ok := db.InsertBlock(b.hash, BlockRowOf(f));
    if !ok {
      return Err(Persist(InsertBlockOp));
    }

    var fatal := FanOutBlock(q, b);
    return if fatal then Fatal else Ok;
  }

  /** The enqueues after a block is stored: the era and auction-era tasks
      when the block ends an era, then two tasks per transfer hash, then two
      per deploy hash. */
  method FanOutBlock(q: TaskQueue, b: RpcBlock) returns (fatal: bool)
    modifies q
    ensures q.tasks == old(q.tasks) + Deliver(BlockChildren(b), q.down).sent
    ensures fatal == Deliver(BlockChildren(b), q.down).fatal
  {
    BlockChildrenSplit(b, q.down);
    fatal := FanOutEra(q, b);
    if fatal {
      return;
    }
    // the transfer loop and the deploy loop, one after the other
    fatal := q.SubmitAll(DeployPairs(b.transferHashes, b) + DeployPairs(b.deployHashes, b));
  }

  /** The era and auction-era enqueues, made only when the block ends an era. */
  method FanOutEra(q: TaskQueue, b: RpcBlock) returns (fatal: bool)
    modifies q
    ensures q.tasks == old(q.tasks) + Deliver(EraTasks(b), q.down).sent
    ensures fatal == Deliver(EraTasks(b), q.down).fatal
  {
    fatal := false;
    if b.eraEnd {
      fatal := q.SubmitAll(EraTasks(b));
    }
  }

  /** The block fan-out delivered is the era tasks delivered, then the
      transfer and deploy pairs delivered. */
  lemma BlockChildrenSplit(b: RpcBlock, down: set<string>)
    ensures var de := Deliver(EraTasks(b), down);
      var rest := DeployPairs(b.transferHashes, b) + DeployPairs(b.deployHashes, b);
      Deliver(BlockChildren(b), down) == Then(de, Deliver(rest, down))
  {
    var eras := EraTasks(b);
    var rest := DeployPairs(b.transferHashes, b) + DeployPairs(b.deployHashes, b);
    assert BlockChildren(b) == eras + rest;
    DeliverAppend(eras, rest, down);
  }

  /** Read the stored block back. With nothing listed, or with every listed
      hash stored, mark it validated; with some missing, queue a deploy task
      for every listed hash and leave it unvalidated. */
  method HandleBlockVerifyTask(db: Store, q: TaskQueue, p: Option<BlockVerifyPayload>)
    returns (out: Outcome)
    modifies db, q
    ensures p.None? ==> out == Err(Unmarshal) && unchanged(db, q)
    ensures p.Some? && old(db.GetRawBlock(p.value.blockHash)).Failure? ==>
      out == Err(old(db.GetRawBlock(p.value.blockHash)).error) && unchanged(db, q)
    ensures p.Some? && old(db.GetRawBlock(p.value.blockHash)).Success? ==>
      var hash := p.value.blockHash;
      var all := AllDeploys(old(db.GetRawBlock(hash)).value);
      var complete := |all| == 0 ||
        (CountDeploysOp !in db.failing && CountStored(all, old(db.tables).deploys) == |all|);
      if complete then
        q.tasks == old(q.tasks) &&
        if ValidateBlockOp in db.failing
        then out == Err(Persist(ValidateBlockOp)) && db.tables == old(db.tables)
        else out == Ok && db.tables == old(db.tables).(validated := old(db.tables).validated + {hash})
      else if CountDeploysOp in db.failing then
        out == Err(Persist(CountDeploysOp)) && unchanged(db, q)
      else
        var d := Deliver(RequeueTasks(all), q.down);
        db.tables == old(db.tables) && q.tasks == old(q.tasks) + d.sent &&
        out == if d.fatal then Fatal else Ok
    // only a block whose listed deploys are all stored is newly validated
    ensures p.Some? && p.value.blockHash in db.tables.validated - old(db.tables).validated ==>
      old(db.GetRawBlock(p.value.blockHash)).Success? &&
      forall h :: h in AllDeploys(old(db.GetRawBlock(p.value.blockHash)).value) ==> h in old(db.tables).deploys
  {
    if p.None? {
      return Err(Unmarshal);
    }
    var hash := p.value.blockHash;
    var row := db.GetRawBlock(hash);
    if row.Failure? {
      return Err(row.error);
    }
    var all := row.value.deployHashes + row.value.transferHashes;
    assert all == AllDeploys(row.value);
    if |all| == 0 {
      var ok := db.ValidateBlock(hash);
      return if ok then Ok else Err(Persist(ValidateBlockOp));
    }
    var count := db.CountDeploys(all);
    if count.Failure? {
      return Err(count.error);
    }
    if count.value != |all| {
      var fatal := q.SubmitAll(RequeueTasks(all));
      return if fatal then Fatal else Ok;
    }
    CountStoredComplete(all, db.tables.deploys);
    var ok := db.ValidateBlock(hash);
    return if ok then Ok else Err(Persist(ValidateBlockOp));
  }

  /** A block listing two deploys and ending no era fans out four tasks. */
  lemma BlockChildrenExample(b: RpcBlock)
    requires !b.eraEnd && b.transferHashes == [] && b.deployHashes == ["d1", "d2"]
    ensures BlockChildren(b) == [
      DeployTask("d1"), DeployInfoTask("d1", b.hash, b.stateRootHash, b.timestamp),
      DeployTask("d2"), DeployInfoTask("d2", b.hash, b.stateRootHash, b.timestamp)]
  {
    var d := b.deployHashes;
    assert d[1..] == ["d2"];
    assert d[1..][1..] == [];
    assert DeployPairs(d[1..], b) == DeployPair("d2", b) + DeployPairs([], b);
    assert DeployPairs(d, b) == DeployPair("d1", b) + DeployPairs(d[1..], b);
    assert DeployPairs(b.transferHashes, b) == [];
  }
}
