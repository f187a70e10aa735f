/** The deploy handlers: store a fetched deploy and fan out its account,
    contract and contract-package tasks; store a deploy info (or a sentinel
    row when it cannot be fetched) and fan out its transfers; refresh a
    stored deploy whose metadata is now known. */
module DeployTasks {
  import opened Outcomes
  import opened Text
  import opened Tasks
  import opened Chain
  import opened Storage
  import opened BlockTasks

  const HashPrefix: string := "hash-"

  function AccountTask(publicKey: string): Task
  {
    Task("accounts", Account(publicKey))
  }

  function ContractTask(hash: string, deployHash: string, from: string): Task
  {
    Task("contracts", ContractRaw(hash, deployHash, from))
  }

  function PackageTask(hash: string, deployHash: string, from: string): Task
  {
    Task("contracts", ContractPackageRaw(hash, deployHash, from))
  }

  /** One contract task per written contract, every "hash-" removed from it. */
  function ContractTasks(hashes: seq<string>, deployHash: string, from: string): seq<Task>
    decreases |hashes|
  {
    if hashes == [] then []
    else [ContractTask(RemoveAll(hashes[0], HashPrefix), deployHash, from)] + ContractTasks(hashes[1..], deployHash, from)
  }

  /** One package task per written contract package, likewise stripped. */
  function PackageTasks(hashes: seq<string>, deployHash: string, from: string): seq<Task>
    decreases |hashes|
  {
    if hashes == [] then []
    else [PackageTask(RemoveAll(hashes[0], HashPrefix), deployHash, from)] + PackageTasks(hashes[1..], deployHash, from)
  }

  /** The fan-out of a freshly stored deploy: its signer, then its written
      contracts, then its written packages. */
  function DeployChildren(d: RpcDeploy): seq<Task>
  {
    [AccountTask(d.account)]
      + ContractTasks(d.writeContracts, d.hash, d.account)
      + PackageTasks(d.writeContractPackages, d.hash, d.account)
  }

  /** The fan-out of a refreshed deploy: packages, then contracts; no
      account task. */
  function KnownChildren(d: RpcDeploy): seq<Task>
  {
    PackageTasks(d.writeContractPackages, d.hash, d.account)
      + ContractTasks(d.writeContracts, d.hash, d.account)
  }

  /** One transfer task per listed transfer, naming the deploy info it
      came from as its deploy. */
  function TransferTasks(transfers: seq<string>, p: DeployInfoRawPayload): seq<Task>
    decreases |transfers|
  {
    if transfers == [] then []
    else
      var first := TransferTask(transfers[0], p.block, p.deployInfoHash, p.deployTimestamp, p.stateRootHash);
      [first] + TransferTasks(transfers[1..], p)
  }

  /** The deploy row: the derived fields, the block of the first execution
      result, and the raw response and metadata after one pass that removes
      the NUL escapes it finds. The refresh path passes no raw response. */
  function DeployRowOf(d: RpcDeploy, raw: string): (row: DeployRow)
    requires d.summary.Some? && |d.executionBlocks| > 0
    ensures row.account == d.account && row.blockHash == d.executionBlocks[0]
    ensures |row.raw| <= |raw| && |row.metadata| <= |d.metadata|
    ensures !Occurs(raw, NulEscape) ==> row.raw == raw
    ensures Occurs(raw, NulEscape) ==> |row.raw| < |raw|
    ensures !Occurs(d.metadata, NulEscape) ==> row.metadata == d.metadata
    ensures Occurs(d.metadata, NulEscape) ==> |row.metadata| < |d.metadata|
  {
    DeployRow(d.account, d.summary.value, d.timestamp, d.executionBlocks[0], d.kind,
              StripNulOnce(raw), d.metadataType, d.storedContractHash, d.name, d.entrypoint,
              StripNulOnce(d.metadata), d.events)
  }

  /** One pass can leave an escape behind: a response holding a backslash
      right before an escape is stored with an escape in it. */
  lemma DeployRowKeepsEscape(d: RpcDeploy)
    requires d.summary.Some? && |d.executionBlocks| > 0
    ensures Occurs(DeployRowOf(d, "\\\\u0000u0000").raw, NulEscape)
  {
    StripNulOnceLeavesEscape();
  }

  /** The row written when the deploy info cannot be fetched. */
  function SentinelRow(block: string): DeployInfoRow
  {
    DeployInfoRow(block, "", "", 0, "\"ERROR\"", "")
  }

  /** The deploy-info row: gas is whatever the integer conversion gives,
      even when it reports an error; the transfers are joined by ", ". */
  function DeployInfoRowOf(p: DeployInfoRawPayload, f: Fetched<RpcDeployInfo>): (row: DeployInfoRow)
    ensures Atoi(f.value.gas).ok ==> Some(row.gas) == ParseDecimal(f.value.gas)
    ensures ParseDecimal(f.value.gas).Some? ==> row.gas == Clamp64(ParseDecimal(f.value.gas).value)
    ensures ParseDecimal(f.value.gas).None? && !LeadingOverflow(f.value.gas) ==> row.gas == 0
    ensures LeadingOverflow(f.value.gas) ==>
      row.gas == if Negative(f.value.gas) then Int64Min else Int64Max
    ensures |row.raw| <= |f.raw|
    ensures !Occurs(f.raw, NulEscape) ==> row.raw == f.raw
  {
    DeployInfoRow(p.block, f.value.from, f.value.source, Atoi(f.value.gas).value,
                  StripNulOnce(f.raw), Join(f.value.transfers, ", "))
  }

  /** The stored transfer list splits back into the transfers, none of
      which holds a comma. */
  lemma DeployInfoTransfersRoundTrip(p: DeployInfoRawPayload, f: Fetched<RpcDeployInfo>)
    requires |f.value.transfers| >= 1
    requires forall i :: 0 <= i < |f.value.transfers| ==> ',' !in f.value.transfers[i]
    ensures Split(DeployInfoRowOf(p, f).transfers, ", ") == f.value.transfers
  {
    SplitJoin(f.value.transfers, ", ");
  }

  /** A written-contract key "hash-" followed by a key without an 'h' (a
      hexadecimal one) becomes that key. */
  lemma StripHashPrefix(x: string)
    requires 'h' !in x
    ensures RemoveAll(HashPrefix + x, HashPrefix) == x
  {
    assert (HashPrefix + x)[..|HashPrefix|] == HashPrefix;
    assert (HashPrefix + x)[|HashPrefix|..] == x;
    RemoveAllNoStart(x, HashPrefix);
  }

  lemma {:induction false} ContractTasksLayout(hashes: seq<string>, deployHash: string, from: string)
    ensures |ContractTasks(hashes, deployHash, from)| == |hashes|
    ensures forall i :: 0 <= i < |hashes| ==>
      ContractTasks(hashes, deployHash, from)[i] == ContractTask(RemoveAll(hashes[i], HashPrefix), deployHash, from)
    decreases |hashes|
  {
    if hashes != [] {
      ContractTasksLayout(hashes[1..], deployHash, from);
      forall i | 1 <= i < |hashes|
        ensures ContractTasks(hashes, deployHash, from)[i] == ContractTask(RemoveAll(hashes[i], HashPrefix), deployHash, from)
      {
        assert hashes[i] == hashes[1..][i - 1];
      }
    }
  }

  lemma {:induction false} PackageTasksLayout(hashes: seq<string>, deployHash: string, from: string)
    ensures |PackageTasks(hashes, deployHash, from)| == |hashes|
    ensures forall i :: 0 <= i < |hashes| ==>
      PackageTasks(hashes, deployHash, from)[i] == PackageTask(RemoveAll(hashes[i], HashPrefix), deployHash, from)
    decreases |hashes|
  {
    if hashes != [] {
      PackageTasksLayout(hashes[1..], deployHash, from);
      forall i | 1 <= i < |hashes|
        ensures PackageTasks(hashes, deployHash, from)[i] == PackageTask(RemoveAll(hashes[i], HashPrefix), deployHash, from)
      {
        assert hashes[i] == hashes[1..][i - 1];
      }
    }
  }

  /** The fresh-deploy fan-out: the signer's account task first, then one
      task per written contract in order, then one per written package, all
      carrying the deploy's hash and signer. */
  lemma DeployChildrenLayout(d: RpcDeploy)
    ensures var r := DeployChildren(d);
      var nc := |d.writeContracts|;
      |r| == 1 + nc + |d.writeContractPackages| &&
      r[0] == AccountTask(d.account) &&
      (forall i :: 0 <= i < nc ==>
        r[1 + i] == ContractTask(RemoveAll(d.writeContracts[i], HashPrefix), d.hash, d.account)) &&
      (forall j :: 0 <= j < |d.writeContractPackages| ==>
        r[1 + nc + j] == PackageTask(RemoveAll(d.writeContractPackages[j], HashPrefix), d.hash, d.account))
  {
    ContractTasksLayout(d.writeContracts, d.hash, d.account);
    PackageTasksLayout(d.writeContractPackages, d.hash, d.account);
  }

  /** The refresh fan-out: the packages first, then the contracts, the
      reverse of the fresh-deploy order; the same tasks save the account. */
  lemma KnownChildrenLayout(d: RpcDeploy)
    ensures var r := KnownChildren(d);
      var np := |d.writeContractPackages|;
      |r| == np + |d.writeContracts| &&
      (forall j :: 0 <= j < np ==>
        r[j] == PackageTask(RemoveAll(d.writeContractPackages[j], HashPrefix), d.hash, d.account)) &&
      (forall i :: 0 <= i < |d.writeContracts| ==>
        r[np + i] == ContractTask(RemoveAll(d.writeContracts[i], HashPrefix), d.hash, d.account))
    ensures multiset(KnownChildren(d)) + multiset{AccountTask(d.account)} == multiset(DeployChildren(d))
  {
    ContractTasksLayout(d.writeContracts, d.hash, d.account);
    PackageTasksLayout(d.writeContractPackages, d.hash, d.account);
  }

  /** One transfer task per listed transfer, in list order, each with the
      deploy-info hash as its deploy. */
  lemma {:induction false} TransferTasksLayout(transfers: seq<string>, p: DeployInfoRawPayload)
    ensures |TransferTasks(transfers, p)| == |transfers|
    ensures forall i :: 0 <= i < |transfers| ==>
      TransferTasks(transfers, p)[i] ==
        Task("transfers", TransferRaw(TransferRawPayload(transfers[i], p.block, p.deployInfoHash, p.stateRootHash)))
    decreases |transfers|
  {
    if transfers != [] {
      TransferTasksLayout(transfers[1..], p);
      forall i | 1 <= i < |transfers|
        ensures TransferTasks(transfers, p)[i] ==
          Task("transfers", TransferRaw(TransferRawPayload(transfers[i], p.block, p.deployInfoHash, p.stateRootHash)))
      {
        assert transfers[i] == transfers[1..][i - 1];
      }
    }
  }

  /** Fetch the deploy, derive its execution summary, store it under its
      own hash, then fan out. An empty list of execution results makes the
      row's block lookup index out of range. */
  method HandleDeployRawTask(db: Store, q: TaskQueue, chain: Endpoint, p: Option<DeployRawPayload>)
    returns (out: Outcome)
    modifies db, q
    ensures p.None? ==> out == Err(Unmarshal) && unchanged(db, q)
    ensures p.Some? && p.value.deployHash !in chain.deploys ==> out == Err(Fetch) && unchanged(db, q)
    ensures p.Some? && p.value.deployHash in chain.deploys ==>
      var f := chain.deploys[p.value.deployHash];
      var d := f.value;
      if d.summary.None? then out == Err(BadExecutionResult) && unchanged(db, q)
      else if |d.executionBlocks| == 0 then out == Panic && unchanged(db, q)
      else if InsertDeployOp in db.failing then out == Err(Persist(InsertDeployOp)) && unchanged(db, q)
      else
        var dv := Deliver(DeployChildren(d), q.down);
        db.tables == old(db.tables).(deploys := old(db.tables).deploys[d.hash := DeployRowOf(d, f.raw)]) &&
        q.tasks == old(q.tasks) + dv.sent &&
        out == if dv.fatal then Fatal else Ok
  {
    if p.None? {
      return Err(Unmarshal);
    }
    if p.value.deployHash !in chain.deploys {
      return Err(Fetch);
    }
    var f := chain.deploys[p.value.deployHash];
    var d := f.value;
    if d.summary.None? {
      return Err(BadExecutionResult);
    }
    var jsonString := StripNulOnce(f.raw);
    if |d.executionBlocks| == 0 {
      return Panic;
    }
    var row := DeployRowOf(d, f.raw);
    assert row.raw == jsonString;
    var ok := db.InsertDeploy(d.hash, row);
    if !ok {
      return Err(Persist(InsertDeployOp));
    }
    var fatal := q.SubmitAll(DeployChildren(d));
    return if fatal then Fatal else Ok;
  }

  /** Fetch the deploy info by state root and hash. When that fails, write
      the sentinel row and report the fetch error (or the write's). Else
      store the row (whatever becomes of its gas) and queue its transfers. */
  method HandleDeployInfoRawTask(db: Store, q: TaskQueue, chain: Endpoint, p: Option<DeployInfoRawPayload>)
    returns (out: Outcome)
    modifies db, q
    ensures p.None? ==> out == Err(Unmarshal) && unchanged(db, q)
    ensures p.Some? && (p.value.stateRootHash, p.value.deployInfoHash) !in chain.deployInfos ==>
      q.tasks == old(q.tasks) &&
      if InsertDeployInfoOp in db.failing
      then out == Err(Persist(InsertDeployInfoOp)) && db.tables == old(db.tables)
      else (out == Err(Fetch) &&
        db.tables == old(db.tables).(deployInfos :=
          old(db.tables).deployInfos[p.value.deployInfoHash := SentinelRow(p.value.block)]))
    ensures p.Some? && (p.value.stateRootHash, p.value.deployInfoHash) in chain.deployInfos ==>
      var f := chain.deployInfos[(p.value.stateRootHash, p.value.deployInfoHash)];
      if InsertDeployInfoOp in db.failing then out == Err(Persist(InsertDeployInfoOp)) && unchanged(db, q)
      else
        var dv := Deliver(TransferTasks(f.value.transfers, p.value), q.down);
        db.tables == old(db.tables).(deployInfos :=
          old(db.tables).deployInfos[p.value.deployInfoHash := DeployInfoRowOf(p.value, f)]) &&
        q.tasks == old(q.tasks) + dv.sent &&
        out == if dv.fatal then Fatal else Ok
  {
    if p.None? {
      return Err(Unmarshal);
    }
    var pl := p.value;
    if (pl.stateRootHash, pl.deployInfoHash) !in chain.deployInfos {
      var okSentinel := db.InsertDeployInfo(pl.deployInfoHash, SentinelRow(pl.block));
      return if okSentinel then Err(Fetch) else Err(Persist(InsertDeployInfoOp));
    }
    var f := chain.deployInfos[(pl.stateRootHash, pl.deployInfoHash)];
    var strTransfers := Join(f.value.transfers, ", ");
    var jsonString := StripNulOnce(f.raw);
    var gas := Atoi(f.value.gas).value;
    var ok := db.InsertDeployInfo(pl.deployInfoHash,
      DeployInfoRow(pl.block, f.value.from, f.value.source, gas, jsonString, strTransfers));
    if !ok {
      return Err(Persist(InsertDeployInfoOp));
    }
    var fatal := q.SubmitAll(TransferTasks(f.value.transfers, pl));
    return if fatal then Fatal else Ok;
  }

  /** Read the deploy back from the store and decode it again. Only when it
      now has metadata: rewrite its row (keeping the stored raw response)
      and fan out its packages, then its contracts. */
  method HandleDeployKnownTask(db: Store, q: TaskQueue, decode: string -> Option<RpcDeploy>, p: Option<DeployKnownPayload>)
    returns (out: Outcome)
    modifies db, q
    ensures p.None? ==> out == Err(Unmarshal) && unchanged(db, q)
    ensures p.Some? && old(db.GetDeploy(p.value.deployHash, decode)).Failure? ==>
      out == Err(old(db.GetDeploy(p.value.deployHash, decode)).error) && unchanged(db, q)
    ensures p.Some? && old(db.GetDeploy(p.value.deployHash, decode)).Success? ==>
      var d := old(db.GetDeploy(p.value.deployHash, decode)).value;
      if d.summary.None? then out == Err(BadExecutionResult) && unchanged(db, q)
      else if d.metadata == "" then out == Ok && unchanged(db, q)
      else if |d.executionBlocks| == 0 then out == Panic && unchanged(db, q)
      else if UpdateDeployOp in db.failing then out == Err(Persist(UpdateDeployOp)) && unchanged(db, q)
      else
        var dv := Deliver(KnownChildren(d), q.down);
        db.tables == (if d.hash in old(db.tables).deploys
          then old(db.tables).(deploys := old(db.tables).deploys[d.hash :=
            DeployRowOf(d, "").(raw := old(db.tables).deploys[d.hash].raw)])
          else old(db.tables)) &&
        q.tasks == old(q.tasks) + dv.sent &&
        out == if dv.fatal then Fatal else Ok
  {
    if p.None? {
      return Err(Unmarshal);
    }
    var stored := db.GetDeploy(p.value.deployHash, decode);
    if stored.Failure? {
      return Err(stored.error);
    }
    var d := stored.value;
    if d.summary.None? {
      return Err(BadExecutionResult);
    }
    if d.metadata != "" {
      if |d.executionBlocks| == 0 {
        return Panic;
      }
      var ok := db.UpdateDeploy(d.hash, DeployRowOf(d, ""));
      if !ok {
        return Err(Persist(UpdateDeployOp));
      }
      var fatal := q.SubmitAll(KnownChildren(d));
      if fatal {
        return Fatal;
      }
    }
    return Ok;
  }
}
