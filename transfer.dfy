/** The transfer handlers: store a fetched transfer with its amounts
    converted to integers, then queue the account hashes of its two sides. */
module TransferTasks {
  import opened Outcomes
  import opened Text
  import opened Tasks
  import opened Chain
  import opened Storage
  import opened BlockTasks

  const AccountHashPrefix: string := "account-hash-"

  function AccountHashTask(hash: string): Task
  {
    Task("accounts", AccountHash(hash))
  }

  /** The transfer row: amount and gas as the integers they spell, the id as
      its decimal text, the raw response after one pass that removes the NUL
      escapes it finds. */
  function TransferRowOf(p: TransferRawPayload, f: Fetched<RpcTransfer>): (row: TransferRow)
    requires Atoi(f.value.amount).ok && Atoi(f.value.gas).ok
    ensures Some(row.amount) == ParseDecimal(f.value.amount)
    ensures Some(row.gas) == ParseDecimal(f.value.gas)
    ensures ParseDecimal(row.id) == Some(f.value.id)
    ensures |row.raw| <= |f.raw|
    ensures !Occurs(f.raw, NulEscape) ==> row.raw == f.raw
  {
    ParseIntToString(f.value.id);
    var t := f.value;
    TransferRow(p.block, p.deploy, t.from, t.to, t.source, t.target,
                Atoi(t.amount).value, Atoi(t.gas).value, StripNulOnce(f.raw), IntToString(t.id))
  }

  /** Only one leading "account-hash-" is removed: a bare hash is kept, a
      prefixed one loses the prefix once, a doubled prefix keeps one. */
  lemma AccountHashKey(h: string)
    ensures !(AccountHashPrefix <= h) ==> TrimPrefix(h, AccountHashPrefix) == h
    ensures TrimPrefix(AccountHashPrefix + h, AccountHashPrefix) == h
    ensures TrimPrefix(AccountHashPrefix + AccountHashPrefix + h, AccountHashPrefix) == AccountHashPrefix + h
  {
    TrimPrefixOnce(AccountHashPrefix, h);
  }

  /** The transfer payload built from a deploy info does not depend on the
      deploy timestamp handed to it. */
  lemma TransferTaskDropsTimestamp(hash: string, blockHash: string, deployHash: string, ts1: string, ts2: string, stateRootHash: string)
    ensures TransferTask(hash, blockHash, deployHash, ts1, stateRootHash) ==
            TransferTask(hash, blockHash, deployHash, ts2, stateRootHash)
  {
  }

  /** Fetch the transfer by state root and hash; both amounts must be
      integers before anything is stored; once stored, queue the sender's
      account hash, then the receiver's. */
  method HandleTransferRawTask(db: Store, q: TaskQueue, chain: Endpoint, p: Option<TransferRawPayload>)
    returns (out: Outcome)
    modifies db, q
    ensures p.None? ==> out == Err(Unmarshal) && unchanged(db, q)
    ensures p.Some? && (p.value.stateRootHash, p.value.transferHash) !in chain.transfers ==>
      out == Err(Fetch) && unchanged(db, q)
    ensures p.Some? && (p.value.stateRootHash, p.value.transferHash) in chain.transfers ==>
      var f := chain.transfers[(p.value.stateRootHash, p.value.transferHash)];
      var t := f.value;
      if !Atoi(t.amount).ok then out == Err(BadNumber(t.amount)) && unchanged(db, q)
      else if !Atoi(t.gas).ok then out == Err(BadNumber(t.gas)) && unchanged(db, q)
      else if InsertTransferOp in db.failing then out == Err(Persist(InsertTransferOp)) && unchanged(db, q)
      else
        db.tables == old(db.tables).(transfers :=
          old(db.tables).transfers[p.value.transferHash := TransferRowOf(p.value, f)]) &&
        if "accounts" in q.down then out == Fatal && q.tasks == old(q.tasks)
        else out == Ok && q.tasks == old(q.tasks) + [
          AccountHashTask(TrimPrefix(t.from, AccountHashPrefix)),
          AccountHashTask(TrimPrefix(t.to, AccountHashPrefix))]
  {
    if p.None? {
      return Err(Unmarshal);
    }
    var pl := p.value;
    if (pl.stateRootHash, pl.transferHash) !in chain.transfers {
      return Err(Fetch);
    }
    var f := chain.transfers[(pl.stateRootHash, pl.transferHash)];
    var t := f.value;
    var amount := Atoi(t.amount);
    if !amount.ok {
      return Err(BadNumber(t.amount));
    }
    var gas := Atoi(t.gas);
    if !gas.ok {
      return Err(BadNumber(t.gas));
    }
    var ok := db.InsertTransfer(pl.transferHash, TransferRowOf(pl, f));
    if !ok {
      return Err(Persist(InsertTransferOp));
    }
    var fatal := q.Submit(AccountHashTask(TrimPrefix(t.from, AccountHashPrefix)));
    if fatal {
      return Fatal;
    }
    fatal := q.Submit(AccountHashTask(TrimPrefix(t.to, AccountHashPrefix)));
    if fatal {
      return Fatal;
    }
    return Ok;
  }

  /** The refresh of a stored transfer does nothing and always succeeds. */
  method HandleTransferKnownTask(db: Store, q: TaskQueue) returns (out: Outcome)
    ensures out == Ok
  {
    return Ok;
  }
}
