/** Task kinds: payload shapes, the record handed to the queue
    engine, and the queue engine itself reduced to the sequence of tasks it
    has accepted. */
module Tasks {

  datatype BlockRawPayload = BlockRawPayload(blockHeight: int)
  datatype BlockVerifyPayload = BlockVerifyPayload(blockHash: string)
  datatype DeployRawPayload = DeployRawPayload(deployHash: string)
  datatype DeployKnownPayload = DeployKnownPayload(deployHash: string)
  datatype DeployInfoRawPayload =
    DeployInfoRawPayload(deployInfoHash: string, block: string, stateRootHash: string, deployTimestamp: string)
  datatype TransferRawPayload =
    TransferRawPayload(transferHash: string, block: string, deploy: string, stateRootHash: string)
  datatype AuctionEraPayload = AuctionEraPayload(blockIdentifier: int)

  /** A task's kind together with its payload. The kinds whose payload
      structs live in files outside this model (reward, account, contract)
      carry the arguments their constructors are given. */
  datatype Payload =
    | BlockRaw(blockRaw: BlockRawPayload)
    | BlockVerify(blockVerify: BlockVerifyPayload)
    | DeployRaw(deployRaw: DeployRawPayload)
    | DeployKnown(deployKnown: DeployKnownPayload)
    | DeployInfoRaw(deployInfoRaw: DeployInfoRawPayload)
    | TransferRaw(transferRaw: TransferRawPayload)
    | Auction
    | AuctionEra(auctionEra: AuctionEraPayload)
    | Reward(eraBlockHash: string)
    | Account(publicKey: string)
    | AccountHash(accountHash: string)
    | ContractRaw(contractHash: string, contractDeploy: string, contractFrom: string)
    | ContractPackageRaw(packageHash: string, packageDeploy: string, packageFrom: string)

  /** A task as enqueued: the destination queue and the payload. */
  datatype Task = Task(queue: string, payload: Payload)

  /** The one enqueue helper that only logs a failure and lets the handler
      go on is the one for auction-era tasks; every other one exits. */
  predicate Lenient(t: Task)
  {
    t.payload.AuctionEra?
  }

  /** The outcome of enqueueing a list of tasks one after the other: the
      tasks the engine accepted, and whether an enqueue failure ended the
      process. */
  datatype Delivery = Delivery(sent: seq<Task>, fatal: bool)

  /** Enqueue `ts` in order while the queues in `down` are unreachable. */
  function Deliver(ts: seq<Task>, down: set<string>): Delivery
    decreases |ts|
  {
    if ts == [] then Delivery([], false)
    else if ts[0].queue in down then
      if Lenient(ts[0]) then Deliver(ts[1..], down) else Delivery([], true)
    else
      var rest := Deliver(ts[1..], down);
      Delivery([ts[0]] + rest.sent, rest.fatal)
  }

  /** Delivering two lists one after the other. */
  function Then(a: Delivery, b: Delivery): Delivery
  {
    if a.fatal then a else Delivery(a.sent + b.sent, b.fatal)
  }

  lemma {:induction false} DeliverAppend(a: seq<Task>, b: seq<Task>, down: set<string>)
    ensures Deliver(a + b, down) == Then(Deliver(a, down), Deliver(b, down))
    decreases |a|
  {
    if a != [] {
      assert (a + b)[1..] == a[1..] + b;
      DeliverAppend(a[1..], b, down);
    } else {
      assert a + b == b;
    }
  }

  /** With every destination reachable, every task is enqueued, in order. */
  lemma {:induction false} DeliverAllUp(ts: seq<Task>, down: set<string>)
    requires forall i :: 0 <= i < |ts| ==> ts[i].queue !in down
    ensures Deliver(ts, down) == Delivery(ts, false)
    decreases |ts|
  {
    if ts != [] {
      DeliverAllUp(ts[1..], down);
      assert [ts[0]] + ts[1..] == ts;
    }
  }

  /** The process survives exactly when no task that must be delivered has
      an unreachable destination; every accepted task is one of the list's
      and went to a reachable queue. */
  lemma {:induction false} DeliverFatal(ts: seq<Task>, down: set<string>)
    ensures !Deliver(ts, down).fatal <==>
      forall i :: 0 <= i < |ts| && ts[i].queue in down ==> Lenient(ts[i])
    ensures forall t :: t in Deliver(ts, down).sent ==> t in ts && t.queue !in down
    ensures |Deliver(ts, down).sent| <= |ts|
    decreases |ts|
  {
    if ts != [] {
      DeliverFatal(ts[1..], down);
      if ts[0].queue !in down || Lenient(ts[0]) {
        forall i | 1 <= i < |ts| ensures ts[i] == ts[1..][i - 1] { }
      }
    }
  }

  /** One more enqueue after a list that went through: it is accepted
      when its queue is reachable; otherwise a lenient task is dropped, and
      any other one ends the process, whatever was still to come. */
  lemma DeliverStep(pre: seq<Task>, t: Task, post: seq<Task>, down: set<string>)
    requires !Deliver(pre, down).fatal
    ensures t.queue !in down ==>
      Deliver(pre + [t], down) == Delivery(Deliver(pre, down).sent + [t], false)
    ensures t.queue in down && Lenient(t) ==> Deliver(pre + [t], down) == Deliver(pre, down)
    ensures t.queue in down && !Lenient(t) ==>
      Deliver(pre + [t] + post, down) == Delivery(Deliver(pre, down).sent, true)
  {
    DeliverAppend(pre, [t], down);
    DeliverAppend(pre + [t], post, down);
    assert Deliver([t], down) == if t.queue in down && Lenient(t) then Delivery([], false)
      else if t.queue in down then Delivery([], true) else Delivery([t], false);
  }

  /** The queue engine: the tasks it has accepted, and the queues it cannot
      reach (an enqueue to one of those fails). */
  class TaskQueue {
    var tasks: seq<Task>
    const down: set<string>

    constructor (down: set<string>)
      ensures tasks == [] && this.down == down
    {
      tasks := [];
      this.down := down;
    }

    method Enqueue(t: Task) returns (ok: bool)
      modifies this
      ensures ok == (t.queue !in down)
      ensures tasks == if ok then old(tasks) + [t] else old(tasks)
    {
      ok := t.queue !in down;
      if ok {
        tasks := tasks + [t];
      }
    }

    /** The enqueue helpers: build a task, enqueue it, and on failure
        either log and go on (auction-era tasks) or end the process. */
    method Submit(t: Task) returns (fatal: bool)
      modifies this
      ensures fatal == (t.queue in down && !Lenient(t))
      ensures tasks == if t.queue in down then old(tasks) else old(tasks) + [t]
    {
      var ok := Enqueue(t);
      fatal := !ok && !Lenient(t);
    }

    /** Hand `ts` to the enqueue helpers one by one, stopping at the first
        failure that ends the process. */
    method SubmitAll(ts: seq<Task>) returns (fatal: bool)
      modifies this
      ensures tasks == old(tasks) + Deliver(ts, down).sent
      ensures fatal == Deliver(ts, down).fatal
    {
      var i := 0;
      while i < |ts|
        invariant 0 <= i <= |ts|
        invariant tasks == old(tasks) + Deliver(ts[..i], down).sent
        invariant !Deliver(ts[..i], down).fatal
      {
        assert ts == ts[..i] + [ts[i]] + ts[i + 1..];
        DeliverStep(ts[..i], ts[i], ts[i + 1..], down);
        fatal := Submit(ts[i]);
        if fatal {
          return;
        }
        assert ts[..i + 1] == ts[..i] + [ts[i]];
        i := i + 1;
      }
      assert ts[..i] == ts;
      fatal := false;
    }
  }
}
