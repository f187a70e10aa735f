/** The worker's queue configuration: nine queues at priority 1 unless the
    queues flag is given, in which case the flag's (name, priority) pairs
    replace them after validation. Each validation failure ends the process;
    here it is an error value. */
module Worker {
  import opened Text

  /** The defaults: every queue the handlers use, each at priority 1. */
  const Defaults: map<string, int> := map[
    "blocks" := 1, "deploys" := 1, "deployinfos" := 1, "transfers" := 1, "contracts" := 1,
    "era" := 1, "auction" := 1, "auctionera" := 1, "accounts" := 1]

  /** The names the flag accepts. "accounts" is not among them, although
      the error message lists it. */
  const FlagQueues: set<string> := {
    "blocks", "deploys", "deployinfos", "transfers", "contracts", "era", "auction", "auctionera"}

  datatype ConfigError = OddLength | UnknownQueue(name: string) | BadPriority(text: string)

  datatype QueueConfig = Queues(priorities: map<string, int>) | ConfigFailed(error: ConfigError)

  /** The name and the priority text of the k-th pair. */
  function NameAt(qs: seq<string>, k: int): string
    requires 0 <= 2 * k + 1 < |qs|
  {
    qs[2 * k]
  }

  function PriorityAt(qs: seq<string>, k: int): string
    requires 0 <= 2 * k + 1 < |qs|
  {
    qs[2 * k + 1]
  }

  /** The pairs read in order into a fresh map, stopping at the first
      unknown name or unreadable priority. */
  function PairsConfig(qs: seq<string>): QueueConfig
    requires |qs| % 2 == 0
    decreases |qs|
  {
    if qs == [] then Queues(map[])
    else match PairsConfig(qs[..|qs| - 2])
      case ConfigFailed(e) => ConfigFailed(e)
      case Queues(m) =>
        var name := qs[|qs| - 2];
        var text := qs[|qs| - 1];
        if name !in FlagQueues then ConfigFailed(UnknownQueue(name))
        else if !Atoi(text).ok then ConfigFailed(BadPriority(text))
        else Queues(m[name := Atoi(text).value])
  }

  /** The configuration in force: the defaults, or the flag's pairs. */
  function ConfigOf(flagChanged: bool, qs: seq<string>): QueueConfig
  {
    if !flagChanged then Queues(Defaults)
    else if |qs| % 2 != 0 then ConfigFailed(OddLength)
    else PairsConfig(qs)
  }

  /** The flag handling: check the list's length, then walk it two at a
      time filling a fresh map, which replaces the defaults. */
  method ConfigureQueues(flagChanged: bool, queues: seq<string>) returns (r: QueueConfig)
    ensures r == ConfigOf(flagChanged, queues)
  {
    if !flagChanged {
      return Queues(Defaults);
    }
    if |queues| % 2 != 0 {
      return ConfigFailed(OddLength);
    }
    var queuesMap: map<string, int> := map[];
    var i := 0;
    while i < |queues|
      invariant 0 <= i <= |queues| && i % 2 == 0
      invariant PairsConfig(queues[..i]) == Queues(queuesMap)
    {
      assert queues[..i + 2][..i] == queues[..i];
      assert queues[..i + 2][i] == queues[i] && queues[..i + 2][i + 1] == queues[i + 1];
      if queues[i] !in FlagQueues {
        PairsPrefixFailure(queues, i + 2);
        return ConfigFailed(UnknownQueue(queues[i]));
      }
      var priority := Atoi(queues[i + 1]);
      if !priority.ok {
        PairsPrefixFailure(queues, i + 2);
        return ConfigFailed(BadPriority(queues[i + 1]));
      }
      queuesMap := queuesMap[queues[i] := priority.value];
      i := i + 2;
    }
    assert queues[..i] == queues;
    return Queues(queuesMap);
  }

  lemma {:induction false} PairsPrefixFailure(qs: seq<string>, k: nat)
    requires |qs| % 2 == 0 && k % 2 == 0 && k <= |qs|
    requires PairsConfig(qs[..k]).ConfigFailed?
    ensures PairsConfig(qs) == PairsConfig(qs[..k])
    decreases |qs|
  {
    if k < |qs| {
      var pre := qs[..|qs| - 2];
      assert pre[..k] == qs[..k];
      PairsPrefixFailure(pre, k);
    } else {
      assert qs[..k] == qs;
    }
  }

  /** Without the flag: nine queues, each at priority 1. */
  lemma DefaultsShape()
    ensures Defaults.Keys == FlagQueues + {"accounts"}
    ensures |Defaults| == 9
    ensures forall name :: name in Defaults ==> Defaults[name] == 1
  {
    assert "accounts" !in FlagQueues;
    assert |FlagQueues| == 8;
  }

  /** The flag is accepted exactly when it has an even length, every name
      is one of the accepted ones and every priority is an integer. */
  lemma {:induction false} PairsConfigAccepted(qs: seq<string>)
    requires |qs| % 2 == 0
    ensures PairsConfig(qs).Queues? <==>
      forall k :: 0 <= k < |qs| / 2 ==> NameAt(qs, k) in FlagQueues && Atoi(PriorityAt(qs, k)).ok
    decreases |qs|
  {
    if qs != [] {
      var pre := qs[..|qs| - 2];
      PairsConfigAccepted(pre);
      assert forall k :: 0 <= k < |pre| / 2 ==> NameAt(pre, k) == NameAt(qs, k) && PriorityAt(pre, k) == PriorityAt(qs, k);
      assert NameAt(qs, |pre| / 2) == qs[|qs| - 2] && PriorityAt(qs, |pre| / 2) == qs[|qs| - 1];
    }
  }

  /** An accepted flag yields exactly its names as keys. */
  lemma {:induction false} PairsConfigKeys(qs: seq<string>)
    requires |qs| % 2 == 0 && PairsConfig(qs).Queues?
    ensures PairsConfig(qs).priorities.Keys == set k | 0 <= k < |qs| / 2 :: NameAt(qs, k)
    decreases |qs|
  {
    if qs != [] {
      var pre := qs[..|qs| - 2];
      var n := |qs| / 2;
      PairsConfigKeys(pre);
      assert |pre| / 2 == n - 1;
      forall k | 0 <= k < n - 1
        ensures NameAt(pre, k) == NameAt(qs, k)
      {
      }
      assert NameAt(qs, n - 1) == qs[|qs| - 2];
      assert (set k | 0 <= k < n :: NameAt(qs, k)) == (set k | 0 <= k < n - 1 :: NameAt(pre, k)) + {NameAt(qs, n - 1)};
    }
  }

  /** A name given more than once keeps the priority of its last pair. */
  lemma {:induction false} PairsConfigLastWins(qs: seq<string>, k: int)
    requires |qs| % 2 == 0 && PairsConfig(qs).Queues?
    requires 0 <= k < |qs| / 2
    requires forall l :: k < l < |qs| / 2 ==> NameAt(qs, l) != NameAt(qs, k)
    ensures NameAt(qs, k) in PairsConfig(qs).priorities
    ensures PairsConfig(qs).priorities[NameAt(qs, k)] == Atoi(PriorityAt(qs, k)).value
    decreases |qs|
  {
    var pre := qs[..|qs| - 2];
    var n := |qs| / 2;
    assert NameAt(qs, n - 1) == qs[|qs| - 2] && PriorityAt(qs, n - 1) == qs[|qs| - 1];
    if k < n - 1 {
      assert NameAt(pre, k) == NameAt(qs, k) && PriorityAt(pre, k) == PriorityAt(qs, k);
      forall l | k < l < n - 1
        ensures NameAt(pre, l) != NameAt(pre, k)
      {
        assert NameAt(pre, l) == NameAt(qs, l);
      }
      PairsConfigLastWins(pre, k);
    }
  }

  /** "accounts" is in the defaults but the flag refuses it. */
  lemma AccountsRefused(priority: string)
    ensures "accounts" in Defaults
    ensures ConfigOf(true, ["accounts", priority]) == ConfigFailed(UnknownQueue("accounts"))
  {
    var qs := ["accounts", priority];
    assert qs[..|qs| - 2] == [];
    assert PairsConfig(qs[..|qs| - 2]) == Queues(map[]);
    assert qs[|qs| - 2] == "accounts";
    assert "accounts" !in FlagQueues;
  }

  /** A given flag replaces the defaults: queues it does not name are gone. */
  lemma FlagReplacesDefaults(qs: seq<string>)
    requires ConfigOf(true, qs).Queues?
    ensures forall name :: name in ConfigOf(true, qs).priorities ==> exists k :: 0 <= k < |qs| / 2 && NameAt(qs, k) == name
    ensures "accounts" !in ConfigOf(true, qs).priorities
  {
    assert |qs| % 2 == 0;
    var c := PairsConfig(qs);
    assert ConfigOf(true, qs) == c;
    PairsConfigKeys(qs);
    PairsConfigAccepted(qs);
    assert forall k :: 0 <= k < |qs| / 2 ==> NameAt(qs, k) in FlagQueues;
    assert c.priorities.Keys == set k | 0 <= k < |qs| / 2 :: NameAt(qs, k);
    assert "accounts" !in FlagQueues;
  }

  /** A failure names an odd length, a name outside the accepted ones, or
      a priority text that is not an integer. */
  lemma {:induction false} PairsConfigError(qs: seq<string>)
    requires |qs| % 2 == 0 && PairsConfig(qs).ConfigFailed?
    ensures var e := PairsConfig(qs).error;
      (e.UnknownQueue? && e.name !in FlagQueues &&
        exists k :: 0 <= k < |qs| / 2 && NameAt(qs, k) == e.name) ||
      (e.BadPriority? && !Atoi(e.text).ok &&
        exists k :: 0 <= k < |qs| / 2 && PriorityAt(qs, k) == e.text)
    decreases |qs|
  {
    var pre := qs[..|qs| - 2];
    var n := |qs| / 2;
    assert NameAt(qs, n - 1) == qs[|qs| - 2] && PriorityAt(qs, n - 1) == qs[|qs| - 1];
    if PairsConfig(pre).ConfigFailed? {
      PairsConfigError(pre);
      assert forall k :: 0 <= k < n - 1 ==> NameAt(pre, k) == NameAt(qs, k) && PriorityAt(pre, k) == PriorityAt(qs, k);
    }
  }
}
