/** The store class at work: whatever is asked of a new KVStore, in whatever order,
    its flat map and its log go through a session of module StoreRuns. */
module Sessions {
  import opened Entries
  import opened Shards
  import opened WalRecord
  import opened Store
  import opened StoreRuns
  import StoreLimits

  /** `logged` is the outcome of the log append. */
  datatype Call =
    | Set(key: Key, e: Entry, logged: bool)
    | Delete(key: Key, logged: bool)
    | Get(key: Key)
    | Sweep
    | Compact(unflushed: nat)

  datatype Request = Request(at: int, call: Call)

  predicate Loggable(call: Call) {
    match call
    case Set(key, e, logged) => Storable(SetRecord(key, e))
    case Delete(key, logged) => Storable(DeleteRecord(key))
    case _ => true
  }

  /** The clock does not go back. */
  predicate WellTimed(start: int, requests: seq<Request>) {
    && (forall i :: 0 <= i < |requests| ==> start <= requests[i].at)
    && (forall i, j :: 0 <= i < j < |requests| ==> requests[i].at <= requests[j].at)
  }

  ghost predicate Shows(kv: KVStore, cfg: Config, s: Db)
    reads kv
  {
    && kv.hash == cfg.hash && |kv.shards| == cfg.shards && kv.policy == cfg.policy && kv.budget == cfg.budget
    && kv.flat == s.mem && kv.log == s.log
  }

  method Handle(kv: KVStore, ghost cfg: Config, r: Request, ghost s: Db) returns (ghost s': Db)
    requires kv.Valid() && Shows(kv, cfg, s) && s.clock <= r.at
    modifies kv, kv.shards, kv.Lists()
    ensures kv.Valid() && Shows(kv, cfg, s') && s'.clock == r.at && StaysUp(cfg, s, s')
    ensures AllFit(s) && Loggable(r.call) ==> AllFit(s')
  {
    ghost var step := Idle;
    s' := s.(clock := r.at);
    match r.call {
      case Set(key, e, logged) =>
        assert kv.shards[kv.Slot(key)].lru in kv.Lists();
        var res := kv.SetWithExpiry(key, e, logged);
        if logged {
          step := Step.Set(key, e, res == Stored);
          s' := Db(kv.flat, kv.log, r.at, HiddenAfterSet(s.mem, s.hidden, key, e, res == Stored, kv.flat));
        }
      case Delete(key, logged) =>
        assert kv.shards[kv.Slot(key)].lru in kv.Lists();
        var res := kv.Delete(key, logged);
        if logged {
          step := Step.Delete(key);
          s' := Db(kv.flat, kv.log, r.at, s.hidden - {key});
        }
      case Get(key) =>
        assert kv.shards[kv.Slot(key)].lru in kv.Lists();
        var res := kv.Get(key, r.at);
      case Sweep =>
        kv.Sweep(r.at);
        step := Step.Sweep;
        s' := Db(kv.flat, kv.log, r.at, s.hidden);
      case Compact(unflushed) =>
        var pending := Min(unflushed, |kv.log|);
        var snap := kv.Compact(r.at, pending);
        step := Step.Compact(snap, pending);
        s' := Db(kv.flat, kv.log, r.at, StillPending(s.hidden, s.log[|s.log| - pending..]));
    }
    assert Steps(cfg, s, step, r.at, s');
    if AllFit(s) && Loggable(r.call) {
      StepKeepsFit(cfg, s, step, r.at, s');
    }
  }

  lemma SessionGrows(cfg: Config, run: seq<Db>, s': Db)
    requires IsSession(cfg, run) && StaysUp(cfg, run[|run| - 1], s')
    ensures IsSession(cfg, run + [s'])
  {
    var run' := run + [s'];
    forall i | 0 <= i < |run'| - 1
      ensures UpAt(cfg, run', i)
    {
      assert i < |run| - 1 ==> UpAt(cfg, run, i);
    }
  }

  /** Every sequence of requests to a new store is a session. Its log fits its fields
      if every request does, and under NoEvict it ends within the configured cap. */
  method Serve(hash: Key -> nat, policy: Policy, maxMemory: int, shardCount: pos, start: int, requests: seq<Request>)
    returns (kv: KVStore, ghost cfg: Config, ghost run: seq<Db>)
    requires WellTimed(start, requests)
    ensures cfg == Config(hash, shardCount, policy, ShardBudget(maxMemory, shardCount))
    ensures kv.Valid() && IsSession(cfg, run) && |run| == |requests| + 1 && Shows(kv, cfg, run[|requests|])
    ensures run[0] == Db(map[], [], start, map[])
    ensures (forall i :: 0 <= i < |requests| ==> Loggable(requests[i].call)) ==> AllFit(run[|requests|])
    ensures policy == NoEvict && shardCount <= maxMemory ==> Total(kv.flat) <= maxMemory
  {
    kv := new KVStore(hash, policy, maxMemory, shardCount);
    cfg := Config(hash, shardCount, policy, ShardBudget(maxMemory, shardCount));
    run := [Db(map[], [], start, map[])];
    for i := 0 to |requests|
      invariant fresh(kv) && fresh(kv.shards) && fresh(kv.Lists()) && kv.Valid()
      invariant |run| == i + 1 && IsSession(cfg, run) && Shows(kv, cfg, run[i])
      invariant run[0] == Db(map[], [], start, map[])
      invariant i < |requests| ==> run[i].clock <= requests[i].at
      invariant (forall j :: 0 <= j < i ==> Loggable(requests[j].call)) ==> AllFit(run[i])
    {
      ghost var s' := Handle(kv, cfg, requests[i], run[i]);
      SessionGrows(cfg, run, s');
      run := run + [s'];
    }
    if policy == NoEvict && shardCount <= maxMemory {
      StoreLimits.EmptyFits(cfg);
      StoreLimits.CapHolds(cfg, maxMemory, run, |requests|);
    }
  }
}
