/** The sharded store (storage/store/kv_store.go, kv_store_util.go): a write goes
    to the log first, then to the shard its key hashes to. */
module Store {
  import opened Bytes
  import opened Entries
  import opened Lru
  import opened Shards
  import opened WalRecord
  import opened Reader
  import opened Recovery

  datatype SetResult = Stored | MemoryFull | LogFailed
  datatype GetResult = Found(value: seq<byte>) | NotFound
  datatype DeleteResult = Deleted | KeyNotFound | DeleteLogFailed

  function SetRecord(key: Key, e: Entry): Record {
    Record(OP_SET, key.chars, e.value, e.expiredAt)
  }

  function DeleteRecord(key: Key): Record {
    Record(OP_DELETE, key.chars, [], 0)
  }

  /** What a set comes to on the flat map, whatever the shards: without a budget it is a plain update. */
  ghost predicate FlatSet(
    policy: Policy, budget: nat, m: map<Key, Entry>, key: Key, e: Entry, ok: bool, m': map<Key, Entry>)
  {
    && (ok ==> key in m' && m'[key] == e && Submap(m' - {key}, m - {key}))
    && (!ok ==> m' == m && policy == NoEvict && budget > 0)
    && (budget == 0 || policy == NoEvict ==> m' == if ok then m[key := e] else m)
  }

  /** The budget of each shard; 0 means unlimited. */
  function ShardBudget(maxMemory: int, shardCount: nat): nat
    requires shardCount > 0
  {
    if maxMemory > 0 then maxMemory / shardCount else 0
  }

  /** The entries of the flat map that live in shard `i` of `n`. */
  function Part(hash: Key -> nat, n: nat, i: nat, m: map<Key, Entry>): map<Key, Entry>
    requires n > 0
  {
    map k | k in m && hash(k) % n == i :: m[k]
  }

  /** What one set may do to the entries `d` of a shard, under some recency list of theirs. */
  ghost predicate SetsShard(
    policy: Policy, budget: nat, d: map<Key, Entry>, key: Key, e: Entry, ok: bool, d': map<Key, Entry>)
  {
    exists o, o' :: (policy == Strict ==> KeySet(o) == d.Keys) && SetDone(policy, budget, o, d, key, e, ok, o', d')
  }

  /** A set, seen on the flat map: the key's own shard does what its policy says, the others nothing. */
  ghost predicate StoreSet(
    hash: Key -> nat, n: nat, policy: Policy, budget: nat,
    m: map<Key, Entry>, key: Key, e: Entry, ok: bool, m': map<Key, Entry>)
    requires n > 0
  {
    var i := hash(key) % n;
    && SetsShard(policy, budget, Part(hash, n, i, m), key, e, ok, Part(hash, n, i, m'))
    && m' == Swap(m, Part(hash, n, i, m), Part(hash, n, i, m'))
  }

  /** Swap one shard's entries in the flat map. */
  function Swap(flat: map<Key, Entry>, before: map<Key, Entry>, after: map<Key, Entry>): map<Key, Entry> {
    (flat - before.Keys) + after
  }

  /** Shard `i` of `n` holds exactly the flat map's entries for the keys that hash to it. */
  ghost predicate Placed(hash: Key -> nat, n: nat, i: nat, data: map<Key, Entry>, flat: map<Key, Entry>)
    requires n > 0
  {
    && (forall k :: k in data ==> hash(k) % n == i && k in flat && flat[k] == data[k])
    && (forall k :: k in flat && hash(k) % n == i ==> k in data)
  }

  ghost predicate AllHashTo(hash: Key -> nat, n: nat, i: nat, data: map<Key, Entry>)
    requires n > 0
  {
    forall k :: k in data ==> hash(k) % n == i
  }

  lemma SwapHere(hash: Key -> nat, n: nat, i: nat, m: map<Key, Entry>, m': map<Key, Entry>, flat: map<Key, Entry>)
    requires n > 0 && Placed(hash, n, i, m, flat) && AllHashTo(hash, n, i, m')
    ensures Placed(hash, n, i, m', Swap(flat, m, m'))
  {
  }

  lemma SwapElsewhere(
    hash: Key -> nat, n: nat, i: nat, m: map<Key, Entry>, m': map<Key, Entry>, flat: map<Key, Entry>,
    j: nat, d: map<Key, Entry>)
    requires n > 0 && Placed(hash, n, i, m, flat) && AllHashTo(hash, n, i, m')
    requires j != i && Placed(hash, n, j, d, flat)
    ensures Placed(hash, n, j, d, Swap(flat, m, m'))
  {
  }

  /** A set on one shard is a set on the flat map. */
  lemma ShardSetIsFlatSet(
    hash: Key -> nat, n: nat, i: nat, policy: Policy, budget: nat, o: seq<Key>, m: map<Key, Entry>, flat: map<Key, Entry>,
    key: Key, e: Entry, ok: bool, o': seq<Key>, m': map<Key, Entry>)
    requires n > 0 && Placed(hash, n, i, m, flat) && hash(key) % n == i
    requires SetDone(policy, budget, o, m, key, e, ok, o', m')
    requires policy == Strict ==> KeySet(o) == m.Keys
    ensures AllHashTo(hash, n, i, m')
    ensures FlatSet(policy, budget, flat, key, e, ok, Swap(flat, m, m'))
  {
    SetKeepsOthers(policy, budget, o, m, key, e, ok, o', m');
    SetWithoutEviction(policy, budget, o, m, key, e, ok, o', m');
    SwapAfterSet(hash, n, i, m, flat, key, e);
    if ok {
      SwapKeepsOthers(hash, n, i, m, flat, key, m');
    }
  }

  lemma PlacedIsPart(hash: Key -> nat, n: nat, i: nat, data: map<Key, Entry>, flat: map<Key, Entry>)
    requires n > 0
    ensures Placed(hash, n, i, data, flat) <==> data == Part(hash, n, i, flat)
  {
  }

  lemma ShardSetIsStoreSet(
    hash: Key -> nat, n: nat, i: nat, policy: Policy, budget: nat, o: seq<Key>, m: map<Key, Entry>, flat: map<Key, Entry>,
    key: Key, e: Entry, ok: bool, o': seq<Key>, m': map<Key, Entry>)
    requires n > 0 && Placed(hash, n, i, m, flat) && hash(key) % n == i && AllHashTo(hash, n, i, m')
    requires SetDone(policy, budget, o, m, key, e, ok, o', m')
    requires policy == Strict ==> KeySet(o) == m.Keys
    ensures StoreSet(hash, n, policy, budget, flat, key, e, ok, Swap(flat, m, m'))
  {
    SwapHere(hash, n, i, m, m', flat);
    PlacedIsPart(hash, n, i, m, flat);
    PlacedIsPart(hash, n, i, m', Swap(flat, m, m'));
  }

  lemma StoreSetIsFlatSet(
    hash: Key -> nat, n: nat, policy: Policy, budget: nat,
    m: map<Key, Entry>, key: Key, e: Entry, ok: bool, m': map<Key, Entry>)
    requires n > 0 && StoreSet(hash, n, policy, budget, m, key, e, ok, m')
    ensures FlatSet(policy, budget, m, key, e, ok, m')
  {
    var i := hash(key) % n;
    var d, d' := Part(hash, n, i, m), Part(hash, n, i, m');
    var o, o' :| (policy == Strict ==> KeySet(o) == d.Keys) && SetDone(policy, budget, o, d, key, e, ok, o', d');
    PlacedIsPart(hash, n, i, d, m);
    ShardSetIsFlatSet(hash, n, i, policy, budget, o, d, m, key, e, ok, o', d');
  }

  lemma {:induction false} ListOf(ks: set<Key>) returns (o: seq<Key>)
    ensures KeySet(o) == ks
  {
    if ks == {} {
      o := [];
    } else {
      var k :| k in ks;
      o := ListOf(ks - {k});
      ConsKeys(k, o);
      o := [k] + o;
    }
  }

  lemma UnlimitedSetsShard(policy: Policy, d: map<Key, Entry>, key: Key, e: Entry)
    ensures SetsShard(policy, 0, d, key, e, true, d[key := e])
  {
    var o := ListOf(d.Keys);
    var left := Without(o, key);
    WithoutKeys(o, key);
    RestrictToAll(d - {key}, left);
    assert d[key := e] - {key} == d - {key};
    assert ([key] + left)[1..] == left;
    assert SetDone(policy, 0, o, d, key, e, true, AfterWriteList(policy, key, if policy == Strict then left else o), d[key := e]);
  }

  /** Without a budget every write can be stored, under every policy. */
  lemma UnlimitedSet(hash: Key -> nat, n: nat, policy: Policy, m: map<Key, Entry>, key: Key, e: Entry)
    requires n > 0
    ensures StoreSet(hash, n, policy, 0, m, key, e, true, m[key := e])
  {
    var i := hash(key) % n;
    var d := Part(hash, n, i, m);
    UnlimitedSetsShard(policy, d, key, e);
    assert Part(hash, n, i, m[key := e]) == d[key := e];
    PlacedIsPart(hash, n, i, d, m);
    SwapAfterSet(hash, n, i, d, m, key, e);
  }

  lemma SwapAfterSet(
    hash: Key -> nat, n: nat, i: nat, m: map<Key, Entry>, flat: map<Key, Entry>, key: Key, e: Entry)
    requires n > 0 && Placed(hash, n, i, m, flat)
    ensures Swap(flat, m, m) == flat && Swap(flat, m, m[key := e]) == flat[key := e]
  {
  }

  lemma SwapKeepsOthers(
    hash: Key -> nat, n: nat, i: nat, m: map<Key, Entry>, flat: map<Key, Entry>, key: Key, m': map<Key, Entry>)
    requires n > 0 && Placed(hash, n, i, m, flat) && hash(key) % n == i
    requires Submap(m' - {key}, m - {key})
    ensures AllHashTo(hash, n, i, m')
    ensures Submap(Swap(flat, m, m') - {key}, flat - {key})
  {
    assert forall k :: k in m' && k != key ==> k in m' - {key};
  }

  class KVStore {
    const hash: Key -> nat
    const policy: Policy
    const budget: nat
    const shards: seq<Shard>
    var log: seq<Record>
    ghost var flat: map<Key, Entry>  // all entries, whatever their shard

    function Slot(key: Key): nat
      requires |shards| > 0
    {
      hash(key) % |shards|
    }

    ghost function Lists(): set<LRUEvict> {
      set s | s in shards :: s.lru
    }

    ghost predicate ShardOk(i: nat)
      requires i < |shards|
      reads this`flat, shards[i], shards[i].lru
    {
      && shards[i].Valid() && shards[i].policy == policy && shards[i].budget == budget
      && Placed(hash, |shards|, i, shards[i].data, flat)
    }

    ghost predicate Apart(i: nat, j: nat)
      requires i < |shards| && j < |shards|
    {
      shards[i] != shards[j] && shards[i].lru != shards[j].lru
    }

    ghost predicate Within(i: nat)
      requires i < |shards|
      reads shards[i]
    {
      shards[i].bytes <= budget
    }

    /** No shard exceeds a limited budget. */
    ghost predicate WithinBudget()
      reads shards
    {
      budget > 0 ==> forall i :: 0 <= i < |shards| ==> Within(i)
    }

    ghost predicate Valid()
      reads this`flat, shards, Lists()
    {
      && |shards| > 0
      && (forall i, j :: 0 <= i < |shards| && 0 <= j < |shards| && i != j ==> Apart(i, j))
      && (forall i :: 0 <= i < |shards| ==> ShardOk(i))
    }

    constructor (hash: Key -> nat, policy: Policy, maxMemory: int, shardCount: nat)
      requires shardCount > 0
      ensures this.hash == hash && this.policy == policy && |shards| == shardCount
      ensures budget == ShardBudget(maxMemory, shardCount)
      ensures maxMemory > 0 ==> maxMemory - shardCount < shardCount * budget <= maxMemory
      ensures maxMemory <= 0 ==> budget == 0
      ensures Valid() && WithinBudget() && flat == map[] && log == []
      ensures fresh(shards) && fresh(Lists())
    {
      var b := if maxMemory > 0 then maxMemory / shardCount else 0;
      var ss := EmptyShards(policy, b, shardCount);
      this.hash, this.policy, this.budget, this.shards := hash, policy, b, ss;
      log, flat := [], map[];
      if maxMemory > 0 {
        BudgetSplit(maxMemory, shardCount);
      }
    }

    static method EmptyShards(policy: Policy, b: nat, n: nat) returns (ss: seq<Shard>)
      ensures |ss| == n
      ensures forall i :: 0 <= i < n ==>
        && fresh(ss[i]) && fresh(ss[i].lru) && ss[i].policy == policy && ss[i].budget == b
        && ss[i].Valid() && ss[i].data == map[] && ss[i].bytes == 0
      ensures forall i, j :: 0 <= i < j < n ==> ss[i] != ss[j] && ss[i].lru != ss[j].lru
    {
      ss := [];
      while |ss| < n
        invariant |ss| <= n
        invariant forall i :: 0 <= i < |ss| ==>
          && fresh(ss[i]) && fresh(ss[i].lru) && ss[i].policy == policy && ss[i].budget == b
          && ss[i].Valid() && ss[i].data == map[] && ss[i].bytes == 0
        invariant forall i, j :: 0 <= i < j < |ss| ==> ss[i] != ss[j] && ss[i].lru != ss[j].lru
      {
        var s := new Shard(policy, b);
        ss := ss + [s];
      }
    }

    /** Log first, then memory. `logged` is the outcome of the log append. */
    method SetWithExpiry(key: Key, e: Entry, logged: bool) returns (r: SetResult)
      requires Valid()
      modifies this`log, this`flat, shards[Slot(key)], shards[Slot(key)].lru
      ensures Valid()
      ensures r == LogFailed <==> !logged
      ensures !logged ==>
        && log == old(log) && flat == old(flat)
        && unchanged(shards[Slot(key)]) && unchanged(shards[Slot(key)].lru)
      ensures logged ==>
        && log == old(log) + [SetRecord(key, e)]
        && StoreSet(hash, |shards|, policy, budget, old(flat), key, e, r == Stored, flat)
        && FlatSet(policy, budget, old(flat), key, e, r == Stored, flat)
        && SetDone(policy, budget, old(shards[Slot(key)].lru.keys), old(shards[Slot(key)].data), key, e,
                   r == Stored, shards[Slot(key)].lru.keys, shards[Slot(key)].data)
      ensures policy == NoEvict && logged ==>
        (r == Stored <==> budget == 0 || Total(old(shards[Slot(key)].data) - {key}) + |key.chars| + |e.value| <= budget)
      ensures r == Stored && budget > 0 ==> Within(Slot(key)) || shards[Slot(key)].data.Keys == {key}
      ensures old(WithinBudget()) && policy == NoEvict ==> WithinBudget()
    {
      if !logged {
        return LogFailed;
      }
      log := log + [SetRecord(key, e)];
      ghost var m, o := shards[Slot(key)].data, shards[Slot(key)].lru.keys;
      var ok := SetInShard(Slot(key), key, e);
      NoEvictVerdict(policy, budget, o, m, key, e, ok, shards[Slot(key)].lru.keys, shards[Slot(key)].data);
      return if ok then Stored else MemoryFull;
    }

    /** The part of SetWithExpiry behind the log: the key's shard and the flat map change together. */
    method SetInShard(i: nat, key: Key, e: Entry) returns (ok: bool)
      requires Valid() && i == Slot(key)
      modifies this`flat, shards[i], shards[i].lru
      ensures Valid()
      ensures StoreSet(hash, |shards|, policy, budget, old(flat), key, e, ok, flat)
      ensures FlatSet(policy, budget, old(flat), key, e, ok, flat)
      ensures SetDone(policy, budget, old(shards[i].lru.keys), old(shards[i].data), key, e, ok, shards[i].lru.keys, shards[i].data)
      ensures ok && budget > 0 ==> Within(i) || shards[i].data.Keys == {key}
      ensures old(WithinBudget()) && policy == NoEvict ==> WithinBudget()
    {
      assert ShardOk(i);
      ghost var m, o := shards[i].data, shards[i].lru.keys;
      ok := shards[i].Set(key, e);
      ShardSetIsFlatSet(hash, |shards|, i, policy, budget, o, m, flat, key, e, ok, shards[i].lru.keys, shards[i].data);
      ShardSetIsStoreSet(hash, |shards|, i, policy, budget, o, m, flat, key, e, ok, shards[i].lru.keys, shards[i].data);
      SetWithinBudget(policy, budget, o, m, key, e, ok, shards[i].lru.keys, shards[i].data);
      OthersOk(i);
      Swapped(i, m);
    }

    /** Work on shard `i` leaves the other shards in order. */
    twostate lemma OthersOk(i: nat)
      requires i < |shards| && old(Valid()) && unchanged(this`flat)
      requires forall j :: 0 <= j < |shards| && j != i && Apart(i, j) ==> unchanged(shards[j]) && unchanged(shards[j].lru)
      ensures forall j :: 0 <= j < |shards| && j != i ==> ShardOk(j)
      ensures old(WithinBudget()) && (budget > 0 ==> Within(i)) ==> WithinBudget()
    {
      forall j | 0 <= j < |shards| && j != i
        ensures ShardOk(j) && (old(Within(j)) ==> Within(j))
      {
        assert Apart(i, j) && old(ShardOk(j));
      }
      if old(WithinBudget()) && budget > 0 {
        assert forall j :: 0 <= j < |shards| ==> old(Within(j));
      }
    }

    /** Bring the flat map in line with shard `i`, which held `m` before. */
    ghost method Swapped(i: nat, m: map<Key, Entry>)
      requires |shards| > 0 && i < |shards|
      requires forall j, k :: 0 <= j < |shards| && 0 <= k < |shards| && j != k ==> Apart(j, k)
      requires forall j :: 0 <= j < |shards| && j != i ==> ShardOk(j)
      requires shards[i].Valid() && shards[i].policy == policy && shards[i].budget == budget
      requires Placed(hash, |shards|, i, m, flat) && AllHashTo(hash, |shards|, i, shards[i].data)
      modifies this`flat
      ensures Valid() && flat == Swap(old(flat), m, shards[i].data)
    {
      ghost var before := flat;
      flat := Swap(flat, m, shards[i].data);
      SwapHere(hash, |shards|, i, m, shards[i].data, before);
      forall j | 0 <= j < |shards| && j != i
        ensures ShardOk(j)
      {
        assert old(ShardOk(j));
        SwapElsewhere(hash, |shards|, i, m, shards[i].data, before, j, shards[j].data);
      }
      assert ShardOk(i);
    }

    /** A hit is a key that is stored and has not expired; only LRU notes it. */
    method Get(key: Key, now: int) returns (r: GetResult)
      requires Valid()
      modifies shards[Slot(key)].lru
      ensures Valid()
      ensures r == if key in flat && !Expired(flat[key], now) then Found(flat[key].value) else NotFound
      ensures policy == Strict && r.Found? ==>
        && shards[Slot(key)].lru.keys == Touched(old(shards[Slot(key)].lru.keys), key)
        && shards[Slot(key)].lru.keys != [] && shards[Slot(key)].lru.keys[0] == key
      ensures policy != Strict || r == NotFound ==> unchanged(shards[Slot(key)].lru)
    {
      var i := Slot(key);
      assert ShardOk(i);
      if key !in shards[i].data || Expired(shards[i].data[key], now) {
        return NotFound;
      }
      r := Found(shards[i].data[key].value);
      if policy == Strict {
        shards[i].NoteRead(key);
        OthersOk(i);
        assert ShardOk(i);
      }
    }

    /** The delete is logged whether or not the key exists. */
    method Delete(key: Key, logged: bool) returns (r: DeleteResult)
      requires Valid()
      modifies this`log, this`flat, shards[Slot(key)], shards[Slot(key)].lru
      ensures Valid()
      ensures !logged ==> r == DeleteLogFailed && log == old(log) && flat == old(flat)
      ensures r != Deleted ==> shards[Slot(key)].lru.keys == old(shards[Slot(key)].lru.keys)
      ensures logged ==>
        && log == old(log) + [DeleteRecord(key)] && flat == old(flat) - {key}
        && r == if key in old(flat) then Deleted else KeyNotFound
      ensures old(WithinBudget()) ==> WithinBudget()
    {
      if !logged {
        return DeleteLogFailed;
      }
      log := log + [DeleteRecord(key)];
      var i := Slot(key);
      assert ShardOk(i);
      ghost var m := shards[i].data;
      assert WithinBudget() && budget > 0 ==> Within(i);
      var found := shards[i].Delete(key);
      OthersOk(i);
      SwapAfterDelete(hash, |shards|, i, m, flat, key);
      Swapped(i, m);
      return if found then Deleted else KeyNotFound;
    }

    method SweepShard(i: nat, now: int)
      requires Valid() && i < |shards|
      modifies this`flat, shards[i], shards[i].lru
      ensures Valid()
      ensures flat == Swap(old(flat), old(shards[i].data), Unexpired(old(shards[i].data), now))
      ensures Placed(hash, |shards|, i, old(shards[i].data), old(flat))
      ensures old(WithinBudget()) ==> WithinBudget()
    {
      assert ShardOk(i);
      ghost var m := shards[i].data;
      assert WithinBudget() && budget > 0 ==> Within(i);
      shards[i].Sweep(now);
      OthersOk(i);
      Swapped(i, m);
    }

    /** One tick of the TTL sweeper: exactly the expired entries go. */
    method Sweep(now: int)
      requires Valid()
      modifies this`flat, shards, Lists()
      ensures Valid() && flat == Unexpired(old(flat), now) && log == old(log)
      ensures old(WithinBudget()) ==> WithinBudget()
    {
      ghost var m := flat;
      for i := 0 to |shards|
        invariant Valid() && flat == SweptBelow(hash, |shards|, m, i, now)
        invariant old(WithinBudget()) ==> WithinBudget()
      {
        ghost var before, d := flat, shards[i].data;
        SweepShard(i, now);
        SweptBelowStep(hash, |shards|, m, i, now, d, before);
      }
      SweptBelowAll(hash, |shards|, m, now);
    }

    /** One set record per unexpired entry, shard by shard, each in any order. */
    method Snapshot(now: int) returns (snap: seq<Record>)
      requires Valid()
      ensures IsSnapshot(snap, flat, now)
    {
      snap := [];
      for i := 0 to |shards|
        invariant IsSnapshot(snap, Below(hash, |shards|, flat, i), now)
      {
        assert ShardOk(i);
        var rs := SnapshotOf(shards[i].data, now);
        SnapshotJoin(snap, Below(hash, |shards|, flat, i), rs, shards[i].data, now);
        BelowStep(hash, |shards|, flat, i, shards[i].data);
        snap := snap + rs;
      }
      BelowAll(hash, |shards|, flat);
    }

    /** The log becomes a snapshot; the last `pending` records, which the flusher
        still holds, go behind it. */
    method Compact(now: int, pending: nat) returns (snap: seq<Record>)
      requires Valid() && pending <= |log|
      modifies this`log
      ensures Valid() && IsSnapshot(snap, flat, now) && log == snap + old(log)[|old(log)| - pending..]
    {
      snap := Snapshot(now);
      log := snap + log[|log| - pending..];
    }

    /** Being within budget, said of the flat map. */
    lemma WithinIsPartsFit()
      requires Valid()
      ensures WithinBudget() <==> PartsFit(hash, |shards|, budget, flat)
    {
      forall i | 0 <= i < |shards|
        ensures Within(i) <==> PartFits(hash, |shards|, i, budget, flat)
      {
        assert ShardOk(i);
        PlacedIsPart(hash, |shards|, i, shards[i].data, flat);
      }
    }

    /** While every shard is within its budget the whole store is within the configured cap. */
    lemma MemoryWithinCap(maxMemory: int)
      requires Valid() && WithinBudget()
      requires budget == ShardBudget(maxMemory, |shards|) && |shards| <= maxMemory
      ensures Total(flat) <= maxMemory
    {
      WithinIsPartsFit();
      PartsFitTheCap(hash, |shards|, maxMemory, flat);
    }

    // ---------- Recovery ----------

    /** A shard while the log is being replayed into it: entries only, not yet counted or listed. */
    ghost predicate RawOk(i: nat)
      requires i < |shards|
      reads this`flat, shards[i], shards[i].lru
    {
      && shards[i].bytes == 0 && shards[i].lru.Valid() && (policy == Strict ==> shards[i].lru.keys == [])
      && shards[i].policy == policy && shards[i].budget == budget
      && Placed(hash, |shards|, i, shards[i].data, flat)
    }

    ghost predicate AllApart() {
      && |shards| > 0
      && forall i, j :: 0 <= i < |shards| && 0 <= j < |shards| && i != j ==> Apart(i, j)
    }

    /** One call of the replay callback. */
    method Load(r: Record, now: int)
      requires AllApart() && forall i :: 0 <= i < |shards| ==> RawOk(i)
      modifies this`flat, shards
      ensures forall i :: 0 <= i < |shards| ==> RawOk(i)
      ensures flat == Loaded(old(flat), r, now)
    {
      var key := KeyOf(r);
      var i := Slot(key);
      assert RawOk(i);
      ghost var m, before := shards[i].data, flat;
      if r.op == OP_SET {
        if now < r.expiresAt {
          shards[i].data := shards[i].data[key := Entry(r.value, r.expiresAt)];
          SwapAfterSet(hash, |shards|, i, m, flat, key, Entry(r.value, r.expiresAt));
        } else {
          shards[i].data := shards[i].data - {key};
        }
      } else if r.op == OP_DELETE {
        shards[i].data := shards[i].data - {key};
      } else {
        return;
      }
      SwapAfterDelete(hash, |shards|, i, m, flat, key);
      flat := Swap(flat, m, shards[i].data);
      SwapHere(hash, |shards|, i, m, shards[i].data, before);
      forall j | 0 <= j < |shards| && j != i
        ensures RawOk(j)
      {
        assert Apart(i, j) && old(RawOk(j));
        SwapElsewhere(hash, |shards|, i, m, shards[i].data, before, j, shards[j].data);
      }
      assert RawOk(i);
    }

    lemma EmptyShardIsRaw(i: nat)
      requires Valid() && flat == map[] && i < |shards|
      ensures RawOk(i)
    {
      assert ShardOk(i);
      assert shards[i].data.Keys == {};
      EmptyKeySet(shards[i].lru.keys);
    }

    /** Count and list what was loaded into shard `i`. */
    method Finish(i: nat)
      requires AllApart() && i < |shards| && RawOk(i)
      modifies shards[i], shards[i].lru
      ensures ShardOk(i)
      ensures forall j :: 0 <= j < |shards| && j != i ==> (old(ShardOk(j)) ==> ShardOk(j)) && (old(RawOk(j)) ==> RawOk(j))
    {
      shards[i].CountLoaded();
      forall j | 0 <= j < |shards| && j != i
        ensures (old(ShardOk(j)) ==> ShardOk(j)) && (old(RawOk(j)) ==> RawOk(j))
      {
        assert Apart(i, j);
      }
    }

    /** Rebuild an empty store from a log's records, as of `now`. */
    method Recover(recs: seq<Record>, now: int)
      requires Valid() && flat == map[]
      modifies this`flat, shards, Lists()
      ensures Valid() && flat == Rebuild(recs, now)
      ensures WithinBudget() <==> PartsFit(hash, |shards|, budget, Rebuild(recs, now))
    {
      forall i | 0 <= i < |shards|
        ensures RawOk(i)
      {
        EmptyShardIsRaw(i);
      }
      for j := 0 to |recs|
        invariant forall i :: 0 <= i < |shards| ==> RawOk(i)
        invariant flat == Rebuild(recs[..j], now)
      {
        assert recs[..j + 1][..j] == recs[..j];
        Load(recs[j], now);
      }
      assert recs[..|recs|] == recs;
      FinishAll();
      WithinIsPartsFit();
    }

    method FinishAll()
      requires AllApart() && forall i :: 0 <= i < |shards| ==> RawOk(i)
      modifies shards, Lists()
      ensures Valid()
    {
      for i := 0 to |shards|
        invariant forall j :: 0 <= j < i ==> ShardOk(j)
        invariant forall j :: i <= j < |shards| ==> RawOk(j)
      {
        Finish(i);
      }
    }

    /** NewKVStore on an existing log: fails exactly when the log is cut inside a record. */
    method Open(file: Stream, now: int) returns (ok: bool)
      requires Valid() && flat == map[] && file.Valid()
      modifies this, shards, Lists(), file`pos
      ensures ok == Replay(old(file.Rest())).1
      ensures ok ==> Valid() && log == Replay(old(file.Rest())).0 && flat == Rebuild(log, now)
      ensures ok ==> (WithinBudget() <==> PartsFit(hash, |shards|, budget, flat))
    {
      var recs;
      recs, ok := ReplayLog(file);
      if ok {
        Recover(recs, now);
        log := recs;
      }
    }
  }

  // ---------- Budgets, on the flat map ----------

  ghost predicate PartFits(hash: Key -> nat, n: nat, i: nat, budget: nat, m: map<Key, Entry>)
    requires n > 0
  {
    Total(Part(hash, n, i, m)) <= budget
  }

  /** No shard's part exceeds a limited budget. */
  ghost predicate PartsFit(hash: Key -> nat, n: nat, budget: nat, m: map<Key, Entry>)
    requires n > 0
  {
    budget > 0 ==> forall i :: 0 <= i < n ==> PartFits(hash, n, i, budget, m)
  }

  lemma {:induction false} PartsBelow(hash: Key -> nat, n: nat, budget: nat, m: map<Key, Entry>, i: nat)
    requires n > 0 && budget > 0 && PartsFit(hash, n, budget, m) && i <= n
    ensures Total(Below(hash, n, m, i)) <= i * budget
  {
    BelowAll(hash, n, m);
    if i == 0 {
      assert Total(map[]) == 0;
    } else {
      PartsBelow(hash, n, budget, m, i - 1);
      assert PartFits(hash, n, i - 1, budget, m);
      PlacedIsPart(hash, n, i - 1, Part(hash, n, i - 1, m), m);
      TotalBelowStep(hash, n, m, i - 1, Part(hash, n, i - 1, m));
      assert i * budget == (i - 1) * budget + budget;
    }
  }

  /** Parts within their budgets are, together, within the cap the budgets come from. */
  lemma PartsFitTheCap(hash: Key -> nat, n: nat, maxMemory: int, m: map<Key, Entry>)
    requires 0 < n <= maxMemory && PartsFit(hash, n, ShardBudget(maxMemory, n), m)
    ensures Total(m) <= maxMemory
  {
    BudgetSplit(maxMemory, n);
    PartsBelow(hash, n, ShardBudget(maxMemory, n), m, n);
    BelowAll(hash, n, m);
  }

  lemma SubmapFits(hash: Key -> nat, n: nat, budget: nat, m: map<Key, Entry>, m': map<Key, Entry>)
    requires n > 0 && PartsFit(hash, n, budget, m) && Submap(m', m)
    ensures PartsFit(hash, n, budget, m')
  {
    if budget > 0 {
      forall i | 0 <= i < n
        ensures PartFits(hash, n, i, budget, m')
      {
        assert PartFits(hash, n, i, budget, m);
        SubmapTotal(Part(hash, n, i, m'), Part(hash, n, i, m));
      }
    }
  }

  /** NoEvict never takes a shard over its budget. */
  lemma NoEvictKeepsParts(
    hash: Key -> nat, n: nat, budget: nat, m: map<Key, Entry>, key: Key, e: Entry, ok: bool, m': map<Key, Entry>)
    requires n > 0 && PartsFit(hash, n, budget, m) && StoreSet(hash, n, NoEvict, budget, m, key, e, ok, m')
    ensures PartsFit(hash, n, budget, m')
  {
    if budget > 0 {
      forall i | 0 <= i < n
        ensures PartFits(hash, n, i, budget, m')
      {
        assert PartFits(hash, n, i, budget, m);
        var d, d' := Part(hash, n, i, m), Part(hash, n, i, m');
        if i == hash(key) % n {
          var o, o' :| SetDone(NoEvict, budget, o, d, key, e, ok, o', d');
          SetWithinBudget(NoEvict, budget, o, d, key, e, ok, o', d');
        } else {
          assert d' == d;
        }
      }
    }
  }

  lemma BudgetSplit(maxMemory: int, n: nat)
    requires n > 0 && maxMemory > 0
    ensures maxMemory - n < n * ShardBudget(maxMemory, n) <= maxMemory
    ensures ShardBudget(maxMemory, n) > 0 <==> n <= maxMemory
  {
    assert maxMemory == maxMemory / n * n + maxMemory % n;
  }

  /** With more shards than bytes the per-shard budget rounds to 0, which means
      unlimited: then NoEvict stores every write, and the cap is lost. */
  lemma CapIsLostBelowOneBytePerShard(
    maxMemory: int, n: nat, o: seq<Key>, m: map<Key, Entry>, key: Key, e: Entry,
    ok: bool, o': seq<Key>, m': map<Key, Entry>)
    requires 0 < maxMemory < n
    requires SetDone(NoEvict, ShardBudget(maxMemory, n), o, m, key, e, ok, o', m')
    ensures ok && m' == m[key := e]
  {
    BudgetSplit(maxMemory, n);
    SetWithoutEviction(NoEvict, ShardBudget(maxMemory, n), o, m, key, e, ok, o', m');
  }

  lemma EmptyKeySet(o: seq<Key>)
    ensures KeySet(o) == {} <==> o == []
  {
    assert o != [] ==> o[0] in KeySet(o);
  }

  lemma SwapAfterDelete(
    hash: Key -> nat, n: nat, i: nat, m: map<Key, Entry>, flat: map<Key, Entry>, key: Key)
    requires n > 0 && Placed(hash, n, i, m, flat) && hash(key) % n == i
    ensures Swap(flat, m, m - {key}) == flat - {key} && (key in m <==> key in flat)
  {
  }

  // ---------- Shard-by-shard passes ----------

  /** The flat map after the first `i` shards were swept. */
  function SweptBelow(hash: Key -> nat, n: nat, m: map<Key, Entry>, i: nat, now: int): map<Key, Entry>
    requires n > 0
  {
    map k | k in m && !(hash(k) % n < i && Expired(m[k], now)) :: m[k]
  }

  lemma SweptBelowStep(
    hash: Key -> nat, n: nat, m: map<Key, Entry>, i: nat, now: int, d: map<Key, Entry>, flat: map<Key, Entry>)
    requires n > 0 && flat == SweptBelow(hash, n, m, i, now) && Placed(hash, n, i, d, flat)
    ensures Swap(flat, d, Unexpired(d, now)) == SweptBelow(hash, n, m, i + 1, now)
  {
  }

  lemma SweptBelowAll(hash: Key -> nat, n: nat, m: map<Key, Entry>, now: int)
    requires n > 0
    ensures SweptBelow(hash, n, m, n, now) == Unexpired(m, now)
    ensures SweptBelow(hash, n, m, 0, now) == m
  {
  }

  /** The entries of the first `i` shards. */
  function Below(hash: Key -> nat, n: nat, m: map<Key, Entry>, i: nat): map<Key, Entry>
    requires n > 0
  {
    map k | k in m && hash(k) % n < i :: m[k]
  }

  lemma BelowStep(hash: Key -> nat, n: nat, flat: map<Key, Entry>, i: nat, d: map<Key, Entry>)
    requires n > 0 && Placed(hash, n, i, d, flat)
    ensures Below(hash, n, flat, i) + d == Below(hash, n, flat, i + 1)
    ensures Below(hash, n, flat, i).Keys !! d.Keys
  {
  }

  lemma TotalBelowStep(hash: Key -> nat, n: nat, flat: map<Key, Entry>, i: nat, d: map<Key, Entry>)
    requires n > 0 && Placed(hash, n, i, d, flat)
    ensures Total(Below(hash, n, flat, i + 1)) == Total(Below(hash, n, flat, i)) + Total(d)
  {
    BelowStep(hash, n, flat, i, d);
    TotalDisjoint(Below(hash, n, flat, i), d);
  }

  lemma BelowAll(hash: Key -> nat, n: nat, flat: map<Key, Entry>)
    requires n > 0
    ensures Below(hash, n, flat, n) == flat && Below(hash, n, flat, 0) == map[]
  {
  }

  lemma SnapshotJoin(a: seq<Record>, m: map<Key, Entry>, b: seq<Record>, d: map<Key, Entry>, now: int)
    requires IsSnapshot(a, m, now) && IsSnapshot(b, d, now) && m.Keys !! d.Keys
    ensures IsSnapshot(a + b, m + d, now)
  {
    forall i | 0 <= i < |a + b|
      ensures Snapshots((a + b)[i], m + d, now)
    {
      assert if i < |a| then Snapshots(a[i], m, now) else Snapshots(b[i - |a|], d, now);
    }
    forall i, j | 0 <= i < j < |a + b|
      ensures (a + b)[i].key != (a + b)[j].key
    {
      if i < |a| && j >= |a| {
        assert Snapshots(a[i], m, now) && Snapshots(b[j - |a|], d, now);
      }
    }
    forall k | k in m + d && now <= (m + d)[k].expiredAt
      ensures Written(a + b, k)
    {
      if k in d {
        var i :| 0 <= i < |b| && KeyOf(b[i]) == k;
        assert (a + b)[|a| + i] == b[i];
      } else {
        var i :| 0 <= i < |a| && KeyOf(a[i]) == k;
        assert (a + b)[i] == a[i];
      }
    }
  }

  /** One shard's part of a snapshot, in arbitrary map order. */
  method SnapshotOf(m: map<Key, Entry>, now: int) returns (rs: seq<Record>)
    ensures IsSnapshot(rs, m, now)
  {
    rs := [];
    var todo := m.Keys;
    ghost var seen := map[];
    while todo != {}
      invariant todo <= m.Keys && seen == m - todo
      invariant IsSnapshot(rs, seen, now)
      decreases |todo|
    {
      var k :| k in todo;
      assert m - (todo - {k}) == seen + map[k := m[k]];
      if now > m[k].expiredAt {
        SnapshotNone(map[k := m[k]], now);
        SnapshotJoin(rs, seen, [], map[k := m[k]], now);
        assert rs + [] == rs;
      } else {
        SnapshotOne(k, m[k], now);
        SnapshotJoin(rs, seen, [SetRecord(k, m[k])], map[k := m[k]], now);
        rs := rs + [SetRecord(k, m[k])];
      }
      seen := seen + map[k := m[k]];
      todo := todo - {k};
    }
    assert m - {} == m;
  }

  lemma SnapshotNone(m: map<Key, Entry>, now: int)
    requires forall k :: k in m ==> now > m[k].expiredAt
    ensures IsSnapshot([], m, now)
  {
  }

  lemma SnapshotOne(k: Key, e: Entry, now: int)
    requires now <= e.expiredAt
    ensures IsSnapshot([SetRecord(k, e)], map[k := e], now)
  {
    var rs := [SetRecord(k, e)];
    assert KeyOf(rs[0]) == k;
  }
}
