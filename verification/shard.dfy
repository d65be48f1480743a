/** One shard of the store (storage/store/shard.go and the locked regions of
    storage/store/kv_store.go) with its eviction policy (storage/eviction). */
module Shards {
  import opened Entries
  import opened Sequences
  import opened Lru

  datatype Policy = NoEvict | Sampling | Strict

  const SAMPLE := 5

  function Min(a: nat, b: nat): nat {
    if a < b then a else b
  }

  /** NoEvict's verdict; a budget of 0 means unlimited. */
  predicate Fits(bytes: nat, needed: nat, budget: nat) {
    budget == 0 || bytes + needed <= budget
  }

  /** What LRU eviction leaves for an incoming write of `needed` bytes. */
  ghost predicate LruMakesRoom(o: seq<Key>, m: map<Key, Entry>, needed: nat, budget: nat, keep: seq<Key>) {
    if budget == 0 then keep == o else LruKeeps(o, m, budget - needed, keep)
  }

  /** The declarative form and the loop agree. */
  lemma LruRoomIsTheLoop(o: seq<Key>, m: map<Key, Entry>, needed: nat, budget: nat, keep: seq<Key>)
    ensures LruMakesRoom(o, m, needed, budget, keep) <==>
            keep == if budget == 0 then o else LruDrop(o, m, budget - needed)
  {
    LruDropKeeps(o, m, budget - needed);
    if LruKeeps(o, m, budget - needed, keep) {
      LruKeepsIsUnique(o, m, budget - needed, keep, LruDrop(o, m, budget - needed));
    }
  }

  predicate Expired(e: Entry, now: int) {
    now > e.expiredAt
  }

  function Unexpired(m: map<Key, Entry>, now: int): map<Key, Entry> {
    map k | k in m && !Expired(m[k], now) :: m[k]
  }

  /** The listed keys that are in `ks`, in list order. */
  function Keep(o: seq<Key>, ks: set<Key>): seq<Key> {
    if o == [] then []
    else if o[0] in ks then [o[0]] + Keep(o[1..], ks)
    else Keep(o[1..], ks)
  }

  lemma {:induction false} KeepWithout(o: seq<Key>, ks: set<Key>, k: Key)
    ensures Without(Keep(o, ks), k) == Keep(o, ks - {k})
  {
    if o != [] {
      KeepWithout(o[1..], ks, k);
      if o[0] in ks {
        assert Keep(o, ks)[1..] == Keep(o[1..], ks);
      }
    }
  }

  lemma {:induction false} KeepAll(o: seq<Key>, ks: set<Key>)
    requires forall k :: k in o ==> k in ks
    ensures Keep(o, ks) == o
  {
    if o != [] {
      assert forall k :: k in o[1..] ==> k in o;
      KeepAll(o[1..], ks);
      assert o[0] in o;
      assert o == [o[0]] + o[1..];
    }
  }

  class Shard {
    const policy: Policy
    const budget: nat
    const lru: LRUEvict
    var data: map<Key, Entry>
    var bytes: int

    /** Holds whenever the shard's lock is free: the counter is the sum of the
        stored lengths, and the recency list, its index and the map have the same keys. */
    ghost predicate Valid()
      reads this, lru
    {
      && lru.Valid()
      && bytes == Total(data)
      && (policy == Strict ==> KeySet(lru.keys) == data.Keys)
    }

    constructor (policy: Policy, budget: nat)
      ensures this.policy == policy && this.budget == budget
      ensures Valid() && data == map[] && lru.keys == [] && fresh(lru)
    {
      this.policy, this.budget := policy, budget;
      lru := new LRUEvict();
      data, bytes := map[], 0;
    }

    /** The policy's view: drop a key without calling back into the policy. */
    method Evict(key: Key)
      requires bytes == Total(data)
      modifies this`data, this`bytes
      ensures bytes == Total(data)
      ensures data == old(data) - {key}
    {
      if key in data {
        TotalRemove(data, key);
        bytes := bytes - (|key.chars| + |data[key].value|);
        data := data - {key};
      }
    }

    /** Ask the policy for room; `key` itself is not in the shard at this point. */
    method MakeRoom(key: Key, needed: nat) returns (ok: bool)
      requires lru.Valid() && bytes == Total(data) && key !in data
      requires policy == Strict ==> KeySet(lru.keys) - {key} == data.Keys
      modifies this`data, this`bytes, lru
      ensures lru.Valid() && bytes == Total(data) && key !in data
      ensures policy == Strict ==> KeySet(lru.keys) == data.Keys
      ensures RoomMade(policy, budget, old(lru.keys), old(data), key, needed, ok, lru.keys, data)
    {
      match policy {
        case NoEvict => ok := budget == 0 || bytes + needed <= budget;
        case Sampling => ok := SamplingBeforeWrite(this, needed);
        case Strict => ok := LruBeforeWrite(lru, this, key, needed);
      }
    }

    /** Take the entry being replaced out of the shard. */
    method TakeOut(key: Key) returns (previous: map<Key, Entry>)
      requires bytes == Total(data)
      modifies this`data, this`bytes
      ensures bytes == Total(data)
      ensures data == old(data) - {key} && data + previous == old(data) && previous.Keys <= {key}
    {
      previous := map[];
      if key in data {
        TotalRemove(data, key);
        previous := map[key := data[key]];
        bytes := bytes - (|key.chars| + |data[key].value|);
        data := data - {key};
      }
    }

    method Store(key: Key, e: Entry)
      requires bytes == Total(data) && key !in data
      modifies this`data, this`bytes
      ensures bytes == Total(data) && data == old(data)[key := e]
    {
      TotalInsert(data, key, e);
      data := data[key := e];
      bytes := bytes + (|key.chars| + |e.value|);
    }

    /** Undo TakeOut. */
    method PutBack(key: Key, previous: map<Key, Entry>)
      requires bytes == Total(data) && key !in data && previous.Keys <= {key}
      modifies this`data, this`bytes
      ensures bytes == Total(data) && data == old(data) + previous
    {
      if key in previous {
        Store(key, previous[key]);
      }
    }

    /** Store an entry the policy made room for, and tell the policy. */
    method Commit(key: Key, e: Entry)
      requires Valid() && key !in data
      modifies this`data, this`bytes, lru
      ensures Valid() && data == old(data)[key := e]
      ensures lru.keys == AfterWriteList(policy, key, old(lru.keys))
    {
      ghost var o := lru.keys;
      if policy == Strict {
        assert key in KeySet(o) <==> key in data.Keys;
        ConsKeys(key, o);
      }
      Store(key, e);
      if policy == Strict {
        lru.AfterWrite(key);
      }
    }

    /** The locked region of SetWithExpiry. The entry being replaced is taken out
        first, so the policy never sees it; a rejected write puts it back. */
    method Set(key: Key, e: Entry) returns (ok: bool)
      requires Valid()
      modifies this`data, this`bytes, lru
      ensures Valid()
      ensures SetDone(policy, budget, old(lru.keys), old(data), key, e, ok, lru.keys, data)
    {
      ghost var o, m := lru.keys, data;
      var previous := TakeOut(key);
      ok := MakeRoom(key, |key.chars| + |e.value|);
      if ok {
        SetAccepted(policy, budget, o, m, key, e, lru.keys, data);
        Commit(key, e);
      } else {
        PutBack(key, previous);
      }
    }

    /** The hook of a read that found its key. */
    method NoteRead(key: Key)
      requires Valid() && policy == Strict && key in data
      modifies lru
      ensures Valid() && lru.keys == Touched(old(lru.keys), key)
      ensures lru.keys != [] && lru.keys[0] == key
    {
      lru.KeysAreDistinct();
      assert key in KeySet(lru.keys);
      TouchedGoesFirst(lru.keys, key);
      TouchedKeys(lru.keys, key);
      lru.AfterRead(key);
    }

    /** Remove a stored entry, with the hooks of Delete and of the sweeper. */
    method Remove(key: Key)
      requires Valid() && key in data
      modifies this`data, this`bytes, lru
      ensures Valid() && data == old(data) - {key} && bytes <= old(bytes)
      ensures lru.keys == if policy == Strict then Without(old(lru.keys), key) else old(lru.keys)
    {
      TotalRemove(data, key);
      bytes := bytes - (|key.chars| + |data[key].value|);
      data := data - {key};
      if policy == Strict {
        WithoutKeys(lru.keys, key);
        lru.Forget(key);
      }
    }

    /** The locked region of KVStore.Delete. */
    method Delete(key: Key) returns (found: bool)
      requires Valid()
      modifies this`data, this`bytes, lru
      ensures Valid() && found == (key in old(data)) && data == old(data) - {key} && bytes <= old(bytes)
      ensures lru.keys == if policy == Strict && found then Without(old(lru.keys), key) else old(lru.keys)
    {
      found := key in data;
      if found {
        Remove(key);
      }
    }

    /** One shard's part of a TTL sweep: visits every key once, in any order. */
    method Sweep(now: int)
      requires Valid()
      modifies this`data, this`bytes, lru
      ensures Valid() && data == Unexpired(old(data), now) && bytes <= old(bytes)
      ensures policy == Strict ==> lru.keys == Keep(old(lru.keys), data.Keys)
    {
      ghost var m, o := data, lru.keys;
      var todo := data.Keys;
      if policy == Strict {
        KeepAll(o, data.Keys);
      }
      while todo != {}
        invariant Valid() && SweptTo(m, data, todo, now) && bytes <= old(bytes)
        invariant policy == Strict ==> lru.keys == Keep(o, data.Keys)
        decreases |todo|
      {
        var key :| key in todo;
        SweptStep(m, data, todo, now, key);
        if Expired(data[key], now) {
          KeepWithout(o, data.Keys, key);
          assert (data - {key}).Keys == data.Keys - {key};
          Remove(key);
        }
        todo := todo - {key};
      }
      SweptEnd(m, data, now);
    }

    /** The second half of recovery: count the loaded entries and list them, in any order. */
    method CountLoaded()
      requires bytes == 0 && lru.Valid() && (policy == Strict ==> lru.keys == [])
      modifies this`bytes, lru
      ensures Valid()
    {
      var todo := data.Keys;
      while todo != {}
        invariant todo <= data.Keys && lru.Valid()
        invariant bytes == Sum(data, data.Keys - todo)
        invariant policy == Strict ==> KeySet(lru.keys) == data.Keys - todo
        decreases |todo|
      {
        var key :| key in todo;
        ghost var done := data.Keys - todo;
        assert (done + {key}) - {key} == done && data.Keys - (todo - {key}) == done + {key};
        SumRemove(data, done + {key}, key);
        bytes := bytes + (|key.chars| + |data[key].value|);
        if policy == Strict {
          assert key !in KeySet(lru.keys);
          ConsKeys(key, lru.keys);
          lru.AfterWrite(key);
        }
        todo := todo - {key};
      }
      assert data.Keys - todo == data.Keys;
    }
  }

  /** Part-way through a sweep of `m`: entries not yet visited are still there. */
  ghost predicate SweptTo(m: map<Key, Entry>, m': map<Key, Entry>, todo: set<Key>, now: int) {
    && todo <= m'.Keys && Submap(m', m)
    && forall k :: k in m ==> (k in m' <==> k in todo || !Expired(m[k], now))
  }

  lemma SweptStep(m: map<Key, Entry>, m': map<Key, Entry>, todo: set<Key>, now: int, key: Key)
    requires SweptTo(m, m', todo, now) && key in todo
    ensures key in m'
    ensures SweptTo(m, if Expired(m'[key], now) then m' - {key} else m', todo - {key}, now)
  {
  }

  lemma SweptEnd(m: map<Key, Entry>, m': map<Key, Entry>, now: int)
    requires SweptTo(m, m', {}, now)
    ensures m' == Unexpired(m, now)
  {
  }

  // ---------- What a set promises ----------

  /** A stored write keeps no entry but old ones and its own. */
  lemma SetKeepsOthers(
    policy: Policy, budget: nat, o: seq<Key>, m: map<Key, Entry>, key: Key, e: Entry,
    ok: bool, o': seq<Key>, m': map<Key, Entry>)
    requires SetDone(policy, budget, o, m, key, e, ok, o', m')
    ensures ok ==> key in m' && m'[key] == e && Submap(m' - {key}, m - {key})
    ensures !ok ==> m' == m && o' == o
  {
  }

  /** Without a budget every write is stored and nothing is evicted; NoEvict never evicts. */
  lemma SetWithoutEviction(
    policy: Policy, budget: nat, o: seq<Key>, m: map<Key, Entry>, key: Key, e: Entry,
    ok: bool, o': seq<Key>, m': map<Key, Entry>)
    requires SetDone(policy, budget, o, m, key, e, ok, o', m')
    requires policy == Strict ==> KeySet(o) == m.Keys
    ensures budget == 0 ==> ok
    ensures budget == 0 || policy == NoEvict ==> m' == if ok then m[key := e] else m
  {
    if ok && (budget == 0 || policy == NoEvict) {
      if policy == Strict {
        WithoutKeys(o, key);
        RestrictToAll(m - {key}, o'[1..]);
      }
      assert m' - {key} == m - {key};
      assert m' == (m' - {key})[key := e] && m[key := e] == (m - {key})[key := e];
    }
  }

  /** NoEvict stores a write exactly when the other entries of the shard leave room for it. */
  lemma NoEvictVerdict(
    policy: Policy, budget: nat, o: seq<Key>, m: map<Key, Entry>, key: Key, e: Entry,
    ok: bool, o': seq<Key>, m': map<Key, Entry>)
    requires SetDone(policy, budget, o, m, key, e, ok, o', m')
    ensures policy == NoEvict ==> (ok <==> budget == 0 || Total(m - {key}) + |key.chars| + |e.value| <= budget)
  {
  }

  /** A stored write under a budget ends within it, or alone in its shard. */
  lemma SetWithinBudget(
    policy: Policy, budget: nat, o: seq<Key>, m: map<Key, Entry>, key: Key, e: Entry,
    ok: bool, o': seq<Key>, m': map<Key, Entry>)
    requires SetDone(policy, budget, o, m, key, e, ok, o', m')
    ensures ok && budget > 0 ==> Total(m') <= budget || m'.Keys == {key}
    ensures policy == NoEvict && budget > 0 && Total(m) <= budget ==> Total(m') <= budget
  {
    if ok {
      TotalRemove(m', key);
      if m' - {key} == map[] {
        assert m'.Keys == (m' - {key}).Keys + {key};
      }
    }
  }

  /** The recency list after a write: only LRU keeps one. */
  function AfterWriteList(policy: Policy, key: Key, o: seq<Key>): seq<Key> {
    if policy == Strict then [key] + o else o
  }

  lemma SetAccepted(
    policy: Policy, budget: nat, o: seq<Key>, m: map<Key, Entry>, key: Key, e: Entry, o1: seq<Key>, m1: map<Key, Entry>)
    requires RoomMade(policy, budget, o, m - {key}, key, Size(key, e), true, o1, m1) && key !in m1
    ensures SetDone(policy, budget, o, m, key, e, true, AfterWriteList(policy, key, o1), m1[key := e])
  {
    assert m1[key := e] - {key} == m1;
    assert ([key] + o1)[1..] == o1;
  }

  lemma ConsKeys(k: Key, o: seq<Key>)
    ensures KeySet([k] + o) == KeySet(o) + {k}
    ensures ([k] + o)[1..] == o
  {
  }

  lemma TouchedKeys(o: seq<Key>, k: Key)
    ensures KeySet(Touched(o, k)) == KeySet(o)
  {
    WithoutKeys(o, k);
    if k in o {
      ConsKeys(k, Without(o, k));
      assert k in KeySet(o);
    }
  }

  ghost predicate WithinOrEmpty(m: map<Key, Entry>, needed: nat, budget: nat) {
    budget > 0 ==> Total(m) + needed <= budget || m == map[]
  }

  /** What BeforeWrite of each policy may do to the recency list `o` and the
      entries `m` (from which the key being written was taken out). */
  ghost predicate RoomMade(
    policy: Policy, budget: nat, o: seq<Key>, m: map<Key, Entry>, key: Key, needed: nat,
    ok: bool, o': seq<Key>, m': map<Key, Entry>)
  {
    match policy
    case NoEvict => ok == Fits(Total(m), needed, budget) && o' == o && m' == m
    case Sampling =>
      && ok && o' == o && Submap(m', m) && WithinOrEmpty(m', needed, budget)
      && SamplingMakesRoom(m, needed, budget, m')
    case Strict =>
      && ok && m' == Restrict(m, o') && WithinOrEmpty(m', needed, budget)
      && LruMakesRoom(Without(o, key), m, needed, budget, o')
  }

  /** What one set may do to a shard. */
  ghost predicate SetDone(
    policy: Policy, budget: nat, o: seq<Key>, m: map<Key, Entry>, key: Key, e: Entry,
    ok: bool, o': seq<Key>, m': map<Key, Entry>)
  {
    var rest := m - {key};
    if ok then
      && key in m' && m'[key] == e
      && if policy == Strict
         then o' != [] && o'[0] == key && RoomMade(policy, budget, o, rest, key, Size(key, e), true, o'[1..], m' - {key})
         else RoomMade(policy, budget, o, rest, key, Size(key, e), true, o', m' - {key})
    else policy == NoEvict && !Fits(Total(rest), Size(key, e), budget) && o' == o && m' == m
  }

  // ---------- LRU ----------

  /** Part-way through LRU eviction: what is left of list and map agree, and nothing longer fits. */
  ghost predicate Evicting(o: seq<Key>, m: map<Key, Entry>, o0: seq<Key>, m0: map<Key, Entry>, room: int) {
    NoDups(o0) && o <= o0 && m == Restrict(m0, o) && NoneLonger(o0, m0, room, |o|)
  }

  lemma EvictingGoesOn(o: seq<Key>, m: map<Key, Entry>, o0: seq<Key>, m0: map<Key, Entry>, room: int)
    requires Evicting(o, m, o0, m0, room) && o != [] && Total(m) > room
    ensures Evicting(o[..|o| - 1], m - {o[|o| - 1]}, o0, m0, room)
  {
    assert o0[..|o|] == o;
    assert TooBig(o0, m0, room, |o|);
    RestrictDrops(m0, o);
  }

  /** Drop the least recent key from the list and from the shard. */
  method DropBackKey(p: LRUEvict, s: Shard)
    requires p.Valid() && p.keys != [] && s.bytes == Total(s.data)
    modifies p, s`data, s`bytes
    ensures p.Valid() && s.bytes == Total(s.data)
    ensures p.keys == old(p.keys[..|p.keys| - 1])
    ensures s.data == old(s.data - {p.keys[|p.keys| - 1]})
  {
    p.KeysAreDistinct();
    CutIsWithout(p.keys, |p.keys| - 1);
    var victim := p.Back();
    p.Forget(victim);
    s.Evict(victim);
  }

  /** One round of the eviction loop. */
  method EvictBack(p: LRUEvict, s: Shard, ghost o0: seq<Key>, ghost m0: map<Key, Entry>, ghost room: int)
    requires p.Valid() && p.keys != [] && s.bytes == Total(s.data) && s.bytes > room
    requires Evicting(p.keys, s.data, o0, m0, room)
    modifies p, s`data, s`bytes
    ensures p.Valid() && s.bytes == Total(s.data) && |p.keys| == |old(p.keys)| - 1
    ensures Evicting(p.keys, s.data, o0, m0, room)
  {
    EvictingGoesOn(p.keys, s.data, o0, m0, room);
    DropBackKey(p, s);
  }

  lemma EvictingStarts(o: seq<Key>, m: map<Key, Entry>, room: int)
    requires NoDups(o) && KeySet(o) == m.Keys
    ensures Evicting(o, m, o, m, room)
  {
    RestrictToAll(m, o);
  }

  /** Evict from the back of the list until `needed` more bytes fit. */
  method EvictUntilFits(p: LRUEvict, s: Shard, needed: nat, ghost o0: seq<Key>, ghost m0: map<Key, Entry>)
    requires p.Valid() && s.bytes == Total(s.data)
    requires Evicting(p.keys, s.data, o0, m0, s.budget - needed)
    modifies p, s`data, s`bytes
    ensures p.Valid() && s.bytes == Total(s.data)
    ensures Evicting(p.keys, s.data, o0, m0, s.budget - needed)
    ensures p.keys == [] || s.bytes + needed <= s.budget
  {
    ghost var room := s.budget - needed;
    var len := p.Len();
    while s.bytes + needed > s.budget && len > 0
      invariant len == |p.keys| && p.Valid() && s.bytes == Total(s.data)
      invariant Evicting(p.keys, s.data, o0, m0, room)
      decreases len
    {
      EvictBack(p, s, o0, m0, room);
      len := len - 1;
    }
  }

  lemma RestrictKeys(m: map<Key, Entry>, o: seq<Key>, keep: seq<Key>)
    requires KeySet(o) == m.Keys && keep <= o
    ensures Restrict(m, keep).Keys == KeySet(keep)
  {
    forall k | k in keep
      ensures k in m
    {
      assert k in KeySet(o);
    }
  }

  /** Forget the key being overwritten, then make room. */
  method LruBeforeWrite(p: LRUEvict, s: Shard, key: Key, needed: nat) returns (ok: bool)
    requires p.Valid() && s.bytes == Total(s.data)
    requires KeySet(p.keys) - {key} == s.data.Keys
    modifies p, s`data, s`bytes
    ensures ok && p.Valid() && s.bytes == Total(s.data)
    ensures LruMakesRoom(Without(old(p.keys), key), old(s.data), needed, s.budget, p.keys)
    ensures s.data == Restrict(old(s.data), p.keys) && KeySet(p.keys) == s.data.Keys
    ensures s.budget > 0 ==> s.bytes + needed <= s.budget || s.data == map[]
  {
    p.KeysAreDistinct();
    WithoutKeys(p.keys, key);
    p.Forget(key);
    ghost var o, m := p.keys, s.data;
    if s.budget == 0 {
      RestrictToAll(m, o);
    } else {
      EvictingStarts(o, m, s.budget - needed);
      EvictUntilFits(p, s, needed, o, m);
      RestrictKeys(m, o, p.keys);
    }
    return true;
  }

  // ---------- Sampling ----------

  /** `victim` expires first among `sample`: five of the entries, or all if there are fewer. */
  ghost predicate SoonestIn(m: map<Key, Entry>, victim: Key, sample: set<Key>) {
    && sample <= m.Keys && |sample| == Min(5, |m|)
    && victim in sample && forall k :: k in sample ==> m[victim].expiredAt <= m[k].expiredAt
  }

  /** One eviction: the entry that goes is the soonest of some sample. */
  ghost predicate SoonestOut(m: map<Key, Entry>, m': map<Key, Entry>) {
    exists victim, sample :: SoonestIn(m, victim, sample) && m' == m - {victim}
  }

  /** One more eviction, which was needed. */
  ghost predicate EvictsAt(trace: seq<map<Key, Entry>>, needed: nat, budget: nat, i: nat)
    requires i + 1 < |trace|
  {
    Total(trace[i]) + needed > budget && SoonestOut(trace[i], trace[i + 1])
  }

  /** From `m` to `m'` by evictions of that kind, none of them once there was room. */
  ghost predicate SampledDown(trace: seq<map<Key, Entry>>, m: map<Key, Entry>, m': map<Key, Entry>, needed: nat, budget: nat) {
    && |trace| > 0 && trace[0] == m && trace[|trace| - 1] == m'
    && forall i :: 0 <= i < |trace| - 1 ==> EvictsAt(trace, needed, budget, i)
  }

  /** What sampling eviction may leave for an incoming write of `needed` bytes. */
  ghost predicate SamplingMakesRoom(m: map<Key, Entry>, needed: nat, budget: nat, m': map<Key, Entry>) {
    if budget == 0 then m' == m
    else WithinOrEmpty(m', needed, budget) && exists trace :: SampledDown(trace, m, m', needed, budget)
  }

  lemma SampledFurther(
    trace: seq<map<Key, Entry>>, m: map<Key, Entry>, m1: map<Key, Entry>, m2: map<Key, Entry>, needed: nat, budget: nat)
    requires SampledDown(trace, m, m1, needed, budget) && Total(m1) + needed > budget && SoonestOut(m1, m2)
    ensures SampledDown(trace + [m2], m, m2, needed, budget)
  {
    var trace' := trace + [m2];
    forall i | 0 <= i < |trace'| - 1
      ensures EvictsAt(trace', needed, budget, i)
    {
      assert i < |trace| - 1 ==> EvictsAt(trace, needed, budget, i);
    }
  }

  /** Visits up to five entries in an arbitrary map order; the victim is the one
      that expires first among them. */
  method SoonestOfSample(m: map<Key, Entry>) returns (victim: Key, sample: set<Key>)
    requires |m| > 0
    ensures SoonestIn(m, victim, sample)
  {
    var count := 0;
    sample, victim := {}, Key([]);
    while count < SAMPLE && count < |m|
      invariant 0 <= count <= Min(SAMPLE, |m|) && sample <= m.Keys && |sample| == count
      invariant count > 0 ==> victim in sample
      invariant forall k :: k in sample ==> m[victim].expiredAt <= m[k].expiredAt
    {
      UnvisitedExists(m, sample);
      var key :| key in m && key !in sample;
      if count == 0 || m[key].expiredAt < m[victim].expiredAt {
        victim := key;
      }
      sample := sample + {key};
      count := count + 1;
    }
  }

  lemma UnvisitedExists(m: map<Key, Entry>, seen: set<Key>)
    requires seen <= m.Keys && |seen| < |m|
    ensures exists k :: k in m && k !in seen
  {
    assert m.Keys - seen != {} by {
      assert m.Keys == (m.Keys - seen) + seen;
    }
    var k :| k in m.Keys - seen;
  }

  method EvictSoonestOfSample(s: Shard) returns (victim: Key, sample: set<Key>)
    requires s.bytes == Total(s.data) && |s.data| > 0
    modifies s`data, s`bytes
    ensures s.bytes == Total(s.data)
    ensures SoonestIn(old(s.data), victim, sample) && s.data == old(s.data) - {victim}
  {
    victim, sample := SoonestOfSample(s.data);
    s.Evict(victim);
  }

  /** Terminates for every map order, because each round takes one entry out. */
  method SamplingBeforeWrite(s: Shard, needed: nat) returns (ok: bool)
    requires s.bytes == Total(s.data)
    modifies s`data, s`bytes
    ensures ok && s.bytes == Total(s.data)
    ensures Submap(s.data, old(s.data))
    ensures SamplingMakesRoom(old(s.data), needed, s.budget, s.data)
  {
    if s.budget == 0 {
      return true;
    }
    ghost var trace := [s.data];
    while s.bytes + needed > s.budget && |s.data| > 0
      invariant s.bytes == Total(s.data) && Submap(s.data, old(s.data))
      invariant SampledDown(trace, old(s.data), s.data, needed, s.budget)
      decreases |s.data|
    {
      ghost var m := s.data;
      var victim, sample := EvictSoonestOfSample(s);
      RemoveShrinks(m, victim);
      SampledFurther(trace, old(s.data), m, s.data, needed, s.budget);
      trace := trace + [s.data];
    }
    return true;
  }
}
