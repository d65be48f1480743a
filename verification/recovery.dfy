/** What replaying a log means: the apply callback of `recover` in
    storage/store/kv_store_util.go, folded over the records. */
module Recovery {
  import opened Entries
  import opened WalRecord

  function KeyOf(r: Record): Key {
    Key(r.key)
  }

  /** The callback: a value already expired at `now` is not loaded, yet still
      replaces what was there before. */
  function Loaded(m: map<Key, Entry>, r: Record, now: int): map<Key, Entry> {
    if r.op == OP_SET then
      if now < r.expiresAt then m[KeyOf(r) := Entry(r.value, r.expiresAt)] else m - {KeyOf(r)}
    else if r.op == OP_DELETE then m - {KeyOf(r)}
    else m
  }

  function LoadAll(m: map<Key, Entry>, rs: seq<Record>, now: int): map<Key, Entry> {
    if rs == [] then m else Loaded(LoadAll(m, rs[..|rs| - 1], now), rs[|rs| - 1], now)
  }

  function Rebuild(rs: seq<Record>, now: int): map<Key, Entry> {
    LoadAll(map[], rs, now)
  }

  /** Entries still good at `now`, by recovery's strict comparison. */
  function Alive(m: map<Key, Entry>, now: int): map<Key, Entry> {
    map k | k in m && now < m[k].expiredAt :: m[k]
  }

  // ---------- One key at a time ----------

  datatype Effect = Untouched | Gone | Holds(e: Entry)

  function EffectOf(r: Record, k: Key, now: int): Effect {
    if KeyOf(r) != k then Untouched
    else if r.op == OP_SET then if now < r.expiresAt then Holds(Entry(r.value, r.expiresAt)) else Gone
    else if r.op == OP_DELETE then Gone
    else Untouched
  }

  /** The last record that concerns `k` decides. */
  function EffectOn(rs: seq<Record>, k: Key, now: int): Effect {
    if rs == [] then Untouched
    else
      var last := EffectOf(rs[|rs| - 1], k, now);
      if last == Untouched then EffectOn(rs[..|rs| - 1], k, now) else last
  }

  function At(m: map<Key, Entry>, k: Key): Effect {
    if k in m then Holds(m[k]) else Gone
  }

  function Over(before: Effect, after: Effect): Effect {
    if after == Untouched then before else after
  }

  lemma {:induction false} LoadAllAt(m: map<Key, Entry>, rs: seq<Record>, now: int, k: Key)
    ensures At(LoadAll(m, rs, now), k) == Over(At(m, k), EffectOn(rs, k, now))
  {
    if rs != [] {
      LoadAllAt(m, rs[..|rs| - 1], now, k);
    }
  }

  lemma {:induction false} EffectOfConcat(a: seq<Record>, b: seq<Record>, k: Key, now: int)
    ensures EffectOn(a + b, k, now) == Over(EffectOn(a, k, now), EffectOn(b, k, now))
  {
    if b == [] {
      assert a + b == a;
    } else {
      var last := |b| - 1;
      EffectOfConcat(a, b[..last], k, now);
      assert (a + b)[..|a + b| - 1] == a + b[..last];
    }
  }

  lemma SameEverywhere(m: map<Key, Entry>, m': map<Key, Entry>)
    requires forall k :: At(m, k) == At(m', k)
    ensures m == m'
  {
    forall k | k in m
      ensures k in m' && m'[k] == m[k]
    {
      assert At(m, k) == At(m', k);
    }
    forall k | k in m'
      ensures k in m
    {
      assert At(m, k) == At(m', k);
    }
  }

  lemma {:induction false} LoadAllConcat(m: map<Key, Entry>, a: seq<Record>, b: seq<Record>, now: int)
    ensures LoadAll(m, a + b, now) == LoadAll(LoadAll(m, a, now), b, now)
  {
    if b == [] {
      assert a + b == a;
    } else {
      var last := |b| - 1;
      LoadAllConcat(m, a, b[..last], now);
      assert (a + b)[..|a + b| - 1] == a + b[..last];
    }
  }

  /** Applying a suffix of a history again, to the history's own result, changes nothing. */
  lemma ReapplyingSuffix(a: seq<Record>, b: seq<Record>, now: int)
    ensures LoadAll(Rebuild(a + b, now), b, now) == Rebuild(a + b, now)
  {
    var m := Rebuild(a + b, now);
    forall k
      ensures At(LoadAll(m, b, now), k) == At(m, k)
    {
      LoadAllAt(map[], a + b, now, k);
      LoadAllAt(m, b, now, k);
      EffectOfConcat(a, b, k, now);
    }
    SameEverywhere(LoadAll(m, b, now), m);
  }

  /** Recovering later loses exactly the entries that expired in between. */
  lemma {:induction false} RebuildLater(rs: seq<Record>, now: int, later: int)
    requires now <= later
    ensures Alive(Rebuild(rs, now), later) == Rebuild(rs, later)
  {
    if rs != [] {
      var front, r := rs[..|rs| - 1], rs[|rs| - 1];
      RebuildLater(front, now, later);
      LoadedLater(Rebuild(front, now), r, now, later);
    }
  }

  lemma LoadedLater(m: map<Key, Entry>, r: Record, now: int, later: int)
    requires now <= later
    ensures Alive(Loaded(m, r, now), later) == Loaded(Alive(m, later), r, later)
  {
  }

  /** The codec forgets a delete's expiry, which recovery never looks at. */
  lemma {:induction false} RebuildStored(rs: seq<Record>, now: int)
    ensures Rebuild(StoredAll(rs), now) == Rebuild(rs, now)
  {
    if rs != [] {
      var last := |rs| - 1;
      RebuildStored(rs[..last], now);
      assert StoredAll(rs)[..last] == StoredAll(rs[..last]);
    }
  }

  // ---------- Snapshots ----------

  /** What Compact writes for `m` at time `now`, in any order: one set record for
      each entry that has not expired, and nothing else. */
  ghost predicate IsSnapshot(snap: seq<Record>, m: map<Key, Entry>, now: int) {
    && (forall i :: 0 <= i < |snap| ==> Snapshots(snap[i], m, now))
    && (forall i, j :: 0 <= i < j < |snap| ==> snap[i].key != snap[j].key)
    && (forall k :: k in m && now <= m[k].expiredAt ==> Written(snap, k))
  }

  ghost predicate Snapshots(r: Record, m: map<Key, Entry>, now: int) {
    && KeyOf(r) in m && now <= m[KeyOf(r)].expiredAt
    && r == Record(OP_SET, r.key, m[KeyOf(r)].value, m[KeyOf(r)].expiredAt)
  }

  ghost predicate Written(snap: seq<Record>, k: Key) {
    exists i :: 0 <= i < |snap| && KeyOf(snap[i]) == k
  }

  lemma {:induction false} EffectOfOnly(rs: seq<Record>, i: nat, k: Key, now: int)
    requires i < |rs| && KeyOf(rs[i]) == k && EffectOf(rs[i], k, now) != Untouched
    requires forall j :: i < j < |rs| ==> rs[j].key != k.chars
    ensures EffectOn(rs, k, now) == EffectOf(rs[i], k, now)
  {
    var last := |rs| - 1;
    if i < last {
      assert rs[last].key != k.chars;
      EffectOfOnly(rs[..last], i, k, now);
    }
  }

  lemma {:induction false} EffectOfNone(rs: seq<Record>, k: Key, now: int)
    requires forall j :: 0 <= j < |rs| ==> rs[j].key != k.chars
    ensures EffectOn(rs, k, now) == Untouched
  {
    if rs != [] {
      assert rs[|rs| - 1].key != k.chars;
      EffectOfNone(rs[..|rs| - 1], k, now);
    }
  }

  lemma SnapshotEffect(snap: seq<Record>, m: map<Key, Entry>, now: int, later: int, k: Key)
    requires IsSnapshot(snap, m, now) && now <= later
    ensures Over(Gone, EffectOn(snap, k, later)) == At(Alive(m, later), k)
  {
    if Written(snap, k) {
      var i :| 0 <= i < |snap| && KeyOf(snap[i]) == k;
      assert Snapshots(snap[i], m, now);
      EffectOfOnly(snap, i, k, later);
    } else {
      forall j | 0 <= j < |snap|
        ensures snap[j].key != k.chars
      {
        assert KeyOf(snap[j]) != k;
      }
      EffectOfNone(snap, k, later);
    }
  }

  /** Replaying a snapshot at any later time gives the live entries of that time. */
  lemma SnapshotRebuilds(snap: seq<Record>, m: map<Key, Entry>, now: int, later: int)
    requires IsSnapshot(snap, m, now) && now <= later
    ensures Rebuild(snap, later) == Alive(m, later)
  {
    forall k
      ensures At(Rebuild(snap, later), k) == At(Alive(m, later), k)
    {
      LoadAllAt(map[], snap, later, k);
      SnapshotEffect(snap, m, now, later, k);
    }
    SameEverywhere(Rebuild(snap, later), Alive(m, later));
  }

  /** Compaction preserves meaning: the snapshot followed by any still-unflushed
      suffix of the history replays, at any later time, like the history itself,
      provided memory agreed with the history when the snapshot was taken. */
  lemma CompactionPreservesMeaning(
    flushed: seq<Record>, pending: seq<Record>, m: map<Key, Entry>, snap: seq<Record>, now: int, later: int)
    requires IsSnapshot(snap, m, now) && now <= later
    requires Alive(m, later) == Rebuild(flushed + pending, later)
    ensures Rebuild(snap + pending, later) == Rebuild(flushed + pending, later)
  {
    LoadAllConcat(map[], snap, pending, later);
    SnapshotRebuilds(snap, m, now, later);
    ReapplyingSuffix(flushed, pending, later);
  }
}
