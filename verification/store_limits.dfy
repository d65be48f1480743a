/** Memory limits over whole lives of a store: the cap under NoEvict, what a
    restart does to it, and lives in which refused or evicted entries come back. */
module StoreLimits {
  import opened Entries
  import opened Shards
  import opened WalRecord
  import opened Recovery
  import opened Store
  import opened StoreRuns

  // ---------- The cap ----------

  ghost predicate InBudget(cfg: Config, m: map<Key, Entry>) {
    PartsFit(cfg.hash, cfg.shards, cfg.budget, m)
  }

  lemma StepKeepsBudget(cfg: Config, s: Db, s': Db)
    requires cfg.policy == NoEvict && InBudget(cfg, s.mem) && StaysUp(cfg, s, s')
    ensures InBudget(cfg, s'.mem)
  {
    var step: Step, t :| !step.Restart? && Steps(cfg, s, step, t, s');
    match step
    case Set(key, e, ok) => NoEvictKeepsParts(cfg.hash, cfg.shards, cfg.budget, s.mem, key, e, ok, s'.mem);
    case _ => SubmapFits(cfg.hash, cfg.shards, cfg.budget, s.mem, s'.mem);
  }

  lemma EmptyFits(cfg: Config)
    ensures InBudget(cfg, map[])
  {
    forall i | 0 <= i < cfg.shards
      ensures PartFits(cfg.hash, cfg.shards, i, cfg.budget, map[])
    {
      assert Part(cfg.hash, cfg.shards, i, map[]) == map[];
      assert Total(map[]) == 0;
    }
  }

  lemma {:induction false} SessionInBudget(cfg: Config, run: seq<Db>, i: nat)
    requires IsSession(cfg, run) && cfg.policy == NoEvict && InBudget(cfg, run[0].mem) && i < |run|
    ensures InBudget(cfg, run[i].mem)
  {
    if i > 0 {
      SessionInBudget(cfg, run, i - 1);
      assert UpAt(cfg, run, i - 1);
      StepKeepsBudget(cfg, run[i - 1], run[i]);
    }
  }

  /** NoEvict, from a start within budget (an empty log, or a restart as in
      RestartFits) and until the next restart: the store never takes more than the
      configured cap, whatever is set, deleted, swept or compacted. */
  lemma CapHolds(cfg: Config, maxMemory: int, run: seq<Db>, i: nat)
    requires IsSession(cfg, run) && cfg.policy == NoEvict && InBudget(cfg, run[0].mem) && i < |run|
    requires cfg.budget == ShardBudget(maxMemory, cfg.shards) && cfg.shards <= maxMemory
    ensures Total(run[i].mem) <= maxMemory
  {
    SessionInBudget(cfg, run, i);
    PartsFitTheCap(cfg.hash, cfg.shards, maxMemory, run[i].mem);
  }

  /** NoEvict, in any state of any run: a write is stored exactly when its shard,
      without the entry it replaces, has room for it in an equal share of the
      configured memory. A configured memory too small to share out limits nothing. */
  lemma StoredExactlyWhenItFits(cfg: Config, maxMemory: int, s: Db, key: Key, e: Entry, ok: bool, t: int, s': Db)
    requires cfg.policy == NoEvict && cfg.budget == ShardBudget(maxMemory, cfg.shards)
    requires Steps(cfg, s, Set(key, e, ok), t, s')
    ensures var others := Part(cfg.hash, cfg.shards, cfg.hash(key) % cfg.shards, s.mem) - {key};
            ok <==> maxMemory < cfg.shards || Total(others) + |key.chars| + |e.value| <= maxMemory / cfg.shards
    ensures s'.mem == if ok then s.mem[key := e] else s.mem
  {
    if maxMemory > 0 {
      BudgetSplit(maxMemory, cfg.shards);
    }
    StoreSetIsFlatSet(cfg.hash, cfg.shards, cfg.policy, cfg.budget, s.mem, key, e, ok, s'.mem);
  }

  // ---------- Restarts ----------

  /** What a restart finds again in memory, and what it finds besides. */
  function Kept(s: Db, now: int): map<Key, Entry> {
    Alive(s.mem - s.hidden.Keys, now)
  }

  function Regained(s: Db, now: int): map<Key, Entry> {
    Alive(s.hidden, now)
  }

  ghost predicate FitTogether(cfg: Config, s: Db, now: int, i: nat) {
    Total(Part(cfg.hash, cfg.shards, i, Kept(s, now))) + Total(Part(cfg.hash, cfg.shards, i, Regained(s, now))) <= cfg.budget
  }

  lemma TotalsAdd(cfg: Config, s: Db, now: int, i: nat)
    ensures var m := Alive(s.mem + s.hidden, now);
            && Total(Part(cfg.hash, cfg.shards, i, m)) ==
               Total(Part(cfg.hash, cfg.shards, i, Kept(s, now))) + Total(Part(cfg.hash, cfg.shards, i, Regained(s, now)))
            && Total(m) == Total(Kept(s, now)) + Total(Regained(s, now))
  {
    KeptAndRegained(s, now);
    TotalDisjoint(Kept(s, now), Regained(s, now));
    PartsAdd(cfg.hash, cfg.shards, i, Kept(s, now), Regained(s, now));
  }

  lemma KeptAndRegained(s: Db, now: int)
    ensures Kept(s, now).Keys !! Regained(s, now).Keys
    ensures Alive(s.mem + s.hidden, now) == Kept(s, now) + Regained(s, now)
  {
  }

  lemma PartsAdd(hash: Key -> nat, n: pos, i: nat, a: map<Key, Entry>, b: map<Key, Entry>)
    requires a.Keys !! b.Keys
    ensures Total(Part(hash, n, i, a + b)) == Total(Part(hash, n, i, a)) + Total(Part(hash, n, i, b))
  {
    assert Part(hash, n, i, a + b) == Part(hash, n, i, a) + Part(hash, n, i, b);
    TotalDisjoint(Part(hash, n, i, a), Part(hash, n, i, b));
  }

  /** A restart at any moment of any run finds every shard within its budget if and
      only if, in each shard, the unexpired refused or evicted entries fit beside
      the unexpired entries whose latest write is in memory; and the whole store
      within the cap if and only if they do so in total. */
  lemma RestartFits(cfg: Config, maxMemory: int, run: seq<Db>, i: nat, now: int)
    requires IsRun(cfg, run) && i < |run| && run[i].clock <= now && AllStorable(run[i].log)
    ensures InBudget(cfg, Recovered(run[i], now)) <==>
            (cfg.budget > 0 ==> forall j :: 0 <= j < cfg.shards ==> FitTogether(cfg, run[i], now, j))
    ensures Total(Recovered(run[i], now)) <= maxMemory <==>
            Total(Kept(run[i], now)) + Total(Regained(run[i], now)) <= maxMemory
  {
    RecoveryTellsAll(cfg, run, i, now);
    TotalsAdd(cfg, run[i], now, 0);
    forall j | 0 <= j < cfg.shards
      ensures PartFits(cfg.hash, cfg.shards, j, cfg.budget, Recovered(run[i], now)) <==> FitTogether(cfg, run[i], now, j)
    {
      TotalsAdd(cfg, run[i], now, j);
    }
  }

  // ---------- A refused write comes back ----------

  lemma OnePart(hash: Key -> nat, n: pos, k: Key, e: Entry)
    ensures Part(hash, n, hash(k) % n, map[k := e]) == map[k := e] && Part(hash, n, hash(k) % n, map[]) == map[]
  {
  }

  lemma TotalOfOne(k: Key, e: Entry)
    ensures Total(map[k := e]) == Size(k, e) && Total(map[]) == 0
  {
    assert map[k := e] == map[][k := e];
    TotalInsert(map[], k, e);
  }

  /** The life in which `e` is stored under `k` and its replacement `f` is refused. */
  function RefusalRun(k: Key, e: Entry, f: Entry): seq<Db> {
    [Db(map[], [], 0, map[]),
     Db(map[k := e], [SetRecord(k, e)], 0, map[]),
     Db(map[k := e], [SetRecord(k, e)] + [SetRecord(k, f)], 0, map[k := f])]
  }

  /** The policy's own size test lets `e` in and keeps `f` out. */
  lemma NoEvictDecides(budget: nat, k: Key, e: Entry, f: Entry)
    requires 0 < budget && Size(k, e) <= budget < Size(k, f)
    ensures SetDone(NoEvict, budget, [], map[], k, e, true, [], map[k := e])
    ensures SetDone(NoEvict, budget, [], map[k := e], k, f, false, [], map[k := e])
  {
    var none: map<Key, Entry> := map[];
    TotalOfOne(k, e);
    assert map[k := e] - {k} == none && none - {k} == none;
  }

  lemma RefusalRunIsASession(cfg: Config, k: Key, e: Entry, f: Entry)
    requires cfg.policy == NoEvict && 0 < cfg.budget && Size(k, e) <= cfg.budget < Size(k, f)
    requires Storable(SetRecord(k, e)) && Storable(SetRecord(k, f))
    ensures IsSession(cfg, RefusalRun(k, e, f))
  {
    var run := RefusalRun(k, e, f);
    OnePart(cfg.hash, cfg.shards, k, e);
    NoEvictDecides(cfg.budget, k, e, f);
    assert Steps(cfg, run[0], Set(k, e, true), 0, run[1]);
    assert Steps(cfg, run[1], Set(k, f, false), 0, run[2]);
    assert UpAt(cfg, run, 0) && UpAt(cfg, run, 1);
  }

  /** Whenever the old entry of a key fits the budget and its replacement alone
      does not, the replacement is refused, and a restart brings it up. */
  lemma RefusedWriteResurfaces(cfg: Config, k: Key, e: Entry, f: Entry, now: int)
    requires cfg.policy == NoEvict && 0 < cfg.budget && Size(k, e) <= cfg.budget < Size(k, f)
    requires Storable(SetRecord(k, e)) && Storable(SetRecord(k, f))
    requires 0 <= now < f.expiredAt
    ensures IsSession(cfg, RefusalRun(k, e, f))
    ensures Recovered(RefusalRun(k, e, f)[2], now) == map[k := f] != Alive(RefusalRun(k, e, f)[2].mem, now)
  {
    var run := RefusalRun(k, e, f);
    RefusalRunIsASession(cfg, k, e, f);
    SessionIsARun(cfg, run);
    RecoveryTellsAll(cfg, run, 2, now);
    assert map[k := e] + map[k := f] == map[k := f];
    assert Alive(map[k := f], now) == map[k := f];
    assert |e.value| != |f.value|;
    assert k in Alive(run[2].mem, now) ==> Alive(run[2].mem, now)[k] == e;
  }

  /** So a restart can break the cap, with as many shards as bytes or fewer: it is
      enough that one refused write is larger than the cap itself. */
  lemma RestartBreaksTheCap(cfg: Config, maxMemory: int, k: Key, e: Entry, f: Entry, now: int)
    requires cfg.policy == NoEvict && cfg.budget == ShardBudget(maxMemory, cfg.shards) && cfg.shards <= maxMemory
    requires Size(k, e) <= cfg.budget && maxMemory < Size(k, f)
    requires Storable(SetRecord(k, e)) && Storable(SetRecord(k, f)) && 0 <= now < f.expiredAt
    ensures IsSession(cfg, RefusalRun(k, e, f)) && InBudget(cfg, RefusalRun(k, e, f)[0].mem)
    ensures Total(RefusalRun(k, e, f)[2].mem) <= maxMemory < Total(Recovered(RefusalRun(k, e, f)[2], now))
  {
    BudgetSplit(maxMemory, cfg.shards);
    AtLeastOnce(cfg.budget, cfg.shards);
    RefusedWriteResurfaces(cfg, k, e, f, now);
    EmptyFits(cfg);
    TotalOfOne(k, e);
    TotalOfOne(k, f);
  }

  lemma {:induction false} AtLeastOnce(q: nat, n: pos)
    ensures n * q >= q
  {
    if n > 1 {
      AtLeastOnce(q, n - 1);
      assert n * q == (n - 1) * q + q;
    }
  }

  // ---------- An evicted entry comes back ----------

  /** The life in which storing `f` under `j` evicts `e` under `k`. */
  function EvictionRun(k: Key, e: Entry, j: Key, f: Entry): seq<Db> {
    [Db(map[], [], 0, map[]),
     Db(map[k := e], [SetRecord(k, e)], 0, map[]),
     Db(map[j := f], [SetRecord(k, e)] + [SetRecord(j, f)], 0, map[k := e])]
  }

  /** Two entries that fit alone but not together. */
  predicate Crowd(budget: nat, k: Key, e: Entry, j: Key, f: Entry) {
    k != j && Size(k, e) <= budget && Size(j, f) <= budget < Size(k, e) + Size(j, f)
  }

  lemma LruDecides(budget: nat, k: Key, e: Entry, j: Key, f: Entry)
    requires Crowd(budget, k, e, j, f) && 0 < budget
    ensures SetDone(Strict, budget, [], map[], k, e, true, [k], map[k := e])
    ensures SetDone(Strict, budget, [k], map[k := e], j, f, true, [j], map[j := f])
  {
    var none: map<Key, Entry> := map[];
    TotalOfOne(k, e);
    assert map[k := e] - {k} == none && none - {k} == none && [k][1..] == [];
    assert map[j := f] - {j} == none && map[k := e] - {j} == map[k := e] && [j][1..] == [];
    assert Without([k], j) == [k] && Without([], k) == [];
    assert Restrict(map[k := e], [k]) == map[k := e];
    assert [k][..1] == [k];
    assert TooBig([k], map[k := e], budget - Size(j, f), 1);
  }

  lemma SamplingDecides(budget: nat, k: Key, e: Entry, j: Key, f: Entry)
    requires Crowd(budget, k, e, j, f) && 0 < budget
    ensures SetDone(Sampling, budget, [], map[], k, e, true, [], map[k := e])
    ensures SetDone(Sampling, budget, [], map[k := e], j, f, true, [], map[j := f])
  {
    var none: map<Key, Entry> := map[];
    TotalOfOne(k, e);
    assert map[k := e] - {k} == none && none - {k} == none;
    assert map[j := f] - {j} == none && map[k := e] - {j} == map[k := e];
    assert SampledDown([none], none, none, Size(k, e), budget);
    assert SoonestIn(map[k := e], k, {k});
    assert EvictsAt([map[k := e], none], Size(j, f), budget, 0);
    assert SampledDown([map[k := e], none], map[k := e], none, Size(j, f), budget);
  }

  lemma EvictionRunIsASession(cfg: Config, k: Key, e: Entry, j: Key, f: Entry)
    requires cfg.policy != NoEvict && 0 < cfg.budget && Crowd(cfg.budget, k, e, j, f)
    requires cfg.hash(k) % cfg.shards == cfg.hash(j) % cfg.shards
    requires Storable(SetRecord(k, e)) && Storable(SetRecord(j, f))
    ensures IsSession(cfg, EvictionRun(k, e, j, f))
  {
    var run := EvictionRun(k, e, j, f);
    OnePart(cfg.hash, cfg.shards, k, e);
    OnePart(cfg.hash, cfg.shards, j, f);
    if cfg.policy == Strict {
      LruDecides(cfg.budget, k, e, j, f);
      assert KeySet([k]) == map[k := e].Keys;
    } else {
      SamplingDecides(cfg.budget, k, e, j, f);
    }
    assert Steps(cfg, run[0], Set(k, e, true), 0, run[1]);
    assert Steps(cfg, run[1], Set(j, f, true), 0, run[2]);
    assert UpAt(cfg, run, 0) && UpAt(cfg, run, 1);
  }

  /** LRU and sampling alike: of two entries of one shard that do not fit together
      the first is evicted, and a restart before its expiry brings it back. */
  lemma EvictedEntryReturns(cfg: Config, k: Key, e: Entry, j: Key, f: Entry, now: int)
    requires cfg.policy != NoEvict && 0 < cfg.budget && Crowd(cfg.budget, k, e, j, f)
    requires cfg.hash(k) % cfg.shards == cfg.hash(j) % cfg.shards
    requires Storable(SetRecord(k, e)) && Storable(SetRecord(j, f)) && 0 <= now < e.expiredAt
    ensures var run := EvictionRun(k, e, j, f);
            && IsSession(cfg, run) && k !in run[2].mem
            && k in Recovered(run[2], now) && Recovered(run[2], now)[k] == e
            && Recovered(run[2], now) != Alive(run[2].mem, now)
  {
    var run := EvictionRun(k, e, j, f);
    EvictionRunIsASession(cfg, k, e, j, f);
    SessionIsARun(cfg, run);
    RecoveryTellsAll(cfg, run, 2, now);
    assert k in Alive(run[2].mem + run[2].hidden, now);
  }
}
