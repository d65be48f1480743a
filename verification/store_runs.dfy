/** Whole lives of one store: sets, deletes, sweeps, compactions and restarts, one
    at a time under a clock that never goes back. The steps are what the methods
    of Store.KVStore promise about its flat map and its log (module Sessions runs
    the class and yields such a life). */
module StoreRuns {
  import opened Entries
  import opened Shards
  import opened WalRecord
  import opened Recovery
  import opened Store

  type pos = n: nat | n > 0 witness 1

  /** What a store is opened with; `budget` is that of each shard. */
  datatype Config = Config(hash: Key -> nat, shards: pos, policy: Policy, budget: nat)

  /** Memory, the log (on disk or on its way there), and the time of the latest
      step. `hidden` is history: what the log says and memory does not show, namely
      the writes that memory refused and the entries it evicted, as long as the
      log's latest record for their key is theirs. */
  datatype Db = Db(mem: map<Key, Entry>, log: seq<Record>, clock: int, hidden: map<Key, Entry>)

  datatype Step =
    | Set(key: Key, e: Entry, ok: bool)
    | Delete(key: Key)
    | Sweep
    | Compact(snap: seq<Record>, pending: nat)   // the last `pending` records were not yet in the file
    | Restart(kept: nat)                         // the first `kept` records had reached the file
    | Idle

  /** Keys that some record of `rs` sets or deletes. */
  ghost predicate Touches(rs: seq<Record>, k: Key) {
    EffectOn(rs, k, 0) != Untouched
  }

  ghost function StillPending(hidden: map<Key, Entry>, pending: seq<Record>): map<Key, Entry> {
    map k | k in hidden && Touches(pending, k) :: hidden[k]
  }

  function HiddenAfterSet(
    m: map<Key, Entry>, hidden: map<Key, Entry>, key: Key, e: Entry, ok: bool, m': map<Key, Entry>): map<Key, Entry>
  {
    if ok then ((m - m'.Keys) + hidden) - {key} else hidden[key := e]
  }

  /** `t` is the time of the step. */
  ghost predicate Steps(cfg: Config, s: Db, step: Step, t: int, s': Db) {
    && s.clock <= t && s'.clock == t
    && match step
       case Set(key, e, ok) =>
         && StoreSet(cfg.hash, cfg.shards, cfg.policy, cfg.budget, s.mem, key, e, ok, s'.mem)
         && s'.log == s.log + [SetRecord(key, e)]
         && s'.hidden == HiddenAfterSet(s.mem, s.hidden, key, e, ok, s'.mem)
       case Delete(key) =>
         && s'.mem == s.mem - {key} && s'.log == s.log + [DeleteRecord(key)]
         && s'.hidden == s.hidden - {key}
       case Sweep => s'.mem == Unexpired(s.mem, t) && s'.log == s.log && s'.hidden == s.hidden
       case Compact(snap, pending) =>
         && pending <= |s.log| && IsSnapshot(snap, s.mem, t)
         && s'.mem == s.mem && s'.log == snap + s.log[|s.log| - pending..]
         && s'.hidden == StillPending(s.hidden, s.log[|s.log| - pending..])
       case Restart(kept) =>
         && kept <= |s.log|
         && s'.log == s.log[..kept] && s'.mem == Rebuild(s'.log, t) && s'.hidden == map[]
       case Idle => s'.mem == s.mem && s'.log == s.log && s'.hidden == s.hidden
  }

  /** A store opened on any log. */
  ghost predicate Opened(s: Db) {
    s.mem == Rebuild(s.log, s.clock) && s.hidden == map[]
  }

  ghost predicate Next(cfg: Config, s: Db, s': Db) {
    exists step, t :: Steps(cfg, s, step, t, s')
  }

  ghost predicate StepAt(cfg: Config, run: seq<Db>, i: nat)
    requires i + 1 < |run|
  {
    Next(cfg, run[i], run[i + 1])
  }

  ghost predicate IsRun(cfg: Config, run: seq<Db>) {
    && |run| > 0 && Opened(run[0])
    && forall i :: 0 <= i < |run| - 1 ==> StepAt(cfg, run, i)
  }

  /** A step other than a restart. */
  ghost predicate StaysUp(cfg: Config, s: Db, s': Db) {
    exists step: Step, t :: !step.Restart? && Steps(cfg, s, step, t, s')
  }

  ghost predicate UpAt(cfg: Config, run: seq<Db>, i: nat)
    requires i + 1 < |run|
  {
    StaysUp(cfg, run[i], run[i + 1])
  }

  /** A run without restarts. */
  ghost predicate IsSession(cfg: Config, run: seq<Db>) {
    && |run| > 0 && Opened(run[0])
    && forall i :: 0 <= i < |run| - 1 ==> UpAt(cfg, run, i)
  }

  lemma SessionIsARun(cfg: Config, run: seq<Db>)
    requires IsSession(cfg, run)
    ensures IsRun(cfg, run)
  {
    forall i | 0 <= i < |run| - 1
      ensures StepAt(cfg, run, i)
    {
      assert UpAt(cfg, run, i);
    }
  }

  // ---------- Memory and log agree ----------

  /** What the log says, entry by entry: memory with the hidden entries in front. */
  function Told(s: Db): map<Key, Entry> {
    s.mem + s.hidden
  }

  ghost predicate AgreesAt(s: Db, now: int) {
    Rebuild(s.log, now) == Alive(Told(s), now)
  }

  /** Nothing hides without a budget, and an evicted entry is not in memory. */
  ghost predicate HiddenOk(cfg: Config, s: Db) {
    && (cfg.budget == 0 ==> s.hidden == map[])
    && (cfg.policy != NoEvict ==> s.hidden.Keys !! s.mem.Keys)
  }

  /** The log replays to memory and what hides behind it, now and at any later time. */
  ghost predicate Agrees(cfg: Config, s: Db) {
    && HiddenOk(cfg, s)
    && forall now :: s.clock <= now ==> AgreesAt(s, now)
  }

  lemma OpenedAgrees(cfg: Config, s: Db)
    requires Opened(s)
    ensures Agrees(cfg, s)
  {
    forall now | s.clock <= now
      ensures AgreesAt(s, now)
    {
      RebuildLater(s.log, s.clock, now);
      assert Told(s) == s.mem;
    }
  }

  lemma RebuildAppend(rs: seq<Record>, r: Record, now: int)
    ensures Rebuild(rs + [r], now) == Loaded(Rebuild(rs, now), r, now)
  {
    assert (rs + [r])[..|rs|] == rs;
  }

  lemma AliveAfterSet(m: map<Key, Entry>, key: Key, e: Entry, now: int)
    ensures Alive(m[key := e], now) == Loaded(Alive(m, now), SetRecord(key, e), now)
  {
  }

  /** A set, stored or refused, with or without evictions, changes what is told by exactly itself. */
  lemma SetTellsItself(cfg: Config, s: Db, key: Key, e: Entry, ok: bool, t: int, s': Db)
    requires Steps(cfg, s, Set(key, e, ok), t, s')
    ensures Told(s') == Told(s)[key := e]
  {
    StoreSetIsFlatSet(cfg.hash, cfg.shards, cfg.policy, cfg.budget, s.mem, key, e, ok, s'.mem);
    OverlayAfterSet(s.mem, s.hidden, key, e, ok, s'.mem);
  }

  lemma OverlayAfterSet(m: map<Key, Entry>, hidden: map<Key, Entry>, key: Key, e: Entry, ok: bool, m': map<Key, Entry>)
    requires if ok then key in m' && m'[key] == e && Submap(m' - {key}, m - {key}) else m' == m
    ensures m' + HiddenAfterSet(m, hidden, key, e, ok, m') == (m + hidden)[key := e]
  {
    if ok {
      assert forall k :: k in m' && k != key ==> k in m' - {key};
    }
  }

  lemma SetKeepsAgreement(cfg: Config, s: Db, key: Key, e: Entry, ok: bool, t: int, s': Db, now: int)
    requires Agrees(cfg, s) && Steps(cfg, s, Set(key, e, ok), t, s') && t <= now
    ensures AgreesAt(s', now)
  {
    assert AgreesAt(s, now);
    RebuildAppend(s.log, SetRecord(key, e), now);
    SetTellsItself(cfg, s, key, e, ok, t, s');
    AliveAfterSet(Told(s), key, e, now);
  }

  lemma SetKeepsHiddenOk(cfg: Config, s: Db, key: Key, e: Entry, ok: bool, t: int, s': Db)
    requires HiddenOk(cfg, s) && Steps(cfg, s, Set(key, e, ok), t, s')
    ensures HiddenOk(cfg, s')
  {
    StoreSetIsFlatSet(cfg.hash, cfg.shards, cfg.policy, cfg.budget, s.mem, key, e, ok, s'.mem);
    if ok {
      assert forall k :: k in s'.mem && k != key ==> k in s'.mem - {key};
    }
  }

  lemma AliveAfterDelete(m: map<Key, Entry>, key: Key, now: int)
    ensures Alive(m - {key}, now) == Alive(m, now) - {key}
  {
  }

  lemma DeleteKeepsAgreement(cfg: Config, s: Db, key: Key, t: int, s': Db, now: int)
    requires Agrees(cfg, s) && Steps(cfg, s, Delete(key), t, s') && t <= now
    ensures AgreesAt(s', now)
  {
    assert AgreesAt(s, now);
    RebuildAppend(s.log, DeleteRecord(key), now);
    assert Told(s') == Told(s) - {key};
    AliveAfterDelete(Told(s), key, now);
  }

  lemma AliveAfterSweep(m: map<Key, Entry>, hidden: map<Key, Entry>, t: int, now: int)
    requires t <= now
    ensures Alive(Unexpired(m, t) + hidden, now) == Alive(m + hidden, now)
  {
  }

  lemma SweepKeepsAgreement(cfg: Config, s: Db, t: int, s': Db, now: int)
    requires Agrees(cfg, s) && Steps(cfg, s, Sweep, t, s') && t <= now
    ensures AgreesAt(s', now)
  {
    assert AgreesAt(s, now);
    AliveAfterSweep(s.mem, s.hidden, t, now);
  }

  /** Whether a key is touched does not depend on the time. */
  lemma {:induction false} TouchesIsTimeless(rs: seq<Record>, k: Key, now: int)
    ensures Touches(rs, k) <==> EffectOn(rs, k, now) != Untouched
  {
    if rs != [] {
      TouchesIsTimeless(rs[..|rs| - 1], k, now);
    }
  }

  /** One key across a compaction: either a pending record decides it, as it did
      in the full log, or the snapshot does. */
  lemma CompactAt(flushed: seq<Record>, pending: seq<Record>, m: map<Key, Entry>, snap: seq<Record>, t: int, now: int, k: Key)
    requires IsSnapshot(snap, m, t) && t <= now
    ensures At(Rebuild(snap + pending, now), k) ==
            if Touches(pending, k) then At(Rebuild(flushed + pending, now), k) else At(Alive(m, now), k)
  {
    LoadAllAt(map[], snap + pending, now, k);
    LoadAllAt(map[], flushed + pending, now, k);
    EffectOfConcat(snap, pending, k, now);
    EffectOfConcat(flushed, pending, k, now);
    TouchesIsTimeless(pending, k, now);
    SnapshotEffect(snap, m, t, now, k);
  }

  lemma CompactKeepsAgreement(cfg: Config, s: Db, snap: seq<Record>, pending: nat, t: int, s': Db, now: int)
    requires Agrees(cfg, s) && Steps(cfg, s, Compact(snap, pending), t, s') && t <= now
    ensures AgreesAt(s', now)
  {
    assert AgreesAt(s, now);
    var cut := |s.log| - pending;
    var flushed, rest := s.log[..cut], s.log[cut..];
    assert s.log == flushed + rest;
    forall k
      ensures At(Rebuild(s'.log, now), k) == At(Alive(Told(s'), now), k)
    {
      CompactAt(flushed, rest, s.mem, snap, t, now, k);
    }
    SameEverywhere(Rebuild(s'.log, now), Alive(Told(s'), now));
  }

  lemma StepKeepsAgreementAt(cfg: Config, s: Db, step: Step, t: int, s': Db, now: int)
    requires Agrees(cfg, s) && Steps(cfg, s, step, t, s') && t <= now
    ensures AgreesAt(s', now)
  {
    match step
    case Set(key, e, ok) => SetKeepsAgreement(cfg, s, key, e, ok, t, s', now);
    case Delete(key) => DeleteKeepsAgreement(cfg, s, key, t, s', now);
    case Sweep => SweepKeepsAgreement(cfg, s, t, s', now);
    case Compact(snap, pending) => CompactKeepsAgreement(cfg, s, snap, pending, t, s', now);
    case Restart(kept) =>
      RebuildLater(s'.log, t, now);
      assert Told(s') == s'.mem;
    case Idle => assert AgreesAt(s, now);
  }

  lemma NextKeepsAgreement(cfg: Config, s: Db, s': Db)
    requires Agrees(cfg, s) && Next(cfg, s, s')
    ensures Agrees(cfg, s')
  {
    var step, t :| Steps(cfg, s, step, t, s');
    if step.Set? {
      SetKeepsHiddenOk(cfg, s, step.key, step.e, step.ok, t, s');
    }
    forall now | s'.clock <= now
      ensures AgreesAt(s', now)
    {
      StepKeepsAgreementAt(cfg, s, step, t, s', now);
    }
  }

  lemma {:induction false} RunAgrees(cfg: Config, run: seq<Db>, i: nat)
    requires IsRun(cfg, run) && i < |run|
    ensures Agrees(cfg, run[i])
  {
    if i == 0 {
      OpenedAgrees(cfg, run[0]);
    } else {
      RunAgrees(cfg, run, i - 1);
      assert StepAt(cfg, run, i - 1);
      NextKeepsAgreement(cfg, run[i - 1], run[i]);
    }
  }

  // ---------- What fits the log's fields ----------

  ghost predicate AllEntriesStorable(m: map<Key, Entry>) {
    forall k :: k in m ==> Storable(SetRecord(k, m[k]))
  }

  /** Every record in the log and every entry in memory fits a record's fields. */
  ghost predicate AllFit(s: Db) {
    AllStorable(s.log) && AllEntriesStorable(s.mem)
  }

  predicate StepFits(step: Step) {
    match step
    case Set(key, e, ok) => Storable(SetRecord(key, e))
    case Delete(key) => Storable(DeleteRecord(key))
    case _ => true
  }

  lemma {:induction false} RebuildStorable(rs: seq<Record>, now: int)
    requires AllStorable(rs)
    ensures AllEntriesStorable(Rebuild(rs, now))
  {
    if rs != [] {
      RebuildStorable(rs[..|rs| - 1], now);
    }
  }

  lemma SnapshotStorable(snap: seq<Record>, m: map<Key, Entry>, t: int)
    requires IsSnapshot(snap, m, t) && AllEntriesStorable(m)
    ensures AllStorable(snap)
  {
    forall i | 0 <= i < |snap|
      ensures Storable(snap[i])
    {
      assert Snapshots(snap[i], m, t);
      assert snap[i] == SetRecord(KeyOf(snap[i]), m[KeyOf(snap[i])]);
    }
  }

  /** Sets and deletes that fit keep everything fitting. */
  lemma StepKeepsFit(cfg: Config, s: Db, step: Step, t: int, s': Db)
    requires AllFit(s) && StepFits(step) && Steps(cfg, s, step, t, s')
    ensures AllFit(s')
  {
    match step
    case Set(key, e, ok) =>
      StoreSetIsFlatSet(cfg.hash, cfg.shards, cfg.policy, cfg.budget, s.mem, key, e, ok, s'.mem);
      if ok {
        assert forall k :: k in s'.mem && k != key ==> k in s'.mem - {key};
      }
    case Compact(snap, pending) =>
      SnapshotStorable(snap, s.mem, t);
    case Restart(kept) =>
      RebuildStorable(s'.log, t);
    case _ =>
  }

  // ---------- Recovery from bytes ----------

  /** The state that opening the log's bytes at `now` rebuilds. */
  function Recovered(s: Db, now: int): map<Key, Entry> {
    Rebuild(Replay(EncodeAll(s.log)).0, now)
  }

  lemma BytesReplayToTheLog(s: Db, now: int)
    requires AllStorable(s.log)
    ensures Replay(EncodeAll(s.log)).1 && Recovered(s, now) == Rebuild(s.log, now)
  {
    ReplayOfLog(s.log);
    RebuildStored(s.log, now);
  }

  /** Every policy, every budget: at any moment of any run, replaying the bytes of a
      log whose records fit succeeds and yields memory with the hidden entries in front. */
  lemma RecoveryTellsAll(cfg: Config, run: seq<Db>, i: nat, now: int)
    requires IsRun(cfg, run) && i < |run| && run[i].clock <= now && AllStorable(run[i].log)
    ensures Replay(EncodeAll(run[i].log)).1
    ensures Recovered(run[i], now) == Alive(run[i].mem + run[i].hidden, now)
  {
    RunAgrees(cfg, run, i);
    BytesReplayToTheLog(run[i], now);
    assert AgreesAt(run[i], now);
  }

  /** Unlimited memory: recovery yields exactly the live entries that have not expired. */
  lemma RecoveryIsExact(cfg: Config, run: seq<Db>, i: nat, now: int)
    requires IsRun(cfg, run) && cfg.budget == 0 && i < |run| && run[i].clock <= now && AllStorable(run[i].log)
    ensures Replay(EncodeAll(run[i].log)).1
    ensures Recovered(run[i], now) == Alive(run[i].mem, now)
  {
    RunAgrees(cfg, run, i);
    RecoveryTellsAll(cfg, run, i, now);
    assert run[i].mem + map[] == run[i].mem;
  }

  /** Get serves an entry up to and including the instant it expires, recovery
      does not: a restart shows exactly what Get showed, if and only if nothing
      stored expires at that very instant. */
  lemma RestartShowsWhatGetShowed(cfg: Config, run: seq<Db>, i: nat, now: int)
    requires IsRun(cfg, run) && cfg.budget == 0 && i < |run| && run[i].clock <= now && AllStorable(run[i].log)
    ensures Recovered(run[i], now) == Unexpired(run[i].mem, now) <==>
            forall k :: k in run[i].mem ==> run[i].mem[k].expiredAt != now
  {
    RecoveryIsExact(cfg, run, i, now);
    var m := run[i].mem;
    if k :| k in m && m[k].expiredAt == now {
      assert k in Unexpired(m, now) && k !in Alive(m, now);
    }
  }

  /** At any moment of any run, a compaction that finds any number of records not
      yet in the file leaves bytes that recover, at any later time, exactly what
      the bytes of the full log would have. */
  lemma CompactionIsInvisible(cfg: Config, run: seq<Db>, i: nat, snap: seq<Record>, t: int, pending: nat, now: int)
    requires IsRun(cfg, run) && cfg.budget == 0 && i < |run| && run[i].clock <= t <= now
    requires IsSnapshot(snap, run[i].mem, t) && pending <= |run[i].log| && AllFit(run[i])
    ensures var log := run[i].log;
            Recovered(run[i].(log := snap + log[|log| - pending..]), now) == Recovered(run[i], now)
  {
    var s := run[i];
    var flushed, rest := s.log[..|s.log| - pending], s.log[|s.log| - pending..];
    RunAgrees(cfg, run, i);
    RecoveryIsExact(cfg, run, i, now);
    BytesReplayToTheLog(s, now);
    assert s.log == flushed + rest;
    CompactionPreservesMeaning(flushed, rest, s.mem, snap, t, now);
    SnapshotStorable(snap, s.mem, t);
    BytesReplayToTheLog(s.(log := snap + rest), now);
  }

  /** LRU and sampling: evictions are not logged. Every live unexpired entry is
      recovered as it was, and with it exactly the evicted entries that have not
      expired; recovery is exact if and only if none of them is left. */
  lemma RecoveryUnderEviction(cfg: Config, run: seq<Db>, i: nat, now: int)
    requires IsRun(cfg, run) && cfg.policy != NoEvict && i < |run| && run[i].clock <= now && AllStorable(run[i].log)
    ensures Recovered(run[i], now) == Alive(run[i].mem, now) + Alive(run[i].hidden, now)
    ensures run[i].mem.Keys !! run[i].hidden.Keys && Submap(Alive(run[i].mem, now), Recovered(run[i], now))
    ensures Recovered(run[i], now) == Alive(run[i].mem, now) <==>
            forall k :: k in run[i].hidden ==> run[i].hidden[k].expiredAt <= now
  {
    RunAgrees(cfg, run, i);
    RecoveryTellsAll(cfg, run, i, now);
    DisjointOverlay(run[i].mem, run[i].hidden, now);
  }

  lemma DisjointOverlay(m: map<Key, Entry>, hidden: map<Key, Entry>, now: int)
    requires m.Keys !! hidden.Keys
    ensures Alive(m + hidden, now) == Alive(m, now) + Alive(hidden, now)
    ensures Alive(m + hidden, now) == Alive(m, now) <==> forall k :: k in hidden ==> hidden[k].expiredAt <= now
  {
    if k :| k in hidden && hidden[k].expiredAt > now {
      assert k in Alive(m + hidden, now) && k !in Alive(m, now);
    }
  }

  /** NoEvict with a budget: a refused write is already in the log, so recovery
      gives memory with the refused writes in place of what they would have
      replaced. It is exact if and only if, for every key whose latest log record
      is a refused write, that write and what is stored come to the same at that
      time: the same unexpired entry, or nothing unexpired. */
  lemma RecoveryUnderNoEvict(cfg: Config, run: seq<Db>, i: nat, now: int)
    requires IsRun(cfg, run) && cfg.policy == NoEvict && i < |run| && run[i].clock <= now && AllStorable(run[i].log)
    ensures Recovered(run[i], now) == Alive(run[i].mem + run[i].hidden, now)
    ensures Recovered(run[i], now) == Alive(run[i].mem, now) <==>
            forall k :: k in run[i].hidden ==> At(Alive(run[i].hidden, now), k) == At(Alive(run[i].mem, now), k)
  {
    RecoveryTellsAll(cfg, run, i, now);
    OverlayIsExact(run[i].mem, run[i].hidden, now);
  }

  lemma OverlayIsExact(m: map<Key, Entry>, hidden: map<Key, Entry>, now: int)
    ensures Alive(m + hidden, now) == Alive(m, now) <==>
            forall k :: k in hidden ==> At(Alive(hidden, now), k) == At(Alive(m, now), k)
  {
    forall k
      ensures At(Alive(m + hidden, now), k) == if k in hidden then At(Alive(hidden, now), k) else At(Alive(m, now), k)
    {
    }
    if forall k :: k in hidden ==> At(Alive(hidden, now), k) == At(Alive(m, now), k) {
      SameEverywhere(Alive(m + hidden, now), Alive(m, now));
    }
  }

  // ---------- A compaction whose pending records are only partly flushed ----------

  /** One key: a record written behind the snapshot decides, or else the snapshot. */
  lemma BehindSnapshotAt(snap: seq<Record>, m: map<Key, Entry>, behind: seq<Record>, t: int, now: int, k: Key)
    requires IsSnapshot(snap, m, t) && t <= now
    ensures At(Rebuild(snap + behind, now), k) ==
            if Touches(behind, k) then At(Rebuild(behind, now), k) else At(Alive(m, now), k)
  {
    CompactAt([], behind, m, snap, t, now, k);
    assert [] + behind == behind;
  }

  /** A snapshot of `m` with records behind it replays to `m` exactly when every key
      among those records is told by them as `m` has it. */
  lemma BehindSnapshot(snap: seq<Record>, m: map<Key, Entry>, behind: seq<Record>, t: int, now: int)
    requires IsSnapshot(snap, m, t) && t <= now
    ensures Rebuild(snap + behind, now) == Alive(m, now) <==>
            forall k :: Touches(behind, k) ==> At(Rebuild(behind, now), k) == At(Alive(m, now), k)
  {
    forall k
      ensures At(Rebuild(snap + behind, now), k) ==
              if Touches(behind, k) then At(Rebuild(behind, now), k) else At(Alive(m, now), k)
    {
      BehindSnapshotAt(snap, m, behind, t, now, k);
    }
    if forall k :: Touches(behind, k) ==> At(Rebuild(behind, now), k) == At(Alive(m, now), k) {
      SameEverywhere(Rebuild(snap + behind, now), Alive(m, now));
    }
  }

  /** A flushed part of the pending records says the last word on its keys. */
  ghost predicate SaysTheLastWord(part: seq<Record>, pending: seq<Record>, now: int) {
    forall k :: Touches(part, k) ==> EffectOn(part, k, now) == EffectOn(pending, k, now)
  }

  lemma TouchedEffect(part: seq<Record>, pending: seq<Record>, flushed: seq<Record>, m: map<Key, Entry>, now: int, k: Key)
    requires part <= pending && Alive(m, now) == Rebuild(flushed + pending, now) && Touches(part, k)
    ensures At(Rebuild(part, now), k) == EffectOn(part, k, now)
    ensures At(Alive(m, now), k) == EffectOn(pending, k, now)
  {
    var rest := pending[|part|..];
    assert pending == part + rest;
    TouchesIsTimeless(part, k, now);
    EffectOfConcat(part, rest, k, now);
    EffectOfConcat(flushed, pending, k, now);
    LoadAllAt(map[], part, now, k);
    LoadAllAt(map[], flushed + pending, now, k);
  }

  lemma LastWordIsMemory(part: seq<Record>, pending: seq<Record>, flushed: seq<Record>, m: map<Key, Entry>, now: int)
    requires part <= pending && Alive(m, now) == Rebuild(flushed + pending, now)
    ensures SaysTheLastWord(part, pending, now) <==>
            forall k :: Touches(part, k) ==> At(Rebuild(part, now), k) == At(Alive(m, now), k)
  {
    forall k | Touches(part, k)
      ensures At(Rebuild(part, now), k) == At(Alive(m, now), k) <==> EffectOn(part, k, now) == EffectOn(pending, k, now)
    {
      TouchedEffect(part, pending, flushed, m, now, k);
    }
  }
}
