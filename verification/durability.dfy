/** The store and its log together, in interval mode: what a crash can lose. */
module Durability {
  import opened Bytes
  import opened Entries
  import opened WalRecord
  import opened Recovery
  import opened Store
  import opened StoreRuns
  import WalWriter

  // ---------- Stretches without compaction ----------

  /** From `s` to `s'` the store took at most one set or delete, and neither compacted nor restarted. */
  ghost predicate Plain(cfg: Config, s: Db, s': Db) {
    exists step: Step, t :: !step.Restart? && !step.Compact? && Steps(cfg, s, step, t, s')
  }

  ghost predicate PlainAt(cfg: Config, run: seq<Db>, i: nat)
    requires i + 1 < |run|
  {
    Plain(cfg, run[i], run[i + 1])
  }

  /** Sets, deletes, gets and sweeps from state `c` to state `i`. */
  ghost predicate PlainBetween(cfg: Config, run: seq<Db>, c: nat, i: nat)
    requires i < |run|
  {
    forall k :: c <= k < i ==> PlainAt(cfg, run, k)
  }

  lemma PlainLogs(cfg: Config, s: Db, s': Db)
    requires Plain(cfg, s, s')
    ensures s.log <= s'.log && |s'.log| <= |s.log| + 1 && s.clock <= s'.clock
  {
  }

  /** Every longer prefix of the log was the whole log at some moment of the stretch. */
  lemma {:induction false} EarlierLog(cfg: Config, run: seq<Db>, c: nat, i: nat, n: nat) returns (j: nat)
    requires c <= i < |run| && PlainBetween(cfg, run, c, i) && |run[c].log| <= n <= |run[i].log|
    ensures c <= j <= i && run[j].log == run[i].log[..n] && run[j].clock <= run[i].clock
  {
    if n == |run[i].log| {
      j := i;
      assert run[i].log[..n] == run[i].log;
    } else {
      assert PlainAt(cfg, run, i - 1);
      PlainLogs(cfg, run[i - 1], run[i]);
      j := EarlierLog(cfg, run, c, i - 1, n);
      assert run[i].log[..n] == run[i - 1].log[..n];
    }
  }

  // ---------- Crashes ----------

  /** What a crash leaves: the records `front` that the file began with or that a
      compaction wrote, then those the flusher wrote from its `p`-th on, then
      `torn` bytes of the one it was writing. */
  function Left(front: seq<Record>, s: WalWriter.State, p: nat, torn: nat): seq<byte>
    requires p <= |s.file| && WalWriter.MidWrite(s, torn)
  {
    EncodeAll(front + s.file[p..]) + WalWriter.TornPart(s, torn)
  }

  /** Reopened at `now`, the bytes `disk` give the store as it was in `past`. */
  ghost predicate Reopens(disk: seq<byte>, past: Db, now: int) {
    Replay(disk).1 && Rebuild(Replay(disk).0, now) == Alive(past.mem + past.hidden, now)
  }

  /** The bytes of the first `n` records and `torn` of the next. */
  function Cut(log: seq<Record>, n: nat, torn: nat): seq<byte>
    requires n <= |log| && (torn > 0 ==> n < |log| && torn < |Encode(log[n])|)
  {
    EncodeAll(log[..n]) + if torn == 0 then [] else Encode(log[n])[..torn]
  }

  lemma CutLogReplays(log: seq<Record>, n: nat, torn: nat)
    requires AllStorable(log) && n <= |log| && (torn > 0 ==> n < |log| && torn < |Encode(log[n])|)
    ensures Replay(Cut(log, n, torn)) == (StoredAll(log[..n]), torn == 0)
  {
    if torn == 0 {
      assert EncodeAll(log[..n]) + [] == EncodeAll(log[..n]);
      ReplayOfLog(log[..n]);
    } else {
      WalWriter.TornLogReplays(log[..n], log[n], torn);
    }
  }

  /** A log cut behind what it held at `c` reopens to some state since then. */
  lemma CutReopens(cfg: Config, run: seq<Db>, c: nat, i: nat, n: nat, torn: nat, disk: seq<byte>, now: int)
    requires IsRun(cfg, run) && c <= i < |run| && PlainBetween(cfg, run, c, i)
    requires run[i].clock <= now && AllStorable(run[i].log)
    requires |run[c].log| <= n <= |run[i].log|
    requires torn > 0 ==> n < |run[i].log| && torn < |Encode(run[i].log[n])|
    requires disk == Cut(run[i].log, n, torn)
    ensures if torn > 0 then !Replay(disk).1
            else exists j :: c <= j <= i && |run[j].log| == n && Reopens(disk, run[j], now)
  {
    CutLogReplays(run[i].log, n, torn);
    if torn == 0 {
      var j := EarlierLog(cfg, run, c, i, n);
      RebuildStored(run[i].log[..n], now);
      RunAgrees(cfg, run, j);
      assert AgreesAt(run[j], now);
      assert Reopens(disk, run[j], now);
    }
  }

  /** The bytes left are those of a prefix of the log, and maybe part of the next record. */
  lemma LeftIsACut(
    log: seq<Record>, front: seq<Record>, s: WalWriter.State, p: nat, torn: nat, maxBatch: nat)
    requires WalWriter.Inv(maxBatch, s) && WalWriter.MidWrite(s, torn) && p <= |s.file| <= |s.accepted|
    requires log == front + s.accepted[p..]
    ensures var n := |front| + |s.file| - p;
            && n <= |log| && (torn > 0 ==> n < |log| && torn < |Encode(log[n])|)
            && Left(front, s, p, torn) == Cut(log, n, torn)
  {
    assert s.file <= s.accepted;
    PrefixOnDisk(log, front, s.file, s.accepted, p);
    if torn > 0 {
      WalWriter.TornPartIsNext(maxBatch, s, torn);
    }
  }

  lemma PrefixOnDisk(log: seq<Record>, front: seq<Record>, file: seq<Record>, accepted: seq<Record>, p: nat)
    requires p <= |file| && file <= accepted && log == front + accepted[p..]
    ensures var n := |front| + |file| - p;
            && n <= |log| && log[..n] == front + file[p..]
            && (|file| < |accepted| ==> n < |log| && log[n] == accepted[|file|])
  {
  }

  /** The records on disk after a crash: `front`, then what the flusher wrote from its `p`-th on. */
  function OnDisk(front: seq<Record>, s: WalWriter.State, p: nat): int {
    |front| + |s.file| - p
  }

  lemma LeftReopens(
    cfg: Config, run: seq<Db>, c: nat, i: nat, front: seq<Record>, p: nat, maxBatch: nat, s: WalWriter.State,
    torn: nat, now: int)
    requires IsRun(cfg, run) && c <= i < |run| && PlainBetween(cfg, run, c, i)
    requires run[i].clock <= now && AllStorable(run[i].log)
    requires WalWriter.Inv(maxBatch, s) && WalWriter.MidWrite(s, torn)
    requires p <= |s.file| <= |s.accepted| && run[i].log == front + s.accepted[p..]
    requires |run[c].log| <= OnDisk(front, s, p)
    ensures if torn > 0 then !Replay(Left(front, s, p, torn)).1
            else exists j :: c <= j <= i && |run[j].log| == OnDisk(front, s, p) && Reopens(Left(front, s, p, torn), run[j], now)
  {
    LeftIsACut(run[i].log, front, s, p, torn, maxBatch);
    CutReopens(cfg, run, c, i, OnDisk(front, s, p), torn, Left(front, s, p, torn), now);
  }

  /** A crash in interval mode, at any byte: `c` is the last start or compaction, and
      what the log held then is on disk. If the crash comes between records,
      reopening gives the store as it was at some moment since `c`, when its log
      was what is on disk; inside a record, reopening fails. What is on disk lacks
      at most the last three batches of sets and deletes. */
  lemma CrashLosesAtMostThreeBatches(
    cfg: Config, run: seq<Db>, c: nat, i: nat, front: seq<Record>, p: nat,
    maxBatch: nat, steps: seq<WalWriter.Step>, s: WalWriter.State, torn: nat, now: int)
    requires IsRun(cfg, run) && c <= i < |run| && PlainBetween(cfg, run, c, i)
    requires run[i].clock <= now && AllStorable(run[i].log)
    requires WalWriter.Run(maxBatch, steps) == WalWriter.Reached(s) && WalWriter.MidWrite(s, torn)
    requires p <= |s.file| <= |s.accepted| && run[i].log == front + s.accepted[p..]
    requires |run[c].log| <= OnDisk(front, s, p)
    ensures |run[i].log| - OnDisk(front, s, p) <= 2 * maxBatch + WalWriter.BatchLimit(maxBatch)
    ensures if torn > 0 then !Replay(Left(front, s, p, torn)).1
            else exists j :: c <= j <= i && |run[j].log| == OnDisk(front, s, p) && Reopens(Left(front, s, p, torn), run[j], now)
  {
    WalWriter.RunKeepsInv(maxBatch, steps);
    WalWriter.DiskIsARecentPrefix(maxBatch, steps);
    LeftReopens(cfg, run, c, i, front, p, maxBatch, s, torn, now);
  }

  /** The same for a store that has not compacted since it was opened, on whatever
      log it was opened: nothing else is asked. */
  lemma CrashSinceOpening(
    cfg: Config, run: seq<Db>, i: nat, maxBatch: nat, steps: seq<WalWriter.Step>, s: WalWriter.State, torn: nat, now: int)
    requires IsRun(cfg, run) && i < |run| && PlainBetween(cfg, run, 0, i)
    requires run[i].clock <= now && AllStorable(run[i].log)
    requires WalWriter.Run(maxBatch, steps) == WalWriter.Reached(s) && WalWriter.MidWrite(s, torn)
    requires run[i].log == run[0].log + s.accepted
    ensures |s.accepted| - |s.file| <= 2 * maxBatch + WalWriter.BatchLimit(maxBatch)
    ensures var disk := EncodeAll(run[0].log) + WalWriter.Disk(s, torn);
            if torn > 0 then !Replay(disk).1
            else exists j :: 0 <= j <= i && |run[j].log| == |run[0].log| + |s.file| && Reopens(disk, run[j], now)
  {
    WalWriter.DiskIsARecentPrefix(maxBatch, steps);
    assert s.accepted[0..] == s.accepted && s.file[0..] == s.file;
    EncodeAllAppend(run[0].log, s.file);
    Concat3(EncodeAll(run[0].log), EncodeAll(s.file), WalWriter.TornPart(s, torn));
    CrashLosesAtMostThreeBatches(cfg, run, 0, i, run[0].log, 0, maxBatch, steps, s, torn, now);
  }

  // ---------- Crashes before a compaction's pending records are flushed ----------

  /** The flusher writes what it held at the compaction behind the snapshot, oldest
      first. A crash after `q` of those records reopens to what memory held at the
      compaction, if and only if the records written tell their keys as memory has
      them. Without a budget that is: no key among them has a later record, with
      another effect, among those not yet written. */
  lemma CrashBehindSnapshot(
    cfg: Config, run: seq<Db>, c: nat, snap: seq<Record>, t: int, pending: seq<Record>, q: nat, now: int)
    requires IsRun(cfg, run) && c < |run| && run[c].clock <= t <= now && AllFit(run[c])
    requires IsSnapshot(snap, run[c].mem, t) && q <= |pending| <= |run[c].log|
    requires pending == run[c].log[|run[c].log| - |pending|..]
    ensures Replay(EncodeAll(snap + pending[..q])).1
    ensures var reopened := Rebuild(Replay(EncodeAll(snap + pending[..q])).0, now);
            && (reopened == Alive(run[c].mem, now) <==>
                forall k :: Touches(pending[..q], k) ==> At(Rebuild(pending[..q], now), k) == At(Alive(run[c].mem, now), k))
            && (cfg.budget == 0 ==>
                (reopened == Alive(run[c].mem, now) <==> SaysTheLastWord(pending[..q], pending, now)))
  {
    SnapshotStorable(snap, run[c].mem, t);
    BytesBehindSnapshot(snap, pending[..q], now);
    BehindSnapshot(snap, run[c].mem, pending[..q], t, now);
    if cfg.budget == 0 {
      UnlimitedLastWord(cfg, run, c, pending, q, now);
    }
  }

  lemma BytesBehindSnapshot(snap: seq<Record>, behind: seq<Record>, now: int)
    requires AllStorable(snap) && AllStorable(behind)
    ensures Replay(EncodeAll(snap + behind)).1
    ensures Rebuild(Replay(EncodeAll(snap + behind)).0, now) == Rebuild(snap + behind, now)
  {
    ReplayOfLog(snap + behind);
    RebuildStored(snap + behind, now);
  }

  lemma UnlimitedLastWord(cfg: Config, run: seq<Db>, c: nat, pending: seq<Record>, q: nat, now: int)
    requires IsRun(cfg, run) && c < |run| && run[c].clock <= now && cfg.budget == 0
    requires q <= |pending| <= |run[c].log| && pending == run[c].log[|run[c].log| - |pending|..]
    ensures SaysTheLastWord(pending[..q], pending, now) <==>
            forall k :: Touches(pending[..q], k) ==> At(Rebuild(pending[..q], now), k) == At(Alive(run[c].mem, now), k)
  {
    var s := run[c];
    RunAgrees(cfg, run, c);
    assert AgreesAt(s, now) && s.mem + map[] == s.mem;
    var flushed := s.log[..|s.log| - |pending|];
    assert s.log == flushed + pending;
    LastWordIsMemory(pending[..q], pending, flushed, s.mem, now);
  }

  /** Sets of `a`, again of `a`, and of `b`, all unflushed; a compaction; a crash
      after the first pending record has been written. */
  function StaleRun(a: Key, e: Entry, f: Entry, b: Key, g: Entry): seq<Db> {
    var ae, af, bg := SetRecord(a, e), SetRecord(a, f), SetRecord(b, g);
    [Db(map[], [], 0, map[]),
     Db(map[a := e], [ae], 0, map[]),
     Db(map[a := f], [ae, af], 0, map[]),
     Db(map[a := f, b := g], [ae, af, bg], 0, map[]),
     Db(map[a := f, b := g], [af, bg] + [ae, af, bg], 0, map[]),
     Db(map[a := e, b := g], [af, bg, ae], 0, map[])]
  }

  /** Reopening then shows a state that the store was never in. */
  lemma CrashShowsWhatNeverWas(cfg: Config, a: Key, e: Entry, f: Entry, b: Key, g: Entry)
    requires cfg.budget == 0 && a != b && e != f && e.expiredAt > 0 && f.expiredAt > 0 && g.expiredAt > 0
    ensures var run := StaleRun(a, e, f, b, g);
            && IsRun(cfg, run) && Steps(cfg, run[4], Restart(3), 0, run[5])
            && forall j :: 0 <= j < 5 ==> Alive(run[j].mem, 0) != Alive(run[5].mem, 0)
  {
    StaleIsARun(cfg, a, e, f, b, g);
    StaleRestarts(cfg, a, e, f, b, g);
    forall j | 0 <= j < 5
      ensures Alive(StaleRun(a, e, f, b, g)[j].mem, 0) != Alive(StaleRun(a, e, f, b, g)[5].mem, 0)
    {
      StaleNeverWas(a, e, f, b, g, j);
    }
  }

  lemma StaleIsARun(cfg: Config, a: Key, e: Entry, f: Entry, b: Key, g: Entry)
    requires cfg.budget == 0 && a != b && e.expiredAt > 0 && f.expiredAt > 0 && g.expiredAt > 0
    ensures IsRun(cfg, StaleRun(a, e, f, b, g))
  {
    var run := StaleRun(a, e, f, b, g);
    StaleSets(cfg, a, e, f, b, g);
    StaleCompacts(cfg, a, e, f, b, g);
    StaleRestarts(cfg, a, e, f, b, g);
    assert StepAt(cfg, run, 0) && StepAt(cfg, run, 1) && StepAt(cfg, run, 2) && StepAt(cfg, run, 3) && StepAt(cfg, run, 4);
  }

  lemma StaleNeverWas(a: Key, e: Entry, f: Entry, b: Key, g: Entry, j: nat)
    requires a != b && e != f && e.expiredAt > 0 && f.expiredAt > 0 && g.expiredAt > 0 && j < 5
    ensures Alive(StaleRun(a, e, f, b, g)[j].mem, 0) != Alive(StaleRun(a, e, f, b, g)[5].mem, 0)
  {
    var m, m' := StaleRun(a, e, f, b, g)[j].mem, StaleRun(a, e, f, b, g)[5].mem;
    assert a in Alive(m', 0) && b in Alive(m', 0) && Alive(m', 0)[a] == e;
    assert b in m ==> m[a] == f;
  }

  lemma StaleSets(cfg: Config, a: Key, e: Entry, f: Entry, b: Key, g: Entry)
    requires cfg.budget == 0 && a != b
    ensures var run := StaleRun(a, e, f, b, g);
            Next(cfg, run[0], run[1]) && Next(cfg, run[1], run[2]) && Next(cfg, run[2], run[3])
  {
    var run := StaleRun(a, e, f, b, g);
    UnlimitedSet(cfg.hash, cfg.shards, cfg.policy, run[0].mem, a, e);
    UnlimitedSet(cfg.hash, cfg.shards, cfg.policy, run[1].mem, a, f);
    UnlimitedSet(cfg.hash, cfg.shards, cfg.policy, run[2].mem, b, g);
    assert run[0].mem[a := e] == run[1].mem && run[1].mem[a := f] == run[2].mem && run[2].mem[b := g] == run[3].mem;
    assert Steps(cfg, run[0], Set(a, e, true), 0, run[1]);
    assert Steps(cfg, run[1], Set(a, f, true), 0, run[2]);
    assert Steps(cfg, run[2], Set(b, g, true), 0, run[3]);
  }

  lemma StaleCompacts(cfg: Config, a: Key, e: Entry, f: Entry, b: Key, g: Entry)
    requires a != b && f.expiredAt > 0 && g.expiredAt > 0
    ensures var run := StaleRun(a, e, f, b, g); Next(cfg, run[3], run[4])
  {
    var run := StaleRun(a, e, f, b, g);
    var snap := [SetRecord(a, f), SetRecord(b, g)];
    StaleSnapshot(a, f, b, g);
    CompactsAll(cfg, run[3], snap);
  }

  /** A compaction before anything was flushed. */
  lemma CompactsAll(cfg: Config, s: Db, snap: seq<Record>)
    requires IsSnapshot(snap, s.mem, s.clock) && s.hidden == map[]
    ensures Next(cfg, s, s.(log := snap + s.log))
  {
    assert s.log[0..] == s.log && StillPending(map[], s.log) == map[];
    assert Steps(cfg, s, Compact(snap, |s.log|), s.clock, s.(log := snap + s.log));
  }

  lemma StaleSnapshot(a: Key, f: Entry, b: Key, g: Entry)
    requires a != b && f.expiredAt > 0 && g.expiredAt > 0
    ensures IsSnapshot([SetRecord(a, f), SetRecord(b, g)], map[a := f, b := g], 0)
  {
    SnapshotOne(a, f, 0);
    SnapshotOne(b, g, 0);
    SnapshotJoin([SetRecord(a, f)], map[a := f], [SetRecord(b, g)], map[b := g], 0);
    assert [SetRecord(a, f), SetRecord(b, g)] == [SetRecord(a, f)] + [SetRecord(b, g)];
    assert map[a := f, b := g] == map[a := f] + map[b := g];
  }

  lemma StaleRestarts(cfg: Config, a: Key, e: Entry, f: Entry, b: Key, g: Entry)
    requires a != b && e.expiredAt > 0 && f.expiredAt > 0 && g.expiredAt > 0
    ensures var run := StaleRun(a, e, f, b, g);
            Steps(cfg, run[4], Restart(3), 0, run[5]) && Next(cfg, run[4], run[5])
  {
    var run := StaleRun(a, e, f, b, g);
    var r0, r1, r2 := SetRecord(a, f), SetRecord(b, g), SetRecord(a, e);
    assert run[4].log[..3] == [r0, r1, r2] && [r0, r1, r2] == [r0, r1] + [r2] && [r0, r1] == [r0] + [r1] && [r0] == [] + [r0];
    RebuildAppend([], r0, 0);
    RebuildAppend([r0], r1, 0);
    RebuildAppend([r0, r1], r2, 0);
    assert Rebuild([r0, r1, r2], 0) == run[5].mem;
    assert Steps(cfg, run[4], Restart(3), 0, run[5]);
  }
}
