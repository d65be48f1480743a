/** The append path of the log (storage/wal/wal_writer.go). In interval mode an
    append hands its record to a channel, and a background flusher moves records
    from the channel into a batch and from the batch into the file. */
module WalWriter {
  import opened Bytes
  import opened WalRecord

  // ---------- The flusher running beside the appenders ----------

  datatype Pc =
    | Selecting
    | Flushing(written: nat, stopping: bool)   // `written` records of the batch are in the file
    | Stopped

  /** Records stand for their encodings. `accepted` is the history of completed appends. */
  datatype State = State(
    file: seq<Record>, batch: seq<Record>, channel: seq<Record>, pc: Pc, accepted: seq<Record>)

  const InitialState := State([], [], [], Selecting, [])

  datatype Step =
    | Send(r: Record)       // an append completes into the channel
    | Handoff(r: Record)    // an append meets the waiting flusher (the only way when the channel has no room)
    | Take                  // the flusher receives from the channel
    | Tick
    | Stop
    | WriteOne
    | FlushDone

  function StartFlush(s: State, stopping: bool): State {
    if s.batch == [] then s.(pc := if stopping then Stopped else Selecting)
    else s.(pc := Flushing(0, stopping))
  }

  function Batched(maxBatch: nat, s: State, r: Record): State {
    var t := s.(batch := s.batch + [r]);
    if |t.batch| >= maxBatch then StartFlush(t, false) else t
  }

  predicate Enabled(maxBatch: nat, s: State, step: Step) {
    match step
    case Send(r) => |s.channel| < 2 * maxBatch
    case Handoff(r) => s.pc == Selecting && s.channel == []
    case Take => s.pc == Selecting && s.channel != []
    case Tick => s.pc == Selecting
    case Stop => s.pc == Selecting
    case WriteOne => s.pc.Flushing? && s.pc.written < |s.batch|
    case FlushDone => s.pc.Flushing? && s.pc.written == |s.batch|
  }

  function Apply(maxBatch: nat, s: State, step: Step): State
    requires Enabled(maxBatch, s, step)
  {
    match step
    case Send(r) => s.(channel := s.channel + [r], accepted := s.accepted + [r])
    case Handoff(r) => Batched(maxBatch, s.(accepted := s.accepted + [r]), r)
    case Take => Batched(maxBatch, s.(channel := s.channel[1..]), s.channel[0])
    case Tick => StartFlush(s, false)
    case Stop => StartFlush(s, true)
    case WriteOne => s.(file := s.file + [s.batch[s.pc.written]], pc := s.pc.(written := s.pc.written + 1))
    case FlushDone => s.(batch := [], pc := if s.pc.stopping then Stopped else Selecting)
  }

  /** The state reached by performing the steps in turn, if each is possible. */
  datatype Outcome = Reached(s: State) | Stuck

  function Run(maxBatch: nat, steps: seq<Step>): Outcome {
    if steps == [] then Reached(InitialState)
    else
      var last := |steps| - 1;
      match Run(maxBatch, steps[..last])
      case Stuck => Stuck
      case Reached(s) => if Enabled(maxBatch, s, steps[last]) then Reached(Apply(maxBatch, s, steps[last])) else Stuck
  }

  function Pending(s: State): seq<Record> {
    if s.pc.Flushing? && s.pc.written <= |s.batch| then s.batch[s.pc.written..] else s.batch
  }

  function BatchLimit(maxBatch: nat): nat {
    if maxBatch == 0 then 1 else maxBatch
  }

  ghost predicate Inv(maxBatch: nat, s: State) {
    && s.file + Pending(s) + s.channel == s.accepted
    && |s.channel| <= 2 * maxBatch
    && |s.batch| <= BatchLimit(maxBatch)
    && (s.pc == Selecting ==> |s.batch| < BatchLimit(maxBatch))
    && (s.pc.Flushing? ==> s.pc.written <= |s.batch|)
    && (s.pc == Stopped ==> s.batch == [])
  }

  /** A record that was next in line joins the batch. */
  lemma BatchedKeepsInv(maxBatch: nat, s: State, r: Record)
    requires s.pc == Selecting && |s.channel| <= 2 * maxBatch && |s.batch| < BatchLimit(maxBatch)
    requires s.file + s.batch + ([r] + s.channel) == s.accepted
    ensures Inv(maxBatch, Batched(maxBatch, s, r))
  {
    assert s.file + (s.batch + [r]) + s.channel == s.file + s.batch + ([r] + s.channel);
  }

  lemma SendKeepsInv(maxBatch: nat, s: State, r: Record)
    requires Inv(maxBatch, s) && Enabled(maxBatch, s, Send(r))
    ensures Inv(maxBatch, Apply(maxBatch, s, Send(r)))
  {
    Concat3(s.file + Pending(s), s.channel, [r]);
  }

  lemma HandoffKeepsInv(maxBatch: nat, s: State, r: Record)
    requires Inv(maxBatch, s) && Enabled(maxBatch, s, Handoff(r))
    ensures Inv(maxBatch, Apply(maxBatch, s, Handoff(r)))
  {
    assert s.file + s.batch + ([r] + []) == s.accepted + [r];
    BatchedKeepsInv(maxBatch, s.(accepted := s.accepted + [r]), r);
  }

  lemma TakeKeepsInv(maxBatch: nat, s: State)
    requires Inv(maxBatch, s) && Enabled(maxBatch, s, Take)
    ensures Inv(maxBatch, Apply(maxBatch, s, Take))
  {
    assert [s.channel[0]] + s.channel[1..] == s.channel;
    BatchedKeepsInv(maxBatch, s.(channel := s.channel[1..]), s.channel[0]);
  }

  lemma WriteKeepsInv(maxBatch: nat, s: State)
    requires Inv(maxBatch, s) && Enabled(maxBatch, s, WriteOne)
    ensures Inv(maxBatch, Apply(maxBatch, s, WriteOne))
  {
    var w := s.pc.written;
    assert s.batch[w..] == [s.batch[w]] + s.batch[w + 1..];
    Concat3(s.file, [s.batch[w]], s.batch[w + 1..]);
  }

  lemma StepKeepsInv(maxBatch: nat, s: State, step: Step)
    requires Inv(maxBatch, s) && Enabled(maxBatch, s, step)
    ensures Inv(maxBatch, Apply(maxBatch, s, step))
  {
    match step
    case Send(r) => SendKeepsInv(maxBatch, s, r);
    case Handoff(r) => HandoffKeepsInv(maxBatch, s, r);
    case Take => TakeKeepsInv(maxBatch, s);
    case WriteOne => WriteKeepsInv(maxBatch, s);
    case FlushDone => assert s.batch[|s.batch|..] == [];
    case _ =>
  }

  lemma {:induction false} RunKeepsInv(maxBatch: nat, steps: seq<Step>)
    ensures var o := Run(maxBatch, steps); o.Reached? ==> Inv(maxBatch, o.s)
  {
    if steps != [] {
      var last := |steps| - 1;
      RunKeepsInv(maxBatch, steps[..last]);
      var o := Run(maxBatch, steps[..last]);
      if o.Reached? && Enabled(maxBatch, o.s, steps[last]) {
        StepKeepsInv(maxBatch, o.s, steps[last]);
      }
    }
  }

  /** In every run the file holds a prefix of the accepted appends, in order,
      and misses at most a full channel and a full batch of them: three batches. */
  lemma DiskIsARecentPrefix(maxBatch: nat, steps: seq<Step>)
    requires Run(maxBatch, steps).Reached?
    ensures var s := Run(maxBatch, steps).s;
            && s.file <= s.accepted
            && |s.accepted| - |s.file| <= 2 * maxBatch + BatchLimit(maxBatch)
            && (maxBatch > 0 ==> |s.accepted| - |s.file| <= 3 * maxBatch)
  {
    RunKeepsInv(maxBatch, steps);
  }

  // ---------- Longer runs ----------

  lemma RunOne(maxBatch: nat, steps: seq<Step>, s: State, step: Step)
    requires Run(maxBatch, steps) == Reached(s) && Enabled(maxBatch, s, step)
    ensures Run(maxBatch, steps + [step]) == Reached(Apply(maxBatch, s, step))
  {
    assert (steps + [step])[..|steps|] == steps;
  }

  /** The flusher can collect up to a full batch before it writes anything. */
  lemma {:induction false} BatchFills(maxBatch: nat, r: Record, n: nat) returns (steps: seq<Step>, s: State)
    requires n <= BatchLimit(maxBatch)
    ensures Run(maxBatch, steps) == Reached(s)
    ensures s.file == [] && s.channel == [] && |s.batch| == n && |s.accepted| == n
    ensures s.pc == if n < BatchLimit(maxBatch) then Selecting else Flushing(0, false)
  {
    if n == 0 {
      steps, s := [], InitialState;
    } else {
      steps, s := BatchFills(maxBatch, r, n - 1);
      RunOne(maxBatch, steps, s, Handoff(r));
      steps, s := steps + [Handoff(r)], Apply(maxBatch, s, Handoff(r));
    }
  }

  /** Meanwhile the channel takes two batches more. */
  lemma {:induction false} ChannelFills(maxBatch: nat, r: Record, n: nat) returns (steps: seq<Step>, s: State)
    requires n <= 2 * maxBatch
    ensures Run(maxBatch, steps) == Reached(s)
    ensures s.file == [] && |s.channel| == n && |s.accepted| == BatchLimit(maxBatch) + n
  {
    if n == 0 {
      steps, s := BatchFills(maxBatch, r, BatchLimit(maxBatch));
    } else {
      steps, s := ChannelFills(maxBatch, r, n - 1);
      RunOne(maxBatch, steps, s, Send(r));
      steps, s := steps + [Send(r)], Apply(maxBatch, s, Send(r));
    }
  }

  /** The bound of DiskIsARecentPrefix is reached, for every batch size. */
  lemma DiskCanTrailThatFar(maxBatch: nat, r: Record) returns (steps: seq<Step>)
    ensures Run(maxBatch, steps).Reached?
    ensures var s := Run(maxBatch, steps).s;
            |s.accepted| - |s.file| == if maxBatch > 0 then 3 * maxBatch else 1
  {
    var s;
    steps, s := ChannelFills(maxBatch, r, 2 * maxBatch);
  }

  function Writes(n: nat): (ws: seq<Step>)
    ensures |ws| == n
  {
    if n == 0 then [] else Writes(n - 1) + [WriteOne]
  }

  /** The first `n` records of the batch have been written. */
  function Written(s: State, n: nat): State
    requires s.pc.Flushing? && n <= |s.batch|
  {
    s.(file := s.file + s.batch[..n], pc := s.pc.(written := n))
  }

  lemma WritesNext(maxBatch: nat, s: State, n: nat)
    requires s.pc.Flushing? && n < |s.batch|
    ensures Enabled(maxBatch, Written(s, n), WriteOne)
    ensures Apply(maxBatch, Written(s, n), WriteOne) == Written(s, n + 1)
  {
    assert s.batch[..n + 1] == s.batch[..n] + [s.batch[n]];
    Concat3(s.file, s.batch[..n], [s.batch[n]]);
  }

  lemma OneMoreWrite(maxBatch: nat, steps: seq<Step>, s: State, n: nat)
    requires s.pc.Flushing? && n < |s.batch| && Run(maxBatch, steps + Writes(n)) == Reached(Written(s, n))
    ensures Run(maxBatch, steps + Writes(n + 1)) == Reached(Written(s, n + 1))
  {
    WritesNext(maxBatch, s, n);
    RunOne(maxBatch, steps + Writes(n), Written(s, n), WriteOne);
    Concat3(steps, Writes(n), [WriteOne]);
  }

  lemma {:induction false} WritesRun(maxBatch: nat, steps: seq<Step>, s: State, n: nat)
    requires Run(maxBatch, steps) == Reached(s) && s.pc.Flushing? && s.pc.written == 0 && n <= |s.batch|
    ensures Run(maxBatch, steps + Writes(n)) == Reached(Written(s, n))
  {
    if n == 0 {
      assert steps + Writes(0) == steps && s.file + s.batch[..0] == s.file;
    } else {
      WritesRun(maxBatch, steps, s, n - 1);
      OneMoreWrite(maxBatch, steps, s, n - 1);
    }
  }

  /** The whole batch is in the file. */
  function Flushed(s: State): State {
    s.(file := s.file + s.batch, batch := [], pc := Selecting)
  }

  /** A flush, from its first write to its end. */
  lemma FlushRun(maxBatch: nat, steps: seq<Step>, s: State)
    requires Run(maxBatch, steps) == Reached(s) && s.pc == Flushing(0, false)
    ensures Run(maxBatch, steps + Writes(|s.batch|) + [FlushDone]) == Reached(Flushed(s))
  {
    WritesRun(maxBatch, steps, s, |s.batch|);
    assert s.batch[..|s.batch|] == s.batch;
    RunOne(maxBatch, steps + Writes(|s.batch|), Written(s, |s.batch|), FlushDone);
  }

  // ---------- The log object ----------

  datatype Mode = Always | Interval | Unsynced

  datatype AppendResult = Accepted | Blocked | WriteFailed | SyncFailed

  /** What the bytes stand for: `old` bytes, then the records of `s` from `skip` on. */
  ghost predicate Holds(
    s: State, file: seq<byte>, channel: seq<seq<byte>>, batch: seq<seq<byte>>, head: seq<byte>, skip: nat)
  {
    && s.pc == Selecting && skip <= |s.file|
    && channel == Encoded(s.channel) && batch == Encoded(s.batch)
    && file == head + EncodeAll(s.file[skip..])
  }

  lemma EncodedMore(rs: seq<Record>, r: Record)
    ensures Encoded(rs + [r]) == Encoded(rs) + [Encode(r)]
  {
  }

  lemma FlushedHolds(
    s: State, file: seq<byte>, channel: seq<seq<byte>>, batch: seq<seq<byte>>, head: seq<byte>, skip: nat)
    requires Holds(s, file, channel, batch, head, skip)
    ensures Holds(Flushed(s), file + Flatten(batch), channel, [], head, skip)
  {
    assert (s.file + s.batch)[skip..] == s.file[skip..] + s.batch;
    EncodeAllAppend(s.file[skip..], s.batch);
    Concat3(head, EncodeAll(s.file[skip..]), EncodeAll(s.batch));
  }

  lemma SentHolds(
    s: State, file: seq<byte>, channel: seq<seq<byte>>, batch: seq<seq<byte>>, head: seq<byte>, skip: nat, r: Record)
    requires Holds(s, file, channel, batch, head, skip)
    ensures Holds(s.(channel := s.channel + [r], accepted := s.accepted + [r]), file, channel + [Encode(r)], batch, head, skip)
  {
    EncodedMore(s.channel, r);
  }

  lemma HandedHolds(
    s: State, file: seq<byte>, channel: seq<seq<byte>>, batch: seq<seq<byte>>, head: seq<byte>, skip: nat, r: Record)
    requires Holds(s, file, channel, batch, head, skip)
    ensures Holds(s.(batch := s.batch + [r], accepted := s.accepted + [r]), file, channel, batch + [Encode(r)], head, skip)
  {
    EncodedMore(s.batch, r);
  }

  lemma TakenHolds(
    s: State, file: seq<byte>, channel: seq<seq<byte>>, batch: seq<seq<byte>>, head: seq<byte>, skip: nat)
    requires Holds(s, file, channel, batch, head, skip) && channel != []
    ensures s.channel != []
    ensures Holds(s.(channel := s.channel[1..], batch := s.batch + [s.channel[0]]),
                  file, channel[1..], batch + [channel[0]], head, skip)
  {
    EncodedMore(s.batch, s.channel[0]);
    assert Encoded(s.channel)[1..] == Encoded(s.channel[1..]);
  }

  /** The channel carries encoded records; `batch` is the flusher's buffer. In
      interval mode the object stands, between two critical sections, for the state
      `state` that `steps` reach; `replaced` counts the records of that state that a
      compaction has replaced by the bytes `start`. */
  class Wal {
    const mode: Mode
    const maxBatch: nat
    var file: seq<byte>
    var channel: seq<seq<byte>>
    var batch: seq<seq<byte>>
    ghost var steps: seq<Step>
    ghost var state: State
    ghost var start: seq<byte>
    ghost var replaced: nat

    ghost predicate Valid()
      reads this
    {
      && Run(maxBatch, steps) == Reached(state)
      && (mode == Interval ==> Holds(state, file, channel, batch, start, replaced))
      && (mode != Interval ==> channel == [] && batch == [])
    }

    constructor (mode: Mode, maxBatch: nat, existing: seq<byte>)
      ensures Valid() && this.mode == mode && this.maxBatch == maxBatch
      ensures file == existing && channel == [] && batch == [] && steps == []
    {
      this.mode, this.maxBatch := mode, maxBatch;
      file, channel, batch := existing, [], [];
      steps, state, start, replaced := [], InitialState, existing, 0;
      new;
      assert existing + EncodeAll([]) == existing;
    }

    /** `Blocked`: the channel is full, so the source would wait here. A channel
        without room of its own hands the record straight to the flusher. `writes`
        and `syncs` say whether a write to the file and its fsync succeed; a record
        whose fsync fails is in the file all the same. */
    method Append(r: Record, writes: bool, syncs: bool) returns (res: AppendResult)
      requires Valid()
      modifies this`file, this`channel, this`batch, this`steps, this`state
      ensures Valid()
      ensures mode == Interval && maxBatch > 0 ==>
        && file == old(file) && batch == old(batch)
        && res == (if |old(channel)| < 2 * maxBatch then Accepted else Blocked)
        && channel == (if res == Accepted then old(channel) + [Encode(r)] else old(channel))
        && steps == (if res == Accepted then old(steps) + [Send(r)] else old(steps))
      ensures mode == Interval && maxBatch == 0 ==>
        && res == Accepted && old(steps) + [Handoff(r)] <= steps
        && file == old(file) + Encode(r) && channel == [] && batch == []
      ensures mode != Interval ==>
        && res == (if !writes then WriteFailed else if mode == Always && !syncs then SyncFailed else Accepted)
        && file == (if writes then old(file) + Encode(r) else old(file))
    {
      if mode == Interval {
        if maxBatch == 0 {
          HandOver(r);
          return Accepted;
        }
        if |channel| >= 2 * maxBatch {
          return Blocked;
        }
        Queue(r);
        return Accepted;
      }
      if !writes {
        return WriteFailed;
      }
      file := file + Encode(r);
      return if mode == Always && !syncs then SyncFailed else Accepted;
    }

    method Queue(r: Record)
      requires Valid() && mode == Interval && |channel| < 2 * maxBatch
      modifies this`channel, this`steps, this`state
      ensures Valid() && channel == old(channel) + [Encode(r)] && steps == old(steps) + [Send(r)]
    {
      SentHolds(state, file, channel, batch, start, replaced, r);
      RunOne(maxBatch, steps, state, Send(r));
      channel := channel + [Encode(r)];
      steps, state := steps + [Send(r)], Apply(maxBatch, state, Send(r));
    }

    /** An append meets the waiting flusher, which then has a full batch. */
    method HandOver(r: Record)
      requires Valid() && mode == Interval && maxBatch == 0
      modifies this`file, this`batch, this`steps, this`state
      ensures Valid() && old(steps) + [Handoff(r)] <= steps
      ensures file == old(file) + Encode(r) && channel == [] && batch == []
    {
      RunKeepsInv(maxBatch, steps);
      HandedHolds(state, file, channel, batch, start, replaced, r);
      RunOne(maxBatch, steps, state, Handoff(r));
      steps := steps + [Handoff(r)];
      state := state.(batch := state.batch + [r], accepted := state.accepted + [r]);
      batch := batch + [Encode(r)];
      FlattenOne(Encode(r));
      FlushIfFull();
    }

    /** The write loop of a flush. */
    method WriteBatch()
      modifies this`file, this`batch
      ensures file == old(file) + Flatten(old(batch)) && batch == []
    {
      for i := 0 to |batch|
        invariant batch == old(batch)
        invariant file == old(file) + Flatten(batch[..i])
      {
        FlattenExtends(batch, i);
        Concat3(old(file), Flatten(batch[..i]), batch[i]);
        file := file + batch[i];
      }
      assert batch[..|batch|] == batch;
      batch := [];
    }

    /** The tick branch of the flusher's select. */
    method Flush()
      requires Valid() && mode == Interval
      modifies this`file, this`batch, this`steps, this`state
      ensures Valid() && old(steps) <= steps && state == Flushed(old(state))
      ensures file == old(file) + Flatten(old(batch)) && batch == []
    {
      FlushedHolds(state, file, channel, batch, start, replaced);
      RunOne(maxBatch, steps, state, Tick);
      steps := steps + [Tick];
      if batch == [] {
        assert state.batch == [] && state.file + [] == state.file;
      } else {
        FlushRun(maxBatch, steps, StartFlush(state, false));
        steps := steps + Writes(|state.batch|) + [FlushDone];
      }
      state := Flushed(state);
      WriteBatch();
    }

    /** The flusher has just added a record to its batch. */
    method FlushIfFull()
      requires mode == Interval && Holds(state, file, channel, batch, start, replaced)
      requires Run(maxBatch, steps) ==
               Reached(if |batch| >= maxBatch then state.(pc := Flushing(0, false)) else state)
      modifies this`file, this`batch, this`steps, this`state
      ensures Valid() && old(steps) <= steps
      ensures if |old(batch)| >= maxBatch
              then file == old(file) + Flatten(old(batch)) && batch == [] && state == Flushed(old(state))
              else file == old(file) && batch == old(batch) && state == old(state)
    {
      if |batch| >= maxBatch {
        FlushedHolds(state, file, channel, batch, start, replaced);
        FlushRun(maxBatch, steps, state.(pc := Flushing(0, false)));
        steps := steps + Writes(|state.batch|) + [FlushDone];
        state := Flushed(state);
        WriteBatch();
      }
    }

    /** The receive branch: nothing is lost, doubled or reordered. */
    method Receive()
      requires Valid() && mode == Interval && channel != []
      modifies this`file, this`channel, this`batch, this`steps, this`state
      ensures Valid() && old(steps) + [Take] <= steps && channel == old(channel)[1..]
      ensures var more := old(batch) + [old(channel)[0]];
              if |more| >= maxBatch then file == old(file) + Flatten(more) && batch == []
              else file == old(file) && batch == more
      ensures var taken := old(state).(channel := old(state).channel[1..], batch := old(state).batch + [old(state).channel[0]]);
              state == (if batch == [] then Flushed(taken) else taken)
    {
      TakenHolds(state, file, channel, batch, start, replaced);
      RunOne(maxBatch, steps, state, Take);
      steps := steps + [Take];
      state := state.(channel := state.channel[1..], batch := state.batch + [state.channel[0]]);
      batch := batch + [channel[0]];
      channel := channel[1..];
      FlushIfFull();
    }

    /** Replace the file by a snapshot. What the flusher still holds goes behind it
        later. `succeeds` says whether the new file could be written and renamed. */
    method Compact(snap: seq<Record>, succeeds: bool) returns (ok: bool)
      requires Valid()
      modifies this`file, this`start, this`replaced
      ensures Valid() && ok == succeeds
      ensures file == if ok then EncodeAll(snap) else old(file)
    {
      if !succeeds {
        return false;
      }
      var tmp := [];
      for i := 0 to |snap|
        invariant tmp == EncodeAll(snap[..i])
      {
        EncodeAllAppend(snap[..i], [snap[i]]);
        EncodeAllCons([snap[i]]);
        assert snap[..i + 1] == snap[..i] + [snap[i]];
        tmp := tmp + Encode(snap[i]);
      }
      assert snap[..|snap|] == snap;
      file := tmp;
      start, replaced := tmp, |state.file|;
      assert tmp + EncodeAll([]) == tmp;
      return true;
    }
  }

  lemma FlattenExtends(ss: seq<seq<byte>>, i: nat)
    requires i < |ss|
    ensures Flatten(ss[..i + 1]) == Flatten(ss[..i]) + ss[i]
  {
    assert ss[..i + 1] == ss[..i] + [ss[i]];
    FlattenAppend(ss[..i], [ss[i]]);
    FlattenOne(ss[i]);
  }

  // ---------- Crashes ----------

  /** The crash can come `torn` bytes into the record that the flusher is writing. */
  predicate MidWrite(s: State, torn: nat) {
    torn > 0 ==> s.pc.Flushing? && s.pc.written < |s.batch| && torn < |Encode(s.batch[s.pc.written])|
  }

  function TornPart(s: State, torn: nat): seq<byte>
    requires MidWrite(s, torn)
  {
    if torn == 0 then [] else Encode(s.batch[s.pc.written])[..torn]
  }

  /** What is on disk then. */
  function Disk(s: State, torn: nat): seq<byte>
    requires MidWrite(s, torn)
  {
    EncodeAll(s.file) + TornPart(s, torn)
  }

  /** The record being written is the first accepted one that is not in the file. */
  lemma TornPartIsNext(maxBatch: nat, s: State, torn: nat)
    requires Inv(maxBatch, s) && MidWrite(s, torn) && torn > 0
    ensures |s.file| < |s.accepted| && TornPart(s, torn) == Encode(s.accepted[|s.file|])[..torn]
    ensures torn < |Encode(s.accepted[|s.file|])|
  {
    assert Pending(s)[0] == s.batch[s.pc.written];
    assert s.accepted[|s.file|] == s.batch[s.pc.written];
  }

  lemma TornLogReplays(file: seq<Record>, next: Record, torn: nat)
    requires AllStorable(file) && Storable(next) && torn < |Encode(next)|
    ensures Replay(EncodeAll(file) + Encode(next)[..torn]) == (StoredAll(file), torn == 0)
  {
    var all, n := file + [next], |EncodeAll(file)| + torn;
    EncodeAllAppend(file, [next]);
    EncodeAllCons([next]);
    assert EncodeAll(all)[..n] == EncodeAll(file) + Encode(next)[..torn];
    WholeOfPrefix(file, all, torn);
    assert all[..|file|] == file;
    ReplayOfPrefix(all, n);
  }

  /** A crash at any moment of any run, even in the middle of writing a record:
      replay applies exactly the records whose writes completed, which are all but
      the last three batches of the accepted appends at worst, and reports the cut
      exactly when part of another record is on disk. */
  lemma CrashReplaysAPrefix(maxBatch: nat, steps: seq<Step>, s: State, torn: nat)
    requires Run(maxBatch, steps) == Reached(s) && AllStorable(s.accepted) && MidWrite(s, torn)
    ensures Replay(Disk(s, torn)) == (StoredAll(s.file), torn == 0)
    ensures s.file <= s.accepted && |s.accepted| - |s.file| <= 2 * maxBatch + BatchLimit(maxBatch)
  {
    RunKeepsInv(maxBatch, steps);
    DiskIsARecentPrefix(maxBatch, steps);
    assert AllStorable(s.file);
    if torn == 0 {
      assert EncodeAll(s.file) + [] == EncodeAll(s.file);
      ReplayOfLog(s.file);
    } else {
      TornPartIsNext(maxBatch, s, torn);
      TornLogReplays(s.file, s.accepted[|s.file|], torn);
    }
  }

  /** Counting whole records: all of the first `|a|` fit, the next one does not. */
  lemma WholeOfPrefix(a: seq<Record>, b: seq<Record>, torn: nat)
    requires a <= b
    requires |a| < |b| ==> torn < |Encode(b[|a|])|
    ensures Whole(b, |EncodeAll(a)| + torn) == |a|
  {
    assert Encoded(b)[..|a|] == Encoded(a);
    FitOfPrefix(Encoded(a), Encoded(b), torn);
  }

  lemma {:induction false} FitOfPrefix(a: seq<seq<byte>>, b: seq<seq<byte>>, torn: nat)
    requires a <= b
    requires |a| < |b| ==> torn < |b[|a|]|
    ensures Fit(b, |Flatten(a)| + torn) == |a|
  {
    if a != [] {
      FitOfPrefix(a[1..], b[1..], torn);
    }
  }
}
