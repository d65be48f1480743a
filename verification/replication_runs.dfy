/** Whole runs of a leader and one of its followers. The leader takes one write at
    a time: it changes its store, then broadcasts. Frames travel as bytes in order.
    The two nodes have their own clocks and sweep on their own. Budgets are
    unlimited. The follower's log may fail to take a message, which is then
    acknowledged but not applied. The steps are what Replication.Node and
    Replication.SyncOnce promise (module ReplicationSessions runs them). */
module ReplicationRuns {
  import opened Bytes
  import opened Entries
  import opened Messages
  import opened Frames
  import opened Shards
  import opened Replication
  import Reader

  datatype Change = Put(key: Key, e: Entry) | Remove(key: Key)

  datatype Option<T> = None | Some(value: T)

  function Changed(m: map<Key, Entry>, c: Change): map<Key, Entry> {
    match c
    case Put(key, e) => m[key := e]
    case Remove(key) => m - {key}
  }

  function SyncFor(index: uint64, c: Change): Sync {
    match c
    case Put(key, e) => SetSync(index, key, e)
    case Remove(key) => DeleteSync(index, key)
  }

  /** The write fits the message's length fields and the frame's, and its expiry is an int64. */
  predicate Sendable(c: Change) {
    var s := SyncFor(0, c);
    SyncFits(s) && 1 + |SyncBytes(s)| < TWO32 && (c.Put? ==> IsInt64(c.e.expiredAt))
  }

  /** `pending` is a write the leader has made and not yet broadcast; `wire` the
      bytes sent and not yet read. The rest is history: the leader's writes since the
      follower joined, what each of them made of the leader's map at the join, how
      many of them the follower has received, and the keys whose latest message it
      received and could not log. */
  datatype State = State(
    leader: map<Key, Entry>, pending: Option<Change>, index: uint64, leaderClock: int,
    wire: seq<byte>,
    follower: map<Key, Entry>, followerClock: int,
    changes: seq<Change>, versions: seq<map<Key, Entry>>, taken: nat, missed: set<Key>)

  datatype Step =
    | Write(c: Change)
    | Send
    | Receive(logged: bool)
    | SweepLeader(now: int)
    | SweepFollower(now: int)

  /** A removal of a key that is not there changes nothing and is not sent. */
  predicate Effective(m: map<Key, Entry>, c: Change) {
    c.Remove? ==> c.key in m
  }

  function Extended(vs: seq<map<Key, Entry>>, c: Change): seq<map<Key, Entry>> {
    if vs == [] then [] else vs + [Changed(vs[|vs| - 1], c)]
  }

  function KeysIn(ms: seq<Sync>): set<Key> {
    set m | m in ms :: Key(m.key)
  }

  ghost predicate Steps(reg: Registry, s: State, step: Step, s': State) {
    match step
    case Write(c) =>
      && s.pending == None && Sendable(c)
      && s' == if Effective(s.leader, c)
               then s.(leader := Changed(s.leader, c), pending := Some(c),
                       changes := s.changes + [c], versions := Extended(s.versions, c))
               else s
    case Send =>
      && s.pending.Some?
      && s' == s.(pending := None, index := Increment(s.index),
                  wire := s.wire + SyncFrame(SyncFor(Increment(s.index), s.pending.value)))
    case Receive(logged) =>
      && Take(s.wire, 0).Body?
      && var t := Take(s.wire, 0); var got := SyncIn(reg, t.body);
         s' == if logged
               then s.(wire := t.rest, follower := AppliedAll(s.follower, got),
                       taken := s.taken + |got|, missed := s.missed - KeysIn(got))
               else s.(wire := t.rest, taken := s.taken + |got|, missed := s.missed + KeysIn(got))
    case SweepLeader(now) => s.leaderClock <= now && s' == s.(leader := Unexpired(s.leader, now), leaderClock := now)
    case SweepFollower(now) =>
      s.followerClock <= now && s' == s.(follower := Unexpired(s.follower, now), followerClock := now)
  }

  /** Both maps show the same unexpired entries at time `t`. */
  ghost predicate SameAt(m: map<Key, Entry>, m': map<Key, Entry>, t: int) {
    Unexpired(m, t) == Unexpired(m', t)
  }

  /** The same at every time from `from` on. */
  ghost predicate Same(from: int, m: map<Key, Entry>, m': map<Key, Entry>) {
    forall t :: from <= t ==> SameAt(m, m', t)
  }

  /** The latest time either sweeper has seen. */
  function Clock(s: State): int {
    if s.leaderClock <= s.followerClock then s.followerClock else s.leaderClock
  }

  /** The follower has just joined, with the leader's unexpired entries. */
  ghost predicate Joins(s: State) {
    && s.pending == None && s.wire == [] && s.changes == [] && s.versions == [s.leader] && s.taken == 0 && s.missed == {}
    && Same(Clock(s), s.leader, s.follower)
  }

  ghost predicate Next(reg: Registry, s: State, s': State) {
    exists step :: Steps(reg, s, step, s')
  }

  ghost predicate StepAt(reg: Registry, run: seq<State>, i: nat)
    requires i + 1 < |run|
  {
    Next(reg, run[i], run[i + 1])
  }

  ghost predicate IsRun(reg: Registry, run: seq<State>) {
    && |run| > 0 && Joins(run[0])
    && forall i :: 0 <= i < |run| - 1 ==> StepAt(reg, run, i)
  }

  // ---------- Views ----------

  lemma ChangedSame(m: map<Key, Entry>, m': map<Key, Entry>, c: Change, t: int)
    requires SameAt(m, m', t)
    ensures SameAt(Changed(m, c), Changed(m', c), t)
  {
    var u, u' := Unexpired(m, t), Unexpired(m', t);
    match c {
      case Put(key, e) =>
        assert Unexpired(m[key := e], t) == if Expired(e, t) then u - {key} else u[key := e];
        assert Unexpired(m'[key := e], t) == if Expired(e, t) then u' - {key} else u'[key := e];
      case Remove(key) =>
        assert Unexpired(m - {key}, t) == u - {key};
        assert Unexpired(m' - {key}, t) == u' - {key};
    }
  }

  lemma SweptSame(m: map<Key, Entry>, now: int, t: int)
    requires now <= t
    ensures SameAt(Unexpired(m, now), m, t)
  {
  }

  lemma ReceivedIsChanged(m: map<Key, Entry>, index: uint64, c: Change)
    ensures AppliedAll(m, [SyncFor(index, c)]) == Changed(m, c) <==> (c.Put? ==> IsInt64(c.e.expiredAt))
  {
    if c.Put? {
      SentIsApplied(m, index, c.key, c.e);
    } else {
      SentIsApplied(m, index, c.key, Entry([], 0));
    }
    var one := [SyncFor(index, c)];
    assert one[..0] == [];
  }

  // ---------- What is in flight ----------

  function BodyOf(s: Sync): seq<byte> {
    Wire(OP_REPLICATION_SYNC, SyncBytes(s))
  }

  function Bodies(ms: seq<Sync>): (bs: seq<seq<byte>>)
    ensures |bs| == |ms|
  {
    seq(|ms|, i requires 0 <= i < |ms| => BodyOf(ms[i]))
  }

  /** Message `m` carries write `c`. */
  predicate Carries(m: Sync, c: Change) {
    m == SyncFor(m.logIndex, c) && Sendable(c)
  }

  /** The first write not yet on the wire. */
  function Unsent(s: State): int {
    |s.changes| - if s.pending.Some? then 1 else 0
  }

  predicate AllCarry(ms: seq<Sync>, cs: seq<Change>) {
    |ms| == |cs| && forall i :: 0 <= i < |ms| ==> Carries(ms[i], cs[i])
  }

  /** The wire holds `flight`: one whole frame for each of the writes `cs`, in order. */
  ghost predicate InFlight(wire: seq<byte>, cs: seq<Change>, flight: seq<Sync>) {
    wire == Flatten(FramesOf(Bodies(flight))) && AllCarry(flight, cs)
  }

  ghost predicate Flies(wire: seq<byte>, cs: seq<Change>) {
    exists flight :: InFlight(wire, cs, flight)
  }

  ghost predicate VersionOk(vs: seq<map<Key, Entry>>, cs: seq<Change>, k: nat)
    requires |vs| == |cs| + 1 && k < |cs|
  {
    vs[k + 1] == Changed(vs[k], cs[k])
  }

  ghost predicate VersionsOk(vs: seq<map<Key, Entry>>, cs: seq<Change>) {
    |vs| == |cs| + 1 && forall k :: 0 <= k < |cs| ==> VersionOk(vs, cs, k)
  }

  /** The leader's last write is either on the wire or about to be sent. */
  predicate PendingOk(s: State) {
    && s.taken <= Unsent(s)
    && (s.pending.Some? ==> s.pending.value == s.changes[Unsent(s)] && Sendable(s.pending.value))
  }

  ghost predicate Inv(s: State) {
    && PendingOk(s) && VersionsOk(s.versions, s.changes)
    && Same(Clock(s), s.leader, s.versions[|s.changes|])
    && Same(Clock(s), s.follower - s.missed, s.versions[s.taken] - s.missed)
    && Flies(s.wire, s.changes[s.taken..Unsent(s)])
  }

  lemma SendableAnyIndex(index: uint64, c: Change)
    ensures Sendable(c) <==> SyncFits(SyncFor(index, c)) && |BodyOf(SyncFor(index, c))| < TWO32
                             && (c.Put? ==> IsInt64(c.e.expiredAt))
  {
    var m, m0 := SyncFor(index, c), SyncFor(0, c);
    assert m.key == m0.key && m.value == m0.value;
    assert |SyncBytes(m)| == |SyncBytes(m0)|;
  }

  /** A broadcast write is read back as itself and nothing more, and does to the
      follower's map what it did to the leader's, exactly when it fits the message's
      and the frame's length fields and its expiry is an int64 of nanoseconds. */
  lemma ArrivesIffSendable(reg: Registry, index: uint64, c: Change, rest: seq<byte>, follower: map<Key, Entry>)
    ensures var m := SyncFor(index, c);
            (&& Take(SyncFrame(m) + rest, 0) == Body(BodyOf(m), rest) && SyncIn(reg, BodyOf(m)) == [m]
             && AppliedAll(follower, [m]) == Changed(follower, c)) <==> Sendable(c)
  {
    SendableAnyIndex(index, c);
    ReceivedIsChanged(follower, index, c);
    FrameRoundTrip(BodyOf(SyncFor(index, c)), rest);
    SyncParses(reg, SyncFor(index, c));
  }

  lemma CarriedParses(reg: Registry, m: Sync, c: Change)
    requires Carries(m, c)
    ensures Carried(reg, BodyOf(m)) && SyncIn(reg, BodyOf(m)) == [m]
  {
    SendableAnyIndex(m.logIndex, c);
    SyncParses(reg, m);
  }

  lemma BodiesCons(ms: seq<Sync>)
    requires ms != []
    ensures Flatten(FramesOf(Bodies(ms))) == Frame(BodyOf(ms[0])) + Flatten(FramesOf(Bodies(ms[1..])))
    ensures Bodies(ms)[1..] == Bodies(ms[1..])
  {
    assert Bodies(ms)[1..] == Bodies(ms[1..]);
    FramesOfCons(Bodies(ms), 0);
  }

  lemma BodiesSnoc(ms: seq<Sync>, m: Sync)
    ensures Flatten(FramesOf(Bodies(ms + [m]))) == Flatten(FramesOf(Bodies(ms))) + Frame(BodyOf(m))
  {
    assert FramesOf(Bodies(ms + [m])) == FramesOf(Bodies(ms)) + [Frame(BodyOf(m))];
    FlattenAppend(FramesOf(Bodies(ms)), [Frame(BodyOf(m))]);
    FlattenOne(Frame(BodyOf(m)));
  }

  lemma {:induction false} FlightParses(reg: Registry, ms: seq<Sync>, cs: seq<Change>)
    requires AllCarry(ms, cs)
    ensures AllCarried(reg, Bodies(ms)) && SyncsOf(reg, Bodies(ms)) == ms
  {
    forall i | 0 <= i < |ms|
      ensures Carried(reg, Bodies(ms)[i])
    {
      CarriedParses(reg, ms[i], cs[i]);
    }
    if ms != [] {
      FlightParses(reg, ms[1..], cs[1..]);
      BodiesCons(ms);
      CarriedParses(reg, ms[0], cs[0]);
    }
  }

  /** A follower reading on would see exactly the writes in flight, then a clean end. */
  lemma FlightIsFollowed(reg: Registry, wire: seq<byte>, cs: seq<Change>)
    requires Flies(wire, cs)
    ensures Follow(reg, wire).end == Closed(Reader.Eof) && AllCarry(Follow(reg, wire).syncs, cs)
  {
    var flight: seq<Sync> :| InFlight(wire, cs, flight);
    FlightParses(reg, flight, cs);
    FollowPast(reg, Bodies(flight), []);
    assert wire + [] == wire;
    assert flight + [] == flight;
  }

  lemma NothingFlies()
    ensures Flies([], [])
  {
    assert InFlight([], [], []);
  }

  /** A frame sent goes behind the ones in flight. */
  lemma SentFlies(wire: seq<byte>, cs: seq<Change>, index: uint64, c: Change)
    requires Flies(wire, cs) && Sendable(c)
    ensures Flies(wire + SyncFrame(SyncFor(index, c)), cs + [c])
  {
    var flight :| InFlight(wire, cs, flight);
    var m := SyncFor(index, c);
    BodiesSnoc(flight, m);
    assert InFlight(wire + SyncFrame(m), cs + [c], flight + [m]);
  }

  /** A read takes exactly the oldest write in flight. */
  lemma ReadTakesOne(reg: Registry, wire: seq<byte>, cs: seq<Change>, m: map<Key, Entry>)
    requires Flies(wire, cs) && Take(wire, 0).Body?
    ensures cs != []
    ensures var t := Take(wire, 0); var got := SyncIn(reg, t.body);
            && |got| == 1 && KeysIn(got) == {cs[0].key}
            && AppliedAll(m, got) == Changed(m, cs[0]) && Flies(t.rest, cs[1..])
  {
    var flight: seq<Sync> :| InFlight(wire, cs, flight);
    assert cs == [] ==> flight == [] && wire == [];
    FirstInFlight(reg, wire, cs, flight);
    ReceivedIsChanged(m, flight[0].logIndex, cs[0]);
  }

  lemma FirstInFlight(reg: Registry, wire: seq<byte>, cs: seq<Change>, flight: seq<Sync>)
    requires InFlight(wire, cs, flight) && cs != []
    ensures var t := Take(wire, 0);
            && t.Body? && SyncIn(reg, t.body) == [flight[0]] && Carries(flight[0], cs[0])
            && InFlight(t.rest, cs[1..], flight[1..])
  {
    BodiesCons(flight);
    CarriedParses(reg, flight[0], cs[0]);
    FrameRoundTrip(BodyOf(flight[0]), Flatten(FramesOf(Bodies(flight[1..]))));
  }

  // ---------- Every step keeps the invariant ----------

  lemma ChangedSameOn(from: int, m: map<Key, Entry>, m': map<Key, Entry>, c: Change)
    requires Same(from, m, m')
    ensures Same(from, Changed(m, c), Changed(m', c))
  {
    forall t | from <= t
      ensures SameAt(Changed(m, c), Changed(m', c), t)
    {
      ChangedSame(m, m', c, t);
    }
  }

  lemma SweptSameOn(from: int, m: map<Key, Entry>, m': map<Key, Entry>, now: int)
    requires Same(from, m, m') && now <= from
    ensures Same(from, Unexpired(m, now), m')
  {
    forall t | from <= t
      ensures SameAt(Unexpired(m, now), m', t)
    {
      assert SameAt(m, m', t);
      SweptSame(m, now, t);
    }
  }

  lemma SameSym(from: int, m: map<Key, Entry>, m': map<Key, Entry>)
    ensures Same(from, m, m') <==> Same(from, m', m)
  {
    assert forall t :: SameAt(m, m', t) <==> SameAt(m', m, t);
  }

  lemma SameLater(from: int, later: int, m: map<Key, Entry>, m': map<Key, Entry>)
    requires Same(from, m, m') && from <= later
    ensures Same(later, m, m')
  {
  }

  lemma ExtendedOk(vs: seq<map<Key, Entry>>, cs: seq<Change>, c: Change)
    requires VersionsOk(vs, cs)
    ensures VersionsOk(Extended(vs, c), cs + [c]) && vs <= Extended(vs, c)
    ensures Extended(vs, c)[|cs| + 1] == Changed(vs[|cs|], c)
  {
    forall k | 0 <= k < |cs| + 1
      ensures VersionOk(Extended(vs, c), cs + [c], k)
    {
      assert k < |cs| ==> VersionOk(vs, cs, k);
    }
  }

  lemma SameSlice(cs: seq<Change>, c: Change, from: nat, to: nat)
    requires from <= to <= |cs|
    ensures (cs + [c])[from..to] == cs[from..to]
  {
  }

  lemma WriteKeepsInv(reg: Registry, s: State, c: Change, s': State)
    requires Inv(s) && Steps(reg, s, Write(c), s')
    ensures Inv(s')
  {
    if Effective(s.leader, c) {
      ChangedSameOn(Clock(s), s.leader, s.versions[|s.changes|], c);
      ExtendedOk(s.versions, s.changes, c);
      SameSlice(s.changes, c, s.taken, Unsent(s));
    }
  }

  /** From `s` to `s'` the pending write went behind the frames in flight. */
  ghost predicate SentOne(s: State, s': State) {
    && s.pending.Some? && s.taken <= |s.changes|
    && s' == s.(pending := None, index := s'.index, wire := s'.wire)
    && Flies(s'.wire, s.changes[s.taken..])
  }

  lemma SendSendsOne(reg: Registry, s: State, s': State)
    requires PendingOk(s) && Flies(s.wire, s.changes[s.taken..Unsent(s)]) && Steps(reg, s, Send, s')
    ensures SentOne(s, s')
  {
    var c := s.pending.value;
    assert s.changes[s.taken..] == s.changes[s.taken..Unsent(s)] + [c];
    SentFlies(s.wire, s.changes[s.taken..Unsent(s)], s'.index, c);
  }

  lemma SendingOneKeepsInv(s: State, s': State)
    requires Inv(s) && SentOne(s, s')
    ensures Inv(s')
  {
    assert s.changes[s.taken..] == s.changes[s.taken..|s.changes|];
  }

  /** From `s` to `s'` the follower received the oldest write in flight, and applied it if its log took it. */
  ghost predicate TookOne(s: State, logged: bool, s': State) {
    && s.taken < Unsent(s)
    && var c := s.changes[s.taken];
       && s' == (if logged
                 then s.(wire := s'.wire, follower := Changed(s.follower, c), taken := s.taken + 1, missed := s.missed - {c.key})
                 else s.(wire := s'.wire, taken := s.taken + 1, missed := s.missed + {c.key}))
       && Flies(s'.wire, s.changes[s.taken + 1..Unsent(s)])
  }

  lemma ReceiveTakesOne(reg: Registry, s: State, logged: bool, s': State)
    requires PendingOk(s) && Flies(s.wire, s.changes[s.taken..Unsent(s)]) && Steps(reg, s, Receive(logged), s')
    ensures TookOne(s, logged, s')
  {
    var cs := s.changes[s.taken..Unsent(s)];
    ReadTakesOne(reg, s.wire, cs, s.follower);
    assert cs[1..] == s.changes[s.taken + 1..Unsent(s)];
  }

  /** A write that is applied makes up for what was missed of its key. */
  lemma AppliedMakesUp(from: int, m: map<Key, Entry>, v: map<Key, Entry>, ks: set<Key>, c: Change)
    requires Same(from, m - ks, v - ks)
    ensures Same(from, Changed(m, c) - (ks - {c.key}), Changed(v, c) - (ks - {c.key}))
  {
    ChangedSameOn(from, m - ks, v - ks, c);
    ChangedBeside(m, ks, c);
    ChangedBeside(v, ks, c);
  }

  lemma ChangedBeside(m: map<Key, Entry>, ks: set<Key>, c: Change)
    ensures Changed(m, c) - (ks - {c.key}) == Changed(m - ks, c)
  {
  }

  /** A write that is missed leaves the other keys as they were. */
  lemma MissedLeavesOthers(from: int, m: map<Key, Entry>, v: map<Key, Entry>, ks: set<Key>, c: Change)
    requires Same(from, m - ks, v - ks)
    ensures Same(from, m - (ks + {c.key}), Changed(v, c) - (ks + {c.key}))
  {
    ChangedSameOn(from, m - ks, v - ks, Remove(c.key));
    assert m - (ks + {c.key}) == (m - ks) - {c.key};
    assert Changed(v, c) - (ks + {c.key}) == (v - ks) - {c.key};
  }

  lemma ApplyingOneKeepsInv(s: State, s': State)
    requires Inv(s) && TookOne(s, true, s')
    ensures Inv(s')
  {
    assert VersionOk(s.versions, s.changes, s.taken);
    AppliedMakesUp(Clock(s), s.follower, s.versions[s.taken], s.missed, s.changes[s.taken]);
  }

  lemma MissingOneKeepsInv(s: State, s': State)
    requires Inv(s) && TookOne(s, false, s')
    ensures Inv(s')
  {
    assert VersionOk(s.versions, s.changes, s.taken);
    MissedLeavesOthers(Clock(s), s.follower, s.versions[s.taken], s.missed, s.changes[s.taken]);
  }

  lemma SweepKeepsInv(reg: Registry, s: State, step: Step, s': State)
    requires Inv(s) && (step.SweepLeader? || step.SweepFollower?) && Steps(reg, s, step, s')
    ensures Inv(s')
  {
    var all, some := s.versions[|s.changes|], s.versions[s.taken];
    SameLater(Clock(s), Clock(s'), s.leader, all);
    SameLater(Clock(s), Clock(s'), s.follower - s.missed, some - s.missed);
    if step.SweepLeader? {
      SweptSameOn(Clock(s'), s.leader, all, step.now);
    } else {
      SweptSameOn(Clock(s'), s.follower - s.missed, some - s.missed, step.now);
      assert Unexpired(s.follower - s.missed, step.now) == s'.follower - s.missed;
    }
  }

  lemma NextKeepsInv(reg: Registry, s: State, s': State)
    requires Inv(s) && Next(reg, s, s')
    ensures Inv(s')
  {
    var step :| Steps(reg, s, step, s');
    match step {
      case Write(c) => WriteKeepsInv(reg, s, c, s');
      case Send =>
        SendSendsOne(reg, s, s');
        SendingOneKeepsInv(s, s');
      case Receive(logged) =>
        ReceiveTakesOne(reg, s, logged, s');
        if logged {
          ApplyingOneKeepsInv(s, s');
        } else {
          MissingOneKeepsInv(s, s');
        }
      case _ => SweepKeepsInv(reg, s, step, s');
    }
  }

  lemma JoinedInv(s: State)
    requires Joins(s)
    ensures Inv(s)
  {
    NothingFlies();
    SameSym(Clock(s), s.leader, s.follower);
    assert s.follower - {} == s.follower && s.leader - {} == s.leader;
  }

  lemma {:induction false} RunKeepsInv(reg: Registry, run: seq<State>, i: nat)
    requires IsRun(reg, run) && i < |run|
    ensures Inv(run[i])
  {
    if i == 0 {
      JoinedInv(run[0]);
    } else {
      RunKeepsInv(reg, run, i - 1);
      assert StepAt(reg, run, i - 1);
      NextKeepsInv(reg, run[i - 1], run[i]);
    }
  }

  // ---------- Main results ----------

  function After(m: map<Key, Entry>, pending: Option<Change>): map<Key, Entry> {
    if pending.Some? then Changed(m, pending.value) else m
  }

  function KeysAfter(ks: set<Key>, pending: Option<Change>): set<Key> {
    if pending.Some? then ks - {pending.value.key} else ks
  }

  /** The follower's map once everything on its way has been applied. */
  function CaughtUp(reg: Registry, s: State): map<Key, Entry> {
    After(AppliedAll(s.follower, Follow(reg, s.wire).syncs), s.pending)
  }

  /** The keys it has missed and that nothing on its way makes up for. */
  function Lacking(reg: Registry, s: State): set<Key> {
    KeysAfter(s.missed - KeysIn(Follow(reg, s.wire).syncs), s.pending)
  }

  ghost predicate SameBut(m: map<Key, Entry>, m': map<Key, Entry>, ks: set<Key>, t: int) {
    SameAt(m - ks, m' - ks, t)
  }

  lemma ChangedSameBut(m: map<Key, Entry>, v: map<Key, Entry>, ks: set<Key>, c: Change, t: int)
    requires SameBut(m, v, ks, t)
    ensures SameBut(Changed(m, c), Changed(v, c), ks - {c.key}, t)
  {
    ChangedSame(m - ks, v - ks, c, t);
    ChangedBeside(m, ks, c);
    ChangedBeside(v, ks, c);
  }

  lemma {:induction false} FlightCatchesUp(
    m: map<Key, Entry>, missed: set<Key>, vs: seq<map<Key, Entry>>, cs: seq<Change>, flight: seq<Sync>, n: nat, t: int)
    requires VersionsOk(vs, cs) && AllCarry(flight, cs) && n <= |cs| && SameBut(m, vs[0], missed, t)
    ensures SameBut(AppliedAll(m, flight[..n]), vs[n], missed - KeysIn(flight[..n]), t)
  {
    if n == 0 {
      assert missed - KeysIn(flight[..0]) == missed;
    } else {
      FlightCatchesUp(m, missed, vs, cs, flight, n - 1, t);
      assert Carries(flight[n - 1], cs[n - 1]) && VersionOk(vs, cs, n - 1);
      OneMoreCatchesUp(m, missed, flight[..n - 1], flight[n - 1], cs[n - 1], vs[n - 1], t);
      assert flight[..n] == flight[..n - 1] + [flight[n - 1]];
    }
  }

  lemma VersionsBetween(vs: seq<map<Key, Entry>>, cs: seq<Change>, from: nat, to: nat)
    requires VersionsOk(vs, cs) && from <= to <= |cs|
    ensures VersionsOk(vs[from..to + 1], cs[from..to])
  {
    var vs', cs' := vs[from..to + 1], cs[from..to];
    forall k | 0 <= k < |cs'|
      ensures VersionOk(vs', cs', k)
    {
      assert VersionOk(vs, cs, from + k);
    }
  }

  lemma OneMoreCatchesUp(
    m: map<Key, Entry>, missed: set<Key>, ms: seq<Sync>, last: Sync, c: Change, v: map<Key, Entry>, t: int)
    requires Carries(last, c) && SameBut(AppliedAll(m, ms), v, missed - KeysIn(ms), t)
    ensures SameBut(AppliedAll(m, ms + [last]), Changed(v, c), missed - KeysIn(ms + [last]), t)
  {
    AppliedLast(m, ms, last, c);
    ChangedSameBut(AppliedAll(m, ms), v, missed - KeysIn(ms), c, t);
    KeysInMore(ms, last);
    assert missed - KeysIn(ms) - {c.key} == missed - KeysIn(ms + [last]);
  }

  lemma KeysInMore(ms: seq<Sync>, m: Sync)
    ensures KeysIn(ms + [m]) == KeysIn(ms) + {Key(m.key)}
  {
    assert forall x :: x in ms + [m] <==> x in ms || x == m;
  }

  lemma WholeFlightCatchesUp(s: State, flight: seq<Sync>, t: int)
    requires PendingOk(s) && VersionsOk(s.versions, s.changes) && AllCarry(flight, s.changes[s.taken..Unsent(s)])
    requires SameBut(s.follower, s.versions[s.taken], s.missed, t)
    ensures SameBut(AppliedAll(s.follower, flight), s.versions[Unsent(s)], s.missed - KeysIn(flight), t)
  {
    var to := Unsent(s);
    VersionsBetween(s.versions, s.changes, s.taken, to);
    assert flight[..|flight|] == flight;
    FlightCatchesUp(s.follower, s.missed, s.versions[s.taken..to + 1], s.changes[s.taken..to], flight, |flight|, t);
  }

  lemma AppliedLast(m: map<Key, Entry>, ms: seq<Sync>, last: Sync, c: Change)
    requires Carries(last, c)
    ensures AppliedAll(m, ms + [last]) == Changed(AppliedAll(m, ms), c)
  {
    AppliedJoined(m, ms, [last]);
    ReceivedIsChanged(AppliedAll(m, ms), last.logIndex, c);
  }

  /** In every reachable state the bytes in flight are whole frames, and a follower
      that applied them all would show exactly the leader's unexpired entries, but
      for the keys whose latest message its own log failed to take. */
  lemma ReplicaCatchesUp(reg: Registry, run: seq<State>, i: nat, t: int)
    requires IsRun(reg, run) && i < |run| && Clock(run[i]) <= t
    ensures Follow(reg, run[i].wire).end == Closed(Reader.Eof)
    ensures SameBut(CaughtUp(reg, run[i]), run[i].leader, Lacking(reg, run[i]), t)
    ensures run[i].missed == {} ==> SameAt(CaughtUp(reg, run[i]), run[i].leader, t)
  {
    RunKeepsInv(reg, run, i);
    InvCatchesUp(reg, run[i], t);
    if run[i].missed == {} {
      assert Lacking(reg, run[i]) == {};
      assert CaughtUp(reg, run[i]) - {} == CaughtUp(reg, run[i]) && run[i].leader - {} == run[i].leader;
    }
  }

  lemma WireCatchesUp(reg: Registry, s: State, t: int)
    requires PendingOk(s) && VersionsOk(s.versions, s.changes) && Flies(s.wire, s.changes[s.taken..Unsent(s)])
    requires SameBut(s.follower, s.versions[s.taken], s.missed, t)
    ensures Follow(reg, s.wire).end == Closed(Reader.Eof)
    ensures var flight := Follow(reg, s.wire).syncs;
            SameBut(AppliedAll(s.follower, flight), s.versions[Unsent(s)], s.missed - KeysIn(flight), t)
  {
    FlightIsFollowed(reg, s.wire, s.changes[s.taken..Unsent(s)]);
    WholeFlightCatchesUp(s, Follow(reg, s.wire).syncs, t);
  }

  lemma InvCatchesUp(reg: Registry, s: State, t: int)
    requires Inv(s) && Clock(s) <= t
    ensures Follow(reg, s.wire).end == Closed(Reader.Eof)
    ensures SameBut(CaughtUp(reg, s), s.leader, Lacking(reg, s), t)
  {
    var v := s.versions[|s.changes|];
    assert SameAt(s.follower - s.missed, s.versions[s.taken] - s.missed, t) && SameAt(s.leader, v, t);
    PendingCatchesUp(reg, s, t);
    SameMinus(s.leader, v, Lacking(reg, s), t);
  }

  lemma PendingCatchesUp(reg: Registry, s: State, t: int)
    requires PendingOk(s) && VersionsOk(s.versions, s.changes) && Flies(s.wire, s.changes[s.taken..Unsent(s)])
    requires SameBut(s.follower, s.versions[s.taken], s.missed, t)
    ensures Follow(reg, s.wire).end == Closed(Reader.Eof)
    ensures SameBut(CaughtUp(reg, s), s.versions[|s.changes|], Lacking(reg, s), t)
  {
    WireCatchesUp(reg, s, t);
    LastVersion(s);
    var flight := Follow(reg, s.wire).syncs;
    AfterSame(AppliedAll(s.follower, flight), s.versions[Unsent(s)], s.missed - KeysIn(flight), s.pending, t);
  }

  lemma LastVersion(s: State)
    requires PendingOk(s) && VersionsOk(s.versions, s.changes)
    ensures s.versions[|s.changes|] == After(s.versions[Unsent(s)], s.pending)
  {
    if s.pending.Some? {
      assert VersionOk(s.versions, s.changes, Unsent(s));
    }
  }

  lemma AfterSame(m: map<Key, Entry>, v: map<Key, Entry>, ks: set<Key>, pending: Option<Change>, t: int)
    requires SameBut(m, v, ks, t)
    ensures SameBut(After(m, pending), After(v, pending), KeysAfter(ks, pending), t)
  {
    if pending.Some? {
      ChangedSameBut(m, v, ks, pending.value, t);
    }
  }

  lemma SameMinus(m: map<Key, Entry>, m': map<Key, Entry>, ks: set<Key>, t: int)
    requires SameAt(m, m', t)
    ensures SameBut(m, m', ks, t)
  {
    assert Unexpired(m - ks, t) == Unexpired(m, t) - ks && Unexpired(m' - ks, t) == Unexpired(m', t) - ks;
  }

  /** One key shows the same in both maps. */
  ghost predicate SameKey(m: map<Key, Entry>, m': map<Key, Entry>, k: Key, t: int) {
    var u, u' := Unexpired(m, t), Unexpired(m', t);
    (k in u <==> k in u') && (k in u && k in u' ==> u[k] == u'[k])
  }

  lemma SameKeysSame(m: map<Key, Entry>, m': map<Key, Entry>, t: int)
    requires forall k :: SameKey(m, m', k, t)
    ensures SameAt(m, m', t)
  {
    forall k
      ensures k in Unexpired(m, t) <==> k in Unexpired(m', t)
      ensures k in Unexpired(m, t) && k in Unexpired(m', t) ==> Unexpired(m, t)[k] == Unexpired(m', t)[k]
    {
      assert SameKey(m, m', k, t);
    }
  }

  lemma SameButIsSame(m: map<Key, Entry>, m': map<Key, Entry>, ks: set<Key>, t: int)
    requires SameBut(m, m', ks, t)
    ensures SameAt(m, m', t) <==> forall k :: k in ks ==> SameKey(m, m', k, t)
  {
    var u, u' := Unexpired(m, t), Unexpired(m', t);
    assert Unexpired(m - ks, t) == u - ks && Unexpired(m' - ks, t) == u' - ks;
    if forall k :: k in ks ==> SameKey(m, m', k, t) {
      forall k
        ensures SameKey(m, m', k, t)
      {
        if k !in ks {
          assert k in u - ks <==> k in u;
          assert k in u' - ks <==> k in u';
        }
      }
      SameKeysSame(m, m', t);
    }
  }

  /** With nothing on its way, the two nodes show the same entries, if and only if
      they do so for the keys the follower has missed. */
  lemma IdleReplicaAgrees(reg: Registry, run: seq<State>, i: nat, t: int)
    requires IsRun(reg, run) && i < |run| && Clock(run[i]) <= t
    requires run[i].wire == [] && run[i].pending == None
    ensures SameAt(run[i].follower, run[i].leader, t) <==>
            forall k :: k in run[i].missed ==> SameKey(run[i].follower, run[i].leader, k, t)
  {
    ReplicaCatchesUp(reg, run, i, t);
    assert run[i].missed - KeysIn([]) == run[i].missed;
    SameButIsSame(run[i].follower, run[i].leader, run[i].missed, t);
  }

  /** A step in which the follower's log takes what it is given. */
  ghost predicate Logs(reg: Registry, s: State, s': State) {
    exists step: Step :: (step.Receive? ==> step.logged) && Steps(reg, s, step, s')
  }

  ghost predicate LogsAt(reg: Registry, run: seq<State>, i: nat)
    requires i + 1 < |run|
  {
    Logs(reg, run[i], run[i + 1])
  }

  /** Only a failed log append makes a follower miss anything. */
  lemma {:induction false} NothingMissed(reg: Registry, run: seq<State>, i: nat)
    requires |run| > 0 && Joins(run[0]) && i < |run|
    requires forall j :: 0 <= j < |run| - 1 ==> LogsAt(reg, run, j)
    ensures run[i].missed == {}
  {
    if i > 0 {
      NothingMissed(reg, run, i - 1);
      assert LogsAt(reg, run, i - 1);
    }
  }

  function Written(s: State, c: Change): State {
    s.(leader := Changed(s.leader, c), pending := Some(c),
       changes := s.changes + [c], versions := Extended(s.versions, c))
  }

  /** A write and its broadcast. */
  function Replicated(s: State, c: Change): State {
    Written(s, c).(pending := None, index := Increment(s.index),
                   wire := s.wire + SyncFrame(SyncFor(Increment(s.index), c)))
  }

  lemma ReplicatedInTwoSteps(reg: Registry, s: State, c: Change)
    requires s.pending == None && Sendable(c) && Effective(s.leader, c)
    ensures Next(reg, s, Written(s, c)) && Next(reg, Written(s, c), Replicated(s, c))
  {
    assert Steps(reg, s, Write(c), Written(s, c));
    assert Steps(reg, Written(s, c), Send, Replicated(s, c));
  }

  /** The leader stores `e` under `k` and sends it; the follower's log fails. */
  function MissRun(k: Key, e: Entry): seq<State> {
    var s := State(map[], None, 0, 0, [], map[], 0, [], [map[]], 0, {});
    var c := Put(k, e);
    [s, Written(s, c), Replicated(s, c), Replicated(s, c).(wire := [], taken := 1, missed := {k})]
  }

  /** Then nothing is on its way, and until it expires the follower does not show the entry. */
  lemma FollowerMissesAWrite(reg: Registry, k: Key, e: Entry, t: int)
    requires Sendable(Put(k, e)) && 0 <= t <= e.expiredAt
    ensures var run := MissRun(k, e);
            && IsRun(reg, run) && run[3].wire == [] && run[3].pending == None
            && !SameAt(run[3].follower, run[3].leader, t)
  {
    var run := MissRun(k, e);
    ReplicatedInTwoSteps(reg, run[0], Put(k, e));
    MissRunMisses(reg, k, e);
    assert StepAt(reg, run, 0) && StepAt(reg, run, 1) && StepAt(reg, run, 2);
    assert k in Unexpired(run[3].leader, t) && k !in Unexpired(run[3].follower, t);
  }

  lemma MissRunMisses(reg: Registry, k: Key, e: Entry)
    requires Sendable(Put(k, e))
    ensures Next(reg, MissRun(k, e)[2], MissRun(k, e)[3])
  {
    var run, m := MissRun(k, e), SyncFor(1, Put(k, e));
    ArrivesIffSendable(reg, 1, Put(k, e), [], map[]);
    assert run[2].wire == SyncFrame(m) && SyncFrame(m) + [] == SyncFrame(m);
    KeysInMore([], m);
    assert [] + [m] == [m] && KeysIn([]) == {};
    assert Steps(reg, run[2], Receive(false), run[3]);
  }

  /** What no step takes back. */
  predicate Forward(s: State, s': State) {
    && s.taken <= s'.taken && s.changes <= s'.changes && s.versions <= s'.versions && Clock(s) <= Clock(s')
  }

  lemma NextIsForward(reg: Registry, s: State, s': State)
    requires Next(reg, s, s')
    ensures Forward(s, s') && |s'.changes| <= |s.changes| + 1
  {
  }

  /** A follower never falls back to an earlier write. */
  lemma {:induction false} ReplicaMovesForward(reg: Registry, run: seq<State>, i: nat, k: nat)
    requires IsRun(reg, run) && i <= k < |run|
    ensures Forward(run[i], run[k])
  {
    if i < k {
      ReplicaMovesForward(reg, run, i, k - 1);
      assert StepAt(reg, run, k - 1);
      NextIsForward(reg, run[k - 1], run[k]);
    }
  }

  /** Some earlier state has any given number of the leader's writes. */
  lemma {:induction false} AfterWrites(reg: Registry, run: seq<State>, i: nat, n: nat) returns (j: nat)
    requires IsRun(reg, run) && i < |run| && n <= |run[i].changes|
    ensures j <= i && |run[j].changes| == n
  {
    if n == |run[i].changes| {
      j := i;
    } else {
      assert StepAt(reg, run, i - 1);
      NextIsForward(reg, run[i - 1], run[i]);
      j := AfterWrites(reg, run, i - 1, n);
    }
  }

  /** In `s` the follower shows what the leader held in `past`, after the writes the
      follower has received, but for the keys it has missed. */
  ghost predicate Mirrors(s: State, past: State) {
    && past.changes <= s.changes && |past.changes| == s.taken
    && Same(Clock(s), s.follower - s.missed, past.leader - s.missed)
  }

  /** A follower is stale but never wrong: what it shows is what the leader held
      at some earlier moment of the run, but for the keys it has missed. */
  lemma ReplicaIsAPastLeader(reg: Registry, run: seq<State>, i: nat)
    requires IsRun(reg, run) && i < |run|
    ensures exists j :: 0 <= j <= i && Mirrors(run[i], run[j])
  {
    RunKeepsInv(reg, run, i);
    var j := AfterWrites(reg, run, i, run[i].taken);
    RunKeepsInv(reg, run, j);
    ReplicaMovesForward(reg, run, j, i);
    PastMirrors(run[i], run[j]);
  }

  lemma PastMirrors(s: State, past: State)
    requires Inv(s) && Inv(past) && Forward(past, s) && |past.changes| == s.taken
    ensures Mirrors(s, past)
  {
    var v := s.versions[s.taken];
    assert past.versions[s.taken] == v;
    SameLater(Clock(past), Clock(s), past.leader, v);
    forall t | Clock(s) <= t
      ensures SameAt(v - s.missed, past.leader - s.missed, t)
    {
      assert SameAt(past.leader, v, t);
      SameMinus(v, past.leader, s.missed, t);
    }
    SameTrans(Clock(s), s.follower - s.missed, v - s.missed, past.leader - s.missed);
  }

  lemma SameTrans(from: int, a: map<Key, Entry>, b: map<Key, Entry>, c: map<Key, Entry>)
    requires Same(from, a, b) && Same(from, b, c)
    ensures Same(from, a, c)
  {
    forall t | from <= t
      ensures SameAt(a, c, t)
    {
      assert SameAt(a, b, t) && SameAt(b, c, t);
    }
  }

  // ---------- Indices ----------

  lemma NextIndex(a: nat, b: nat)
    ensures ((a + b) % 0x1_0000_0000_0000_0000 + 1) % 0x1_0000_0000_0000_0000 == (a + b + 1) % 0x1_0000_0000_0000_0000
  {
    var d := 0x1_0000_0000_0000_0000;
    var r := (a + b) % d;
    assert a + b == (a + b) / d * d + r;
    if r + 1 < d {
      DivModUnique(a + b + 1, d, (a + b) / d, r + 1);
    } else {
      DivModUnique(a + b + 1, d, (a + b) / d + 1, 0);
    }
  }

  lemma StepCounts(reg: Registry, run: seq<State>, i: nat)
    requires IsRun(reg, run) && i + 1 < |run|
    ensures Unsent(run[i]) <= Unsent(run[i + 1]) <= Unsent(run[i]) + 1
    ensures run[i + 1].index == if Unsent(run[i + 1]) == Unsent(run[i]) then run[i].index
                                else (run[i].index + 1) % 0x1_0000_0000_0000_0000
  {
    assert StepAt(reg, run, i);
  }

  /** The leader's index counts the messages sent: it goes up by one with each,
      wrapping at 64 bits, and by nothing else. */
  lemma {:induction false} IndexCountsMessages(reg: Registry, run: seq<State>, i: nat)
    requires IsRun(reg, run) && i < |run|
    ensures Unsent(run[i]) >= 0
    ensures run[i].index == (run[0].index + Unsent(run[i])) % 0x1_0000_0000_0000_0000
  {
    if i == 0 {
      SmallMod(run[0].index, 0x1_0000_0000_0000_0000);
    } else {
      IndexCountsMessages(reg, run, i - 1);
      StepCounts(reg, run, i - 1);
      NextIndex(run[0].index, Unsent(run[i - 1]));
    }
  }
}
