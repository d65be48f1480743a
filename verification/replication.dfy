/** Replication: a leader applies a write and sends it to every follower as one
    frame; a follower reads frames and applies them (cluster/node.go,
    cluster/leader.go, cluster/follower.go). */
module Replication {
  import opened Bytes
  import opened Entries
  import opened Messages
  import opened Frames
  import opened WalRecord
  import opened Store
  import opened StoreRuns
  import Reader

  /** A replication message, seen on the store's flat map. Other operation codes are ignored. */
  function Applied(m: map<Key, Entry>, s: Sync): map<Key, Entry> {
    if s.op == OP_SET then m[Key(s.key) := Entry(s.value, ToInt64(s.expiresAt))]
    else if s.op == OP_DELETE then m - {Key(s.key)}
    else m
  }

  function AppliedAll(m: map<Key, Entry>, ss: seq<Sync>): map<Key, Entry> {
    if ss == [] then m else Applied(AppliedAll(m, ss[..|ss| - 1]), ss[|ss| - 1])
  }

  /** What a replication message adds to the follower's own log. */
  function Logged(s: Sync): seq<Record> {
    if s.op == OP_SET then [SetRecord(Key(s.key), Entry(s.value, ToInt64(s.expiresAt)))]
    else if s.op == OP_DELETE then [DeleteRecord(Key(s.key))]
    else []
  }

  function LoggedAll(ss: seq<Sync>): seq<Record> {
    if ss == [] then [] else LoggedAll(ss[..|ss| - 1]) + Logged(ss[|ss| - 1])
  }

  function Indices(ss: seq<Sync>): seq<uint64> {
    seq(|ss|, i requires 0 <= i < |ss| => ss[i].logIndex)
  }

  lemma {:induction false} AppliedJoined(m: map<Key, Entry>, a: seq<Sync>, b: seq<Sync>)
    ensures AppliedAll(m, a + b) == AppliedAll(AppliedAll(m, a), b)
  {
    if b == [] {
      assert a + b == a;
    } else {
      var n := |b| - 1;
      AppliedJoined(m, a, b[..n]);
      assert (a + b)[..|a + b| - 1] == a + b[..n];
    }
  }

  // ---------- What a store with a budget may make of messages ----------

  /** One message: a set may evict or be refused, as the store's policy says. */
  ghost predicate Applies(cfg: Config, m: map<Key, Entry>, s: Sync, m': map<Key, Entry>) {
    if s.op == OP_SET
    then exists ok :: StoreSet(cfg.hash, cfg.shards, cfg.policy, cfg.budget,
                               m, Key(s.key), Entry(s.value, ToInt64(s.expiresAt)), ok, m')
    else m' == Applied(m, s)
  }

  ghost predicate AppliesAt(cfg: Config, trace: seq<map<Key, Entry>>, ss: seq<Sync>, i: nat)
    requires |trace| == |ss| + 1 && i < |ss|
  {
    Applies(cfg, trace[i], ss[i], trace[i + 1])
  }

  ghost predicate AppliesVia(
    cfg: Config, m: map<Key, Entry>, ss: seq<Sync>, m': map<Key, Entry>, trace: seq<map<Key, Entry>>)
  {
    && |trace| == |ss| + 1 && trace[0] == m && trace[|ss|] == m'
    && forall i :: 0 <= i < |ss| ==> AppliesAt(cfg, trace, ss, i)
  }

  /** Several messages, one after the other. */
  ghost predicate AppliesAll(cfg: Config, m: map<Key, Entry>, ss: seq<Sync>, m': map<Key, Entry>) {
    exists trace :: AppliesVia(cfg, m, ss, m', trace)
  }

  lemma AppliesNone(cfg: Config, m: map<Key, Entry>)
    ensures AppliesAll(cfg, m, [], m)
  {
    assert AppliesVia(cfg, m, [], m, [m]);
  }

  lemma AppliesMore(cfg: Config, m: map<Key, Entry>, ss: seq<Sync>, mid: map<Key, Entry>, s: Sync, m': map<Key, Entry>)
    requires AppliesAll(cfg, m, ss, mid) && Applies(cfg, mid, s, m')
    ensures AppliesAll(cfg, m, ss + [s], m')
  {
    var trace: seq<map<Key, Entry>> :| AppliesVia(cfg, m, ss, mid, trace);
    var ss', trace' := ss + [s], trace + [m'];
    forall i | 0 <= i < |ss'|
      ensures AppliesAt(cfg, trace', ss', i)
    {
      assert i < |ss| ==> AppliesAt(cfg, trace, ss, i);
    }
    assert AppliesVia(cfg, m, ss', m', trace');
  }

  /** Without a budget there is no choice. */
  lemma UnlimitedApplies(cfg: Config, m: map<Key, Entry>, ss: seq<Sync>, m': map<Key, Entry>)
    requires cfg.budget == 0 && AppliesAll(cfg, m, ss, m')
    ensures m' == AppliedAll(m, ss)
  {
    var trace: seq<map<Key, Entry>> :| AppliesVia(cfg, m, ss, m', trace);
    UnlimitedVia(cfg, m, ss, m', trace, |ss|);
    assert ss[..|ss|] == ss;
  }

  lemma {:induction false} UnlimitedVia(
    cfg: Config, m: map<Key, Entry>, ss: seq<Sync>, m': map<Key, Entry>, trace: seq<map<Key, Entry>>, n: nat)
    requires cfg.budget == 0 && AppliesVia(cfg, m, ss, m', trace) && n <= |ss|
    ensures trace[n] == AppliedAll(m, ss[..n])
  {
    if n > 0 {
      UnlimitedVia(cfg, m, ss, m', trace, n - 1);
      assert AppliesAt(cfg, trace, ss, n - 1);
      UnlimitedAppliesOne(cfg, trace[n - 1], ss[n - 1], trace[n]);
      assert ss[..n][..n - 1] == ss[..n - 1];
    }
  }

  lemma UnlimitedAppliesOne(cfg: Config, m: map<Key, Entry>, s: Sync, m': map<Key, Entry>)
    requires cfg.budget == 0 && Applies(cfg, m, s, m')
    ensures m' == Applied(m, s)
  {
    if s.op == OP_SET {
      var key, e := Key(s.key), Entry(s.value, ToInt64(s.expiresAt));
      var ok :| StoreSet(cfg.hash, cfg.shards, cfg.policy, cfg.budget, m, key, e, ok, m');
      StoreSetIsFlatSet(cfg.hash, cfg.shards, cfg.policy, cfg.budget, m, key, e, ok, m');
    }
  }

  // ---------- The follower ----------

  ghost function ConfigOf(db: KVStore): Config
    requires |db.shards| > 0
  {
    Config(db.hash, |db.shards|, db.policy, db.budget)
  }

  /** A failed log append, like a refused write, is only reported. */
  method ApplySync(db: KVStore, s: Sync, logged: bool)
    requires db.Valid()
    modifies db`log, db`flat, db.shards, db.Lists()
    ensures db.Valid()
    ensures if logged then db.log == old(db.log) + Logged(s) && Applies(ConfigOf(db), old(db.flat), s, db.flat)
            else db.log == old(db.log) && db.flat == old(db.flat)
  {
    var key := Key(s.key);
    assert db.shards[db.Slot(key)].lru in db.Lists();
    if s.op == OP_SET {
      var r := db.SetWithExpiry(key, Entry(s.value, ToInt64(s.expiresAt)), logged);
    } else if s.op == OP_DELETE {
      var r := db.Delete(key, logged);
    }
  }

  /** Why the loop ends at `t`. */
  function EndAt(t: Taken): End {
    if t.Broken? then Closed(t.status) else Crashed
  }

  /** One frame off the stream `s`: what it brought and what is left, or the end. */
  ghost predicate OnePass(reg: Registry, s: seq<byte>, got: seq<Sync>, rest: seq<byte>, end: End) {
    var t := Take(s, 0);
    if t.Body? && Parse(reg, t.body) != Crash
    then end == Open && rest == t.rest && got == SyncIn(reg, t.body)
    else end == EndAt(t) && got == []
  }

  lemma OnePassFollows(reg: Registry, s: seq<byte>, got: seq<Sync>, rest: seq<byte>, end: End)
    requires OnePass(reg, s, got, rest, end)
    ensures if end == Open then |rest| < |s| && Follow(reg, s) == Prepend(got, Follow(reg, rest))
            else Follow(reg, s) == Seen([], end)
  {
    FollowStep(reg, s);
  }

  /** At most one message, applied and logged if the log takes it. */
  ghost predicate OneApplied(
    cfg: Config, got: seq<Sync>, logged: bool,
    log: seq<Record>, flat: map<Key, Entry>, log': seq<Record>, flat': map<Key, Entry>)
  {
    if |got| == 1 && logged then log' == log + Logged(got[0]) && Applies(cfg, flat, got[0], flat')
    else log' == log && flat' == flat
  }

  /** One pass of the loop below: read a frame, skip it or apply it. */
  method SyncOnce(conn: Reader.Stream, db: KVStore, reg: Registry, logged: bool) returns (got: seq<Sync>, end: End)
    requires conn.Valid() && db.Valid()
    modifies conn`pos, db`log, db`flat, db.shards, db.Lists()
    ensures conn.Valid() && db.Valid() && |got| <= 1
    ensures OnePass(reg, old(conn.Rest()), got, conn.Rest(), end)
    ensures OneApplied(ConfigOf(db), got, logged, old(db.log), old(db.flat), db.log, db.flat)
  {
    var res := ReadFrame(conn, 0, reg);
    got, end := [], Open;
    match res {
      case IoError(status) => end := Closed(status);
      case Read(Crash) => end := Crashed;
      case Read(Parsed(Replicate(s))) =>
        got := [s];
        ApplySync(db, s, logged);
      case _ =>
    }
  }

  /** The messages whose log append succeeded. */
  function Durable(ss: seq<Sync>, logged: nat -> bool): seq<Sync> {
    if ss == [] then []
    else
      var n := |ss| - 1;
      Durable(ss[..n], logged) + if logged(n) then [ss[n]] else []
  }

  lemma DurableMore(ss: seq<Sync>, s: Sync, logged: nat -> bool)
    ensures Durable(ss + [s], logged) == Durable(ss, logged) + if logged(|ss|) then [s] else []
  {
    assert (ss + [s])[..|ss|] == ss;
  }

  lemma LoggedMore(ss: seq<Sync>, s: Sync)
    ensures LoggedAll(ss + [s]) == LoggedAll(ss) + Logged(s)
  {
    assert (ss + [s])[..|ss|] == ss;
  }

  lemma IndicesJoined(a: seq<Sync>, b: seq<Sync>)
    ensures Indices(a + b) == Indices(a) + Indices(b)
  {
  }

  /** The follower after the messages `done`: those that reached its log are in its
      log and in its map, in order. */
  ghost predicate CaughtUpTo(
    cfg: Config, done: seq<Sync>, logged: nat -> bool,
    log: seq<Record>, flat: map<Key, Entry>, log': seq<Record>, flat': map<Key, Entry>)
  {
    && log' == log + LoggedAll(Durable(done, logged))
    && AppliesAll(cfg, flat, Durable(done, logged), flat')
  }

  lemma CaughtUpMore(
    cfg: Config, done: seq<Sync>, got: seq<Sync>, logged: nat -> bool, log: seq<Record>, flat: map<Key, Entry>,
    log1: seq<Record>, flat1: map<Key, Entry>, log2: seq<Record>, flat2: map<Key, Entry>)
    requires CaughtUpTo(cfg, done, logged, log, flat, log1, flat1) && |got| <= 1
    requires OneApplied(cfg, got, logged(|done|), log1, flat1, log2, flat2)
    ensures CaughtUpTo(cfg, done + got, logged, log, flat, log2, flat2)
  {
    var kept := Durable(done, logged);
    if got == [] {
      assert done + got == done;
    } else {
      var s := got[0];
      assert got == [s];
      DurableMore(done, s, logged);
      if logged(|done|) {
        LoggedMore(kept, s);
        Concat3(log, LoggedAll(kept), Logged(s));
        AppliesMore(cfg, flat, kept, flat1, s, flat2);
      } else {
        assert kept + [] == kept;
      }
    }
  }

  /** The stream `s`, read up to `rest` and giving `done`, or to its end. */
  ghost predicate ReadUpTo(reg: Registry, s: seq<byte>, done: seq<Sync>, rest: seq<byte>, end: End) {
    Follow(reg, s) == if end == Open then Prepend(done, Follow(reg, rest)) else Seen(done, end)
  }

  lemma ReadMore(
    reg: Registry, s: seq<byte>, done: seq<Sync>, rest: seq<byte>, got: seq<Sync>, rest': seq<byte>, end: End)
    requires ReadUpTo(reg, s, done, rest, Open) && OnePass(reg, rest, got, rest', end)
    ensures ReadUpTo(reg, s, done + got, rest', end) && (end == Open ==> |rest'| < |rest|)
  {
    OnePassFollows(reg, rest, got, rest', end);
    PrependTwice(done, got, Follow(reg, rest'));
    assert done + [] == done;
  }

  lemma NothingRead(reg: Registry, s: seq<byte>, cfg: Config, logged: nat -> bool, log: seq<Record>, flat: map<Key, Entry>)
    ensures ReadUpTo(reg, s, [], s, Open) && CaughtUpTo(cfg, [], logged, log, flat, log, flat)
  {
    AppliesNone(cfg, flat);
    assert [] + Follow(reg, s).syncs == Follow(reg, s).syncs;
    assert log + [] == log;
  }

  /** The read, skip and apply loop, until the connection ends. `logged` says which
      log appends succeed. Every replication message is acknowledged with its
      index, applied or not. */
  method SyncWithLeader(conn: Reader.Stream, db: KVStore, reg: Registry, logged: nat -> bool)
    returns (acks: seq<uint64>, end: End)
    requires conn.Valid() && db.Valid()
    modifies conn`pos, db`log, db`flat, db.shards, db.Lists()
    ensures db.Valid()
    ensures var seen := Follow(reg, old(conn.Rest()));
            && end == seen.end && |acks| == |seen.syncs|
            && (forall i :: 0 <= i < |acks| ==> acks[i] == seen.syncs[i].logIndex)
            && CaughtUpTo(ConfigOf(db), seen.syncs, logged, old(db.log), old(db.flat), db.log, db.flat)
  {
    ghost var s, log, flat, cfg := conn.Rest(), db.log, db.flat, ConfigOf(db);
    ghost var done: seq<Sync> := [];
    NothingRead(reg, s, cfg, logged, log, flat);
    acks, end := [], Open;
    while end == Open
      invariant conn.Valid() && db.Valid()
      invariant ReadUpTo(reg, s, done, conn.Rest(), end) && acks == Indices(done)
      invariant CaughtUpTo(cfg, done, logged, log, flat, db.log, db.flat)
      decreases end == Open, |conn.Rest()|
    {
      ghost var rest, log1, flat1 := conn.Rest(), db.log, db.flat;
      var got;
      got, end := SyncOnce(conn, db, reg, logged(|acks|));
      ReadMore(reg, s, done, rest, got, conn.Rest(), end);
      CaughtUpMore(cfg, done, got, logged, log, flat, log1, flat1, db.log, db.flat);
      IndicesJoined(done, got);
      acks := acks + Indices(got);
      done := done + got;
    }
  }

  /** Without a budget the follower's map is exactly the logged messages applied to it. */
  lemma UnlimitedFollower(
    cfg: Config, done: seq<Sync>, logged: nat -> bool,
    log: seq<Record>, flat: map<Key, Entry>, log': seq<Record>, flat': map<Key, Entry>)
    requires cfg.budget == 0 && CaughtUpTo(cfg, done, logged, log, flat, log', flat')
    ensures flat' == AppliedAll(flat, Durable(done, logged))
  {
    UnlimitedApplies(cfg, flat, Durable(done, logged), flat');
  }

  // ---------- The leader ----------

  function SetSync(index: uint64, key: Key, e: Entry): Sync {
    Sync(index, OP_SET, key.chars, e.value, ToUint64(e.expiredAt))
  }

  function DeleteSync(index: uint64, key: Key): Sync {
    Sync(index, OP_DELETE, key.chars, [], 0)
  }

  function SyncFrame(s: Sync): seq<byte> {
    Frame(Wire(OP_REPLICATION_SYNC, SyncBytes(s)))
  }

  function Increment(n: uint64): uint64 {
    (n + 1) % TWO64
  }

  /** Every connection gets the frame, except the ones whose write fails: those are dropped. */
  function Sent(conns: map<string, seq<byte>>, frame: seq<byte>, dead: set<string>): map<string, seq<byte>> {
    map a | a in conns && a !in dead :: conns[a] + frame
  }

  /** The broadcast before the connections in `todo` were written to. */
  function HalfSent(conns: map<string, seq<byte>>, frame: seq<byte>, dead: set<string>, todo: set<string>)
    : map<string, seq<byte>>
  {
    map a | a in conns :: if a in todo || a in dead then conns[a] else conns[a] + frame
  }

  lemma HalfSentEnds(conns: map<string, seq<byte>>, frame: seq<byte>, dead: set<string>)
    ensures HalfSent(conns, frame, dead, conns.Keys) == conns
    ensures HalfSent(conns, frame, dead, {}) - conns.Keys * dead == Sent(conns, frame, dead)
  {
  }

  lemma HalfSentStep(conns: map<string, seq<byte>>, frame: seq<byte>, dead: set<string>, todo: set<string>, a: string)
    requires a in todo && todo <= conns.Keys
    ensures var h := HalfSent(conns, frame, dead, todo);
            HalfSent(conns, frame, dead, todo - {a}) == if a in dead then h else h[a := h[a] + frame]
  {
  }

  /** The addresses found dead once those in `todo` are still to be tried. */
  function Failed(all: set<string>, todo: set<string>, dead: set<string>): set<string> {
    (all - todo) * dead
  }

  lemma FailedStep(all: set<string>, todo: set<string>, dead: set<string>, a: string)
    requires a in todo && todo <= all
    ensures Failed(all, all, dead) == {} && Failed(all, {}, dead) == all * dead
    ensures Failed(all, todo - {a}, dead) == Failed(all, todo, dead) + if a in dead then {a} else {}
  {
  }

  /** The write loop with the connections in `todo` still to come. */
  ghost predicate HalfDone(
    conns: map<string, seq<byte>>, frame: seq<byte>, dead: set<string>,
    todo: set<string>, failed: set<string>, now: map<string, seq<byte>>)
  {
    todo <= conns.Keys && failed == Failed(conns.Keys, todo, dead) && now == HalfSent(conns, frame, dead, todo)
  }

  lemma HalfDoneStep(
    conns: map<string, seq<byte>>, frame: seq<byte>, dead: set<string>,
    todo: set<string>, failed: set<string>, now: map<string, seq<byte>>, a: string)
    requires HalfDone(conns, frame, dead, todo, failed, now) && a in todo
    ensures a in now
    ensures if a in dead then HalfDone(conns, frame, dead, todo - {a}, failed + {a}, now)
            else HalfDone(conns, frame, dead, todo - {a}, failed, now[a := now[a] + frame])
  {
    HalfSentStep(conns, frame, dead, todo, a);
    FailedStep(conns.Keys, todo, dead, a);
  }

  class Leader {
    var followers: map<string, seq<byte>>  // by address: all bytes written to its connection
    var logIndex: uint64

    constructor ()
      ensures followers == map[] && logIndex == 0
    {
      followers, logIndex := map[], 0;
    }

    /** `dead`: the addresses a write to fails. */
    method Broadcast(msg: ReplicationSync, dead: set<string>)
      modifies this`followers
      ensures followers == Sent(old(followers), SyncFrame(msg.Value()), dead)
      ensures followers.Keys == old(followers).Keys - dead
      ensures forall a :: a in followers ==> followers[a] == old(followers)[a] + SyncFrame(msg.Value())
    {
      var payload := msg.Encode();
      var ok, frame := EncodeFrame(OP_REPLICATION_SYNC, Payload(payload[..]));
      HalfSentEnds(followers, frame[..], dead);
      var failed := WriteAll(frame[..], dead);
      Drop(failed);
    }

    /** Write to every connection in turn, noting the failures. */
    method WriteAll(frame: seq<byte>, dead: set<string>) returns (failed: set<string>)
      modifies this`followers
      ensures followers == HalfSent(old(followers), frame, dead, {}) && failed == old(followers.Keys) * dead
    {
      ghost var conns := followers;
      HalfSentEnds(conns, frame, dead);
      var todo := followers.Keys;
      failed := {};
      while todo != {}
        invariant HalfDone(conns, frame, dead, todo, failed, followers)
        decreases |todo|
      {
        var a :| a in todo;
        HalfDoneStep(conns, frame, dead, todo, failed, followers, a);
        if a in dead {
          failed := failed + {a};
        } else {
          followers := followers[a := followers[a] + frame];
        }
        todo := todo - {a};
      }
    }

    /** Close and forget the connections whose write failed. */
    method Drop(failed: set<string>)
      modifies this`followers
      ensures followers == old(followers) - failed
    {
      var todo := failed;
      while todo != {}
        invariant todo <= failed && followers == old(followers) - (failed - todo)
        decreases |todo|
      {
        var a :| a in todo;
        followers := followers - {a};
        todo := todo - {a};
      }
    }

    method BroadcastSet(key: Key, value: seq<byte>, expiredAt: int, dead: set<string>)
      modifies this
      ensures logIndex == Increment(old(logIndex)) == (old(logIndex) + 1) % 0x1_0000_0000_0000_0000
      ensures followers == Sent(old(followers), SyncFrame(SetSync(logIndex, key, Entry(value, expiredAt))), dead)
    {
      logIndex := Increment(logIndex);
      var msg := new ReplicationSync();
      msg.logIndex, msg.op, msg.key, msg.value := logIndex, OP_SET, key.chars, value;
      msg.expiresAt := ToUint64(expiredAt);
      Broadcast(msg, dead);
    }

    method BroadcastDelete(key: Key, dead: set<string>)
      modifies this
      ensures logIndex == Increment(old(logIndex)) == (old(logIndex) + 1) % 0x1_0000_0000_0000_0000
      ensures followers == Sent(old(followers), SyncFrame(DeleteSync(logIndex, key)), dead)
    {
      logIndex := Increment(logIndex);
      var msg := new ReplicationSync();
      msg.logIndex, msg.op, msg.key := logIndex, OP_DELETE, key.chars;
      Broadcast(msg, dead);
    }
  }

  class Node {
    const db: KVStore
    const defaultTTL: int
    var leader: Leader?  // set while this node replicates to others

    constructor (db: KVStore, defaultTTL: int)
      ensures this.db == db && this.defaultTTL == defaultTTL && leader == null
    {
      this.db, this.defaultTTL, leader := db, defaultTTL, null;
    }

    function ExpiryOf(ttl: int, now: int): int {
      now + if ttl <= 0 then defaultTTL else ttl
    }

    /** An entry lives for the requested time, or for the default one if none was requested. */
    lemma LifeOf(ttl: int, now: int)
      ensures ttl > 0 ==> ExpiryOf(ttl, now) - now == ttl
      ensures ttl <= 0 ==> ExpiryOf(ttl, now) - now == defaultTTL
    {
    }

    /** Apply, then send: a write the store did not take is not sent. The expiry
        is fixed once, so every follower stores the leader's own. */
    method Set(key: Key, value: seq<byte>, ttl: int, now: int, logged: bool, dead: set<string>) returns (r: SetResult)
      requires db.Valid()
      modifies db`log, db`flat, db.shards, db.Lists(), leader
      ensures db.Valid()
      ensures var e := Entry(value, now + if ttl <= 0 then defaultTTL else ttl);
              if logged then
                && db.log == old(db.log) + [SetRecord(key, e)] && r != LogFailed
                && StoreSet(db.hash, |db.shards|, db.policy, db.budget, old(db.flat), key, e, r == Stored, db.flat)
                && FlatSet(db.policy, db.budget, old(db.flat), key, e, r == Stored, db.flat)
              else r == LogFailed && db.log == old(db.log) && db.flat == old(db.flat)
      ensures leader != null ==>
        if r == Stored then
          && leader.logIndex == Increment(old(leader.logIndex))
          && leader.followers == Sent(old(leader.followers),
               SyncFrame(SetSync(leader.logIndex, key, Entry(value, now + if ttl <= 0 then defaultTTL else ttl))), dead)
        else unchanged(leader)
    {
      var life := if ttl <= 0 then defaultTTL else ttl;
      var expiredAt := now + life;
      assert db.shards[db.Slot(key)].lru in db.Lists();
      r := db.SetWithExpiry(key, Entry(value, expiredAt), logged);
      if r == Stored && leader != null {
        leader.BroadcastSet(key, value, expiredAt, dead);
      }
    }

    /** What Set stores is served from then on for as long as was asked, and no longer. */
    method SetThenGet(key: Key, value: seq<byte>, ttl: int, now: int, logged: bool, dead: set<string>, at: int)
      returns (r: SetResult, g: GetResult)
      requires db.Valid()
      modifies db`log, db`flat, db.shards, db.Lists(), leader
      ensures db.Valid()
      ensures r == Stored ==> g == if at - now <= (if ttl <= 0 then defaultTTL else ttl) then Found(value) else NotFound
    {
      LifeOf(ttl, now);
      r := Set(key, value, ttl, now, logged, dead);
      assert db.shards[db.Slot(key)].lru in db.Lists();
      g := db.Get(key, at);
    }

    /** A key that was not there is not sent. */
    method Delete(key: Key, logged: bool, dead: set<string>) returns (r: DeleteResult)
      requires db.Valid()
      modifies db`log, db`flat, db.shards, db.Lists(), leader
      ensures db.Valid()
      ensures r == if !logged then DeleteLogFailed else if key in old(db.flat) then Deleted else KeyNotFound
      ensures db.flat == if logged then old(db.flat) - {key} else old(db.flat)
      ensures db.log == if logged then old(db.log) + [DeleteRecord(key)] else old(db.log)
      ensures leader != null ==>
        if r == Deleted then
          && leader.logIndex == Increment(old(leader.logIndex))
          && leader.followers == Sent(old(leader.followers), SyncFrame(DeleteSync(leader.logIndex, key)), dead)
        else unchanged(leader)
    {
      assert db.shards[db.Slot(key)].lru in db.Lists();
      r := db.Delete(key, logged);
      if r == Deleted && leader != null {
        leader.BroadcastDelete(key, dead);
      }
    }
  }

  /** Receiving what was sent does to the follower's map what the write did to the
      leader's, exactly when the expiry is an int64 of nanoseconds. */
  lemma SentIsApplied(m: map<Key, Entry>, index: uint64, key: Key, e: Entry)
    ensures Applied(m, SetSync(index, key, e)) == m[key := e] <==> IsInt64(e.expiredAt)
    ensures Applied(m, DeleteSync(index, key)) == m - {key}
  {
    Int64Back(e.expiredAt);
    assert m[key := e][key] == e;
    assert Applied(m, SetSync(index, key, e))[key] == Entry(e.value, ToInt64(ToUint64(e.expiredAt)));
  }
}
