/** The replication classes at work: a leader's Node, a follower's store and the
    connection between them, whatever is asked of them and in whatever order, go
    through a run of module ReplicationRuns. */
module ReplicationSessions {
  import opened Bytes
  import opened Entries
  import opened Messages
  import opened Frames
  import opened Store
  import opened Replication
  import opened ReplicationRuns
  import Reader
  import StoreRuns

  datatype Event =
    | Set(key: Key, value: seq<byte>, ttl: int, now: int)
    | Delete(key: Key)
    | Deliver(logged: bool)          // the follower reads on; `logged`: its log takes the message
    | SweepLeader(after: nat)        // `after` nanoseconds later by the leader's clock
    | SweepFollower(after: nat)

  // ---------- Paths ----------

  ghost predicate IsPath(reg: Registry, run: seq<State>, s: State, s': State) {
    && |run| > 0 && run[0] == s && run[|run| - 1] == s'
    && forall i :: 0 <= i < |run| - 1 ==> StepAt(reg, run, i)
  }

  /** Nothing changed on the follower's side. */
  predicate FollowerKept(s: State, s': State) {
    s'.follower == s.follower && s'.followerClock == s.followerClock && s'.leaderClock == s.leaderClock
  }

  predicate LeaderKept(s: State, s': State) {
    && s'.leader == s.leader && s'.leaderClock == s.leaderClock && s'.followerClock == s.followerClock
    && s'.pending == s.pending && s'.index == s.index
  }

  // ---------- The leader's side ----------

  ghost predicate LeaderShows(node: Node, leader: Leader, addr: string, offset: nat, s: State)
    reads node, leader, node.db`flat
  {
    && node.leader == leader && node.db.budget == 0 && node.db.flat == s.leader
    && addr in leader.followers && offset <= |leader.followers[addr]|
    && s.wire == leader.followers[addr][offset..] && s.index == leader.logIndex && s.pending == None
  }

  lemma ReplicatedPath(reg: Registry, s: State, c: Change) returns (run: seq<State>)
    requires s.pending == None && Sendable(c) && Effective(s.leader, c)
    ensures IsPath(reg, run, s, Replicated(s, c)) && FollowerKept(s, Replicated(s, c))
  {
    var mid, s' := Written(s, c), Replicated(s, c);
    ReplicatedInTwoSteps(reg, s, c);
    run := [s, mid, s'];
    assert StepAt(reg, run, 0) && StepAt(reg, run, 1);
  }

  lemma Onwards(all: seq<byte>, offset: nat, n: nat)
    requires offset + n <= |all|
    ensures all[offset..][n..] == all[offset + n..]
  {
  }

  lemma BytesBehind(sent: seq<byte>, offset: nat, frame: seq<byte>)
    requires offset <= |sent|
    ensures (sent + frame)[offset..] == sent[offset..] + frame
  {
  }

  /** A set: the leader's store changes, then the frame goes out. */
  method LeaderSets(node: Node, leader: Leader, addr: string, offset: nat, ev: Event, ghost s: State)
    requires node.db.Valid() && LeaderShows(node, leader, addr, offset, s) && ev.Set?
    modifies leader, node.db`log, node.db`flat, node.db.shards, node.db.Lists()
    ensures node.db.Valid()
    ensures LeaderShows(node, leader, addr, offset,
                        Replicated(s, Put(ev.key, Entry(ev.value, node.ExpiryOf(ev.ttl, ev.now)))))
  {
    ghost var e, sent := Entry(ev.value, node.ExpiryOf(ev.ttl, ev.now)), leader.followers[addr];
    var r := node.Set(ev.key, ev.value, ev.ttl, ev.now, true, {});
    BytesBehind(sent, offset, SyncFrame(SetSync(leader.logIndex, ev.key, e)));
  }

  /** A delete: nothing is sent for a key that was not there. */
  method LeaderDeletes(node: Node, leader: Leader, addr: string, offset: nat, key: Key, ghost s: State)
    requires node.db.Valid() && LeaderShows(node, leader, addr, offset, s)
    modifies leader, node.db`log, node.db`flat, node.db.shards, node.db.Lists()
    ensures node.db.Valid()
    ensures LeaderShows(node, leader, addr, offset, if key in s.leader then Replicated(s, Remove(key)) else s)
  {
    ghost var sent := leader.followers[addr];
    var r := node.Delete(key, true, {});
    if r == Deleted {
      BytesBehind(sent, offset, SyncFrame(DeleteSync(leader.logIndex, key)));
    } else {
      assert s.leader - {key} == s.leader;
    }
  }

  // ---------- The follower's side ----------

  function Received(reg: Registry, s: State, logged: bool): State
    requires Take(s.wire, 0).Body?
  {
    var t := Take(s.wire, 0);
    var got := SyncIn(reg, t.body);
    if logged
    then s.(wire := t.rest, follower := AppliedAll(s.follower, got), taken := s.taken + |got|, missed := s.missed - KeysIn(got))
    else s.(wire := t.rest, taken := s.taken + |got|, missed := s.missed + KeysIn(got))
  }

  lemma ReceivedInOneStep(reg: Registry, s: State, logged: bool)
    requires Take(s.wire, 0).Body?
    ensures Next(reg, s, Received(reg, s, logged))
  {
    assert Steps(reg, s, Receive(logged), Received(reg, s, logged));
  }

  /** A frame at the front does not make a decoder panic. */
  predicate Harmless(reg: Registry, wire: seq<byte>) {
    var t := Take(wire, 0);
    t.Body? ==> Parse(reg, t.body) != Crash
  }

  /** No frame of a leader's does. */
  lemma LeadersFramesAreHarmless(reg: Registry, s: State)
    requires Inv(s)
    ensures Harmless(reg, s.wire)
  {
    if Take(s.wire, 0).Body? {
      ReadTakesOne(reg, s.wire, s.changes[s.taken..Unsent(s)], s.follower);
    }
  }

  lemma AppliedOne(
    cfg: StoreRuns.Config, got: seq<Sync>, logged: bool, flat: map<Key, Entry>, flat': map<Key, Entry>)
    requires cfg.budget == 0 && |got| <= 1
    requires if |got| == 1 && logged then Applies(cfg, flat, got[0], flat') else flat' == flat
    ensures flat' == if logged then AppliedAll(flat, got) else flat
  {
    if |got| == 1 && logged {
      UnlimitedAppliesOne(cfg, flat, got[0], flat');
      assert got[..0] == [];
    }
  }

  /** The follower reads on: `n` bytes of the connection are used up. */
  method FollowerReads(wire: seq<byte>, db: KVStore, reg: Registry, logged: bool)
    returns (n: nat, got: seq<Sync>, end: End)
    requires db.Valid() && db.budget == 0
    modifies db`log, db`flat, db.shards, db.Lists()
    ensures db.Valid() && n <= |wire| && OnePass(reg, wire, got, wire[n..], end)
    ensures db.flat == if logged then AppliedAll(old(db.flat), got) else old(db.flat)
  {
    var conn := new Reader.Stream(wire);
    got, end := SyncOnce(conn, db, reg, logged);
    AppliedOne(ConfigOf(db), got, logged, old(db.flat), db.flat);
    n := conn.pos;
  }

  /** Reading a whole frame of a leader's is the follower's step. */
  lemma ReceivedPath(
    reg: Registry, s: State, logged: bool, got: seq<Sync>, rest: seq<byte>, end: End, flat: map<Key, Entry>)
    returns (run: seq<State>, s': State)
    requires Take(s.wire, 0).Body? && Harmless(reg, s.wire) && OnePass(reg, s.wire, got, rest, end)
    requires flat == if logged then AppliedAll(s.follower, got) else s.follower
    ensures IsPath(reg, run, s, s') && LeaderKept(s, s') && s'.wire == rest && s'.follower == flat
    ensures s' == Received(reg, s, logged)
  {
    ReceivedInOneStep(reg, s, logged);
    s' := Received(reg, s, logged);
    run := [s, s'];
    assert StepAt(reg, run, 0);
  }

  // ---------- Both sides ----------

  class Link {
    const node: Node
    const leader: Leader
    const db: KVStore
    const addr: string
    var offset: nat                  // how much of the connection the follower has read
    var leaderClock: int
    var followerClock: int
    ghost var state: State

    /** The objects stand for `state`. */
    ghost predicate Shown()
      reads this, node, leader, node.db`flat, db`flat
    {
      && LeaderShows(node, leader, addr, offset, state) && leaderClock == state.leaderClock
      && db.budget == 0 && db.flat == state.follower && followerClock == state.followerClock
    }

    ghost predicate Apart() {
      && node.db != db
      && (forall a, b :: a in node.db.shards && b in db.shards ==> a != b && a.lru != b.lru)
    }

    ghost predicate Valid()
      reads this, node, leader, node.db, node.db.shards, node.db.Lists(), db, db.shards, db.Lists()
    {
      Apart() && node.db.Valid() && db.Valid() && Shown()
    }

    /** A follower has just joined, over a new connection, a leader that shows what it shows. */
    constructor (node: Node, leader: Leader, db: KVStore, addr: string, leaderClock: int, followerClock: int)
      requires node.db.Valid() && db.Valid() && node.db.budget == 0 && db.budget == 0 && node.db != db
      requires forall a, b :: a in node.db.shards && b in db.shards ==> a != b && a.lru != b.lru
      requires node.leader == leader && addr in leader.followers
      requires Same(if leaderClock <= followerClock then followerClock else leaderClock, node.db.flat, db.flat)
      ensures this.node == node && this.leader == leader && this.db == db && Valid() && Joins(state)
    {
      this.node, this.leader, this.db, this.addr := node, leader, db, addr;
      offset := |leader.followers[addr]|;
      this.leaderClock, this.followerClock := leaderClock, followerClock;
      state := State(node.db.flat, None, leader.logIndex, leaderClock, [], db.flat, followerClock, [], [node.db.flat], 0, {});
    }

    lemma SidesApart()
      requires Apart()
      ensures forall x :: x in db.shards ==> x !in node.db.shards && x.lru !in node.db.Lists()
      ensures forall x :: x in node.db.shards ==> x !in db.shards && x.lru !in db.Lists()
    {
    }

    /** Work on the leader's side leaves the follower's store in order. */
    twostate lemma FollowerUntouched()
      requires old(db.Valid()) && unchanged(db) && forall x :: x in db.shards ==> unchanged(x) && unchanged(x.lru)
      ensures db.Valid()
    {
      forall i | 0 <= i < |db.shards|
        ensures db.ShardOk(i)
      {
        assert old(db.ShardOk(i)) && db.shards[i] in db.shards;
      }
    }

    /** And the other way round. */
    twostate lemma LeaderUntouched()
      requires old(node.db.Valid()) && unchanged(node.db)
      requires forall x :: x in node.db.shards ==> unchanged(x) && unchanged(x.lru)
      ensures node.db.Valid()
    {
      forall i | 0 <= i < |node.db.shards|
        ensures node.db.ShardOk(i)
      {
        assert old(node.db.ShardOk(i)) && node.db.shards[i] in node.db.shards;
      }
    }

    /** The write of an event. */
    function ChangeOf(ev: Event): Change
      requires ev.Set? || ev.Delete?
    {
      if ev.Set? then Put(ev.key, Entry(ev.value, node.ExpiryOf(ev.ttl, ev.now))) else Remove(ev.key)
    }

    method HandleSet(reg: Registry, ev: Event) returns (ghost run: seq<State>)
      requires Valid() && ev.Set? && Sendable(ChangeOf(ev))
      modifies this`state, leader, node.db, node.db.shards, node.db.Lists()
      ensures Valid() && IsPath(reg, run, old(state), state)
      ensures state == Replicated(old(state), ChangeOf(ev))
    {
      ghost var s, c := state, ChangeOf(ev);
      SidesApart();
      LeaderSets(node, leader, addr, offset, ev, s);
      FollowerUntouched();
      run := ReplicatedPath(reg, s, c);
      state := Replicated(s, c);
    }

    method HandleDelete(reg: Registry, ev: Event) returns (ghost run: seq<State>)
      requires Valid() && ev.Delete? && Sendable(ChangeOf(ev))
      modifies this`state, leader, node.db, node.db.shards, node.db.Lists()
      ensures Valid() && IsPath(reg, run, old(state), state)
    {
      ghost var s, c := state, ChangeOf(ev);
      SidesApart();
      LeaderDeletes(node, leader, addr, offset, ev.key, s);
      FollowerUntouched();
      if ev.key in s.leader {
        run := ReplicatedPath(reg, s, c);
        state := Replicated(s, c);
      } else {
        run := [s];
      }
    }

    /** What the follower does leaves the leader's side alone. */
    method ReadOn(wire: seq<byte>, reg: Registry, logged: bool) returns (n: nat, got: seq<Sync>, end: End)
      requires Apart() && node.db.Valid() && db.Valid() && db.budget == 0
      modifies db, db.shards, db.Lists()
      ensures node.db.Valid() && db.Valid() && n <= |wire| && OnePass(reg, wire, got, wire[n..], end)
      ensures db.flat == if logged then AppliedAll(old(db.flat), got) else old(db.flat)
    {
      SidesApart();
      n, got, end := FollowerReads(wire, db, reg, logged);
      LeaderUntouched();
    }

    /** The follower reads on if a whole frame has arrived; otherwise it waits. */
    method HandleDeliver(reg: Registry, logged: bool) returns (ghost run: seq<State>)
      requires Valid() && Harmless(reg, state.wire)
      modifies this`state, this`offset, db, db.shards, db.Lists()
      ensures Valid() && IsPath(reg, run, old(state), state)
      ensures state == if Take(old(state).wire, 0).Body? then Received(reg, old(state), logged) else old(state)
    {
      var all := leader.followers[addr];
      if !Take(all[offset..], 0).Body? {
        run := [state];
        return;
      }
      var n, got, end := ReadOn(all[offset..], reg, logged);
      run, state := ReceivedPath(reg, state, logged, got, all[offset..][n..], end, db.flat);
      Onwards(all, offset, n);
      offset := offset + n;
    }

    method HandleSweepLeader(reg: Registry, after: nat) returns (ghost run: seq<State>)
      requires Valid()
      modifies this`state, this`leaderClock, node.db, node.db.shards, node.db.Lists()
      ensures Valid() && IsPath(reg, run, old(state), state)
    {
      ghost var s := state;
      leaderClock := leaderClock + after;
      SidesApart();
      node.db.Sweep(leaderClock);
      FollowerUntouched();
      state := s.(leader := node.db.flat, leaderClock := leaderClock);
      run := SweptPath(reg, s, Step.SweepLeader(leaderClock), state);
    }

    method HandleSweepFollower(reg: Registry, after: nat) returns (ghost run: seq<State>)
      requires Valid()
      modifies this`state, this`followerClock, db, db.shards, db.Lists()
      ensures Valid() && IsPath(reg, run, old(state), state)
    {
      ghost var s := state;
      followerClock := followerClock + after;
      SidesApart();
      db.Sweep(followerClock);
      LeaderUntouched();
      state := s.(follower := db.flat, followerClock := followerClock);
      run := SweptPath(reg, s, Step.SweepFollower(followerClock), state);
    }

    /** Any event, in any valid state, is a path of the step system. */
    method Handle(reg: Registry, ev: Event) returns (ghost run: seq<State>)
      requires Valid() && (ev.Set? || ev.Delete? ==> Sendable(ChangeOf(ev))) && Harmless(reg, state.wire)
      modifies this, leader, node.db, node.db.shards, node.db.Lists(), db, db.shards, db.Lists()
      ensures Valid() && IsPath(reg, run, old(state), state)
    {
      match ev {
        case Set(_, _, _, _) => run := HandleSet(reg, ev);
        case Delete(_) => run := HandleDelete(reg, ev);
        case Deliver(logged) => run := HandleDeliver(reg, logged);
        case SweepLeader(after) => run := HandleSweepLeader(reg, after);
        case SweepFollower(after) => run := HandleSweepFollower(reg, after);
      }
    }
  }

  /** A write that reaches an idle connection is the next thing the follower takes. */
  lemma SentThenReceived(reg: Registry, s: State, c: Change)
    requires s.wire == [] && Sendable(c)
    ensures var sent := Replicated(s, c);
            && Take(sent.wire, 0).Body? && Harmless(reg, sent.wire)
            && Received(reg, sent, true).follower == Changed(s.follower, c)
  {
    var sent := Replicated(s, c);
    var frame := SyncFrame(SyncFor(Increment(s.index), c));
    ArrivesIffSendable(reg, Increment(s.index), c, [], s.follower);
    assert s.wire + frame == frame == frame + [];
  }

  /** A follower that has caught up serves the leader's next write for as long as
      the leader was asked to keep it, and no longer. */
  method SetThenFollowerGet(link: Link, reg: Registry, ev: Event, at: int) returns (g: GetResult)
    requires link.Valid() && link.state.wire == [] && ev.Set? && Sendable(link.ChangeOf(ev))
    modifies link, link.leader, link.node.db, link.node.db.shards, link.node.db.Lists()
    modifies link.db, link.db.shards, link.db.Lists()
    ensures g == if at - ev.now <= (if ev.ttl <= 0 then link.node.defaultTTL else ev.ttl) then Found(ev.value) else NotFound
  {
    link.node.LifeOf(ev.ttl, ev.now);
    SentThenReceived(reg, link.state, link.ChangeOf(ev));
    ghost var run := link.HandleSet(reg, ev);
    run := link.HandleDeliver(reg, true);
    assert link.db.shards[link.db.Slot(ev.key)].lru in link.db.Lists();
    g := link.db.Get(ev.key, at);
  }

  lemma SweptPath(reg: Registry, s: State, step: Step, s': State) returns (run: seq<State>)
    requires Steps(reg, s, step, s')
    ensures IsPath(reg, run, s, s')
  {
    run := [s, s'];
    assert StepAt(reg, run, 0);
  }

  /** Paths join up to runs. */
  lemma PathExtends(reg: Registry, run: seq<State>, s: State, path: seq<State>, s': State)
    requires IsRun(reg, run) && run[|run| - 1] == s && IsPath(reg, path, s, s')
    ensures IsRun(reg, run + path[1..]) && (run + path[1..])[|run + path[1..]| - 1] == s'
  {
    var all := run + path[1..];
    forall i | 0 <= i < |all| - 1
      ensures StepAt(reg, all, i)
    {
      if i < |run| - 1 {
        assert StepAt(reg, run, i);
      } else {
        assert StepAt(reg, path, i - |run| + 1);
      }
    }
  }

  /** Every sequence of events since a follower joined is a run, and what the
      objects hold at its end is its last state. */
  method Serve(link: Link, reg: Registry, events: seq<Event>) returns (ghost run: seq<State>)
    requires link.Valid() && Joins(link.state)
    requires forall i :: 0 <= i < |events| && (events[i].Set? || events[i].Delete?) ==> Sendable(link.ChangeOf(events[i]))
    modifies link, link.leader, link.node.db, link.node.db.shards, link.node.db.Lists()
    modifies link.db, link.db.shards, link.db.Lists()
    ensures link.Valid() && IsRun(reg, run) && run[|run| - 1] == link.state
  {
    run := [link.state];
    for i := 0 to |events|
      invariant link.Valid() && IsRun(reg, run) && run[|run| - 1] == link.state
    {
      ghost var s := link.state;
      RunKeepsInv(reg, run, |run| - 1);
      LeadersFramesAreHarmless(reg, s);
      ghost var path := link.Handle(reg, events[i]);
      PathExtends(reg, run, s, path, link.state);
      run := run + path[1..];
    }
  }
}
