/** The LRU shard at work: each locked region and each hook of the class is a step
    of module LruRuns, and whatever is asked of a shard in whatever order is a run. */
module LruSessions {
  import opened Entries
  import opened Sequences
  import opened Lru
  import opened Shards
  import opened LruRuns

  /** The objects stand for `s`. */
  ghost predicate Shows(shard: Shard, s: State)
    reads shard, shard.lru
  {
    && shard.policy == Strict && shard.lru.Valid() && shard.bytes == Total(shard.data)
    && shard.lru.keys == s.order && shard.data == s.data
  }

  // ---------- Hook by hook ----------

  /** What the policy may do for room is what the step does. */
  lemma RoomIsKept(budget: nat, s: State, ok: bool, o': seq<Key>, m': map<Key, Entry>)
    requires s.pc.Replacing? && RoomMade(Strict, budget, s.order, s.data, s.pc.key, Size(s.pc.key, s.pc.e), ok, o', m')
    ensures o' == Kept(budget, s) && m' == Restrict(s.data, o')
  {
    LruRoomIsTheLoop(Without(s.order, s.pc.key), s.data, Size(s.pc.key, s.pc.e), budget, o');
  }

  method HandleBeforeWrite(shard: Shard, key: Key, e: Entry, ghost s: State)
    requires Shows(shard, s) && s.pc == Replacing(key, e) && KeysAgree(s.order, s.data, s.pc)
    modifies shard`data, shard`bytes, shard.lru
    ensures Shows(shard, Apply(shard.budget, s, BeforeWrite))
  {
    var ok := shard.MakeRoom(key, |key.chars| + |e.value|);
    RoomIsKept(shard.budget, s, ok, shard.lru.keys, shard.data);
  }

  method HandleStore(shard: Shard, key: Key, e: Entry, ghost s: State)
    requires Shows(shard, s) && Inv(s) && s.pc == Room(key, e)
    modifies shard`data, shard`bytes
    ensures Shows(shard, Apply(shard.budget, s, Store))
  {
    shard.Store(key, e);
  }

  method HandleAfterWrite(shard: Shard, key: Key, ghost s: State)
    requires Shows(shard, s) && Inv(s) && s.pc == Stored(key)
    modifies shard.lru
    ensures Shows(shard, Apply(shard.budget, s, AfterWrite))
  {
    shard.lru.AfterWrite(key);
  }

  method HandleAfterDelete(shard: Shard, key: Key, ghost s: State)
    requires Shows(shard, s) && s.pc == Removed(key)
    modifies shard.lru
    ensures Shows(shard, Apply(shard.budget, s, AfterDelete))
  {
    shard.lru.Forget(key);
  }

  method HandleAfterRead(shard: Shard, key: Key, ghost s: State)
    requires Shows(shard, s)
    modifies shard.lru
    ensures Shows(shard, Apply(shard.budget, s, AfterRead(key)))
  {
    shard.lru.AfterRead(key);
  }

  /** The writer holds the shard's lock between its steps; `pc` is where it stands.
      A reader's AfterRead may come at any of these points. */
  method Handle(shard: Shard, pc: Pc, step: Step, ghost s: State) returns (pc': Pc)
    requires Shows(shard, s) && Inv(s) && pc == s.pc && Enabled(shard.budget, s, step)
    modifies shard`data, shard`bytes, shard.lru
    ensures Shows(shard, Apply(shard.budget, s, step)) && pc' == Apply(shard.budget, s, step).pc
  {
    match step {
      case BeginSet(key, e) =>
        var previous := shard.TakeOut(key);
        pc' := Replacing(key, e);
      case BeforeWrite =>
        HandleBeforeWrite(shard, pc.key, pc.e, s);
        pc' := Room(pc.key, pc.e);
      case Store =>
        HandleStore(shard, pc.key, pc.e, s);
        pc' := Stored(pc.key);
      case AfterWrite =>
        HandleAfterWrite(shard, pc.key, s);
        pc' := Free;
      case BeginDelete(key) =>
        var previous := shard.TakeOut(key);
        pc' := Removed(key);
      case AfterDelete =>
        HandleAfterDelete(shard, pc.key, s);
        pc' := Free;
      case AfterRead(key) =>
        HandleAfterRead(shard, key, s);
        pc' := pc;
    }
  }

  // ---------- Whole operations ----------

  /** `steps`, taken one after the other from `s`, lead to `s'`. */
  ghost predicate Reaches(budget: nat, s: State, steps: seq<Step>, s': State)
    decreases |steps|
  {
    if steps == [] then s' == s
    else Enabled(budget, s, steps[0]) && Reaches(budget, Apply(budget, s, steps[0]), steps[1..], s')
  }

  lemma {:induction false} ReachesMore(budget: nat, s: State, steps: seq<Step>, s1: State, step: Step)
    requires Reaches(budget, s, steps, s1) && Enabled(budget, s1, step)
    ensures Reaches(budget, s, steps + [step], Apply(budget, s1, step))
    decreases |steps|
  {
    var all := steps + [step];
    if steps != [] {
      ReachesMore(budget, Apply(budget, s, steps[0]), steps[1..], s1, step);
      assert all[0] == steps[0] && all[1..] == steps[1..] + [step];
    } else {
      assert all[1..] == [];
    }
  }

  lemma {:induction false} ReachesKeepsInv(budget: nat, s: State, steps: seq<Step>, s': State)
    requires Reaches(budget, s, steps, s') && Inv(s)
    ensures Inv(s')
    decreases |steps|
  {
    if steps != [] {
      NextKeepsInv(budget, s, Apply(budget, s, steps[0]));
      ReachesKeepsInv(budget, Apply(budget, s, steps[0]), steps[1..], s');
    }
  }

  datatype Op = Put(key: Key, e: Entry) | Drop(key: Key) | Touch(key: Key) | SweepAt(now: int)

  /** The steps that an operation may take; what Put and Touch name is theirs alone. */
  predicate Belongs(step: Step, op: Op) {
    match step
    case BeginSet(key, e) => op == Put(key, e)
    case BeginDelete(key) => op == Drop(key) || op.SweepAt?
    case AfterRead(key) => op == Touch(key)
    case AfterDelete => op.Drop? || op.SweepAt?
    case _ => op.Put?
  }

  /** From lock free to lock free. */
  ghost predicate Performs(budget: nat, op: Op, s: State, steps: seq<Step>, s': State) {
    && s.pc == Free && s'.pc == Free && Reaches(budget, s, steps, s')
    && forall step :: step in steps ==> Belongs(step, op)
  }

  lemma ReachesByFour(budget: nat, s: State, a: Step, b: Step, c: Step, d: Step, s1: State, s2: State, s3: State, s4: State)
    requires Enabled(budget, s, a) && s1 == Apply(budget, s, a)
    requires Enabled(budget, s1, b) && s2 == Apply(budget, s1, b)
    requires Enabled(budget, s2, c) && s3 == Apply(budget, s2, c)
    requires Enabled(budget, s3, d) && s4 == Apply(budget, s3, d)
    ensures Reaches(budget, s, [a, b, c, d], s4)
  {
    assert Reaches(budget, s, [], s);
    ReachesMore(budget, s, [], s, a);
    ReachesMore(budget, s, [] + [a], s1, b);
    ReachesMore(budget, s, [] + [a] + [b], s2, c);
    ReachesMore(budget, s, [] + [a] + [b] + [c], s3, d);
    assert [] + [a] + [b] + [c] + [d] == [a, b, c, d];
  }

  /** A set is the four steps of a writer. */
  lemma SetIsFourSteps(budget: nat, s: State, key: Key, e: Entry, ok: bool, o': seq<Key>, m': map<Key, Entry>)
    returns (steps: seq<Step>, s': State)
    requires s.pc == Free && SetDone(Strict, budget, s.order, s.data, key, e, ok, o', m')
    ensures Performs(budget, Put(key, e), s, steps, s') && s'.order == o' && s'.data == m'
  {
    var begun := Apply(budget, s, BeginSet(key, e));
    RoomIsKept(budget, begun, true, o'[1..], m' - {key});
    var room := Apply(budget, begun, BeforeWrite);
    var stored := Apply(budget, room, Store);
    assert stored.data == m';
    s' := Apply(budget, stored, AfterWrite);
    assert o' == [key] + o'[1..];
    steps := [BeginSet(key, e), BeforeWrite, Store, AfterWrite];
    ReachesByFour(budget, s, BeginSet(key, e), BeforeWrite, Store, AfterWrite, begun, room, stored, s');
  }

  /** Deletes by Delete or by the sweeper, one key after the other. */
  lemma {:induction false} DeletesAreSteps(budget: nat, s: State, gone: set<Key>, op: Op)
    returns (steps: seq<Step>, s': State)
    requires s.pc == Free && KeySet(s.order) == s.data.Keys && gone <= s.data.Keys
    requires op.SweepAt? || (op.Drop? && gone <= {op.key})
    ensures Performs(budget, op, s, steps, s')
    ensures s'.order == Keep(s.order, s.data.Keys - gone) && s'.data == s.data - gone
    decreases |gone|
  {
    if gone == {} {
      steps, s' := [], s;
      assert forall k :: k in s.order ==> k in KeySet(s.order);
      KeepAll(s.order, s.data.Keys);
      assert s.data.Keys - {} == s.data.Keys;
    } else {
      var k :| k in gone;
      var first, s1 := DeletesAreSteps(budget, s, gone - {k}, op);
      KeepWithout(s.order, s.data.Keys - (gone - {k}), k);
      assert s.data.Keys - (gone - {k}) - {k} == s.data.Keys - gone;
      assert s.data - (gone - {k}) - {k} == s.data - gone;
      var s2 := Apply(budget, s1, BeginDelete(k));
      s' := Apply(budget, s2, AfterDelete);
      ReachesMore(budget, s, first, s1, BeginDelete(k));
      ReachesMore(budget, s, first + [BeginDelete(k)], s2, AfterDelete);
      steps := first + [BeginDelete(k)] + [AfterDelete];
    }
  }

  lemma KeepOfWithout(o: seq<Key>, m: map<Key, Entry>, k: Key)
    requires KeySet(o) == m.Keys
    ensures Keep(o, m.Keys - {k}) == Without(o, k)
  {
    assert forall x :: x in o ==> x in KeySet(o);
    KeepAll(o, m.Keys);
    KeepWithout(o, m.Keys, k);
  }

  method PerformPut(shard: Shard, key: Key, e: Entry, ghost s: State) returns (ghost steps: seq<Step>, ghost s': State)
    requires Shows(shard, s) && Inv(s) && s.pc == Free
    modifies shard`data, shard`bytes, shard.lru
    ensures Performs(shard.budget, Put(key, e), s, steps, s') && Shows(shard, s')
  {
    var ok := shard.Set(key, e);
    steps, s' := SetIsFourSteps(shard.budget, s, key, e, ok, shard.lru.keys, shard.data);
  }

  lemma DropIsSteps(budget: nat, s: State, key: Key) returns (steps: seq<Step>, s': State)
    requires Inv(s) && s.pc == Free
    ensures Performs(budget, Drop(key), s, steps, s') && s'.data == s.data - {key}
    ensures s'.order == if key in s.data then Without(s.order, key) else s.order
  {
    if key in s.data {
      KeepOfWithout(s.order, s.data, key);
      steps, s' := DeletesAreSteps(budget, s, {key}, Drop(key));
    } else {
      steps, s' := [], s;
      assert s.data - {key} == s.data;
    }
  }

  method PerformDrop(shard: Shard, key: Key, ghost s: State) returns (ghost steps: seq<Step>, ghost s': State)
    requires Shows(shard, s) && Inv(s) && s.pc == Free
    modifies shard`data, shard`bytes, shard.lru
    ensures Performs(shard.budget, Drop(key), s, steps, s') && Shows(shard, s')
  {
    var found := shard.Delete(key);
    steps, s' := DropIsSteps(shard.budget, s, key);
  }

  method PerformTouch(shard: Shard, key: Key, ghost s: State) returns (ghost steps: seq<Step>, ghost s': State)
    requires Shows(shard, s) && s.pc == Free
    modifies shard.lru
    ensures Performs(shard.budget, Touch(key), s, steps, s') && Shows(shard, s')
    ensures s' == Apply(shard.budget, s, AfterRead(key))
  {
    shard.lru.AfterRead(key);
    s' := Apply(shard.budget, s, AfterRead(key));
    steps := [] + [AfterRead(key)];
    ReachesMore(shard.budget, s, [], s, AfterRead(key));
  }

  lemma SweepIsSteps(budget: nat, s: State, now: int) returns (steps: seq<Step>, s': State)
    requires Inv(s) && s.pc == Free
    ensures Performs(budget, SweepAt(now), s, steps, s') && s'.data == Unexpired(s.data, now)
    ensures s'.order == Keep(s.order, Unexpired(s.data, now).Keys)
  {
    var left := Unexpired(s.data, now);
    var gone := s.data.Keys - left.Keys;
    steps, s' := DeletesAreSteps(budget, s, gone, SweepAt(now));
    assert s.data.Keys - gone == left.Keys;
    assert s.data - gone == left;
  }

  method PerformSweep(shard: Shard, now: int, ghost s: State) returns (ghost steps: seq<Step>, ghost s': State)
    requires Shows(shard, s) && Inv(s) && s.pc == Free
    modifies shard`data, shard`bytes, shard.lru
    ensures Performs(shard.budget, SweepAt(now), s, steps, s') && Shows(shard, s')
  {
    shard.Sweep(now);
    steps, s' := SweepIsSteps(shard.budget, s, now);
  }

  /** Any operation on the shard is a sequence of its own steps. */
  method Perform(shard: Shard, op: Op, ghost s: State) returns (ghost steps: seq<Step>, ghost s': State)
    requires Shows(shard, s) && Inv(s) && s.pc == Free
    modifies shard`data, shard`bytes, shard.lru
    ensures Performs(shard.budget, op, s, steps, s') && Shows(shard, s') && Inv(s')
  {
    match op {
      case Put(key, e) => steps, s' := PerformPut(shard, key, e, s);
      case Drop(key) => steps, s' := PerformDrop(shard, key, s);
      case Touch(key) => steps, s' := PerformTouch(shard, key, s);
      case SweepAt(now) => steps, s' := PerformSweep(shard, now, s);
    }
    ReachesKeepsInv(shard.budget, s, steps, s');
  }

  // ---------- Whole lives ----------

  /** Some last uses that a list without duplicates may stand for. */
  lemma {:induction false} Stamps(o: seq<Key>) returns (stamp: map<Key, nat>)
    requires NoDups(o)
    ensures ByRecency(o, stamp, |o|)
  {
    if o == [] {
      stamp := map[];
    } else {
      var rest := Stamps(o[1..]);
      PushByRecency(o[1..], o[0], rest, |o| - 1);
      stamp := rest[o[0] := |o| - 1];
      assert o == [o[0]] + o[1..];
    }
  }

  lemma StartsRun(shard: Shard) returns (s: State)
    requires shard.Valid() && shard.policy == Strict
    ensures Shows(shard, s) && Init(s) && Inv(s)
  {
    shard.lru.KeysAreDistinct();
    var stamp := Stamps(shard.lru.keys);
    s := State(shard.lru.keys, shard.data, Free, stamp, |shard.lru.keys|);
  }

  lemma {:induction false} ReachesExtendsRun(budget: nat, run: seq<State>, steps: seq<Step>, s': State) returns (run': seq<State>)
    requires IsRun(budget, run) && Reaches(budget, run[|run| - 1], steps, s')
    ensures IsRun(budget, run') && run <= run' && run'[|run'| - 1] == s'
    decreases |steps|
  {
    run' := run;
    if steps != [] {
      var s := run[|run| - 1];
      var longer := run + [Apply(budget, s, steps[0])];
      forall i | 0 <= i < |longer| - 1
        ensures StepAt(budget, longer, i)
      {
        if i < |run| - 1 {
          assert StepAt(budget, run, i);
        } else {
          assert Next(budget, s, longer[i + 1]);
        }
      }
      run' := ReachesExtendsRun(budget, longer, steps[1..], s');
    }
  }

  /** Every sequence of operations on a shard is a run, and the shard holds its last state. */
  method Serve(shard: Shard, ops: seq<Op>) returns (ghost run: seq<State>)
    requires shard.Valid() && shard.policy == Strict
    modifies shard`data, shard`bytes, shard.lru
    ensures IsRun(shard.budget, run) && Shows(shard, run[|run| - 1]) && run[|run| - 1].pc == Free
  {
    ghost var s := StartsRun(shard);
    run := [s];
    for i := 0 to |ops|
      invariant IsRun(shard.budget, run) && run[|run| - 1] == s
      invariant Shows(shard, s) && Inv(s) && s.pc == Free
    {
      ghost var steps, s' := Perform(shard, ops[i], s);
      run := ReachesExtendsRun(shard.budget, run, steps, s');
      s := s';
    }
  }

  /** Neither writes nor reads `b`, nor deletes `a`. */
  predicate OpSpares(op: Op, a: Key, b: Key) {
    match op
    case Put(key, e) => key != b
    case Drop(key) => key != a
    case Touch(key) => key != b
    case SweepAt(now) => false
  }

  lemma {:induction false} ReachesKeepsAhead(budget: nat, s: State, steps: seq<Step>, s': State, op: Op, a: Key, b: Key)
    requires Inv(s) && a != b && Ahead(s, a, b) && Reaches(budget, s, steps, s')
    requires OpSpares(op, a, b) && forall step :: step in steps ==> Belongs(step, op)
    ensures Ahead(s', a, b)
    decreases |steps|
  {
    if steps != [] {
      var s1 := Apply(budget, s, steps[0]);
      assert Belongs(steps[0], op);
      StepKeepsAhead(budget, s, steps[0], a, b);
      NextKeepsInv(budget, s, s1);
      assert forall step :: step in steps[1..] ==> step in steps;
      ReachesKeepsAhead(budget, s1, steps[1..], s', op, a, b);
    }
  }

  lemma AheadWhenFree(s: State, a: Key, b: Key)
    requires Inv(s) && s.pc == Free && Ahead(s, a, b)
    ensures b in s.data ==> a in s.data
  {
    InKeySet(s.order, a);
    InKeySet(s.order, b);
  }

  /** Once `a` has been read, and however many writes, reads and deletes of other
      keys follow, eviction takes `b` before it takes `a`. */
  method ReadThenServe(shard: Shard, a: Key, b: Key, ops: seq<Op>)
    requires shard.Valid() && shard.policy == Strict && a in shard.data && a != b
    requires forall i :: 0 <= i < |ops| ==> OpSpares(ops[i], a, b)
    modifies shard`data, shard`bytes, shard.lru
    ensures b in shard.data ==> a in shard.data
  {
    ghost var s := StartsRun(shard);
    InKeySet(s.order, a);
    ReadGetsAhead(shard.budget, s, a, b);
    ReadKeepsInv(shard.budget, s, a);
    ghost var steps, s';
    steps, s' := PerformTouch(shard, a, s);
    s := s';
    for i := 0 to |ops|
      invariant Shows(shard, s) && Inv(s) && s.pc == Free && Ahead(s, a, b)
    {
      steps, s' := Perform(shard, ops[i], s);
      ReachesKeepsAhead(shard.budget, s, steps, s', ops[i], a, b);
      s := s';
    }
    AheadWhenFree(s, a, b);
  }
}
