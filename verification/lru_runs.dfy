/** One LRU shard while readers run beside its writer. A writer holds the shard's
    lock from the first to the last step of an operation, but takes the policy's
    own mutex only inside each hook; AfterRead takes that mutex alone, at any
    time, however long after its read. */
module LruRuns {
  import opened Entries
  import opened Sequences
  import opened Shards

  /** Where the holder of the shard's lock stands. */
  datatype Pc =
    | Free
    | Replacing(key: Key, e: Entry)   // the old entry is out, BeforeWrite is next
    | Room(key: Key, e: Entry)        // BeforeWrite is done, the entry is stored next
    | Stored(key: Key)                // AfterWrite is next
    | Removed(key: Key)               // the entry is out, AfterDelete is next

  /** `stamp` and `time` are history: when each key was last written or successfully read. */
  datatype State = State(order: seq<Key>, data: map<Key, Entry>, pc: Pc, stamp: map<Key, nat>, time: nat)

  datatype Step =
    | BeginSet(key: Key, e: Entry)
    | BeforeWrite
    | Store
    | AfterWrite
    | BeginDelete(key: Key)           // by Delete or by the sweeper
    | AfterDelete
    | AfterRead(key: Key)

  function Push(s: State, key: Key): State {
    s.(order := [key] + s.order, stamp := s.stamp[key := s.time], time := s.time + 1)
  }

  /** The key being written is forgotten, then the loop evicts; a budget of 0 means unlimited. */
  ghost function Kept(budget: nat, s: State): seq<Key>
    requires s.pc.Replacing?
  {
    var o := Without(s.order, s.pc.key);
    if budget == 0 then o else LruDrop(o, s.data, budget - Size(s.pc.key, s.pc.e))
  }

  ghost predicate Enabled(budget: nat, s: State, step: Step) {
    match step
    case BeginSet(key, e) => s.pc == Free
    case BeforeWrite => s.pc.Replacing?
    case Store => s.pc.Room?
    case AfterWrite => s.pc.Stored?
    case BeginDelete(key) => s.pc == Free && key in s.data
    case AfterDelete => s.pc.Removed?
    case AfterRead(key) => true
  }

  ghost function Apply(budget: nat, s: State, step: Step): State
    requires Enabled(budget, s, step)
  {
    match step
    case BeginSet(key, e) => s.(data := s.data - {key}, pc := Replacing(key, e))
    case BeforeWrite =>
      var kept := Kept(budget, s);
      s.(order := kept, data := Restrict(s.data, kept), pc := Room(s.pc.key, s.pc.e))
    case Store => s.(data := s.data[s.pc.key := s.pc.e], pc := Stored(s.pc.key))
    case AfterWrite => Push(s, s.pc.key).(pc := Free)
    case BeginDelete(key) => s.(data := s.data - {key}, pc := Removed(key))
    case AfterDelete => s.(order := Without(s.order, s.pc.key), pc := Free)
    case AfterRead(key) =>
      if key in s.order then Push(s.(order := Without(s.order, key)), key) else s
  }

  /** An empty shard, or one filled by recovery, which lists its keys in any order. */
  ghost predicate Init(s: State) {
    s.pc == Free && InOrder(s) && KeySet(s.order) == s.data.Keys
  }

  ghost predicate Next(budget: nat, s: State, s': State) {
    exists step :: Enabled(budget, s, step) && s' == Apply(budget, s, step)
  }

  ghost predicate StepAt(budget: nat, run: seq<State>, i: nat)
    requires i + 1 < |run|
  {
    Next(budget, run[i], run[i + 1])
  }

  ghost predicate IsRun(budget: nat, run: seq<State>) {
    |run| > 0 && Init(run[0]) && forall i :: 0 <= i < |run| - 1 ==> StepAt(budget, run, i)
  }

  // ---------- Recency ----------

  /** Front to back, last uses go strictly back in time. */
  ghost predicate ByRecency(o: seq<Key>, stamp: map<Key, nat>, time: nat) {
    && (forall i :: 0 <= i < |o| ==> o[i] in stamp && stamp[o[i]] < time)
    && (forall i, j :: 0 <= i < j < |o| ==> o[i] in stamp && o[j] in stamp && stamp[o[i]] > stamp[o[j]])
  }

  ghost predicate InOrder(s: State) {
    ByRecency(s.order, s.stamp, s.time)
  }

  lemma ByRecencyNoDups(o: seq<Key>, stamp: map<Key, nat>, time: nat)
    requires ByRecency(o, stamp, time)
    ensures NoDups(o)
  {
  }

  lemma ByRecencyCons(k: Key, o: seq<Key>, stamp: map<Key, nat>, time: nat)
    requires ByRecency(o, stamp, time) && k in stamp && stamp[k] < time
    requires forall x :: x in o ==> x in stamp && stamp[x] < stamp[k]
    ensures ByRecency([k] + o, stamp, time)
  {
  }

  lemma ByRecencyTail(o: seq<Key>, stamp: map<Key, nat>, time: nat)
    requires ByRecency(o, stamp, time) && o != []
    ensures ByRecency(o[1..], stamp, time)
    ensures forall x :: x in o[1..] ==> x in stamp && stamp[x] < stamp[o[0]]
  {
  }

  lemma {:induction false} WithoutByRecency(o: seq<Key>, k: Key, stamp: map<Key, nat>, time: nat)
    requires ByRecency(o, stamp, time)
    ensures ByRecency(Without(o, k), stamp, time)
  {
    if o != [] {
      ByRecencyTail(o, stamp, time);
      WithoutByRecency(o[1..], k, stamp, time);
      WithoutKeys(o[1..], k);
      if o[0] != k {
        assert forall x :: x in Without(o[1..], k) ==> x in KeySet(Without(o[1..], k));
        assert forall x :: x in KeySet(o[1..]) ==> x in o[1..];
        ByRecencyCons(o[0], Without(o[1..], k), stamp, time);
      }
    }
  }

  lemma PrefixByRecency(o: seq<Key>, keep: seq<Key>, stamp: map<Key, nat>, time: nat)
    requires ByRecency(o, stamp, time) && keep <= o
    ensures ByRecency(keep, stamp, time)
  {
  }

  /** A new stamp for a key outside the list makes it the most recent. */
  lemma PushByRecency(o: seq<Key>, k: Key, stamp: map<Key, nat>, time: nat)
    requires ByRecency(o, stamp, time) && k !in o
    ensures ByRecency([k] + o, stamp[k := time], time + 1)
  {
    var stamp' := stamp[k := time];
    assert ByRecency(o, stamp', time + 1);
    assert forall x :: x in o ==> x in stamp' && stamp'[x] < time;
    ByRecencyCons(k, o, stamp', time + 1);
  }

  // ---------- Invariant ----------

  /** List and map agree, up to the key that the lock holder is working on. */
  ghost predicate KeysAgree(o: seq<Key>, data: map<Key, Entry>, pc: Pc) {
    match pc
    case Free => KeySet(o) == data.Keys
    case Replacing(key, e) => KeySet(o) - {key} == data.Keys
    case Room(key, e) => KeySet(o) == data.Keys && key !in data
    case Stored(key) => KeySet(o) + {key} == data.Keys && key !in o
    case Removed(key) => KeySet(o) - {key} == data.Keys
  }

  ghost predicate Inv(s: State) {
    InOrder(s) && KeysAgree(s.order, s.data, s.pc)
  }

  lemma KeptIsAFront(budget: nat, s: State)
    requires s.pc.Replacing?
    ensures Kept(budget, s) <= Without(s.order, s.pc.key)
  {
    LruDropKeeps(Without(s.order, s.pc.key), s.data, budget - Size(s.pc.key, s.pc.e));
  }

  lemma BeforeWriteKeepsInv(budget: nat, s: State)
    requires Inv(s) && s.pc.Replacing?
    ensures Inv(Apply(budget, s, BeforeWrite))
  {
    var key, kept := s.pc.key, Kept(budget, s);
    KeptIsAFront(budget, s);
    WithoutByRecency(s.order, key, s.stamp, s.time);
    WithoutKeys(s.order, key);
    PrefixByRecency(Without(s.order, key), kept, s.stamp, s.time);
    RestrictKeys(s.data, Without(s.order, key), kept);
  }

  lemma ReadKeepsInv(budget: nat, s: State, key: Key)
    requires Inv(s)
    ensures Inv(Apply(budget, s, AfterRead(key)))
  {
    if key in s.order {
      var rest := Without(s.order, key);
      WithoutByRecency(s.order, key, s.stamp, s.time);
      WithoutKeys(s.order, key);
      assert key in KeySet(s.order) && key !in KeySet(rest);
      PushByRecency(rest, key, s.stamp, s.time);
      ConsKeys(key, rest);
      assert KeySet([key] + rest) == KeySet(s.order);
      assert forall x :: x in [key] + rest <==> x in KeySet([key] + rest);
      assert forall x :: x in s.order <==> x in KeySet(s.order);
    }
  }

  lemma InKeySet(o: seq<Key>, k: Key)
    ensures k in o <==> k in KeySet(o)
  {
  }

  lemma WriteKeepsInv(budget: nat, s: State)
    requires Inv(s) && s.pc.Stored?
    ensures Inv(Apply(budget, s, AfterWrite))
  {
    PushByRecency(s.order, s.pc.key, s.stamp, s.time);
    ConsKeys(s.pc.key, s.order);
  }

  lemma NextKeepsInv(budget: nat, s: State, s': State)
    requires Inv(s) && Next(budget, s, s')
    ensures Inv(s')
  {
    var step :| Enabled(budget, s, step) && s' == Apply(budget, s, step);
    match step
    case BeforeWrite => BeforeWriteKeepsInv(budget, s);
    case AfterRead(key) => ReadKeepsInv(budget, s, key);
    case Store => InKeySet(s.order, s.pc.key);
    case AfterWrite => WriteKeepsInv(budget, s);
    case AfterDelete =>
      WithoutByRecency(s.order, s.pc.key, s.stamp, s.time);
      WithoutKeys(s.order, s.pc.key);
    case _ =>
  }

  lemma {:induction false} RunKeepsInv(budget: nat, run: seq<State>, i: nat)
    requires IsRun(budget, run) && i < |run|
    ensures Inv(run[i])
  {
    if i > 0 {
      RunKeepsInv(budget, run, i - 1);
      assert StepAt(budget, run, i - 1);
      NextKeepsInv(budget, run[i - 1], run[i]);
    }
  }

  // ---------- Theorems over whole runs ----------

  /** Whenever the shard's lock is free, the list has no duplicates, names
      exactly the stored keys, and is sorted by last write or successful read. */
  lemma ListAgreesWithShard(budget: nat, run: seq<State>, i: nat)
    requires IsRun(budget, run) && i < |run| && run[i].pc == Free
    ensures NoDups(run[i].order) && KeySet(run[i].order) == run[i].data.Keys && InOrder(run[i])
  {
    RunKeepsInv(budget, run, i);
    ByRecencyNoDups(run[i].order, run[i].stamp, run[i].time);
  }

  /** Exact LRU: whatever the eviction loop takes out was last used before everything it keeps. */
  lemma VictimsAreLeastRecent(budget: nat, run: seq<State>, i: nat, victim: Key, survivor: Key)
    requires IsRun(budget, run) && i < |run| && run[i].pc.Replacing?
    requires victim in run[i].data && victim !in Kept(budget, run[i]) && survivor in Kept(budget, run[i])
    ensures victim in run[i].stamp && survivor in run[i].stamp && run[i].stamp[victim] < run[i].stamp[survivor]
  {
    var s, kept := run[i], Kept(budget, run[i]);
    var o := Without(s.order, s.pc.key);
    RunKeepsInv(budget, run, i);
    KeptIsAFront(budget, s);
    WithoutByRecency(s.order, s.pc.key, s.stamp, s.time);
    WithoutKeys(s.order, s.pc.key);
    assert victim in KeySet(o);
    var a :| 0 <= a < |kept| && kept[a] == survivor;
    var b :| 0 <= b < |o| && o[b] == victim;
    assert forall j :: 0 <= j < |kept| ==> kept[j] in kept && kept[j] == o[j];
  }

  /** And no fewer would do: the shard then has room for the write or is empty, and
      with any more of the most recent entries kept it would not have room. */
  lemma NoFewerVictims(budget: nat, run: seq<State>, i: nat)
    requires IsRun(budget, run) && i < |run| && run[i].pc.Replacing? && budget > 0
    ensures var s := run[i]; var needed := Size(s.pc.key, s.pc.e); var after := Apply(budget, s, BeforeWrite);
            && (Total(after.data) + needed <= budget || after.data == map[])
            && forall n :: |after.order| < n <= |Without(s.order, s.pc.key)| ==>
                 Total(Restrict(s.data, Without(s.order, s.pc.key)[..n])) + needed > budget
  {
    var s := run[i];
    var o, room := Without(s.order, s.pc.key), budget - Size(s.pc.key, s.pc.e);
    LruDropKeeps(o, s.data, room);
    forall n | |Kept(budget, s)| < n <= |o|
      ensures Total(Restrict(s.data, o[..n])) > room
    {
      assert TooBig(o, s.data, room, n);
    }
  }

  // ---------- A read protects ----------

  /** `a` was used after `b`, or `b` is gone; and nobody is in the middle of writing `b` or deleting `a`. */
  ghost predicate Ahead(s: State, a: Key, b: Key) {
    && (b in s.order ==>
          || (a in s.order && a in s.stamp && b in s.stamp && s.stamp[a] > s.stamp[b])
          || (s.pc.Room? && s.pc.key == a) || (s.pc.Stored? && s.pc.key == a))
    && (s.pc.Replacing? || s.pc.Room? || s.pc.Stored? ==> s.pc.key != b)
    && (s.pc.Removed? ==> s.pc.key != a)
  }

  /** Neither uses `b` nor deletes `a`. */
  predicate Spares(step: Step, a: Key, b: Key) {
    && step != AfterRead(b) && step != BeginDelete(a)
    && (step.BeginSet? ==> step.key != b)
  }

  lemma KeptKeepsAhead(budget: nat, s: State, a: Key, b: Key)
    requires Inv(s) && s.pc.Replacing? && s.pc.key != b && s.pc.key != a && a != b
    requires a in s.order && a in s.stamp && b in s.stamp && s.stamp[a] > s.stamp[b]
    ensures b in Kept(budget, s) ==> a in Kept(budget, s)
  {
    var o, kept := Without(s.order, s.pc.key), Kept(budget, s);
    KeptIsAFront(budget, s);
    WithoutByRecency(s.order, s.pc.key, s.stamp, s.time);
    WithoutKeys(s.order, s.pc.key);
    assert a in KeySet(s.order) && a in KeySet(o);
    if b in kept {
      var i :| 0 <= i < |o| && o[i] == a;
      var j :| 0 <= j < |kept| && kept[j] == b;
      assert o[j] == kept[j];
      assert i < j;
      assert kept[i] == o[i];
    }
  }

  lemma BeforeWriteKeepsAhead(budget: nat, s: State, a: Key, b: Key)
    requires Inv(s) && a != b && Ahead(s, a, b) && s.pc.Replacing?
    ensures Ahead(Apply(budget, s, BeforeWrite), a, b)
  {
    KeptIsAFront(budget, s);
    WithoutKeys(s.order, s.pc.key);
    if b in Kept(budget, s) {
      assert b in KeySet(Without(s.order, s.pc.key));
      if s.pc.key != a {
        KeptKeepsAhead(budget, s, a, b);
      }
    }
  }

  lemma ReadKeepsAhead(budget: nat, s: State, key: Key, a: Key, b: Key)
    requires Inv(s) && a != b && Ahead(s, a, b) && key != b
    ensures Ahead(Apply(budget, s, AfterRead(key)), a, b)
  {
    if key in s.order {
      var rest := Without(s.order, key);
      WithoutKeys(s.order, key);
      assert forall x :: x in [key] + rest <==> x == key || x in KeySet(rest);
      assert forall x :: x in s.order <==> x in KeySet(s.order);
    }
  }

  lemma StepKeepsAhead(budget: nat, s: State, step: Step, a: Key, b: Key)
    requires Inv(s) && a != b && Ahead(s, a, b) && Enabled(budget, s, step) && Spares(step, a, b)
    ensures Ahead(Apply(budget, s, step), a, b)
  {
    match step
    case BeforeWrite => BeforeWriteKeepsAhead(budget, s, a, b);
    case AfterRead(key) => ReadKeepsAhead(budget, s, key, a, b);
    case AfterDelete =>
      WithoutKeys(s.order, s.pc.key);
      assert forall x :: x in s.order <==> x in KeySet(s.order);
      assert forall x :: x in Without(s.order, s.pc.key) <==> x in KeySet(Without(s.order, s.pc.key));
    case AfterWrite =>
      assert forall x :: x in [s.pc.key] + s.order <==> x == s.pc.key || x in s.order;
    case _ =>
  }

  ghost predicate SparesAt(budget: nat, run: seq<State>, i: nat, a: Key, b: Key)
    requires i + 1 < |run|
  {
    exists step :: Enabled(budget, run[i], step) && Spares(step, a, b) && run[i + 1] == Apply(budget, run[i], step)
  }

  /** The read of a listed key puts it ahead of every other, unless that one is just being written. */
  lemma ReadGetsAhead(budget: nat, s: State, a: Key, b: Key)
    requires Inv(s) && a in s.order && a != b
    requires s.pc.Replacing? || s.pc.Room? || s.pc.Stored? ==> s.pc.key != b
    requires s.pc.Removed? ==> s.pc.key != a
    ensures Ahead(Apply(budget, s, AfterRead(a)), a, b)
  {
    ReadKeepsInv(budget, s, a);
    var rest := Without(s.order, a);
    WithoutByRecency(s.order, a, s.stamp, s.time);
    assert forall x :: x in [a] + rest <==> x == a || x in rest;
  }

  /** Of two entries the one read since both were written is not evicted before the
      other: from a read of `a` on, as long as `b` is not used and `a` not deleted,
      `b` is in the shard only while `a` is. */
  lemma {:induction false} ReadOutlives(budget: nat, run: seq<State>, i: nat, j: nat, a: Key, b: Key)
    requires IsRun(budget, run) && i < j < |run| && a != b && a in run[i].order
    requires run[i].pc == Free && run[i + 1] == Apply(budget, run[i], AfterRead(a))
    requires forall t :: i < t < j ==> SparesAt(budget, run, t, a, b)
    ensures Ahead(run[j], a, b)
    ensures run[j].pc == Free && b in run[j].data ==> a in run[j].data
  {
    RunKeepsInv(budget, run, j);
    if j == i + 1 {
      RunKeepsInv(budget, run, i);
      ReadGetsAhead(budget, run[i], a, b);
    } else {
      ReadOutlives(budget, run, i, j - 1, a, b);
      RunKeepsInv(budget, run, j - 1);
      assert SparesAt(budget, run, j - 1, a, b);
      var step :| Enabled(budget, run[j - 1], step) && Spares(step, a, b) && run[j] == Apply(budget, run[j - 1], step);
      StepKeepsAhead(budget, run[j - 1], step, a, b);
    }
    InKeySet(run[j].order, a);
    InKeySet(run[j].order, b);
  }
}
