/** What sampling eviction spares (storage/eviction/sampling_evict_policy.go). */
module Sampled {
  import opened Entries
  import opened Sequences
  import opened Shards

  /** Of two or more entries the victim is never the one that outlives all others,
      and of five or fewer it is one that expires first. */
  lemma VictimChoice(m: map<Key, Entry>, victim: Key, sample: set<Key>, k: Key)
    requires SoonestIn(m, victim, sample) && k in m && k != victim
    ensures |m| <= 5 ==> m[victim].expiredAt <= m[k].expiredAt
    ensures exists other :: other in m && other != victim && m[victim].expiredAt <= m[other].expiredAt
  {
    if |m| <= 5 {
      SubsetOfSameSize(sample, m.Keys);
    } else {
      var two := sample - {victim};
      assert |two| == 4;
      var other :| other in two;
    }
  }

  lemma SubsetOfSameSize<T>(a: set<T>, b: set<T>)
    requires a <= b && |a| == |b|
    ensures a == b
  {
    if x :| x in b && x !in a {
      assert a <= b - {x};
      SubsetCount(a, b - {x});
    }
  }

  lemma EvictionTakesOne(m: map<Key, Entry>, m': map<Key, Entry>)
    requires SoonestOut(m, m')
    ensures Submap(m', m) && |m'| == |m| - 1
  {
    var victim, sample :| SoonestIn(m, victim, sample) && m' == m - {victim};
    RemoveShrinks(m, victim);
  }

  lemma {:induction false} TraceShrinks(
    trace: seq<map<Key, Entry>>, m: map<Key, Entry>, m': map<Key, Entry>, needed: nat, budget: nat, n: nat)
    requires SampledDown(trace, m, m', needed, budget) && n < |trace|
    ensures Submap(trace[n], m) && |trace[n]| <= |m|
  {
    if n > 0 {
      assert EvictsAt(trace, needed, budget, n - 1);
      EvictionTakesOne(trace[n - 1], trace[n]);
      TraceShrinks(trace, m, m', needed, budget, n - 1);
    }
  }

  /** While some entry is left, the entry that expires last of all is. */
  lemma {:induction false} LatestStays(
    trace: seq<map<Key, Entry>>, m: map<Key, Entry>, m': map<Key, Entry>, needed: nat, budget: nat, n: nat, k: Key)
    requires SampledDown(trace, m, m', needed, budget) && n < |trace|
    requires k in m && forall x :: x in m && x != k ==> m[x].expiredAt < m[k].expiredAt
    ensures trace[n] == map[] || k in trace[n]
  {
    if n > 0 {
      LatestStays(trace, m, m', needed, budget, n - 1, k);
      TraceShrinks(trace, m, m', needed, budget, n - 1);
      assert EvictsAt(trace, needed, budget, n - 1);
      var before := trace[n - 1];
      var victim, sample :| SoonestIn(before, victim, sample) && trace[n] == before - {victim};
      if k == victim && trace[n] != map[] {
        var x :| x in trace[n];
        VictimChoice(before, victim, sample, x);
      }
    }
  }

  /** Of at most five entries, those that go expire no later than those that stay. */
  lemma {:induction false} FewGoInOrder(
    trace: seq<map<Key, Entry>>, m: map<Key, Entry>, m': map<Key, Entry>, needed: nat, budget: nat, n: nat, gone: Key, kept: Key)
    requires SampledDown(trace, m, m', needed, budget) && n < |trace| && |m| <= 5
    requires gone in m && gone !in trace[n] && kept in trace[n]
    ensures kept in m && m[gone].expiredAt <= m[kept].expiredAt
    decreases n
  {
    TraceShrinks(trace, m, m', needed, budget, n);
    if n > 0 {
      TraceShrinks(trace, m, m', needed, budget, n - 1);
      assert EvictsAt(trace, needed, budget, n - 1);
      var before := trace[n - 1];
      var victim, sample :| SoonestIn(before, victim, sample) && trace[n] == before - {victim};
      if gone in before {
        VictimChoice(before, victim, sample, kept);
      } else {
        FewGoInOrder(trace, m, m', needed, budget, n - 1, gone, kept);
      }
    }
  }

  lemma SetSamples(
    budget: nat, o: seq<Key>, m: map<Key, Entry>, key: Key, e: Entry, ok: bool, o': seq<Key>, m': map<Key, Entry>)
    returns (trace: seq<map<Key, Entry>>)
    requires SetDone(Sampling, budget, o, m, key, e, ok, o', m') && budget > 0
    ensures SampledDown(trace, m - {key}, m' - {key}, Size(key, e), budget)
  {
    trace :| SampledDown(trace, m - {key}, m' - {key}, Size(key, e), budget);
  }

  /** Expires later than every other entry. */
  ghost predicate Latest(m: map<Key, Entry>, k: Key) {
    k in m && forall x :: x in m && x != k ==> m[x].expiredAt < m[k].expiredAt
  }

  /** Whatever a set under sampling evicts, the old entry that expires last stays
      as long as any old entry does. */
  lemma LatestOutlivesASet(
    budget: nat, o: seq<Key>, m: map<Key, Entry>, key: Key, e: Entry, ok: bool, o': seq<Key>, m': map<Key, Entry>, k: Key)
    requires SetDone(Sampling, budget, o, m, key, e, ok, o', m') && Latest(m - {key}, k)
    ensures k in m' || m'.Keys == {key}
  {
    if budget == 0 {
      assert k in m' - {key};
    } else {
      var trace := SetSamples(budget, o, m, key, e, ok, o', m');
      LatestStays(trace, m - {key}, m' - {key}, Size(key, e), budget, |trace| - 1, k);
      assert m'.Keys == (m' - {key}).Keys + {key};
    }
  }

  /** And if there are at most five old entries, those that go expire no later than those that stay. */
  lemma FewGoSoonestFirst(
    budget: nat, o: seq<Key>, m: map<Key, Entry>, key: Key, e: Entry, ok: bool, o': seq<Key>, m': map<Key, Entry>,
    gone: Key, kept: Key)
    requires SetDone(Sampling, budget, o, m, key, e, ok, o', m') && |m - {key}| <= 5
    requires gone in m && gone !in m' && kept in m' && kept != key
    ensures kept in m && m[gone].expiredAt <= m[kept].expiredAt
  {
    assert gone in m - {key} && gone !in m' - {key} && kept in m' - {key};
    if budget > 0 {
      var trace := SetSamples(budget, o, m, key, e, ok, o', m');
      FewGoInOrder(trace, m - {key}, m' - {key}, Size(key, e), budget, |trace| - 1, gone, kept);
    }
  }
}
