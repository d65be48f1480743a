/** Keys, stored values, and the number of bytes a set of entries takes. */
module Entries {
  import opened Bytes
  import opened Sequences

  /** A key: Go's string made from wire or log bytes. */
  datatype Key = Key(chars: seq<byte>)

  /** A stored value with its expiry in Unix nanoseconds. */
  datatype Entry = Entry(value: seq<byte>, expiredAt: int)

  function Size(k: Key, e: Entry): nat {
    |k.chars| + |e.value|
  }

  /** Sum of key and value lengths over a whole map. */
  ghost function Total(m: map<Key, Entry>): nat {
    Sum(m, m.Keys)
  }

  ghost function Sum(m: map<Key, Entry>, ks: set<Key>): nat
    requires ks <= m.Keys
  {
    if ks == {} then 0
    else
      var k := Pick(ks);
      Size(k, m[k]) + Sum(m, ks - {k})
  }

  ghost function Pick(ks: set<Key>): (k: Key)
    requires ks != {}
    ensures k in ks
  {
    var k :| k in ks;
    k
  }

  lemma {:induction false} SumRemove(m: map<Key, Entry>, ks: set<Key>, k: Key)
    requires ks <= m.Keys && k in ks
    ensures Sum(m, ks) == Size(k, m[k]) + Sum(m, ks - {k})
  {
    var j := Pick(ks);
    if j != k {
      SumRemove(m, ks - {j}, k);
      SumRemove(m, ks - {k}, j);
      assert ks - {j} - {k} == ks - {k} - {j};
    }
  }

  lemma {:induction false} SumAgrees(m: map<Key, Entry>, m': map<Key, Entry>, ks: set<Key>)
    requires ks <= m.Keys && ks <= m'.Keys && forall k :: k in ks ==> m[k] == m'[k]
    ensures Sum(m, ks) == Sum(m', ks)
  {
    if ks != {} {
      SumAgrees(m, m', ks - {Pick(ks)});
    }
  }

  lemma TotalRemove(m: map<Key, Entry>, k: Key)
    requires k in m
    ensures Total(m) == Size(k, m[k]) + Total(m - {k})
  {
    SumRemove(m, m.Keys, k);
    SumAgrees(m, m - {k}, m.Keys - {k});
    assert (m - {k}).Keys == m.Keys - {k};
  }

  lemma RemoveShrinks(m: map<Key, Entry>, k: Key)
    requires k in m
    ensures |m - {k}| == |m| - 1
  {
    assert (m - {k}).Keys == m.Keys - {k};
  }

  lemma TotalInsert(m: map<Key, Entry>, k: Key, e: Entry)
    requires k !in m
    ensures Total(m[k := e]) == Size(k, e) + Total(m)
  {
    TotalRemove(m[k := e], k);
    assert m[k := e] - {k} == m;
  }

  lemma {:induction false} SumUnion(m: map<Key, Entry>, a: set<Key>, b: set<Key>)
    requires a + b <= m.Keys && a !! b
    ensures Sum(m, a + b) == Sum(m, a) + Sum(m, b)
  {
    if b == {} {
      assert a + b == a;
    } else {
      var k := Pick(b);
      SumUnion(m, a, b - {k});
      SumRemove(m, a + b, k);
      assert a + b - {k} == a + (b - {k});
    }
  }

  lemma TotalDisjoint(a: map<Key, Entry>, b: map<Key, Entry>)
    requires a.Keys !! b.Keys
    ensures Total(a + b) == Total(a) + Total(b)
  {
    assert (a + b).Keys == a.Keys + b.Keys;
    SumUnion(a + b, a.Keys, b.Keys);
    SumAgrees(a + b, a, a.Keys);
    SumAgrees(a + b, b, b.Keys);
  }

  ghost predicate Submap(a: map<Key, Entry>, b: map<Key, Entry>) {
    forall k :: k in a ==> k in b && a[k] == b[k]
  }

  lemma SubmapTotal(a: map<Key, Entry>, b: map<Key, Entry>)
    requires Submap(a, b)
    ensures Total(a) <= Total(b)
  {
    assert b == a + (b - a.Keys);
    TotalDisjoint(a, b - a.Keys);
  }

  // ---------- Recency lists ----------

  function Without(o: seq<Key>, k: Key): seq<Key> {
    if o == [] then []
    else if o[0] == k then Without(o[1..], k)
    else [o[0]] + Without(o[1..], k)
  }

  function KeySet(o: seq<Key>): set<Key> {
    set k | k in o
  }

  lemma {:induction false} WithoutKeys(o: seq<Key>, k: Key)
    ensures KeySet(Without(o, k)) == KeySet(o) - {k}
    ensures NoDups(o) ==> NoDups(Without(o, k))
    ensures k !in o ==> Without(o, k) == o
  {
    if o != [] {
      var rest := o[1..];
      WithoutKeys(rest, k);
      assert o == [o[0]] + rest;
      assert forall x :: x in Without(rest, k) <==> x in KeySet(Without(rest, k));
      assert forall x :: x in rest <==> x in KeySet(rest);
      if NoDups(o) {
        assert forall i :: 0 <= i < |rest| ==> rest[i] == o[i + 1] != o[0];
        assert NoDups(rest) && o[0] !in rest;
        assert o[0] !in KeySet(Without(rest, k));
        NoDupsCons(o[0], Without(rest, k));
      }
    }
  }

  /** Cutting one element out of a duplicate-free list removes its key. */
  lemma {:induction false} CutIsWithout(o: seq<Key>, i: nat)
    requires NoDups(o) && i < |o|
    ensures o[..i] + o[i + 1..] == Without(o, o[i])
  {
    var rest := o[1..];
    if i == 0 {
      assert o[0] !in rest;
      WithoutKeys(rest, o[0]);
    } else {
      CutIsWithout(rest, i - 1);
      assert o[..i] + o[i + 1..] == [o[0]] + (rest[..i - 1] + rest[i..]);
    }
  }

  // ---------- The least-recently-used suffix ----------

  function Restrict(m: map<Key, Entry>, o: seq<Key>): map<Key, Entry> {
    map k | k in m && k in o :: m[k]
  }

  lemma RestrictToAll(m: map<Key, Entry>, o: seq<Key>)
    requires KeySet(o) == m.Keys
    ensures Restrict(m, o) == m
  {
    assert forall k :: k in m ==> k in KeySet(o);
  }

  lemma RestrictDrops(m: map<Key, Entry>, o: seq<Key>)
    requires NoDups(o) && o != []
    ensures Restrict(m, o) - {o[|o| - 1]} == Restrict(m, o[..|o| - 1])
  {
    assert o == o[..|o| - 1] + [o[|o| - 1]];
    assert o[|o| - 1] !in o[..|o| - 1];
  }

  ghost predicate TooBig(o: seq<Key>, m: map<Key, Entry>, room: int, i: nat)
    requires i <= |o|
  {
    Total(Restrict(m, o[..i])) > room
  }

  /** No longer front part of the list fits. */
  ghost predicate NoneLonger(o: seq<Key>, m: map<Key, Entry>, room: int, keep: nat) {
    forall i :: keep < i <= |o| ==> TooBig(o, m, room, i)
  }

  /** What exact LRU keeps of a list `o` (most recent first): the dropped keys
      are the shortest least-recent suffix whose removal makes the rest take at
      most `room` bytes, or everything when nothing suffices. */
  ghost predicate LruKeeps(o: seq<Key>, m: map<Key, Entry>, room: int, keep: seq<Key>) {
    && keep <= o
    && NoneLonger(o, m, room, |keep|)
    && (keep == [] || Total(Restrict(m, keep)) <= room)
  }

  /** The eviction loop: drop the least recent key while the rest takes too much. */
  ghost function LruDrop(o: seq<Key>, m: map<Key, Entry>, room: int): seq<Key> {
    if o == [] || Total(Restrict(m, o)) <= room then o else LruDrop(o[..|o| - 1], m, room)
  }

  /** The loop drops exactly that suffix. */
  lemma {:induction false} LruDropKeeps(o: seq<Key>, m: map<Key, Entry>, room: int)
    ensures LruKeeps(o, m, room, LruDrop(o, m, room))
  {
    if o != [] && Total(Restrict(m, o)) > room {
      var n := |o| - 1;
      LruDropKeeps(o[..n], m, room);
      forall i | |LruDrop(o, m, room)| < i <= |o|
        ensures TooBig(o, m, room, i)
      {
        if i <= n {
          assert TooBig(o[..n], m, room, i);
          assert o[..n][..i] == o[..i];
        } else {
          assert o[..i] == o;
        }
      }
    }
  }

  /** That leaves no choice. */
  lemma LruKeepsIsUnique(o: seq<Key>, m: map<Key, Entry>, room: int, a: seq<Key>, b: seq<Key>)
    requires LruKeeps(o, m, room, a) && LruKeeps(o, m, room, b)
    ensures a == b
  {
    assert a == o[..|a|] && b == o[..|b|];
    assert TooBig(o, m, room, |a|) <==> Total(Restrict(m, a)) > room;
    assert TooBig(o, m, room, |b|) <==> Total(Restrict(m, b)) > room;
  }
}
