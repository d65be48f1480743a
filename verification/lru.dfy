/** The recency list of storage/eviction/lru_evict_policy.go. Like container/list,
    the list holds elements with an identity of their own, and `elems` maps each
    key to its element. */
module Lru {
  import opened Entries
  import opened Sequences

  datatype Element = Element(id: nat, key: Key)

  function KeysOf(order: seq<Element>): (ks: seq<Key>)
    ensures |ks| == |order| && forall i :: 0 <= i < |ks| ==> ks[i] == order[i].key
  {
    seq(|order|, i requires 0 <= i < |order| => order[i].key)
  }

  /** The element at `i` is the one its key is mapped to. */
  ghost predicate Indexed(order: seq<Element>, elems: map<Key, Element>, nextId: nat, i: nat)
    requires i < |order|
  {
    order[i].id < nextId && order[i].key in elems && elems[order[i].key] == order[i]
  }

  ghost predicate Listed(order: seq<Element>, elems: map<Key, Element>, k: Key)
    requires k in elems
  {
    elems[k].key == k && elems[k] in order
  }

  ghost predicate Apart(order: seq<Element>, i: nat, j: nat)
    requires i < |order| && j < |order|
  {
    order[i].id != order[j].id
  }

  /** List and map describe the same elements, each key at most once. */
  ghost predicate ListOk(order: seq<Element>, elems: map<Key, Element>, nextId: nat) {
    && (forall i :: 0 <= i < |order| ==> Indexed(order, elems, nextId, i))
    && (forall k :: k in elems ==> Listed(order, elems, k))
    && (forall i, j :: 0 <= i < j < |order| ==> Apart(order, i, j))
  }

  lemma ListKeys(order: seq<Element>, elems: map<Key, Element>, nextId: nat)
    requires ListOk(order, elems, nextId)
    ensures NoDups(KeysOf(order)) && KeySet(KeysOf(order)) == elems.Keys
  {
    var ks := KeysOf(order);
    forall k | k in elems
      ensures k in ks
    {
      assert Listed(order, elems, k);
      var i :| 0 <= i < |order| && order[i] == elems[k];
      assert ks[i] == k;
    }
    forall i | 0 <= i < |ks|
      ensures ks[i] in elems
    {
      assert Indexed(order, elems, nextId, i);
    }
    forall i, j | 0 <= i < j < |ks|
      ensures ks[i] != ks[j]
    {
      assert Indexed(order, elems, nextId, i) && Indexed(order, elems, nextId, j) && Apart(order, i, j);
    }
  }

  function Cut(order: seq<Element>, i: nat): (c: seq<Element>)
    requires i < |order|
    ensures |c| == |order| - 1
    ensures forall j :: 0 <= j < |c| ==> c[j] == order[if j < i then j else j + 1]
  {
    order[..i] + order[i + 1..]
  }

  lemma CutKeys(order: seq<Element>, elems: map<Key, Element>, nextId: nat, i: nat)
    requires ListOk(order, elems, nextId) && i < |order|
    ensures KeysOf(Cut(order, i)) == Without(KeysOf(order), order[i].key)
  {
    var ks := KeysOf(order);
    ListKeys(order, elems, nextId);
    CutIsWithout(ks, i);
    assert KeysOf(Cut(order, i)) == ks[..i] + ks[i + 1..];
  }

  lemma CutKeepsOthers(order: seq<Element>, i: nat, e: Element)
    requires i < |order| && e in order && e != order[i]
    ensures e in Cut(order, i)
  {
    var j :| 0 <= j < |order| && order[j] == e;
    assert Cut(order, i)[if j < i then j else j - 1] == e;
  }

  lemma CutOk(order: seq<Element>, elems: map<Key, Element>, nextId: nat, i: nat)
    requires ListOk(order, elems, nextId) && i < |order|
    ensures ListOk(Cut(order, i), elems - {order[i].key}, nextId)
    ensures forall j :: 0 <= j < |Cut(order, i)| ==> Cut(order, i)[j].id != order[i].id
  {
    var cut, rest := Cut(order, i), elems - {order[i].key};
    assert Indexed(order, elems, nextId, i);
    forall j | 0 <= j < |cut|
      ensures Indexed(cut, rest, nextId, j) && cut[j].id != order[i].id
    {
      var j' := if j < i then j else j + 1;
      assert Indexed(order, elems, nextId, j') && Apart(order, if j < i then j else i, if j < i then i else j');
    }
    forall k | k in rest
      ensures Listed(cut, rest, k)
    {
      assert Listed(order, elems, k);
      CutKeepsOthers(order, i, elems[k]);
    }
    forall a, b | 0 <= a < b < |cut|
      ensures Apart(cut, a, b)
    {
      assert Apart(order, if a < i then a else a + 1, if b < i then b else b + 1);
    }
  }

  lemma PushOk(order: seq<Element>, elems: map<Key, Element>, nextId: nat, e: Element, next': nat)
    requires ListOk(order, elems, nextId) && e.key !in elems && nextId <= next' && e.id < next'
    requires forall i :: 0 <= i < |order| ==> order[i].id != e.id
    ensures ListOk([e] + order, elems[e.key := e], next')
    ensures KeysOf([e] + order) == [e.key] + KeysOf(order)
  {
    var order', elems' := [e] + order, elems[e.key := e];
    forall i | 0 <= i < |order'|
      ensures Indexed(order', elems', next', i)
    {
      assert i > 0 ==> Indexed(order, elems, nextId, i - 1);
    }
    forall k | k in elems'
      ensures Listed(order', elems', k)
    {
      if k == e.key {
        assert order'[0] == e;
      } else {
        assert Listed(order, elems, k);
      }
    }
    forall a, b | 0 <= a < b < |order'|
      ensures Apart(order', a, b)
    {
      assert a > 0 ==> Apart(order, a - 1, b - 1);
      assert order'[b] == order[b - 1];
    }
  }

  lemma FreshId(order: seq<Element>, elems: map<Key, Element>, nextId: nat)
    requires ListOk(order, elems, nextId)
    ensures forall i :: 0 <= i < |order| ==> order[i].id != nextId
  {
    forall i | 0 <= i < |order|
      ensures order[i].id != nextId
    {
      assert Indexed(order, elems, nextId, i);
    }
  }

  /** A new front element keeps list and map in step exactly when its key was not listed. */
  lemma PushNew(order: seq<Element>, elems: map<Key, Element>, nextId: nat, e: Element)
    requires ListOk(order, elems, nextId) && e.id == nextId
    ensures KeysOf([e] + order) == [e.key] + KeysOf(order)
    ensures ListOk([e] + order, elems[e.key := e], nextId + 1) <==> e.key !in KeysOf(order)
  {
    var order', elems' := [e] + order, elems[e.key := e];
    ListKeys(order, elems, nextId);
    assert e.key in elems ==> e.key in KeySet(KeysOf(order));
    if e.key !in KeysOf(order) {
      FreshId(order, elems, nextId);
      PushOk(order, elems, nextId, e, nextId + 1);
    } else if ListOk(order', elems', nextId + 1) {
      ListKeys(order', elems', nextId + 1);
    }
    ConsRepeats(e.key, KeysOf(order));
  }

  lemma MoveOk(order: seq<Element>, elems: map<Key, Element>, nextId: nat, i: nat)
    requires ListOk(order, elems, nextId) && i < |order|
    ensures ListOk([order[i]] + Cut(order, i), elems, nextId)
    ensures KeysOf([order[i]] + Cut(order, i)) == [order[i].key] + Without(KeysOf(order), order[i].key)
  {
    var e := order[i];
    assert Indexed(order, elems, nextId, i);
    CutOk(order, elems, nextId, i);
    CutKeys(order, elems, nextId, i);
    PushOk(Cut(order, i), elems - {e.key}, nextId, e, nextId);
    assert (elems - {e.key})[e.key := e] == elems;
  }

  /** The list after a successful read of `k`: moved to the front if it is still listed. */
  function Touched(o: seq<Key>, k: Key): seq<Key> {
    if k in o then [k] + Without(o, k) else o
  }

  /** A key that is listed goes to the front, the others keep their order behind it;
      any other key changes nothing. */
  lemma TouchedGoesFirst(o: seq<Key>, k: Key)
    requires NoDups(o)
    ensures forall i :: 0 <= i < |o| && o[i] == k ==> Touched(o, k) == [k] + o[..i] + o[i + 1..]
    ensures k in o ==> Touched(o, k) != [] && Touched(o, k)[0] == k
    ensures k !in o ==> Touched(o, k) == o
  {
    forall i | 0 <= i < |o| && o[i] == k
      ensures Touched(o, k) == [k] + o[..i] + o[i + 1..]
    {
      CutIsWithout(o, i);
      assert [k] + o[..i] + o[i + 1..] == [k] + (o[..i] + o[i + 1..]);
    }
  }

  class LRUEvict {
    var order: seq<Element>
    var elems: map<Key, Element>
    var nextId: nat
    ghost var keys: seq<Key>  // the list's keys, most recent first

    ghost predicate Valid()
      reads this
    {
      ListOk(order, elems, nextId) && keys == KeysOf(order)
    }

    constructor ()
      ensures Valid() && keys == []
    {
      order, elems, nextId, keys := [], map[], 0, [];
    }

    lemma KeysAreDistinct()
      requires Valid()
      ensures NoDups(keys) && KeySet(keys) == elems.Keys && |keys| == |order|
    {
      ListKeys(order, elems, nextId);
    }

    method Forget(key: Key)
      requires Valid()
      modifies this
      ensures Valid() && keys == Without(old(keys), key)
    {
      KeysAreDistinct();
      if key in elems {
        assert Listed(order, elems, key);
        var i :| 0 <= i < |order| && order[i] == elems[key];
        CutOk(order, elems, nextId, i);
        CutKeys(order, elems, nextId, i);
        order := Cut(order, i);
        elems := elems - {key};
        keys := KeysOf(order);
      } else {
        assert key !in KeySet(keys);
        WithoutKeys(keys, key);
      }
    }

    /** Always adds a new front element. List and index stay in step exactly when
        the key was not listed; the store calls this for a key it has just
        forgotten or loaded. */
    method AfterWrite(key: Key)
      requires Valid()
      modifies this
      ensures order == [Element(old(nextId), key)] + old(order) && keys == [key] + old(keys)
      ensures elems == old(elems)[key := Element(old(nextId), key)]
      ensures Valid() <==> key !in old(keys)
    {
      var e := Element(nextId, key);
      PushNew(order, elems, nextId, e);
      order := [e] + order;
      elems := elems[key := e];
      nextId := nextId + 1;
      keys := KeysOf(order);
    }

    /** May run long after the read, when the key has been deleted, evicted or rewritten. */
    method AfterRead(key: Key)
      requires Valid()
      modifies this
      ensures Valid() && keys == Touched(old(keys), key)
      ensures forall i :: 0 <= i < |old(keys)| && old(keys)[i] == key ==>
                keys == [key] + old(keys)[..i] + old(keys)[i + 1..]
      ensures key !in old(keys) ==> keys == old(keys)
    {
      KeysAreDistinct();
      TouchedGoesFirst(keys, key);
      assert key in elems <==> key in KeySet(keys);
      if key in elems {
        assert Listed(order, elems, key);
        var i :| 0 <= i < |order| && order[i] == elems[key];
        MoveOk(order, elems, nextId, i);
        order := [order[i]] + Cut(order, i);
        keys := KeysOf(order);
      }
    }

    method Back() returns (key: Key)
      requires Valid() && keys != []
      ensures key == keys[|keys| - 1]
    {
      key := order[|order| - 1].key;
    }

    method Len() returns (n: nat)
      requires Valid()
      ensures n == |keys|
    {
      n := |order|;
    }
  }
}
