/** Duplicate-free sequences: peer lists and recency lists. */
module Sequences {

  ghost predicate NoDups<T>(s: seq<T>) {
    forall i, j :: 0 <= i < j < |s| ==> s[i] != s[j]
  }

  lemma ConsRepeats<T>(x: T, s: seq<T>)
    ensures x in s ==> !NoDups([x] + s)
  {
    if x in s {
      var i :| 0 <= i < |s| && s[i] == x;
      assert ([x] + s)[0] == ([x] + s)[i + 1];
    }
  }

  lemma NoDupsCons<T>(x: T, s: seq<T>)
    requires NoDups(s) && x !in s
    ensures NoDups([x] + s)
  {
  }

  lemma {:induction false} SubsetCount<T>(a: set<T>, b: set<T>)
    requires a <= b
    ensures |a| <= |b|
  {
    if a != {} {
      var x :| x in a;
      SubsetCount(a - {x}, b - {x});
    }
  }

  lemma DisjointCount<T>(a: set<T>, b: set<T>, all: set<T>)
    requires a <= all && b <= all
    ensures a !! b ==> |a| + |b| <= |all|
  {
    SubsetCount(a + b, all);
  }
}
