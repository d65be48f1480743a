/** Bytes and the fixed-width big-endian integers of encoding/binary. */
module Bytes {

  type byte = b: int | 0 <= b < 256

  const TWO16 := 0x1_0000
  const TWO32 := 0x1_0000_0000
  const TWO63 := 0x8000_0000_0000_0000
  const TWO64 := 0x1_0000_0000_0000_0000

  function Pow256(w: nat): (p: nat)
    ensures p > 0
  {
    if w == 0 then 1 else 256 * Pow256(w - 1)
  }

  /** The low `w` bytes of `n`, most significant first: writing cuts the value to the field's width. */
  function Put(n: nat, w: nat): (s: seq<byte>)
    ensures |s| == w
  {
    if w == 0 then [] else Put(n / 256, w - 1) + [n % 256]
  }

  function Get(s: seq<byte>): nat {
    if s == [] then 0 else Get(s[..|s| - 1]) * 256 + s[|s| - 1]
  }

  lemma Multiples(k: int, d: int)
    requires d > 0
    ensures k > 0 ==> k * d >= d
    ensures k < 0 ==> k * d <= -d
  {
  }

  lemma DivModUnique(n: int, d: int, q: int, r: int)
    requires n == q * d + r && 0 <= r < d
    ensures n / d == q && n % d == r
  {
    var q', r' := n / d, n % d;
    assert n == q' * d + r';
    assert (q - q') * d == q * d - q' * d;
    Multiples(q - q', d);
  }

  lemma ModOfProduct(n: nat, p: nat)
    requires p > 0
    ensures n / 256 % p * 256 + n % 256 == n % (256 * p)
  {
    var q, r := n / 256 / p, n / 256 % p;
    var low := r * 256 + n % 256;
    assert n == q * p * 256 + low;
    assert q * p * 256 == q * (256 * p);
    assert 0 <= low < 256 * p;
    DivModUnique(n, 256 * p, q, low);
  }

  /** Reading back what was written gives the value cut to its width. */
  lemma {:induction false} GetPut(n: nat, w: nat)
    ensures Get(Put(n, w)) == n % Pow256(w)
  {
    if w > 0 {
      GetPut(n / 256, w - 1);
      assert Put(n, w)[..w - 1] == Put(n / 256, w - 1);
      ModOfProduct(n, Pow256(w - 1));
    }
  }

  /** Writing back what was read gives the same bytes. */
  lemma {:induction false} PutGet(s: seq<byte>)
    ensures Put(Get(s), |s|) == s
    ensures Get(s) < Pow256(|s|)
  {
    if s != [] {
      var k := |s| - 1;
      PutGet(s[..k]);
      assert Get(s) / 256 == Get(s[..k]);
      assert s == s[..k] + [s[k]];
    }
  }

  lemma Widths()
    ensures Pow256(1) == 256 && Pow256(2) == TWO16 && Pow256(4) == TWO32 && Pow256(8) == TWO64
  {
    assert Pow256(3) == 0x100_0000;
    assert Pow256(5) == 0x100_0000_0000;
    assert Pow256(6) == 0x1_0000_0000_0000;
    assert Pow256(7) == 0x100_0000_0000_0000;
  }

  // The widths the formats use.

  function Put16(n: nat): (s: seq<byte>)
    ensures |s| == 2
  {
    Put(n, 2)
  }

  function Put32(n: nat): (s: seq<byte>)
    ensures |s| == 4
  {
    Put(n, 4)
  }

  function Put64(n: nat): (s: seq<byte>)
    ensures |s| == 8
  {
    Put(n, 8)
  }

  function Get16(s: seq<byte>): (n: nat)
    requires |s| == 2
    ensures n < TWO16
  {
    PutGet(s);
    Widths();
    Get(s)
  }

  function Get32(s: seq<byte>): (n: nat)
    requires |s| == 4
    ensures n < TWO32
  {
    PutGet(s);
    Widths();
    Get(s)
  }

  function Get64(s: seq<byte>): (n: nat)
    requires |s| == 8
    ensures n < TWO64
  {
    PutGet(s);
    Widths();
    Get(s)
  }

  lemma SmallMod(n: nat, d: nat)
    requires n < d
    ensures n % d == n
  {
  }

  lemma Put16Get16(n: nat)
    ensures Get16(Put16(n)) == n % TWO16
    ensures n < TWO16 ==> Get16(Put16(n)) == n
  {
    Widths();
    GetPut(n, 2);
  }

  lemma Put32Get32(n: nat)
    ensures Get32(Put32(n)) == n % TWO32
    ensures n < TWO32 ==> Get32(Put32(n)) == n
  {
    Widths();
    GetPut(n, 4);
  }

  lemma Put64Get64(n: nat)
    requires n < TWO64
    ensures Get64(Put64(n)) == n
  {
    Widths();
    GetPut(n, 8);
    SmallMod(n, TWO64);
  }

  predicate IsInt64(i: int) {
    -TWO63 <= i < TWO63
  }

  /** A time in nanoseconds as a uint64 field holds it: cut to 64 bits. */
  function ToUint64(i: int): (u: nat)
    ensures u < TWO64
  {
    i % TWO64
  }

  function ToInt64(u: nat): (i: int)
    requires u < TWO64
    ensures IsInt64(i)
  {
    if u < TWO63 then u else u - TWO64
  }

  /** A time survives the field exactly when it is an int64. */
  lemma Int64Back(i: int)
    ensures ToInt64(ToUint64(i)) == i <==> IsInt64(i)
  {
    if -TWO63 <= i < 0 {
      DivModUnique(i, TWO64, -1, i + TWO64);
    }
  }

  lemma Concat3<T>(a: seq<T>, b: seq<T>, c: seq<T>)
    ensures a + (b + c) == a + b + c
  {
  }

  lemma TakeCons<T>(s: seq<T>, k: nat)
    requires 0 < k <= |s|
    ensures s[..k] == [s[0]] + s[1..][..k - 1] && s[..k][1..] == s[1..][..k - 1]
  {
  }

  /** The parts of a header-key-value record, as a reader cuts them out. */
  lemma Slices(head: seq<byte>, key: seq<byte>, value: seq<byte>, rest: seq<byte>, s: seq<byte>)
    requires s == head + key + value + rest
    ensures var k := |head| + |key|; var n := k + |value|;
            && |s| >= n
            && s[..|head|] == head && s[|head|..k] == key && s[k..n] == value && s[n..] == rest
  {
  }

  // ---------- Chunks back to back ----------

  function Flatten(cs: seq<seq<byte>>): seq<byte> {
    if cs == [] then [] else cs[0] + Flatten(cs[1..])
  }

  lemma {:induction false} FlattenAppend(a: seq<seq<byte>>, b: seq<seq<byte>>)
    ensures Flatten(a + b) == Flatten(a) + Flatten(b)
  {
    if a == [] {
      assert a + b == b;
    } else {
      FlattenAppend(a[1..], b);
      assert (a + b)[1..] == a[1..] + b;
      Concat3(a[0], Flatten(a[1..]), Flatten(b));
    }
  }

  lemma FlattenOne(c: seq<byte>)
    ensures Flatten([c]) == c
  {
    assert [c][1..] == [];
  }

  /** How many chunks lie wholly inside the first `n` bytes. */
  function Fit(cs: seq<seq<byte>>, n: nat): (k: nat)
    ensures k <= |cs|
  {
    if cs == [] || n < |cs[0]| then 0 else 1 + Fit(cs[1..], n - |cs[0]|)
  }

  lemma {:induction false} FitIsExact(cs: seq<seq<byte>>, n: nat)
    requires n <= |Flatten(cs)|
    ensures var k := Fit(cs, n);
            && |Flatten(cs[..k])| <= n
            && (k < |cs| ==> n < |Flatten(cs[..k + 1])|)
  {
    var k := Fit(cs, n);
    if cs != [] {
      if k == 0 {
        assert cs[..1] == [cs[0]];
        FlattenOne(cs[0]);
      } else {
        FitIsExact(cs[1..], n - |cs[0]|);
        assert cs[..k][1..] == cs[1..][..k - 1];
        if k < |cs| {
          assert cs[..k + 1][1..] == cs[1..][..k];
        }
      }
    }
  }

  /** Taking `n` bytes that reach past the first chunk. */
  lemma TakePastFirst(first: seq<byte>, rest: seq<byte>, n: nat)
    requires |first| <= n <= |first| + |rest|
    ensures (first + rest)[..n] == first + rest[..n - |first|]
  {
  }
}
