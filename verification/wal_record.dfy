/** The log's record format (storage/wal/wal_record.go) and the replay loop
    (storage/wal/wal_replay.go). */
module WalRecord {
  import opened Bytes
  import opened Reader

  const OP_SET: byte := 1
  const OP_DELETE: byte := 2
  const HEADER := 15

  /** `expiresAt` is Unix nanoseconds. */
  datatype Record = Record(op: byte, key: seq<byte>, value: seq<byte>, expiresAt: int)

  // ---------- Writing ----------

  /** The two length fields are cut to 16 and 32 bits; key and value are not. */
  function Encode(r: Record): seq<byte> {
    Header(r) + r.key + r.value
  }

  function ExpiryField(r: Record): nat {
    if r.op == OP_SET then ToUint64(r.expiresAt) else 0
  }

  function Header(r: Record): (h: seq<byte>)
    ensures |h| == HEADER
  {
    [r.op] + Put16(|r.key|) + Put32(|r.value|) + Put64(ExpiryField(r))
  }

  function Encoded(rs: seq<Record>): (cs: seq<seq<byte>>)
    ensures |cs| == |rs| && forall i :: 0 <= i < |cs| ==> cs[i] == Encode(rs[i])
  {
    seq(|rs|, i requires 0 <= i < |rs| => Encode(rs[i]))
  }

  /** A log: its records back to back. */
  function EncodeAll(rs: seq<Record>): seq<byte> {
    Flatten(Encoded(rs))
  }

  // ---------- Reading ----------

  datatype ReadResult = Got(rec: Record, rest: seq<byte>) | End | Torn

  function KeyLen(s: seq<byte>): nat
    requires |s| >= HEADER
  {
    Get16(s[1..3])
  }

  /** A delete record has no value, whatever its length field says. */
  function ValueLen(s: seq<byte>): nat
    requires |s| >= HEADER
  {
    if s[0] == OP_SET then Get32(s[3..7]) else 0
  }

  function Expiry(s: seq<byte>): int
    requires |s| >= HEADER
  {
    ToInt64(Get64(s[7..15]))
  }

  function Read(s: seq<byte>): ReadResult {
    if s == [] then End
    else if |s| < HEADER then Torn
    else
      var k, v := KeyLen(s), ValueLen(s);
      if |s| < HEADER + k + v then Torn
      else Got(Record(s[0], s[HEADER..HEADER + k], s[HEADER + k..HEADER + k + v], Expiry(s)), s[HEADER + k + v..])
  }

  function Replay(s: seq<byte>): (seq<Record>, bool)
    decreases |s|
  {
    match Read(s)
    case End => ([], true)
    case Torn => ([], false)
    case Got(rec, rest) =>
      var (recs, ok) := Replay(rest);
      ([rec] + recs, ok)
  }

  lemma HeaderOf(s: seq<byte>)
    requires |s| >= HEADER
    ensures var h := s[..HEADER];
            && h[0] == s[0] && KeyLen(h) == KeyLen(s) && ValueLen(h) == ValueLen(s) && Expiry(h) == Expiry(s)
  {
    var h := s[..HEADER];
    assert h[1..3] == s[1..3] && h[3..7] == s[3..7] && h[7..15] == s[7..15];
  }

  /** Reading header, key and value one after the other. */
  lemma ReadInPieces(s: seq<byte>)
    requires |s| >= HEADER
    ensures var t := s[HEADER..]; var k, v := KeyLen(s), ValueLen(s);
            Read(s) == if |t| < k || |t[k..]| < v then Torn
                       else Got(Record(s[0], t[..k], t[k..][..v], Expiry(s)), t[k..][v..])
  {
    var t := s[HEADER..];
    var k, v := KeyLen(s), ValueLen(s);
    if |t| >= k + v {
      assert s[HEADER..HEADER + k] == t[..k];
      assert s[HEADER + k..HEADER + k + v] == t[k..][..v];
      assert s[HEADER + k + v..] == t[k..][v..];
    }
  }

  method ReadRecord(r: Stream) returns (res: Status, rec: Record)
    requires r.Valid()
    modifies r`pos
    ensures r.Valid()
    ensures match Read(old(r.Rest()))
            case End => res == Eof
            case Torn => res == UnexpectedEof
            case Got(want, rest) => res == Ok && rec == want && r.Rest() == rest
  {
    ghost var s := r.Rest();
    rec := Record(0, [], [], 0);
    var status, header := r.ReadFull(HEADER);
    if status != Ok {
      return status, rec;
    }
    HeaderOf(s);
    ReadInPieces(s);
    var op, keyLen, expiresAt := header[0], KeyLen(header), Expiry(header);
    var key, value := [], [];
    status, key := r.ReadFull(keyLen);
    if status != Ok {
      return UnexpectedEof, rec;
    }
    if op == OP_SET {
      status, value := r.ReadFull(ValueLen(header));
      if status != Ok {
        return UnexpectedEof, rec;
      }
    }
    return Ok, Record(op, key, value, expiresAt);
  }

  function Before(rs: seq<Record>, rest: (seq<Record>, bool)): (seq<Record>, bool) {
    (rs + rest.0, rest.1)
  }

  lemma BeforeTwice(a: seq<Record>, b: seq<Record>, rest: (seq<Record>, bool))
    ensures Before(a, Before(b, rest)) == Before(a + b, rest)
  {
    Concat3(a, b, rest.0);
  }

  lemma BeforeNothing(rs: seq<Record>, rest: (seq<Record>, bool))
    ensures Before([], rest) == rest && Before(rs, ([], rest.1)) == (rs, rest.1)
  {
    assert [] + rest.0 == rest.0 && rs + [] == rs;
  }

  lemma ReplayStep(s: seq<byte>)
    ensures match Read(s)
            case End => Replay(s) == ([], true)
            case Torn => Replay(s) == ([], false)
            case Got(rec, rest) => |rest| < |s| && Replay(s) == Before([rec], Replay(rest))
  {
  }

  /** The records handed to the apply callback, in order, and whether the log ended cleanly. */
  method ReplayLog(r: Stream) returns (applied: seq<Record>, ok: bool)
    requires r.Valid()
    modifies r`pos
    ensures (applied, ok) == Replay(old(r.Rest()))
  {
    applied := [];
    BeforeNothing([], Replay(r.Rest()));
    while true
      invariant r.Valid() && Replay(old(r.Rest())) == Before(applied, Replay(r.Rest()))
      decreases |r.Rest()|
    {
      ReplayStep(r.Rest());
      BeforeNothing(applied, Replay(r.Rest()));
      var status, rec := ReadRecord(r);
      if status == Eof {
        return applied, true;
      }
      if status != Ok {
        return applied, false;
      }
      BeforeTwice(applied, [rec], Replay(r.Rest()));
      applied := applied + [rec];
    }
  }

  // ---------- Round trip ----------

  /** What survives the trip: only a set carries its expiry. */
  function Stored(r: Record): Record {
    if r.op == OP_SET then r else r.(expiresAt := 0)
  }

  function StoredAll(rs: seq<Record>): (out: seq<Record>)
    ensures |out| == |rs| && forall i :: 0 <= i < |out| ==> out[i] == Stored(rs[i])
  {
    seq(|rs|, i requires 0 <= i < |rs| => Stored(rs[i]))
  }

  /** The lengths and a set's expiry fit their fields, and only a set has a value. */
  predicate Storable(r: Record) {
    && |r.key| < TWO16 && |r.value| < TWO32
    && (if r.op == OP_SET then IsInt64(r.expiresAt) else r.value == [])
  }

  predicate AllStorable(rs: seq<Record>) {
    forall i :: 0 <= i < |rs| ==> Storable(rs[i])
  }

  lemma HeaderSlices(r: Record, h: seq<byte>)
    requires h == Header(r)
    ensures h[0] == r.op
    ensures h[1..3] == Put16(|r.key|)
    ensures h[3..7] == Put32(|r.value|)
    ensures h[7..15] == Put64(ExpiryField(r))
  {
  }

  lemma HeaderFields(r: Record, s: seq<byte>)
    requires |s| >= HEADER && s[..HEADER] == Header(r)
    ensures s[0] == r.op
    ensures KeyLen(s) == |r.key| % TWO16
    ensures ValueLen(s) == if r.op == OP_SET then |r.value| % TWO32 else 0
    ensures Expiry(s) == ToInt64(ExpiryField(r))
    ensures Expiry(s) == Stored(r).expiresAt <==> r.op != OP_SET || IsInt64(r.expiresAt)
  {
    var h := s[..HEADER];
    HeaderSlices(r, h);
    assert s[0] == h[0] && s[1..3] == h[1..3] && s[3..7] == h[3..7] && s[7..15] == h[7..15];
    Put16Get16(|r.key|);
    Put32Get32(|r.value|);
    Put64Get64(ExpiryField(r));
    Int64Back(r.expiresAt);
  }

  /** A header that says what it should, whatever its bytes, reads back with its key and value. */
  lemma ReadParts(h: seq<byte>, r: Record, rest: seq<byte>)
    requires |h| == HEADER && h[0] == r.op
    requires KeyLen(h) == |r.key| && ValueLen(h) == |r.value| && Expiry(h) == r.expiresAt
    ensures Read(h + r.key + r.value + rest) == Got(r, rest)
  {
    var s := h + r.key + r.value + rest;
    Slices(h, r.key, r.value, rest, s);
    assert s[0] == h[0] && s[1..3] == h[1..3] && s[3..7] == h[3..7] && s[7..15] == h[7..15];
  }

  lemma StorableHeader(r: Record, h: seq<byte>)
    requires Storable(r) && h == Header(r)
    ensures h[0] == r.op && KeyLen(h) == |r.key| && ValueLen(h) == |r.value| && Expiry(h) == Stored(r).expiresAt
  {
    assert h[..HEADER] == h;
    HeaderFields(r, h);
  }

  lemma StorableComesBack(r: Record, rest: seq<byte>)
    requires Storable(r)
    ensures Read(Encode(r) + rest) == Got(Stored(r), rest)
  {
    StorableHeader(r, Header(r));
    ReadParts(Header(r), Stored(r), rest);
  }

  /** The lengths read back are those of the header, so what does not fit cannot come back. */
  lemma UnstorableDoesNot(r: Record, rest: seq<byte>)
    requires !Storable(r)
    ensures Read(Encode(r) + rest) != Got(Stored(r), rest)
  {
    HeaderFields(r, Header(r));
    ReadLengths(Header(r), r.key + r.value + rest);
    assert Encode(r) + rest == Header(r) + (r.key + r.value + rest);
  }

  lemma ReadLengths(h: seq<byte>, tail: seq<byte>)
    requires |h| == HEADER
    ensures var g := Read(h + tail);
            g.Got? ==> |g.rec.key| == KeyLen(h) && |g.rec.value| == ValueLen(h) && g.rec.expiresAt == Expiry(h)
  {
    var s := h + tail;
    assert s[0] == h[0] && s[1..3] == h[1..3] && s[3..7] == h[3..7] && s[7..15] == h[7..15];
  }

  /** A record read back from the front of a log is the one written, exactly when it is storable. */
  lemma RoundTrip(r: Record, rest: seq<byte>)
    ensures Read(Encode(r) + rest) == Got(Stored(r), rest) <==> Storable(r)
  {
    if Storable(r) {
      StorableComesBack(r, rest);
    } else {
      UnstorableDoesNot(r, rest);
    }
  }

  lemma CutPartsAreTorn(h: seq<byte>, body: seq<byte>, n: nat)
    requires |h| == HEADER && |body| == KeyLen(h) + ValueLen(h) && 0 < n < HEADER + |body|
    ensures Read((h + body)[..n]) == Torn
  {
    var s := (h + body)[..n];
    if n >= HEADER {
      assert s[0] == h[0] && s[1..3] == h[1..3] && s[3..7] == h[3..7];
    }
  }

  /** A storable record cut short anywhere but at its start is reported as torn. */
  lemma CutRecordIsTorn(r: Record, n: nat)
    requires Storable(r) && 0 < n < |Encode(r)|
    ensures Read(Encode(r)[..n]) == Torn
  {
    StorableHeader(r, Header(r));
    CutPartsAreTorn(Header(r), r.key + r.value, n);
    assert Encode(r) == Header(r) + (r.key + r.value);
  }

  // ---------- Prefixes of a log ----------

  ghost predicate ReadsInFront(c: seq<byte>, r: Record, rest: seq<byte>) {
    Read(c + rest) == Got(r, rest)
  }

  ghost predicate TornAt(c: seq<byte>, n: nat)
    requires n <= |c|
  {
    Read(c[..n]) == Torn
  }

  /** A chunk of bytes that reads as one record, and as a torn one when cut. */
  ghost predicate ReadsAs(c: seq<byte>, r: Record) {
    && |c| > 0
    && (forall rest :: ReadsInFront(c, r, rest))
    && (forall n :: 0 < n < |c| ==> TornAt(c, n))
  }

  lemma StorableReadsAs(r: Record)
    requires Storable(r)
    ensures ReadsAs(Encode(r), Stored(r))
  {
    forall rest
      ensures ReadsInFront(Encode(r), Stored(r), rest)
    {
      StorableComesBack(r, rest);
    }
    forall n | 0 < n < |Encode(r)|
      ensures TornAt(Encode(r), n)
    {
      CutRecordIsTorn(r, n);
    }
  }

  lemma ReplayTorn(c: seq<byte>, r: Record, n: nat)
    requires ReadsAs(c, r) && n < |c|
    ensures Replay(c[..n]) == ([], n == 0)
  {
    if n > 0 {
      assert TornAt(c, n);
    }
  }

  lemma ReplayCons(c: seq<byte>, r: Record, rest: seq<byte>)
    requires ReadsAs(c, r)
    ensures Replay(c + rest) == ([r] + Replay(rest).0, Replay(rest).1)
  {
    assert ReadsInFront(c, r, rest);
  }

  lemma ReplayChunkStep(first: seq<byte>, r: Record, rest: seq<byte>, n: nat, tail: seq<Record>, ok: bool)
    requires ReadsAs(first, r) && |first| <= n <= |first| + |rest|
    requires Replay(rest[..n - |first|]) == (tail, ok)
    ensures Replay((first + rest)[..n]) == ([r] + tail, ok)
  {
    ReplayCons(first, r, rest[..n - |first|]);
    TakePastFirst(first, rest, n);
  }

  lemma TailsReadAs(cs: seq<seq<byte>>, rs: seq<Record>)
    requires |cs| == |rs| && cs != []
    requires forall i :: 0 <= i < |cs| ==> ReadsAs(cs[i], rs[i])
    ensures forall i :: 0 <= i < |cs[1..]| ==> ReadsAs(cs[1..][i], rs[1..][i])
  {
  }

  lemma {:induction false} ReplayOfChunks(cs: seq<seq<byte>>, rs: seq<Record>, n: nat)
    requires |cs| == |rs| && n <= |Flatten(cs)|
    requires forall i :: 0 <= i < |cs| ==> ReadsAs(cs[i], rs[i])
    ensures var k := Fit(cs, n);
            Replay(Flatten(cs)[..n]) == (rs[..k], n == |Flatten(cs[..k])|)
  {
    var k := Fit(cs, n);
    if cs != [] {
      var first, rest := cs[0], Flatten(cs[1..]);
      if n < |first| {
        ReplayTorn(first, rs[0], n);
        assert (first + rest)[..n] == first[..n];
        assert rs[..k] == [] && cs[..k] == [];
      } else {
        var m := n - |first|;
        TailsReadAs(cs, rs);
        ReplayOfChunks(cs[1..], rs[1..], m);
        ReplayChunkStep(first, rs[0], rest, n, rs[1..][..k - 1], m == |Flatten(cs[1..][..k - 1])|);
        TakeCons(rs, k);
        TakeCons(cs, k);
      }
    }
  }

  /** How many records lie wholly inside the first `n` bytes of the log. */
  function Whole(rs: seq<Record>, n: nat): (k: nat)
    ensures k <= |rs|
  {
    Fit(Encoded(rs), n)
  }

  /** Replaying any byte prefix of a log of storable records applies exactly the
      records wholly inside it, and succeeds exactly when it ends between records. */
  lemma ReplayOfPrefix(rs: seq<Record>, n: nat)
    requires AllStorable(rs) && n <= |EncodeAll(rs)|
    ensures var k := Whole(rs, n);
            && Replay(EncodeAll(rs)[..n]) == (StoredAll(rs[..k]), n == |EncodeAll(rs[..k])|)
            && |EncodeAll(rs[..k])| <= n
            && (k < |rs| ==> n < |EncodeAll(rs[..k + 1])|)
  {
    var k, cs := Whole(rs, n), Encoded(rs);
    forall i | 0 <= i < |rs|
      ensures ReadsAs(cs[i], StoredAll(rs)[i])
    {
      StorableReadsAs(rs[i]);
    }
    ReplayOfChunks(cs, StoredAll(rs), n);
    FitIsExact(cs, n);
    PrefixOfEach(rs, k);
    if k < |rs| {
      PrefixOfEach(rs, k + 1);
    }
  }

  lemma PrefixOfEach(rs: seq<Record>, k: nat)
    requires k <= |rs|
    ensures Encoded(rs)[..k] == Encoded(rs[..k]) && StoredAll(rs)[..k] == StoredAll(rs[..k])
  {
  }

  /** The whole log replays to every record written to it. */
  lemma {:induction false} ReplayOfLog(rs: seq<Record>)
    requires AllStorable(rs)
    ensures Replay(EncodeAll(rs)) == (StoredAll(rs), true)
  {
    if rs != [] {
      StorableReadsAs(rs[0]);
      ReplayCons(Encode(rs[0]), Stored(rs[0]), EncodeAll(rs[1..]));
      ReplayOfLog(rs[1..]);
      EncodeAllCons(rs);
      assert StoredAll(rs) == [Stored(rs[0])] + StoredAll(rs[1..]);
    }
  }

  lemma EncodeAllCons(rs: seq<Record>)
    requires rs != []
    ensures EncodeAll(rs) == Encode(rs[0]) + EncodeAll(rs[1..])
  {
    assert Encoded(rs)[1..] == Encoded(rs[1..]);
  }

  lemma EncodeAllAppend(a: seq<Record>, b: seq<Record>)
    ensures EncodeAll(a + b) == EncodeAll(a) + EncodeAll(b)
  {
    assert Encoded(a + b) == Encoded(a) + Encoded(b);
    FlattenAppend(Encoded(a), Encoded(b));
  }
}
