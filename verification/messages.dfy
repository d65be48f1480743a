/** The two messages that carry a key and a value: ReplicationSync
    (protocol/cluster/replication_sync_protocol_request.go) and SetRequest
    (protocol/kv/set_protocol_request.go). */
module Messages {
  import opened Bytes

  type uint64 = n: nat | n < 0x1_0000_0000_0000_0000

  // ---------- Buffers ----------

  /** Go's copy and the PutUint family: write `part` at `off`. Buffers are filled
      from left to right, so only the part already written is described. */
  method WriteAt(buf: array<byte>, off: nat, part: seq<byte>)
    requires off + |part| <= buf.Length
    modifies buf
    ensures buf[..off + |part|] == old(buf[..off]) + part
  {
    for i := 0 to |part|
      invariant buf[..off + i] == old(buf[..off]) + part[..i]
    {
      buf[off + i] := part[i];
      assert buf[..off + i + 1] == buf[..off + i] + [part[i]];
      assert part[..i + 1] == part[..i] + [part[i]];
    }
    assert part[..|part|] == part;
  }

  // ---------- ReplicationSync ----------

  const SYNC_HEADER := 23

  datatype Sync = Sync(logIndex: uint64, op: byte, key: seq<byte>, value: seq<byte>, expiresAt: uint64)

  function SyncHeader(m: Sync): (h: seq<byte>)
    ensures |h| == SYNC_HEADER
  {
    Put64(m.logIndex) + [m.op] + Put16(|m.key|) + Put32(|m.value|) + Put64(m.expiresAt)
  }

  function SyncBytes(m: Sync): seq<byte> {
    SyncHeader(m) + m.key + m.value
  }

  datatype Decoded<T> = Ok(msg: T) | TooShort | Panic

  function SyncKeyLen(s: seq<byte>): nat
    requires |s| >= SYNC_HEADER
  {
    Get16(s[9..11])
  }

  function SyncValueLen(s: seq<byte>): nat
    requires |s| >= SYNC_HEADER
  {
    Get32(s[11..15])
  }

  function DecodeSync(s: seq<byte>): Decoded<Sync> {
    if |s| < SYNC_HEADER then TooShort
    else
      var k, v := SyncKeyLen(s), SyncValueLen(s);
      if |s| < SYNC_HEADER + k + v then TooShort
      else Ok(Sync(Get64(s[0..8]), s[8], s[SYNC_HEADER..SYNC_HEADER + k],
                   s[SYNC_HEADER + k..SYNC_HEADER + k + v], Get64(s[15..23])))
  }

  class ReplicationSync {
    var logIndex: uint64
    var op: byte
    var key: seq<byte>
    var value: seq<byte>
    var expiresAt: uint64

    ghost function Value(): Sync
      reads this
    {
      Sync(logIndex, op, key, value, expiresAt)
    }

    constructor ()
      ensures Value() == Sync(0, 0, [], [], 0)
    {
      logIndex, op, key, value, expiresAt := 0, 0, [], [], 0;
    }

    method WriteHeader(buf: array<byte>)
      requires buf.Length >= SYNC_HEADER
      modifies buf
      ensures buf[..SYNC_HEADER] == SyncHeader(Value())
    {
      WriteAt(buf, 0, Put64(logIndex));
      assert buf[..8] == Put64(logIndex);
      WriteAt(buf, 8, [op]);
      WriteAt(buf, 9, Put16(|key|));
      WriteAt(buf, 11, Put32(|value|));
      WriteAt(buf, 15, Put64(expiresAt));
    }

    method Encode() returns (buf: array<byte>)
      ensures fresh(buf) && buf[..] == SyncBytes(Value())
    {
      buf := new byte[SYNC_HEADER + |key| + |value|];
      WriteHeader(buf);
      WriteAt(buf, SYNC_HEADER, key);
      WriteAt(buf, SYNC_HEADER + |key|, value);
      assert buf[..SYNC_HEADER + |key| + |value|] == buf[..];
    }

    /** A refused payload may leave the header fields assigned; the source's callers drop the message. */
    method Decode(data: seq<byte>) returns (ok: bool)
      modifies this
      ensures ok <==> DecodeSync(data).Ok?
      ensures ok ==> Value() == DecodeSync(data).msg
    {
      if |data| < SYNC_HEADER {
        return false;
      }
      logIndex := Get64(data[0..8]);
      op := data[8];
      var keyLen := Get16(data[9..11]);
      var valLen := Get32(data[11..15]);
      expiresAt := Get64(data[15..23]);
      if |data| < SYNC_HEADER + keyLen + valLen {
        return false;
      }
      key := data[23..23 + keyLen];
      value := data[23 + keyLen..23 + keyLen + valLen];
      return true;
    }
  }

  predicate SyncFits(m: Sync) {
    |m.key| < TWO16 && |m.value| < TWO32
  }

  lemma SyncHeaderSlices(m: Sync, h: seq<byte>)
    requires h == SyncHeader(m)
    ensures h[0..8] == Put64(m.logIndex) && h[8] == m.op && h[9..11] == Put16(|m.key|)
    ensures h[11..15] == Put32(|m.value|) && h[15..23] == Put64(m.expiresAt)
  {
  }

  lemma SyncHeaderFields(m: Sync, h: seq<byte>)
    requires h == SyncHeader(m)
    ensures Get64(h[0..8]) == m.logIndex && h[8] == m.op && Get64(h[15..23]) == m.expiresAt
    ensures SyncKeyLen(h) == |m.key| % TWO16 && SyncValueLen(h) == |m.value| % TWO32
    ensures SyncFits(m) ==> SyncKeyLen(h) == |m.key| && SyncValueLen(h) == |m.value|
  {
    SyncHeaderSlices(m, h);
    Put64Get64(m.logIndex);
    Put16Get16(|m.key|);
    Put32Get32(|m.value|);
    Put64Get64(m.expiresAt);
  }

  lemma SyncPartsComeBack(h: seq<byte>, m: Sync, rest: seq<byte>)
    requires |h| == SYNC_HEADER && SyncKeyLen(h) == |m.key| && SyncValueLen(h) == |m.value|
    requires Get64(h[0..8]) == m.logIndex && h[8] == m.op && Get64(h[15..23]) == m.expiresAt
    ensures DecodeSync(h + m.key + m.value + rest) == Ok(m)
  {
    var s := h + m.key + m.value + rest;
    Slices(h, m.key, m.value, rest, s);
    assert s[0..8] == h[0..8] && s[8] == h[8] && s[9..11] == h[9..11] && s[11..15] == h[11..15] && s[15..23] == h[15..23];
  }

  lemma SyncLengthsShow(h: seq<byte>, tail: seq<byte>)
    requires |h| == SYNC_HEADER
    ensures var d := DecodeSync(h + tail);
            && (d.Ok? ==> |d.msg.key| == SyncKeyLen(h) && |d.msg.value| == SyncValueLen(h))
            && (|tail| < SyncKeyLen(h) + SyncValueLen(h) ==> d == TooShort)
  {
    var s := h + tail;
    assert s[9..11] == h[9..11] && s[11..15] == h[11..15];
  }

  /** A replication message comes back whatever follows it, exactly when key and value fit their length fields. */
  lemma SyncRoundTrip(m: Sync, rest: seq<byte>)
    ensures DecodeSync(SyncBytes(m) + rest) == Ok(m) <==> SyncFits(m)
  {
    var h := SyncHeader(m);
    SyncHeaderFields(m, h);
    if SyncFits(m) {
      SyncPartsComeBack(h, m, rest);
    } else {
      SyncLengthsShow(h, m.key + m.value + rest);
      assert SyncBytes(m) + rest == h + (m.key + m.value + rest);
    }
  }

  /** Every strict prefix of a replication message is refused. */
  lemma SyncPrefixRefused(m: Sync, n: nat)
    requires SyncFits(m) && n < |SyncBytes(m)|
    ensures DecodeSync(SyncBytes(m)[..n]) == TooShort
  {
    var h := SyncHeader(m);
    SyncHeaderFields(m, h);
    if n >= SYNC_HEADER {
      var tail := (m.key + m.value)[..n - SYNC_HEADER];
      assert SyncBytes(m) == h + (m.key + m.value);
      assert SyncBytes(m)[..n] == h + tail;
      SyncLengthsShow(h, tail);
    }
  }

  // ---------- SetRequest ----------

  const SET_HEADER := 14

  datatype SetMsg = SetMsg(key: seq<byte>, value: seq<byte>, ttl: uint64)

  function SetHeader(m: SetMsg): (h: seq<byte>)
    ensures |h| == SET_HEADER
  {
    Put16(|m.key|) + Put32(|m.value|) + Put64(m.ttl)
  }

  function SetBytes(m: SetMsg): seq<byte> {
    SetHeader(m) + m.key + m.value
  }

  function SetKeyLen(s: seq<byte>): (k: nat)
    requires |s| >= SET_HEADER
    ensures k < TWO16
  {
    Get16(s[0..2])
  }

  function SetValueLen(s: seq<byte>): nat
    requires |s| >= SET_HEADER
  {
    Get32(s[2..6])
  }

  /** Where the source ends the key: it adds 14 to the key length in 16 bits. */
  function KeyEnd(keyLen: nat): (end: nat)
    requires keyLen < TWO16
    ensures end >= SET_HEADER <==> keyLen <= MAX_SET_KEY
    ensures end >= SET_HEADER ==> end == SET_HEADER + keyLen
  {
    (SET_HEADER + keyLen) % TWO16
  }

  /** The longest key before that sum wraps: 65521 bytes. */
  const MAX_SET_KEY := TWO16 - 1 - SET_HEADER

  /** When the sum wraps, the slice of the key ends before it starts, and the source panics. */
  function DecodeSet(s: seq<byte>): Decoded<SetMsg> {
    if |s| < SET_HEADER then TooShort
    else
      var k, v := SetKeyLen(s), SetValueLen(s);
      if |s| < SET_HEADER + k + v then TooShort
      else
        var end := KeyEnd(k);
        if end < SET_HEADER then Panic
        else Ok(SetMsg(s[SET_HEADER..end], s[end..SET_HEADER + k + v], Get64(s[6..14])))
  }

  class SetRequest {
    var key: seq<byte>
    var value: seq<byte>
    var ttl: uint64

    ghost function Value(): SetMsg
      reads this
    {
      SetMsg(key, value, ttl)
    }

    constructor ()
      ensures Value() == SetMsg([], [], 0)
    {
      key, value, ttl := [], [], 0;
    }

    method Encode() returns (buf: array<byte>)
      ensures fresh(buf) && buf[..] == SetBytes(Value())
    {
      buf := new byte[SET_HEADER + |key| + |value|];
      WriteAt(buf, 0, Put16(|key|));
      assert buf[..2] == Put16(|key|);
      WriteAt(buf, 2, Put32(|value|));
      WriteAt(buf, 6, Put64(ttl));
      WriteAt(buf, SET_HEADER, key);
      WriteAt(buf, SET_HEADER + |key|, value);
      assert buf[..SET_HEADER + |key| + |value|] == buf[..];
    }

    /** `panics`: the source would stop here with a slice error. */
    method Decode(data: seq<byte>) returns (ok: bool, panics: bool)
      modifies this
      ensures ok <==> DecodeSet(data).Ok?
      ensures panics <==> DecodeSet(data).Panic?
      ensures ok ==> Value() == DecodeSet(data).msg
    {
      if |data| < SET_HEADER {
        return false, false;
      }
      var keyLen := Get16(data[0..2]);
      var valLen := Get32(data[2..6]);
      ttl := Get64(data[6..14]);
      if |data| < SET_HEADER + keyLen + valLen {
        return false, false;
      }
      var end := (14 + keyLen) % TWO16;
      if end < 14 {
        return false, true;
      }
      key := data[14..end];
      value := data[end..14 + keyLen + valLen];
      return true, false;
    }
  }

  predicate SetFits(m: SetMsg) {
    |m.key| <= 65521 && |m.value| < TWO32
  }

  lemma SetHeaderFields(m: SetMsg, h: seq<byte>)
    requires h == SetHeader(m)
    ensures SetKeyLen(h) == |m.key| % TWO16 && SetValueLen(h) == |m.value| % TWO32 && Get64(h[6..14]) == m.ttl
    ensures |m.key| < TWO16 ==> SetKeyLen(h) == |m.key|
    ensures |m.value| < TWO32 ==> SetValueLen(h) == |m.value|
  {
    assert h[0..2] == Put16(|m.key|) && h[2..6] == Put32(|m.value|) && h[6..14] == Put64(m.ttl);
    Put16Get16(|m.key|);
    Put32Get32(|m.value|);
    Put64Get64(m.ttl);
  }

  lemma SetPartsComeBack(h: seq<byte>, m: SetMsg, rest: seq<byte>)
    requires |h| == SET_HEADER && SetKeyLen(h) == |m.key| && SetValueLen(h) == |m.value| && Get64(h[6..14]) == m.ttl
    ensures DecodeSet(h + m.key + m.value + rest) == if |m.key| <= MAX_SET_KEY then Ok(m) else Panic
  {
    var s := h + m.key + m.value + rest;
    Slices(h, m.key, m.value, rest, s);
    assert s[0..2] == h[0..2] && s[2..6] == h[2..6] && s[6..14] == h[6..14];
  }

  lemma SetLengthsShow(h: seq<byte>, tail: seq<byte>)
    requires |h| == SET_HEADER
    ensures var d := DecodeSet(h + tail);
            && (d.Ok? ==> |d.msg.key| == SetKeyLen(h) && |d.msg.value| == SetValueLen(h))
            && (|tail| < SetKeyLen(h) + SetValueLen(h) ==> d == TooShort)
  {
    var s := h + tail;
    assert s[0..2] == h[0..2] && s[2..6] == h[2..6];
  }

  /** A SET request comes back whatever follows it, exactly when its value fits
      the length field and its key has at most 65521 bytes. */
  lemma SetRoundTrip(m: SetMsg, rest: seq<byte>)
    ensures DecodeSet(SetBytes(m) + rest) == Ok(m) <==> SetFits(m)
  {
    var h := SetHeader(m);
    SetHeaderFields(m, h);
    if |m.key| < TWO16 && |m.value| < TWO32 {
      SetPartsComeBack(h, m, rest);
    } else {
      SetLengthsShow(h, m.key + m.value + rest);
      assert SetBytes(m) + rest == h + (m.key + m.value + rest);
    }
  }

  /** A key that fits its length field but is longer than 65521 bytes stops the decoder with a panic. */
  lemma SetPanicsOnLongKeys(m: SetMsg, rest: seq<byte>)
    requires |m.key| < TWO16 && |m.value| < TWO32
    ensures DecodeSet(SetBytes(m) + rest) == Panic <==> |m.key| > MAX_SET_KEY
  {
    SetHeaderFields(m, SetHeader(m));
    SetPartsComeBack(SetHeader(m), m, rest);
  }

  /** Every strict prefix of a SET request is refused, long keys included. */
  lemma SetPrefixRefused(m: SetMsg, n: nat)
    requires |m.key| < TWO16 && |m.value| < TWO32 && n < |SetBytes(m)|
    ensures DecodeSet(SetBytes(m)[..n]) == TooShort
  {
    var h := SetHeader(m);
    SetHeaderFields(m, h);
    if n >= SET_HEADER {
      var tail := (m.key + m.value)[..n - SET_HEADER];
      assert SetBytes(m) == h + (m.key + m.value);
      assert SetBytes(m)[..n] == h + tail;
      SetLengthsShow(h, tail);
    }
  }
}
