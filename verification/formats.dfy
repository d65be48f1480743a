/** The formats byte by byte: where each field of a log record, a set request and
    a framed replication message stands, and that its bytes are most significant
    first. Offsets and opcodes are written out here as the other end expects them. */
module Formats {
  import opened Bytes
  import opened WalRecord
  import opened Messages
  import opened Frames
  import opened Entries
  import opened Store
  import opened Replication

  // ---------- Byte order ----------

  /** The number that `s` spells, most significant byte first. */
  function BigEndian(s: seq<byte>): nat {
    if s == [] then 0 else s[0] * Pow256(|s| - 1) + BigEndian(s[1..])
  }

  lemma {:induction false} BigEndianSnoc(s: seq<byte>, b: byte)
    ensures BigEndian(s + [b]) == BigEndian(s) * 256 + b
  {
    if s != [] {
      BigEndianSnoc(s[1..], b);
      assert (s + [b])[1..] == s[1..] + [b];
      assert s[0] * Pow256(|s|) == s[0] * Pow256(|s| - 1) * 256;
    } else {
      assert s + [b] == [b];
      assert [b][1..] == [];
    }
  }

  lemma {:induction false} GetIsBigEndian(s: seq<byte>)
    ensures Get(s) == BigEndian(s)
  {
    if s != [] {
      var k := |s| - 1;
      GetIsBigEndian(s[..k]);
      BigEndianSnoc(s[..k], s[k]);
      assert s == s[..k] + [s[k]];
    }
  }

  /** A field spells the number put into it, cut to the field's width. */
  lemma FieldSpells(n: nat, w: nat)
    ensures BigEndian(Put(n, w)) == n % Pow256(w)
  {
    GetPut(n, w);
    GetIsBigEndian(Put(n, w));
  }

  lemma FieldsSpell(k: nat, v: nat)
    ensures BigEndian(Put16(k)) == k % 0x1_0000 && BigEndian(Put32(v)) == v % 0x1_0000_0000
  {
    FieldSpells(k, 2);
    FieldSpells(v, 4);
    Widths();
  }

  lemma LongFieldSpells(n: nat)
    requires n < 0x1_0000_0000_0000_0000
    ensures BigEndian(Put64(n)) == n
  {
    FieldSpells(n, 8);
    Widths();
    SmallMod(n, TWO64);
  }

  // ---------- Layouts ----------

  lemma TailsFollow<T>(h: seq<T>, key: seq<T>, value: seq<T>)
    ensures var s := h + key + value;
            && |s| == |h| + |key| + |value| && s[..|h|] == h
            && s[|h|..|h| + |key|] == key && s[|h| + |key|..] == value
  {
  }

  lemma SliceOfFront<T>(s: seq<T>, n: nat, i: nat, j: nat)
    requires i <= j <= n <= |s|
    ensures s[i..j] == s[..n][i..j]
  {
  }

  /** A log record: operation, key length, value length, expiry, key, value. */
  lemma LogLayout(r: Record)
    ensures var s := Encode(r);
            && |s| == 15 + |r.key| + |r.value|
            && s[0] == r.op
            && BigEndian(s[1..3]) == |r.key| % 0x1_0000
            && BigEndian(s[3..7]) == |r.value| % 0x1_0000_0000
            && BigEndian(s[7..15]) == (if r.op == 1 then r.expiresAt % 0x1_0000_0000_0000_0000 else 0)
            && s[15..15 + |r.key|] == r.key && s[15 + |r.key|..] == r.value
  {
    var h := Header(r);
    TailsFollow(h, r.key, r.value);
    HeaderSlices(r, h);
    var s := Encode(r);
    SliceOfFront(s, 15, 1, 3);
    SliceOfFront(s, 15, 3, 7);
    SliceOfFront(s, 15, 7, 15);
    assert s[0] == s[..15][0];
    FieldsSpell(|r.key|, |r.value|);
    LongFieldSpells(ExpiryField(r));
  }

  /** A set request: key length, value length, TTL, key, value. */
  lemma SetLayout(m: SetMsg)
    ensures var s := SetBytes(m);
            && |s| == 14 + |m.key| + |m.value|
            && BigEndian(s[0..2]) == |m.key| % 0x1_0000
            && BigEndian(s[2..6]) == |m.value| % 0x1_0000_0000
            && BigEndian(s[6..14]) == m.ttl
            && s[14..14 + |m.key|] == m.key && s[14 + |m.key|..] == m.value
  {
    var h := SetHeader(m);
    TailsFollow(h, m.key, m.value);
    var s := SetBytes(m);
    assert h[0..2] == Put16(|m.key|) && h[2..6] == Put32(|m.value|) && h[6..14] == Put64(m.ttl);
    SliceOfFront(s, 14, 0, 2);
    SliceOfFront(s, 14, 2, 6);
    SliceOfFront(s, 14, 6, 14);
    FieldsSpell(|m.key|, |m.value|);
    LongFieldSpells(m.ttl);
  }

  /** The payload of a replication message: index, operation, key length, value
      length, expiry, key, value. */
  lemma SyncLayout(m: Sync)
    ensures var s := SyncBytes(m);
            && |s| == 23 + |m.key| + |m.value|
            && BigEndian(s[0..8]) == m.logIndex && s[8] == m.op
            && BigEndian(s[9..11]) == |m.key| % 0x1_0000
            && BigEndian(s[11..15]) == |m.value| % 0x1_0000_0000
            && BigEndian(s[15..23]) == m.expiresAt
            && s[23..23 + |m.key|] == m.key && s[23 + |m.key|..] == m.value
  {
    var h := SyncHeader(m);
    TailsFollow(h, m.key, m.value);
    SyncHeaderSlices(m, h);
    var s := SyncBytes(m);
    SliceOfFront(s, 23, 0, 8);
    SliceOfFront(s, 23, 9, 11);
    SliceOfFront(s, 23, 11, 15);
    SliceOfFront(s, 23, 15, 23);
    assert s[8] == s[..23][8];
    FieldsSpell(|m.key|, |m.value|);
    LongFieldSpells(m.logIndex);
    LongFieldSpells(m.expiresAt);
  }

  lemma FrameParts(body: seq<byte>)
    ensures |Frame(body)| == 4 + |body| && BigEndian(Frame(body)[0..4]) == |body| % 0x1_0000_0000 && Frame(body)[4..] == body
  {
    FieldsSpell(0, |body|);
    assert Frame(body)[0..4] == Put32(|body|);
  }

  /** On the connection: the length of what follows, opcode 0x20, and the payload. */
  lemma FrameLayout(m: Sync)
    ensures var s := SyncFrame(m);
            && |s| == 28 + |m.key| + |m.value|
            && BigEndian(s[0..4]) == (24 + |m.key| + |m.value|) % 0x1_0000_0000
            && s[4] == 0x20 && s[5..] == SyncBytes(m)
  {
    var body := Wire(OP_REPLICATION_SYNC, SyncBytes(m));
    FrameParts(body);
    assert SyncFrame(m)[4..][0] == 0x20 && SyncFrame(m)[4..][1..] == SyncBytes(m);
  }

  /** The operations of a set and of a delete, in the log and between nodes. */
  lemma OpcodesOnTheWire(index: uint64, key: Key, e: Entry)
    ensures Encode(SetRecord(key, e))[0] == 1 && Encode(DeleteRecord(key))[0] == 2
    ensures SyncBytes(SetSync(index, key, e))[8] == 1 && SyncBytes(DeleteSync(index, key))[8] == 2
  {
    LogLayout(SetRecord(key, e));
    LogLayout(DeleteRecord(key));
    SyncLayout(SetSync(index, key, e));
    SyncLayout(DeleteSync(index, key));
  }
}
