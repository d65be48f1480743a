/** Length-prefixed frames and the message registry (protocol/frame.go,
    protocol/message.go), and what a reader that skips undecodable frames sees of
    a stream (the loop in cluster/follower.go). */
module Frames {
  import opened Bytes
  import opened Messages
  import Reader

  const FRAME_HEADER := 4
  const OP_REPLICATION_SYNC: byte := 0x20

  // ---------- Messages ----------

  datatype Verdict = Accepts | Refuses | Panics

  /** How the other message types behave: the decoder registered for an opcode
      accepts, refuses or panics on a payload. An unknown opcode is refused. */
  type Registry = (byte, seq<byte>) -> Verdict

  datatype Message = Replicate(sync: Sync) | Other(opcode: byte)

  datatype Parsed = Parsed(msg: Message) | Malformed | Crash

  function Wire(opcode: byte, payload: seq<byte>): seq<byte> {
    [opcode] + payload
  }

  function Parse(reg: Registry, data: seq<byte>): Parsed {
    if |data| < 1 then Malformed
    else if data[0] == OP_REPLICATION_SYNC then
      var d := DecodeSync(data[1..]);
      if d.Ok? then Parsed(Replicate(d.msg)) else Malformed
    else
      match reg(data[0], data[1..])
      case Accepts => Parsed(Other(data[0]))
      case Refuses => Malformed
      case Panics => Crash
  }

  /** A replication message comes back through the registry exactly when it fits its length fields. */
  lemma SyncParses(reg: Registry, m: Sync)
    ensures Parse(reg, Wire(OP_REPLICATION_SYNC, SyncBytes(m))) == Parsed(Replicate(m)) <==> SyncFits(m)
  {
    SyncRoundTrip(m, []);
    assert SyncBytes(m) + [] == SyncBytes(m);
    assert Wire(OP_REPLICATION_SYNC, SyncBytes(m))[1..] == SyncBytes(m);
  }

  /** What a message's own Encode gave. */
  datatype Encoding = Payload(bytes: seq<byte>) | EncodeError

  method EncodeMessage(opcode: byte, encoding: Encoding) returns (ok: bool, wire: array<byte>)
    ensures fresh(wire) && ok == encoding.Payload?
    ensures ok ==> wire[..] == Wire(opcode, encoding.bytes)
  {
    if encoding.EncodeError? {
      wire := new byte[0];
      return false, wire;
    }
    wire := new byte[1 + |encoding.bytes|];
    WriteAt(wire, 0, [opcode]);
    WriteAt(wire, 1, encoding.bytes);
    assert wire[..] == wire[..1 + |encoding.bytes|];
    return true, wire;
  }

  // ---------- Frames ----------

  function Frame(wire: seq<byte>): seq<byte> {
    Put32(|wire|) + wire
  }

  method EncodeFrame(opcode: byte, encoding: Encoding) returns (ok: bool, frame: array<byte>)
    ensures fresh(frame) && ok == encoding.Payload?
    ensures ok ==> frame[..] == Frame(Wire(opcode, encoding.bytes))
  {
    var wire;
    ok, wire := EncodeMessage(opcode, encoding);
    if !ok {
      return false, wire;
    }
    frame := new byte[FRAME_HEADER + wire.Length];
    WriteAt(frame, 0, Put32(wire.Length));
    assert frame[..FRAME_HEADER] == Put32(wire.Length);
    WriteAt(frame, FRAME_HEADER, wire[..]);
    assert frame[..] == frame[..FRAME_HEADER + wire.Length];
  }

  datatype Taken = Body(body: seq<byte>, rest: seq<byte>) | TooLarge(rest: seq<byte>) | Broken(status: Reader.Status)

  /** One frame off the front of a stream; `maxLen` 0 means no limit. */
  function Take(s: seq<byte>, maxLen: nat): Taken {
    if |s| < FRAME_HEADER then Broken(Reader.FullStatus(|s|, FRAME_HEADER))
    else
      var n := Get32(s[..FRAME_HEADER]);
      if 0 < maxLen < n then TooLarge(s[FRAME_HEADER..])
      else if |s| - FRAME_HEADER < n then Broken(Reader.FullStatus(|s| - FRAME_HEADER, n))
      else Body(s[FRAME_HEADER..FRAME_HEADER + n], s[FRAME_HEADER + n..])
  }

  datatype FrameResult = Read(parsed: Parsed) | Oversize | IoError(status: Reader.Status)

  function ResultOf(reg: Registry, t: Taken): FrameResult {
    match t
    case Body(b, _) => Read(Parse(reg, b))
    case TooLarge(_) => Oversize
    case Broken(st) => IoError(st)
  }

  function RestOf(t: Taken): seq<byte> {
    if t.Broken? then [] else t.rest
  }

  method ReadFrame(r: Reader.Stream, maxLen: nat, reg: Registry) returns (res: FrameResult)
    requires r.Valid()
    modifies r`pos
    ensures r.Valid()
    ensures res == ResultOf(reg, Take(old(r.Rest()), maxLen))
    ensures r.Rest() == RestOf(Take(old(r.Rest()), maxLen))
  {
    var status, header := r.ReadFull(FRAME_HEADER);
    if status != Reader.Ok {
      return IoError(status);
    }
    var msgLen := Get32(header);
    if maxLen > 0 && msgLen > maxLen {
      return Oversize;
    }
    var body;
    status, body := r.ReadFull(msgLen);
    if status != Reader.Ok {
      return IoError(status);
    }
    ghost var s := old(r.Rest());
    assert s[FRAME_HEADER..][..msgLen] == s[FRAME_HEADER..FRAME_HEADER + msgLen];
    return Read(Parse(reg, body));
  }

  lemma HeaderShows(wire: seq<byte>, rest: seq<byte>)
    ensures var s := Frame(wire) + rest;
            && s[..FRAME_HEADER] == Put32(|wire|) && s[FRAME_HEADER..] == wire + rest
            && Get32(s[..FRAME_HEADER]) == |wire| % TWO32
            && (|wire| < TWO32 ==> Get32(s[..FRAME_HEADER]) == |wire|)
  {
    var s := Frame(wire) + rest;
    assert s[..FRAME_HEADER] == Put32(|wire|);
    Put32Get32(|wire|);
  }

  /** Reading consumes exactly the frame that was written, whatever follows it,
      if and only if its length fits the 4-byte header. */
  lemma FrameRoundTrip(wire: seq<byte>, rest: seq<byte>)
    ensures Take(Frame(wire) + rest, 0) == Body(wire, rest) <==> |wire| < TWO32
  {
    HeaderShows(wire, rest);
    var s := Frame(wire) + rest;
    if |wire| < TWO32 {
      assert s[FRAME_HEADER..][..|wire|] == s[FRAME_HEADER..FRAME_HEADER + |wire|];
    }
  }

  /** With a limit, a larger frame is refused and its body is left in the stream. */
  lemma FrameLimit(wire: seq<byte>, rest: seq<byte>, maxLen: nat)
    requires |wire| < TWO32
    ensures Take(Frame(wire) + rest, maxLen) == if 0 < maxLen < |wire| then TooLarge(wire + rest) else Body(wire, rest)
  {
    HeaderShows(wire, rest);
    FrameRoundTrip(wire, rest);
  }

  /** What a reader is told when the stream ends `n` bytes into a frame: an end
      right after the header looks like a clean end. */
  function CutStatus(n: int): Reader.Status {
    if n == 0 || n == FRAME_HEADER then Reader.Eof else Reader.UnexpectedEof
  }

  lemma CutFrame(wire: seq<byte>, n: nat)
    requires |wire| < TWO32 && n < |Frame(wire)|
    ensures Take(Frame(wire)[..n], 0) == Broken(CutStatus(n))
  {
    var s := Frame(wire)[..n];
    if n >= FRAME_HEADER {
      HeaderShows(wire, []);
      assert Frame(wire) + [] == Frame(wire);
      assert s[..FRAME_HEADER] == Put32(|wire|);
    }
  }

  // ---------- Whole streams ----------

  datatype End = Open | Closed(status: Reader.Status) | Crashed

  datatype Seen = Seen(syncs: seq<Sync>, end: End)

  function Prepend(ms: seq<Sync>, seen: Seen): Seen {
    Seen(ms + seen.syncs, seen.end)
  }

  /** What the follower's loop applies: one frame at a time, skipping malformed
      frames and other messages, until the stream ends. */
  function Follow(reg: Registry, s: seq<byte>): Seen
    decreases |s|
  {
    match Take(s, 0)
    case Broken(status) => Seen([], Closed(status))
    case TooLarge(_) => Seen([], Crashed)  // not without a limit
    case Body(b, rest) =>
      match Parse(reg, b)
      case Crash => Seen([], Crashed)
      case Malformed => Follow(reg, rest)
      case Parsed(Other(_)) => Follow(reg, rest)
      case Parsed(Replicate(m)) => Prepend([m], Follow(reg, rest))
  }

  /** One pass of the loop, in terms of the frame it reads. */
  lemma FollowStep(reg: Registry, s: seq<byte>)
    ensures var t := Take(s, 0);
            match ResultOf(reg, t)
            case IoError(status) => Follow(reg, s) == Seen([], Closed(status))
            case Oversize => false
            case Read(Crash) => Follow(reg, s) == Seen([], Crashed)
            case Read(Parsed(Replicate(m))) =>
              |RestOf(t)| < |s| && Follow(reg, s) == Prepend([m], Follow(reg, RestOf(t)))
            case Read(_) =>
              |RestOf(t)| < |s| && Follow(reg, s) == Prepend([], Follow(reg, RestOf(t)))
  {
    assert forall ms: seq<Sync> :: [] + ms == ms;
  }

  function FramesOf(bodies: seq<seq<byte>>): (fs: seq<seq<byte>>)
    ensures |fs| == |bodies|
  {
    seq(|bodies|, i requires 0 <= i < |bodies| => Frame(bodies[i]))
  }

  /** The replication message in a frame body, if it holds one. */
  function SyncIn(reg: Registry, body: seq<byte>): seq<Sync> {
    var p := Parse(reg, body);
    if p.Parsed? && p.msg.Replicate? then [p.msg.sync] else []
  }

  /** The replication messages among frame bodies, in order. */
  function SyncsOf(reg: Registry, bodies: seq<seq<byte>>): seq<Sync> {
    if bodies == [] then [] else SyncIn(reg, bodies[0]) + SyncsOf(reg, bodies[1..])
  }

  /** A body that frames can carry and that no decoder panics on. */
  predicate Carried(reg: Registry, body: seq<byte>) {
    |body| < TWO32 && Parse(reg, body) != Crash
  }

  predicate AllCarried(reg: Registry, bodies: seq<seq<byte>>) {
    forall i :: 0 <= i < |bodies| ==> Carried(reg, bodies[i])
  }

  lemma FramesOfCons(bodies: seq<seq<byte>>, k: nat)
    requires bodies != [] && k < |bodies|
    ensures FramesOf(bodies)[0] == Frame(bodies[0])
    ensures FramesOf(bodies)[1..] == FramesOf(bodies[1..])
    ensures FramesOf(bodies)[..k + 1] == [Frame(bodies[0])] + FramesOf(bodies[1..])[..k]
    ensures bodies[..k + 1][1..] == bodies[1..][..k]
  {
  }

  /** One frame read leaves the rest of the stream to be followed. */
  lemma FollowOne(reg: Registry, body: seq<byte>, rest: seq<byte>)
    requires Carried(reg, body)
    ensures Follow(reg, Frame(body) + rest) == Prepend(SyncIn(reg, body), Follow(reg, rest))
  {
    FrameRoundTrip(body, rest);
  }

  /** Every frame, decodable or not, is consumed whole: the loop applies exactly the
      replication messages among them, in order, and goes on with what follows. */
  lemma {:induction false} FollowPast(reg: Registry, bodies: seq<seq<byte>>, rest: seq<byte>)
    requires AllCarried(reg, bodies)
    ensures Follow(reg, Flatten(FramesOf(bodies)) + rest) == Prepend(SyncsOf(reg, bodies), Follow(reg, rest))
  {
    if bodies == [] {
      assert Flatten(FramesOf(bodies)) + rest == rest;
    } else {
      FramesOfCons(bodies, 0);
      var tail := Flatten(FramesOf(bodies[1..]));
      Concat3(Frame(bodies[0]), tail, rest);
      FollowOne(reg, bodies[0], tail + rest);
      FollowPast(reg, bodies[1..], rest);
      PrependTwice(SyncIn(reg, bodies[0]), SyncsOf(reg, bodies[1..]), Follow(reg, rest));
    }
  }

  lemma PrependTwice(a: seq<Sync>, b: seq<Sync>, seen: Seen)
    ensures Prepend(a, Prepend(b, seen)) == Prepend(a + b, seen)
  {
    Concat3(a, b, seen.syncs);
  }

  /** How many bytes the first `k` frames take. */
  function WholeLen(bodies: seq<seq<byte>>, k: nat): nat
    requires k <= |bodies|
  {
    |Flatten(FramesOf(bodies[..k]))|
  }

  /** The same for a stream cut anywhere: the messages of the whole frames, then
      the end of the stream. */
  lemma FollowPrefix(reg: Registry, bodies: seq<seq<byte>>, n: nat)
    requires AllCarried(reg, bodies) && n <= |Flatten(FramesOf(bodies))|
    ensures var k := Fit(FramesOf(bodies), n);
            && Follow(reg, Flatten(FramesOf(bodies))[..n]) ==
               Seen(SyncsOf(reg, bodies[..k]), Closed(CutStatus(n - WholeLen(bodies, k))))
            && WholeLen(bodies, k) <= n && (k < |bodies| ==> n < WholeLen(bodies, k) + |Frame(bodies[k])|)
  {
    var all, k := Flatten(FramesOf(bodies)), Fit(FramesOf(bodies), n);
    var cut := CutStream(bodies, n, k, all);
    FollowUpTo(reg, bodies, k, cut, all[..n]);
  }

  /** The first `n` bytes are whole frames and a part of the next one. */
  lemma CutStream(bodies: seq<seq<byte>>, n: nat, k: nat, all: seq<byte>) returns (cut: seq<byte>)
    requires all == Flatten(FramesOf(bodies)) && n <= |all| && k == Fit(FramesOf(bodies), n)
    ensures IsPart(bodies, k, cut) && |cut| == n - WholeLen(bodies, k)
    ensures all[..n] == Flatten(FramesOf(bodies[..k])) + cut
  {
    var fs := FramesOf(bodies);
    FitIsExact(fs, n);
    assert fs[..k] == FramesOf(bodies[..k]);
    assert fs == fs[..k] + fs[k..];
    FlattenAppend(fs[..k], fs[k..]);
    if k < |bodies| {
      assert fs[..k + 1] == fs[..k] + [fs[k]];
      FlattenAppend(fs[..k], [fs[k]]);
      FlattenOne(fs[k]);
    }
    TakePastFirst(Flatten(fs[..k]), Flatten(fs[k..]), n);
    cut := Flatten(fs[k..])[..n - WholeLen(bodies, k)];
    PartOfNext(bodies, k, |cut|);
  }

  /** A proper beginning of frame `k`, or nothing behind the last frame. */
  ghost predicate IsPart(bodies: seq<seq<byte>>, k: nat, cut: seq<byte>)
    requires k <= |bodies|
  {
    if k < |bodies| then |cut| < |Frame(bodies[k])| && cut == Frame(bodies[k])[..|cut|] else cut == []
  }

  lemma PartOfNext(bodies: seq<seq<byte>>, k: nat, n: nat)
    requires k <= |bodies| && n <= |Flatten(FramesOf(bodies)[k..])| && (k < |bodies| ==> n < |Frame(bodies[k])|)
    ensures IsPart(bodies, k, Flatten(FramesOf(bodies)[k..])[..n])
  {
  }

  lemma FollowUpTo(reg: Registry, bodies: seq<seq<byte>>, k: nat, cut: seq<byte>, s: seq<byte>)
    requires AllCarried(reg, bodies) && k <= |bodies| && IsPart(bodies, k, cut)
    requires s == Flatten(FramesOf(bodies[..k])) + cut
    ensures Follow(reg, s) == Seen(SyncsOf(reg, bodies[..k]), Closed(CutStatus(|cut|)))
  {
    FollowPast(reg, bodies[..k], cut);
    FollowPart(reg, bodies, k, cut);
    assert SyncsOf(reg, bodies[..k]) + [] == SyncsOf(reg, bodies[..k]);
  }

  lemma FollowPart(reg: Registry, bodies: seq<seq<byte>>, k: nat, cut: seq<byte>)
    requires AllCarried(reg, bodies) && k <= |bodies| && IsPart(bodies, k, cut)
    ensures Follow(reg, cut) == Seen([], Closed(CutStatus(|cut|)))
  {
    if k < |bodies| {
      assert Carried(reg, bodies[k]);
      CutFrame(bodies[k], |cut|);
    }
  }

  /** A body some decoder panics on stops the follower there. */
  lemma FollowStopsAtCrash(reg: Registry, bodies: seq<seq<byte>>, bad: seq<byte>, rest: seq<byte>)
    requires AllCarried(reg, bodies) && |bad| < TWO32 && Parse(reg, bad) == Crash
    ensures Follow(reg, Flatten(FramesOf(bodies)) + (Frame(bad) + rest)) == Seen(SyncsOf(reg, bodies), Crashed)
  {
    FollowPast(reg, bodies, Frame(bad) + rest);
    FrameRoundTrip(bad, rest);
  }
}
