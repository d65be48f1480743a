/** The cluster map: how a node answers a topology request (cluster/node.go) and
    the variable-length message that carries the answer
    (protocol/client/topology_protocol_response.go). */
module Topologies {
  import opened Bytes
  import opened Messages
  import RaftNode
  import Cluster

  const ROLE_FOLLOWER: byte := 0
  const ROLE_LEADER: byte := 1

  /** `S` is how strings are represented: addresses in the cluster, bytes on the wire. */
  datatype NodeInfo<S> = NodeInfo(address: S, role: byte, nodeID: S)

  datatype Topology<S> = Topology(leaderAddr: S, nodes: seq<NodeInfo<S>>)

  // ---------- The answer ----------

  /** Role 1 is the leader's, role 0 everyone else's; the address serves as node ID. */
  ghost predicate Describes<S(!new)>(line: NodeInfo<S>, leaderAddr: S, addr: S) {
    line.address == addr && line.nodeID == addr && line.role == if addr == leaderAddr then 1 else 0
  }

  /** One line per peer, in order, marking the known leader. */
  ghost predicate Answers<S(!new)>(t: Topology<S>, leaderAddr: S, peers: seq<S>) {
    && t.leaderAddr == leaderAddr && |t.nodes| == |peers|
    && forall i :: 0 <= i < |peers| ==> Describes(t.nodes[i], leaderAddr, peers[i])
  }

  method GetTopology<S(==, !new)>(leaderAddr: S, peers: seq<S>) returns (t: Topology<S>)
    ensures Answers(t, leaderAddr, peers)
  {
    var nodes: seq<NodeInfo<S>> := [];
    for i := 0 to |peers|
      invariant |nodes| == i && forall j :: 0 <= j < i ==> Describes(nodes[j], leaderAddr, peers[j])
    {
      var role := ROLE_FOLLOWER;
      if peers[i] == leaderAddr {
        role := ROLE_LEADER;
      }
      nodes := nodes + [NodeInfo(peers[i], role, peers[i])];
    }
    return Topology(leaderAddr, nodes);
  }

  ghost predicate MarkedAt<S(!new)>(t: Topology<S>, i: nat) {
    i < |t.nodes| && t.nodes[i].role == ROLE_LEADER
  }

  /** In every reachable state of the cluster, a node that knows a leader marks
      exactly one peer as leader: one that won a term no later than the node's own.
      A node that knows none marks nobody. */
  lemma OnePeerMarked(peers: seq<RaftNode.Addr>, run: seq<Cluster.State>, j: nat, n: RaftNode.Addr,
                      t: Topology<RaftNode.Addr>)
    requires Cluster.GoodPeers(peers) && Cluster.IsRun(peers, run) && j < |run| && n in run[j].nodes
    requires Answers(t, run[j].nodes[n].view.leaderAddr, peers)
    ensures t.leaderAddr == RaftNode.NONE <==> forall i: nat :: !MarkedAt(t, i)
    ensures t.leaderAddr != RaftNode.NONE ==>
      exists i: nat :: MarkedAt(t, i) && t.nodes[i].address == t.leaderAddr
        && Cluster.Won(run[j].nodes, t.nodes[i].address, run[j].nodes[n].leaderSince)
        && forall k: nat :: MarkedAt(t, k) ==> k == i
  {
    Cluster.LeaderViewIsAWinner(peers, run, j, j, n);
    if t.leaderAddr != RaftNode.NONE {
      var i :| 0 <= i < |peers| && peers[i] == t.leaderAddr;
      assert MarkedAt(t, i);
    }
  }

  // ---------- The message ----------

  type Text = seq<byte>
  type WireTopology = Topology<Text>
  type WireNode = NodeInfo<Text>

  function Str(s: Text): seq<byte> {
    Put16(|s|) + s
  }

  function NodeBytes(n: WireNode): seq<byte> {
    Str(n.address) + [n.role] + Str(n.nodeID)
  }

  function NodesBytes(ns: seq<WireNode>): seq<byte> {
    if ns == [] then [] else NodesBytes(ns[..|ns| - 1]) + NodeBytes(ns[|ns| - 1])
  }

  function TopologyBytes(t: WireTopology): seq<byte> {
    Str(t.leaderAddr) + Put16(|t.nodes|) + NodesBytes(t.nodes)
  }

  /** What a reader takes off the front of `s`, and what it leaves. */
  datatype Got<T> = Got(v: T, rest: seq<byte>) | Short

  function TakeLen(s: seq<byte>): Got<nat> {
    if |s| < 2 then Short else Got(Get16(s[..2]), s[2..])
  }

  function TakeByte(s: seq<byte>): Got<byte> {
    if |s| < 1 then Short else Got(s[0], s[1..])
  }

  function TakeStr(s: seq<byte>): Got<Text> {
    var n := TakeLen(s);
    if n.Short? || |n.rest| < n.v then Short else Got(n.rest[..n.v], n.rest[n.v..])
  }

  function TakeNode(s: seq<byte>): Got<WireNode> {
    var addr := TakeStr(s);
    if addr.Short? then Short else
    var role := TakeByte(addr.rest);
    if role.Short? then Short else
    var id := TakeStr(role.rest);
    if id.Short? then Short else Got(NodeInfo(addr.v, role.v, id.v), id.rest)
  }

  function TakeOneMore(ns: Got<seq<WireNode>>): Got<seq<WireNode>> {
    if ns.Short? then Short else
    var n := TakeNode(ns.rest);
    if n.Short? then Short else Got(ns.v + [n.v], n.rest)
  }

  /** `count` times over, from nothing taken. */
  function TakeMany<T>(take: Got<seq<T>> -> Got<seq<T>>, s: seq<byte>, count: nat): Got<seq<T>> {
    if count == 0 then Got([], s) else take(TakeMany(take, s, count - 1))
  }

  function TakeNodes(s: seq<byte>, count: nat): Got<seq<WireNode>> {
    TakeMany(TakeOneMore, s, count)
  }

  function TakeTopology(s: seq<byte>): Got<WireTopology> {
    if |s| < 4 then Short else
    var addr := TakeStr(s);
    if addr.Short? then Short else
    var count := TakeLen(addr.rest);
    if count.Short? then Short else
    var ns := TakeNodes(count.rest, count.v);
    if ns.Short? then Short else Got(Topology(addr.v, ns.v), ns.rest)
  }

  function DecodeTopology(s: seq<byte>): Decoded<WireTopology> {
    var t := TakeTopology(s);
    if t.Short? then TooShort else Ok(t.v)
  }

  // ---------- Encoding and decoding in place ----------

  lemma NodesBytesMore(ns: seq<WireNode>, i: nat)
    requires i < |ns|
    ensures NodesBytes(ns[..i + 1]) == NodesBytes(ns[..i]) + NodeBytes(ns[i])
  {
    assert ns[..i + 1][..i] == ns[..i];
  }

  lemma {:induction false} NodesBytesGrow(ns: seq<WireNode>, i: nat)
    requires i <= |ns|
    ensures |NodesBytes(ns[..i])| <= |NodesBytes(ns)|
    decreases |ns| - i
  {
    if i == |ns| {
      assert ns[..i] == ns;
    } else {
      NodesBytesGrow(ns, i + 1);
      NodesBytesMore(ns, i);
    }
  }

  lemma {:induction false} ShortStays(s: seq<byte>, i: nat, count: nat)
    requires TakeNodes(s, i).Short? && i <= count
    ensures TakeNodes(s, count).Short?
  {
    if i < count {
      ShortStays(s, i, count - 1);
    }
  }

  /** After `i` of `count` nodes: one more is taken, or the input is too short for them all. */
  lemma TakeNodesStep(s: seq<byte>, i: nat, count: nat, ns: seq<WireNode>, rest: seq<byte>)
    requires i < count && TakeNodes(s, i) == Got(ns, rest)
    ensures TakeNode(rest).Got? ==> TakeNodes(s, i + 1) == Got(ns + [TakeNode(rest).v], TakeNode(rest).rest)
    ensures TakeNode(rest).Short? ==> TakeNodes(s, count).Short?
  {
    if TakeNode(rest).Short? {
      ShortStays(s, i + 1, count);
    }
  }

  method WriteStr(buf: array<byte>, offset: nat, s: Text) returns (next: nat)
    requires offset + |Str(s)| <= buf.Length
    modifies buf
    ensures next == offset + |Str(s)| && buf[..next] == old(buf[..offset]) + Str(s)
  {
    WriteAt(buf, offset, Put16(|s|));
    WriteAt(buf, offset + 2, s);
    Concat3(old(buf[..offset]), Put16(|s|), s);
    return offset + 2 + |s|;
  }

  method WriteNode(buf: array<byte>, offset: nat, n: WireNode) returns (next: nat)
    requires offset + |NodeBytes(n)| <= buf.Length
    modifies buf
    ensures next == offset + |NodeBytes(n)| && buf[..next] == old(buf[..offset]) + NodeBytes(n)
  {
    next := WriteStr(buf, offset, n.address);
    WriteAt(buf, next, [n.role]);
    next := WriteStr(buf, next + 1, n.nodeID);
  }

  method ReadLen(data: seq<byte>, offset: nat) returns (ok: bool, n: nat, next: nat)
    requires offset <= |data|
    ensures var g := TakeLen(data[offset..]);
            && ok == g.Got? && next <= |data| && (ok ==> n == g.v && n < TWO16 && data[next..] == g.rest)
  {
    if |data| < offset + 2 {
      return false, 0, offset;
    }
    assert data[offset..][..2] == data[offset..offset + 2];
    return true, Get16(data[offset..offset + 2]), offset + 2;
  }

  method ReadStr(data: seq<byte>, offset: nat) returns (ok: bool, s: Text, next: nat)
    requires offset <= |data|
    ensures var g := TakeStr(data[offset..]);
            && ok == g.Got? && next <= |data| && (ok ==> s == g.v && data[next..] == g.rest)
  {
    var n;
    ok, n, next := ReadLen(data, offset);
    if !ok || |data| < next + n {
      return false, [], offset;
    }
    assert data[next..][..n] == data[next..next + n];
    assert data[next..][n..] == data[next + n..];
    return true, data[next..next + n], next + n;
  }

  method ReadNode(data: seq<byte>, offset: nat) returns (ok: bool, n: WireNode, next: nat)
    requires offset <= |data|
    ensures var g := TakeNode(data[offset..]);
            && ok == g.Got? && next <= |data| && (ok ==> n == g.v && data[next..] == g.rest)
  {
    var addr, id;
    n := NodeInfo([], 0, []);
    ok, addr, next := ReadStr(data, offset);
    if !ok || |data| < next + 1 {
      return false, n, offset;
    }
    var role := data[next];
    assert data[next..][1..] == data[next + 1..];
    ok, id, next := ReadStr(data, next + 1);
    if !ok {
      return false, n, offset;
    }
    return true, NodeInfo(addr, role, id), next;
  }

  class TopologyResponse {
    var leaderAddr: Text
    var nodes: seq<WireNode>

    ghost function Value(): WireTopology
      reads this
    {
      Topology(leaderAddr, nodes)
    }

    constructor (t: WireTopology)
      ensures Value() == t
    {
      leaderAddr, nodes := t.leaderAddr, t.nodes;
    }

    method EncodedSize() returns (size: nat)
      ensures size == |TopologyBytes(Value())|
    {
      size := 2 + |leaderAddr| + 2;
      for i := 0 to |nodes|
        invariant size == 4 + |leaderAddr| + |NodesBytes(nodes[..i])|
      {
        NodesBytesMore(nodes, i);
        size := size + 2 + |nodes[i].address| + 1 + 2 + |nodes[i].nodeID|;
      }
      assert nodes[..|nodes|] == nodes;
    }

    method Encode() returns (buf: array<byte>)
      ensures fresh(buf) && buf[..] == TopologyBytes(Value())
    {
      var size := EncodedSize();
      buf := new byte[size];
      var offset := WriteStr(buf, 0, leaderAddr);
      WriteAt(buf, offset, Put16(|nodes|));
      offset := offset + 2;
      offset := EncodeNodes(buf, offset);
      assert buf[..offset] == buf[..];
    }

    method EncodeNodes(buf: array<byte>, start: nat) returns (offset: nat)
      requires start + |NodesBytes(nodes)| <= buf.Length
      modifies buf
      ensures offset == start + |NodesBytes(nodes)| && buf[..offset] == old(buf[..start]) + NodesBytes(nodes)
    {
      offset := start;
      for i := 0 to |nodes|
        invariant offset == start + |NodesBytes(nodes[..i])| <= buf.Length
        invariant buf[..offset] == old(buf[..start]) + NodesBytes(nodes[..i])
      {
        NodesBytesMore(nodes, i);
        NodesBytesGrow(nodes, i + 1);
        Concat3(old(buf[..start]), NodesBytes(nodes[..i]), NodeBytes(nodes[i]));
        offset := WriteNode(buf, offset, nodes[i]);
      }
      assert nodes[..|nodes|] == nodes;
    }

    /** A refused payload may leave some of its fields behind. */
    method Decode(data: seq<byte>) returns (ok: bool)
      modifies this
      ensures ok <==> DecodeTopology(data).Ok?
      ensures ok ==> Value() == DecodeTopology(data).msg
    {
      if |data| < 4 {
        return false;
      }
      assert data[0..] == data;
      var count, offset;
      ok, leaderAddr, offset := ReadStr(data, 0);
      if !ok {
        return;
      }
      ok, count, offset := ReadLen(data, offset);
      if !ok {
        return;
      }
      ok := DecodeNodes(data, offset, count);
    }

    method DecodeNodes(data: seq<byte>, start: nat, count: nat) returns (ok: bool)
      requires start <= |data|
      modifies this`nodes
      ensures ok <==> TakeNodes(data[start..], count).Got?
      ensures ok ==> nodes == TakeNodes(data[start..], count).v
    {
      nodes := [];
      var offset: nat := start;
      for i := 0 to count
        invariant offset <= |data| && TakeNodes(data[start..], i) == Got(nodes, data[offset..])
      {
        TakeNodesStep(data[start..], i, count, nodes, data[offset..]);
        var n;
        ok, n, offset := ReadNode(data, offset);
        if !ok {
          return;
        }
        nodes := nodes + [n];
      }
      return true;
    }
  }

  // ---------- Round trip ----------

  predicate NodeFits(n: WireNode) {
    |n.address| < TWO16 && |n.nodeID| < TWO16
  }

  predicate NodesFit(ns: seq<WireNode>) {
    forall i :: 0 <= i < |ns| ==> NodeFits(ns[i])
  }

  predicate TopologyFits(t: WireTopology) {
    |t.leaderAddr| < TWO16 && |t.nodes| < TWO16 && NodesFit(t.nodes)
  }

  lemma TakeLenBack(n: nat, rest: seq<byte>)
    ensures TakeLen(Put16(n) + rest) == Got(n % TWO16, rest)
    ensures n < TWO16 ==> TakeLen(Put16(n) + rest) == Got(n, rest)
  {
    assert (Put16(n) + rest)[..2] == Put16(n);
    Put16Get16(n);
  }

  lemma TakeStrBack(s: Text, rest: seq<byte>)
    requires |s| < TWO16
    ensures TakeStr(Str(s) + rest) == Got(s, rest)
  {
    TakeLenBack(|s|, s + rest);
    Concat3(Put16(|s|), s, rest);
  }

  lemma TakeNodeBack(n: WireNode, rest: seq<byte>)
    requires NodeFits(n)
    ensures TakeNode(NodeBytes(n) + rest) == Got(n, rest)
  {
    var a, r, b := Str(n.address), [n.role], Str(n.nodeID);
    assert a + r + b + rest == a + (r + (b + rest));
    TakeStrBack(n.address, r + (b + rest));
    assert (r + (b + rest))[1..] == b + rest;
    TakeStrBack(n.nodeID, rest);
  }

  lemma TakeOneMoreBack(ns: seq<WireNode>, rest: seq<byte>)
    requires ns != [] && NodesFit(ns)
    ensures var k := |ns| - 1; TakeOneMore(Got(ns[..k], NodeBytes(ns[k]) + rest)) == Got(ns, rest)
  {
    var k := |ns| - 1;
    TakeNodeBack(ns[k], rest);
    assert ns == ns[..k] + [ns[k]];
  }

  lemma {:induction false} TakeNodesBack(ns: seq<WireNode>, rest: seq<byte>)
    requires NodesFit(ns)
    ensures TakeNodes(NodesBytes(ns) + rest, |ns|) == Got(ns, rest)
  {
    if ns != [] {
      var k := |ns| - 1;
      var last := NodeBytes(ns[k]);
      Concat3(NodesBytes(ns[..k]), last, rest);
      TakeNodesBack(ns[..k], last + rest);
      TakeOneMoreBack(ns, rest);
    }
  }

  lemma TakeTopologyBack(t: WireTopology, rest: seq<byte>)
    requires TopologyFits(t)
    ensures TakeTopology(TopologyBytes(t) + rest) == Got(t, rest)
  {
    var a, c, ns := Str(t.leaderAddr), Put16(|t.nodes|), NodesBytes(t.nodes);
    assert a + c + ns + rest == a + (c + (ns + rest));
    TakeStrBack(t.leaderAddr, c + (ns + rest));
    TakeLenBack(|t.nodes|, ns + rest);
    TakeNodesBack(t.nodes, rest);
  }

  ghost predicate AreFit(g: Got<seq<WireNode>>, count: nat) {
    g.Got? ==> |g.v| == count && NodesFit(g.v)
  }

  lemma OneMoreFits(g: Got<seq<WireNode>>, count: nat)
    requires AreFit(g, count)
    ensures AreFit(TakeOneMore(g), count + 1)
  {
  }

  lemma {:induction false} TakenNodesFit(s: seq<byte>, count: nat)
    ensures AreFit(TakeNodes(s, count), count)
  {
    if count > 0 {
      TakenNodesFit(s, count - 1);
      OneMoreFits(TakeNodes(s, count - 1), count - 1);
    }
  }

  /** A topology comes back whatever follows it, exactly when every string and the
      number of nodes fit their 2-byte lengths. */
  lemma TopologyRoundTrip(t: WireTopology, rest: seq<byte>)
    ensures DecodeTopology(TopologyBytes(t) + rest) == Ok(t) <==> TopologyFits(t)
  {
    if TopologyFits(t) {
      TakeTopologyBack(t, rest);
    } else {
      var s := TopologyBytes(t) + rest;
      var addr := TakeStr(s);
      if addr.Got? && TakeLen(addr.rest).Got? {
        TakenNodesFit(TakeLen(addr.rest).rest, TakeLen(addr.rest).v);
      }
    }
  }

  // ---------- Strict prefixes ----------

  /** A reader that got `g` and, from an input with `more` behind it, got `g'`:
      if it succeeded it took the same, and left the rest with `more` behind. */
  predicate Extends<T(==)>(g: Got<T>, g': Got<T>, more: seq<byte>) {
    g.Got? ==> g' == Got(g.v, g.rest + more)
  }

  lemma TakeStrExtends(s: seq<byte>, more: seq<byte>)
    ensures Extends(TakeStr(s), TakeStr(s + more), more)
  {
    if |s| >= 2 {
      assert (s + more)[..2] == s[..2] && (s + more)[2..] == s[2..] + more;
      var n := TakeLen(s);
      if n.v <= |n.rest| {
        assert (n.rest + more)[..n.v] == n.rest[..n.v] && (n.rest + more)[n.v..] == n.rest[n.v..] + more;
      }
    }
  }

  lemma TakeNodeExtends(s: seq<byte>, more: seq<byte>)
    ensures Extends(TakeNode(s), TakeNode(s + more), more)
  {
    TakeStrExtends(s, more);
    var addr := TakeStr(s);
    if addr.Got? && addr.rest != [] {
      assert (addr.rest + more)[1..] == addr.rest[1..] + more;
      TakeStrExtends(addr.rest[1..], more);
    }
  }

  lemma OneMoreExtends(g: Got<seq<WireNode>>, g': Got<seq<WireNode>>, more: seq<byte>)
    requires Extends(g, g', more)
    ensures Extends(TakeOneMore(g), TakeOneMore(g'), more)
  {
    if g.Got? {
      TakeNodeExtends(g.rest, more);
    }
  }

  ghost predicate Respects<T(!new)>(take: Got<seq<T>> -> Got<seq<T>>, more: seq<byte>) {
    forall g, g' :: Extends(g, g', more) ==> Extends(take(g), take(g'), more)
  }

  lemma {:induction false} TakeManyExtends<T(!new)>(
    take: Got<seq<T>> -> Got<seq<T>>, s: seq<byte>, count: nat, more: seq<byte>)
    requires Respects(take, more)
    ensures Extends(TakeMany(take, s, count), TakeMany(take, s + more, count), more)
  {
    if count > 0 {
      TakeManyExtends(take, s, count - 1, more);
    }
  }

  lemma TakeNodesExtends(s: seq<byte>, count: nat, more: seq<byte>)
    ensures Extends(TakeNodes(s, count), TakeNodes(s + more, count), more)
  {
    forall g, g' | Extends(g, g', more)
      ensures Extends(TakeOneMore(g), TakeOneMore(g'), more)
    {
      OneMoreExtends(g, g', more);
    }
    TakeManyExtends(TakeOneMore, s, count, more);
  }

  lemma TakeTopologyExtends(s: seq<byte>, more: seq<byte>)
    ensures Extends(TakeTopology(s), TakeTopology(s + more), more)
  {
    TakeStrExtends(s, more);
    var addr := TakeStr(s);
    if addr.Got? && |addr.rest| >= 2 {
      assert (addr.rest + more)[..2] == addr.rest[..2] && (addr.rest + more)[2..] == addr.rest[2..] + more;
      TakeNodesExtends(addr.rest[2..], TakeLen(addr.rest).v, more);
    }
  }

  /** Every strict prefix is refused. */
  lemma TopologyPrefixRefused(t: WireTopology, n: nat)
    requires TopologyFits(t) && n < |TopologyBytes(t)|
    ensures DecodeTopology(TopologyBytes(t)[..n]) == TooShort
  {
    var all := TopologyBytes(t);
    TakeTopologyExtends(all[..n], all[n..]);
    assert all[..n] + all[n..] == all && all + [] == all;
    TakeTopologyBack(t, []);
  }
}
