/** One node of the election protocol of cluster/raft.go.

    `View` is the part of `RaftState` that its mutex guards. Each critical
    section of the source is a function on views; the class `RaftState` runs the
    same critical sections in place and is proved against those functions. The
    whole-cluster state machine (module Cluster) is built from the functions. */
module RaftNode {
  import opened Sequences

  type Addr = string

  // The empty address stands for "no vote" and "leader unknown".
  const NONE: Addr := ""

  datatype Role = Follower | Candidate | Leader

  datatype View = View(currentTerm: nat, votedFor: Addr, role: Role, leaderAddr: Addr)

  const InitialView := View(0, NONE, Follower, NONE)

  datatype VoteReply = VoteReply(granted: bool, term: nat)

  /** Adopting a larger term: the vote of the old term is dropped. */
  function AdoptTerm(v: View, term: nat): View {
    if term > v.currentTerm then v.(currentTerm := term, votedFor := NONE, role := Follower) else v
  }

  function OnHeartbeat(v: View, term: nat, leaderID: Addr): View {
    if term < v.currentTerm then v
    else AdoptTerm(v, term).(leaderAddr := leaderID, role := Follower)
  }

  function OnVoteRequest(v: View, term: nat, candidate: Addr): (View, VoteReply) {
    if term < v.currentTerm then (v, VoteReply(false, v.currentTerm))
    else if v.role == Leader && term == v.currentTerm then (v, VoteReply(false, v.currentTerm))
    else
      var w := AdoptTerm(v, term);
      if w.votedFor == NONE || w.votedFor == candidate
      then (w.(votedFor := candidate), VoteReply(true, w.currentTerm))
      else (w, VoteReply(false, w.currentTerm))
  }

  function OnElectionTimeout(v: View): View {
    v.(role := Candidate)
  }

  function OnStartElection(v: View, self: Addr): View {
    v.(currentTerm := v.currentTerm + 1, votedFor := self)
  }

  function OnStepBack(v: View): View {
    v.(role := Follower)
  }

  function Quorum(peerCount: nat): nat {
    peerCount / 2 + 1
  }

  /** The end of a campaign for `term`; the flag says whether the node took office. */
  function OnDecide(v: View, self: Addr, term: nat, votes: nat, peerCount: nat): (View, bool) {
    if v.role != Candidate || v.currentTerm != term then (v, false)
    else if votes >= Quorum(peerCount) then (v.(role := Leader, leaderAddr := self), true)
    else (v.(role := Follower), false)
  }

  /** The peers other than `self`, in list order. */
  function Others(peers: seq<Addr>, self: Addr): seq<Addr> {
    if peers == [] then []
    else if peers[0] != self then [peers[0]] + Others(peers[1..], self)
    else Others(peers[1..], self)
  }

  /** A candidate asks every other peer exactly once. */
  lemma {:induction false} OthersAreThePeersButSelf(peers: seq<Addr>, self: Addr)
    ensures forall p :: p in Others(peers, self) <==> p in peers && p != self
    ensures NoDups(peers) ==> NoDups(Others(peers, self))
  {
    if peers != [] {
      var rest, out := peers[1..], Others(peers, self);
      OthersAreThePeersButSelf(rest, self);
      assert peers == [peers[0]] + rest;
      if NoDups(peers) {
        assert forall i :: 0 <= i < |rest| ==> rest[i] == peers[i + 1] != peers[0];
        assert NoDups(rest) && peers[0] !in rest;
        assert forall j :: 0 < j < |out| && peers[0] != self ==> out[j] in Others(rest, self);
      }
    }
  }

  lemma {:induction false} OthersExtends(peers: seq<Addr>, k: nat, self: Addr)
    requires k < |peers|
    ensures Others(peers[..k + 1], self)
         == Others(peers[..k], self) + (if peers[k] != self then [peers[k]] else [])
  {
    if k == 0 {
      assert peers[..1] == [peers[0]];
    } else {
      OthersExtends(peers[1..], k - 1, self);
      assert peers[..k + 1][1..] == peers[1..][..k];
      assert peers[..k][1..] == peers[1..][..k - 1];
    }
  }

  /** Every critical section keeps the term from going backwards, and within one
      term a vote, once cast, stays. */
  lemma CriticalSectionsKeepTheVote(v: View, w: View, term: nat, who: Addr, votes: nat, peerCount: nat)
    requires || w == OnHeartbeat(v, term, who)
             || w == OnVoteRequest(v, term, who).0
             || w == AdoptTerm(v, term)
             || w == OnElectionTimeout(v)
             || w == OnStartElection(v, who)
             || w == OnStepBack(v)
             || w == OnDecide(v, who, term, votes, peerCount).0
    ensures v.currentTerm <= w.currentTerm
    ensures v.currentTerm == w.currentTerm && v.votedFor != NONE ==> w.votedFor == v.votedFor
  {
  }

  /** A node takes office exactly with the votes of more than half of the peers. */
  lemma MajorityDecides(v: View, self: Addr, term: nat, votes: nat, peerCount: nat)
    ensures OnDecide(v, self, term, votes, peerCount).1
         <==> v.role == Candidate && v.currentTerm == term && 2 * votes > peerCount
  {
    assert votes >= peerCount / 2 + 1 <==> 2 * votes > peerCount;
  }

  /** What a vote request does, term by term: an older one is refused, a newer one
      always wins the vote and ends any office, and one of the same term gets the
      vote of a node that is not the leader and has no other favourite. */
  lemma VoteRequestOutcome(v: View, term: nat, candidate: Addr)
    ensures term < v.currentTerm ==> OnVoteRequest(v, term, candidate) == (v, VoteReply(false, v.currentTerm))
    ensures term > v.currentTerm ==>
              OnVoteRequest(v, term, candidate) == (View(term, candidate, Follower, v.leaderAddr), VoteReply(true, term))
    ensures term == v.currentTerm && v.role != Leader && (v.votedFor == NONE || v.votedFor == candidate) ==>
              OnVoteRequest(v, term, candidate) == (v.(votedFor := candidate), VoteReply(true, term))
    ensures term == v.currentTerm && (v.role == Leader || (v.votedFor != NONE && v.votedFor != candidate)) ==>
              OnVoteRequest(v, term, candidate) == (v, VoteReply(false, term))
  {
  }

  /** `RaftState` of the source: the fields behind the mutex, one method per critical section. */
  class RaftState {
    const nodeAddr: Addr
    const peers: seq<Addr>
    var currentTerm: nat
    var votedFor: Addr
    var role: Role
    var leaderAddr: Addr

    ghost function V(): View
      reads this
    {
      View(currentTerm, votedFor, role, leaderAddr)
    }

    constructor (nodeAddr: Addr, peers: seq<Addr>)
      ensures this.nodeAddr == nodeAddr && this.peers == peers
      ensures V() == InitialView
    {
      this.nodeAddr, this.peers := nodeAddr, peers;
      currentTerm, votedFor, role, leaderAddr := 0, NONE, Follower, NONE;
    }

    /** Returns whether the `onFollower` callback is due. */
    method HandleHeartbeat(term: nat, leaderID: Addr) returns (demoted: bool)
      modifies this
      ensures V() == OnHeartbeat(old(V()), term, leaderID)
      ensures V() == if term < old(currentTerm) then old(V())
                     else View(term, if term > old(currentTerm) then NONE else old(votedFor), Follower, leaderID)
      ensures demoted <==> old(role) == Leader && role != Leader
    {
      if term < currentTerm {
        return false;
      }
      demoted := role == Leader;
      if term > currentTerm {
        currentTerm := term;
        votedFor := NONE;
      }
      leaderAddr := leaderID;
      role := Follower;
    }

    /** `demoted` says whether the `onFollower` callback is due. */
    method HandleVoteRequest(term: nat, candidate: Addr) returns (reply: VoteReply, demoted: bool)
      modifies this
      ensures (V(), reply) == OnVoteRequest(old(V()), term, candidate)
      ensures reply.granted <==>
                || term > old(currentTerm)
                || (term == old(currentTerm) && old(role) != Leader && (old(votedFor) == NONE || old(votedFor) == candidate))
      ensures reply.term == currentTerm == if term > old(currentTerm) then term else old(currentTerm)
      ensures votedFor == if reply.granted then candidate else old(votedFor)
      ensures role == (if term > old(currentTerm) then Follower else old(role)) && leaderAddr == old(leaderAddr)
      ensures demoted <==> old(role) == Leader && role != Leader
    {
      if term < currentTerm {
        return VoteReply(false, currentTerm), false;
      }
      if role == Leader && term == currentTerm {
        return VoteReply(false, currentTerm), false;
      }
      var wasLeader := role == Leader;
      if term > currentTerm {
        currentTerm := term;
        votedFor := NONE;
        role := Follower;
      }
      if votedFor == NONE || votedFor == candidate {
        votedFor := candidate;
        return VoteReply(true, currentTerm), wasLeader;
      }
      return VoteReply(false, currentTerm), false;
    }

    method ElectionTimeout()
      modifies this
      ensures V() == OnElectionTimeout(old(V())) == View(old(currentTerm), old(votedFor), Candidate, old(leaderAddr))
    {
      role := Candidate;
    }

    method StartElection() returns (term: nat, others: seq<Addr>)
      modifies this
      ensures V() == OnStartElection(old(V()), nodeAddr) == View(old(currentTerm) + 1, nodeAddr, old(role), old(leaderAddr))
      ensures term == currentTerm && others == Others(peers, nodeAddr)
    {
      currentTerm := currentTerm + 1;
      votedFor := nodeAddr;
      term := currentTerm;
      others := OtherPeers();
    }

    method StepBack()
      modifies this
      ensures V() == OnStepBack(old(V())) == View(old(currentTerm), old(votedFor), Follower, old(leaderAddr))
    {
      role := Follower;
    }

    /** The end of a campaign; returns whether the `onLeader` callback is due. */
    method Decide(term: nat, votes: nat) returns (elected: bool)
      modifies this
      ensures (V(), elected) == OnDecide(old(V()), nodeAddr, term, votes, |peers|)
      ensures elected <==> old(role) == Candidate && old(currentTerm) == term && 2 * votes > |peers|
      ensures elected ==> V() == View(term, old(votedFor), Leader, nodeAddr)
      ensures !elected ==>
                V() == if old(role) == Candidate && old(currentTerm) == term then old(V()).(role := Follower) else old(V())
    {
      MajorityDecides(V(), nodeAddr, term, votes, |peers|);
      if role != Candidate || currentTerm != term {
        return false;
      }
      var quorum := |peers| / 2 + 1;
      if votes >= quorum {
        role := Leader;
        leaderAddr := nodeAddr;
        return true;
      }
      role := Follower;
      return false;
    }

    /** The reply half of requestVoteRPC. */
    method ReceiveVoteReply(reply: VoteReply) returns (granted: bool)
      modifies this
      ensures V() == AdoptTerm(old(V()), reply.term)
      ensures V() == if reply.term > old(currentTerm) then View(reply.term, NONE, Follower, old(leaderAddr)) else old(V())
      ensures granted == reply.granted
    {
      if reply.term > currentTerm {
        currentTerm := reply.term;
        role := Follower;
        votedFor := NONE;
      }
      return reply.granted;
    }

    method OtherPeers() returns (out: seq<Addr>)
      ensures out == Others(peers, nodeAddr)
    {
      out := [];
      for i := 0 to |peers|
        invariant out == Others(peers[..i], nodeAddr)
      {
        OthersExtends(peers, i, nodeAddr);
        if peers[i] != nodeAddr {
          out := out + [peers[i]];
        }
      }
      assert peers[..|peers|] == peers;
    }
  }
}
