/** The election code at work: a RaftState object with its run loop and its vote RPCs
    does exactly what the steps of module Cluster do to a node, message by message. */
module RaftSessions {
  import opened RaftNode
  import opened Cluster

  /** One node: the guarded state, where its run loop stands, and its campaigns. */
  class Peer {
    const raft: RaftState
    var pc: Pc
    var campaigns: map<nat, Campaign>

    ghost predicate Shows(peers: seq<Addr>, n: Addr, node: Node)
      reads this, raft
    {
      && raft.peers == peers && raft.nodeAddr == n
      && raft.V() == node.view && pc == node.pc && campaigns == node.campaigns
    }

    constructor (peers: seq<Addr>, n: Addr)
      ensures Shows(peers, n, InitialNode) && fresh(raft)
    {
      raft := new RaftState(n, peers);
      pc, campaigns := Top, map[];
    }

    // ---------- The run loop, one critical section at a time ----------

    method Dispatch(ghost peers: seq<Addr>, ghost n: Addr, ghost s: State)
      requires n in s.nodes && Shows(peers, n, s.nodes[n]) && Enabled(s, Step.Dispatch(n))
      modifies this
      ensures Shows(peers, n, Act(peers, s, Step.Dispatch(n)))
      ensures raft.role == Follower <==> pc == InFollower
      ensures raft.role == Candidate <==> pc == InCandidate
      ensures raft.role == Leader <==> pc == LeaderLoop
    {
      match raft.role {
        case Follower => pc := InFollower;
        case Candidate => pc := InCandidate;
        case Leader => pc := LeaderLoop;
      }
    }

    /** The follower's wait ends with a wake-up or with the timer. */
    method EndFollower(timeout: bool, ghost peers: seq<Addr>, ghost n: Addr, ghost s: State)
      requires n in s.nodes && Shows(peers, n, s.nodes[n]) && pc == InFollower
      modifies this, raft
      ensures Shows(peers, n, Act(peers, s, if timeout then FollowerTimeout(n) else FollowerWake(n)))
      ensures pc == Top && (timeout ==> raft.role == Candidate)
    {
      if timeout {
        raft.ElectionTimeout();
      }
      pc := Top;
    }

    method StartElection(ghost peers: seq<Addr>, ghost n: Addr, ghost s: State)
      requires n in s.nodes && Shows(peers, n, s.nodes[n]) && Enabled(s, Step.StartElection(n))
      modifies this, raft
      ensures Shows(peers, n, Act(peers, s, Step.StartElection(n)))
    {
      var term, others := raft.StartElection();
      campaigns := campaigns[term := Campaign(1, map p | p in others :: Waiting)];
      pc := Campaigning(term);
    }

    /** The candidate's wait ends with a wake-up, or with the votes it has by then. */
    method EndCampaign(woken: bool, ghost peers: seq<Addr>, ghost n: Addr, ghost s: State)
      requires n in s.nodes && Shows(peers, n, s.nodes[n])
      requires Enabled(s, if woken then CampaignWake(n) else Decide(n))
      modifies this, raft
      ensures Shows(peers, n, Act(peers, s, if woken then CampaignWake(n) else Decide(n)))
      ensures pc == Top && (woken ==> raft.role == Follower)
    {
      if woken {
        raft.StepBack();
      } else {
        var elected := raft.Decide(pc.term, campaigns[pc.term].votes);
      }
      pc := Top;
    }

    method LeaderCheck(ghost peers: seq<Addr>, ghost n: Addr, ghost s: State)
      requires n in s.nodes && Shows(peers, n, s.nodes[n]) && Enabled(s, Step.LeaderCheck(n))
      modifies this
      ensures Shows(peers, n, Act(peers, s, Step.LeaderCheck(n)))
      ensures pc == if raft.role == Leader then LeaderWait(raft.currentTerm) else Top
    {
      pc := if raft.role != Leader then Top else LeaderWait(raft.currentTerm);
    }

    /** The leader's wait ends with a tick, which sends the heartbeats, or with a wake-up. */
    method EndLeaderWait(tick: bool, ghost peers: seq<Addr>, ghost n: Addr, ghost s: State) returns (beats: set<Heartbeat>)
      requires n in s.nodes && Shows(peers, n, s.nodes[n]) && pc.LeaderWait?
      modifies this
      ensures Shows(peers, n, Act(peers, s, if tick then LeaderTick(n) else LeaderWake(n)))
      ensures beats == if tick then Beats(peers, n, s.nodes[n].pc.term) else {}
      ensures pc == if tick || raft.role == Leader then LeaderLoop else Top
    {
      beats := {};
      if tick {
        var others := raft.OtherPeers();
        beats := set p | p in others :: Heartbeat(raft.nodeAddr, pc.term, p);
        pc := LeaderLoop;
      } else {
        pc := if raft.role != Leader then Top else LeaderLoop;
      }
    }

    // ---------- Message handlers and RPC goroutines ----------

    method Hear(h: Heartbeat, ghost peers: seq<Addr>, ghost s: State)
      requires h.to in s.nodes && Shows(peers, h.to, s.nodes[h.to]) && Enabled(s, DeliverHeartbeat(h))
      modifies raft
      ensures Shows(peers, h.to, Act(peers, s, DeliverHeartbeat(h)))
    {
      var demoted := raft.HandleHeartbeat(h.term, h.leader);
    }

    method Answer(candidate: Addr, term: nat, ghost peers: seq<Addr>, ghost voter: Addr, ghost s: State)
      returns (reply: VoteReply)
      requires voter in s.nodes && Shows(peers, voter, s.nodes[voter])
      requires Enabled(s, DeliverVoteRequest(candidate, term, voter))
      modifies raft
      ensures Shows(peers, voter, Act(peers, s, DeliverVoteRequest(candidate, term, voter)))
      ensures reply == HandleRequest(s.nodes[voter], term, candidate).1
    {
      var demoted;
      reply, demoted := raft.HandleVoteRequest(term, candidate);
    }

    method Receive(m: VoteResponse, ghost peers: seq<Addr>, ghost s: State)
      requires m.candidate in s.nodes && Shows(peers, m.candidate, s.nodes[m.candidate]) && Enabled(s, ReceiveReply(m))
      modifies this, raft
      ensures Shows(peers, m.candidate, Act(peers, s, ReceiveReply(m)))
    {
      var granted := raft.ReceiveVoteReply(m.reply);
      var c := campaigns[m.term];
      campaigns := campaigns[m.term := Campaign(c.votes, c.rpcs[m.voter := Replied(granted)])];
    }

    method Count(term: nat, voter: Addr, ghost peers: seq<Addr>, ghost n: Addr, ghost s: State)
      requires n in s.nodes && Shows(peers, n, s.nodes[n]) && Enabled(s, CountVote(n, term, voter))
      modifies this
      ensures Shows(peers, n, Act(peers, s, CountVote(n, term, voter)))
    {
      var c := campaigns[term];
      campaigns := campaigns[term := Campaign(c.votes + 1, c.rpcs[voter := Counted])];
    }

    /** Whatever a step asks of this node; what it sends goes out through the results. */
    method Handle(step: Step, ghost peers: seq<Addr>, ghost s: State)
      returns (responses: set<VoteResponse>, beats: set<Heartbeat>)
      requires Enabled(s, step) && Actor(step) in s.nodes && Shows(peers, Actor(step), s.nodes[Actor(step)])
      modifies this, raft
      ensures Shows(peers, Actor(step), Act(peers, s, step))
      ensures s.responses + responses == ResponsesAfter(s, step)
      ensures s.heartbeats + beats == HeartbeatsAfter(peers, s, step)
    {
      responses, beats := {}, {};
      match step {
        case Dispatch(n) => Dispatch(peers, n, s);
        case FollowerWake(n) => EndFollower(false, peers, n, s);
        case FollowerTimeout(n) => EndFollower(true, peers, n, s);
        case StartElection(n) => StartElection(peers, n, s);
        case CampaignWake(n) => EndCampaign(true, peers, n, s);
        case Decide(n) => EndCampaign(false, peers, n, s);
        case LeaderCheck(n) => LeaderCheck(peers, n, s);
        case LeaderTick(n) => beats := EndLeaderWait(true, peers, n, s);
        case LeaderWake(n) => beats := EndLeaderWait(false, peers, n, s);
        case DeliverHeartbeat(h) => Hear(h, peers, s);
        case DeliverVoteRequest(n, term, voter) =>
          var reply := Answer(n, term, peers, voter, s);
          responses := {VoteResponse(n, term, voter, reply)};
        case ReceiveReply(m) => Receive(m, peers, s);
        case CountVote(n, term, voter) => Count(term, voter, peers, n, s);
      }
    }
  }
}
