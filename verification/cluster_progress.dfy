/** The election can succeed: from the start of every cluster, each peer has a run
    in which it takes office. So the safety results of module Cluster are not
    about runs in which nobody ever leads. */
module ClusterProgress {
  import opened RaftNode
  import opened Sequences
  import opened Cluster

  ghost predicate Reachable(peers: seq<Addr>, s: State) {
    exists run :: IsRun(peers, run) && run[|run| - 1] == s
  }

  lemma StartIsReachable(peers: seq<Addr>)
    ensures Reachable(peers, InitialState(peers))
  {
    assert IsRun(peers, [InitialState(peers)]);
  }

  lemma StepIsReachable(peers: seq<Addr>, s: State, step: Step)
    requires Reachable(peers, s) && Enabled(s, step)
    ensures Reachable(peers, Apply(peers, s, step))
  {
    var run :| IsRun(peers, run) && run[|run| - 1] == s;
    var run' := run + [Apply(peers, s, step)];
    forall i | 0 <= i < |run'| - 1
      ensures StepAt(peers, run', i)
    {
      assert i < |run| - 1 ==> StepAt(peers, run, i);
    }
    assert IsRun(peers, run');
  }

  /** `n` campaigns for term 1 with `k` of the other peers counted; the rest have not been asked. */
  ghost predicate Collected(peers: seq<Addr>, n: Addr, k: nat, s: State) {
    var os := Others(peers, n);
    && k <= |os| && n in s.nodes && 1 in s.nodes[n].campaigns
    && s.nodes[n].view == View(1, n, Candidate, NONE)
    && s.nodes[n].pc == Campaigning(1)
    && s.nodes[n].campaigns[1].votes == 1 + k
    && forall i :: k <= i < |os| ==> Unasked(s, n, os[i])
  }

  ghost predicate Unasked(s: State, n: Addr, p: Addr)
    requires n in s.nodes && 1 in s.nodes[n].campaigns
  {
    && p != n && p in s.nodes && s.nodes[p].view == InitialView
    && p in s.nodes[n].campaigns[1].rpcs && s.nodes[n].campaigns[1].rpcs[p] == Waiting
  }

  lemma CampaignBegins(peers: seq<Addr>, n: Addr) returns (s: State)
    requires GoodPeers(peers) && n in peers
    ensures Reachable(peers, s) && Collected(peers, n, 0, s)
  {
    s := InitialState(peers);
    StartIsReachable(peers);
    OthersAreThePeersButSelf(peers, n);
    StepIsReachable(peers, s, Dispatch(n));
    s := Apply(peers, s, Dispatch(n));
    StepIsReachable(peers, s, FollowerTimeout(n));
    s := Apply(peers, s, FollowerTimeout(n));
    StepIsReachable(peers, s, Dispatch(n));
    s := Apply(peers, s, Dispatch(n));
    StepIsReachable(peers, s, StartElection(n));
    s := Apply(peers, s, StartElection(n));
    var os := Others(peers, n);
    forall i | 0 <= i < |os|
      ensures Unasked(s, n, os[i])
    {
      assert os[i] in os;
    }
  }

  lemma OneMoreVote(peers: seq<Addr>, n: Addr, k: nat, s: State) returns (s': State)
    requires GoodPeers(peers) && n != NONE && Reachable(peers, s) && Collected(peers, n, k, s)
    requires k < |Others(peers, n)|
    ensures Reachable(peers, s') && Collected(peers, n, k + 1, s')
  {
    var os := Others(peers, n);
    var p := os[k];
    OthersAreThePeersButSelf(peers, n);
    assert Unasked(s, n, p);
    var ask := DeliverVoteRequest(n, 1, p);
    StepIsReachable(peers, s, ask);
    var s1 := Apply(peers, s, ask);
    var m := VoteResponse(n, 1, p, VoteReply(true, 1));
    assert m in s1.responses;
    StepIsReachable(peers, s1, ReceiveReply(m));
    var s2 := Apply(peers, s1, ReceiveReply(m));
    StepIsReachable(peers, s2, CountVote(n, 1, p));
    s' := Apply(peers, s2, CountVote(n, 1, p));
    forall i | k + 1 <= i < |os|
      ensures Unasked(s', n, os[i])
    {
      assert os[i] != p && Unasked(s, n, os[i]);
    }
  }

  lemma {:induction false} VotesCollect(peers: seq<Addr>, n: Addr, k: nat) returns (s: State)
    requires GoodPeers(peers) && n in peers && k <= |Others(peers, n)|
    ensures Reachable(peers, s) && Collected(peers, n, k, s)
  {
    if k == 0 {
      s := CampaignBegins(peers, n);
    } else {
      s := VotesCollect(peers, n, k - 1);
      s := OneMoreVote(peers, n, k - 1, s);
    }
  }

  lemma {:induction false} EnoughOthers(peers: seq<Addr>, n: Addr)
    requires NoDups(peers)
    ensures |Others(peers, n)| >= |peers| - 1
  {
    if peers != [] {
      assert NoDups(peers[1..]);
      EnoughOthers(peers[1..], n);
      if peers[0] == n {
        AllOthers(peers[1..], n);
      }
    }
  }

  lemma {:induction false} AllOthers(peers: seq<Addr>, n: Addr)
    requires n !in peers
    ensures Others(peers, n) == peers
  {
    if peers != [] {
      AllOthers(peers[1..], n);
      assert peers == [peers[0]] + peers[1..];
    }
  }

  /** Every peer of every cluster can win the first term. */
  lemma AnyPeerCanWin(peers: seq<Addr>, n: Addr)
    requires GoodPeers(peers) && n in peers
    ensures exists s :: Reachable(peers, s) && LeadsIn(s, n, 1)
  {
    var k := |Others(peers, n)|;
    var s := VotesCollect(peers, n, k);
    EnoughOthers(peers, n);
    StepIsReachable(peers, s, Decide(n));
    assert LeadsIn(Apply(peers, s, Decide(n)), n, 1);
  }
}
