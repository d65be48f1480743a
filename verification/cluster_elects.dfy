/** Which peers can elect a leader. From every reachable state of a cluster of two
    or more, any majority of the peers can, without the others, make each of its
    members the leader of a later term, known to all of them; and peers that are
    no majority never elect anybody. */
module ClusterElects {
  import opened RaftNode
  import opened Sequences
  import opened Cluster
  import opened ClusterProgress

  // ---------- Paths on which only some peers act ----------

  /** One step, taken by a peer of `live`. */
  ghost predicate LiveStep(peers: seq<Addr>, live: set<Addr>, s: State, s': State) {
    exists step :: Enabled(s, step) && Actor(step) in live && s' == Apply(peers, s, step)
  }

  ghost predicate LiveStepAt(peers: seq<Addr>, live: set<Addr>, path: seq<State>, i: nat)
    requires i + 1 < |path|
  {
    LiveStep(peers, live, path[i], path[i + 1])
  }

  ghost predicate IsLivePath(peers: seq<Addr>, live: set<Addr>, path: seq<State>, s: State, s': State) {
    && |path| > 0 && path[0] == s && path[|path| - 1] == s'
    && forall i :: 0 <= i < |path| - 1 ==> LiveStepAt(peers, live, path, i)
  }

  /** `s` is reachable, and from `s0` it is reached by steps of `live` alone. */
  ghost predicate Led(peers: seq<Addr>, live: set<Addr>, s0: State, s: State) {
    Reachable(peers, s) && exists path :: IsLivePath(peers, live, path, s0, s)
  }

  lemma LedStart(peers: seq<Addr>, live: set<Addr>, s: State)
    requires Reachable(peers, s)
    ensures Led(peers, live, s, s)
  {
    assert IsLivePath(peers, live, [s], s, s);
  }

  /** Only node `n` differs. */
  ghost predicate OnlyNode(n: Addr, s: State, s': State) {
    n in s.nodes && n in s'.nodes && s'.nodes == s.nodes[n := s'.nodes[n]]
  }

  lemma Walk(peers: seq<Addr>, live: set<Addr>, s0: State, s: State, step: Step) returns (s': State)
    requires Led(peers, live, s0, s) && Enabled(s, step) && Actor(step) in live
    ensures s' == Apply(peers, s, step) && Led(peers, live, s0, s') && OnlyNode(Actor(step), s, s')
  {
    s' := Apply(peers, s, step);
    StepIsReachable(peers, s, step);
    var path :| IsLivePath(peers, live, path, s0, s);
    var longer := path + [s'];
    forall i | 0 <= i < |longer| - 1
      ensures LiveStepAt(peers, live, longer, i)
    {
      if i < |path| - 1 {
        assert LiveStepAt(peers, live, path, i);
      } else {
        assert LiveStep(peers, live, s, s');
      }
    }
    assert IsLivePath(peers, live, longer, s0, s');
  }

  lemma LedFacts(peers: seq<Addr>, live: set<Addr>, s0: State, s: State, n: Addr)
    requires GoodPeers(peers) && Led(peers, live, s0, s) && n in peers
    ensures s.nodes.Keys == Members(peers) && n in s.nodes && RoleOk(s.nodes[n])
  {
    var run :| IsRun(peers, run) && run[|run| - 1] == s;
    RunKeepsInv(peers, run, |run| - 1);
    assert n in Members(peers);
    assert NodeOk(|peers|, n, s.nodes[n]);
  }

  lemma LeadersDiffer(peers: seq<Addr>, live: set<Addr>, s0: State, s: State, n: Addr, m: Addr)
    requires GoodPeers(peers) && Led(peers, live, s0, s) && n in peers && m in peers && n != m
    requires n in s.nodes && s.nodes[n].view.role == Leader
    requires m in s.nodes && s.nodes[m].view.role == Leader
    ensures s.nodes[n].view.currentTerm != s.nodes[m].view.currentTerm
  {
    var term := s.nodes[n].view.currentTerm;
    if s.nodes[m].view.currentTerm == term {
      var run :| IsRun(peers, run) && run[|run| - 1] == s;
      RunKeepsInv(peers, run, |run| - 1);
      LeaderWon(peers, s, n, term);
      LeaderWon(peers, s, m, term);
      OneWinnerPerTerm(peers, s, n, m, term);
    }
  }

  // ---------- What one node's run loop can do ----------

  /** By its own steps a node that does not lead comes to the top of its run loop, or takes office. */
  lemma Settles(peers: seq<Addr>, live: set<Addr>, s0: State, s: State, n: Addr) returns (s': State)
    requires GoodPeers(peers) && Led(peers, live, s0, s) && n in live && n in peers
    ensures Led(peers, live, s0, s') && OnlyNode(n, s, s')
    ensures s'.nodes[n].view.role == Leader || s'.nodes[n].pc == Top
    ensures s.nodes[n].view.role == Follower && (s.nodes[n].pc in {Top, LeaderLoop} || s.nodes[n].pc.LeaderWait?) ==>
              s'.nodes[n].view == s.nodes[n].view
  {
    LedFacts(peers, live, s0, s, n);
    s' := s;
    if s.nodes[n].view.role != Leader {
      match s.nodes[n].pc
      case Top =>
      case InFollower =>
        s' := Walk(peers, live, s0, s', FollowerTimeout(n));
      case InCandidate =>
        s' := Walk(peers, live, s0, s', StartElection(n));
        s' := Walk(peers, live, s0, s', Decide(n));
      case Campaigning(t) =>
        s' := Walk(peers, live, s0, s', Decide(n));
      case LeaderLoop =>
        s' := Walk(peers, live, s0, s', LeaderCheck(n));
      case LeaderWait(t) =>
        s' := Walk(peers, live, s0, s', LeaderTick(n));
        s' := Walk(peers, live, s0, s', LeaderCheck(n));
    }
  }

  /** `n` has just started its campaign for `term`. */
  ghost predicate Standing(peers: seq<Addr>, s: State, n: Addr, term: nat) {
    && n in s.nodes && s.nodes[n].pc == Campaigning(term)
    && s.nodes[n].view.currentTerm == term && s.nodes[n].view.role == Candidate
    && term in s.nodes[n].campaigns
    && s.nodes[n].campaigns[term] == Campaign(1, map p | p in Others(peers, n) :: Waiting)
  }

  lemma Stands(peers: seq<Addr>, live: set<Addr>, s0: State, s: State, n: Addr) returns (s': State)
    requires Led(peers, live, s0, s) && n in live
    requires n in s.nodes && s.nodes[n].pc == Top && s.nodes[n].view.role != Leader
    ensures Led(peers, live, s0, s') && OnlyNode(n, s, s')
    ensures Standing(peers, s', n, s.nodes[n].view.currentTerm + 1)
  {
    s' := s;
    if s.nodes[n].view.role == Follower {
      s' := Walk(peers, live, s0, s', Dispatch(n));
      s' := Walk(peers, live, s0, s', FollowerTimeout(n));
    }
    s' := Walk(peers, live, s0, s', Dispatch(n));
    s' := Walk(peers, live, s0, s', StartElection(n));
  }

  /** Lost elections raise the term: `n` can stand for a term past any bound. */
  lemma {:induction false} StandsPast(peers: seq<Addr>, live: set<Addr>, s0: State, s: State, n: Addr, bound: nat)
    returns (s': State, term: nat)
    requires |peers| > 1 && Led(peers, live, s0, s) && n in live
    requires n in s.nodes && s.nodes[n].pc == Top && s.nodes[n].view.role != Leader
    ensures Led(peers, live, s0, s') && OnlyNode(n, s, s')
    ensures Standing(peers, s', n, term) && term > bound
    decreases if bound < s.nodes[n].view.currentTerm then 0 else bound - s.nodes[n].view.currentTerm + 1
  {
    s' := Stands(peers, live, s0, s, n);
    term := s.nodes[n].view.currentTerm + 1;
    if term <= bound {
      s' := Walk(peers, live, s0, s', Decide(n));
      s', term := StandsPast(peers, live, s0, s', n, bound);
    }
  }

  /** A peer of a smaller term votes for the candidate and follows. */
  lemma Votes(peers: seq<Addr>, live: set<Addr>, s0: State, s: State, n: Addr, term: nat, p: Addr) returns (s': State)
    requires Led(peers, live, s0, s) && n in s.nodes && HasRpc(s.nodes[n], term, p)
    requires p in live && p != n && p in s.nodes && s.nodes[p].view.currentTerm < term
    ensures Led(peers, live, s0, s') && OnlyNode(p, s, s')
    ensures s'.nodes[p] == s.nodes[p].(view := View(term, n, Follower, s.nodes[p].view.leaderAddr),
                                       ballots := s.nodes[p].ballots[term := n])
    ensures VoteResponse(n, term, p, VoteReply(true, term)) in s'.responses
  {
    VoteRequestOutcome(s.nodes[p].view, term, n);
    s' := Walk(peers, live, s0, s, DeliverVoteRequest(n, term, p));
  }

  /** A leader can send its heartbeat to every other peer. */
  lemma Beats(peers: seq<Addr>, live: set<Addr>, s0: State, s: State, n: Addr) returns (s': State)
    requires GoodPeers(peers) && Led(peers, live, s0, s) && n in live && n in peers
    requires n in s.nodes && s.nodes[n].view.role == Leader
    ensures Led(peers, live, s0, s') && OnlyNode(n, s, s')
    ensures s'.nodes[n] == s.nodes[n].(pc := LeaderLoop)
    ensures forall p :: p in peers && p != n ==> Heartbeat(n, s.nodes[n].view.currentTerm, p) in s'.heartbeats
  {
    LedFacts(peers, live, s0, s, n);
    OthersAreThePeersButSelf(peers, n);
    s' := s;
    if s.nodes[n].pc == Top {
      s' := Walk(peers, live, s0, s', Dispatch(n));
    } else if s.nodes[n].pc.LeaderWait? {
      s' := Walk(peers, live, s0, s', LeaderTick(n));
    }
    s' := Walk(peers, live, s0, s', LeaderCheck(n));
    s' := Walk(peers, live, s0, s', LeaderTick(n));
  }

  /** A peer of no larger term that hears a heartbeat follows its sender. */
  lemma Hears(peers: seq<Addr>, live: set<Addr>, s0: State, s: State, h: Heartbeat) returns (s': State)
    requires Led(peers, live, s0, s) && h in s.heartbeats && h.to in live
    requires h.to in s.nodes && s.nodes[h.to].view.currentTerm <= h.term
    ensures Led(peers, live, s0, s') && OnlyNode(h.to, s, s') && s'.heartbeats == s.heartbeats
    ensures s'.nodes[h.to].pc == s.nodes[h.to].pc
    ensures s'.nodes[h.to].view.currentTerm == h.term
    ensures s'.nodes[h.to].view.role == Follower && s'.nodes[h.to].view.leaderAddr == h.leader
  {
    s' := Walk(peers, live, s0, s, DeliverHeartbeat(h));
  }

  // ---------- Making a node free to stand ----------

  ghost predicate FreeToStand(s: State, n: Addr) {
    n in s.nodes && s.nodes[n].pc == Top && s.nodes[n].view.role != Leader
  }

  /** A leader is deposed by another peer that can stand for office. */
  lemma DeposedByCandidate(peers: seq<Addr>, live: set<Addr>, s0: State, s: State, n: Addr, m: Addr) returns (s': State)
    requires GoodPeers(peers) && Led(peers, live, s0, s) && |peers| > 1
    requires n in live && m in live && n != m && n in peers && m in peers
    requires n in s.nodes && s.nodes[n].view.role == Leader && FreeToStand(s, m)
    ensures Led(peers, live, s0, s') && FreeToStand(s', n)
  {
    LedFacts(peers, live, s0, s, n);
    OthersAreThePeersButSelf(peers, m);
    var term;
    s', term := StandsPast(peers, live, s0, s, m, s.nodes[n].view.currentTerm);
    s' := Votes(peers, live, s0, s', m, term, n);
    s' := Settles(peers, live, s0, s', n);
  }

  lemma DeposedByLeader(peers: seq<Addr>, live: set<Addr>, s0: State, s: State, n: Addr, m: Addr) returns (s': State)
    requires GoodPeers(peers) && Led(peers, live, s0, s)
    requires n in live && m in live && n != m && n in peers && m in peers
    requires n in s.nodes && s.nodes[n].view.role == Leader
    requires m in s.nodes && s.nodes[m].view.role == Leader
    requires s.nodes[n].view.currentTerm < s.nodes[m].view.currentTerm
    ensures Led(peers, live, s0, s') && FreeToStand(s', n)
    ensures s'.nodes.Keys == s.nodes.Keys && s'.nodes[m].view == s.nodes[m].view
  {
    LedFacts(peers, live, s0, s, n);
    s' := Beats(peers, live, s0, s, m);
    s' := Hears(peers, live, s0, s', Heartbeat(m, s.nodes[m].view.currentTerm, n));
    s' := Settles(peers, live, s0, s', n);
  }

  lemma BecomesFree(peers: seq<Addr>, live: set<Addr>, s0: State, s: State, n: Addr, m: Addr) returns (s': State)
    requires GoodPeers(peers) && Led(peers, live, s0, s) && |peers| > 1
    requires n in live && m in live && n != m && n in peers && m in peers
    ensures Led(peers, live, s0, s') && FreeToStand(s', n)
  {
    s' := Settles(peers, live, s0, s, n);
    if s'.nodes[n].view.role == Leader {
      s' := Settles(peers, live, s0, s', m);
      if s'.nodes[m].view.role == Leader {
        LeadersDiffer(peers, live, s0, s', n, m);
        if s'.nodes[n].view.currentTerm < s'.nodes[m].view.currentTerm {
          s' := DeposedByLeader(peers, live, s0, s', n, m);
        } else {
          s' := DeposedByLeader(peers, live, s0, s', m, n);
          s' := DeposedByCandidate(peers, live, s0, s', n, m);
        }
      } else {
        s' := DeposedByCandidate(peers, live, s0, s', n, m);
      }
    }
  }

  // ---------- The election ----------

  /** `n` campaigns for `term`; the first `k` of `voters` are counted, the others hold smaller terms. */
  ghost predicate Polled(s: State, n: Addr, term: nat, voters: seq<Addr>, k: nat) {
    && k <= |voters| && n in s.nodes && s.nodes[n].pc == Campaigning(term)
    && s.nodes[n].view.currentTerm == term && s.nodes[n].view.role == Candidate
    && term in s.nodes[n].campaigns && s.nodes[n].campaigns[term].votes == 1 + k
    && (forall i :: 0 <= i < k ==> InTerm(s, n, term, voters[i]))
    && (forall i :: k <= i < |voters| ==> Unpolled(s, n, term, voters[i]))
  }

  ghost predicate InTerm(s: State, n: Addr, term: nat, p: Addr) {
    p != n && p in s.nodes && s.nodes[p].view.currentTerm == term
  }

  ghost predicate Unpolled(s: State, n: Addr, term: nat, p: Addr)
    requires n in s.nodes && term in s.nodes[n].campaigns
  {
    && p != n && p in s.nodes && s.nodes[p].view.currentTerm < term
    && p in s.nodes[n].campaigns[term].rpcs && s.nodes[n].campaigns[term].rpcs[p] == Waiting
  }

  lemma PollsOne(peers: seq<Addr>, live: set<Addr>, s0: State, s: State, n: Addr, term: nat, voters: seq<Addr>, k: nat)
    returns (s': State)
    requires Led(peers, live, s0, s) && n in live && NoDups(voters)
    requires Polled(s, n, term, voters, k) && k < |voters| && voters[k] in live
    ensures Led(peers, live, s0, s') && Polled(s', n, term, voters, k + 1)
  {
    var p := voters[k];
    assert Unpolled(s, n, term, p);
    s' := Votes(peers, live, s0, s, n, term, p);
    s' := Walk(peers, live, s0, s', ReceiveReply(VoteResponse(n, term, p, VoteReply(true, term))));
    s' := Walk(peers, live, s0, s', CountVote(n, term, p));
    assert InTerm(s', n, term, p);
    forall i | 0 <= i < k
      ensures InTerm(s', n, term, voters[i])
    {
      assert voters[i] != p && InTerm(s, n, term, voters[i]);
    }
    forall i | k + 1 <= i < |voters|
      ensures Unpolled(s', n, term, voters[i])
    {
      assert voters[i] != p && Unpolled(s, n, term, voters[i]);
    }
  }

  lemma {:induction false} PollsAll(peers: seq<Addr>, live: set<Addr>, s0: State, s: State, n: Addr, term: nat,
                                    voters: seq<Addr>, k: nat)
    returns (s': State)
    requires Led(peers, live, s0, s) && n in live && NoDups(voters) && forall p :: p in voters ==> p in live
    requires Polled(s, n, term, voters, k)
    ensures Led(peers, live, s0, s') && Polled(s', n, term, voters, |voters|)
    decreases |voters| - k
  {
    s' := s;
    if k < |voters| {
      s' := PollsOne(peers, live, s0, s, n, term, voters, k);
      s' := PollsAll(peers, live, s0, s', n, term, voters, k + 1);
    }
  }

  /** `n` leads `term`, has sent its heartbeats, and the first `k` of `followers` have heard them. */
  ghost predicate Told(s: State, n: Addr, term: nat, followers: seq<Addr>, k: nat) {
    && k <= |followers| && LeadsIn(s, n, term) && s.nodes[n].view.leaderAddr == n
    && (forall i :: 0 <= i < |followers| ==> Reached(s, n, term, followers[i]))
    && (forall i :: 0 <= i < k ==> Follows(s, n, term, followers[i]))
  }

  ghost predicate Reached(s: State, n: Addr, term: nat, p: Addr) {
    InTerm(s, n, term, p) && Heartbeat(n, term, p) in s.heartbeats
  }

  ghost predicate Follows(s: State, n: Addr, term: nat, p: Addr) {
    && p in s.nodes && s.nodes[p].view.currentTerm == term
    && s.nodes[p].view.role == Follower && s.nodes[p].view.leaderAddr == n
  }

  lemma {:induction false} TellsAll(peers: seq<Addr>, live: set<Addr>, s0: State, s: State, n: Addr, term: nat,
                                    followers: seq<Addr>, k: nat)
    returns (s': State)
    requires Led(peers, live, s0, s) && forall p :: p in followers ==> p in live
    requires Told(s, n, term, followers, k)
    ensures Led(peers, live, s0, s') && Told(s', n, term, followers, |followers|)
    decreases |followers| - k
  {
    s' := s;
    if k < |followers| {
      var p := followers[k];
      assert Reached(s, n, term, p);
      var s1 := Hears(peers, live, s0, s, Heartbeat(n, term, p));
      forall i | 0 <= i < |followers|
        ensures Reached(s1, n, term, followers[i]) && (i <= k ==> Follows(s1, n, term, followers[i]))
      {
        assert Reached(s, n, term, followers[i]);
        assert i < k ==> Follows(s, n, term, followers[i]);
      }
      s' := TellsAll(peers, live, s0, s1, n, term, followers, k + 1);
    }
  }

  /** With more than half of the peers, counting itself, a candidate takes office and is known. */
  lemma TakesOffice(peers: seq<Addr>, live: set<Addr>, s0: State, s: State, n: Addr, term: nat, voters: seq<Addr>)
    returns (s': State)
    requires GoodPeers(peers) && Led(peers, live, s0, s) && n in live && n in peers
    requires forall p :: p in voters ==> p in live && p in peers
    requires Polled(s, n, term, voters, |voters|) && 2 * (1 + |voters|) > |peers|
    ensures Led(peers, live, s0, s') && Told(s', n, term, voters, |voters|)
  {
    MajorityDecides(s.nodes[n].view, n, term, 1 + |voters|, |peers|);
    var s1 := Walk(peers, live, s0, s, Decide(n));
    assert LeadsIn(s1, n, term);
    var s2 := Beats(peers, live, s0, s1, n);
    forall i | 0 <= i < |voters|
      ensures Reached(s2, n, term, voters[i])
    {
      assert voters[i] in voters && InTerm(s, n, term, voters[i]);
    }
    s' := TellsAll(peers, live, s0, s2, n, term, voters, 0);
  }

  lemma {:induction false} TermBound(nodes: map<Addr, Node>, live: set<Addr>) returns (bound: nat)
    requires live <= nodes.Keys
    ensures forall p :: p in live ==> nodes[p].view.currentTerm <= bound
  {
    if live == {} {
      bound := 0;
    } else {
      var p :| p in live;
      bound := TermBound(nodes, live - {p});
      if nodes[p].view.currentTerm > bound {
        bound := nodes[p].view.currentTerm;
      }
    }
  }

  lemma {:induction false} Listed(all: set<Addr>) returns (list: seq<Addr>)
    ensures NoDups(list) && |list| == |all| && forall p :: p in list <==> p in all
  {
    list := [];
    if all != {} {
      var p :| p in all;
      var rest := Listed(all - {p});
      list := [p] + rest;
      NoDupsCons(p, rest);
    }
  }

  // ---------- Main results ----------

  /** In `s'` node `n` leads a term later than any that a peer of `live` held in `s`,
      and every other peer of `live` follows it in that term. */
  ghost predicate Elected(live: set<Addr>, n: Addr, s: State, s': State) {
    && n in s'.nodes && LeadsIn(s', n, s'.nodes[n].view.currentTerm) && s'.nodes[n].view.leaderAddr == n
    && forall p :: p in live ==> Outdone(n, s, s', p)
  }

  ghost predicate Outdone(n: Addr, s: State, s': State, p: Addr)
    requires n in s'.nodes
  {
    var term := s'.nodes[n].view.currentTerm;
    && p in s.nodes && s.nodes[p].view.currentTerm < term
    && (p != n ==> Follows(s', n, term, p))
  }

  /** The peers of `live` other than `n`, each once. */
  ghost predicate Electorate(peers: seq<Addr>, live: set<Addr>, n: Addr, voters: seq<Addr>) {
    && NoDups(voters) && 1 + |voters| == |live|
    && (forall p :: p in voters ==> p in live && p in peers && p != n)
    && (forall p :: p in live && p != n ==> p in voters)
  }

  lemma ElectorateListed(peers: seq<Addr>, live: set<Addr>, n: Addr) returns (voters: seq<Addr>)
    requires live <= Members(peers) && n in live
    ensures Electorate(peers, live, n, voters)
  {
    voters := Listed(live - {n});
    assert forall p :: p in voters ==> p in Members(peers);
  }

  /** `n` can stand for a term past `bound` and past the terms of all its voters. */
  lemma OpensPoll(peers: seq<Addr>, live: set<Addr>, s: State, n: Addr, voters: seq<Addr>, bound: nat)
    returns (s': State, term: nat)
    requires GoodPeers(peers) && |peers| > 1 && Reachable(peers, s)
    requires live <= Members(peers) && n in live && |live| > 1 && Electorate(peers, live, n, voters)
    ensures Led(peers, live, s, s') && term > bound && Polled(s', n, term, voters, 0)
  {
    assert n in Members(peers);
    LedStart(peers, live, s);
    var s1 := BecomesFree(peers, live, s, s, n, voters[0]);
    LedFacts(peers, live, s, s1, n);
    var now := TermBound(s1.nodes, live);
    s', term := StandsPast(peers, live, s, s1, n, bound + now);
    OthersAreThePeersButSelf(peers, n);
    forall i | 0 <= i < |voters|
      ensures Unpolled(s', n, term, voters[i])
    {
      assert voters[i] in voters;
    }
  }

  lemma AllOutdone(peers: seq<Addr>, live: set<Addr>, n: Addr, s: State, s': State, term: nat, voters: seq<Addr>)
    requires live <= s.nodes.Keys && forall p :: p in live ==> s.nodes[p].view.currentTerm < term
    requires Electorate(peers, live, n, voters) && Told(s', n, term, voters, |voters|)
    ensures Elected(live, n, s, s')
  {
    forall p | p in live
      ensures Outdone(n, s, s', p)
    {
      if p != n {
        var i :| 0 <= i < |voters| && voters[i] == p;
        assert Follows(s', n, term, voters[i]);
      }
    }
  }

  lemma ElectsFrom(peers: seq<Addr>, live: set<Addr>, n: Addr, s: State) returns (s': State)
    requires GoodPeers(peers) && |peers| > 1 && Reachable(peers, s)
    requires live <= Members(peers) && n in live && 2 * |live| > |peers|
    ensures Led(peers, live, s, s') && Elected(live, n, s, s')
  {
    assert n in Members(peers);
    LedStart(peers, live, s);
    LedFacts(peers, live, s, s, n);
    var voters := ElectorateListed(peers, live, n);
    var bound := TermBound(s.nodes, live);
    var s1, term := OpensPoll(peers, live, s, n, voters, bound);
    var s2 := PollsAll(peers, live, s, s1, n, term, voters, 0);
    s' := TakesOffice(peers, live, s, s2, n, term, voters);
    AllOutdone(peers, live, n, s, s', term, voters);
  }

  /** Every run of a cluster of two or more, wherever it stands, can go on with steps of
      any majority `live` alone so that any `n` of them is elected by all of them. */
  lemma LiveMajorityElects(peers: seq<Addr>, run: seq<State>, live: set<Addr>, n: Addr) returns (more: seq<State>)
    requires GoodPeers(peers) && |peers| > 1 && IsRun(peers, run)
    requires live <= Members(peers) && n in live && 2 * |live| > |peers|
    ensures IsRun(peers, run + more)
    ensures forall i :: |run| - 1 <= i < |run| + |more| - 1 ==> LiveStepAt(peers, live, run + more, i)
    ensures Elected(live, n, run[|run| - 1], (run + more)[|run| + |more| - 1])
  {
    var s := run[|run| - 1];
    var s' := ElectsFrom(peers, live, n, s);
    var path :| IsLivePath(peers, live, path, s, s');
    more := path[1..];
    var all := run + more;
    forall i | |run| - 1 <= i < |all| - 1
      ensures LiveStepAt(peers, live, all, i)
    {
      var j := i - |run| + 1;
      assert all[i] == path[j] && all[i + 1] == path[j + 1];
      assert LiveStepAt(peers, live, path, j);
    }
    forall i | 0 <= i < |all| - 1
      ensures StepAt(peers, all, i)
    {
      if i < |run| - 1 {
        assert StepAt(peers, run, i);
      } else {
        assert LiveStepAt(peers, live, all, i);
      }
    }
    assert all[|all| - 1] == path[|path| - 1];
  }

  /** A peer outside `live` that never acts is as it started. */
  lemma {:induction false} OthersStayInitial(peers: seq<Addr>, live: set<Addr>, run: seq<State>, i: nat, p: Addr)
    requires IsRun(peers, run) && forall j :: 0 <= j < |run| - 1 ==> LiveStepAt(peers, live, run, j)
    requires i < |run| && p !in live && p in peers
    ensures p in run[i].nodes && run[i].nodes[p] == InitialNode
  {
    if i == 0 {
      assert p in Members(peers);
    } else {
      OthersStayInitial(peers, live, run, i - 1, p);
      assert LiveStepAt(peers, live, run, i - 1);
    }
  }

  /** Without more than half of the peers nobody is ever elected, however long the others run. */
  lemma MinorityElectsNobody(peers: seq<Addr>, live: set<Addr>, run: seq<State>, i: nat, n: Addr, term: nat)
    requires GoodPeers(peers) && IsRun(peers, run) && i < |run|
    requires forall j :: 0 <= j < |run| - 1 ==> LiveStepAt(peers, live, run, j)
    requires live <= Members(peers) && 2 * |live| <= |peers|
    ensures !Won(run[i].nodes, n, term) && !LeadsIn(run[i], n, term)
  {
    RunKeepsInv(peers, run, i);
    var s := run[i];
    if LeadsIn(s, n, term) {
      LeaderWon(peers, s, n, term);
    }
    if Won(s.nodes, n, term) {
      WinnerHasQuorumOfVoters(peers, s, n, term);
      forall p | p in Voters(s.nodes, n, term)
        ensures p in live
      {
        assert p in s.nodes.Keys;
        if p !in live {
          OthersStayInitial(peers, live, run, i, p);
        }
      }
      SubsetCount(Voters(s.nodes, n, term), live);
    }
  }
}
