/** The election protocol of cluster/raft.go as a step system: any number of
    nodes, one run-loop thread per node, concurrent message handlers, and vote
    RPCs that may be delayed, lost, reordered or answered after their election
    is over. One step per critical section of the source. */
module Cluster {
  import opened RaftNode
  import opened Sequences

  // ---------- State ----------

  /** Where a node's run loop stands between two critical sections. */
  datatype Pc =
    | Top                        // about to read the role in run()
    | InFollower                 // waiting in runFollower
    | InCandidate                // entered runCandidate, term not yet bumped
    | Campaigning(term: nat)     // waiting for votes of `term`
    | LeaderLoop                 // top of runLeader's loop
    | LeaderWait(term: nat)      // waiting for a tick, holding the term it read

  /** The goroutine that carries one vote RPC. */
  datatype Rpc = Waiting | Replied(granted: bool) | Counted

  /** One call of runCandidate: its vote counter and its RPC goroutines, by voter.
      It outlives the call, because an RPC may finish after it. */
  datatype Campaign = Campaign(votes: nat, rpcs: map<Addr, Rpc>)

  /** The last three fields are history: this node's vote in each term, the terms
      in which it took office, and the term its `leaderAddr` comes from. */
  datatype Node = Node(
    view: View,
    pc: Pc,
    campaigns: map<nat, Campaign>,
    ballots: map<nat, Addr>,
    offices: set<nat>,
    leaderSince: nat)

  datatype VoteResponse = VoteResponse(candidate: Addr, term: nat, voter: Addr, reply: VoteReply)
  datatype Heartbeat = Heartbeat(leader: Addr, term: nat, to: Addr)

  /** Messages are never removed, so each can arrive late, twice, out of order or
      not at all. A vote request is in flight once its campaign has an RPC for it. */
  datatype State = State(
    nodes: map<Addr, Node>,
    responses: set<VoteResponse>,
    heartbeats: set<Heartbeat>)

  /** What NewNode and the deployment guide ask for: one duplicate-free list of
      non-empty addresses, the same on every node. */
  ghost predicate GoodPeers(peers: seq<Addr>) {
    NoDups(peers) && NONE !in peers
  }

  function Members(peers: seq<Addr>): set<Addr> {
    set p | p in peers
  }

  const InitialNode := Node(InitialView, Top, map[], map[], {}, 0)

  function InitialState(peers: seq<Addr>): State {
    State(map p | p in Members(peers) :: InitialNode, {}, {})
  }

  // ---------- Steps ----------

  datatype Step =
    | Dispatch(n: Addr)
    | FollowerWake(n: Addr)
    | FollowerTimeout(n: Addr)
    | StartElection(n: Addr)
    | CampaignWake(n: Addr)
    | Decide(n: Addr)
    | LeaderCheck(n: Addr)
    | LeaderTick(n: Addr)
    | LeaderWake(n: Addr)
    | DeliverHeartbeat(h: Heartbeat)
    | DeliverVoteRequest(n: Addr, term: nat, voter: Addr)
    | ReceiveReply(m: VoteResponse)
    | CountVote(n: Addr, term: nat, voter: Addr)

  predicate HasRpc(node: Node, term: nat, voter: Addr) {
    term in node.campaigns && voter in node.campaigns[term].rpcs
  }

  /** Timers and the wake-up channel may fire whenever the source waits on them. */
  predicate Enabled(s: State, step: Step) {
    match step
    case Dispatch(n) => n in s.nodes && s.nodes[n].pc == Top
    case FollowerWake(n) => n in s.nodes && s.nodes[n].pc == InFollower
    case FollowerTimeout(n) => n in s.nodes && s.nodes[n].pc == InFollower
    case StartElection(n) => n in s.nodes && s.nodes[n].pc == InCandidate
    case CampaignWake(n) => n in s.nodes && s.nodes[n].pc.Campaigning?
    case Decide(n) => n in s.nodes && s.nodes[n].pc.Campaigning? && s.nodes[n].pc.term in s.nodes[n].campaigns
    case LeaderCheck(n) => n in s.nodes && s.nodes[n].pc == LeaderLoop
    case LeaderTick(n) => n in s.nodes && s.nodes[n].pc.LeaderWait?
    case LeaderWake(n) => n in s.nodes && s.nodes[n].pc.LeaderWait?
    case DeliverHeartbeat(h) => h in s.heartbeats && h.to in s.nodes
    case DeliverVoteRequest(n, term, voter) => n in s.nodes && voter in s.nodes && HasRpc(s.nodes[n], term, voter)
    case ReceiveReply(m) =>
      && m in s.responses && m.candidate in s.nodes && HasRpc(s.nodes[m.candidate], m.term, m.voter)
      && s.nodes[m.candidate].campaigns[m.term].rpcs[m.voter] == Waiting
    case CountVote(n, term, voter) =>
      && n in s.nodes && HasRpc(s.nodes[n], term, voter)
      && s.nodes[n].campaigns[term].rpcs[voter] == Replied(true)
  }

  function EntryPoint(role: Role): Pc {
    match role
    case Follower => InFollower
    case Candidate => InCandidate
    case Leader => LeaderLoop
  }

  /** Start of a campaign: bump the term, vote for self, fire one RPC per other peer. */
  function Begin(peers: seq<Addr>, n: Addr, node: Node): Node {
    var v := OnStartElection(node.view, n);
    node.(view := v,
          pc := Campaigning(v.currentTerm),
          campaigns := node.campaigns[v.currentTerm := Campaign(1, map p | p in Others(peers, n) :: Waiting)],
          ballots := node.ballots[v.currentTerm := n])
  }

  function Conclude(peerCount: nat, n: Addr, node: Node, term: nat): Node
    requires term in node.campaigns
  {
    var (v, elected) := OnDecide(node.view, n, term, node.campaigns[term].votes, peerCount);
    if elected
    then node.(view := v, pc := Top, offices := node.offices + {term}, leaderSince := term)
    else node.(view := v, pc := Top)
  }

  function HandleBeat(node: Node, h: Heartbeat): Node {
    if h.term < node.view.currentTerm then node
    else node.(view := OnHeartbeat(node.view, h.term, h.leader), leaderSince := h.term)
  }

  function HandleRequest(node: Node, term: nat, candidate: Addr): (Node, VoteReply) {
    var (v, reply) := OnVoteRequest(node.view, term, candidate);
    if reply.granted
    then (node.(view := v, ballots := node.ballots[v.currentTerm := candidate]), reply)
    else (node.(view := v), reply)
  }

  function SetRpc(node: Node, term: nat, voter: Addr, rpc: Rpc, votes: nat): Node
    requires term in node.campaigns
  {
    node.(campaigns := node.campaigns[term := Campaign(votes, node.campaigns[term].rpcs[voter := rpc])])
  }

  function Receive(node: Node, m: VoteResponse): Node
    requires m.term in node.campaigns
  {
    SetRpc(node.(view := AdoptTerm(node.view, m.reply.term)),
           m.term, m.voter, Replied(m.reply.granted), node.campaigns[m.term].votes)
  }

  function Count(node: Node, term: nat, voter: Addr): Node
    requires term in node.campaigns
  {
    SetRpc(node, term, voter, Counted, node.campaigns[term].votes + 1)
  }

  /** The node that a step acts on. */
  function Actor(step: Step): Addr {
    match step
    case DeliverHeartbeat(h) => h.to
    case DeliverVoteRequest(n, term, voter) => voter
    case ReceiveReply(m) => m.candidate
    case _ => step.n
  }

  function Act(peers: seq<Addr>, s: State, step: Step): Node
    requires Enabled(s, step)
  {
    var node := s.nodes[Actor(step)];
    match step
    case Dispatch(n) => node.(pc := EntryPoint(node.view.role))
    case FollowerWake(n) => node.(pc := Top)
    case FollowerTimeout(n) => node.(view := OnElectionTimeout(node.view), pc := Top)
    case StartElection(n) => Begin(peers, n, node)
    case CampaignWake(n) => node.(view := OnStepBack(node.view), pc := Top)
    case Decide(n) => Conclude(|peers|, n, node, node.pc.term)
    case LeaderCheck(n) =>
      node.(pc := if node.view.role == Leader then LeaderWait(node.view.currentTerm) else Top)
    case LeaderTick(n) => node.(pc := LeaderLoop)
    case LeaderWake(n) => node.(pc := if node.view.role == Leader then LeaderLoop else Top)
    case DeliverHeartbeat(h) => HandleBeat(node, h)
    case DeliverVoteRequest(n, term, voter) => HandleRequest(node, term, n).0
    case ReceiveReply(m) => Receive(node, m)
    case CountVote(n, term, voter) => Count(node, term, voter)
  }

  function ResponsesAfter(s: State, step: Step): set<VoteResponse>
    requires Enabled(s, step)
  {
    if step.DeliverVoteRequest?
    then s.responses + {VoteResponse(step.n, step.term, step.voter,
                                     HandleRequest(s.nodes[step.voter], step.term, step.n).1)}
    else s.responses
  }

  /** One heartbeat to every other peer. */
  function Beats(peers: seq<Addr>, n: Addr, term: nat): set<Heartbeat> {
    set p | p in Others(peers, n) :: Heartbeat(n, term, p)
  }

  function HeartbeatsAfter(peers: seq<Addr>, s: State, step: Step): set<Heartbeat>
    requires Enabled(s, step)
  {
    if step.LeaderTick?
    then s.heartbeats + Beats(peers, step.n, s.nodes[step.n].pc.term)
    else s.heartbeats
  }

  function Apply(peers: seq<Addr>, s: State, step: Step): State
    requires Enabled(s, step)
  {
    State(s.nodes[Actor(step) := Act(peers, s, step)], ResponsesAfter(s, step), HeartbeatsAfter(peers, s, step))
  }

  ghost predicate Next(peers: seq<Addr>, s: State, s': State) {
    exists step :: Enabled(s, step) && s' == Apply(peers, s, step)
  }

  ghost predicate IsRun(peers: seq<Addr>, run: seq<State>) {
    && |run| > 0 && run[0] == InitialState(peers)
    && forall i :: 0 <= i < |run| - 1 ==> StepAt(peers, run, i)
  }

  ghost predicate StepAt(peers: seq<Addr>, run: seq<State>, i: nat)
    requires i + 1 < |run|
  {
    Next(peers, run[i], run[i + 1])
  }

  // ---------- Invariant ----------

  function BallotIn(ballots: map<nat, Addr>, term: nat): Addr {
    if term in ballots then ballots[term] else NONE
  }

  /** `votedFor` is the current term's entry of the vote history, empty iff there is none. */
  ghost predicate VotesMatchHistory(view: View, ballots: map<nat, Addr>) {
    && (forall t :: t in ballots ==> t <= view.currentTerm && ballots[t] != NONE)
    && view.votedFor == BallotIn(ballots, view.currentTerm)
  }

  function CountedVoters(rpcs: map<Addr, Rpc>): set<Addr> {
    set p | p in rpcs && rpcs[p] == Counted
  }

  /** The counter is the self-vote plus the peers counted so far, and nobody asks itself. */
  ghost predicate CampaignOk(n: Addr, c: Campaign) {
    c.votes == 1 + |CountedVoters(c.rpcs)| && n !in c.rpcs
  }

  ghost predicate CampaignsOk(n: Addr, campaigns: map<nat, Campaign>, ballots: map<nat, Addr>) {
    forall t :: t in campaigns ==> CampaignOk(n, campaigns[t]) && BallotIn(ballots, t) == n
  }

  ghost predicate OfficesOk(peerCount: nat, campaigns: map<nat, Campaign>, offices: set<nat>) {
    forall t :: t in offices ==> t in campaigns && campaigns[t].votes >= Quorum(peerCount)
  }

  /** Only the run loop makes leaders, and a leader's run loop is past its campaign. */
  ghost predicate RoleOk(node: Node) {
    && (node.view.role == Leader ==>
          && (node.pc == Top || node.pc == LeaderLoop || node.pc.LeaderWait?)
          && node.view.currentTerm in node.offices)
    && (node.pc.Campaigning? ==> node.pc.term in node.campaigns)
    && (node.pc.LeaderWait? ==> node.pc.term in node.offices)
  }

  ghost predicate NodeOk(peerCount: nat, n: Addr, node: Node) {
    && VotesMatchHistory(node.view, node.ballots)
    && CampaignsOk(n, node.campaigns, node.ballots)
    && OfficesOk(peerCount, node.campaigns, node.offices)
    && RoleOk(node)
    && node.leaderSince <= node.view.currentTerm
  }

  // Facts about other nodes; once true they stay true.

  ghost predicate Voted(nodes: map<Addr, Node>, voter: Addr, term: nat, candidate: Addr) {
    voter in nodes && term in nodes[voter].ballots && nodes[voter].ballots[term] == candidate
  }

  ghost predicate Won(nodes: map<Addr, Node>, n: Addr, term: nat) {
    n in nodes && term in nodes[n].offices
  }

  ghost predicate Asked(nodes: map<Addr, Node>, candidate: Addr, term: nat, voter: Addr) {
    candidate in nodes && HasRpc(nodes[candidate], term, voter)
  }

  /** Every granted RPC of a campaign is backed by a vote. */
  ghost predicate GrantsBacked(nodes: map<Addr, Node>, n: Addr, campaigns: map<nat, Campaign>) {
    forall t, p :: t in campaigns && p in campaigns[t].rpcs ==>
      && p in nodes
      && (campaigns[t].rpcs[p] in {Counted, Replied(true)} ==> Voted(nodes, p, t, n))
  }

  /** A known leader address names the winner of the term it came from. */
  ghost predicate LeaderBacked(nodes: map<Addr, Node>, leaderAddr: Addr, since: nat) {
    leaderAddr != NONE ==> Won(nodes, leaderAddr, since)
  }

  ghost predicate NodeBacked(nodes: map<Addr, Node>, n: Addr, node: Node) {
    GrantsBacked(nodes, n, node.campaigns) && LeaderBacked(nodes, node.view.leaderAddr, node.leaderSince)
  }

  /** A granted reply answers a request that was sent, carries that request's term, and is a real vote. */
  ghost predicate ResponseBacked(nodes: map<Addr, Node>, m: VoteResponse) {
    && Asked(nodes, m.candidate, m.term, m.voter)
    && (m.reply.granted ==> m.reply.term == m.term && Voted(nodes, m.voter, m.term, m.candidate))
  }

  ghost predicate BeatBacked(nodes: map<Addr, Node>, h: Heartbeat) {
    Won(nodes, h.leader, h.term) && h.to in nodes && h.to != h.leader
  }

  ghost predicate AllNodesOk(peerCount: nat, nodes: map<Addr, Node>) {
    forall n :: n in nodes ==> NodeOk(peerCount, n, nodes[n])
  }

  ghost predicate AllNodesBacked(nodes: map<Addr, Node>) {
    forall n :: n in nodes ==> NodeBacked(nodes, n, nodes[n])
  }

  ghost predicate MessagesBacked(nodes: map<Addr, Node>, responses: set<VoteResponse>, heartbeats: set<Heartbeat>) {
    && (forall m :: m in responses ==> ResponseBacked(nodes, m))
    && (forall h :: h in heartbeats ==> BeatBacked(nodes, h))
  }

  ghost predicate Inv(peers: seq<Addr>, s: State) {
    && s.nodes.Keys == Members(peers)
    && AllNodesOk(|peers|, s.nodes)
    && AllNodesBacked(s.nodes)
    && MessagesBacked(s.nodes, s.responses, s.heartbeats)
  }

  // ---------- What a step may do to its node ----------

  /** Terms go up; ballots, offices and RPCs are never withdrawn. */
  ghost predicate Grows(a: Node, b: Node) {
    && a.view.currentTerm <= b.view.currentTerm
    && a.leaderSince <= b.leaderSince
    && a.offices <= b.offices
    && (forall t :: t in a.ballots ==> t in b.ballots && b.ballots[t] == a.ballots[t])
    && (forall t, p :: HasRpc(a, t, p) ==> HasRpc(b, t, p))
  }

  ghost predicate NodesGrow(a: map<Addr, Node>, b: map<Addr, Node>) {
    a.Keys == b.Keys && forall n :: n in a ==> Grows(a[n], b[n])
  }

  lemma ReflexiveGrows(a: Node)
    ensures Grows(a, a)
  {
  }

  lemma OneNodeGrows(nodes: map<Addr, Node>, n: Addr, w: Node)
    requires n in nodes && Grows(nodes[n], w)
    ensures NodesGrow(nodes, nodes[n := w])
  {
    forall p | p in nodes
      ensures Grows(nodes[p], nodes[n := w][p])
    {
      if p != n {
        ReflexiveGrows(nodes[p]);
      }
    }
  }

  lemma NodeStaysBacked(a: map<Addr, Node>, b: map<Addr, Node>, n: Addr, node: Node)
    requires NodesGrow(a, b) && NodeBacked(a, n, node)
    ensures NodeBacked(b, n, node)
  {
    forall t, p | t in node.campaigns && p in node.campaigns[t].rpcs && Voted(a, p, t, n)
      ensures Voted(b, p, t, n)
    {
      assert Grows(a[p], b[p]);
    }
  }

  lemma ResponseStaysBacked(a: map<Addr, Node>, b: map<Addr, Node>, m: VoteResponse)
    requires NodesGrow(a, b) && ResponseBacked(a, m)
    ensures ResponseBacked(b, m)
  {
  }

  lemma BeatStaysBacked(a: map<Addr, Node>, b: map<Addr, Node>, h: Heartbeat)
    requires NodesGrow(a, b) && BeatBacked(a, h)
    ensures BeatBacked(b, h)
  {
  }

  lemma NodesStayBacked(nodes: map<Addr, Node>, n: Addr, w: Node)
    requires n in nodes && AllNodesBacked(nodes) && NodesGrow(nodes, nodes[n := w])
    requires NodeBacked(nodes[n := w], n, w)
    ensures AllNodesBacked(nodes[n := w])
  {
    forall p | p in nodes && p != n
      ensures NodeBacked(nodes[n := w], p, nodes[p])
    {
      NodeStaysBacked(nodes, nodes[n := w], p, nodes[p]);
    }
  }

  lemma MessagesStayBacked(
    a: map<Addr, Node>, b: map<Addr, Node>, responses: set<VoteResponse>, heartbeats: set<Heartbeat>)
    requires NodesGrow(a, b) && MessagesBacked(a, responses, heartbeats)
    ensures MessagesBacked(b, responses, heartbeats)
  {
    forall m | m in responses
      ensures ResponseBacked(b, m)
    {
      ResponseStaysBacked(a, b, m);
    }
    forall h | h in heartbeats
      ensures BeatBacked(b, h)
    {
      BeatStaysBacked(a, b, h);
    }
  }

  /** A step that grows one node correctly keeps the invariant of the cluster. */
  lemma StepKeepsInv(peers: seq<Addr>, s: State, n: Addr, w: Node, m: set<VoteResponse>, h: set<Heartbeat>)
    requires Inv(peers, s) && n in s.nodes
    requires NodeOk(|peers|, n, w) && Grows(s.nodes[n], w)
    requires NodeBacked(s.nodes[n := w], n, w) && MessagesBacked(s.nodes[n := w], m, h)
    ensures Inv(peers, State(s.nodes[n := w], s.responses + m, s.heartbeats + h))
  {
    OneNodeGrows(s.nodes, n, w);
    NodesStayBacked(s.nodes, n, w);
    MessagesStayBacked(s.nodes, s.nodes[n := w], s.responses, s.heartbeats);
  }

  // ---------- Each step grows its node correctly ----------

  /** A step that casts no vote, starts no campaign and wins no office. */
  lemma QuietNodeOk(peerCount: nat, n: Addr, a: Node, b: Node)
    requires NodeOk(peerCount, n, a)
    requires b == a.(view := b.view, pc := b.pc, leaderSince := b.leaderSince)
    requires RoleOk(b) && a.leaderSince <= b.leaderSince <= b.view.currentTerm
    requires || (b.view.currentTerm == a.view.currentTerm && b.view.votedFor == a.view.votedFor)
             || (b.view.currentTerm > a.view.currentTerm && b.view.votedFor == NONE)
    ensures NodeOk(peerCount, n, b) && Grows(a, b)
  {
    assert b.view.currentTerm > a.view.currentTerm ==> b.view.currentTerm !in a.ballots;
  }

  lemma BeginNodeOk(peers: seq<Addr>, n: Addr, a: Node)
    requires n != NONE && NodeOk(|peers|, n, a) && a.pc == InCandidate
    ensures NodeOk(|peers|, n, Begin(peers, n, a)) && Grows(a, Begin(peers, n, a))
  {
    var b := Begin(peers, n, a);
    var t := b.view.currentTerm;
    OthersAreThePeersButSelf(peers, n);
    assert t !in a.ballots;
    assert t !in a.campaigns;
    assert CountedVoters(b.campaigns[t].rpcs) == {};
  }

  lemma ConcludeNodeOk(peerCount: nat, n: Addr, a: Node)
    requires NodeOk(peerCount, n, a) && a.pc.Campaigning?
    ensures var b := Conclude(peerCount, n, a, a.pc.term); NodeOk(peerCount, n, b) && Grows(a, b)
  {
  }

  lemma GrantNodeOk(peerCount: nat, n: Addr, a: Node, term: nat, candidate: Addr)
    requires NodeOk(peerCount, n, a) && n != NONE && candidate != NONE
    requires HandleRequest(a, term, candidate).1.granted
    ensures var (b, reply) := HandleRequest(a, term, candidate);
            && NodeOk(peerCount, n, b) && Grows(a, b)
            && reply.term == term && BallotIn(b.ballots, term) == candidate
  {
    assert term > a.view.currentTerm ==> term !in a.ballots;
  }

  lemma HandleRequestNodeOk(peerCount: nat, n: Addr, a: Node, term: nat, candidate: Addr)
    requires NodeOk(peerCount, n, a) && n != NONE && candidate != NONE
    ensures var (b, reply) := HandleRequest(a, term, candidate);
            && NodeOk(peerCount, n, b) && Grows(a, b)
            && (reply.granted ==> reply.term == term && BallotIn(b.ballots, term) == candidate)
  {
    var (b, reply) := HandleRequest(a, term, candidate);
    if reply.granted {
      GrantNodeOk(peerCount, n, a, term, candidate);
    } else {
      QuietNodeOk(peerCount, n, a, b);
    }
  }

  lemma CampaignAfterRpc(n: Addr, c: Campaign, voter: Addr, rpc: Rpc)
    requires CampaignOk(n, c) && voter in c.rpcs && c.rpcs[voter] != Counted
    ensures CampaignOk(n, Campaign(c.votes + if rpc == Counted then 1 else 0, c.rpcs[voter := rpc]))
  {
    assert CountedVoters(c.rpcs[voter := rpc]) == CountedVoters(c.rpcs) + if rpc == Counted then {voter} else {};
  }

  lemma RpcNodeOk(peerCount: nat, n: Addr, a: Node, term: nat, voter: Addr, rpc: Rpc, votes: nat)
    requires NodeOk(peerCount, n, a) && HasRpc(a, term, voter) && a.campaigns[term].rpcs[voter] != Counted
    requires votes == a.campaigns[term].votes + if rpc == Counted then 1 else 0
    ensures NodeOk(peerCount, n, SetRpc(a, term, voter, rpc, votes)) && Grows(a, SetRpc(a, term, voter, rpc, votes))
  {
    CampaignAfterRpc(n, a.campaigns[term], voter, rpc);
  }

  lemma GrantsAfterBegin(nodes: map<Addr, Node>, n: Addr, campaigns: map<nat, Campaign>, term: nat, c: Campaign)
    requires GrantsBacked(nodes, n, campaigns)
    requires forall p :: p in c.rpcs ==> p in nodes && c.rpcs[p] == Waiting
    ensures GrantsBacked(nodes, n, campaigns[term := c])
  {
  }

  lemma GrantsAfterRpc(
    nodes: map<Addr, Node>, n: Addr, campaigns: map<nat, Campaign>, term: nat, voter: Addr, rpc: Rpc, votes: nat)
    requires GrantsBacked(nodes, n, campaigns) && term in campaigns && voter in nodes
    requires rpc in {Counted, Replied(true)} ==> Voted(nodes, voter, term, n)
    ensures GrantsBacked(nodes, n, campaigns[term := Campaign(votes, campaigns[term].rpcs[voter := rpc])])
  {
  }

  /** What Receive and Count do to a node: maybe adopt a term, then move one RPC on. */
  function AfterRpc(a: Node, seen: nat, term: nat, voter: Addr, rpc: Rpc, votes: nat): Node
    requires term in a.campaigns
  {
    SetRpc(a.(view := AdoptTerm(a.view, seen)), term, voter, rpc, votes)
  }

  lemma AfterRpcNodeOk(peerCount: nat, n: Addr, a: Node, seen: nat, term: nat, voter: Addr, rpc: Rpc, votes: nat)
    requires NodeOk(peerCount, n, a) && HasRpc(a, term, voter) && a.campaigns[term].rpcs[voter] != Counted
    requires votes == a.campaigns[term].votes + if rpc == Counted then 1 else 0
    ensures var b := AfterRpc(a, seen, term, voter, rpc, votes); NodeOk(peerCount, n, b) && Grows(a, b)
  {
    var mid := a.(view := AdoptTerm(a.view, seen));
    QuietNodeOk(peerCount, n, a, mid);
    RpcNodeOk(peerCount, n, mid, term, voter, rpc, votes);
  }

  lemma AfterRpcBacked(nodes: map<Addr, Node>, n: Addr, a: Node, seen: nat, term: nat, voter: Addr, rpc: Rpc, votes: nat)
    requires NodeBacked(nodes, n, a) && HasRpc(a, term, voter)
    requires rpc in {Counted, Replied(true)} ==> Voted(nodes, voter, term, n)
    ensures NodeBacked(nodes, n, AfterRpc(a, seen, term, voter, rpc, votes))
  {
    GrantsAfterRpc(nodes, n, a.campaigns, term, voter, rpc, votes);
  }

  lemma AfterRpcKeepsInv(peers: seq<Addr>, s: State, n: Addr, seen: nat, term: nat, voter: Addr, rpc: Rpc, votes: nat)
    requires Inv(peers, s) && n in s.nodes && HasRpc(s.nodes[n], term, voter)
    requires s.nodes[n].campaigns[term].rpcs[voter] != Counted
    requires votes == s.nodes[n].campaigns[term].votes + if rpc == Counted then 1 else 0
    requires rpc in {Counted, Replied(true)} ==> Voted(s.nodes, voter, term, n)
    ensures Inv(peers, s.(nodes := s.nodes[n := AfterRpc(s.nodes[n], seen, term, voter, rpc, votes)]))
    ensures NodesGrow(s.nodes, s.nodes[n := AfterRpc(s.nodes[n], seen, term, voter, rpc, votes)])
  {
    var a, b := s.nodes[n], AfterRpc(s.nodes[n], seen, term, voter, rpc, votes);
    AfterRpcNodeOk(|peers|, n, a, seen, term, voter, rpc, votes);
    AfterRpcBacked(s.nodes, n, a, seen, term, voter, rpc, votes);
    OneNodeGrows(s.nodes, n, b);
    NodeStaysBacked(s.nodes, s.nodes[n := b], n, b);
    StepKeepsInv(peers, s, n, b, {}, {});
  }

  // ---------- Each step keeps the invariant ----------

  lemma InitialInv(peers: seq<Addr>)
    ensures Inv(peers, InitialState(peers))
  {
  }

  /** Run-loop steps that only move the program counter or change the role of a node not leading. */
  lemma MoveKeepsInv(peers: seq<Addr>, s: State, step: Step)
    requires Inv(peers, s) && Enabled(s, step)
    requires step.Dispatch? || step.FollowerWake? || step.FollowerTimeout? || step.CampaignWake?
          || step.LeaderCheck? || step.LeaderWake?
    ensures Inv(peers, Apply(peers, s, step))
    ensures NodesGrow(s.nodes, Apply(peers, s, step).nodes)
  {
    var n := step.n;
    var a, b := s.nodes[n], Act(peers, s, step);
    assert NodeOk(|peers|, n, a) && NodeBacked(s.nodes, n, a);
    QuietNodeOk(|peers|, n, a, b);
    OneNodeGrows(s.nodes, n, b);
    NodeStaysBacked(s.nodes, s.nodes[n := b], n, a);
    StepKeepsInv(peers, s, n, b, {}, {});
  }

  lemma TickKeepsInv(peers: seq<Addr>, s: State, n: Addr)
    requires Inv(peers, s) && Enabled(s, LeaderTick(n))
    ensures Inv(peers, Apply(peers, s, LeaderTick(n)))
    ensures NodesGrow(s.nodes, Apply(peers, s, LeaderTick(n)).nodes)
  {
    var a, b := s.nodes[n], Act(peers, s, LeaderTick(n));
    assert NodeOk(|peers|, n, a) && NodeBacked(s.nodes, n, a);
    QuietNodeOk(|peers|, n, a, b);
    OneNodeGrows(s.nodes, n, b);
    NodeStaysBacked(s.nodes, s.nodes[n := b], n, a);
    BeatsBacked(peers, s.nodes[n := b], n, a.pc.term);
    StepKeepsInv(peers, s, n, b, {}, Beats(peers, n, a.pc.term));
  }

  lemma BeatsBacked(peers: seq<Addr>, nodes: map<Addr, Node>, n: Addr, term: nat)
    requires nodes.Keys == Members(peers) && Won(nodes, n, term)
    ensures MessagesBacked(nodes, {}, Beats(peers, n, term))
  {
    OthersAreThePeersButSelf(peers, n);
  }

  lemma BeginKeepsInv(peers: seq<Addr>, s: State, n: Addr)
    requires GoodPeers(peers) && Inv(peers, s) && Enabled(s, StartElection(n))
    ensures Inv(peers, Apply(peers, s, StartElection(n)))
    ensures NodesGrow(s.nodes, Apply(peers, s, StartElection(n)).nodes)
  {
    var a, b := s.nodes[n], Begin(peers, n, s.nodes[n]);
    assert NodeOk(|peers|, n, a) && NodeBacked(s.nodes, n, a);
    BeginNodeOk(peers, n, a);
    OneNodeGrows(s.nodes, n, b);
    NodeStaysBacked(s.nodes, s.nodes[n := b], n, a);
    OthersAreThePeersButSelf(peers, n);
    GrantsAfterBegin(s.nodes[n := b], n, a.campaigns, b.view.currentTerm, b.campaigns[b.view.currentTerm]);
    StepKeepsInv(peers, s, n, b, {}, {});
  }

  lemma ConcludeKeepsInv(peers: seq<Addr>, s: State, n: Addr)
    requires Inv(peers, s) && Enabled(s, Decide(n))
    ensures Inv(peers, Apply(peers, s, Decide(n)))
    ensures NodesGrow(s.nodes, Apply(peers, s, Decide(n)).nodes)
  {
    var a, b := s.nodes[n], Act(peers, s, Decide(n));
    assert NodeOk(|peers|, n, a) && NodeBacked(s.nodes, n, a);
    ConcludeNodeOk(|peers|, n, a);
    OneNodeGrows(s.nodes, n, b);
    NodeStaysBacked(s.nodes, s.nodes[n := b], n, a);
    ConcludeBacked(|peers|, s.nodes[n := b], n, a);
    StepKeepsInv(peers, s, n, b, {}, {});
  }

  /** A node that takes office is its own known leader. */
  lemma ConcludeBacked(peerCount: nat, nodes: map<Addr, Node>, n: Addr, a: Node)
    requires a.pc.Campaigning? && a.pc.term in a.campaigns && NodeBacked(nodes, n, a)
    requires n in nodes && nodes[n] == Conclude(peerCount, n, a, a.pc.term)
    ensures NodeBacked(nodes, n, nodes[n])
  {
  }

  lemma HandleBeatKeepsInv(peers: seq<Addr>, s: State, h: Heartbeat)
    requires Inv(peers, s) && Enabled(s, DeliverHeartbeat(h))
    ensures Inv(peers, Apply(peers, s, DeliverHeartbeat(h)))
    ensures NodesGrow(s.nodes, Apply(peers, s, DeliverHeartbeat(h)).nodes)
  {
    var n := h.to;
    var a, b := s.nodes[n], HandleBeat(s.nodes[n], h);
    assert NodeOk(|peers|, n, a) && NodeBacked(s.nodes, n, a) && BeatBacked(s.nodes, h);
    QuietNodeOk(|peers|, n, a, b);
    OneNodeGrows(s.nodes, n, b);
    NodeStaysBacked(s.nodes, s.nodes[n := b], n, a);
    BeatStaysBacked(s.nodes, s.nodes[n := b], h);
    StepKeepsInv(peers, s, n, b, {}, {});
  }

  lemma HandleRequestKeepsInv(peers: seq<Addr>, s: State, candidate: Addr, term: nat, n: Addr)
    requires GoodPeers(peers) && Inv(peers, s) && Enabled(s, DeliverVoteRequest(candidate, term, n))
    ensures Inv(peers, Apply(peers, s, DeliverVoteRequest(candidate, term, n)))
    ensures NodesGrow(s.nodes, Apply(peers, s, DeliverVoteRequest(candidate, term, n)).nodes)
  {
    var a := s.nodes[n];
    var (b, reply) := HandleRequest(a, term, candidate);
    assert NodeOk(|peers|, n, a) && NodeBacked(s.nodes, n, a);
    HandleRequestNodeOk(|peers|, n, a, term, candidate);
    OneNodeGrows(s.nodes, n, b);
    NodeStaysBacked(s.nodes, s.nodes[n := b], n, a);
    assert Asked(s.nodes[n := b], candidate, term, n);
    StepKeepsInv(peers, s, n, b, {VoteResponse(candidate, term, n, reply)}, {});
  }

  lemma ReceiveKeepsInv(peers: seq<Addr>, s: State, m: VoteResponse)
    requires Inv(peers, s) && Enabled(s, ReceiveReply(m))
    ensures Inv(peers, Apply(peers, s, ReceiveReply(m)))
    ensures NodesGrow(s.nodes, Apply(peers, s, ReceiveReply(m)).nodes)
  {
    var a := s.nodes[m.candidate];
    assert ResponseBacked(s.nodes, m);
    AfterRpcKeepsInv(peers, s, m.candidate, m.reply.term, m.term, m.voter,
                     Replied(m.reply.granted), a.campaigns[m.term].votes);
    assert Receive(a, m) == AfterRpc(a, m.reply.term, m.term, m.voter,
                                     Replied(m.reply.granted), a.campaigns[m.term].votes);
  }

  lemma CountKeepsInv(peers: seq<Addr>, s: State, n: Addr, term: nat, voter: Addr)
    requires Inv(peers, s) && Enabled(s, CountVote(n, term, voter))
    ensures Inv(peers, Apply(peers, s, CountVote(n, term, voter)))
    ensures NodesGrow(s.nodes, Apply(peers, s, CountVote(n, term, voter)).nodes)
  {
    var a := s.nodes[n];
    assert NodeBacked(s.nodes, n, a);
    AfterRpcKeepsInv(peers, s, n, 0, term, voter, Counted, a.campaigns[term].votes + 1);
    assert Count(a, term, voter) == AfterRpc(a, 0, term, voter, Counted, a.campaigns[term].votes + 1);
  }

  lemma NextKeepsInv(peers: seq<Addr>, s: State, s': State)
    requires GoodPeers(peers) && Inv(peers, s) && Next(peers, s, s')
    ensures Inv(peers, s') && NodesGrow(s.nodes, s'.nodes)
  {
    var step :| Enabled(s, step) && s' == Apply(peers, s, step);
    match step
    case StartElection(n) => BeginKeepsInv(peers, s, n);
    case Decide(n) => ConcludeKeepsInv(peers, s, n);
    case LeaderTick(n) => TickKeepsInv(peers, s, n);
    case DeliverHeartbeat(h) => HandleBeatKeepsInv(peers, s, h);
    case DeliverVoteRequest(n, term, voter) => HandleRequestKeepsInv(peers, s, n, term, voter);
    case ReceiveReply(m) => ReceiveKeepsInv(peers, s, m);
    case CountVote(n, term, voter) => CountKeepsInv(peers, s, n, term, voter);
    case _ => MoveKeepsInv(peers, s, step);
  }

  // ---------- Quorums ----------

  lemma {:induction false} MembersCount(peers: seq<Addr>)
    requires NoDups(peers)
    ensures |Members(peers)| == |peers|
  {
    if peers != [] {
      var k := |peers| - 1;
      MembersCount(peers[..k]);
      assert peers == peers[..k] + [peers[k]];
      assert Members(peers) == Members(peers[..k]) + {peers[k]};
    }
  }

  ghost function Voters(nodes: map<Addr, Node>, n: Addr, term: nat): set<Addr> {
    set p | p in nodes && Voted(nodes, p, term, n)
  }

  lemma WinnerHasQuorumOfVoters(peers: seq<Addr>, s: State, n: Addr, term: nat)
    requires GoodPeers(peers) && Inv(peers, s) && Won(s.nodes, n, term)
    ensures |Voters(s.nodes, n, term)| >= Quorum(|peers|) && 2 * |Voters(s.nodes, n, term)| > |peers|
  {
    var c := s.nodes[n].campaigns[term];
    var counted := CountedVoters(c.rpcs);
    assert NodeOk(|peers|, n, s.nodes[n]) && NodeBacked(s.nodes, n, s.nodes[n]);
    assert CampaignOk(n, c);
    assert Voted(s.nodes, n, term, n);
    assert counted + {n} <= Voters(s.nodes, n, term);
    SubsetCount(counted + {n}, Voters(s.nodes, n, term));
  }

  /** Quorum intersection: one term has at most one winner. */
  lemma OneWinnerPerTerm(peers: seq<Addr>, s: State, a: Addr, b: Addr, term: nat)
    requires GoodPeers(peers) && Inv(peers, s)
    requires Won(s.nodes, a, term) && Won(s.nodes, b, term)
    ensures a == b
  {
    var va, vb := Voters(s.nodes, a, term), Voters(s.nodes, b, term);
    WinnerHasQuorumOfVoters(peers, s, a, term);
    WinnerHasQuorumOfVoters(peers, s, b, term);
    MembersCount(peers);
    DisjointCount(va, vb, Members(peers));
    var p :| p in va && p in vb;
  }

  // ---------- Theorems over whole runs ----------

  lemma {:induction false} RunKeepsInv(peers: seq<Addr>, run: seq<State>, i: nat)
    requires GoodPeers(peers) && IsRun(peers, run) && i < |run|
    ensures Inv(peers, run[i])
  {
    if i == 0 {
      InitialInv(peers);
    } else {
      RunKeepsInv(peers, run, i - 1);
      assert StepAt(peers, run, i - 1);
      NextKeepsInv(peers, run[i - 1], run[i]);
    }
  }

  lemma NodesGrowReflexive(a: map<Addr, Node>)
    ensures NodesGrow(a, a)
  {
    forall n | n in a
      ensures Grows(a[n], a[n])
    {
      ReflexiveGrows(a[n]);
    }
  }

  lemma NodesGrowTransitive(a: map<Addr, Node>, b: map<Addr, Node>, c: map<Addr, Node>)
    requires NodesGrow(a, b) && NodesGrow(b, c)
    ensures NodesGrow(a, c)
  {
    forall n | n in a
      ensures Grows(a[n], c[n])
    {
      assert Grows(a[n], b[n]) && Grows(b[n], c[n]);
    }
  }

  lemma RunStepGrows(peers: seq<Addr>, run: seq<State>, i: nat)
    requires GoodPeers(peers) && IsRun(peers, run) && i + 1 < |run|
    ensures NodesGrow(run[i].nodes, run[i + 1].nodes)
  {
    RunKeepsInv(peers, run, i);
    assert StepAt(peers, run, i);
    NextKeepsInv(peers, run[i], run[i + 1]);
  }

  lemma {:induction false} RunGrows(peers: seq<Addr>, run: seq<State>, i: nat, j: nat)
    requires GoodPeers(peers) && IsRun(peers, run) && i <= j < |run|
    ensures NodesGrow(run[i].nodes, run[j].nodes)
    decreases j - i
  {
    if i == j {
      NodesGrowReflexive(run[i].nodes);
    } else {
      RunGrows(peers, run, i, j - 1);
      RunStepGrows(peers, run, j - 1);
      NodesGrowTransitive(run[i].nodes, run[j - 1].nodes, run[j].nodes);
    }
  }

  predicate LeadsIn(s: State, n: Addr, term: nat) {
    n in s.nodes && s.nodes[n].view.role == Leader && s.nodes[n].view.currentTerm == term
  }

  lemma LeaderWon(peers: seq<Addr>, s: State, n: Addr, term: nat)
    requires Inv(peers, s) && LeadsIn(s, n, term)
    ensures Won(s.nodes, n, term)
  {
    assert NodeOk(|peers|, n, s.nodes[n]);
  }

  lemma WonStays(peers: seq<Addr>, run: seq<State>, i: nat, j: nat, n: Addr, term: nat)
    requires GoodPeers(peers) && IsRun(peers, run) && i <= j < |run| && Won(run[i].nodes, n, term)
    ensures Won(run[j].nodes, n, term)
  {
    RunGrows(peers, run, i, j);
    assert Grows(run[i].nodes[n], run[j].nodes[n]);
  }

  /** Two offices of one term, seen at any two moments of one run, belong to one node. */
  lemma OneWinnerPerRun(peers: seq<Addr>, run: seq<State>, i: nat, j: nat, a: Addr, b: Addr, term: nat)
    requires GoodPeers(peers) && IsRun(peers, run) && i < |run| && j < |run|
    requires Won(run[i].nodes, a, term) && Won(run[j].nodes, b, term)
    ensures a == b
  {
    var last := |run| - 1;
    WonStays(peers, run, i, last, a, term);
    WonStays(peers, run, j, last, b, term);
    RunKeepsInv(peers, run, last);
    OneWinnerPerTerm(peers, run[last], a, b, term);
  }

  /** Election safety: in every run, at most one node ever leads in a given term. */
  lemma ElectionSafety(peers: seq<Addr>, run: seq<State>, i: nat, j: nat, a: Addr, b: Addr, term: nat)
    requires GoodPeers(peers) && IsRun(peers, run) && i < |run| && j < |run|
    requires LeadsIn(run[i], a, term) && LeadsIn(run[j], b, term)
    ensures a == b
  {
    RunKeepsInv(peers, run, i);
    RunKeepsInv(peers, run, j);
    LeaderWon(peers, run[i], a, term);
    LeaderWon(peers, run[j], b, term);
    OneWinnerPerRun(peers, run, i, j, a, b, term);
  }

  /** All heartbeats ever sent for one term name one node, that node won the term,
      and no other node ever leads in it. */
  lemma HeartbeatsNameTheWinner(peers: seq<Addr>, run: seq<State>, i: nat, j: nat, h: Heartbeat, g: Heartbeat)
    requires GoodPeers(peers) && IsRun(peers, run) && i < |run| && j < |run|
    requires h in run[i].heartbeats && g in run[j].heartbeats && h.term == g.term
    ensures h.leader == g.leader && Won(run[i].nodes, h.leader, h.term)
    ensures forall k, n :: 0 <= k < |run| && LeadsIn(run[k], n, h.term) ==> n == h.leader
  {
    RunKeepsInv(peers, run, i);
    RunKeepsInv(peers, run, j);
    assert BeatBacked(run[i].nodes, h) && BeatBacked(run[j].nodes, g);
    OneWinnerPerRun(peers, run, i, j, h.leader, g.leader, h.term);
    forall k, n | 0 <= k < |run| && LeadsIn(run[k], n, h.term)
      ensures n == h.leader
    {
      RunKeepsInv(peers, run, k);
      LeaderWon(peers, run[k], n, h.term);
      OneWinnerPerRun(peers, run, i, k, h.leader, n, h.term);
    }
  }

  /** No heartbeat of its own term ever reaches a leader. */
  lemma NoRivalHeartbeat(peers: seq<Addr>, s: State, n: Addr, h: Heartbeat)
    requires GoodPeers(peers) && Inv(peers, s) && n in s.nodes && s.nodes[n].view.role == Leader
    requires h in s.heartbeats && h.to == n
    ensures h.term != s.nodes[n].view.currentTerm
  {
    if h.term == s.nodes[n].view.currentTerm {
      assert BeatBacked(s.nodes, h);
      LeaderWon(peers, s, n, h.term);
      OneWinnerPerTerm(peers, s, n, h.leader, h.term);
      assert false;
    }
  }

  lemma LeaderActs(peers: seq<Addr>, s: State, step: Step)
    requires Enabled(s, step) && Actor(step) in s.nodes
    requires s.nodes[Actor(step)].view.role == Leader && RoleOk(s.nodes[Actor(step)])
    requires step.DeliverHeartbeat? ==> step.h.term != s.nodes[Actor(step)].view.currentTerm
    ensures var v, w := s.nodes[Actor(step)].view, Act(peers, s, step).view;
            w.currentTerm > v.currentTerm || (w.currentTerm == v.currentTerm && w.role == Leader)
  {
  }

  lemma LeaderStaysOneStep(peers: seq<Addr>, s: State, s': State, n: Addr, term: nat)
    requires GoodPeers(peers) && Inv(peers, s) && Next(peers, s, s') && LeadsIn(s, n, term)
    ensures n in s'.nodes && (LeadsIn(s', n, term) || s'.nodes[n].view.currentTerm > term)
  {
    var step :| Enabled(s, step) && s' == Apply(peers, s, step);
    assert NodeOk(|peers|, n, s.nodes[n]);
    if Actor(step) == n {
      if step.DeliverHeartbeat? {
        NoRivalHeartbeat(peers, s, n, step.h);
      }
      LeaderActs(peers, s, step);
    }
  }

  /** A leader leaves office only on a strictly larger term: from election on, it
      leads in every later state of the run in which its term is unchanged. */
  lemma {:induction false} LeaderStays(peers: seq<Addr>, run: seq<State>, i: nat, j: nat, n: Addr, term: nat)
    requires GoodPeers(peers) && IsRun(peers, run) && i <= j < |run| && LeadsIn(run[i], n, term)
    ensures n in run[j].nodes && (LeadsIn(run[j], n, term) || run[j].nodes[n].view.currentTerm > term)
    decreases j - i
  {
    if i < j {
      LeaderStays(peers, run, i, j - 1, n, term);
      RunKeepsInv(peers, run, j - 1);
      assert StepAt(peers, run, j - 1);
      NextKeepsInv(peers, run[j - 1], run[j]);
      assert Grows(run[j - 1].nodes[n], run[j].nodes[n]);
      if LeadsIn(run[j - 1], n, term) {
        LeaderStaysOneStep(peers, run[j - 1], run[j], n, term);
      }
    }
  }

  /** Terms never go back, and a vote seen in a term is the only vote ever seen in that term. */
  lemma OneVotePerTerm(peers: seq<Addr>, run: seq<State>, i: nat, j: nat, n: Addr)
    requires GoodPeers(peers) && IsRun(peers, run) && i <= j < |run| && n in run[i].nodes
    ensures n in run[j].nodes
    ensures var v, w := run[i].nodes[n].view, run[j].nodes[n].view;
            && v.currentTerm <= w.currentTerm
            && (v.currentTerm == w.currentTerm && v.votedFor != NONE ==> w.votedFor == v.votedFor)
  {
    RunKeepsInv(peers, run, i);
    RunKeepsInv(peers, run, j);
    RunGrows(peers, run, i, j);
    var a, b := run[i].nodes[n], run[j].nodes[n];
    assert Grows(a, b) && NodeOk(|peers|, n, a) && NodeOk(|peers|, n, b);
  }

  /** `votedFor` is empty exactly when the node has cast no vote in its current
      term, and a granted reply carries its request's term and is that vote. */
  lemma VoteHistory(peers: seq<Addr>, run: seq<State>, i: nat)
    requires GoodPeers(peers) && IsRun(peers, run) && i < |run|
    ensures forall n :: n in run[i].nodes ==>
      (run[i].nodes[n].view.votedFor == NONE <==> run[i].nodes[n].view.currentTerm !in run[i].nodes[n].ballots)
    ensures forall m :: m in run[i].responses && m.reply.granted ==>
      m.reply.term == m.term && Voted(run[i].nodes, m.voter, m.term, m.candidate)
  {
    RunKeepsInv(peers, run, i);
    var s := run[i];
    forall n | n in s.nodes
      ensures s.nodes[n].view.votedFor == NONE <==> s.nodes[n].view.currentTerm !in s.nodes[n].ballots
    {
      assert NodeOk(|peers|, n, s.nodes[n]);
    }
    forall m | m in s.responses && m.reply.granted
      ensures m.reply.term == m.term && Voted(s.nodes, m.voter, m.term, m.candidate)
    {
      assert ResponseBacked(s.nodes, m);
    }
  }

  /** A known leader address is a peer that won a term no later than the node's
      own, and the term it comes from never goes backwards. */
  lemma LeaderViewIsAWinner(peers: seq<Addr>, run: seq<State>, i: nat, j: nat, n: Addr)
    requires GoodPeers(peers) && IsRun(peers, run) && i <= j < |run| && n in run[j].nodes
    ensures n in run[i].nodes && run[i].nodes[n].leaderSince <= run[j].nodes[n].leaderSince
    ensures run[j].nodes[n].leaderSince <= run[j].nodes[n].view.currentTerm
    ensures run[j].nodes[n].view.leaderAddr != NONE ==>
      && run[j].nodes[n].view.leaderAddr in peers
      && Won(run[j].nodes, run[j].nodes[n].view.leaderAddr, run[j].nodes[n].leaderSince)
  {
    RunKeepsInv(peers, run, i);
    RunKeepsInv(peers, run, j);
    RunGrows(peers, run, i, j);
    assert Grows(run[i].nodes[n], run[j].nodes[n]);
    assert NodeOk(|peers|, n, run[j].nodes[n]) && NodeBacked(run[j].nodes, n, run[j].nodes[n]);
  }

  /** Two views of the leader that come from the same term agree, whenever and wherever they are held. */
  lemma LeaderViewsAgree(peers: seq<Addr>, run: seq<State>, i: nat, j: nat, a: Addr, b: Addr)
    requires GoodPeers(peers) && IsRun(peers, run) && i < |run| && j < |run|
    requires a in run[i].nodes && b in run[j].nodes
    requires run[i].nodes[a].view.leaderAddr != NONE && run[j].nodes[b].view.leaderAddr != NONE
    requires run[i].nodes[a].leaderSince == run[j].nodes[b].leaderSince
    ensures run[i].nodes[a].view.leaderAddr == run[j].nodes[b].view.leaderAddr
  {
    LeaderViewIsAWinner(peers, run, i, i, a);
    LeaderViewIsAWinner(peers, run, j, j, b);
    OneWinnerPerRun(peers, run, i, j, run[i].nodes[a].view.leaderAddr, run[j].nodes[b].view.leaderAddr,
                    run[i].nodes[a].leaderSince);
  }
}
