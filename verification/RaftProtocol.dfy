/** The cluster: nodes, the messages sent so far, and the steps of a run.
    A message stays available for ever, so the network may lose, delay,
    reorder and repeat requests; a RequestVote call returns at most once. */
module RaftProtocol {
  import opened Options
  import opened RaftTypes
  import opened RaftNode

  datatype State = State(nodes: map<NodeId, NodeState>, net: set<Message>)

  // Each event is one mutex-held region of one node.
  datatype Event =
    | Timeout(n: NodeId)
    | OnMessage(n: NodeId, m: Message)
    | Heartbeat(n: NodeId)
    | ClientCommand(n: NodeId, c: Command)
    | Deliver(n: NodeId)
    | Crash(n: NodeId)
    // the node dies after the first persist of a request handler
    | CrashHandling(n: NodeId, m: Message)

  function Peers(cluster: set<NodeId>, n: NodeId): set<NodeId>
  {
    cluster - {n}
  }

  function Init(cluster: set<NodeId>): State
  {
    State(map n | n in cluster :: Fresh(), {})
  }

  predicate WellFormed(cluster: set<NodeId>, s: State)
  {
    s.nodes.Keys == cluster && forall n | n in cluster :: |s.nodes[n].log| > 0
  }

  predicate Enabled(cluster: set<NodeId>, s: State, e: Event)
    requires WellFormed(cluster, s)
  {
    && e.n in cluster
    && var v := s.nodes[e.n];
       match e
       case Timeout(_) => v.role != Leader
       case OnMessage(n, m) =>
         && m in s.net && m.to == n
         && (m.VoteReply? ==> Call(m.callTerm, m.from) in v.calls)
       case Heartbeat(_) => v.role == Leader
       case ClientCommand(_, _) => true
       case Deliver(_) => v.applied < v.commit < |v.log|
       case Crash(_) => true
       case CrashHandling(n, m) =>
         && m in s.net && m.to == n
         && ((m.RequestVote? && m.term > v.term) || (m.AppendEntries? && m.args.term >= v.term))
  }

  // The state and the outgoing messages of a node handling a message.
  function Handle(rule: VoteRule, cluster: set<NodeId>, v: NodeState, m: Message): (NodeState, set<Message>)
    requires |v.log| > 0
  {
    var peers := Peers(cluster, m.to);
    match m
    case RequestVote(from, to, t, lastIndex, lastTerm) =>
      var v' := HandleRequestVote(v, from, t, lastIndex, lastTerm);
      (v', {VoteReply(to, from, t, v'.term, Grants(v, from, t, lastIndex, lastTerm))})
    case VoteReply(from, to, callTerm, t, granted) =>
      var v' := OnVoteReply(v, peers, from, callTerm, t, granted);
      (v', if v.role != Leader && v'.role == Leader then Sends(v', to, peers) else {})
    case AppendEntries(from, to, a) =>
      var (v', r) := HandleAppendEntries(v, rule, a);
      (v', {AppendReply(to, from, a, r)})
    case AppendReply(from, to, a, r) =>
      var v' := OnAppendReply(v, peers, from, a, r);
      (v', if Relevant(v, a, r) && !r.success then Sends(v', to, {from}) else {})
  }

  function Turn(rule: VoteRule, cluster: set<NodeId>, s: State, e: Event): (NodeState, set<Message>)
    requires WellFormed(cluster, s) && Enabled(cluster, s, e)
  {
    var v := s.nodes[e.n];
    var peers := Peers(cluster, e.n);
    match e
    case Timeout(n) =>
      var v' := StartElection(v, n, peers);
      (v', VoteRequests(v', n, peers))
    case OnMessage(_, m) => Handle(rule, cluster, v, m)
    case Heartbeat(n) => (v, Sends(v, n, peers))
    case ClientCommand(n, c) =>
      var v' := Propose(v, n, c);
      (v', if v.role == Leader then Sends(v', n, peers) else {})
    case Deliver(_) => (Apply(v), {})
    case Crash(_) => (Restart(v.disk), {})
    case CrashHandling(_, m) =>
      if m.RequestVote? then (Restart(FaceRequest(v, m.term).disk), {})
      else (Restart(AcceptTerm(v, rule, m.args.term).disk), {})
  }

  function Next(rule: VoteRule, cluster: set<NodeId>, s: State, e: Event): State
    requires WellFormed(cluster, s) && Enabled(cluster, s, e)
  {
    var (v', out) := Turn(rule, cluster, s, e);
    State(s.nodes[e.n := v'], s.net + out)
  }

  ghost predicate IsRun(rule: VoteRule, cluster: set<NodeId>, run: seq<State>, events: seq<Event>)
  {
    && |run| == |events| + 1
    && run[0] == Init(cluster)
    && forall k | 0 <= k < |events| :: IsStep(rule, cluster, run[k], events[k], run[k + 1])
  }

  ghost predicate IsStep(rule: VoteRule, cluster: set<NodeId>, s: State, e: Event, s': State)
  {
    WellFormed(cluster, s) && Enabled(cluster, s, e) && s' == Next(rule, cluster, s, e)
  }

  // The ApplyMsg an event hands to the state machine, if any.
  function Delivery(cluster: set<NodeId>, s: State, e: Event): Option<(nat, Command)>
    requires WellFormed(cluster, s) && Enabled(cluster, s, e)
  {
    if e.Deliver? then Handed(s.nodes[e.n]) else None
  }
}
