/** What a run leaves behind: votes, elections and acknowledgements. The steps
    never read it; Record computes it from the steps, so it exists for every run. */
module RaftHistory {
  import opened Options
  import opened RaftTypes
  import opened RaftNode
  import opened RaftProtocol

  datatype Ballot = Ballot(voter: NodeId, term: nat, cand: NodeId)

  // A won election: who led the term, who elected it, and its log so far.
  datatype Reign = Reign(leader: NodeId, voters: set<NodeId>, log: seq<Entry>)

  datatype History = History(
    terms: map<NodeId, nat>,              // current term of each node
    ballots: set<Ballot>,                 // votes granted
    tally: map<NodeId, set<NodeId>>,      // voters counted in a node's latest election
    clogs: map<(NodeId, nat), seq<Entry>>,// log of a candidate when it started an election
    reigns: map<nat, Reign>,
    acks: map<(NodeId, nat), nat>,        // last index a node acknowledged to a term's leader
    heard: set<(NodeId, nat)>,            // AppendEntries accepted, by node and term
    delivered: set<(nat, Command)>)       // everything handed to a state machine

  function Ack(h: History, n: NodeId, t: nat): nat
  {
    if (n, t) in h.acks then h.acks[(n, t)] else 0
  }

  function Start(cluster: set<NodeId>): History
  {
    History(map n | n in cluster :: 0, {}, map n | n in cluster :: {}, map[], map[], map[], {}, {})
  }

  function RecordCandidacy(h: History, v: NodeState, n: NodeId): History
  {
    h.(terms := h.terms[n := v.term + 1],
       ballots := h.ballots + {Ballot(n, v.term + 1, n)},
       tally := h.tally[n := {n}],
       clogs := h.clogs[(n, v.term + 1) := v.log])
  }

  function RecordVote(h: History, v: NodeState, v': NodeState, m: Message): History
    requires m.RequestVote? && |v.log| > 0
  {
    var h1 := h.(terms := h.terms[m.to := v'.term]);
    if Grants(v, m.from, m.term, m.lastIndex, m.lastTerm)
    then h1.(ballots := h.ballots + {Ballot(m.to, m.term, m.from)}) else h1
  }

  // A granted vote is counted unless the election is over.
  predicate Counts(v: NodeState, m: Message)
    requires m.VoteReply?
  {
    m.term <= v.term && v.role == Candidate && v.term == m.callTerm && m.granted
  }

  function RecordCount(h: History, v: NodeState, v': NodeState, m: Message): History
    requires m.VoteReply? && m.to in h.tally && |v.log| > 0
  {
    var h1 := h.(terms := h.terms[m.to := v'.term]);
    if !Counts(v, m) then h1
    else
      var counted := h.tally[m.to] + {m.from};
      var h2 := h1.(tally := h.tally[m.to := counted]);
      if v'.role != Leader then h2
      else h2.(reigns := h.reigns[v.term := Reign(m.to, counted, v.log)],
               acks := h.acks[(m.to, v.term) := |v.log| - 1])
  }

  function RecordAppend(h: History, rule: VoteRule, v: NodeState, v': NodeState, m: Message): History
    requires m.AppendEntries?
  {
    if m.args.term < v.term then h
    else
      var h1 := h.(terms := h.terms[m.to := v'.term], heard := h.heard + {(m.to, m.args.term)});
      var last := m.args.prevIndex + |m.args.entries|;
      if HandleAppendEntries(v, rule, m.args).1.success && last > Ack(h, m.to, m.args.term)
      then h1.(acks := h.acks[(m.to, m.args.term) := last]) else h1
  }

  function RecordCommand(h: History, v: NodeState, v': NodeState, n: NodeId): History
  {
    if v.role != Leader || v.term !in h.reigns then h
    else h.(reigns := h.reigns[v.term := h.reigns[v.term].(log := v'.log)],
            acks := h.acks[(n, v.term) := |v.log|])
  }

  function Record(rule: VoteRule, cluster: set<NodeId>, s: State, h: History, e: Event): History
    requires WellFormed(cluster, s) && Enabled(cluster, s, e) && h.tally.Keys == cluster
  {
    var v := s.nodes[e.n];
    var v' := Turn(rule, cluster, s, e).0;
    match e
    case Timeout(n) => RecordCandidacy(h, v, n)
    case OnMessage(n, m) =>
      (match m
       case RequestVote(_, _, _, _, _) => RecordVote(h, v, v', m)
       case VoteReply(_, _, _, _, _) => RecordCount(h, v, v', m)
       case AppendEntries(_, _, _) => RecordAppend(h, rule, v, v', m)
       case AppendReply(_, _, _, _) => h.(terms := h.terms[n := v'.term]))
    case Heartbeat(_) => h
    case ClientCommand(n, _) => RecordCommand(h, v, v', n)
    case Deliver(_) =>
      var d := Delivery(cluster, s, e);
      if d == None then h else h.(delivered := h.delivered + {d.value})
    case Crash(_) => h
    case CrashHandling(n, m) =>
      var h1 := h.(terms := h.terms[n := v'.term]);
      if m.AppendEntries? then h1.(heard := h.heard + {(n, m.args.term)}) else h1
  }
}
