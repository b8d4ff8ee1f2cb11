/** The vote rule as written is unsafe: a run of three nodes that elects two
    leaders in term 1, after which two nodes apply different commands at index 1.
    Node 2 votes for node 1, loses that vote to node 1's first heartbeat, and
    votes for node 3 in the same term. */
module RaftDoubleVote {
  import opened Options
  import opened RaftTypes
  import opened RaftNode
  import opened RaftProtocol
  import opened RaftSafety

  const C: set<NodeId> := {1, 2, 3}
  const EMPTY := [SENTINEL]
  const X := Bytes([1])
  const Y := Bytes([2])

  // The other of nodes 1 and 3.
  function Other(id: NodeId): NodeId
  {
    if id == 1 then 3 else 1
  }

  function Log(c: Command): seq<Entry>
  {
    [SENTINEL, Entry(1, c)]
  }

  // ---- nodes 1 and 3: candidate, leader, leader with a command, committed ----

  function Cand(id: NodeId): NodeState
  {
    NodeState(1, Some(id), EMPTY, 0, 0, Candidate, map[], map[], 1,
              {Call(1, 2), Call(1, Other(id))}, Durable(1, Some(id), EMPTY))
  }

  function Elected(id: NodeId): NodeState
  {
    Cand(id).(role := Leader, votes := 2, calls := {Call(1, Other(id))},
              next := map[2 := 1, Other(id) := 1], matched := map[2 := 0, Other(id) := 0])
  }

  function Commanded(id: NodeId, c: Command): NodeState
  {
    Elected(id).(log := Log(c), disk := Durable(1, Some(id), Log(c)),
                 matched := map[2 := 0, Other(id) := 0, id := 1])
  }

  function Committed(id: NodeId, c: Command): NodeState
  {
    Commanded(id, c).(commit := 1, next := map[2 := 2, Other(id) := 1],
                      matched := map[2 := 1, Other(id) := 0, id := 1])
  }

  // ---- node 2 ----

  function Voter(vote: Option<NodeId>, log: seq<Entry>): NodeState
  {
    NodeState(1, vote, log, 0, 0, Follower, map[], map[], 0, {}, Durable(1, vote, log))
  }

  // ---- the messages ----

  function Ask(id: NodeId): Message { RequestVote(id, 2, 1, 0, 0) }

  function Yes(id: NodeId): Message { VoteReply(2, id, 1, 1, true) }

  function Args(entries: seq<Entry>): AppendArgs { AppendArgs(1, 0, 0, entries, 0) }

  function Done(id: NodeId, c: Command): Message
  {
    AppendReply(2, id, Args([Entry(1, c)]), AppendResult(1, true, 0, 0))
  }

  // ---- the steps ----

  ghost predicate Goes(s: State, e: Event, n: NodeId, v: NodeState)
  {
    && WellFormed(C, s) && Enabled(C, s, e)
    && Next(AsWritten, C, s, e).nodes == s.nodes[n := v]
    && s.net <= Next(AsWritten, C, s, e).net
    && WellFormed(C, Next(AsWritten, C, s, e))
  }

  function To(s: State, e: Event): State
    requires WellFormed(C, s) && Enabled(C, s, e)
  {
    Next(AsWritten, C, s, e)
  }

  lemma ThePeers(id: NodeId)
    requires id in {1, 3}
    ensures Peers(C, id) == {2, Other(id)} && |Peers(C, id)| == 2
  {
  }

  lemma Runs(s: State, id: NodeId)
    requires WellFormed(C, s) && id in {1, 3} && s.nodes[id] == Fresh()
    ensures Goes(s, Timeout(id), id, Cand(id)) && Ask(id) in To(s, Timeout(id)).net
  {
    hide StartElection, VoteRequests, Peers;
    CandidateNode(id);
  }

  lemma CandidateNode(id: NodeId)
    requires id in {1, 3}
    ensures StartElection(Fresh(), id, Peers(C, id)) == Cand(id)
    ensures Ask(id) in VoteRequests(Cand(id), id, Peers(C, id))
  {
    ThePeers(id);
    assert StartElection(Fresh(), id, Peers(C, id)).calls == {Call(1, 2), Call(1, Other(id))};
  }

  lemma Votes(s: State, id: NodeId)
    requires WellFormed(C, s) && id in {1, 3} && Ask(id) in s.net
    requires s.nodes[2] == Fresh() || s.nodes[2] == Voter(None, EMPTY)
    ensures Goes(s, OnMessage(2, Ask(id)), 2, Voter(Some(id), EMPTY)) && Yes(id) in To(s, OnMessage(2, Ask(id))).net
  {
  }

  lemma ElectedNode(id: NodeId)
    requires id in {1, 3}
    ensures OnVoteReply(Cand(id), Peers(C, id), 2, 1, 1, true) == Elected(id)
  {
    ThePeers(id);
    var v := OnVoteReply(Cand(id), Peers(C, id), 2, 1, 1, true);
    assert v.calls == {Call(1, Other(id))};
    assert v.next == map[2 := 1, Other(id) := 1] && v.matched == map[2 := 0, Other(id) := 0];
  }

  lemma FirstHeartbeat(id: NodeId)
    requires id in {1, 3}
    ensures AppendEntries(id, 2, Args([])) in Sends(Elected(id), id, Peers(C, id))
  {
    ThePeers(id);
    assert AppendFor(Elected(id), 2) == Args([]);
  }

  lemma Rises(s: State, id: NodeId)
    requires WellFormed(C, s) && id in {1, 3} && Yes(id) in s.net && s.nodes[id] == Cand(id)
    ensures Goes(s, OnMessage(id, Yes(id)), id, Elected(id))
    ensures AppendEntries(id, 2, Args([])) in To(s, OnMessage(id, Yes(id))).net
  {
    hide OnVoteReply, Sends, Peers;
    ElectedNode(id);
    FirstHeartbeat(id);
  }

  lemma Forgets(s: State)
    requires WellFormed(C, s) && AppendEntries(1, 2, Args([])) in s.net && s.nodes[2] == Voter(Some(1), EMPTY)
    ensures Goes(s, OnMessage(2, AppendEntries(1, 2, Args([]))), 2, Voter(None, EMPTY))
  {
  }

  lemma CommandedNode(id: NodeId, c: Command)
    requires id in {1, 3}
    ensures Propose(Elected(id), id, c) == Commanded(id, c)
  {
    var v := Propose(Elected(id), id, c);
    assert v.log == Log(c) && v.matched == map[2 := 0, Other(id) := 0, id := 1];
  }

  lemma FirstEntry(id: NodeId, c: Command)
    requires id in {1, 3}
    ensures AppendEntries(id, 2, Args([Entry(1, c)])) in Sends(Commanded(id, c), id, Peers(C, id))
  {
    ThePeers(id);
    assert AppendFor(Commanded(id, c), 2) == Args([Entry(1, c)]);
  }

  lemma Writes(s: State, id: NodeId, c: Command)
    requires WellFormed(C, s) && id in {1, 3} && s.nodes[id] == Elected(id)
    ensures Goes(s, ClientCommand(id, c), id, Commanded(id, c))
    ensures AppendEntries(id, 2, Args([Entry(1, c)])) in To(s, ClientCommand(id, c)).net
  {
    hide Propose, Sends, Peers;
    CommandedNode(id, c);
    FirstEntry(id, c);
  }

  // Node 2 takes the command, or already holds another of the same term and
  // answers success all the same.
  lemma Takes(s: State, id: NodeId, c: Command, held: seq<Entry>)
    requires WellFormed(C, s) && AppendEntries(id, 2, Args([Entry(1, c)])) in s.net && id in {1, 3}
    requires (exists vote :: s.nodes[2] == Voter(vote, held)) && (held == EMPTY || held == Log(X))
    ensures Goes(s, OnMessage(2, AppendEntries(id, 2, Args([Entry(1, c)]))), 2,
                 Voter(None, if held == EMPTY then Log(c) else held))
    ensures Done(id, c) in To(s, OnMessage(2, AppendEntries(id, 2, Args([Entry(1, c)])))).net
  {
    var e := [Entry(1, c)];
    assert e[1..] == [];
    assert held == EMPTY ==> Merge(held, 1, e) == Merge(held[..1] + [e[0]], 2, []) == Log(c);
    assert held != EMPTY ==> Merge(held, 1, e) == Merge(held, 2, []) == held;
  }

  lemma CommittedNode(id: NodeId, c: Command)
    requires id in {1, 3}
    ensures OnSuccess(Commanded(id, c), Peers(C, id), 2, Args([Entry(1, c)])) == Committed(id, c)
  {
    ThePeers(id);
    var v := Commanded(id, c);
    var w := v.(matched := v.matched[2 := 1], next := v.next[2 := 2]);
    assert w.matched == map[2 := 1, Other(id) := 0, id := 1] && w.next == map[2 := 2, Other(id) := 1];
    assert Holders(w, Peers(C, id), 1) == {2};
    assert CommitFrom(w, Peers(C, id), 1) == 1;
  }

  lemma Commits(s: State, id: NodeId, c: Command)
    requires WellFormed(C, s) && id in {1, 3} && Done(id, c) in s.net && s.nodes[id] == Commanded(id, c)
    ensures Goes(s, OnMessage(id, Done(id, c)), id, Committed(id, c))
  {
    hide OnSuccess, Sends, Peers;
    CommittedNode(id, c);
  }

  lemma Applies(s: State, id: NodeId, c: Command)
    requires WellFormed(C, s) && id in {1, 3} && s.nodes[id] == Committed(id, c) && c != Nil
    ensures Goes(s, Deliver(id), id, Committed(id, c).(applied := 1))
    ensures Delivery(C, s, Deliver(id)) == Some((1, c))
  {
  }

  // ---- the run ----

  // One more step of a run that ends in s.
  lemma Advance(run: seq<State>, events: seq<Event>, e: Event, n: NodeId, v: NodeState)
    returns (run': seq<State>, events': seq<Event>, s: State)
    requires IsRun(AsWritten, C, run, events) && Goes(run[|events|], e, n, v)
    ensures IsRun(AsWritten, C, run', events') && events' == events + [e] && run' == run + [s]
    ensures s == To(run[|events|], e) && s == run'[|events'|]
  {
    hide Next, Enabled;
    s := To(run[|events|], e);
    run', events' := run + [s], events + [e];
    forall k | 0 <= k < |events'| ensures IsStep(AsWritten, C, run'[k], events'[k], run'[k + 1]) {
      if k < |events| {
        assert IsStep(AsWritten, C, run[k], events[k], run[k + 1]);
      }
    }
  }

  lemma FirstElection() returns (run: seq<State>, events: seq<Event>, s: State)
    ensures IsRun(AsWritten, C, run, events) && |events| == 4 && s == run[4] && WellFormed(C, s)
    ensures s.nodes == map[1 := Elected(1), 2 := Voter(None, EMPTY), 3 := Fresh()]
  {
    hide Next, Enabled, IsStep, Init, WellFormed, Elected, Cand, Voter, Fresh, Args;
    s := Init(C);
    run, events := [s], [];
    FreshCluster();
    Runs(s, 1);
    run, events, s := Advance(run, events, Timeout(1), 1, Cand(1));
    Votes(s, 1);
    run, events, s := Advance(run, events, OnMessage(2, Ask(1)), 2, Voter(Some(1), EMPTY));
    Rises(s, 1);
    run, events, s := Advance(run, events, OnMessage(1, Yes(1)), 1, Elected(1));
    Forgets(s);
    run, events, s := Advance(run, events, OnMessage(2, AppendEntries(1, 2, Args([]))), 2, Voter(None, EMPTY));
  }

  lemma FreshCluster()
    ensures Init(C).nodes == map[1 := Fresh(), 2 := Fresh(), 3 := Fresh()] && WellFormed(C, Init(C))
  {
  }

  // Two leaders of one term.
  lemma TwoLeaders() returns (run: seq<State>, events: seq<Event>, s: State)
    ensures IsRun(AsWritten, C, run, events) && |events| == 7 && s == run[7] && WellFormed(C, s)
    ensures s.nodes == map[1 := Elected(1), 2 := Voter(Some(3), EMPTY), 3 := Elected(3)]
    ensures Leads(s, 1, 1) && Leads(s, 3, 1)
  {
    hide Next, Enabled, IsStep, WellFormed, Voter, Fresh, Args;
    run, events, s := FirstElection();
    Runs(s, 3);
    run, events, s := Advance(run, events, Timeout(3), 3, Cand(3));
    Votes(s, 3);
    run, events, s := Advance(run, events, OnMessage(2, Ask(3)), 2, Voter(Some(3), EMPTY));
    Rises(s, 3);
    run, events, s := Advance(run, events, OnMessage(3, Yes(3)), 3, Elected(3));
  }

  // The leader `id` replicates c to node 2, commits it and applies it.
  lemma LeaderApplies(run0: seq<State>, events0: seq<Event>, s0: State, id: NodeId, c: Command, held: seq<Entry>)
    returns (run: seq<State>, events: seq<Event>, s: State)
    requires IsRun(AsWritten, C, run0, events0) && s0 == run0[|events0|] && WellFormed(C, s0)
    requires id in {1, 3} && c != Nil && s0.nodes[id] == Elected(id)
    requires (exists vote :: s0.nodes[2] == Voter(vote, held)) && (held == EMPTY || held == Log(X))
    ensures IsRun(AsWritten, C, run, events) && |events| == |events0| + 4 && s == run[|events|] && WellFormed(C, s)
    ensures run0 <= run && events0 <= events
    ensures s.nodes == s0.nodes[id := Committed(id, c).(applied := 1)][2 := Voter(None, if held == EMPTY then Log(c) else held)]
    ensures var k := |events0| + 3;
            && IsStep(AsWritten, C, run[k], events[k], run[k + 1])
            && Delivery(C, run[k], events[k]) == Some((1, c))
  {
    hide Next, Enabled, IsStep, WellFormed, Elected, Commanded, Committed, Voter, Args, Delivery, Log;
    run, events, s := run0, events0, s0;
    Writes(s, id, c);
    run, events, s := Advance(run, events, ClientCommand(id, c), id, Commanded(id, c));
    Takes(s, id, c, held);
    run, events, s := Advance(run, events, OnMessage(2, AppendEntries(id, 2, Args([Entry(1, c)]))), 2,
                              Voter(None, if held == EMPTY then Log(c) else held));
    Commits(s, id, c);
    run, events, s := Advance(run, events, OnMessage(id, Done(id, c)), id, Committed(id, c));
    Applies(s, id, c);
    run, events, s := Advance(run, events, Deliver(id), id, Committed(id, c).(applied := 1));
  }

  // Two nodes apply different commands at index 1.
  lemma TwoCommands() returns (run: seq<State>, events: seq<Event>, j: nat, k: nat)
    ensures IsRun(AsWritten, C, run, events) && j < k < |events|
    ensures IsStep(AsWritten, C, run[j], events[j], run[j + 1]) && IsStep(AsWritten, C, run[k], events[k], run[k + 1])
    ensures Delivery(C, run[j], events[j]) == Some((1, X)) && Delivery(C, run[k], events[k]) == Some((1, Y))
  {
    hide Next, Enabled, Elected, Committed, Voter, Delivery, Log;
    var s;
    run, events, s := TwoLeaders();
    assert s.nodes[2] == Voter(Some(3), EMPTY);
    run, events, s := LeaderApplies(run, events, s, 1, X, EMPTY);
    assert s.nodes[2] == Voter(None, Log(X));
    var run1, events1 := run, events;
    run, events, s := LeaderApplies(run, events, s, 3, Y, Log(X));
    j, k := 10, 14;
    assert run[j] == run1[j] && run[j + 1] == run1[j + 1] && events[j] == events1[j];
  }
}
