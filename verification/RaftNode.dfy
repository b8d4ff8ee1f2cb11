/** One Raft node: each mutex-held region as a function of the node's state. */
module RaftNode {
  import opened Options
  import opened RaftTypes

  // ---- persistence ----

  function Persist(n: NodeState): NodeState
  {
    n.(disk := Durable(n.term, n.vote, n.log))
  }

  // The state after a restart: what the disk holds, everything else fresh.
  function Restart(d: Durable): NodeState
  {
    NodeState(d.term, d.vote, if d.log == [] then [SENTINEL] else d.log,
              0, 0, Follower, map[], map[], 0, {}, d)
  }

  function Fresh(): NodeState
  {
    Restart(Durable(0, None, [SENTINEL]))
  }

  // ---- elections ----

  function LastTerm(log: seq<Entry>): nat
    requires |log| > 0
  {
    log[|log| - 1].term
  }

  function StartElection(n: NodeState, id: NodeId, peers: set<NodeId>): NodeState
  {
    Persist(n.(term := n.term + 1,
               role := Candidate,
               vote := Some(id),
               votes := 1,
               calls := n.calls + set p | p in peers :: Call(n.term + 1, p)))
  }

  function VoteRequests(n: NodeState, id: NodeId, peers: set<NodeId>): set<Message>
    requires |n.log| > 0
  {
    set p | p in peers :: RequestVote(id, p, n.term, |n.log| - 1, LastTerm(n.log))
  }

  function BecomeFollower(n: NodeState, t: nat): NodeState
  {
    Persist(n.(role := Follower, term := t, vote := None))
  }

  function BecomeLeader(n: NodeState, peers: set<NodeId>): NodeState
  {
    n.(role := Leader,
       next := map p | p in peers :: |n.log|,
       matched := map p | p in peers :: 0)
  }

  predicate UpToDate(lastTerm: nat, lastIndex: nat, log: seq<Entry>)
    requires |log| > 0
  {
    lastTerm > LastTerm(log) || (lastTerm == LastTerm(log) && lastIndex >= |log| - 1)
  }

  // HandleRequestVote up to the grant decision: a higher term resets the vote.
  function FaceRequest(n: NodeState, t: nat): NodeState
  {
    if t > n.term then BecomeFollower(n, t) else n
  }

  predicate Grants(n: NodeState, cand: NodeId, t: nat, lastIndex: nat, lastTerm: nat)
    requires |n.log| > 0
  {
    var n1 := FaceRequest(n, t);
    && t >= n.term
    && UpToDate(lastTerm, lastIndex, n1.log)
    && (n1.vote == None || n1.vote == Some(cand))
  }

  function HandleRequestVote(n: NodeState, cand: NodeId, t: nat, lastIndex: nat, lastTerm: nat): NodeState
    requires |n.log| > 0
  {
    var n1 := FaceRequest(n, t);
    if Grants(n, cand, t, lastIndex, lastTerm) then Persist(n1.(vote := Some(cand))) else n1
  }

  // Votes enough: more than half of the cluster, the node itself included.
  predicate Wins(votes: nat, peers: set<NodeId>)
  {
    votes >= (|peers| + 1) / 2 + 1
  }

  // The reply of `peer` to the RequestVote call of the election at callTerm.
  function OnVoteReply(n: NodeState, peers: set<NodeId>, peer: NodeId,
                       callTerm: nat, replyTerm: nat, granted: bool): NodeState
  {
    var n1 := n.(calls := n.calls - {Call(callTerm, peer)});
    if replyTerm > n.term then BecomeFollower(n1, replyTerm)
    else if n.role != Candidate || n.term != callTerm || !granted then n1
    else
      var n2 := n1.(votes := n.votes + 1);
      if Wins(n2.votes, peers) then BecomeLeader(n2, peers) else n2
  }

  // ---- replication, leader side ----

  function At(m: map<NodeId, nat>, p: NodeId): nat
  {
    if p in m then m[p] else 0
  }

  function NextFor(n: NodeState, p: NodeId): nat
  {
    if At(n.next, p) < 1 then 1 else At(n.next, p)
  }

  // sendAppendEntries reads log[nextIdx-1]; out of range it would panic.
  predicate CanSend(n: NodeState, p: NodeId)
  {
    NextFor(n, p) <= |n.log|
  }

  function AppendFor(n: NodeState, p: NodeId): AppendArgs
    requires CanSend(n, p)
  {
    var nextIdx := NextFor(n, p);
    AppendArgs(n.term, nextIdx - 1, n.log[nextIdx - 1].term,
               if |n.log| > nextIdx then n.log[nextIdx..] else [], n.commit)
  }

  function Sends(n: NodeState, id: NodeId, peers: set<NodeId>): set<Message>
  {
    set p | p in peers && CanSend(n, p) :: AppendEntries(id, p, AppendFor(n, p))
  }

  function Holders(n: NodeState, peers: set<NodeId>, idx: nat): set<NodeId>
  {
    set p | p in peers && At(n.matched, p) >= idx
  }

  // The node and the peers that reach idx are more than half of the cluster.
  predicate Replicated(n: NodeState, peers: set<NodeId>, idx: nat)
  {
    (1 + |Holders(n, peers, idx)|) * 2 > |peers| + 1
  }

  // The commit index maybeAdvanceCommitIndex arrives at, scanning down from idx.
  function CommitFrom(n: NodeState, peers: set<NodeId>, idx: nat): nat
    requires idx < |n.log|
  {
    if idx <= n.commit then n.commit
    else if n.log[idx].term == n.term && Replicated(n, peers, idx) then idx
    else CommitFrom(n, peers, idx - 1)
  }

  function AdvanceCommit(n: NodeState, peers: set<NodeId>): NodeState
    requires |n.log| > 0
  {
    n.(commit := CommitFrom(n, peers, |n.log| - 1))
  }

  // The last index in 1..i holding term t, or 0.
  function LastOfTerm(log: seq<Entry>, t: nat, i: nat): nat
    requires i < |log|
  {
    if i == 0 then 0 else if log[i].term == t then i else LastOfTerm(log, t, i - 1)
  }

  function BackedUp(n: NodeState, p: NodeId, r: AppendResult): nat
    requires |n.log| > 0
  {
    if r.conflictTerm != 0 then
      var found := LastOfTerm(n.log, r.conflictTerm, |n.log| - 1);
      if found > 0 then found + 1 else r.conflictIndex
    else if r.conflictIndex > 0 then r.conflictIndex
    else if At(n.next, p) > 1 then At(n.next, p) - 1
    else At(n.next, p)
  }

  function OnSuccess(n: NodeState, peers: set<NodeId>, p: NodeId, a: AppendArgs): NodeState
    requires |n.log| > 0
  {
    var newMatch := a.prevIndex + |a.entries|;
    var m := if newMatch > At(n.matched, p) then newMatch else At(n.matched, p);
    AdvanceCommit(n.(matched := n.matched[p := m], next := n.next[p := m + 1]), peers)
  }

  // The reply is stale unless the node still leads the term of the call.
  predicate Relevant(n: NodeState, a: AppendArgs, r: AppendResult)
  {
    r.term <= n.term && n.role == Leader && n.term == a.term
  }

  function OnAppendReply(n: NodeState, peers: set<NodeId>, p: NodeId, a: AppendArgs, r: AppendResult): NodeState
    requires |n.log| > 0
  {
    if r.term > n.term then BecomeFollower(n, r.term)
    else if !Relevant(n, a, r) then n
    else if r.success then OnSuccess(n, peers, p, a)
    else n.(next := n.next[p := BackedUp(n, p, r)])
  }

  function Propose(n: NodeState, id: NodeId, c: Command): NodeState
    requires |n.log| > 0
  {
    if n.role != Leader then n
    else Persist(n.(log := n.log + [Entry(n.term, c)], matched := n.matched[id := |n.log|]))
  }

  // ---- replication, follower side ----

  function AcceptTerm(n: NodeState, rule: VoteRule, t: nat): NodeState
    requires t >= n.term
  {
    if rule == Documented && t == n.term then Persist(n.(role := Follower)) else BecomeFollower(n, t)
  }

  predicate Consistent(log: seq<Entry>, a: AppendArgs)
  {
    a.prevIndex < |log| && log[a.prevIndex].term == a.prevTerm
  }

  // The first index of the run of equal terms that ends at i, but not below 1.
  function FirstOfRun(log: seq<Entry>, i: nat): nat
    requires i < |log|
  {
    if i > 1 && log[i - 1].term == log[i].term then FirstOfRun(log, i - 1) else i
  }

  function Rejection(log: seq<Entry>, a: AppendArgs, t: nat): AppendResult
    requires !Consistent(log, a)
  {
    if a.prevIndex >= |log| then AppendResult(t, false, |log|, 0)
    else AppendResult(t, false, FirstOfRun(log, a.prevIndex), log[a.prevIndex].term)
  }

  // The append loop: skip entries already held, cut at the first conflict.
  function Merge(log: seq<Entry>, idx: nat, entries: seq<Entry>): seq<Entry>
    requires idx <= |log|
    decreases |entries|
  {
    if entries == [] then log
    else if idx < |log| && log[idx].term == entries[0].term then Merge(log, idx + 1, entries[1..])
    else Merge(log[..idx] + [entries[0]], idx + 1, entries[1..])
  }

  function CommitAfter(commit: nat, a: AppendArgs): nat
  {
    var lastNew := a.prevIndex + |a.entries|;
    if a.leaderCommit > commit then (if a.leaderCommit < lastNew then a.leaderCommit else lastNew) else commit
  }

  function HandleAppendEntries(n: NodeState, rule: VoteRule, a: AppendArgs): (NodeState, AppendResult)
  {
    if a.term < n.term then (n, AppendResult(n.term, false, 0, 0))
    else
      var n1 := AcceptTerm(n, rule, a.term);
      if !Consistent(n1.log, a) then (n1, Rejection(n1.log, a, n1.term))
      else
        var n2 := n1.(log := Merge(n1.log, a.prevIndex + 1, a.entries));
        var n3 := if a.entries == [] then n2 else Persist(n2);
        (n3.(commit := CommitAfter(n3.commit, a)), AppendResult(n3.term, true, 0, 0))
  }

  // ---- applying ----

  // The ApplyMsg of one turn of the apply loop, if the entry has a command.
  function Handed(n: NodeState): Option<(nat, Command)>
    requires n.applied + 1 < |n.log|
  {
    var c := n.log[n.applied + 1].command;
    if c == Nil then None else Some((n.applied + 1, c))
  }

  // One turn of the apply loop: the entry at applied+1 goes to applyCh.
  function Apply(n: NodeState): NodeState
    requires n.applied < n.commit
  {
    n.(applied := n.applied + 1)
  }
}
