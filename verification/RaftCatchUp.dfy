/** A leader can always bring a follower up to its log: the messages it sends and
    the answers it gets lead, however far the two logs are apart, to a follower
    that holds the leader's log and knows its commit index. */
module RaftCatchUp {
  import opened RaftTypes
  import opened RaftNode
  import opened RaftProtocol
  import opened RaftHistory
  import opened RaftInvariant
  import opened RaftAppend
  import opened RaftLeader
  import opened RaftHandlers
  import opened RaftPaths

  // n leads and has sent p its log from prevIndex on.
  ghost predicate Sent(s: State, n: NodeId, p: NodeId, a: AppendArgs)
  {
    && n in s.nodes && s.nodes[n].role == Leader && AppendEntries(n, p, a) in s.net
    && a.term == s.nodes[n].term && a.leaderCommit == s.nodes[n].commit
    && a.prevIndex + |a.entries| == |s.nodes[n].log| - 1
  }

  // From s to t only the leader n and the peer p moved, and n still leads the
  // same term with the same log.
  ghost predicate Between(cluster: set<NodeId>, s: State, n: NodeId, p: NodeId, t: State)
  {
    && s.nodes.Keys == cluster && t.nodes.Keys == cluster && n in cluster && p in cluster && p != n
    && (forall q | q in cluster && q != n && q != p :: t.nodes[q] == s.nodes[q])
    && (var v, w := s.nodes[n], t.nodes[n];
        && w.role == Leader && w.term == v.term && w.log == v.log && w.commit >= v.commit && w.applied == v.applied
        && (forall q | q != p :: At(w.matched, q) == At(v.matched, q)))
  }

  // p is in the leader's term, holds its log, and the leader knows.
  ghost predicate InStep(s: State, n: NodeId, p: NodeId, known: nat)
    requires n in s.nodes && p in s.nodes
  {
    var v, w := s.nodes[n], s.nodes[p];
    && w.term == v.term && |v.log| > 0 && Agree(w.log, v.log, |v.log|)
    && At(v.matched, p) + 1 >= |v.log| && w.commit >= known
  }

  // Everybody is known to hold the leader's log, and its last entry is its own:
  // then the leader has committed it.
  ghost predicate CommitsLast(cluster: set<NodeId>, s: State, n: NodeId)
    requires n in s.nodes
  {
    var v := s.nodes[n];
    var held := |v.log| > 0 && v.log[|v.log| - 1].term == v.term && forall q | q in Peers(cluster, n) :: At(v.matched, q) + 1 >= |v.log|;
    held ==> v.commit + 1 >= |v.log|
  }

  // ---- single steps ----

  lemma TakesAppend(rule: VoteRule, cluster: set<NodeId>, s: State, n: NodeId, p: NodeId, a: AppendArgs) returns (t: State)
    requires Good(cluster, s) && WellFormed(cluster, s) && p in cluster && AppendEntries(n, p, a) in s.net
    ensures var (w, r) := HandleAppendEntries(s.nodes[p], rule, a);
            && Path(rule, cluster, s, [OnMessage(p, AppendEntries(n, p, a))], t) && Good(cluster, t) && WellFormed(cluster, t)
            && t == State(s.nodes[p := w], s.net + {AppendReply(p, n, a, r)})
  {
    hide Good, Path, HandleAppendEntries;
    t := PathOne(rule, cluster, s, OnMessage(p, AppendEntries(n, p, a)));
  }

  lemma TakesReply(rule: VoteRule, cluster: set<NodeId>, s: State, n: NodeId, p: NodeId, a: AppendArgs, r: AppendResult)
    returns (t: State)
    requires Good(cluster, s) && WellFormed(cluster, s) && n in cluster && AppendReply(p, n, a, r) in s.net
    ensures var v := OnAppendReply(s.nodes[n], Peers(cluster, n), p, a, r);
            && Path(rule, cluster, s, [OnMessage(n, AppendReply(p, n, a, r))], t) && Good(cluster, t) && WellFormed(cluster, t)
            && t == State(s.nodes[n := v], s.net + if Relevant(s.nodes[n], a, r) && !r.success then Sends(v, n, {p}) else {})
  {
    hide Good, Path, OnAppendReply, Sends;
    t := PathOne(rule, cluster, s, OnMessage(n, AppendReply(p, n, a, r)));
  }

  // ---- what the invariant gives ----

  // An accepted message leaves the peer with the leader's whole log.
  lemma AcceptedHolds(rule: VoteRule, cluster: set<NodeId>, s: State, n: NodeId, p: NodeId, a: AppendArgs)
    requires Good(cluster, s) && p in cluster && n in cluster && s.nodes.Keys == cluster && Sent(s, n, p, a)
    requires s.nodes[p].term <= a.term && HandleAppendEntries(s.nodes[p], rule, a).1.success
    ensures Agree(HandleAppendEntries(s.nodes[p], rule, a).0.log, s.nodes[n].log, |s.nodes[n].log|)
  {
    hide HistoryInv, NodeInv, MessageInv, HandleAppendEntries, Agree;
    var h :| Inv(cluster, s, h);
    assert NodeInv(cluster, h, n, s.nodes[n]) && NodeInv(cluster, h, p, s.nodes[p]);
    assert MessageInv(cluster, h, AppendEntries(n, p, a));
    AcceptedLog(rule, cluster, h, n, s.nodes[n], p, s.nodes[p], a);
  }

  lemma AcceptedLog(rule: VoteRule, cluster: set<NodeId>, h: History, n: NodeId, v: NodeState, p: NodeId, w: NodeState, a: AppendArgs)
    requires NodeInv(cluster, h, n, v) && NodeInv(cluster, h, p, w) && MessageInv(cluster, h, AppendEntries(n, p, a))
    requires v.role == Leader && a.term == v.term && w.term <= a.term && a.prevIndex + |a.entries| == |v.log| - 1
    requires HandleAppendEntries(w, rule, a).1.success
    ensures Agree(HandleAppendEntries(w, rule, a).0.log, v.log, |v.log|)
  {
    hide Certified, TermsUpTo, CandidateInv, HoldsAcked, NodeComplete, Merge, Rejection, CommitAfter, Anchored, Agree;
    AcceptIff(w, rule, a);
    MergeFollows(h, w.log, v.log, a.prevIndex, a.entries);
  }

  lemma CanSendFirst(cluster: set<NodeId>, s: State, n: NodeId, p: NodeId)
    requires Good(cluster, s) && n in cluster && s.nodes.Keys == cluster && p in Peers(cluster, n) && s.nodes[n].role == Leader
    ensures CanSend(s.nodes[n], p)
    ensures var a := AppendFor(s.nodes[n], p); a.prevIndex + |a.entries| == |s.nodes[n].log| - 1
  {
    hide HistoryInv, NodeInv, MessageInv, AppendFor;
    var h :| Inv(cluster, s, h);
    assert NodeInv(cluster, h, n, s.nodes[n]);
    LeaderSends(cluster, h, n, s.nodes[n], p);
  }

  lemma LeaderSends(cluster: set<NodeId>, h: History, n: NodeId, v: NodeState, p: NodeId)
    requires NodeInv(cluster, h, n, v) && v.role == Leader && p in Peers(cluster, n)
    ensures CanSend(v, p) && var a := AppendFor(v, p); a.prevIndex + |a.entries| == |v.log| - 1
  {
    hide Anchored, TermsUpTo, Certified, CandidateInv, HoldsAcked, NodeComplete;
  }

  // A rejection makes the leader send again, from lower down.
  lemma SendsLower(cluster: set<NodeId>, s: State, n: NodeId, p: NodeId, a: AppendArgs, r: AppendResult)
    requires Good(cluster, s) && n in cluster && p in Peers(cluster, n) && s.nodes.Keys == cluster
    requires AppendReply(p, n, a, r) in s.net && s.nodes[n].role == Leader
    requires a.term == s.nodes[n].term && r.term == a.term && !r.success
    ensures |s.nodes[n].log| > 0
    ensures var v := OnAppendReply(s.nodes[n], Peers(cluster, n), p, a, r);
            && v == s.nodes[n].(next := v.next) && CanSend(v, p)
            && AppendFor(v, p).prevIndex < a.prevIndex
            && AppendFor(v, p).prevIndex + |AppendFor(v, p).entries| == |v.log| - 1
  {
    hide HistoryInv, NodeInv, MessageInv, AppendFor, OnAppendReply;
    var h :| Inv(cluster, s, h);
    assert NodeInv(cluster, h, n, s.nodes[n]) && MessageInv(cluster, h, AppendReply(p, n, a, r));
    LeaderSendsLower(cluster, h, n, s.nodes[n], p, a, r);
  }

  lemma LeaderSendsLower(cluster: set<NodeId>, h: History, n: NodeId, v: NodeState, p: NodeId, a: AppendArgs, r: AppendResult)
    requires HistoryInv(cluster, h) && NodeInv(cluster, h, n, v) && MessageInv(cluster, h, AppendReply(p, n, a, r))
    requires v.role == Leader && a.term == v.term && r.term == a.term && !r.success && n in cluster
    ensures |v.log| > 0
    ensures var v' := OnAppendReply(v, Peers(cluster, n), p, a, r);
            && v' == v.(next := v'.next) && CanSend(v', p)
            && AppendFor(v', p).prevIndex < a.prevIndex
            && AppendFor(v', p).prevIndex + |AppendFor(v', p).entries| == |v'.log| - 1
  {
    hide HistoryInv, TermsUpTo, Anchored, Certified, CandidateInv, LeaderInv, HoldsAcked, NodeComplete, ArgsInv, ResultInv, BackedUp;
    BackupProgress(cluster, h, n, v, p, a, r);
  }

  // ---- the exchange ----

  lemma Finished(rule: VoteRule, cluster: set<NodeId>, s: State, n: NodeId, p: NodeId, a: AppendArgs) returns (es: seq<Event>, t: State)
    requires Good(cluster, s) && WellFormed(cluster, s) && n in cluster && p in Peers(cluster, n) && Sent(s, n, p, a)
    requires s.nodes[p].term <= a.term && HandleAppendEntries(s.nodes[p], rule, a).1.success
    requires s.nodes[n].commit < |s.nodes[n].log|
    ensures Path(rule, cluster, s, es, t) && Good(cluster, t) && WellFormed(cluster, t)
    ensures Between(cluster, s, n, p, t) && InStep(t, n, p, s.nodes[n].commit) && CommitsLast(cluster, t, n)
  {
    hide Good, Path, HandleAppendEntries, Sends;
    var (w, r) := HandleAppendEntries(s.nodes[p], rule, a);
    AcceptIff(s.nodes[p], rule, a);
    AcceptedHolds(rule, cluster, s, n, p, a);
    var s1 := TakesAppend(rule, cluster, s, n, p, a);
    t := TakesReply(rule, cluster, s1, n, p, a, r);
    es := [OnMessage(p, AppendEntries(n, p, a))] + [OnMessage(n, AppendReply(p, n, a, r))];
    PathThen(rule, cluster, s, [OnMessage(p, AppendEntries(n, p, a))], s1, [OnMessage(n, AppendReply(p, n, a, r))], t);
    FinishedState(cluster, s, s1, n, p, a, w, r, t);
  }

  lemma FinishedState(cluster: set<NodeId>, s: State, s1: State, n: NodeId, p: NodeId, a: AppendArgs, w: NodeState, r: AppendResult, t: State)
    requires WellFormed(cluster, s) && n in cluster && p in Peers(cluster, n) && Sent(s, n, p, a)
    requires s1.nodes == s.nodes[p := w] && r.success && r.term == a.term && w.term == a.term
    requires w.commit >= a.leaderCommit || w.commit >= a.prevIndex + |a.entries|
    requires s.nodes[n].commit < |s.nodes[n].log| && Agree(w.log, s.nodes[n].log, |s.nodes[n].log|)
    requires t.nodes == s1.nodes[n := OnAppendReply(s.nodes[n], Peers(cluster, n), p, a, r)]
    ensures Between(cluster, s, n, p, t) && InStep(t, n, p, s.nodes[n].commit) && CommitsLast(cluster, t, n)
  {
    hide OnAppendReply, Agree, CommitsLast;
    var v := s.nodes[n];
    var peers := Peers(cluster, n);
    ReplyMatched(v, peers, p, a, r);
    SuccessKeeps(v, peers, p, a, r);
    LastCommitted(cluster, t, n, v, p, a, r);
  }

  lemma LastCommitted(cluster: set<NodeId>, t: State, n: NodeId, v: NodeState, p: NodeId, a: AppendArgs, r: AppendResult)
    requires n in cluster && p in Peers(cluster, n) && |v.log| > 0 && v.role == Leader && v.term == a.term
    requires r.success && r.term == a.term && n in t.nodes && t.nodes[n] == OnAppendReply(v, Peers(cluster, n), p, a, r)
    ensures CommitsLast(cluster, t, n)
  {
    hide OnAppendReply;
    SuccessKeeps(v, Peers(cluster, n), p, a, r);
    if v.log[|v.log| - 1].term == v.term && forall q | q in Peers(cluster, n) :: At(t.nodes[n].matched, q) + 1 >= |v.log| {
      MajorityCommits(v, cluster, n, p, a, r, cluster, |v.log| - 1);
    }
  }

  lemma ReplyMatched(v: NodeState, peers: set<NodeId>, p: NodeId, a: AppendArgs, r: AppendResult)
    requires |v.log| > 0 && v.role == Leader && r.term <= v.term && v.term == a.term && r.success
    ensures var v' := OnAppendReply(v, peers, p, a, r);
            && At(v'.matched, p) >= a.prevIndex + |a.entries|
            && forall q | q != p :: At(v'.matched, q) == At(v.matched, q)
  {
    hide OnAppendReply, LastAt;
    ReplyIff(v, peers, p, a, r);
    SuccessKeeps(v, peers, p, a, r);
  }

  lemma SuccessKeeps(v: NodeState, peers: set<NodeId>, p: NodeId, a: AppendArgs, r: AppendResult)
    requires |v.log| > 0 && v.role == Leader && r.term <= v.term && v.term == a.term && r.success
    ensures var v' := OnAppendReply(v, peers, p, a, r);
            v'.role == Leader && v'.term == v.term && v'.log == v.log && v'.applied == v.applied && v'.commit >= v.commit
  {
    hide CommitFrom;
    var last := a.prevIndex + |a.entries|;
    var m := if last > At(v.matched, p) then last else At(v.matched, p);
    CommitFromShape(v.(matched := v.matched[p := m], next := v.next[p := m + 1]), peers, |v.log| - 1);
  }

  lemma {:induction false} CatchUp(rule: VoteRule, cluster: set<NodeId>, s: State, n: NodeId, p: NodeId, a: AppendArgs)
    returns (es: seq<Event>, t: State)
    requires Good(cluster, s) && WellFormed(cluster, s) && n in cluster && p in Peers(cluster, n) && Sent(s, n, p, a)
    requires s.nodes[p].term <= a.term && s.nodes[n].commit < |s.nodes[n].log|
    ensures Path(rule, cluster, s, es, t) && Good(cluster, t) && WellFormed(cluster, t)
    ensures Between(cluster, s, n, p, t) && InStep(t, n, p, s.nodes[n].commit) && CommitsLast(cluster, t, n)
    decreases a.prevIndex
  {
    hide Good, Path, HandleAppendEntries, OnAppendReply, Sends, InStep, CommitsLast, AppendFor;
    var (w, r) := HandleAppendEntries(s.nodes[p], rule, a);
    if r.success {
      es, t := Finished(rule, cluster, s, n, p, a);
    } else {
      AcceptIff(s.nodes[p], rule, a);
      var s1 := TakesAppend(rule, cluster, s, n, p, a);
      SendsLower(cluster, s1, n, p, a, r);
      var s2 := TakesReply(rule, cluster, s1, n, p, a, r);
      var e1, e2 := OnMessage(p, AppendEntries(n, p, a)), OnMessage(n, AppendReply(p, n, a, r));
      PathThen(rule, cluster, s, [e1], s1, [e2], s2);
      var a2 := AppendFor(s2.nodes[n], p);
      SentAgain(s2, n, p);
      var more;
      more, t := CatchUp(rule, cluster, s2, n, p, a2);
      es := [e1] + [e2] + more;
      PathThen(rule, cluster, s, [e1] + [e2], s2, more, t);
    }
  }

  lemma SentAgain(s: State, n: NodeId, p: NodeId)
    requires n in s.nodes && s.nodes[n].role == Leader && CanSend(s.nodes[n], p) && Sends(s.nodes[n], n, {p}) <= s.net
    requires var a := AppendFor(s.nodes[n], p); a.prevIndex + |a.entries| == |s.nodes[n].log| - 1
    ensures Sent(s, n, p, AppendFor(s.nodes[n], p))
  {
    assert AppendEntries(n, p, AppendFor(s.nodes[n], p)) in Sends(s.nodes[n], n, {p});
  }

  // A leader can bring any peer that is not in a later term up to its log.
  lemma CatchUpPeer(rule: VoteRule, cluster: set<NodeId>, s: State, n: NodeId, p: NodeId) returns (es: seq<Event>, t: State)
    requires Good(cluster, s) && WellFormed(cluster, s) && n in cluster && p in Peers(cluster, n)
    requires s.nodes[n].role == Leader && s.nodes[p].term <= s.nodes[n].term
    ensures Path(rule, cluster, s, es, t) && Good(cluster, t) && WellFormed(cluster, t)
    ensures Between(cluster, s, n, p, t) && InStep(t, n, p, s.nodes[n].commit) && CommitsLast(cluster, t, n)
  {
    hide Good, Path, InStep, CommitsLast;
    CanSendFirst(cluster, s, n, p);
    CommitInLog(cluster, s, n);
    var s1 := PathOne(rule, cluster, s, Heartbeat(n));
    var a := AppendFor(s.nodes[n], p);
    assert AppendEntries(n, p, a) in Sends(s.nodes[n], n, Peers(cluster, n));
    assert s1.nodes == s.nodes;
    var more;
    more, t := CatchUp(rule, cluster, s1, n, p, a);
    es := [Heartbeat(n)] + more;
    PathThen(rule, cluster, s, [Heartbeat(n)], s1, more, t);
  }

  lemma CommitInLog(cluster: set<NodeId>, s: State, n: NodeId)
    requires Good(cluster, s) && n in cluster && s.nodes.Keys == cluster
    ensures s.nodes[n].applied <= s.nodes[n].commit < |s.nodes[n].log|
  {
    hide HistoryInv, MessageInv, Anchored, TermsUpTo, Certified, CandidateInv, LeaderInv, HoldsAcked, NodeComplete;
    var h :| Inv(cluster, s, h);
    assert NodeInv(cluster, h, n, s.nodes[n]);
  }
}
