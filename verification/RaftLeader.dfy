/** The leader's steps: commands, heartbeats, replies, commit. */
module RaftLeader {
  import opened RaftTypes
  import opened RaftNode
  import opened RaftProtocol
  import opened RaftHistory
  import opened RaftInvariant
  import opened RaftGrowth
  import opened RaftVoting
  import opened RaftElection

  // ---- commit ----

  // maybeAdvanceCommitIndex finds the highest replicated entry of the current term.
  lemma {:induction false} CommitFromShape(v: NodeState, peers: set<NodeId>, idx: nat)
    requires idx < |v.log|
    ensures var c := CommitFrom(v, peers, idx);
            && c >= v.commit
            && (c > v.commit ==> c <= idx && v.log[c].term == v.term && Replicated(v, peers, c))
            && forall j | c < j <= idx :: v.log[j].term != v.term || !Replicated(v, peers, j)
    decreases idx
  {
    if idx > v.commit && !(v.log[idx].term == v.term && Replicated(v, peers, idx)) {
      CommitFromShape(v, peers, idx - 1);
    }
  }

  // The replica count of the code is a majority of acknowledgements.
  lemma ReplicatedIsChosen(cluster: set<NodeId>, h: History, n: NodeId, v: NodeState, c: nat)
    requires n in cluster && LeaderInv(cluster, h, n, v) && v.role == Leader
    requires 1 <= c < |v.log| && v.log[c].term == v.term && Replicated(v, Peers(cluster, n), c)
    ensures Chosen(cluster, h, v.term, c)
  {
    var holders := Holders(v, Peers(cluster, n), c);
    assert |Peers(cluster, n)| == |cluster| - 1;
    var q := {n} + holders;
    assert |q| == 1 + |holders|;
    assert Majority(cluster, q) by { SubsetSize(q, cluster); }
    MajorityOfSuperset(cluster, q, Acked(cluster, h, v.term, c));
  }

  lemma CommitKeepsInv(cluster: set<NodeId>, h: History, n: NodeId, v: NodeState)
    requires HistoryInv(cluster, h) && NodeInv(cluster, h, n, v) && v.role == Leader && n in cluster
    ensures NodeInv(cluster, h, n, AdvanceCommit(v, Peers(cluster, n)))
  {
    hide HistoryInv, Anchored, TermsUpTo, Chosen, Inherits;
    var v' := AdvanceCommit(v, Peers(cluster, n));
    CommitFromShape(v, Peers(cluster, n), |v.log| - 1);
    if v'.commit > v.commit {
      ReplicatedIsChosen(cluster, h, n, v, v'.commit);
      assert Certifies(cluster, h, v'.log, v'.commit, v'.term, v'.term, v'.commit);
    }
  }

  // ---- replies ----

  lemma MatchKeepsInv(cluster: set<NodeId>, h: History, n: NodeId, v: NodeState, p: NodeId, m: nat)
    requires HistoryInv(cluster, h) && NodeInv(cluster, h, n, v) && v.role == Leader && n in cluster
    requires p in Peers(cluster, n) && m <= Ack(h, p, v.term)
    ensures NodeInv(cluster, h, n, v.(matched := v.matched[p := m], next := v.next[p := m + 1]))
  {
    hide ReignsInv, BallotsInv, OneVote, ClogsInv, Completeness, VotesComplete, DeliveredInv;
    hide Anchored, TermsUpTo, Certified, Inherits;
  }

  lemma SuccessNode(cluster: set<NodeId>, h: History, n: NodeId, v: NodeState, p: NodeId, a: AppendArgs)
    requires HistoryInv(cluster, h) && NodeInv(cluster, h, n, v) && v.role == Leader && n in cluster
    requires p in Peers(cluster, n) && a.prevIndex + |a.entries| <= Ack(h, p, v.term)
    ensures NodeInv(cluster, h, n, OnSuccess(v, Peers(cluster, n), p, a))
  {
    hide HistoryInv, Anchored, TermsUpTo, CandidateInv, Certified, HoldsAcked, NodeComplete;
    var newMatch := a.prevIndex + |a.entries|;
    var m := if newMatch > At(v.matched, p) then newMatch else At(v.matched, p);
    MatchKeepsInv(cluster, h, n, v, p, m);
    CommitKeepsInv(cluster, h, n, v.(matched := v.matched[p := m], next := v.next[p := m + 1]));
  }

  // After a success the next send starts right behind what is known to match,
  // and a delayed reply never takes anything back.
  lemma SendsBehindMatch(v: NodeState, peers: set<NodeId>, p: NodeId, a: AppendArgs)
    requires a.prevIndex + |a.entries| < |v.log| && At(v.matched, p) < |v.log|
    ensures var v' := OnSuccess(v, peers, p, a);
            && At(v'.matched, p) >= At(v.matched, p) && At(v'.matched, p) >= a.prevIndex + |a.entries|
            && (forall q | q != p :: At(v'.matched, q) == At(v.matched, q) && At(v'.next, q) == At(v.next, q))
            && CanSend(v', p)
            && AppendFor(v', p).prevIndex == At(v'.matched, p)
            && AppendFor(v', p).entries == v'.log[At(v'.matched, p) + 1..]
  {
    hide CommitFrom;
  }

  lemma {:induction false} LastOfTermShape(log: seq<Entry>, t: nat, i: nat)
    requires i < |log|
    ensures var f := LastOfTerm(log, t, i);
            && f <= i
            && (f > 0 ==> log[f].term == t)
            && forall j | f < j <= i :: log[j].term != t
    decreases i
  {
    if i > 0 && log[i].term != t {
      LastOfTermShape(log, t, i - 1);
    }
  }

  // Fast backup always makes progress: whatever hint the follower gave, the
  // retry probes a strictly smaller prevIndex, and stays inside the log.
  lemma BackupProgress(cluster: set<NodeId>, h: History, n: NodeId, v: NodeState, p: NodeId, a: AppendArgs, r: AppendResult)
    requires HistoryInv(cluster, h) && NodeInv(cluster, h, n, v) && v.role == Leader && n in cluster
    requires ArgsInv(cluster, h, n, a) && ResultInv(h, p, a, r) && Relevant(v, a, r) && !r.success
    ensures 1 <= BackedUp(v, p, r) <= a.prevIndex < |v.log|
    // the one-step decrement at the end of the handler is dead code
    ensures r.conflictTerm != 0 || r.conflictIndex > 0
  {
    hide BallotsInv, OneVote, ClogsInv, AcksInv, Completeness, VotesComplete, DeliveredInv, Certified;
    hide CandidateInv, HoldsAcked, NodeComplete;
    var found := LastOfTerm(v.log, r.conflictTerm, |v.log| - 1);
    LastOfTermShape(v.log, r.conflictTerm, |v.log| - 1);
    if r.conflictTerm != 0 && found > 0 {
      assert ReignInv(cluster, h, v.term);
      assert AnchoredAt(h, v.log, found);
      assert v.log[a.prevIndex].term == a.prevTerm;
    }
  }

  lemma RetryNode(cluster: set<NodeId>, h: History, n: NodeId, v: NodeState, p: NodeId, next: nat)
    requires NodeInv(cluster, h, n, v) && v.role == Leader
    requires 1 <= next <= |v.log|
    ensures NodeInv(cluster, h, n, v.(next := v.next[p := next]))
  {
    hide Anchored, TermsUpTo, Certified, Inherits;
  }

  lemma SameNode(cluster: set<NodeId>, s: State, h: History, n: NodeId, v': NodeState, out: set<Message>)
    requires Inv(cluster, s, h) && n in cluster && NodeInv(cluster, h, n, v')
    requires forall m | m in out :: MessageInv(cluster, h, m)
    ensures Inv(cluster, State(s.nodes[n := v'], s.net + out), h)
  {
    hide HistoryInv, NodeInv, MessageInv;
  }

  lemma SuccessStep(cluster: set<NodeId>, s: State, h: History, m: Message)
    requires Inv(cluster, s, h) && m in s.net && m.AppendReply? && m.to in cluster && |s.nodes[m.to].log| > 0
    requires Relevant(s.nodes[m.to], m.args, m.result) && m.result.success
    ensures Inv(cluster, State(s.nodes[m.to := OnSuccess(s.nodes[m.to], Peers(cluster, m.to), m.from, m.args)], s.net), h)
  {
    hide HistoryInv, NodeInv, ArgsInv, OnSuccess;
    assert MessageInv(cluster, h, m);
    SuccessNode(cluster, h, m.to, s.nodes[m.to], m.from, m.args);
    SameNode(cluster, s, h, m.to, OnSuccess(s.nodes[m.to], Peers(cluster, m.to), m.from, m.args), {});
    assert s.net + {} == s.net;
  }

  lemma RetryStep(cluster: set<NodeId>, s: State, h: History, m: Message)
    requires Inv(cluster, s, h) && m in s.net && m.AppendReply? && m.to in cluster && |s.nodes[m.to].log| > 0
    requires Relevant(s.nodes[m.to], m.args, m.result) && !m.result.success
    ensures var v := s.nodes[m.to];
            var v' := v.(next := v.next[m.from := BackedUp(v, m.from, m.result)]);
            Inv(cluster, State(s.nodes[m.to := v'], s.net + Sends(v', m.to, {m.from})), h)
  {
    hide HistoryInv, NodeInv, ArgsInv, ResultInv, BackedUp, Sends;
    assert MessageInv(cluster, h, m);
    var v := s.nodes[m.to];
    var next := BackedUp(v, m.from, m.result);
    BackupProgress(cluster, h, m.to, v, m.from, m.args, m.result);
    RetryNode(cluster, h, m.to, v, m.from, next);
    var v' := v.(next := v.next[m.from := next]);
    SendsKeepInv(cluster, h, m.to, v', {m.from});
    SameNode(cluster, s, h, m.to, v', Sends(v', m.to, {m.from}));
  }

  lemma StandDownAppend(cluster: set<NodeId>, s: State, h: History, n: NodeId, t: nat)
    requires Inv(cluster, s, h) && n in cluster && t > s.nodes[n].term
    ensures Inv(cluster, State(s.nodes[n := BecomeFollower(s.nodes[n], t)], s.net), WithTerm(h, n, t))
    ensures Grows(h, WithTerm(h, n, t))
  {
    hide HistoryInv, MessageInv, Anchored, TermsUpTo, Certified, CandidateInv, LeaderInv, HoldsAcked, NodeComplete;
    assert NodeInv(cluster, h, n, s.nodes[n]);
    StandDown(cluster, s, h, n, BecomeFollower(s.nodes[n], t), t);
  }

  lemma AppendReplyStep(rule: VoteRule, cluster: set<NodeId>, s: State, h: History, m: Message)
    requires Inv(cluster, s, h) && m in s.net && m.AppendReply? && m.to in cluster && |s.nodes[m.to].log| > 0
    ensures var v := s.nodes[m.to];
            var (v', out) := Handle(rule, cluster, v, m);
            && Inv(cluster, State(s.nodes[m.to := v'], s.net + out), h.(terms := h.terms[m.to := v'.term]))
            && Grows(h, h.(terms := h.terms[m.to := v'.term]))
  {
    hide HistoryInv, NodeInv, MessageInv, Sends, BackedUp, CommitFrom, Grows;
    GrowsSelf(h);
    var n, v := m.to, s.nodes[m.to];
    SameTerms(cluster, s, h, n);
    assert s.net + {} == s.net;
    if m.result.term > v.term {
      StandDownAppend(cluster, s, h, n, m.result.term);
    } else if !Relevant(v, m.args, m.result) {
      assert s.nodes[n := v] == s.nodes;
    } else if m.result.success {
      SuccessStep(cluster, s, h, m);
    } else {
      RetryStep(cluster, s, h, m);
    }
  }

  // ---- heartbeats ----

  lemma HeartbeatStep(cluster: set<NodeId>, s: State, h: History, n: NodeId)
    requires Inv(cluster, s, h) && n in cluster && s.nodes[n].role == Leader
    ensures Inv(cluster, State(s.nodes[n := s.nodes[n]], s.net + Sends(s.nodes[n], n, Peers(cluster, n))), h)
  {
    hide HistoryInv, NodeInv, MessageInv;
    SendsKeepInv(cluster, h, n, s.nodes[n], Peers(cluster, n));
  }

  // ---- commands ----

  function Commanded(h: History, v: NodeState, n: NodeId, c: Command): History
    requires v.term in h.reigns
  {
    h.(reigns := h.reigns[v.term := h.reigns[v.term].(log := v.log + [Entry(v.term, c)])],
       acks := h.acks[(n, v.term) := |v.log|])
  }

  lemma CommandedGrows(cluster: set<NodeId>, h: History, n: NodeId, v: NodeState, c: Command)
    requires HistoryInv(cluster, h) && NodeInv(cluster, h, n, v) && v.role == Leader && n in cluster
    ensures Grows(h, Commanded(h, v, n, c)) && AcksInv(Commanded(h, v, n, c))
    ensures forall p | p != n :: SameFor(h, Commanded(h, v, n, c), p)
  {
    hide ReignsInv, BallotsInv, OneVote, ClogsInv, Completeness, VotesComplete, DeliveredInv;
    hide Anchored, TermsUpTo, Certified, CandidateInv, NodeComplete, HoldsAcked;
  }

  lemma AppendedAnchored(h: History, h': History, log: seq<Entry>, e: Entry)
    requires Grows(h, h') && Anchored(h, log)
    requires e.term in h'.reigns && h'.reigns[e.term].log == log + [e]
    ensures Anchored(h', log + [e])
  {
    AnchoredGrows(h, h', log);
    forall i | 1 <= i < |log| + 1 ensures AnchoredAt(h', log + [e], i) {
      if i < |log| { assert AnchoredAt(h', log, i); }
    }
  }

  lemma CommandedHistory(cluster: set<NodeId>, h: History, n: NodeId, v: NodeState, c: Command)
    requires HistoryInv(cluster, h) && NodeInv(cluster, h, n, v) && v.role == Leader && n in cluster
    ensures HistoryInv(cluster, Commanded(h, v, n, c))
  {
    hide BallotsInv, ClogsInv, AcksInv, Completeness, VotesComplete, DeliveredInv, Grows;
    hide Anchored, Certified, CandidateInv, NodeComplete, HoldsAcked;
    var h' := Commanded(h, v, n, c);
    CommandedGrows(cluster, h, n, v, c);
    forall t | t in h'.reigns ensures ReignInv(cluster, h', t) {
      assert ReignInv(cluster, h, t);
      if t == v.term {
        AppendedAnchored(h, h', v.log, Entry(v.term, c));
      } else {
        AnchoredGrows(h, h', h.reigns[t].log);
      }
    }
    assert h'.reigns.Keys == h.reigns.Keys;
    CompletenessGrows(cluster, h, h');
    VotesCompleteGrows(cluster, h, h');
    ClogsGrow(h, h');
    BallotsGrow(cluster, h, h');
    HistoryParts(cluster, h, h');
  }

  lemma CommandedNode(cluster: set<NodeId>, h: History, n: NodeId, v: NodeState, c: Command)
    requires HistoryInv(cluster, h) && NodeInv(cluster, h, n, v) && v.role == Leader && n in cluster
    ensures NodeInv(cluster, Commanded(h, v, n, c), n, Propose(v, n, c))
  {
    hide ReignsInv, BallotsInv, OneVote, ClogsInv, AcksInv, Completeness, VotesComplete, DeliveredInv;
    hide Anchored, Certified, CandidateInv, Blocked;
    var h' := Commanded(h, v, n, c);
    var v' := Propose(v, n, c);
    CommandedGrows(cluster, h, n, v, c);
    AppendedAnchored(h, h', v.log, Entry(v.term, c));
    CertifiedGrows(cluster, h, h', v.log, v'.log, v.commit, v.term, v.term);
    CandidateRole(cluster, h', n, v');
    forall t: nat, i: nat | HasEntry(h', t, i) && i <= Ack(h', n, t) ensures Inherits(cluster, h', v'.log, t, i) {
      if t != v.term {
        assert HasEntry(h, t, i);
        InheritsGrows(cluster, h, h', v.log, v'.log, t, i);
      }
    }
  }

  lemma CandidateRole(cluster: set<NodeId>, h: History, n: NodeId, v: NodeState)
    requires v.role != Candidate
    ensures CandidateInv(cluster, h, n, v)
  {
  }

  lemma CommandStep(cluster: set<NodeId>, s: State, h: History, n: NodeId, c: Command)
    requires Inv(cluster, s, h) && n in cluster && |s.nodes[n].log| > 0
    ensures var v := s.nodes[n];
            var v' := Propose(v, n, c);
            && Inv(cluster, State(s.nodes[n := v'], s.net + if v.role == Leader then Sends(v', n, Peers(cluster, n)) else {}),
                RecordCommand(h, v, v', n))
            && Grows(h, RecordCommand(h, v, v', n))
  {
    hide HistoryInv, MessageInv, Grows, SameFor, Sends, CandidateInv, HoldsAcked, NodeComplete, LogInv;
    var v := s.nodes[n];
    assert NodeInv(cluster, h, n, v);
    if v.role == Leader {
      var h' := Commanded(h, v, n, c);
      var v' := Propose(v, n, c);
      CommandedGrows(cluster, h, n, v, c);
      CommandedHistory(cluster, h, n, v, c);
      CommandedNode(cluster, h, n, v, c);
      SendsKeepInv(cluster, h', n, v', Peers(cluster, n));
      StepKeepsInv(cluster, s, h, n, v', Sends(v', n, Peers(cluster, n)), h');
    } else {
      assert s.nodes[n := v] == s.nodes;
      assert s.net + {} == s.net;
      GrowsSelf(h);
    }
  }
}
