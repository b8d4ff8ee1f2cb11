/** A follower handling AppendEntries keeps the invariant. */
module RaftAppend {
  import opened RaftTypes
  import opened RaftNode
  import opened RaftProtocol
  import opened RaftHistory
  import opened RaftInvariant
  import opened RaftGrowth
  import opened RaftVoting

  // ---- the append loop ----

  // The first f entries were already there; from the first one that was not,
  // everything after it is replaced. With f == |entries| the log is untouched.
  lemma {:induction false} MergeShape(log: seq<Entry>, idx: nat, entries: seq<Entry>) returns (f: nat)
    requires idx <= |log|
    ensures f <= |entries| && idx + f <= |log|
    ensures forall j | 0 <= j < f :: log[idx + j].term == entries[j].term
    ensures f == |entries| ==> Merge(log, idx, entries) == log
    ensures f < |entries| ==> Merge(log, idx, entries) == log[..idx + f] + entries[f..]
    ensures f < |entries| && idx + f < |log| ==> log[idx + f].term != entries[f].term
    decreases |entries|
  {
    if entries == [] {
      f := 0;
    } else if idx < |log| && log[idx].term == entries[0].term {
      var g := MergeShape(log, idx + 1, entries[1..]);
      f := g + 1;
      assert forall j | 1 <= j < f :: entries[j] == entries[1..][j - 1] && log[idx + j] == log[idx + 1 + (j - 1)];
      assert entries[1..][g..] == entries[f..];
    } else {
      f := 0;
      MergeAppends(log[..idx] + [entries[0]], entries[1..]);
      assert log[..idx] + [entries[0]] + entries[1..] == log[..idx] + entries[0..];
    }
  }

  lemma {:induction false} MergeAppends(log: seq<Entry>, entries: seq<Entry>)
    ensures Merge(log, |log|, entries) == log + entries
    decreases |entries|
  {
    if entries == [] {
      assert log + entries == log;
    } else {
      MergeAppends(log + [entries[0]], entries[1..]);
      assert log[..|log|] == log;
      assert log + [entries[0]] + entries[1..] == log + entries;
    }
  }

  // Log Matching: the same term at the same index means the same log up to it.
  lemma Matching(h: History, a: seq<Entry>, b: seq<Entry>, i: nat)
    requires Anchored(h, a) && Anchored(h, b) && i < |a| && i < |b| && a[i].term == b[i].term
    ensures Agree(a, b, i + 1)
  {
    if i > 0 {
      assert AnchoredAt(h, a, i) && AnchoredAt(h, b, i);
    }
  }

  // Merging a stretch of the leader's log: the follower agrees with the leader
  // up to the last new entry, and no agreement it had is lost.
  lemma MergeFollows(h: History, log: seq<Entry>, lead: seq<Entry>, prev: nat, entries: seq<Entry>)
    requires Anchored(h, log) && Anchored(h, lead)
    requires prev < |log| && prev + |entries| < |lead| && log[prev].term == lead[prev].term
    requires forall j | 0 <= j < |entries| :: entries[j] == lead[prev + 1 + j]
    ensures var res := Merge(log, prev + 1, entries);
            && Agree(res, lead, prev + |entries| + 1)
            && (res == log || res == lead[..prev + |entries| + 1])
            && forall k: nat | Agree(log, lead, k) :: Agree(res, lead, k)
  {
    hide Anchored;
    var res := Merge(log, prev + 1, entries);
    var f := MergeShape(log, prev + 1, entries);
    Matching(h, log, lead, prev);
    if f > 0 {
      assert log[prev + 1 + (f - 1)].term == entries[f - 1].term;
      Matching(h, log, lead, prev + f);
    }
    assert Agree(log, lead, prev + 1 + f);
    if f < |entries| {
      Spliced(log, lead, prev + 1, entries, f);
      assert entries[f] == lead[prev + 1 + f];
    }
  }

  lemma Spliced(log: seq<Entry>, lead: seq<Entry>, idx: nat, entries: seq<Entry>, f: nat)
    requires f <= |entries| && idx + |entries| <= |lead| && Agree(log, lead, idx + f)
    requires forall j | 0 <= j < |entries| :: entries[j] == lead[idx + j]
    ensures log[..idx + f] + entries[f..] == lead[..idx + |entries|]
  {
  }

  lemma PrefixAnchored(h: History, log: seq<Entry>, k: nat)
    requires Anchored(h, log) && 0 < k <= |log|
    ensures Anchored(h, log[..k])
  {
    forall i | 1 <= i < k ensures AnchoredAt(h, log[..k], i) {
      assert AnchoredAt(h, log, i);
    }
  }

  // ---- the history ----

  function Accepted(h: History, n: NodeId, t: nat, last: nat): History
  {
    var h1 := h.(terms := h.terms[n := t], heard := h.heard + {(n, t)});
    if last > Ack(h, n, t) then h1.(acks := h.acks[(n, t) := last]) else h1
  }

  lemma AcceptedHistory(cluster: set<NodeId>, h: History, n: NodeId, t: nat, last: nat)
    requires HistoryInv(cluster, h) && n in cluster && t >= TermOf(h, n)
    requires last > 0 ==> t in h.reigns && last < |h.reigns[t].log|
    ensures Grows(h, Accepted(h, n, t, last)) && HistoryInv(cluster, Accepted(h, n, t, last))
    ensures forall p | p != n :: SameFor(h, Accepted(h, n, t, last), p)
  {
    hide ReignsInv, BallotsInv, OneVote, ClogsInv, Completeness, VotesComplete, DeliveredInv;
    var h' := Accepted(h, n, t, last);
    assert Grows(h, h');
    assert AcksInv(h');
    HistoryStays(cluster, h, h');
  }

  // ---- success ----

  // Nothing committed is ever truncated.
  lemma CommitKept(cluster: set<NodeId>, h: History, n: NodeId, v: NodeState, leader: NodeId, a: AppendArgs)
    requires HistoryInv(cluster, h) && NodeInv(cluster, h, n, v) && ArgsInv(cluster, h, leader, a)
    requires a.term >= v.term && Consistent(v.log, a)
    ensures Agree(v.log, Merge(v.log, a.prevIndex + 1, a.entries), v.commit + 1)
  {
    hide BallotsInv, OneVote, ClogsInv, AcksInv, Completeness, VotesComplete, DeliveredInv;
    hide Anchored, Certified, CandidateInv, LeaderInv, HoldsAcked, NodeComplete, Merge;
    var lead := h.reigns[a.term].log;
    assert ReignInv(cluster, h, a.term);
    CertifiedInherited(cluster, h, v.log, v.commit, v.term, a.term);
    MergeFollows(h, v.log, lead, a.prevIndex, a.entries);
  }

  lemma FollowerHolds(cluster: set<NodeId>, h: History, n: NodeId, v: NodeState, leader: NodeId, a: AppendArgs, v': NodeState)
    requires HistoryInv(cluster, h) && NodeInv(cluster, h, n, v) && ArgsInv(cluster, h, leader, a)
    requires a.term >= v.term && Consistent(v.log, a)
    requires v'.log == Merge(v.log, a.prevIndex + 1, a.entries) && v'.term == a.term
    ensures HoldsAcked(Accepted(h, n, a.term, a.prevIndex + |a.entries|), n, v')
  {
    hide BallotsInv, OneVote, ClogsInv, Completeness, VotesComplete, DeliveredInv;
    hide Certified, CandidateInv, LeaderInv, NodeComplete, Merge, Anchored, TermsUpTo;
    assert ReignInv(cluster, h, a.term);
    MergeFollows(h, v.log, h.reigns[a.term].log, a.prevIndex, a.entries);
  }

  // A log that only moves towards the leader's keeps what the leader inherited.
  lemma MovingInherits(cluster: set<NodeId>, h: History, log: seq<Entry>, log': seq<Entry>, u: nat, t: nat, i: nat)
    requires HistoryInv(cluster, h) && t < u && u in h.reigns && HasEntry(h, t, i)
    requires Inherits(cluster, h, log, t, i)
    requires forall k: nat | Agree(log, h.reigns[u].log, k) :: Agree(log', h.reigns[u].log, k)
    ensures Inherits(cluster, h, log', t, i)
  {
    hide ReignsInv, BallotsInv, OneVote, ClogsInv, AcksInv, VotesComplete, DeliveredInv, Blocked;
    assert Inherits(cluster, h, h.reigns[u].log, t, i);
    if !Blocked(cluster, h, t, i) {
      assert Agree(log, h.reigns[u].log, i + 1);
    }
  }

  // What it acknowledged in an earlier term survives a merge with leader u's log.
  lemma KeepsOlder(cluster: set<NodeId>, h: History, h': History, n: NodeId, v: NodeState, log': seq<Entry>, u: nat, t: nat, i: nat)
    requires HistoryInv(cluster, h) && NodeInv(cluster, h, n, v) && Grows(h, h')
    requires u in h.reigns && v.term <= u && t != u && HasEntry(h, t, i) && i <= Ack(h, n, t)
    requires forall k: nat | Agree(v.log, h.reigns[u].log, k) :: Agree(log', h.reigns[u].log, k)
    ensures t in h'.reigns && Inherits(cluster, h', log', t, i)
  {
    hide ReignsInv, BallotsInv, OneVote, ClogsInv, Completeness, VotesComplete, DeliveredInv;
    hide LogInv, CandidateInv, LeaderInv, HoldsAcked, Inherits, Agree;
    assert t < u && Inherits(cluster, h, v.log, t, i);
    MovingInherits(cluster, h, v.log, log', u, t, i);
    AgreeSelf(log');
    InheritsGrows(cluster, h, h', log', log', t, i);
  }

  lemma KeepsCurrent(cluster: set<NodeId>, h: History, n: NodeId, v: NodeState, i: nat)
    requires HoldsAcked(h, n, v) && HasEntry(h, v.term, i) && i <= Ack(h, n, v.term)
    ensures Inherits(cluster, h, v.log, v.term, i)
  {
  }

  lemma AgreeSelf(log: seq<Entry>)
    ensures Agree(log, log, |log|)
  {
  }

  // The follower keeps all it ever acknowledged that is not lost.
  lemma FollowerComplete(cluster: set<NodeId>, h: History, n: NodeId, v: NodeState, leader: NodeId, a: AppendArgs, v': NodeState)
    requires HistoryInv(cluster, h) && NodeInv(cluster, h, n, v) && ArgsInv(cluster, h, leader, a)
    requires a.term >= v.term && Consistent(v.log, a) && n in cluster
    requires v'.log == Merge(v.log, a.prevIndex + 1, a.entries) && v'.term == a.term
    ensures NodeComplete(cluster, Accepted(h, n, a.term, a.prevIndex + |a.entries|), n, v')
  {
    hide HistoryInv, NodeInv, Merge, Anchored, Grows, HoldsAcked, Inherits, Agree, Certified;
    var h' := Accepted(h, n, a.term, a.prevIndex + |a.entries|);
    NodeAnchored(cluster, h, n, v);
    LeadAnchored(cluster, h, a.term);
    MergeFollows(h, v.log, h.reigns[a.term].log, a.prevIndex, a.entries);
    NodeTerm(cluster, h, n, v);
    AcceptedHistory(cluster, h, n, a.term, a.prevIndex + |a.entries|);
    FollowerHolds(cluster, h, n, v, leader, a, v');
    forall t: nat, i: nat | HasEntry(h', t, i) && i <= Ack(h', n, t) ensures Inherits(cluster, h', v'.log, t, i) {
      if t == a.term {
        KeepsCurrent(cluster, h', n, v', i);
      } else {
        KeepsOlder(cluster, h, h', n, v, v'.log, a.term, t, i);
      }
    }
  }

  lemma LeadAnchored(cluster: set<NodeId>, h: History, t: nat)
    requires HistoryInv(cluster, h) && t in h.reigns
    ensures Anchored(h, h.reigns[t].log)
  {
    hide BallotsInv, OneVote, ClogsInv, AcksInv, Completeness, VotesComplete, DeliveredInv, Anchored;
    assert ReignInv(cluster, h, t);
  }

  lemma NodeTerm(cluster: set<NodeId>, h: History, n: NodeId, v: NodeState)
    requires NodeInv(cluster, h, n, v)
    ensures TermOf(h, n) == v.term
  {
    hide LogInv, CandidateInv, LeaderInv, HoldsAcked, NodeComplete;
  }

  lemma FollowerLog(cluster: set<NodeId>, h: History, n: NodeId, v: NodeState, leader: NodeId, a: AppendArgs, v': NodeState)
    requires HistoryInv(cluster, h) && NodeInv(cluster, h, n, v) && ArgsInv(cluster, h, leader, a)
    requires a.term >= v.term && Consistent(v.log, a) && n in cluster
    requires v'.log == Merge(v.log, a.prevIndex + 1, a.entries) && v'.term == a.term
    requires v'.commit == CommitAfter(v.commit, a) && v'.applied == v.applied
    ensures LogInv(cluster, Accepted(h, n, a.term, a.prevIndex + |a.entries|), v')
  {
    hide HistoryInv, NodeInv, LogInv, Merge, Anchored, Certified, Grows, TermsUpTo;
    var lead := h.reigns[a.term].log;
    var last := a.prevIndex + |a.entries|;
    var h' := Accepted(h, n, a.term, last);
    NodeAnchored(cluster, h, n, v);
    NodeTerm(cluster, h, n, v);
    LeadAnchored(cluster, h, a.term);
    AcceptedHistory(cluster, h, n, a.term, last);
    MergeFollows(h, v.log, lead, a.prevIndex, a.entries);
    CommitKept(cluster, h, n, v, leader, a);
    PrefixAnchored(h, lead, last + 1);
    AnchoredGrows(h, h', v'.log);
    MergedTerms(cluster, h, n, v, a.term, v'.log, last);
    FollowerCommit(cluster, h, h', n, v, leader, a, v');
  }

  lemma MergedTerms(cluster: set<NodeId>, h: History, n: NodeId, v: NodeState, t: nat, log': seq<Entry>, last: nat)
    requires HistoryInv(cluster, h) && NodeInv(cluster, h, n, v) && t in h.reigns && v.term <= t && last < |h.reigns[t].log|
    requires log' == v.log || log' == h.reigns[t].log[..last + 1]
    ensures TermsUpTo(log', t)
  {
    hide BallotsInv, OneVote, ClogsInv, AcksInv, Completeness, VotesComplete, DeliveredInv;
    hide Anchored, Certified, CandidateInv, LeaderInv, HoldsAcked, NodeComplete;
    assert ReignInv(cluster, h, t);
  }

  lemma FollowerCommit(cluster: set<NodeId>, h: History, h': History, n: NodeId, v: NodeState, leader: NodeId, a: AppendArgs, v': NodeState)
    requires NodeInv(cluster, h, n, v) && ArgsInv(cluster, h, leader, a) && Grows(h, h') && a.term >= v.term
    requires v'.term == a.term && v'.commit == CommitAfter(v.commit, a) && v'.applied == v.applied
    requires Agree(v.log, v'.log, v.commit + 1) && Agree(v'.log, h.reigns[a.term].log, a.prevIndex + |a.entries| + 1)
    requires Anchored(h', v'.log) && TermsUpTo(v'.log, a.term)
    ensures LogInv(cluster, h', v')
  {
    hide Grows, Anchored, TermsUpTo, Certified, CandidateInv, LeaderInv, HoldsAcked, NodeComplete;
    if a.leaderCommit > v.commit {
      CertifiedGrows(cluster, h, h', h.reigns[a.term].log, v'.log, v'.commit, a.term, a.term);
    } else {
      CertifiedGrows(cluster, h, h', v.log, v'.log, v.commit, v.term, a.term);
    }
  }

  lemma AcceptedState(rule: VoteRule, v: NodeState, a: AppendArgs)
    requires v.disk == Durable(v.term, v.vote, v.log) && a.term >= v.term && Consistent(v.log, a)
    ensures var v' := HandleAppendEntries(v, rule, a).0;
            && v'.role == Follower && v'.term == a.term && v'.log == Merge(v.log, a.prevIndex + 1, a.entries)
            && v'.commit == CommitAfter(v.commit, a) && v'.applied == v.applied
            && v'.disk == Durable(v'.term, v'.vote, v'.log) && v'.calls <= v.calls
            && (v'.vote.None? || (v'.vote == v.vote && v'.term == v.term))
  {
    hide Merge, CommitAfter;
    MergeNothing(v.log, a.prevIndex + 1);
  }

  lemma AcceptedBasics(rule: VoteRule, cluster: set<NodeId>, h: History, n: NodeId, v: NodeState, a: AppendArgs)
    requires DiskInv(h, n, v) && CallsInv(v) && (v.vote.Some? ==> Ballot(n, v.term, v.vote.value) in h.ballots)
    requires a.term >= v.term && Consistent(v.log, a)
    ensures var v' := HandleAppendEntries(v, rule, a).0;
            var h' := Accepted(h, n, a.term, a.prevIndex + |a.entries|);
            && v'.role == Follower && v'.term == a.term && v'.log == Merge(v.log, a.prevIndex + 1, a.entries)
            && v'.commit == CommitAfter(v.commit, a) && v'.applied == v.applied
            && DiskInv(h', n, v') && CallsInv(v') && (v'.vote.Some? ==> Ballot(n, v'.term, v'.vote.value) in h'.ballots)
  {
    hide Merge, CommitAfter, HandleAppendEntries, Consistent;
    AcceptedState(rule, v, a);
  }

  lemma AcceptNode(rule: VoteRule, cluster: set<NodeId>, h: History, n: NodeId, v: NodeState, leader: NodeId, a: AppendArgs)
    requires HistoryInv(cluster, h) && NodeInv(cluster, h, n, v) && ArgsInv(cluster, h, leader, a)
    requires a.term >= v.term && Consistent(v.log, a) && n in cluster
    ensures NodeInv(cluster, Accepted(h, n, a.term, a.prevIndex + |a.entries|), n, HandleAppendEntries(v, rule, a).0)
  {
    hide HistoryInv, LogInv, CandidateInv, LeaderInv, HoldsAcked, NodeComplete, ArgsInv, Merge, CommitAfter;
    hide Accepted, DiskInv, CallsInv, HandleAppendEntries, Consistent;
    var v' := HandleAppendEntries(v, rule, a).0;
    var h' := Accepted(h, n, a.term, a.prevIndex + |a.entries|);
    AcceptedBasics(rule, cluster, h, n, v, a);
    FollowerHolds(cluster, h, n, v, leader, a, v');
    FollowerComplete(cluster, h, n, v, leader, a, v');
    FollowerLog(cluster, h, n, v, leader, a, v');
    FollowerRoles(cluster, h', n, v');
  }

  lemma AcceptStep(rule: VoteRule, cluster: set<NodeId>, s: State, h: History, m: Message)
    requires Inv(cluster, s, h) && m in s.net && m.AppendEntries? && m.to in cluster
    requires m.args.term >= s.nodes[m.to].term && Consistent(s.nodes[m.to].log, m.args)
    ensures var v := s.nodes[m.to];
            var (v', r) := HandleAppendEntries(v, rule, m.args);
            Inv(cluster, State(s.nodes[m.to := v'], s.net + {AppendReply(m.to, m.from, m.args, r)}),
                Accepted(h, m.to, m.args.term, m.args.prevIndex + |m.args.entries|))
    ensures Grows(h, Accepted(h, m.to, m.args.term, m.args.prevIndex + |m.args.entries|))
  {
    hide HistoryInv, Grows, SameFor, NodeInv, Certified, HandleAppendEntries;
    var n, v, a := m.to, s.nodes[m.to], m.args;
    assert NodeInv(cluster, h, n, v) && MessageInv(cluster, h, m);
    NodeTerm(cluster, h, n, v);
    AcceptedReply(rule, v, a);
    var (v', r) := HandleAppendEntries(v, rule, a);
    var h' := Accepted(h, n, a.term, a.prevIndex + |a.entries|);
    AcceptedHistory(cluster, h, n, a.term, a.prevIndex + |a.entries|);
    AcceptNode(rule, cluster, h, n, v, m.from, a);
    ArgsGrow(cluster, h, h', m.from, a);
    StepKeepsInv(cluster, s, h, n, v', {AppendReply(n, m.from, a, r)}, h');
  }

  lemma AcceptedReply(rule: VoteRule, v: NodeState, a: AppendArgs)
    requires a.term >= v.term && Consistent(v.log, a)
    ensures HandleAppendEntries(v, rule, a).1.success && HandleAppendEntries(v, rule, a).1.term == a.term
  {
    hide Merge, CommitAfter;
  }

  lemma MergeNothing(log: seq<Entry>, idx: nat)
    requires idx <= |log|
    ensures Merge(log, idx, []) == log
  {
  }

  lemma FollowerRoles(cluster: set<NodeId>, h: History, n: NodeId, v: NodeState)
    requires v.role == Follower
    ensures CandidateInv(cluster, h, n, v) && LeaderInv(cluster, h, n, v)
  {
  }

  // ---- rejection ----

  // The run of equal terms: it starts at the result, nothing earlier belongs to it.
  lemma {:induction false} FirstOfRunShape(log: seq<Entry>, i: nat)
    requires 1 <= i < |log|
    ensures 1 <= FirstOfRun(log, i) <= i
    ensures forall j | FirstOfRun(log, i) <= j <= i :: log[j].term == log[i].term
    ensures FirstOfRun(log, i) > 1 ==> log[FirstOfRun(log, i) - 1].term != log[i].term
  {
    if i > 1 && log[i - 1].term == log[i].term {
      FirstOfRunShape(log, i - 1);
    }
  }

  lemma RejectionHints(cluster: set<NodeId>, h: History, v: NodeState, leader: NodeId, a: AppendArgs, t: nat)
    requires HistoryInv(cluster, h) && Anchored(h, v.log) && ArgsInv(cluster, h, leader, a)
    requires !Consistent(v.log, a)
    ensures HintInv(h, a, Rejection(v.log, a, t))
  {
    hide BallotsInv, OneVote, ClogsInv, AcksInv, Completeness, VotesComplete, DeliveredInv, Certified;
    assert ReignInv(cluster, h, a.term);
    if a.prevIndex < |v.log| {
      assert a.prevIndex > 0;
      assert AnchoredAt(h, v.log, a.prevIndex);
      FirstOfRunShape(v.log, a.prevIndex);
    }
  }

  lemma RejectStep(rule: VoteRule, cluster: set<NodeId>, s: State, h: History, m: Message)
    requires Inv(cluster, s, h) && m in s.net && m.AppendEntries? && m.to in cluster
    requires m.args.term >= s.nodes[m.to].term && !Consistent(s.nodes[m.to].log, m.args)
    ensures var v := s.nodes[m.to];
            var (v', r) := HandleAppendEntries(v, rule, m.args);
            Inv(cluster, State(s.nodes[m.to := v'], s.net + {AppendReply(m.to, m.from, m.args, r)}),
                Accepted(h, m.to, m.args.term, 0))
    ensures Grows(h, Accepted(h, m.to, m.args.term, 0))
  {
    hide HistoryInv, Grows, NodeInv, HintInv, Rejection, ArgsInv, SameFor;
    var n, v, a := m.to, s.nodes[m.to], m.args;
    assert NodeInv(cluster, h, n, v) && MessageInv(cluster, h, m);
    var (v', r) := HandleAppendEntries(v, rule, a);
    var h' := Accepted(h, n, a.term, 0);
    RejectNode(rule, cluster, h, n, v, a);
    ArgsGrow(cluster, h, h', m.from, a);
    RejectionHints(cluster, h', v', m.from, a, v'.term) by { NodeAnchored(cluster, h', n, v'); }
    RejectionFails(v.log, a, v'.term);
    StepKeepsInv(cluster, s, h, n, v', {AppendReply(n, m.from, a, r)}, h');
  }

  lemma RejectNode(rule: VoteRule, cluster: set<NodeId>, h: History, n: NodeId, v: NodeState, a: AppendArgs)
    requires HistoryInv(cluster, h) && NodeInv(cluster, h, n, v) && n in cluster
    requires a.term >= v.term && !Consistent(v.log, a)
    ensures var h' := Accepted(h, n, a.term, 0);
            && HistoryInv(cluster, h') && Grows(h, h') && (forall p | p != n :: SameFor(h, h', p))
            && NodeInv(cluster, h', n, HandleAppendEntries(v, rule, a).0)
  {
    hide HistoryInv, Grows, SameFor, Anchored, TermsUpTo, CandidateInv, LeaderInv, HoldsAcked, NodeComplete, Certified, Rejection;
    AcceptedHistory(cluster, h, n, a.term, 0);
    FollowerKeepsInv(cluster, h, Accepted(h, n, a.term, 0), n, v, HandleAppendEntries(v, rule, a).0);
  }

  lemma NodeAnchored(cluster: set<NodeId>, h: History, n: NodeId, v: NodeState)
    requires NodeInv(cluster, h, n, v)
    ensures Anchored(h, v.log) && |v.log| > 0
  {
    hide Anchored;
  }

  lemma RejectionFails(log: seq<Entry>, a: AppendArgs, t: nat)
    requires !Consistent(log, a)
    ensures !Rejection(log, a, t).success
  {
  }

  lemma StaleStep(rule: VoteRule, cluster: set<NodeId>, s: State, h: History, m: Message)
    requires Inv(cluster, s, h) && m in s.net && m.AppendEntries? && m.to in cluster
    requires m.args.term < s.nodes[m.to].term
    ensures var v := s.nodes[m.to];
            var (v', r) := HandleAppendEntries(v, rule, m.args);
            Inv(cluster, State(s.nodes[m.to := v'], s.net + {AppendReply(m.to, m.from, m.args, r)}), h)
  {
    hide HistoryInv, NodeInv, Certified;
    assert MessageInv(cluster, h, m);
    assert s.nodes[m.to := s.nodes[m.to]] == s.nodes;
  }

  lemma AppendEntriesStep(rule: VoteRule, cluster: set<NodeId>, s: State, h: History, m: Message)
    requires Inv(cluster, s, h) && m in s.net && m.AppendEntries? && m.to in cluster && |s.nodes[m.to].log| > 0
    ensures var v := s.nodes[m.to];
            var (v', out) := Handle(rule, cluster, v, m);
            Inv(cluster, State(s.nodes[m.to := v'], s.net + out), RecordAppend(h, rule, v, v', m)) && Grows(h, RecordAppend(h, rule, v, v', m))
  {
    hide HistoryInv, NodeInv, MessageInv, Merge, Rejection, Grows;
    GrowsSelf(h);
    var v, a := s.nodes[m.to], m.args;
    if a.term < v.term {
      StaleStep(rule, cluster, s, h, m);
    } else if Consistent(v.log, a) {
      AcceptStep(rule, cluster, s, h, m);
    } else {
      RejectionFails(v.log, a, a.term);
      RejectStep(rule, cluster, s, h, m);
    }
  }
}
