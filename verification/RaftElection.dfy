/** Counting votes and winning an election keep the invariant. */
module RaftElection {
  import opened RaftTypes
  import opened RaftNode
  import opened RaftProtocol
  import opened RaftHistory
  import opened RaftInvariant
  import opened RaftGrowth
  import opened RaftVoting

  // ---- what a leader sends ----

  lemma SendsKeepInv(cluster: set<NodeId>, h: History, n: NodeId, v: NodeState, to: set<NodeId>)
    requires NodeInv(cluster, h, n, v) && v.role == Leader && n in cluster && to <= Peers(cluster, n)
    ensures forall m | m in Sends(v, n, to) :: MessageInv(cluster, h, m)
    // the leader can send to every peer: nextIndex never leaves its log
    ensures forall p | p in to :: CanSend(v, p)
  {
    hide Anchored, TermsUpTo, Certified, CandidateInv, HoldsAcked, NodeComplete;
  }

  // ---- counting a vote ----

  function Counted(h: History, n: NodeId, p: NodeId): History
    requires n in h.tally
  {
    h.(tally := h.tally[n := h.tally[n] + {p}])
  }

  lemma CountedHistory(cluster: set<NodeId>, h: History, n: NodeId, p: NodeId)
    requires HistoryInv(cluster, h) && n in cluster
    ensures Grows(h, Counted(h, n, p)) && HistoryInv(cluster, Counted(h, n, p))
    ensures forall q | q != n :: SameFor(h, Counted(h, n, p), q)
  {
    hide ReignsInv, BallotsInv, OneVote, ClogsInv, Completeness, VotesComplete, DeliveredInv;
    HistoryStays(cluster, h, Counted(h, n, p));
  }

  lemma CounterKeepsInv(cluster: set<NodeId>, h: History, n: NodeId, v: NodeState, p: NodeId)
    requires HistoryInv(cluster, h) && NodeInv(cluster, h, n, v) && n in cluster && p in cluster
    requires v.role == Candidate && Call(v.term, p) in v.calls && Ballot(p, v.term, n) in h.ballots
    ensures NodeInv(cluster, Counted(h, n, p), n,
                    v.(calls := v.calls - {Call(v.term, p)}, votes := v.votes + 1))
  {
    hide ReignsInv, BallotsInv, OneVote, ClogsInv, Completeness, VotesComplete, DeliveredInv;
    hide Anchored, TermsUpTo, Certified, Inherits, Grows;
    var h' := Counted(h, n, p);
    CountedHistory(cluster, h, n, p);
    AnchoredGrows(h, h', v.log);
    CompleteGrows(cluster, h, h', n, v);
    CertifiedGrows(cluster, h, h', v.log, v.log, v.commit, v.term, v.term);
  }

  // ---- winning ----

  function Won(h: History, n: NodeId, v: NodeState): History
    requires n in h.tally && |v.log| > 0
  {
    h.(reigns := h.reigns[v.term := Reign(n, h.tally[n], v.log)],
       acks := h.acks[(n, v.term) := |v.log| - 1])
  }

  // Election Safety: two winners of one term would share a voter.
  lemma NoTwoWinners(cluster: set<NodeId>, h: History, n: NodeId, v: NodeState)
    requires HistoryInv(cluster, h) && CandidateInv(cluster, h, n, v) && n in cluster
    requires v.role == Candidate && Wins(v.votes, Peers(cluster, n))
    ensures v.term !in h.reigns
    ensures Majority(cluster, h.tally[n])
  {
    hide BallotsInv, ClogsInv, AcksInv, Completeness, VotesComplete, DeliveredInv, Anchored, TermsUpTo;
    assert |Peers(cluster, n)| == |cluster| - 1;
    if v.term in h.reigns {
      assert ReignInv(cluster, h, v.term);
      var r := h.reigns[v.term];
      var p := MajoritiesMeet(cluster, r.voters, h.tally[n]);
    }
  }

  lemma WonGrows(cluster: set<NodeId>, h: History, n: NodeId, v: NodeState)
    requires HistoryInv(cluster, h) && NodeInv(cluster, h, n, v) && n in cluster && v.term !in h.reigns
    ensures Grows(h, Won(h, n, v)) && AcksInv(Won(h, n, v))
    ensures forall p | p != n :: SameFor(h, Won(h, n, v), p)
  {
    hide ReignsInv, BallotsInv, OneVote, ClogsInv, Completeness, VotesComplete, DeliveredInv;
    hide Anchored, TermsUpTo, Certified, NodeComplete, CandidateInv, LeaderInv;
  }

  lemma WonReigns(cluster: set<NodeId>, h: History, n: NodeId, v: NodeState)
    requires HistoryInv(cluster, h) && NodeInv(cluster, h, n, v) && n in cluster && v.term !in h.reigns
    requires v.role == Candidate && Majority(cluster, h.tally[n])
    ensures ReignsInv(cluster, Won(h, n, v))
  {
    hide BallotsInv, OneVote, Completeness, VotesComplete, DeliveredInv;
    hide Certified, NodeComplete, LeaderInv, Grows, Anchored, AcksInv;
    var h' := Won(h, n, v);
    WonGrows(cluster, h, n, v);
    assert ClogInv(h, n, v.term);
    forall t | t in h'.reigns ensures ReignInv(cluster, h', t) {
      if t == v.term {
        AnchoredGrows(h, h', v.log);
      } else {
        assert ReignInv(cluster, h, t);
        AnchoredGrows(h, h', h.reigns[t].log);
      }
    }
  }

  // The winner's log has all that any voter acknowledged in an earlier term,
  // or else a majority, its voters, has left that term without it.
  lemma WinnerInherits(cluster: set<NodeId>, h: History, n: NodeId, v: NodeState, t: nat, i: nat)
    requires HistoryInv(cluster, h) && CandidateInv(cluster, h, n, v)
    requires v.role == Candidate && Majority(cluster, h.tally[n])
    requires t < v.term && HasEntry(h, t, i)
    ensures Inherits(cluster, h, v.log, t, i)
  {
    hide ReignsInv, ClogsInv, AcksInv, Completeness, OneVote, DeliveredInv;
    if forall p | p in h.tally[n] :: Ack(h, p, t) < i {
      forall p | p in h.tally[n] ensures p in Deaf(cluster, h, t, i) {
        assert BallotInv(cluster, h, Ballot(p, v.term, n));
      }
      MajorityOfSuperset(cluster, h.tally[n], Deaf(cluster, h, t, i));
    } else {
      var p :| p in h.tally[n] && Ack(h, p, t) >= i;
      assert VoteComplete(cluster, h, Ballot(p, v.term, n), t, i);
    }
  }

  lemma WonCompleteness(cluster: set<NodeId>, h: History, n: NodeId, v: NodeState)
    requires HistoryInv(cluster, h) && NodeInv(cluster, h, n, v) && n in cluster && v.term !in h.reigns
    requires v.role == Candidate && Majority(cluster, h.tally[n])
    ensures Completeness(cluster, Won(h, n, v))
  {
    hide ReignsInv, BallotsInv, OneVote, VotesComplete, DeliveredInv, AcksInv;
    hide Certified, NodeComplete, LeaderInv, Grows, Anchored, Inherits;
    var h' := Won(h, n, v);
    WonGrows(cluster, h, n, v);
    assert ClogInv(h, n, v.term);
    forall t: nat, u: nat, i: nat | t < u && u in h'.reigns && HasEntry(h', t, i)
      ensures Inherits(cluster, h', h'.reigns[u].log, t, i)
    {
      assert t != v.term && HasEntry(h, t, i);
      if u == v.term {
        WinnerInherits(cluster, h, n, v, t, i);
      }
      InheritsGrows(cluster, h, h', h'.reigns[u].log, h'.reigns[u].log, t, i);
    }
  }

  lemma WonHistory(cluster: set<NodeId>, h: History, n: NodeId, v: NodeState)
    requires HistoryInv(cluster, h) && NodeInv(cluster, h, n, v) && n in cluster && v.term !in h.reigns
    requires v.role == Candidate && Majority(cluster, h.tally[n])
    ensures HistoryInv(cluster, Won(h, n, v))
  {
    hide ReignsInv, BallotsInv, ClogsInv, AcksInv, Completeness, VotesComplete, DeliveredInv, Grows;
    hide Certified, Anchored, TermsUpTo, NodeComplete, LeaderInv;
    var h' := Won(h, n, v);
    WonGrows(cluster, h, n, v);
    WonReigns(cluster, h, n, v);
    WonCompleteness(cluster, h, n, v);
    VotesCompleteGrows(cluster, h, h');
    ClogsGrow(h, h');
    BallotsGrow(cluster, h, h');
    HistoryParts(cluster, h, h');
  }

  lemma WinnerKeepsInv(cluster: set<NodeId>, h: History, n: NodeId, v: NodeState)
    requires HistoryInv(cluster, h) && NodeInv(cluster, h, n, v) && n in cluster && v.term !in h.reigns
    requires v.role == Candidate
    ensures NodeInv(cluster, Won(h, n, v), n, BecomeLeader(v, Peers(cluster, n)))
  {
    hide ReignsInv, BallotsInv, OneVote, Completeness, VotesComplete, DeliveredInv, Grows;
    hide Certified, Anchored, Inherits;
    var h' := Won(h, n, v);
    WonGrows(cluster, h, n, v);
    assert ClogInv(h, n, v.term);
    AnchoredGrows(h, h', v.log);
    CertifiedGrows(cluster, h, h', v.log, v.log, v.commit, v.term, v.term);
    forall t: nat, i: nat | HasEntry(h', t, i) && i <= Ack(h', n, t) ensures Inherits(cluster, h', v.log, t, i) {
      assert t != v.term && HasEntry(h, t, i);
      InheritsGrows(cluster, h, h', v.log, v.log, t, i);
    }
  }

  // ---- the vote-reply handler ----

  lemma SilentReply(cluster: set<NodeId>, s: State, h: History, m: Message)
    requires Inv(cluster, s, h) && m in s.net && m.VoteReply? && m.to in cluster && |s.nodes[m.to].log| > 0
    requires m.term <= s.nodes[m.to].term && !Counts(s.nodes[m.to], m)
    ensures Inv(cluster, State(s.nodes[m.to := OnVoteReply(s.nodes[m.to], Peers(cluster, m.to), m.from, m.callTerm, m.term, m.granted)], s.net), h)
  {
    hide HistoryInv, Anchored, TermsUpTo, Certified, Agree, Inherits, MessageInv;
    assert NodeInv(cluster, h, m.to, s.nodes[m.to]);
  }

  lemma CountReply(cluster: set<NodeId>, s: State, h: History, m: Message)
    requires Inv(cluster, s, h) && m in s.net && m.VoteReply? && m.to in cluster && |s.nodes[m.to].log| > 0
    requires Call(m.callTerm, m.from) in s.nodes[m.to].calls && Counts(s.nodes[m.to], m)
    ensures var v := s.nodes[m.to];
            var v1 := v.(calls := v.calls - {Call(v.term, m.from)}, votes := v.votes + 1);
            && m.to in h.tally && Inv(cluster, State(s.nodes[m.to := v1], s.net), Counted(h, m.to, m.from))
            && Grows(h, Counted(h, m.to, m.from))
  {
    hide NodeInv, Grows, SameFor, ArgsInv, ResultInv;
    hide ReignsInv, BallotsInv, OneVote, ClogsInv, AcksInv, Completeness, VotesComplete, DeliveredInv;
    var n, v := m.to, s.nodes[m.to];
    assert NodeInv(cluster, h, n, v) && MessageInv(cluster, h, m);
    CountedHistory(cluster, h, n, m.from);
    CounterKeepsInv(cluster, h, n, v, m.from);
    var v1 := v.(calls := v.calls - {Call(v.term, m.from)}, votes := v.votes + 1);
    StepKeepsInv(cluster, s, h, n, v1, {}, Counted(h, n, m.from));
    assert s.net + {} == s.net;
  }

  lemma WinStep(cluster: set<NodeId>, s: State, h: History, n: NodeId)
    requires Inv(cluster, s, h) && n in cluster && n in h.tally && |s.nodes[n].log| > 0
    requires s.nodes[n].role == Candidate && Wins(s.nodes[n].votes, Peers(cluster, n))
    ensures var v' := BecomeLeader(s.nodes[n], Peers(cluster, n));
            Inv(cluster, State(s.nodes[n := v'], s.net + Sends(v', n, Peers(cluster, n))), Won(h, n, s.nodes[n]))
    ensures Grows(h, Won(h, n, s.nodes[n]))
  {
    hide HistoryInv, Grows, SameFor, MessageInv, LogInv, CandidateInv, LeaderInv, HoldsAcked, NodeComplete;
    var v := s.nodes[n];
    assert NodeInv(cluster, h, n, v);
    var v' := BecomeLeader(v, Peers(cluster, n));
    NoTwoWinners(cluster, h, n, v);
    WonGrows(cluster, h, n, v);
    WonHistory(cluster, h, n, v);
    WinnerKeepsInv(cluster, h, n, v);
    SendsKeepInv(cluster, Won(h, n, v), n, v', Peers(cluster, n));
    StepKeepsInv(cluster, s, h, n, v', Sends(v', n, Peers(cluster, n)), Won(h, n, v));
  }

  lemma SameTerms(cluster: set<NodeId>, s: State, h: History, n: NodeId)
    requires Inv(cluster, s, h) && n in cluster
    ensures s.nodes[n].term == TermOf(h, n) && n in h.tally && |s.nodes[n].log| > 0
    ensures h.terms[n := s.nodes[n].term] == h.terms
  {
    hide ReignsInv, BallotsInv, OneVote, ClogsInv, AcksInv, Completeness, VotesComplete, DeliveredInv, MessageInv;
    hide Anchored, TermsUpTo, Certified, CandidateInv, LeaderInv, HoldsAcked, NodeComplete;
    assert NodeInv(cluster, h, n, s.nodes[n]);
  }

  lemma VoteReplyStep(rule: VoteRule, cluster: set<NodeId>, s: State, h: History, m: Message)
    requires Inv(cluster, s, h) && m in s.net && m.VoteReply? && m.to in cluster && m.to in h.tally
    requires |s.nodes[m.to].log| > 0 && Call(m.callTerm, m.from) in s.nodes[m.to].calls
    ensures var v := s.nodes[m.to];
            var (v', out) := Handle(rule, cluster, v, m);
            Inv(cluster, State(s.nodes[m.to := v'], s.net + out), RecordCount(h, v, v', m)) && Grows(h, RecordCount(h, v, v', m))
  {
    hide HistoryInv, NodeInv, MessageInv, Sends, Grows;
    var n, v := m.to, s.nodes[m.to];
    var peers := Peers(cluster, n);
    var (v', out) := Handle(rule, cluster, v, m);
    SameTerms(cluster, s, h, n);
    assert s.net + {} == s.net;
    GrowsSelf(h);
    if m.term > v.term {
      StandDownReply(cluster, s, h, n, m);
    } else if !Counts(v, m) {
      SilentReply(cluster, s, h, m);
    } else {
      CountReply(cluster, s, h, m);
      var v1 := v.(calls := v.calls - {Call(v.term, m.from)}, votes := v.votes + 1);
      var s1 := State(s.nodes[n := v1], s.net);
      var h1 := Counted(h, n, m.from);
      if Wins(v1.votes, peers) {
        WinStep(cluster, s1, h1, n);
        assert s1.nodes[n := v'] == s.nodes[n := v'];
        GrowsAgain(h, h1, Won(h1, n, v1));
      }
    }
  }

  lemma StandDownReply(cluster: set<NodeId>, s: State, h: History, n: NodeId, m: Message)
    requires Inv(cluster, s, h) && n in cluster && m.VoteReply? && m.term > s.nodes[n].term
    ensures var v := s.nodes[n];
            Inv(cluster, State(s.nodes[n := BecomeFollower(v.(calls := v.calls - {Call(m.callTerm, m.from)}), m.term)], s.net),
                WithTerm(h, n, m.term))
    ensures Grows(h, WithTerm(h, n, m.term))
  {
    hide HistoryInv, MessageInv, Anchored, TermsUpTo, Certified, CandidateInv, LeaderInv, HoldsAcked, NodeComplete;
    var v := s.nodes[n];
    assert NodeInv(cluster, h, n, v);
    StandDown(cluster, s, h, n, BecomeFollower(v.(calls := v.calls - {Call(m.callTerm, m.from)}), m.term), m.term);
  }
}
