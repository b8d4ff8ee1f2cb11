/** The election steps keep the invariant. */
module RaftVoting {
  import opened Options
  import opened RaftTypes
  import opened RaftNode
  import opened RaftProtocol
  import opened RaftHistory
  import opened RaftInvariant
  import opened RaftGrowth

  // ---- shapes shared by all steps ----

  lemma StepKeepsInv(cluster: set<NodeId>, s: State, h: History, n: NodeId, v': NodeState, out: set<Message>, h': History)
    requires Inv(cluster, s, h) && n in cluster && Grows(h, h') && HistoryInv(cluster, h')
    requires forall p | p in cluster && p != n :: SameFor(h, h', p)
    requires NodeInv(cluster, h', n, v')
    requires forall m | m in out :: MessageInv(cluster, h', m)
    ensures Inv(cluster, State(s.nodes[n := v'], s.net + out), h')
  {
    hide NodeInv, MessageInv, HistoryInv, Grows, SameFor;
    forall p | p in cluster && p != n ensures NodeInv(cluster, h', p, s.nodes[p]) {
      NodeGrows(cluster, h, h', p, s.nodes[p]);
    }
    forall m | m in s.net ensures MessageInv(cluster, h', m) {
      MessageGrows(cluster, h, h', m);
    }
  }

  // No vote, election or command: terms and acknowledgements may rise.
  lemma HistoryStays(cluster: set<NodeId>, h: History, h': History)
    requires HistoryInv(cluster, h) && Grows(h, h') && AcksInv(h')
    requires h'.terms.Keys == cluster && h'.tally.Keys == cluster
    requires h'.reigns == h.reigns && h'.ballots == h.ballots && h'.clogs == h.clogs && h'.delivered == h.delivered
    ensures HistoryInv(cluster, h')
  {
    ReignsGrow(cluster, h, h');
    ClogsGrow(h, h');
    CompletenessGrows(cluster, h, h');
    VotesCompleteGrows(cluster, h, h');
    forall b | b in h'.ballots ensures BallotInv(cluster, h', b) {
      assert BallotInv(cluster, h, b);
    }
    forall d | d in h'.delivered ensures DeliveredInv(cluster, h', d) {
      DeliveredGrows(cluster, h, h', d);
    }
  }

  // A follower that kept its log, in the same term or a later one.
  lemma FollowerKeepsInv(cluster: set<NodeId>, h: History, h': History, n: NodeId, v: NodeState, v': NodeState)
    requires HistoryInv(cluster, h) && NodeInv(cluster, h, n, v) && Grows(h, h')
    requires forall t: nat :: Ack(h', n, t) == Ack(h, n, t)
    requires v'.role == Follower && v'.log == v.log && v'.term >= v.term
    requires DiskInv(h', n, v') && CallsInv(v')
    requires v'.vote.Some? ==> Ballot(n, v'.term, v'.vote.value) in h'.ballots
    requires v'.applied <= v'.commit && (v'.commit == v.commit || v'.commit == 0)
    ensures NodeInv(cluster, h', n, v')
  {
    hide ReignsInv, BallotsInv, OneVote, ClogsInv, AcksInv, Completeness, VotesComplete, DeliveredInv;
    hide Anchored, TermsUpTo, Certifies, NodeComplete;
    AnchoredGrows(h, h', v.log);
    CompleteGrows(cluster, h, h', n, v);
    FollowerKept(cluster, h, h', n, v, v');
    if v'.commit != 0 {
      CertifiedGrows(cluster, h, h', v.log, v.log, v.commit, v.term, v'.term);
    }
  }

  lemma FollowerKept(cluster: set<NodeId>, h: History, h': History, n: NodeId, v: NodeState, v': NodeState)
    requires HistoryInv(cluster, h) && Grows(h, h') && HoldsAcked(h, n, v) && NodeComplete(cluster, h', n, v)
    requires v.term == TermOf(h, n) && |v.log| > 0 && TermsUpTo(v.log, v.term) && v'.log == v.log && v'.term >= v.term
    requires forall t: nat :: Ack(h', n, t) == Ack(h, n, t)
    ensures HoldsAcked(h', n, v') && NodeComplete(cluster, h', n, v') && TermsUpTo(v'.log, v'.term)
  {
    hide ReignsInv, BallotsInv, OneVote, ClogsInv, Completeness, VotesComplete, DeliveredInv, Inherits;
  }

  function WithTerm(h: History, n: NodeId, t: nat): History
  {
    h.(terms := h.terms[n := t])
  }

  lemma WithTermGrows(cluster: set<NodeId>, h: History, n: NodeId, t: nat)
    requires HistoryInv(cluster, h) && n in cluster && t >= TermOf(h, n)
    ensures Grows(h, WithTerm(h, n, t)) && HistoryInv(cluster, WithTerm(h, n, t))
    ensures forall p | p != n :: SameFor(h, WithTerm(h, n, t), p)
  {
    hide ReignsInv, BallotsInv, OneVote, ClogsInv, Completeness, VotesComplete, DeliveredInv;
    HistoryStays(cluster, h, WithTerm(h, n, t));
  }

  // A node that stands down to term t, or restarts there.
  lemma StandDown(cluster: set<NodeId>, s: State, h: History, n: NodeId, v': NodeState, t: nat)
    requires Inv(cluster, s, h) && n in cluster && t >= s.nodes[n].term
    requires v'.role == Follower && v'.log == s.nodes[n].log && v'.term == t
    requires v'.disk == Durable(v'.term, v'.vote, v'.log)
    requires v'.calls <= s.nodes[n].calls
    requires v'.vote == None || (t == s.nodes[n].term && v'.vote == s.nodes[n].vote)
    requires v'.applied <= v'.commit && (v'.commit == s.nodes[n].commit || v'.commit == 0)
    ensures Inv(cluster, State(s.nodes[n := v'], s.net), WithTerm(h, n, t)) && Grows(h, WithTerm(h, n, t))
  {
    var h' := WithTerm(h, n, t);
    hide HistoryInv, LogInv, CandidateInv, LeaderInv, HoldsAcked, NodeComplete, MessageInv;
    var v := s.nodes[n];
    assert NodeInv(cluster, h, n, v);
    WithTermGrows(cluster, h, n, t);
    FollowerKeepsInv(cluster, h, h', n, v, v');
    StepKeepsInv(cluster, s, h, n, v', {}, h');
    assert s.net + {} == s.net;
  }

  // ---- startElection ----

  lemma HistoryParts(cluster: set<NodeId>, h: History, h': History)
    requires HistoryInv(cluster, h) && Grows(h, h')
    requires h'.terms.Keys == cluster && h'.tally.Keys == cluster && h'.delivered == h.delivered
    requires ReignsInv(cluster, h') && BallotsInv(cluster, h') && OneVote(h') && ClogsInv(h') && AcksInv(h')
    requires Completeness(cluster, h') && VotesComplete(cluster, h')
    ensures HistoryInv(cluster, h')
  {
    hide ReignsInv, BallotsInv, OneVote, ClogsInv, AcksInv, Completeness, VotesComplete, DeliveredInv, Grows;
    forall d | d in h'.delivered ensures DeliveredInv(cluster, h', d) {
      DeliveredGrows(cluster, h, h', d);
    }
  }

  lemma CandidacyGrows(cluster: set<NodeId>, h: History, n: NodeId, v: NodeState)
    requires HistoryInv(cluster, h) && DiskInv(h, n, v) && n in cluster
    ensures Grows(h, RecordCandidacy(h, v, n))
    ensures forall p | p != n :: SameFor(h, RecordCandidacy(h, v, n), p)
  {
    hide ReignsInv, BallotsInv, OneVote, AcksInv, Completeness, VotesComplete, DeliveredInv, Anchored, TermsUpTo;
    forall p: NodeId, t: nat | (p, t) in h.clogs ensures t <= TermOf(h, p) {
      assert ClogInv(h, p, t);
    }
  }

  lemma CandidacyClogs(cluster: set<NodeId>, h: History, n: NodeId, v: NodeState)
    requires HistoryInv(cluster, h) && DiskInv(h, n, v) && LogInv(cluster, h, v) && n in cluster
    ensures ClogsInv(RecordCandidacy(h, v, n))
  {
    hide ReignsInv, BallotsInv, OneVote, AcksInv, Completeness, VotesComplete, DeliveredInv, Anchored, Grows;
    var h' := RecordCandidacy(h, v, n);
    CandidacyGrows(cluster, h, n, v);
    forall p: NodeId, t: nat | (p, t) in h'.clogs ensures ClogInv(h', p, t) {
      if (p, t) != (n, v.term + 1) {
        assert ClogInv(h, p, t);
        AnchoredGrows(h, h', h.clogs[(p, t)]);
      } else {
        AnchoredGrows(h, h', v.log);
      }
    }
  }

  lemma CandidacyBallots(cluster: set<NodeId>, h: History, n: NodeId, v: NodeState)
    requires HistoryInv(cluster, h) && DiskInv(h, n, v) && n in cluster
    ensures BallotsInv(cluster, RecordCandidacy(h, v, n)) && OneVote(RecordCandidacy(h, v, n))
  {
    hide ReignsInv, ClogsInv, AcksInv, Completeness, VotesComplete, DeliveredInv;
    var h' := RecordCandidacy(h, v, n);
    forall b | b in h.ballots ensures BallotInv(cluster, h', b) && !(b.voter == n && b.term == v.term + 1) {
      assert BallotInv(cluster, h, b);
    }
  }

  lemma CandidacyVotes(cluster: set<NodeId>, h: History, n: NodeId, v: NodeState)
    requires HistoryInv(cluster, h) && DiskInv(h, n, v) && NodeComplete(cluster, h, n, v) && n in cluster
    ensures VotesComplete(cluster, RecordCandidacy(h, v, n))
  {
    hide HistoryInv, Grows, Inherits;
    var h' := RecordCandidacy(h, v, n);
    CandidacyGrows(cluster, h, n, v);
    forall b, t: nat, i: nat | b in h'.ballots && t < b.term && HasEntry(h', t, i) && i <= Ack(h', b.voter, t)
      ensures VoteComplete(cluster, h', b, t, i)
    {
      if b in h.ballots {
        VoteStaysComplete(cluster, h, h', b, t, i);
      } else {
        assert HasEntry(h, t, i);
        InheritsGrows(cluster, h, h', v.log, v.log, t, i);
      }
    }
  }

  lemma CandidacyHistory(cluster: set<NodeId>, h: History, n: NodeId, v: NodeState)
    requires HistoryInv(cluster, h) && NodeInv(cluster, h, n, v) && n in cluster
    ensures HistoryInv(cluster, RecordCandidacy(h, v, n))
  {
    hide ReignsInv, BallotsInv, OneVote, ClogsInv, Completeness, VotesComplete, DeliveredInv, Grows;
    hide LogInv, CandidateInv, LeaderInv, HoldsAcked, NodeComplete;
    var h' := RecordCandidacy(h, v, n);
    CandidacyGrows(cluster, h, n, v);
    CandidacyClogs(cluster, h, n, v);
    CandidacyBallots(cluster, h, n, v);
    CandidacyVotes(cluster, h, n, v);
    AcksGrow(h, h');
    ReignsGrow(cluster, h, h');
    CompletenessGrows(cluster, h, h');
    HistoryParts(cluster, h, h');
  }

  lemma CandidateKeepsInv(cluster: set<NodeId>, h: History, n: NodeId, v: NodeState)
    requires HistoryInv(cluster, h) && NodeInv(cluster, h, n, v) && n in cluster
    ensures NodeInv(cluster, RecordCandidacy(h, v, n), n, StartElection(v, n, Peers(cluster, n)))
  {
    hide BallotsInv, OneVote, ClogsInv, Completeness, VotesComplete, DeliveredInv, Grows;
    hide Anchored, Certified, Inherits;
    var h' := RecordCandidacy(h, v, n);
    CandidacyGrows(cluster, h, n, v);
    AnchoredGrows(h, h', v.log);
    CompleteGrows(cluster, h, h', n, v);
    CertifiedGrows(cluster, h, h', v.log, v.log, v.commit, v.term, v.term + 1);
    forall t | t in h.reigns ensures t <= TermOf(h, h.reigns[t].leader) {
      assert ReignInv(cluster, h, t);
    }
  }

  lemma TimeoutStep(cluster: set<NodeId>, s: State, h: History, n: NodeId)
    requires Inv(cluster, s, h) && n in cluster && s.nodes[n].role != Leader
    ensures var v := s.nodes[n];
            var v' := StartElection(v, n, Peers(cluster, n));
            Inv(cluster, State(s.nodes[n := v'], s.net + VoteRequests(v', n, Peers(cluster, n))),
                RecordCandidacy(h, v, n))
    ensures Grows(h, RecordCandidacy(h, s.nodes[n], n))
  {
    hide HistoryInv, Grows, Anchored, TermsUpTo, Certified, CandidateInv, LeaderInv, HoldsAcked, NodeComplete;
    var v := s.nodes[n];
    assert NodeInv(cluster, h, n, v);
    var v' := StartElection(v, n, Peers(cluster, n));
    CandidacyGrows(cluster, h, n, v);
    CandidacyHistory(cluster, h, n, v);
    CandidateKeepsInv(cluster, h, n, v);
    StepKeepsInv(cluster, s, h, n, v', VoteRequests(v', n, Peers(cluster, n)), RecordCandidacy(h, v, n));
  }

  // ---- HandleRequestVote ----

  // A log at least as up to date as one that holds entry i of term t holds it too.
  lemma UpToDateInherits(cluster: set<NodeId>, h: History, mine: seq<Entry>, theirs: seq<Entry>, t: nat, i: nat)
    requires HistoryInv(cluster, h) && Anchored(h, mine) && Anchored(h, theirs)
    requires UpToDate(LastTerm(theirs), |theirs| - 1, mine)
    requires HasEntry(h, t, i) && Agree(mine, h.reigns[t].log, i + 1)
    ensures Inherits(cluster, h, theirs, t, i)
  {
    hide BallotsInv, OneVote, ClogsInv, AcksInv, VotesComplete, DeliveredInv, Blocked;
    var m, k := |mine| - 1, |theirs| - 1;
    assert ReignInv(cluster, h, t);
    assert AnchoredAt(h, mine, m);
    assert ReignInv(cluster, h, LastTerm(mine));
    assert LastTerm(mine) >= mine[i].term == t;
    assert AnchoredAt(h, theirs, k);
    var u := LastTerm(theirs);
    if u > t && !Blocked(cluster, h, t, i) {
      assert Inherits(cluster, h, h.reigns[u].log, t, i);
      if k <= i {
        assert false;
      }
    }
  }

  // The step gives a second vote in one term: the vote was cleared, although
  // the node had voted for somebody else in this very term.
  ghost predicate VotesTwice(h: History, v: NodeState, m: Message)
    requires m.RequestVote? && |v.log| > 0
  {
    && m.term == v.term && v.vote == None && UpToDate(m.lastTerm, m.lastIndex, v.log)
    && exists b | b in h.ballots :: b.voter == m.to && b.term == m.term && b.cand != m.from
  }

  // Exactly the requests that do not vote twice keep one vote per term.
  lemma OneVoteIff(cluster: set<NodeId>, h: History, v: NodeState, m: Message)
    requires m.RequestVote? && m.to in cluster
    requires HistoryInv(cluster, h) && NodeInv(cluster, h, m.to, v)
    ensures OneVote(RecordVote(h, v, HandleRequestVote(v, m.from, m.term, m.lastIndex, m.lastTerm), m))
            <==> !VotesTwice(h, v, m)
  {
    var h' := RecordVote(h, v, HandleRequestVote(v, m.from, m.term, m.lastIndex, m.lastTerm), m);
    forall b | b in h.ballots ensures BallotInv(cluster, h, b) {}
    if VotesTwice(h, v, m) {
      assert Ballot(m.to, m.term, m.from) in h'.ballots;
    }
  }

  function Granted(h: History, m: Message): History
    requires m.RequestVote?
  {
    h.(terms := h.terms[m.to := m.term], ballots := h.ballots + {Ballot(m.to, m.term, m.from)})
  }

  lemma GrantedGrows(cluster: set<NodeId>, h: History, v: NodeState, m: Message)
    requires m.RequestVote? && m.to in cluster && DiskInv(h, m.to, v) && m.term >= v.term
    ensures Grows(h, Granted(h, m))
    ensures forall p | p != m.to :: SameFor(h, Granted(h, m), p)
  {
  }

  lemma GrantedVotes(cluster: set<NodeId>, h: History, v: NodeState, m: Message)
    requires m.RequestVote? && m.to in cluster && |v.log| > 0
    requires HistoryInv(cluster, h) && NodeInv(cluster, h, m.to, v) && MessageInv(cluster, h, m)
    requires UpToDate(m.lastTerm, m.lastIndex, v.log) && m.term >= v.term
    ensures VotesComplete(cluster, Granted(h, m))
  {
    hide ReignsInv, BallotsInv, OneVote, AcksInv, Completeness, DeliveredInv, Grows, Inherits, Anchored;
    hide CandidateInv, LeaderInv, HoldsAcked;
    var h' := Granted(h, m);
    GrantedGrows(cluster, h, v, m);
    var clog := h.clogs[(m.from, m.term)];
    assert ClogInv(h, m.from, m.term);
    forall b, t: nat, i: nat | b in h'.ballots && t < b.term && HasEntry(h', t, i) && i <= Ack(h', b.voter, t)
      ensures VoteComplete(cluster, h', b, t, i)
    {
      if b in h.ballots {
        VoteStaysComplete(cluster, h, h', b, t, i);
      } else {
        assert HasEntry(h, t, i);
        VoterInherits(cluster, h, v.log, clog, t, i);
        InheritsGrows(cluster, h, h', clog, clog, t, i);
      }
    }
  }

  lemma VoterInherits(cluster: set<NodeId>, h: History, mine: seq<Entry>, theirs: seq<Entry>, t: nat, i: nat)
    requires HistoryInv(cluster, h) && Anchored(h, mine) && Anchored(h, theirs)
    requires UpToDate(LastTerm(theirs), |theirs| - 1, mine)
    requires HasEntry(h, t, i) && Inherits(cluster, h, mine, t, i)
    ensures Inherits(cluster, h, theirs, t, i)
  {
    hide HistoryInv, Anchored, Blocked, UpToDate;
    if !Blocked(cluster, h, t, i) {
      UpToDateInherits(cluster, h, mine, theirs, t, i);
    }
  }

  lemma GrantedHistory(cluster: set<NodeId>, h: History, v: NodeState, m: Message)
    requires m.RequestVote? && m.to in cluster
    requires HistoryInv(cluster, h) && NodeInv(cluster, h, m.to, v) && MessageInv(cluster, h, m)
    requires UpToDate(m.lastTerm, m.lastIndex, v.log) && m.term >= v.term
    requires OneVote(Granted(h, m))
    ensures HistoryInv(cluster, Granted(h, m))
  {
    hide ReignsInv, OneVote, ClogsInv, AcksInv, Completeness, VotesComplete, DeliveredInv, Grows;
    hide CandidateInv, LeaderInv, HoldsAcked, Anchored, TermsUpTo, Certified, NodeComplete, UpToDate;
    var h' := Granted(h, m);
    GrantedGrows(cluster, h, v, m);
    GrantedVotes(cluster, h, v, m);
    AcksGrow(h, h');
    ReignsGrow(cluster, h, h');
    ClogsGrow(h, h');
    CompletenessGrows(cluster, h, h');
    forall b | b in h'.ballots ensures BallotInv(cluster, h', b) {
      if b in h.ballots { assert BallotInv(cluster, h, b); }
    }
    HistoryParts(cluster, h, h');
  }

  lemma GrantStep(rule: VoteRule, cluster: set<NodeId>, s: State, h: History, m: Message)
    requires Inv(cluster, s, h) && m in s.net && m.RequestVote? && m.to in cluster && |s.nodes[m.to].log| > 0
    requires Grants(s.nodes[m.to], m.from, m.term, m.lastIndex, m.lastTerm) && !VotesTwice(h, s.nodes[m.to], m)
    ensures var v := s.nodes[m.to];
            var (v', out) := Handle(rule, cluster, v, m);
            Inv(cluster, State(s.nodes[m.to := v'], s.net + out), RecordVote(h, v, v', m)) && Grows(h, RecordVote(h, v, v', m))
  {
    hide HistoryInv, Grows, VotesTwice, OneVote;
    hide Anchored, TermsUpTo, Certified, CandidateInv, LeaderInv, HoldsAcked, NodeComplete, ArgsInv, ResultInv, UpToDate;
    var n, v := m.to, s.nodes[m.to];
    assert NodeInv(cluster, h, n, v) && MessageInv(cluster, h, m);
    var (v', out) := Handle(rule, cluster, v, m);
    var h' := Granted(h, m);
    assert h' == RecordVote(h, v, v', m);
    OneVoteIff(cluster, h, v, m);
    GrantedGrows(cluster, h, v, m);
    GrantedHistory(cluster, h, v, m);
    if m.term > v.term {
      FollowerKeepsInv(cluster, h, h', n, v, v');
    } else {
      VoterKeepsInv(cluster, h, h', n, v, v');
    }
    StepKeepsInv(cluster, s, h, n, v', out, h');
  }

  // A vote changes nothing but the ballot.
  lemma VoterKeepsInv(cluster: set<NodeId>, h: History, h': History, n: NodeId, v: NodeState, v': NodeState)
    requires HistoryInv(cluster, h) && NodeInv(cluster, h, n, v) && Grows(h, h') && SameFor(h, h', n)
    requires v' == Persist(v.(vote := v'.vote))
    requires v'.vote.Some? ==> Ballot(n, v'.term, v'.vote.value) in h'.ballots
    ensures NodeInv(cluster, h', n, v')
  {
    NodeGrows(cluster, h, h', n, v);
  }

  lemma RefuseStep(rule: VoteRule, cluster: set<NodeId>, s: State, h: History, m: Message)
    requires Inv(cluster, s, h) && m in s.net && m.RequestVote? && m.to in cluster && |s.nodes[m.to].log| > 0
    requires !Grants(s.nodes[m.to], m.from, m.term, m.lastIndex, m.lastTerm)
    ensures var v := s.nodes[m.to];
            var (v', out) := Handle(rule, cluster, v, m);
            Inv(cluster, State(s.nodes[m.to := v'], s.net + out), RecordVote(h, v, v', m)) && Grows(h, RecordVote(h, v, v', m))
  {
    hide HistoryInv, Grows;
    hide Anchored, TermsUpTo, Certified, CandidateInv, LeaderInv, HoldsAcked, NodeComplete, ArgsInv, ResultInv, UpToDate;
    var n, v := m.to, s.nodes[m.to];
    assert NodeInv(cluster, h, n, v) && MessageInv(cluster, h, m);
    var (v', out) := Handle(rule, cluster, v, m);
    var h' := WithTerm(h, n, v'.term);
    WithTermGrows(cluster, h, n, v'.term);
    if m.term > v.term {
      FollowerKeepsInv(cluster, h, h', n, v, v');
    } else {
      NodeGrows(cluster, h, h', n, v);
    }
    StepKeepsInv(cluster, s, h, n, v', out, h');
  }

  lemma RequestVoteStep(rule: VoteRule, cluster: set<NodeId>, s: State, h: History, m: Message)
    requires Inv(cluster, s, h) && m in s.net && m.RequestVote? && m.to in cluster && |s.nodes[m.to].log| > 0
    requires !VotesTwice(h, s.nodes[m.to], m)
    ensures var v := s.nodes[m.to];
            var (v', out) := Handle(rule, cluster, v, m);
            Inv(cluster, State(s.nodes[m.to := v'], s.net + out), RecordVote(h, v, v', m)) && Grows(h, RecordVote(h, v, v', m))
  {
    hide HistoryInv, NodeInv, MessageInv, Handle, RecordVote, VotesTwice, Grants;
    if Grants(s.nodes[m.to], m.from, m.term, m.lastIndex, m.lastTerm) {
      GrantStep(rule, cluster, s, h, m);
    } else {
      RefuseStep(rule, cluster, s, h, m);
    }
  }
}
