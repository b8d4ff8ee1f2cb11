/** The history only grows, and what the invariant says of old nodes and
    messages survives its growth. */
module RaftGrowth {
  import opened RaftTypes
  import opened RaftHistory
  import opened RaftInvariant

  // ---- majorities ----

  lemma SubsetSize<T>(a: set<T>, b: set<T>)
    requires a <= b
    ensures |a| <= |b|
  {
    assert b == a + (b - a);
  }

  lemma MajorityOfSuperset(cluster: set<NodeId>, a: set<NodeId>, b: set<NodeId>)
    requires Majority(cluster, a) && a <= b <= cluster
    ensures Majority(cluster, b)
  {
    SubsetSize(a, b);
  }

  // Any two majorities share a node, whichever way the code counts them.
  lemma MajoritiesMeet(cluster: set<NodeId>, a: set<NodeId>, b: set<NodeId>) returns (n: NodeId)
    requires Majority(cluster, a) && Majority(cluster, b)
    ensures n in a && n in b
  {
    if a * b == {} {
      SubsetSize(a + b, cluster);
      assert false;
    }
    n :| n in a * b;
  }

  lemma ChosenNotBlocked(cluster: set<NodeId>, h: History, t: nat, i: nat)
    requires Chosen(cluster, h, t, i)
    ensures !Blocked(cluster, h, t, i)
  {
    if Blocked(cluster, h, t, i) {
      var n := MajoritiesMeet(cluster, Acked(cluster, h, t, i), Deaf(cluster, h, t, i));
    }
  }

  // ---- growth ----

  ghost predicate ReignGrows(r: Reign, r': Reign)
  {
    r.leader == r'.leader && r.voters == r'.voters && |r.log| <= |r'.log| && Agree(r.log, r'.log, |r.log|)
  }

  ghost predicate Grows(h: History, h': History)
  {
    && (forall n :: TermOf(h, n) <= TermOf(h', n))
    && h.ballots <= h'.ballots
    && (forall n: NodeId, t: nat | (n, t) in h.clogs :: (n, t) in h'.clogs && h'.clogs[(n, t)] == h.clogs[(n, t)])
    && (forall t | t in h.reigns :: t in h'.reigns && ReignGrows(h.reigns[t], h'.reigns[t]))
    && (forall n: NodeId, t: nat :: Ack(h, n, t) <= Ack(h', n, t))
    && (forall n: NodeId, t: nat | t < TermOf(h, n) :: Ack(h', n, t) == Ack(h, n, t))
  }

  lemma GrowsAgain(h: History, h1: History, h2: History)
    requires Grows(h, h1) && Grows(h1, h2)
    ensures Grows(h, h2)
  {
    forall t | t in h.reigns ensures t in h2.reigns && ReignGrows(h.reigns[t], h2.reigns[t]) {
      assert ReignGrows(h.reigns[t], h1.reigns[t]) && ReignGrows(h1.reigns[t], h2.reigns[t]);
    }
  }

  lemma GrowsSelf(h: History)
    ensures Grows(h, h)
  {
  }

  lemma AnchoredGrows(h: History, h': History, log: seq<Entry>)
    requires Grows(h, h') && Anchored(h, log)
    ensures Anchored(h', log)
  {
    forall i | 1 <= i < |log| ensures AnchoredAt(h', log, i) {
      assert AnchoredAt(h, log, i);
    }
  }

  lemma BlockedGrows(cluster: set<NodeId>, h: History, h': History, t: nat, i: nat)
    requires Grows(h, h') && Blocked(cluster, h, t, i)
    ensures Blocked(cluster, h', t, i)
  {
    MajorityOfSuperset(cluster, Deaf(cluster, h, t, i), Deaf(cluster, h', t, i));
  }

  lemma ChosenGrows(cluster: set<NodeId>, h: History, h': History, t: nat, i: nat)
    requires Grows(h, h') && Chosen(cluster, h, t, i)
    ensures Chosen(cluster, h', t, i)
  {
    forall n | n in Acked(cluster, h, t, i) ensures n in Acked(cluster, h', t, i) {}
    MajorityOfSuperset(cluster, Acked(cluster, h, t, i), Acked(cluster, h', t, i));
  }

  lemma InheritsGrows(cluster: set<NodeId>, h: History, h': History, log: seq<Entry>, log': seq<Entry>, t: nat, i: nat)
    requires Grows(h, h') && t in h.reigns && i < |h.reigns[t].log|
    requires Inherits(cluster, h, log, t, i) && Agree(log, log', |log|)
    ensures Inherits(cluster, h', log', t, i)
  {
    if Blocked(cluster, h, t, i) {
      BlockedGrows(cluster, h, h', t, i);
    }
  }

  lemma CertifiedGrows(cluster: set<NodeId>, h: History, h': History, log: seq<Entry>, log': seq<Entry>,
                       k: nat, bound: nat, bound': nat)
    requires Grows(h, h') && Certified(cluster, h, log, k, bound) && bound <= bound'
    requires k == 0 || Agree(log, log', k + 1)
    ensures Certified(cluster, h', log', k, bound')
  {
    if k > 0 {
      var t: nat, i: nat :| Certifies(cluster, h, log, k, bound, t, i);
      ChosenGrows(cluster, h, h', t, i);
      assert Certifies(cluster, h', log', k, bound', t, i);
    }
  }

  lemma ArgsGrow(cluster: set<NodeId>, h: History, h': History, leader: NodeId, a: AppendArgs)
    requires Grows(h, h') && ArgsInv(cluster, h, leader, a)
    ensures ArgsInv(cluster, h', leader, a)
  {
    CertifiedGrows(cluster, h, h', h.reigns[a.term].log, h'.reigns[a.term].log, a.leaderCommit, a.term, a.term);
  }

  lemma MessageGrows(cluster: set<NodeId>, h: History, h': History, m: Message)
    requires Grows(h, h') && MessageInv(cluster, h, m)
    ensures MessageInv(cluster, h', m)
  {
    match m
    case RequestVote(_, _, _, _, _) =>
    case VoteReply(_, _, _, _, _) =>
    case AppendEntries(from, _, a) => ArgsGrow(cluster, h, h', from, a);
    case AppendReply(from, to, a, r) => ArgsGrow(cluster, h, h', to, a);
  }

  // The history says the same of this node as before.
  ghost predicate SameFor(h: History, h': History, n: NodeId)
  {
    && TermOf(h', n) == TermOf(h, n)
    && (forall t: nat :: Ack(h', n, t) == Ack(h, n, t))
    && (n in h.tally ==> n in h'.tally && h'.tally[n] == h.tally[n])
    && (forall t | t in h.reigns && h.reigns[t].leader == n :: t in h'.reigns && h'.reigns[t].log == h.reigns[t].log)
    && (forall t | t in h'.reigns && t !in h.reigns :: h'.reigns[t].leader != n)
  }

  // New entries of a term lie above everything acknowledged in it.
  lemma CompleteGrows(cluster: set<NodeId>, h: History, h': History, n: NodeId, v: NodeState)
    requires Grows(h, h') && AcksInv(h) && NodeComplete(cluster, h, n, v)
    requires forall t: nat :: Ack(h', n, t) == Ack(h, n, t)
    ensures NodeComplete(cluster, h', n, v)
  {
    forall t: nat, i: nat | HasEntry(h', t, i) && i <= Ack(h', n, t)
      ensures Inherits(cluster, h', v.log, t, i)
    {
      assert HasEntry(h, t, i);
      InheritsGrows(cluster, h, h', v.log, v.log, t, i);
    }
  }

  lemma NodeGrows(cluster: set<NodeId>, h: History, h': History, n: NodeId, v: NodeState)
    requires HistoryInv(cluster, h) && Grows(h, h') && SameFor(h, h', n) && NodeInv(cluster, h, n, v)
    ensures NodeInv(cluster, h', n, v)
  {
    hide ReignsInv, BallotsInv, OneVote, ClogsInv, AcksInv, Completeness, VotesComplete, DeliveredInv;
    hide Anchored, TermsUpTo, Certified, NodeComplete, CandidateInv, LeaderInv, HoldsAcked;
    AnchoredGrows(h, h', v.log);
    CertifiedGrows(cluster, h, h', v.log, v.log, v.commit, v.term, v.term);
    CompleteGrows(cluster, h, h', n, v);
    RolesGrow(cluster, h, h', n, v);
  }

  lemma RolesGrow(cluster: set<NodeId>, h: History, h': History, n: NodeId, v: NodeState)
    requires Grows(h, h') && SameFor(h, h', n)
    requires CandidateInv(cluster, h, n, v) && LeaderInv(cluster, h, n, v) && HoldsAcked(h, n, v)
    ensures CandidateInv(cluster, h', n, v) && LeaderInv(cluster, h', n, v) && HoldsAcked(h', n, v)
  {
  }

  // ---- the history's own invariants ----

  lemma ReignsGrow(cluster: set<NodeId>, h: History, h': History)
    requires Grows(h, h') && ReignsInv(cluster, h)
    requires h'.reigns == h.reigns
    ensures ReignsInv(cluster, h')
  {
    forall t | t in h'.reigns ensures ReignInv(cluster, h', t) {
      assert ReignInv(cluster, h, t);
      AnchoredGrows(h, h', h.reigns[t].log);
    }
  }

  lemma BallotsGrow(cluster: set<NodeId>, h: History, h': History)
    requires Grows(h, h') && BallotsInv(cluster, h) && h'.ballots == h.ballots
    ensures BallotsInv(cluster, h')
  {
    forall b | b in h'.ballots ensures BallotInv(cluster, h', b) {
      assert BallotInv(cluster, h, b);
    }
  }

  lemma AcksGrow(h: History, h': History)
    requires Grows(h, h') && AcksInv(h) && h'.acks == h.acks
    ensures AcksInv(h')
  {
  }

  lemma ClogsGrow(h: History, h': History)
    requires Grows(h, h') && ClogsInv(h) && h'.clogs == h.clogs
    ensures ClogsInv(h')
  {
    forall n: NodeId, t: nat | (n, t) in h'.clogs ensures ClogInv(h', n, t) {
      assert ClogInv(h, n, t);
      AnchoredGrows(h, h', h.clogs[(n, t)]);
    }
  }

  // An entry the leader of term t writes after a later leader was elected is
  // lost: those who elected the later one had left term t without it.
  lemma NewEntryBlocked(cluster: set<NodeId>, h: History, h': History, t: nat, u: nat, i: nat)
    requires HistoryInv(cluster, h) && Grows(h, h')
    requires 1 <= i && (t in h.reigns ==> |h.reigns[t].log| <= i)
    requires u in h.reigns && t < u
    ensures Blocked(cluster, h', t, i)
  {
    assert ReignInv(cluster, h, u);
    var voters := h.reigns[u].voters;
    forall n | n in voters ensures n in Deaf(cluster, h', t, i) {
      assert BallotInv(cluster, h, Ballot(n, u, h.reigns[u].leader));
    }
    MajorityOfSuperset(cluster, voters, Deaf(cluster, h', t, i));
  }

  lemma CompletenessGrows(cluster: set<NodeId>, h: History, h': History)
    requires HistoryInv(cluster, h) && Grows(h, h') && h'.reigns.Keys == h.reigns.Keys
    ensures Completeness(cluster, h')
  {
    forall t: nat, u: nat, i: nat | t < u && u in h'.reigns && HasEntry(h', t, i)
      ensures Inherits(cluster, h', h'.reigns[u].log, t, i)
    {
      if i < |h.reigns[t].log| {
        assert HasEntry(h, t, i);
        InheritsGrows(cluster, h, h', h.reigns[u].log, h'.reigns[u].log, t, i);
      } else {
        NewEntryBlocked(cluster, h, h', t, u, i);
      }
    }
  }

  lemma VoteStaysComplete(cluster: set<NodeId>, h: History, h': History, b: Ballot, t: nat, i: nat)
    requires HistoryInv(cluster, h) && Grows(h, h') && b in h.ballots
    requires t < b.term && HasEntry(h', t, i) && 1 <= i <= Ack(h', b.voter, t)
    ensures VoteComplete(cluster, h', b, t, i)
  {
    assert BallotInv(cluster, h, b);
    assert HasEntry(h, t, i);
    assert VoteComplete(cluster, h, b, t, i);
    InheritsGrows(cluster, h, h', h.clogs[(b.cand, b.term)], h.clogs[(b.cand, b.term)], t, i);
  }

  lemma VotesCompleteGrows(cluster: set<NodeId>, h: History, h': History)
    requires HistoryInv(cluster, h) && Grows(h, h') && h'.ballots == h.ballots
    ensures VotesComplete(cluster, h')
  {
    forall b, t: nat, i: nat | b in h'.ballots && t < b.term && HasEntry(h', t, i) && i <= Ack(h', b.voter, t)
      ensures VoteComplete(cluster, h', b, t, i)
    {
      VoteStaysComplete(cluster, h, h', b, t, i);
    }
  }

  lemma DeliveredGrows(cluster: set<NodeId>, h: History, h': History, d: (nat, Command))
    requires Grows(h, h') && DeliveredInv(cluster, h, d)
    ensures DeliveredInv(cluster, h', d)
  {
    var t: nat, i: nat :| DeliveredBy(cluster, h, d, t, i);
    ChosenGrows(cluster, h, h', t, i);
    assert DeliveredBy(cluster, h', d, t, i);
  }

  // ---- consequences used by every step ----

  // What an earlier term chose, a leader of the same or a later term has.
  lemma ChosenInherited(cluster: set<NodeId>, h: History, t: nat, i: nat, u: nat)
    requires HistoryInv(cluster, h) && Chosen(cluster, h, t, i) && t <= u && u in h.reigns
    ensures Agree(h.reigns[u].log, h.reigns[t].log, i + 1)
  {
    ChosenNotBlocked(cluster, h, t, i);
    if t < u {
      assert Inherits(cluster, h, h.reigns[u].log, t, i);
    }
  }

  // The same of a leader whose reign was over before the entry was chosen.
  lemma ChosenLater(cluster: set<NodeId>, h: History, h': History, t: nat, i: nat, u: nat)
    requires HistoryInv(cluster, h) && Grows(h, h') && Chosen(cluster, h', t, i) && t < u && u in h.reigns
    ensures Agree(h.reigns[u].log, h'.reigns[t].log, i + 1)
  {
    ChosenNotBlocked(cluster, h', t, i);
    if t in h.reigns && i < |h.reigns[t].log| {
      assert HasEntry(h, t, i);
      assert Inherits(cluster, h, h.reigns[u].log, t, i);
      if Blocked(cluster, h, t, i) {
        BlockedGrows(cluster, h, h', t, i);
      }
    } else {
      NewEntryBlocked(cluster, h, h', t, u, i);
    }
  }

  lemma CertifiedLater(cluster: set<NodeId>, h: History, h': History, log: seq<Entry>, k: nat, bound: nat, u: nat)
    requires HistoryInv(cluster, h) && Grows(h, h') && Certified(cluster, h', log, k, bound) && bound < u && u in h.reigns
    requires Anchored(h', log)
    ensures Agree(log, h.reigns[u].log, k + 1)
  {
    hide BallotsInv, OneVote, ClogsInv, AcksInv, Completeness, VotesComplete, DeliveredInv, Chosen;
    assert ReignInv(cluster, h, u);
    if k > 0 {
      var t: nat, i: nat :| Certifies(cluster, h', log, k, bound, t, i);
      ChosenLater(cluster, h, h', t, i, u);
    }
  }

  lemma CertifiedInherited(cluster: set<NodeId>, h: History, log: seq<Entry>, k: nat, bound: nat, u: nat)
    requires HistoryInv(cluster, h) && Certified(cluster, h, log, k, bound) && bound <= u && u in h.reigns
    requires Anchored(h, log)
    ensures Agree(log, h.reigns[u].log, k + 1)
  {
    assert ReignInv(cluster, h, u);
    if k > 0 {
      var t: nat, i: nat :| Certifies(cluster, h, log, k, bound, t, i);
      ChosenInherited(cluster, h, t, i, u);
    }
  }
}
