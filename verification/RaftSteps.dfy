/** Every step keeps the invariant, as long as it gives nobody a second vote. */
module RaftSteps {
  import opened Options
  import opened RaftTypes
  import opened RaftNode
  import opened RaftProtocol
  import opened RaftHistory
  import opened RaftInvariant
  import opened RaftGrowth
  import opened RaftVoting
  import opened RaftElection
  import opened RaftAppend
  import opened RaftLeader

  // ---- start ----

  lemma InitInv(cluster: set<NodeId>)
    ensures Inv(cluster, Init(cluster), Start(cluster))
  {
  }

  // ---- crashes ----

  lemma CrashStep(cluster: set<NodeId>, s: State, h: History, n: NodeId)
    requires Inv(cluster, s, h) && n in cluster
    ensures Inv(cluster, State(s.nodes[n := Restart(s.nodes[n].disk)], s.net), h)
  {
    hide HistoryInv, MessageInv, TermsUpTo, Certified, CandidateInv, LeaderInv, HoldsAcked, NodeComplete, Grows;
    var v := s.nodes[n];
    assert NodeInv(cluster, h, n, v);
    StandDown(cluster, s, h, n, Restart(v.disk), v.term);
    SameTerms(cluster, s, h, n);
    assert WithTerm(h, n, v.term) == h;
  }

  // The first persist of a handler reached the disk, nothing else did.
  lemma CrashHandlingStep(rule: VoteRule, cluster: set<NodeId>, s: State, h: History, n: NodeId, m: Message)
    requires Inv(cluster, s, h) && n in cluster && m.to == n
    requires (m.RequestVote? && m.term > s.nodes[n].term) || (m.AppendEntries? && m.args.term >= s.nodes[n].term)
    ensures var d := if m.RequestVote? then FaceRequest(s.nodes[n], m.term).disk
                     else AcceptTerm(s.nodes[n], rule, m.args.term).disk;
            && Inv(cluster, State(s.nodes[n := Restart(d)], s.net), WithTerm(h, n, d.term))
            && Grows(h, WithTerm(h, n, d.term))
  {
    hide HistoryInv, MessageInv, TermsUpTo, Certified, CandidateInv, LeaderInv, HoldsAcked, NodeComplete, Grows;
    var v := s.nodes[n];
    assert NodeInv(cluster, h, n, v);
    var d := if m.RequestVote? then FaceRequest(v, m.term).disk else AcceptTerm(v, rule, m.args.term).disk;
    StandDown(cluster, s, h, n, Restart(d), d.term);
  }

  // `heard` is not part of the invariant.
  lemma HeardIsFree(cluster: set<NodeId>, s: State, h: History, heard: set<(NodeId, nat)>)
    requires Inv(cluster, s, h)
    ensures Inv(cluster, s, h.(heard := heard)) && Grows(h, h.(heard := heard))
  {
    hide Blocked, Certified, Anchored, TermsUpTo, DeliveredInv, NodeInv, MessageInv, HistoryInv;
    var h' := h.(heard := heard);
    assert Grows(h, h');
    HeardHistory(cluster, h, heard);
    forall n | n in cluster ensures NodeInv(cluster, h', n, s.nodes[n]) {
      NodeGrows(cluster, h, h', n, s.nodes[n]);
    }
    forall m | m in s.net ensures MessageInv(cluster, h', m) {
      MessageGrows(cluster, h, h', m);
    }
  }

  lemma HeardHistory(cluster: set<NodeId>, h: History, heard: set<(NodeId, nat)>)
    requires HistoryInv(cluster, h)
    ensures HistoryInv(cluster, h.(heard := heard))
  {
    hide ReignsInv, BallotsInv, OneVote, ClogsInv, Completeness, VotesComplete, DeliveredInv;
    HistoryStays(cluster, h, h.(heard := heard));
  }

  // ---- delivery ----

  function Delivered(h: History, d: Option<(nat, Command)>): History
  {
    if d == None then h else h.(delivered := h.delivered + {d.value})
  }

  lemma DeliverHistory(cluster: set<NodeId>, h: History, d: (nat, Command))
    requires HistoryInv(cluster, h) && DeliveredInv(cluster, h, d)
    ensures HistoryInv(cluster, h.(delivered := h.delivered + {d})) && Grows(h, h.(delivered := h.delivered + {d}))
  {
    hide DeliveredInv;
    var h' := h.(delivered := h.delivered + {d});
    var h1 := h'.(delivered := h.delivered);
    assert h1 == h;
    assert Grows(h, h');
    ReignsGrow(cluster, h, h');
    ClogsGrow(h, h');
    BallotsGrow(cluster, h, h');
    AcksGrow(h, h');
    CompletenessGrows(cluster, h, h');
    VotesCompleteGrows(cluster, h, h');
    forall x | x in h'.delivered ensures DeliveredInv(cluster, h', x) {
      DeliveredGrows(cluster, h, h', x);
    }
  }

  lemma AppliedRoles(cluster: set<NodeId>, h: History, n: NodeId, v: NodeState)
    requires v.applied < v.commit < |v.log|
    requires CandidateInv(cluster, h, n, v) && LeaderInv(cluster, h, n, v) && HoldsAcked(h, n, v) && NodeComplete(cluster, h, n, v)
    ensures var v' := Apply(v);
            CandidateInv(cluster, h, n, v') && LeaderInv(cluster, h, n, v') && HoldsAcked(h, n, v') && NodeComplete(cluster, h, n, v')
  {
    hide Inherits, HasEntry;
  }

  lemma DeliverStep(cluster: set<NodeId>, s: State, h: History, n: NodeId)
    requires Inv(cluster, s, h) && WellFormed(cluster, s) && Enabled(cluster, s, Deliver(n))
    ensures var h' := Delivered(h, Delivery(cluster, s, Deliver(n)));
            Inv(cluster, State(s.nodes[n := Apply(s.nodes[n])], s.net), h') && Grows(h, h')
  {
    hide HistoryInv, MessageInv, Anchored, TermsUpTo, Chosen, Inherits, Grows;
    hide CandidateInv, LeaderInv, HoldsAcked, NodeComplete;
    var v := s.nodes[n];
    assert NodeInv(cluster, h, n, v);
    AppliedRoles(cluster, h, n, v);
    assert NodeInv(cluster, h, n, Apply(v));
    var s' := State(s.nodes[n := Apply(v)], s.net);
    SameNode(cluster, s, h, n, Apply(v), {});
    assert s.net + {} == s.net;
    GrowsSelf(h);
    var d := Delivery(cluster, s, Deliver(n));
    if d != None {
      var t: nat, i: nat :| Certifies(cluster, h, v.log, v.commit, v.term, t, i);
      assert DeliveredBy(cluster, h, d.value, t, i);
      DeliverHistory(cluster, h, d.value);
      DeliveredFrame(cluster, s', h, d.value);
    }
  }

  lemma DeliveredFrame(cluster: set<NodeId>, s: State, h: History, d: (nat, Command))
    requires Inv(cluster, s, h) && HistoryInv(cluster, h.(delivered := h.delivered + {d}))
    requires Grows(h, h.(delivered := h.delivered + {d}))
    ensures Inv(cluster, s, h.(delivered := h.delivered + {d}))
  {
    hide NodeInv, MessageInv, HistoryInv, Grows;
    var h' := h.(delivered := h.delivered + {d});
    forall n | n in cluster ensures NodeInv(cluster, h', n, s.nodes[n]) {
      NodeGrows(cluster, h, h', n, s.nodes[n]);
    }
    forall m | m in s.net ensures MessageInv(cluster, h', m) {
      MessageGrows(cluster, h, h', m);
    }
  }

  // ---- all of them ----

  ghost predicate VotesOnce(cluster: set<NodeId>, s: State, h: History, e: Event)
    requires WellFormed(cluster, s) && Enabled(cluster, s, e)
  {
    e.OnMessage? && e.m.RequestVote? ==> !VotesTwice(h, s.nodes[e.n], e.m)
  }

  lemma InvWellFormed(cluster: set<NodeId>, s: State, h: History)
    requires Inv(cluster, s, h)
    ensures WellFormed(cluster, s) && h.tally.Keys == cluster
  {
    forall n | n in cluster ensures |s.nodes[n].log| > 0 {
      SameTerms(cluster, s, h, n);
    }
  }

  lemma EveryStepKeepsInv(rule: VoteRule, cluster: set<NodeId>, s: State, h: History, e: Event)
    requires Inv(cluster, s, h) && WellFormed(cluster, s) && h.tally.Keys == cluster
    requires Enabled(cluster, s, e) && VotesOnce(cluster, s, h, e)
    ensures Inv(cluster, Next(rule, cluster, s, e), Record(rule, cluster, s, h, e))
    ensures Grows(h, Record(rule, cluster, s, h, e))
  {
    hide Inv, Grows, Sends, VoteRequests, Handle, RecordVote, RecordCount, RecordAppend, RecordCommand, VotesTwice;
    assert s.net + {} == s.net;
    GrowsSelf(h);
    match e {
      case Timeout(n) => TimeoutStep(cluster, s, h, n);
      case OnMessage(_, m) =>
        match m {
          case RequestVote(_, _, _, _, _) => RequestVoteStep(rule, cluster, s, h, m);
          case VoteReply(_, _, _, _, _) => VoteReplyStep(rule, cluster, s, h, m);
          case AppendEntries(_, _, _) => AppendEntriesStep(rule, cluster, s, h, m);
          case AppendReply(_, _, _, _) => AppendReplyStep(rule, cluster, s, h, m);
        }
      case Heartbeat(n) => HeartbeatStep(cluster, s, h, n);
      case ClientCommand(n, c) => CommandStep(cluster, s, h, n, c);
      case Deliver(n) => DeliverStep(cluster, s, h, n);
      case Crash(n) => CrashStep(cluster, s, h, n);
      case CrashHandling(n, m) =>
        CrashHandlingStep(rule, cluster, s, h, n, m);
        if m.AppendEntries? {
          var s', h' := Next(rule, cluster, s, e), Record(rule, cluster, s, h, e);
          var h1 := WithTerm(h, n, s'.nodes[n].term);
          HeardIsFree(cluster, s', h1, h'.heard);
          GrowsAgain(h, h1, h');
        }
    }
  }
}
