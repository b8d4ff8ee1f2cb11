/** The theorems, about real runs: nodes, messages and events only. They hold of
    every run in which no node votes twice in a term, which is every run under
    the documented vote rule (RaftRuns.RulesVoteOnce). */
module RaftSafety {
  import opened RaftTypes
  import opened RaftNode
  import opened RaftProtocol
  import opened RaftHistory
  import opened RaftInvariant
  import opened RaftGrowth
  import opened RaftAppend
  import opened RaftLeader
  import opened RaftRuns

  ghost predicate SafeRun(rule: VoteRule, cluster: set<NodeId>, run: seq<State>, events: seq<Event>)
  {
    IsRun(rule, cluster, run, events) && SingleVotes(rule, cluster, run, events)
  }

  // The invariant holds at k, for a history that has grown since j.
  lemma InvAt(rule: VoteRule, cluster: set<NodeId>, run: seq<State>, events: seq<Event>, j: nat, k: nat)
    requires SafeRun(rule, cluster, run, events) && j <= k <= |events|
    ensures Inv(cluster, run[k], HistoryAt(rule, cluster, run, events, k))
    ensures Grows(HistoryAt(rule, cluster, run, events, j), HistoryAt(rule, cluster, run, events, k))
    ensures run[k].nodes.Keys == cluster
  {
    hide OnceAt, IsStep, HistoryAt, Grows, HistoryInv, NodeInv, MessageInv;
    SingleVotesIff(rule, cluster, run, events);
    RunInv(rule, cluster, run, events, k);
    RunGrows(rule, cluster, run, events, j, k);
  }

  predicate Leads(s: State, n: NodeId, t: nat)
  {
    n in s.nodes && s.nodes[n].role == Leader && s.nodes[n].term == t
  }

  // Each term has at most one leader, at any two moments of the run.
  lemma ElectionSafety(rule: VoteRule, cluster: set<NodeId>, run: seq<State>, events: seq<Event>,
                       j: nat, k: nat, n: NodeId, m: NodeId, t: nat)
    requires SafeRun(rule, cluster, run, events) && j <= k <= |events|
    requires Leads(run[j], n, t) && Leads(run[k], m, t)
    ensures n == m
  {
    hide HistoryAt, SingleVotes, HistoryInv, MessageInv, LogInv, CandidateInv, HoldsAcked, NodeComplete;
    InvAt(rule, cluster, run, events, j, j);
    InvAt(rule, cluster, run, events, j, k);
    var h, h' := HistoryAt(rule, cluster, run, events, j), HistoryAt(rule, cluster, run, events, k);
    assert NodeInv(cluster, h, n, run[j].nodes[n]);
    assert NodeInv(cluster, h', m, run[k].nodes[m]);
  }

  // Two logs, of whatever nodes and moments, that hold the same term at the
  // same index are identical up to that index.
  lemma LogMatching(rule: VoteRule, cluster: set<NodeId>, run: seq<State>, events: seq<Event>,
                    j: nat, k: nat, n: NodeId, m: NodeId, i: nat)
    requires SafeRun(rule, cluster, run, events) && j <= k <= |events|
    requires n in run[j].nodes && m in run[k].nodes
    requires i < |run[j].nodes[n].log| && i < |run[k].nodes[m].log|
    requires run[j].nodes[n].log[i].term == run[k].nodes[m].log[i].term
    ensures run[j].nodes[n].log[..i + 1] == run[k].nodes[m].log[..i + 1]
  {
    hide HistoryAt, SingleVotes, HistoryInv, MessageInv, Certified, TermsUpTo, CandidateInv, LeaderInv, HoldsAcked, NodeComplete;
    hide Grows, Anchored;
    InvAt(rule, cluster, run, events, j, j);
    InvAt(rule, cluster, run, events, j, k);
    var h, h' := HistoryAt(rule, cluster, run, events, j), HistoryAt(rule, cluster, run, events, k);
    assert NodeInv(cluster, h, n, run[j].nodes[n]);
    assert NodeInv(cluster, h', m, run[k].nodes[m]);
    AnchoredGrows(h, h', run[j].nodes[n].log);
    Matching(h', run[j].nodes[n].log, run[k].nodes[m].log, i);
  }

  // What any node ever counted as committed is in the log of every leader of a
  // later term, at whatever moment that one led, even if its reign ended before
  // the count; and, from the count on, in the log of its own term's leader.
  lemma LeaderCompleteness(rule: VoteRule, cluster: set<NodeId>, run: seq<State>, events: seq<Event>,
                           j: nat, k: nat, n: NodeId, m: NodeId)
    requires SafeRun(rule, cluster, run, events) && j <= |events| && k <= |events|
    requires n in run[j].nodes && m in run[k].nodes && run[k].nodes[m].role == Leader
    requires run[k].nodes[m].term > run[j].nodes[n].term || (run[k].nodes[m].term == run[j].nodes[n].term && j <= k)
    ensures run[j].nodes[n].commit < |run[j].nodes[n].log|
    ensures Agree(run[j].nodes[n].log, run[k].nodes[m].log, run[j].nodes[n].commit + 1)
  {
    hide HistoryAt, SingleVotes, HistoryInv, MessageInv, NodeInv, Grows, Agree, IsStep;
    InvAt(rule, cluster, run, events, j, j);
    InvAt(rule, cluster, run, events, k, k);
    var h, h' := HistoryAt(rule, cluster, run, events, j), HistoryAt(rule, cluster, run, events, k);
    if j <= k {
      InvAt(rule, cluster, run, events, j, k);
      LeaderHasCommitted(cluster, h, h', n, run[j].nodes[n], m, run[k].nodes[m]);
    } else {
      InvAt(rule, cluster, run, events, k, j);
      LeaderHadCommitted(cluster, h', h, n, run[j].nodes[n], m, run[k].nodes[m]);
    }
  }

  // The leader w of the earlier history h has what v commits in the later h'.
  lemma LeaderHadCommitted(cluster: set<NodeId>, h: History, h': History, n: NodeId, v: NodeState, m: NodeId, w: NodeState)
    requires Grows(h, h') && HistoryInv(cluster, h) && NodeInv(cluster, h', n, v) && NodeInv(cluster, h, m, w)
    requires w.role == Leader && w.term > v.term
    ensures v.commit < |v.log| && Agree(v.log, w.log, v.commit + 1)
  {
    hide HistoryInv, Certified, TermsUpTo, CandidateInv, HoldsAcked, NodeComplete, Grows, Anchored, Agree;
    CertifiedLater(cluster, h, h', v.log, v.commit, v.term, w.term);
  }

  lemma LeaderHasCommitted(cluster: set<NodeId>, h: History, h': History, n: NodeId, v: NodeState, m: NodeId, w: NodeState)
    requires Grows(h, h') && HistoryInv(cluster, h') && NodeInv(cluster, h, n, v) && NodeInv(cluster, h', m, w)
    requires w.role == Leader && w.term >= v.term
    ensures v.commit < |v.log| && Agree(v.log, w.log, v.commit + 1)
  {
    hide HistoryInv, Certified, TermsUpTo, CandidateInv, HoldsAcked, NodeComplete, Grows, Anchored, Agree;
    AnchoredGrows(h, h', v.log);
    SelfAgree(v.log, v.commit + 1);
    CertifiedGrows(cluster, h, h', v.log, v.log, v.commit, v.term, v.term);
    CertifiedInherited(cluster, h', v.log, v.commit, v.term, w.term);
  }

  lemma SelfAgree(log: seq<Entry>, k: nat)
    requires k <= |log|
    ensures Agree(log, log, k)
  {
  }

  // ---- state machine safety ----

  lemma ChosenDeliverSame(cluster: set<NodeId>, h: History, d: (nat, Command), e: (nat, Command))
    requires HistoryInv(cluster, h) && DeliveredInv(cluster, h, d) && DeliveredInv(cluster, h, e) && d.0 == e.0
    ensures d.1 == e.1
  {
    hide HistoryInv;
    var t: nat, i: nat :| DeliveredBy(cluster, h, d, t, i);
    var u: nat, l: nat :| DeliveredBy(cluster, h, e, u, l);
    if t <= u {
      ChosenInherited(cluster, h, t, i, u);
    } else {
      ChosenInherited(cluster, h, u, l, t);
    }
  }

  lemma DeliveredRecorded(rule: VoteRule, cluster: set<NodeId>, run: seq<State>, events: seq<Event>, j: nat, k: nat)
    requires SafeRun(rule, cluster, run, events) && j < k <= |events|
    requires IsStep(rule, cluster, run[j], events[j], run[j + 1])
    requires Delivery(cluster, run[j], events[j]).Some?
    ensures DeliveredInv(cluster, HistoryAt(rule, cluster, run, events, k), Delivery(cluster, run[j], events[j]).value)
  {
    hide Grows, NodeInv, MessageInv, Delivery, DeliveredInv, SingleVotes, Record, Next, Enabled;
    hide ReignsInv, BallotsInv, OneVote, ClogsInv, AcksInv, Completeness, VotesComplete;
    InvAt(rule, cluster, run, events, j + 1, j + 1);
    InvAt(rule, cluster, run, events, j + 1, k);
    var d := Delivery(cluster, run[j], events[j]).value;
    DeliveryIsRecorded(rule, cluster, run[j], HistoryAt(rule, cluster, run, events, j), events[j]);
    DeliveredGrows(cluster, HistoryAt(rule, cluster, run, events, j + 1), HistoryAt(rule, cluster, run, events, k), d);
  }

  lemma DeliveryIsRecorded(rule: VoteRule, cluster: set<NodeId>, s: State, h: History, e: Event)
    requires WellFormed(cluster, s) && Enabled(cluster, s, e) && h.tally.Keys == cluster
    requires Delivery(cluster, s, e).Some?
    ensures Delivery(cluster, s, e).value in Record(rule, cluster, s, h, e).delivered
  {
    hide Turn;
  }

  // No two deliveries of the run, by whatever nodes, before or after a
  // restart, hand over different commands for the same log index.
  lemma StateMachineSafety(rule: VoteRule, cluster: set<NodeId>, run: seq<State>, events: seq<Event>, j: nat, k: nat)
    requires SafeRun(rule, cluster, run, events) && j <= k < |events|
    requires IsStep(rule, cluster, run[j], events[j], run[j + 1]) && IsStep(rule, cluster, run[k], events[k], run[k + 1])
    ensures var d, e := Delivery(cluster, run[j], events[j]), Delivery(cluster, run[k], events[k]);
            d.Some? && e.Some? && d.value.0 == e.value.0 ==> d.value.1 == e.value.1
  {
    hide SingleVotes, HistoryInv, NodeInv, MessageInv, Delivery, DeliveredInv, HistoryAt, Grows, Next, Enabled;
    var d, e := Delivery(cluster, run[j], events[j]), Delivery(cluster, run[k], events[k]);
    if d.Some? && e.Some? && d.value.0 == e.value.0 {
      DeliveredRecorded(rule, cluster, run, events, j, k + 1);
      DeliveredRecorded(rule, cluster, run, events, k, k + 1);
      InvAt(rule, cluster, run, events, k + 1, k + 1);
      ChosenDeliverSame(cluster, HistoryAt(rule, cluster, run, events, k + 1), d.value, e.value);
    }
  }

  // ---- one node over time ----

  // A leader's matchIndex is sound: the peer holds that much of the leader's
  // log for as long as it stays in the leader's term, whatever became of the
  // leader in the meantime.
  lemma MatchIsSound(rule: VoteRule, cluster: set<NodeId>, run: seq<State>, events: seq<Event>,
                     j: nat, k: nat, n: NodeId, p: NodeId)
    requires SafeRun(rule, cluster, run, events) && j <= k <= |events|
    requires n in run[j].nodes && p in run[k].nodes && p != n
    requires run[j].nodes[n].role == Leader && run[k].nodes[p].term == run[j].nodes[n].term
    ensures Agree(run[k].nodes[p].log, run[j].nodes[n].log, At(run[j].nodes[n].matched, p) + 1)
  {
    hide HistoryAt, SingleVotes, HistoryInv, MessageInv, NodeInv, Agree, IsStep, Grows;
    InvAt(rule, cluster, run, events, j, j);
    InvAt(rule, cluster, run, events, j, k);
    var h, h' := HistoryAt(rule, cluster, run, events, j), HistoryAt(rule, cluster, run, events, k);
    MatchHeld(cluster, h, h', n, run[j].nodes[n], p, run[k].nodes[p]);
  }

  lemma MatchHeld(cluster: set<NodeId>, h: History, h': History, n: NodeId, v: NodeState, p: NodeId, w: NodeState)
    requires HistoryInv(cluster, h) && Grows(h, h') && NodeInv(cluster, h, n, v) && NodeInv(cluster, h', p, w)
    requires v.role == Leader && w.term == v.term && p != n && p in cluster
    ensures Agree(w.log, v.log, At(v.matched, p) + 1)
  {
    hide ReignsInv, BallotsInv, OneVote, ClogsInv, Completeness, VotesComplete, DeliveredInv;
    hide Certified, TermsUpTo, CandidateInv, NodeComplete;
  }

  // What a reachable leader sends covers its commit index, so a follower never
  // commits past what it was sent.
  lemma SendsStayInside(rule: VoteRule, cluster: set<NodeId>, run: seq<State>, events: seq<Event>, k: nat, n: NodeId, p: NodeId)
    requires SafeRun(rule, cluster, run, events) && k <= |events| && n in run[k].nodes && p in Peers(cluster, n)
    requires run[k].nodes[n].role == Leader
    ensures CanSend(run[k].nodes[n], p)
    ensures var a := AppendFor(run[k].nodes[n], p);
            a.leaderCommit <= a.prevIndex + |a.entries| == |run[k].nodes[n].log| - 1
  {
    hide HistoryAt, SingleVotes, HistoryInv, MessageInv, Certified, TermsUpTo, CandidateInv, HoldsAcked, NodeComplete, Anchored;
    InvAt(rule, cluster, run, events, k, k);
    assert NodeInv(cluster, HistoryAt(rule, cluster, run, events, k), n, run[k].nodes[n]);
  }

  // A rejection that triggers a retry makes the leader probe strictly lower,
  // inside its log, and never by the decrement at the end of the handler.
  lemma RetryProbesLower(rule: VoteRule, cluster: set<NodeId>, run: seq<State>, events: seq<Event>, k: nat, m: Message)
    requires SafeRun(rule, cluster, run, events) && k <= |events| && m in run[k].net && m.AppendReply?
    requires m.to in run[k].nodes && Relevant(run[k].nodes[m.to], m.args, m.result) && !m.result.success
    ensures |run[k].nodes[m.to].log| > 0
    ensures var v := run[k].nodes[m.to];
            var v' := OnAppendReply(v, Peers(cluster, m.to), m.from, m.args, m.result);
            && CanSend(v', m.from) && AppendFor(v', m.from).prevIndex < m.args.prevIndex
            && (m.result.conflictTerm != 0 || m.result.conflictIndex > 0)
  {
    hide HistoryAt, SingleVotes, HistoryInv, ArgsInv, ResultInv, TermsUpTo, Certified, CandidateInv, LeaderInv, HoldsAcked, NodeComplete, BackedUp;
    InvAt(rule, cluster, run, events, k, k);
    var h := HistoryAt(rule, cluster, run, events, k);
    assert NodeInv(cluster, h, m.to, run[k].nodes[m.to]);
    assert MessageInv(cluster, h, m);
    BackupProgress(cluster, h, m.to, run[k].nodes[m.to], m.from, m.args, m.result);
  }

  // The node goes down at this event.
  predicate Stops(e: Event, n: NodeId)
  {
    e.n == n && (e.Crash? || e.CrashHandling?)
  }

  // Within one boot of a node, whatever happens to the others, its commit index
  // never falls, stays inside its log, and the entries below it never change.
  lemma {:induction false} CommitOnlyGrows(rule: VoteRule, cluster: set<NodeId>, run: seq<State>, events: seq<Event>,
                                           j: nat, k: nat, n: NodeId)
    requires SafeRun(rule, cluster, run, events) && j <= k <= |events| && n in cluster
    requires forall i | j <= i < k :: !Stops(events[i], n)
    ensures run[j].nodes.Keys == run[k].nodes.Keys == cluster
    ensures var v, v' := run[j].nodes[n], run[k].nodes[n];
            v.commit <= v'.commit < |v'.log| && Agree(v.log, v'.log, v.commit + 1)
    decreases k
  {
    hide HistoryAt, SingleVotes, HistoryInv, NodeInv, MessageInv, IsStep, Grows;
    InvAt(rule, cluster, run, events, j, k);
    InvAt(rule, cluster, run, events, j, j);
    CommitInside(cluster, HistoryAt(rule, cluster, run, events, k), n, run[k].nodes[n]);
    if j < k {
      CommitOnlyGrows(rule, cluster, run, events, j, k - 1, n);
      InvAt(rule, cluster, run, events, j, k - 1);
      assert IsStep(rule, cluster, run[k - 1], events[k - 1], run[k]);
      CommitKeptOnce(rule, cluster, run[k - 1], HistoryAt(rule, cluster, run, events, k - 1), events[k - 1], run[k], n);
    }
  }

  lemma CommitKeptOnce(rule: VoteRule, cluster: set<NodeId>, s: State, h: History, e: Event, s': State, n: NodeId)
    requires Inv(cluster, s, h) && IsStep(rule, cluster, s, e, s') && n in cluster && !Stops(e, n)
    ensures n in s'.nodes
    ensures s.nodes[n].commit <= s'.nodes[n].commit && Agree(s.nodes[n].log, s'.nodes[n].log, s.nodes[n].commit + 1)
  {
    hide HistoryInv, NodeInv, MessageInv, Turn;
    CommitInside(cluster, h, n, s.nodes[n]);
    if e.n == n {
      CommitStep(rule, cluster, s, h, e);
    }
  }

  lemma CommitInside(cluster: set<NodeId>, h: History, n: NodeId, v: NodeState)
    requires NodeInv(cluster, h, n, v)
    ensures v.commit < |v.log|
  {
    hide Anchored, TermsUpTo, Certified, CandidateInv, LeaderInv, HoldsAcked, NodeComplete;
  }

  lemma CommitStep(rule: VoteRule, cluster: set<NodeId>, s: State, h: History, e: Event)
    requires Inv(cluster, s, h) && WellFormed(cluster, s) && Enabled(cluster, s, e) && !e.Crash? && !e.CrashHandling?
    ensures var v, v' := s.nodes[e.n], Turn(rule, cluster, s, e).0;
            v.commit <= v'.commit && Agree(v.log, v'.log, v.commit + 1)
  {
    hide HistoryInv, Sends, VoteRequests, Handle, Peers, NodeInv, MessageInv, Agree;
    var v := s.nodes[e.n];
    CommitInside(cluster, h, e.n, v);
    SelfAgree(v.log, v.commit + 1);
    match e {
      case OnMessage(n, m) => CommitStepMessage(rule, cluster, h, v, m);
      case ClientCommand(n, c) => CommandAgrees(v, n, c);
      case _ =>
    }
  }

  lemma CommandAgrees(v: NodeState, n: NodeId, c: Command)
    requires v.commit < |v.log|
    ensures Agree(v.log, Propose(v, n, c).log, v.commit + 1)
  {
  }

  lemma CommitStepMessage(rule: VoteRule, cluster: set<NodeId>, h: History, v: NodeState, m: Message)
    requires HistoryInv(cluster, h) && NodeInv(cluster, h, m.to, v) && MessageInv(cluster, h, m)
    requires v.commit < |v.log|
    ensures var v' := Handle(rule, cluster, v, m).0;
            v.commit <= v'.commit && Agree(v.log, v'.log, v.commit + 1)
  {
    hide HistoryInv, NodeInv, ArgsInv, ResultInv, Grants, Sends, OnAppendReply, HandleAppendEntries, Agree;
    SelfAgree(v.log, v.commit + 1);
    match m
    case AppendEntries(from, to, a) => CommitStepAppend(rule, cluster, h, to, v, from, a);
    case AppendReply(from, to, a, r) => CommitStepReply(v, Peers(cluster, to), from, a, r);
    case _ =>
  }

  lemma CommitStepReply(v: NodeState, peers: set<NodeId>, p: NodeId, a: AppendArgs, r: AppendResult)
    requires |v.log| > 0
    ensures var v' := OnAppendReply(v, peers, p, a, r);
            v'.commit >= v.commit && v'.log == v.log
  {
    hide CommitFrom, BackedUp;
    var newMatch := a.prevIndex + |a.entries|;
    var m := if newMatch > At(v.matched, p) then newMatch else At(v.matched, p);
    CommitFromShape(v.(matched := v.matched[p := m], next := v.next[p := m + 1]), peers, |v.log| - 1);
  }

  lemma CommitStepAppend(rule: VoteRule, cluster: set<NodeId>, h: History, n: NodeId, v: NodeState, leader: NodeId, a: AppendArgs)
    requires HistoryInv(cluster, h) && NodeInv(cluster, h, n, v) && ArgsInv(cluster, h, leader, a)
    ensures var v' := HandleAppendEntries(v, rule, a).0;
            v.commit <= v'.commit && Agree(v.log, v'.log, v.commit + 1)
  {
    hide HistoryInv, Certified, Anchored, TermsUpTo, CandidateInv, LeaderInv, HoldsAcked, NodeComplete, Rejection;
    if a.term >= v.term && Consistent(v.log, a) {
      CommitKept(cluster, h, n, v, leader, a);
    }
  }

  // A follower that accepts an AppendEntries of a safe run knows from then on
  // whatever its leader knew to be committed.
  lemma CommitLearned(rule: VoteRule, cluster: set<NodeId>, run: seq<State>, events: seq<Event>, k: nat)
    requires SafeRun(rule, cluster, run, events) && k < |events| && IsStep(rule, cluster, run[k], events[k], run[k + 1])
    requires events[k].OnMessage? && events[k].m.AppendEntries?
    requires var v, a := run[k].nodes[events[k].n], events[k].m.args;
             a.term >= v.term && a.prevIndex < |v.log| && v.log[a.prevIndex].term == a.prevTerm
    ensures var v, v', a := run[k].nodes[events[k].n], run[k + 1].nodes[events[k].n], events[k].m.args;
            v'.commit == if a.leaderCommit > v.commit then a.leaderCommit else v.commit
  {
    hide HistoryAt, SingleVotes, HistoryInv, NodeInv, Certified, Grows, Merge;
    InvAt(rule, cluster, run, events, k, k);
    assert MessageInv(cluster, HistoryAt(rule, cluster, run, events, k), events[k].m);
  }
}
