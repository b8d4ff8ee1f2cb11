/** Log indices in every run under either vote rule: a leader's next index never
    leaves its log, and a rejection always tells it where to go on. */
module RaftIndices {
  import opened RaftTypes
  import opened RaftNode
  import opened RaftProtocol
  import opened RaftAppend
  import opened RaftLeader
  import opened RaftRuns
  import opened RaftEveryRun

  // ---- the invariant ----

  ghost predicate NextInv(cluster: set<NodeId>, n: NodeId, v: NodeState)
  {
    && |v.log| > 0 && v.log[0].term == 0
    && (v.role == Leader ==>
          forall p | p in Peers(cluster, n) :: 1 <= At(v.next, p) <= |v.log| && At(v.matched, p) < |v.log|)
  }

  // Sent by a leader of its term, inside its log if it still leads that term.
  ghost predicate ArgsInside(v: NodeState, a: AppendArgs)
  {
    && (a.prevIndex == 0 ==> a.prevTerm == 0)
    && a.term <= v.term
    && (a.term == v.term ==> v.role != Candidate && (v.role == Leader ==> a.prevIndex + |a.entries| < |v.log|))
  }

  ghost predicate HintInside(a: AppendArgs, r: AppendResult)
  {
    r.success || r.term > a.term || 1 <= r.conflictIndex <= a.prevIndex
  }

  ghost predicate MessageInside(s: State, m: Message)
  {
    match m
    case AppendEntries(from, _, a) => from in s.nodes && ArgsInside(s.nodes[from], a)
    case AppendReply(_, to, a, r) => to in s.nodes && ArgsInside(s.nodes[to], a) && HintInside(a, r)
    case _ => true
  }

  ghost predicate InsideInv(cluster: set<NodeId>, s: State)
  {
    && s.nodes.Keys == cluster
    && (forall n | n in cluster :: NextInv(cluster, n, s.nodes[n]))
    && (forall m | m in s.net :: MessageInside(s, m))
  }

  // ---- a node's turn ----

  // A node leads a term once, and its log only grows meanwhile.
  ghost predicate Steady(v: NodeState, v': NodeState)
  {
    && v'.term >= v.term
    && (v'.term == v.term ==>
          && (v'.role == Candidate ==> v.role == Candidate)
          && (v'.role == Leader ==> v.role == Candidate || (v.role == Leader && |v.log| <= |v'.log|)))
  }

  lemma AppendSteady(rule: VoteRule, v: NodeState, a: AppendArgs)
    ensures Steady(v, HandleAppendEntries(v, rule, a).0)
  {
    hide Merge, Rejection, CommitAfter;
  }

  lemma ReplySteady(v: NodeState, peers: set<NodeId>, p: NodeId, a: AppendArgs, r: AppendResult)
    requires |v.log| > 0
    ensures Steady(v, OnAppendReply(v, peers, p, a, r))
  {
    hide CommitFrom, BackedUp;
  }

  lemma TurnSteady(rule: VoteRule, cluster: set<NodeId>, s: State, e: Event)
    requires WellFormed(cluster, s) && Enabled(cluster, s, e) && Synced(s.nodes[e.n])
    ensures Steady(s.nodes[e.n], Turn(rule, cluster, s, e).0)
  {
    hide Sends, VoteRequests, HandleAppendEntries, OnAppendReply, Grants;
    var v := s.nodes[e.n];
    if e.OnMessage? && e.m.AppendEntries? {
      AppendSteady(rule, v, e.m.args);
    } else if e.OnMessage? && e.m.AppendReply? {
      ReplySteady(v, Peers(cluster, e.n), e.m.from, e.m.args, e.m.result);
    }
  }

  lemma ArgsStayInside(v: NodeState, v': NodeState, a: AppendArgs)
    requires ArgsInside(v, a) && Steady(v, v')
    ensures ArgsInside(v', a)
  {
  }

  lemma AppendNext(rule: VoteRule, cluster: set<NodeId>, n: NodeId, v: NodeState, a: AppendArgs)
    requires NextInv(cluster, n, v)
    ensures NextInv(cluster, n, HandleAppendEntries(v, rule, a).0)
  {
    hide Merge, Rejection, CommitAfter;
    if a.term >= v.term && Consistent(v.log, a) {
      var f := MergeShape(v.log, a.prevIndex + 1, a.entries);
    }
  }

  // Whatever the hint, a retry goes on inside the leader's log.
  lemma BackedUpInside(v: NodeState, p: NodeId, a: AppendArgs, r: AppendResult)
    requires |v.log| > 0 && v.role == Leader && ArgsInside(v, a) && HintInside(a, r) && Relevant(v, a, r) && !r.success
    ensures 1 <= BackedUp(v, p, r) <= |v.log| && r.conflictIndex > 0
  {
    hide LastOfTerm;
    LastOfTermShape(v.log, r.conflictTerm, |v.log| - 1);
  }

  lemma ReplyNext(cluster: set<NodeId>, n: NodeId, v: NodeState, p: NodeId, a: AppendArgs, r: AppendResult)
    requires NextInv(cluster, n, v) && ArgsInside(v, a) && HintInside(a, r)
    ensures NextInv(cluster, n, OnAppendReply(v, Peers(cluster, n), p, a, r))
  {
    hide CommitFrom, BackedUp, Peers;
    if Relevant(v, a, r) && !r.success {
      BackedUpInside(v, p, a, r);
    }
  }

  lemma TurnNext(rule: VoteRule, cluster: set<NodeId>, s: State, e: Event)
    requires WellFormed(cluster, s) && Enabled(cluster, s, e) && Synced(s.nodes[e.n]) && InsideInv(cluster, s)
    ensures NextInv(cluster, e.n, Turn(rule, cluster, s, e).0)
  {
    hide Sends, VoteRequests, HandleRequestVote, OnVoteReply, HandleAppendEntries, OnAppendReply, Propose, Grants;
    hide ArgsInside, HintInside, NextInv;
    var n, v := e.n, s.nodes[e.n];
    assert NextInv(cluster, n, v);
    match e {
      case OnMessage(_, m) =>
        match m {
          case RequestVote(from, _, t, lastIndex, lastTerm) => RequestNext(cluster, n, v, from, t, lastIndex, lastTerm);
          case VoteReply(from, _, callTerm, t, granted) => VoteNext(cluster, n, v, from, callTerm, t, granted);
          case AppendEntries(_, _, a) => AppendNext(rule, cluster, n, v, a);
          case AppendReply(from, _, a, r) =>
            assert MessageInside(s, m);
            ReplyNext(cluster, n, v, from, a, r);
        }
      case ClientCommand(_, c) => ProposeNext(cluster, n, v, c);
      case Deliver(_) => SameLeader(cluster, n, v, Apply(v));
      case Heartbeat(_) =>
      case _ => NotLeading(cluster, n, v, Turn(rule, cluster, s, e).0);
    }
  }

  lemma RequestNext(cluster: set<NodeId>, n: NodeId, v: NodeState, cand: NodeId, t: nat, lastIndex: nat, lastTerm: nat)
    requires NextInv(cluster, n, v)
    ensures NextInv(cluster, n, HandleRequestVote(v, cand, t, lastIndex, lastTerm))
  {
    hide Grants, Peers;
  }

  lemma VoteNext(cluster: set<NodeId>, n: NodeId, v: NodeState, p: NodeId, callTerm: nat, t: nat, granted: bool)
    requires NextInv(cluster, n, v)
    ensures NextInv(cluster, n, OnVoteReply(v, Peers(cluster, n), p, callTerm, t, granted))
  {
    hide Wins, Peers;
  }

  lemma ProposeNext(cluster: set<NodeId>, n: NodeId, v: NodeState, c: Command)
    requires NextInv(cluster, n, v)
    ensures NextInv(cluster, n, Propose(v, n, c))
  {
  }

  lemma SameLeader(cluster: set<NodeId>, n: NodeId, v: NodeState, v': NodeState)
    requires NextInv(cluster, n, v) && v'.log == v.log && v'.role == v.role && v'.next == v.next && v'.matched == v.matched
    ensures NextInv(cluster, n, v')
  {
  }

  lemma NotLeading(cluster: set<NodeId>, n: NodeId, v: NodeState, v': NodeState)
    requires NextInv(cluster, n, v) && v'.role != Leader && (v'.log == v.log || v'.log == [SENTINEL])
    ensures NextInv(cluster, n, v')
  {
  }

  // ---- the messages of a turn ----

  lemma SentInside(cluster: set<NodeId>, n: NodeId, v: NodeState, to: set<NodeId>, m: Message)
    requires NextInv(cluster, n, v) && v.role == Leader && m in Sends(v, n, to)
    ensures m.AppendEntries? && m.from == n && ArgsInside(v, m.args)
  {
  }

  lemma AnswerInside(rule: VoteRule, cluster: set<NodeId>, n: NodeId, v: NodeState, w: NodeState, a: AppendArgs)
    requires NextInv(cluster, n, v) && ArgsInside(w, a)
    ensures HintInside(a, HandleAppendEntries(v, rule, a).1)
  {
    hide Merge, CommitAfter, FirstOfRun;
    if a.term >= v.term && 0 < a.prevIndex < |v.log| {
      FirstOfRunShape(v.log, a.prevIndex);
    }
  }

  lemma TurnInside(rule: VoteRule, cluster: set<NodeId>, s: State, e: Event, m: Message)
    requires WellFormed(cluster, s) && Enabled(cluster, s, e) && InsideInv(cluster, s)
    requires m in Turn(rule, cluster, s, e).1 && NextInv(cluster, e.n, Turn(rule, cluster, s, e).0)
    requires forall x | x in s.net :: MessageInside(Next(rule, cluster, s, e), x)
    ensures MessageInside(Next(rule, cluster, s, e), m)
  {
    hide HandleRequestVote, HandleAppendEntries, OnVoteReply, Sends, ArgsInside, HintInside, NextInv, Grants, BackedUp, CommitFrom;
    var v, v' := s.nodes[e.n], Turn(rule, cluster, s, e).0;
    if e.OnMessage? && e.m.AppendEntries? {
      assert MessageInside(s, e.m) && MessageInside(Next(rule, cluster, s, e), e.m);
      AnswerInside(rule, cluster, e.n, v, s.nodes[e.m.from], e.m.args);
    } else if m.AppendEntries? && e.OnMessage? && e.m.AppendReply? {
      SentInside(cluster, e.n, v', {e.m.from}, m);
    } else if m.AppendEntries? {
      SentInside(cluster, e.n, v', Peers(cluster, e.n), m);
    } else {
      NoAppend(rule, cluster, s, e, m);
    }
  }

  lemma NoAppend(rule: VoteRule, cluster: set<NodeId>, s: State, e: Event, m: Message)
    requires WellFormed(cluster, s) && Enabled(cluster, s, e) && m in Turn(rule, cluster, s, e).1
    requires !(e.OnMessage? && e.m.AppendEntries?)
    ensures !m.AppendReply?
  {
    hide HandleRequestVote, HandleAppendEntries, OnAppendReply, OnVoteReply, Grants, Propose, StartElection;
  }

  // ---- every step, every run ----

  lemma InsideStep(rule: VoteRule, cluster: set<NodeId>, s: State, e: Event)
    requires WellFormed(cluster, s) && Enabled(cluster, s, e) && InsideInv(cluster, s) && Synced(s.nodes[e.n])
    ensures InsideInv(cluster, Next(rule, cluster, s, e))
  {
    hide Synced, NextInv, ArgsInside, HintInside, Steady, Turn;
    var s' := Next(rule, cluster, s, e);
    TurnSteady(rule, cluster, s, e);
    TurnNext(rule, cluster, s, e);
    forall m | m in s.net ensures MessageInside(s', m) {
      assert MessageInside(s, m);
      match m
      case AppendEntries(from, _, a) => if from == e.n { ArgsStayInside(s.nodes[from], s'.nodes[from], a); }
      case AppendReply(_, to, a, _) => if to == e.n { ArgsStayInside(s.nodes[to], s'.nodes[to], a); }
      case _ =>
    }
    forall m | m in s'.net && m !in s.net ensures MessageInside(s', m) {
      TurnInside(rule, cluster, s, e, m);
    }
  }

  lemma {:induction false} RunInside(rule: VoteRule, cluster: set<NodeId>, run: seq<State>, events: seq<Event>, k: nat)
    requires IsRun(rule, cluster, run, events) && k <= |events|
    ensures InsideInv(cluster, run[k])
    decreases k
  {
    hide InsideInv, Next, CountInv, ReplyInv, Synced, HistoryAt;
    if k == 0 {
      StartInside(cluster);
    } else {
      RunInside(rule, cluster, run, events, k - 1);
      EveryRun(rule, cluster, run, events, k - 1);
      assert IsStep(rule, cluster, run[k - 1], events[k - 1], run[k]);
      InsideStep(rule, cluster, run[k - 1], events[k - 1]);
    }
  }

  lemma StartInside(cluster: set<NodeId>)
    ensures InsideInv(cluster, Init(cluster))
  {
  }

  // A leader's next index stays in 1..len(log), so sendAppendEntries never
  // reads outside the log, and what it sends ends where the log ends.
  lemma NextStaysInside(rule: VoteRule, cluster: set<NodeId>, run: seq<State>, events: seq<Event>, k: nat, n: NodeId, p: NodeId)
    requires IsRun(rule, cluster, run, events) && k <= |events| && n in run[k].nodes && p in Peers(cluster, n)
    requires run[k].nodes[n].role == Leader
    ensures var v := run[k].nodes[n];
            && 1 <= At(v.next, p) <= |v.log| && At(v.matched, p) < |v.log|
            && CanSend(v, p)
            && var a := AppendFor(v, p); a.prevIndex + |a.entries| == |v.log| - 1
  {
    hide IsStep, MessageInside;
    RunInside(rule, cluster, run, events, k);
    assert NextInv(cluster, n, run[k].nodes[n]);
  }

  // A rejection that triggers a retry names an index at or below the one probed,
  // so the decrement at the end of the handler is dead, and the retry stays
  // inside the log.
  lemma RetryStaysInside(rule: VoteRule, cluster: set<NodeId>, run: seq<State>, events: seq<Event>, k: nat, m: Message)
    requires IsRun(rule, cluster, run, events) && k <= |events| && m in run[k].net && m.AppendReply?
    requires m.to in run[k].nodes && Relevant(run[k].nodes[m.to], m.args, m.result) && !m.result.success
    ensures 1 <= m.result.conflictIndex <= m.args.prevIndex
    ensures var v := run[k].nodes[m.to];
            |v.log| > 0 && 1 <= BackedUp(v, m.from, m.result) <= |v.log|
  {
    hide IsStep, BackedUp;
    RunInside(rule, cluster, run, events, k);
    assert NextInv(cluster, m.to, run[k].nodes[m.to]) && MessageInside(run[k], m);
    BackedUpInside(run[k].nodes[m.to], m.from, m.args, m.result);
  }
}
