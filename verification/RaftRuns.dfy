/** Whole runs: which ones give nobody a second vote, and their history. */
module RaftRuns {
  import opened Options
  import opened RaftTypes
  import opened RaftNode
  import opened RaftProtocol
  import opened RaftHistory
  import opened RaftInvariant
  import opened RaftGrowth
  import opened RaftVoting
  import opened RaftSteps

  ghost function HistoryAt(rule: VoteRule, cluster: set<NodeId>, run: seq<State>, events: seq<Event>, k: nat): (h: History)
    requires IsRun(rule, cluster, run, events) && k <= |events|
    ensures h.tally.Keys == cluster
  {
    if k == 0 then Start(cluster)
    else
      var h := HistoryAt(rule, cluster, run, events, k - 1);
      assert IsStep(rule, cluster, run[k - 1], events[k - 1], run[k]);
      Record(rule, cluster, run[k - 1], h, events[k - 1])
  }

  // The k-th event does not give a node its second vote in a term.
  ghost predicate OnceAt(rule: VoteRule, cluster: set<NodeId>, run: seq<State>, events: seq<Event>, k: nat)
    requires IsRun(rule, cluster, run, events) && k < |events|
  {
    assert IsStep(rule, cluster, run[k], events[k], run[k + 1]);
    VotesOnce(cluster, run[k], HistoryAt(rule, cluster, run, events, k), events[k])
  }

  // No node votes for two candidates in the same term during the run.
  ghost predicate SingleVotes(rule: VoteRule, cluster: set<NodeId>, run: seq<State>, events: seq<Event>)
    requires IsRun(rule, cluster, run, events)
  {
    OneVote(HistoryAt(rule, cluster, run, events, |events|))
  }

  lemma {:induction false} RunInv(rule: VoteRule, cluster: set<NodeId>, run: seq<State>, events: seq<Event>, k: nat)
    requires IsRun(rule, cluster, run, events) && k <= |events|
    requires forall j | 0 <= j < k :: OnceAt(rule, cluster, run, events, j)
    ensures Inv(cluster, run[k], HistoryAt(rule, cluster, run, events, k))
    decreases k
  {
    hide Inv, Next, Record, Enabled;
    if k == 0 {
      InitInv(cluster);
    } else {
      RunInv(rule, cluster, run, events, k - 1);
      assert IsStep(rule, cluster, run[k - 1], events[k - 1], run[k]);
      assert OnceAt(rule, cluster, run, events, k - 1);
      EveryStepKeepsInv(rule, cluster, run[k - 1], HistoryAt(rule, cluster, run, events, k - 1), events[k - 1]);
    }
  }

  lemma {:induction false} RunGrows(rule: VoteRule, cluster: set<NodeId>, run: seq<State>, events: seq<Event>, j: nat, k: nat)
    requires IsRun(rule, cluster, run, events) && j <= k <= |events|
    requires forall i | 0 <= i < k :: OnceAt(rule, cluster, run, events, i)
    ensures Grows(HistoryAt(rule, cluster, run, events, j), HistoryAt(rule, cluster, run, events, k))
    decreases k
  {
    hide Inv, Next, Record, Enabled, Grows;
    if j == k {
      GrowsSelf(HistoryAt(rule, cluster, run, events, j));
    } else {
      RunGrows(rule, cluster, run, events, j, k - 1);
      RunInv(rule, cluster, run, events, k - 1);
      assert IsStep(rule, cluster, run[k - 1], events[k - 1], run[k]);
      assert OnceAt(rule, cluster, run, events, k - 1);
      EveryStepKeepsInv(rule, cluster, run[k - 1], HistoryAt(rule, cluster, run, events, k - 1), events[k - 1]);
      GrowsAgain(HistoryAt(rule, cluster, run, events, j), HistoryAt(rule, cluster, run, events, k - 1),
                 HistoryAt(rule, cluster, run, events, k));
    }
  }

  // ---- one vote per term, exactly ----

  // Votes and acceptances are only ever added, and an acceptance is an event.
  lemma RecordShape(rule: VoteRule, cluster: set<NodeId>, s: State, h: History, e: Event)
    requires WellFormed(cluster, s) && Enabled(cluster, s, e) && h.tally.Keys == cluster
    ensures var h' := Record(rule, cluster, s, h, e);
            && h.ballots <= h'.ballots && h.heard <= h'.heard
            && (forall b | b in h'.ballots && b !in h.ballots :: b.voter == e.n)
            && (forall n: NodeId, t: nat | (n, t) in h'.heard && (n, t) !in h.heard :: Accepts(cluster, s, e, n, t))
  {
    hide Turn, Delivery, RecordVote, RecordCount, RecordAppend;
    if e.OnMessage? {
      var v, v', m := s.nodes[e.n], Turn(rule, cluster, s, e).0, e.m;
      match m
      case RequestVote(_, _, _, _, _) => VoteShape(h, v, v', m);
      case VoteReply(_, _, _, _, _) => CountShape(h, v, v', m);
      case AppendEntries(_, _, _) => AppendShape(h, rule, v, v', m);
      case AppendReply(_, _, _, _) =>
    }
  }

  lemma VoteShape(h: History, v: NodeState, v': NodeState, m: Message)
    requires m.RequestVote? && |v.log| > 0
    ensures var h' := RecordVote(h, v, v', m);
            && h.ballots <= h'.ballots && h'.heard == h.heard
            && (forall b | b in h'.ballots && b !in h.ballots :: b.voter == m.to)
  {
    hide Grants;
  }

  lemma CountShape(h: History, v: NodeState, v': NodeState, m: Message)
    requires m.VoteReply? && m.to in h.tally && |v.log| > 0
    ensures RecordCount(h, v, v', m).ballots == h.ballots && RecordCount(h, v, v', m).heard == h.heard
  {
    hide Counts;
  }

  lemma AppendShape(h: History, rule: VoteRule, v: NodeState, v': NodeState, m: Message)
    requires m.AppendEntries?
    ensures var h' := RecordAppend(h, rule, v, v', m);
            && h'.ballots == h.ballots && h.heard <= h'.heard
            && (forall x | x in h'.heard && x !in h.heard :: x == (m.to, m.args.term) && m.args.term >= v.term)
  {
    hide HandleAppendEntries;
  }

  lemma {:induction false} BallotsStay(rule: VoteRule, cluster: set<NodeId>, run: seq<State>, events: seq<Event>, j: nat, k: nat)
    requires IsRun(rule, cluster, run, events) && j <= k <= |events|
    ensures HistoryAt(rule, cluster, run, events, j).ballots <= HistoryAt(rule, cluster, run, events, k).ballots
    decreases k
  {
    hide Record, Next, Enabled;
    if j < k {
      BallotsStay(rule, cluster, run, events, j, k - 1);
      assert IsStep(rule, cluster, run[k - 1], events[k - 1], run[k]);
      RecordShape(rule, cluster, run[k - 1], HistoryAt(rule, cluster, run, events, k - 1), events[k - 1]);
    }
  }

  lemma InvOneVote(cluster: set<NodeId>, s: State, h: History)
    requires Inv(cluster, s, h)
    ensures OneVote(h)
  {
    hide OneVote, NodeInv, MessageInv, ReignsInv, BallotsInv, ClogsInv, AcksInv, Completeness, VotesComplete, DeliveredInv;
  }

  lemma TwoVotesStay(h: History, h': History)
    requires !OneVote(h) && h.ballots <= h'.ballots
    ensures !OneVote(h')
  {
    var b, c :| b in h.ballots && c in h.ballots && b.voter == c.voter && b.term == c.term && b.cand != c.cand;
    assert b in h'.ballots && c in h'.ballots;
  }

  lemma SecondVote(rule: VoteRule, cluster: set<NodeId>, run: seq<State>, events: seq<Event>, k: nat)
    requires IsRun(rule, cluster, run, events) && k < |events|
    requires Inv(cluster, run[k], HistoryAt(rule, cluster, run, events, k)) && !OnceAt(rule, cluster, run, events, k)
    ensures !OneVote(HistoryAt(rule, cluster, run, events, k + 1))
  {
    hide OneVote, HistoryInv, NodeInv, MessageInv, VotesTwice;
    assert IsStep(rule, cluster, run[k], events[k], run[k + 1]);
    var m := events[k].m;
    OneVoteIff(cluster, HistoryAt(rule, cluster, run, events, k), run[k].nodes[m.to], m);
  }

  // A run keeps one vote per term exactly when none of its vote requests
  // meets a node whose vote of that term, for another candidate, was cleared.
  lemma SingleVotesIff(rule: VoteRule, cluster: set<NodeId>, run: seq<State>, events: seq<Event>)
    requires IsRun(rule, cluster, run, events)
    ensures SingleVotes(rule, cluster, run, events)
            <==> forall k | 0 <= k < |events| :: OnceAt(rule, cluster, run, events, k)
  {
    hide OnceAt, IsStep, Inv, OneVote, HistoryAt;
    if forall k | 0 <= k < |events| :: OnceAt(rule, cluster, run, events, k) {
      RunInv(rule, cluster, run, events, |events|);
      InvOneVote(cluster, run[|events|], HistoryAt(rule, cluster, run, events, |events|));
    } else {
      var k := FirstSecondVote(rule, cluster, run, events, |events|);
      RunInv(rule, cluster, run, events, k);
      SecondVote(rule, cluster, run, events, k);
      BallotsStay(rule, cluster, run, events, k + 1, |events|);
      TwoVotesStay(HistoryAt(rule, cluster, run, events, k + 1), HistoryAt(rule, cluster, run, events, |events|));
    }
  }

  lemma {:induction false} FirstSecondVote(rule: VoteRule, cluster: set<NodeId>, run: seq<State>, events: seq<Event>, n: nat)
    returns (k: nat)
    requires IsRun(rule, cluster, run, events) && n <= |events|
    requires exists j | 0 <= j < n :: !OnceAt(rule, cluster, run, events, j)
    ensures k < n && !OnceAt(rule, cluster, run, events, k)
    ensures forall j | 0 <= j < k :: OnceAt(rule, cluster, run, events, j)
  {
    hide OnceAt, IsStep, HistoryAt;
    if exists j | 0 <= j < n - 1 :: !OnceAt(rule, cluster, run, events, j) {
      k := FirstSecondVote(rule, cluster, run, events, n - 1);
    } else {
      k := n - 1;
    }
  }

  // ---- the documented rule ----

  // A vote of the current term is still in place, or (as written only) an
  // AppendEntries of that term has cleared it.
  ghost predicate Stands(rule: VoteRule, h: History, n: NodeId, v: NodeState)
  {
    forall b | b in h.ballots && b.voter == n && b.term == v.term ::
      v.vote == Some(b.cand) || (rule == AsWritten && (n, v.term) in h.heard)
  }

  ghost predicate AllStand(rule: VoteRule, cluster: set<NodeId>, s: State, h: History)
    requires s.nodes.Keys == cluster
  {
    forall n | n in cluster :: Stands(rule, h, n, s.nodes[n])
  }

  lemma BallotsBounded(cluster: set<NodeId>, s: State, h: History, n: NodeId)
    requires Inv(cluster, s, h) && n in cluster
    ensures forall b | b in h.ballots && b.voter == n :: b.term <= s.nodes[n].term
    ensures s.nodes[n].disk == Durable(s.nodes[n].term, s.nodes[n].vote, s.nodes[n].log)
    ensures |s.nodes[n].log| > 0
  {
    hide ReignsInv, OneVote, ClogsInv, AcksInv, Completeness, VotesComplete, DeliveredInv, MessageInv;
    hide Anchored, TermsUpTo, Certified, CandidateInv, LeaderInv, HoldsAcked, NodeComplete;
    assert NodeInv(cluster, h, n, s.nodes[n]);
    forall b | b in h.ballots && b.voter == n ensures b.term <= s.nodes[n].term {
      assert BallotInv(cluster, h, b);
    }
  }

  // What a handler other than a vote or an AppendEntries does to the vote.
  ghost predicate VoteUntouched(v: NodeState, v': NodeState)
  {
    v'.term > v.term || (v'.term == v.term && v'.vote == v.vote)
  }

  lemma VoteReplyUntouched(v: NodeState, peers: set<NodeId>, p: NodeId, callTerm: nat, t: nat, granted: bool)
    ensures VoteUntouched(v, OnVoteReply(v, peers, p, callTerm, t, granted))
  {
  }

  lemma AppendReplyUntouched(v: NodeState, peers: set<NodeId>, p: NodeId, a: AppendArgs, r: AppendResult)
    requires |v.log| > 0
    ensures VoteUntouched(v, OnAppendReply(v, peers, p, a, r))
  {
    hide CommitFrom, BackedUp;
  }

  // An AppendEntries of the current term keeps the vote under the documented
  // rule, and as written exactly when there is none to lose.
  lemma VoteKeptIff(v: NodeState, rule: VoteRule, a: AppendArgs)
    requires a.term == v.term
    ensures HandleAppendEntries(v, rule, a).0.vote == v.vote <==> rule == Documented || v.vote == None
    ensures HandleAppendEntries(v, rule, a).0.term == v.term
  {
    hide Merge, Rejection, CommitAfter;
  }

  lemma HigherTermAccepted(v: NodeState, rule: VoteRule, a: AppendArgs)
    ensures a.term > v.term ==> HandleAppendEntries(v, rule, a).0.term > v.term
    ensures a.term < v.term ==> HandleAppendEntries(v, rule, a).0 == v
  {
    hide Merge, Rejection, CommitAfter;
  }

  lemma StandsFollows(rule: VoteRule, h: History, h': History, n: NodeId, v: NodeState, v': NodeState)
    requires Stands(rule, h, n, v) && forall b | b in h.ballots && b.voter == n :: b.term <= v.term
    requires h.heard <= h'.heard && forall b | b in h'.ballots && b !in h.ballots :: b.voter != n
    requires VoteUntouched(v, v') || (rule == AsWritten && v'.term == v.term && (n, v.term) in h'.heard)
    ensures Stands(rule, h', n, v')
  {
  }

  lemma AppendStands(rule: VoteRule, cluster: set<NodeId>, s: State, h: History, n: NodeId, m: Message)
    requires Inv(cluster, s, h) && WellFormed(cluster, s) && n in cluster && m.AppendEntries? && m.to == n
    requires Stands(rule, h, n, s.nodes[n])
    ensures var v := s.nodes[n];
            var v' := HandleAppendEntries(v, rule, m.args).0;
            Stands(rule, RecordAppend(h, rule, v, v', m), n, v')
  {
    hide Inv, Stands, HandleAppendEntries;
    var v := s.nodes[n];
    var v' := HandleAppendEntries(v, rule, m.args).0;
    BallotsBounded(cluster, s, h, n);
    HigherTermAccepted(v, rule, m.args);
    if m.args.term == v.term { VoteKeptIff(v, rule, m.args); }
    StandsFollows(rule, h, RecordAppend(h, rule, v, v', m), n, v, v');
  }

  lemma RequestStands(rule: VoteRule, cluster: set<NodeId>, s: State, h: History, n: NodeId, m: Message)
    requires Inv(cluster, s, h) && WellFormed(cluster, s) && n in cluster && m.RequestVote? && m.to == n
    requires Stands(rule, h, n, s.nodes[n]) && !VotesTwice(h, s.nodes[n], m)
    ensures var v := s.nodes[n];
            var v' := HandleRequestVote(v, m.from, m.term, m.lastIndex, m.lastTerm);
            Stands(rule, RecordVote(h, v, v', m), n, v')
  {
    hide Inv, UpToDate;
    BallotsBounded(cluster, s, h, n);
  }

  lemma ActorStands(rule: VoteRule, cluster: set<NodeId>, s: State, h: History, e: Event)
    requires Inv(cluster, s, h) && WellFormed(cluster, s) && h.tally.Keys == cluster
    requires Enabled(cluster, s, e) && VotesOnce(cluster, s, h, e) && Stands(rule, h, e.n, s.nodes[e.n])
    ensures Stands(rule, Record(rule, cluster, s, h, e), e.n, Turn(rule, cluster, s, e).0)
  {
    hide Inv, Stands, HandleRequestVote, HandleAppendEntries, OnVoteReply, OnAppendReply, VotesTwice;
    hide RecordVote, RecordCount, RecordAppend, RecordCandidacy, StartElection, Grants, Sends, VoteRequests, VoteUntouched;
    var n := e.n;
    BallotsBounded(cluster, s, h, n);
    var v, v' := s.nodes[n], Turn(rule, cluster, s, e).0;
    var h' := Record(rule, cluster, s, h, e);
    match e {
      case Timeout(_) => TimeoutStands(rule, h, n, v, Peers(cluster, n));
      case OnMessage(_, m) =>
        match m {
          case RequestVote(_, _, _, _, _) => RequestStands(rule, cluster, s, h, n, m);
          case VoteReply(from, _, callTerm, t, granted) =>
            VoteReplyUntouched(v, Peers(cluster, n), from, callTerm, t, granted);
            CountShape(h, v, v', m);
            StandsFollows(rule, h, h', n, v, v');
          case AppendEntries(_, _, _) => AppendStands(rule, cluster, s, h, n, m);
          case AppendReply(from, _, a, r) =>
            AppendReplyUntouched(v, Peers(cluster, n), from, a, r);
            StandsFollows(rule, h, h', n, v, v');
        }
      case _ =>
        QuietTurn(rule, cluster, s, h, e);
        RecordShape(rule, cluster, s, h, e);
        StandsFollows(rule, h, h', n, v, v');
    }
  }

  // No ballot is cast, and only the accepted AppendEntries of a handler cut
  // short by a crash can have cleared the vote.
  lemma QuietTurn(rule: VoteRule, cluster: set<NodeId>, s: State, h: History, e: Event)
    requires WellFormed(cluster, s) && Enabled(cluster, s, e) && !e.Timeout? && !e.OnMessage? && h.tally.Keys == cluster
    requires s.nodes[e.n].disk == Durable(s.nodes[e.n].term, s.nodes[e.n].vote, s.nodes[e.n].log)
    ensures var v, v', h' := s.nodes[e.n], Turn(rule, cluster, s, e).0, Record(rule, cluster, s, h, e);
            && h'.ballots == h.ballots
            && (VoteUntouched(v, v') || (rule == AsWritten && v'.term == v.term && (e.n, v.term) in h'.heard))
  {
    hide Sends, Delivery;
  }

  lemma TimeoutStands(rule: VoteRule, h: History, n: NodeId, v: NodeState, peers: set<NodeId>)
    requires forall b | b in h.ballots && b.voter == n :: b.term <= v.term
    ensures Stands(rule, RecordCandidacy(h, v, n), n, StartElection(v, n, peers))
  {
  }

  lemma StandsStep(rule: VoteRule, cluster: set<NodeId>, s: State, h: History, e: Event)
    requires Inv(cluster, s, h) && WellFormed(cluster, s) && h.tally.Keys == cluster
    requires Enabled(cluster, s, e) && VotesOnce(cluster, s, h, e)
    requires AllStand(rule, cluster, s, h)
    ensures AllStand(rule, cluster, Next(rule, cluster, s, e), Record(rule, cluster, s, h, e))
  {
    hide Inv, Turn, Record, VotesOnce;
    ActorStands(rule, cluster, s, h, e);
    RecordShape(rule, cluster, s, h, e);
    var s', h' := Next(rule, cluster, s, e), Record(rule, cluster, s, h, e);
    forall p | p in cluster ensures Stands(rule, h', p, s'.nodes[p]) {
      assert Stands(rule, h, p, s.nodes[p]);
    }
  }

  lemma {:induction false} RunStands(rule: VoteRule, cluster: set<NodeId>, run: seq<State>, events: seq<Event>, k: nat)
    requires IsRun(rule, cluster, run, events) && k <= |events|
    requires forall j | 0 <= j < k :: OnceAt(rule, cluster, run, events, j)
    ensures run[k].nodes.Keys == cluster
    ensures AllStand(rule, cluster, run[k], HistoryAt(rule, cluster, run, events, k))
    decreases k
  {
    hide Inv, Next, Record, Enabled, Stands;
    if k == 0 {
      NothingVoted(rule, cluster);
    } else {
      RunStands(rule, cluster, run, events, k - 1);
      RunInv(rule, cluster, run, events, k - 1);
      RunInv(rule, cluster, run, events, k);
      InvWellFormed(cluster, run[k], HistoryAt(rule, cluster, run, events, k));
      assert IsStep(rule, cluster, run[k - 1], events[k - 1], run[k]);
      assert OnceAt(rule, cluster, run, events, k - 1);
      StandsStep(rule, cluster, run[k - 1], HistoryAt(rule, cluster, run, events, k - 1), events[k - 1]);
    }
  }

  lemma NothingVoted(rule: VoteRule, cluster: set<NodeId>)
    ensures Init(cluster).nodes.Keys == cluster && AllStand(rule, cluster, Init(cluster), Start(cluster))
  {
  }

  // The node accepts an AppendEntries of term t in this event.
  predicate Accepts(cluster: set<NodeId>, s: State, e: Event, n: NodeId, t: nat)
  {
    && WellFormed(cluster, s) && Enabled(cluster, s, e) && e.n == n
    && (e.OnMessage? || e.CrashHandling?) && e.m.AppendEntries?
    && e.m.args.term == t && t >= s.nodes[n].term
  }

  // In the run as written, no node that accepted an AppendEntries of a term
  // is afterwards reached, with its vote cleared, by a vote request of that term.
  ghost predicate Timely(cluster: set<NodeId>, run: seq<State>, events: seq<Event>)
    requires |run| == |events| + 1
  {
    forall j, k | 0 <= j < k < |events| :: !LateRequest(cluster, run, events, j, k)
  }

  ghost predicate LateRequest(cluster: set<NodeId>, run: seq<State>, events: seq<Event>, j: nat, k: nat)
    requires |run| == |events| + 1 && j < k < |events|
  {
    && WellFormed(cluster, run[k]) && Enabled(cluster, run[k], events[k])
    && events[k].OnMessage? && events[k].m.RequestVote?
    && events[k].m.term == run[k].nodes[events[k].n].term
    && run[k].nodes[events[k].n].vote == None
    && Accepts(cluster, run[j], events[j], events[k].n, events[k].m.term)
  }

  lemma {:induction false} HeardFrom(rule: VoteRule, cluster: set<NodeId>, run: seq<State>, events: seq<Event>, k: nat, n: NodeId, t: nat)
    returns (j: nat)
    requires IsRun(rule, cluster, run, events) && k <= |events|
    requires (n, t) in HistoryAt(rule, cluster, run, events, k).heard
    ensures j < k && Accepts(cluster, run[j], events[j], n, t)
    decreases k
  {
    hide Record, Next, Enabled, Accepts;
    assert k > 0;
    assert IsStep(rule, cluster, run[k - 1], events[k - 1], run[k]);
    RecordShape(rule, cluster, run[k - 1], HistoryAt(rule, cluster, run, events, k - 1), events[k - 1]);
    if (n, t) in HistoryAt(rule, cluster, run, events, k - 1).heard {
      j := HeardFrom(rule, cluster, run, events, k - 1, n, t);
    } else {
      j := k - 1;
    }
  }

  lemma {:induction false} OnceUpTo(rule: VoteRule, cluster: set<NodeId>, run: seq<State>, events: seq<Event>, k: nat)
    requires IsRun(rule, cluster, run, events) && k <= |events|
    requires rule == Documented || Timely(cluster, run, events)
    ensures forall j | 0 <= j < k :: OnceAt(rule, cluster, run, events, j)
    decreases k
  {
    hide OnceAt, IsStep, AllStand, HistoryAt, Timely;
    if k > 0 {
      OnceUpTo(rule, cluster, run, events, k - 1);
      RunStands(rule, cluster, run, events, k - 1);
      OnceNow(rule, cluster, run, events, k - 1);
    }
  }

  // A second vote needs an AppendEntries of the same term before it.
  lemma LateFrom(rule: VoteRule, cluster: set<NodeId>, run: seq<State>, events: seq<Event>, k: nat) returns (j: nat)
    requires IsRun(rule, cluster, run, events) && k < |events|
    requires run[k].nodes.Keys == cluster && AllStand(rule, cluster, run[k], HistoryAt(rule, cluster, run, events, k))
    requires !OnceAt(rule, cluster, run, events, k)
    ensures rule == AsWritten && j < k && LateRequest(cluster, run, events, j, k)
  {
    hide UpToDate, Next, Record;
    assert IsStep(rule, cluster, run[k], events[k], run[k + 1]);
    var h, e := HistoryAt(rule, cluster, run, events, k), events[k];
    assert Stands(rule, h, e.n, run[k].nodes[e.n]);
    j := HeardFrom(rule, cluster, run, events, k, e.n, e.m.term);
  }

  lemma OnceNow(rule: VoteRule, cluster: set<NodeId>, run: seq<State>, events: seq<Event>, k: nat)
    requires IsRun(rule, cluster, run, events) && k < |events|
    requires rule == Documented || Timely(cluster, run, events)
    requires run[k].nodes.Keys == cluster && AllStand(rule, cluster, run[k], HistoryAt(rule, cluster, run, events, k))
    ensures OnceAt(rule, cluster, run, events, k)
  {
    hide OnceAt, IsStep, AllStand, LateRequest;
    if !OnceAt(rule, cluster, run, events, k) {
      var j := LateFrom(rule, cluster, run, events, k);
    }
  }

  // Every run of the documented rule, and every timely run of the code,
  // gives each node one vote per term.
  lemma RulesVoteOnce(rule: VoteRule, cluster: set<NodeId>, run: seq<State>, events: seq<Event>)
    requires IsRun(rule, cluster, run, events)
    requires rule == Documented || Timely(cluster, run, events)
    ensures SingleVotes(rule, cluster, run, events)
  {
    OnceUpTo(rule, cluster, run, events, |events|);
    SingleVotesIff(rule, cluster, run, events);
  }
}
