/** What holds of every run under either vote rule, second votes included: the
    disk is current, no log is ever empty, and a candidate counts voters. */
module RaftEveryRun {
  import opened RaftTypes
  import opened RaftNode
  import opened RaftProtocol
  import opened RaftHistory
  import opened RaftInvariant
  import opened RaftAppend
  import opened RaftRuns

  // ---- the disk ----

  ghost predicate Synced(v: NodeState)
  {
    |v.log| > 0 && v.disk == Durable(v.term, v.vote, v.log)
  }

  lemma AppendSynced(rule: VoteRule, v: NodeState, a: AppendArgs)
    requires Synced(v)
    ensures Synced(HandleAppendEntries(v, rule, a).0)
  {
    hide Merge, Rejection, CommitAfter;
    if a.term >= v.term && Consistent(v.log, a) {
      MergeNothing(v.log, a.prevIndex + 1);
      var f := MergeShape(v.log, a.prevIndex + 1, a.entries);
    }
  }

  lemma ReplySynced(v: NodeState, peers: set<NodeId>, p: NodeId, a: AppendArgs, r: AppendResult)
    requires Synced(v)
    ensures Synced(OnAppendReply(v, peers, p, a, r))
  {
    hide CommitFrom, BackedUp;
  }

  lemma TurnSynced(rule: VoteRule, cluster: set<NodeId>, s: State, e: Event)
    requires WellFormed(cluster, s) && Enabled(cluster, s, e) && Synced(s.nodes[e.n])
    ensures Synced(Turn(rule, cluster, s, e).0)
  {
    hide Sends, VoteRequests, HandleAppendEntries, OnAppendReply, Grants;
    var v := s.nodes[e.n];
    if e.OnMessage? && e.m.AppendEntries? {
      AppendSynced(rule, v, e.m.args);
    } else if e.OnMessage? && e.m.AppendReply? {
      ReplySynced(v, Peers(cluster, e.n), e.m.from, e.m.args, e.m.result);
    }
  }

  // ---- the votes ----

  // The calls a node has open are of its elections so far, and a candidate's
  // counter is the number of voters counted.
  ghost predicate CountInv(cluster: set<NodeId>, h: History, n: NodeId, v: NodeState)
  {
    && CallsInv(v)
    && (v.role == Candidate ==>
          && n in h.tally && v.votes == |h.tally[n]| && h.tally[n] <= cluster
          && forall p | p in h.tally[n] :: Ballot(p, v.term, n) in h.ballots && Call(v.term, p) !in v.calls)
  }

  // A granted reply tells of a vote.
  ghost predicate ReplyInv(cluster: set<NodeId>, h: History, m: Message)
  {
    m.VoteReply? ==> m.from in cluster && (m.granted ==> Ballot(m.from, m.callTerm, m.to) in h.ballots)
  }

  // What a turn other than a timeout or a vote reply does to a candidacy.
  ghost predicate Uncounted(v: NodeState, v': NodeState)
  {
    && v'.term >= v.term && v'.calls <= v.calls
    && (v'.role == Candidate ==> v.role == Candidate && v'.term == v.term && v'.votes == v.votes)
  }

  lemma AppendUncounted(rule: VoteRule, v: NodeState, a: AppendArgs)
    ensures Uncounted(v, HandleAppendEntries(v, rule, a).0)
  {
    hide Merge, Rejection, CommitAfter;
  }

  lemma ReplyUncounted(v: NodeState, peers: set<NodeId>, p: NodeId, a: AppendArgs, r: AppendResult)
    requires |v.log| > 0
    ensures Uncounted(v, OnAppendReply(v, peers, p, a, r))
  {
    hide CommitFrom, BackedUp;
  }

  lemma TurnUncounted(rule: VoteRule, cluster: set<NodeId>, s: State, e: Event)
    requires WellFormed(cluster, s) && Enabled(cluster, s, e) && Synced(s.nodes[e.n])
    requires !e.Timeout? && !(e.OnMessage? && e.m.VoteReply?)
    ensures Uncounted(s.nodes[e.n], Turn(rule, cluster, s, e).0)
  {
    hide Sends, VoteRequests, HandleAppendEntries, OnAppendReply, Grants;
    var v := s.nodes[e.n];
    if e.OnMessage? && e.m.AppendEntries? {
      AppendUncounted(rule, v, e.m.args);
    } else if e.OnMessage? && e.m.AppendReply? {
      ReplyUncounted(v, Peers(cluster, e.n), e.m.from, e.m.args, e.m.result);
    }
  }

  // The tally of a node changes only in its own timeouts and vote replies.
  lemma TallyShape(rule: VoteRule, cluster: set<NodeId>, s: State, h: History, e: Event)
    requires WellFormed(cluster, s) && Enabled(cluster, s, e) && h.tally.Keys == cluster
    ensures var h' := Record(rule, cluster, s, h, e);
            && h'.tally.Keys == cluster
            && (forall p | p in cluster && p != e.n :: h'.tally[p] == h.tally[p])
            && (!e.Timeout? && !(e.OnMessage? && e.m.VoteReply?) ==> h'.tally == h.tally)
  {
    hide Turn, Delivery, RecordVote, RecordCount, RecordAppend;
    if e.OnMessage? {
      MessageTally(rule, h, s.nodes[e.n], Turn(rule, cluster, s, e).0, e.m);
    }
  }

  lemma MessageTally(rule: VoteRule, h: History, v: NodeState, v': NodeState, m: Message)
    requires |v.log| > 0
    ensures m.RequestVote? ==> RecordVote(h, v, v', m).tally == h.tally
    ensures m.AppendEntries? ==> RecordAppend(h, rule, v, v', m).tally == h.tally
    ensures m.VoteReply? && m.to in h.tally ==>
              && RecordCount(h, v, v', m).tally.Keys == h.tally.Keys
              && forall p | p in h.tally && p != m.to :: RecordCount(h, v, v', m).tally[p] == h.tally[p]
  {
    hide Grants, Counts, HandleAppendEntries;
  }

  lemma TimeoutCounts(cluster: set<NodeId>, h: History, n: NodeId, v: NodeState)
    requires n in cluster && CallsInv(v)
    ensures CountInv(cluster, RecordCandidacy(h, v, n), n, StartElection(v, n, Peers(cluster, n)))
  {
  }

  lemma ReplyCounts(cluster: set<NodeId>, h: History, v: NodeState, m: Message)
    requires m.VoteReply? && m.to in cluster && h.tally.Keys == cluster && |v.log| > 0
    requires CountInv(cluster, h, m.to, v) && ReplyInv(cluster, h, m) && Call(m.callTerm, m.from) in v.calls
    ensures var v' := OnVoteReply(v, Peers(cluster, m.to), m.from, m.callTerm, m.term, m.granted);
            CountInv(cluster, RecordCount(h, v, v', m), m.to, v')
  {
    hide Wins, Peers;
  }

  lemma CountStays(cluster: set<NodeId>, h: History, h': History, n: NodeId, v: NodeState, v': NodeState)
    requires CountInv(cluster, h, n, v) && Uncounted(v, v') && h.ballots <= h'.ballots
    requires n in h.tally ==> n in h'.tally && h'.tally[n] == h.tally[n]
    ensures CountInv(cluster, h', n, v')
  {
  }

  lemma ActorCounts(rule: VoteRule, cluster: set<NodeId>, s: State, h: History, e: Event)
    requires WellFormed(cluster, s) && Enabled(cluster, s, e) && h.tally.Keys == cluster
    requires Synced(s.nodes[e.n]) && CountInv(cluster, h, e.n, s.nodes[e.n])
    requires forall m | m in s.net :: ReplyInv(cluster, h, m)
    ensures CountInv(cluster, Record(rule, cluster, s, h, e), e.n, Turn(rule, cluster, s, e).0)
  {
    hide CountInv, ReplyInv, StartElection, OnVoteReply, HandleRequestVote, HandleAppendEntries, OnAppendReply;
    hide RecordCandidacy, RecordVote, RecordCount, RecordAppend, Sends, VoteRequests, Grants, Uncounted;
    var n, v := e.n, s.nodes[e.n];
    if e.Timeout? {
      assert CallsInv(v) by { CountCalls(cluster, h, n, v); }
      TimeoutCounts(cluster, h, n, v);
    } else if e.OnMessage? && e.m.VoteReply? {
      ReplyCounts(cluster, h, v, e.m);
    } else {
      TurnUncounted(rule, cluster, s, e);
      TallyShape(rule, cluster, s, h, e);
      RecordShape(rule, cluster, s, h, e);
      CountStays(cluster, h, Record(rule, cluster, s, h, e), n, v, Turn(rule, cluster, s, e).0);
    }
  }

  lemma CountCalls(cluster: set<NodeId>, h: History, n: NodeId, v: NodeState)
    requires CountInv(cluster, h, n, v)
    ensures CallsInv(v)
  {
  }

  lemma TurnReplies(rule: VoteRule, cluster: set<NodeId>, s: State, h: History, e: Event, m: Message)
    requires WellFormed(cluster, s) && Enabled(cluster, s, e) && h.tally.Keys == cluster
    requires m in Turn(rule, cluster, s, e).1
    ensures ReplyInv(cluster, Record(rule, cluster, s, h, e), m)
  {
    hide HandleRequestVote, HandleAppendEntries, OnAppendReply, OnVoteReply, Grants, Propose, StartElection;
  }

  // ---- every step, every run ----

  ghost predicate EveryInv(cluster: set<NodeId>, s: State, h: History)
  {
    && s.nodes.Keys == cluster && h.tally.Keys == cluster
    && (forall n | n in cluster :: Synced(s.nodes[n]) && CountInv(cluster, h, n, s.nodes[n]))
    && (forall m | m in s.net :: ReplyInv(cluster, h, m))
  }

  lemma EveryStep(rule: VoteRule, cluster: set<NodeId>, s: State, h: History, e: Event)
    requires EveryInv(cluster, s, h) && WellFormed(cluster, s) && Enabled(cluster, s, e)
    ensures EveryInv(cluster, Next(rule, cluster, s, e), Record(rule, cluster, s, h, e))
  {
    hide Synced, CountInv, ReplyInv, Turn, Record;
    var s', h' := Next(rule, cluster, s, e), Record(rule, cluster, s, h, e);
    TurnSynced(rule, cluster, s, e);
    ActorCounts(rule, cluster, s, h, e);
    RecordShape(rule, cluster, s, h, e);
    TallyShape(rule, cluster, s, h, e);
    forall p | p in cluster && p != e.n ensures CountInv(cluster, h', p, s'.nodes[p]) {
      UncountedSelf(s.nodes[p]);
      CountStays(cluster, h, h', p, s.nodes[p], s.nodes[p]);
    }
    forall m | m in s'.net ensures ReplyInv(cluster, h', m) {
      if m in s.net {
        ReplyStays(cluster, h, h', m);
      } else {
        TurnReplies(rule, cluster, s, h, e, m);
      }
    }
  }

  lemma UncountedSelf(v: NodeState)
    ensures Uncounted(v, v)
  {
  }

  lemma ReplyStays(cluster: set<NodeId>, h: History, h': History, m: Message)
    requires ReplyInv(cluster, h, m) && h.ballots <= h'.ballots
    ensures ReplyInv(cluster, h', m)
  {
  }

  lemma {:induction false} EveryRun(rule: VoteRule, cluster: set<NodeId>, run: seq<State>, events: seq<Event>, k: nat)
    requires IsRun(rule, cluster, run, events) && k <= |events|
    ensures EveryInv(cluster, run[k], HistoryAt(rule, cluster, run, events, k))
    decreases k
  {
    hide EveryInv, Next, Record, Enabled;
    if k == 0 {
      EveryStart(cluster);
    } else {
      EveryRun(rule, cluster, run, events, k - 1);
      assert IsStep(rule, cluster, run[k - 1], events[k - 1], run[k]);
      EveryStep(rule, cluster, run[k - 1], HistoryAt(rule, cluster, run, events, k - 1), events[k - 1]);
    }
  }

  lemma EveryStart(cluster: set<NodeId>)
    ensures EveryInv(cluster, Init(cluster), Start(cluster))
  {
  }

  // At every lock release the disk holds the node's term, vote and log, so a
  // restart loses volatile state only; and no log is ever empty.
  lemma DiskIsCurrent(rule: VoteRule, cluster: set<NodeId>, run: seq<State>, events: seq<Event>, k: nat, n: NodeId)
    requires IsRun(rule, cluster, run, events) && k <= |events| && n in run[k].nodes
    ensures WellFormed(cluster, run[k])
    ensures var v := run[k].nodes[n];
            && v.disk == Durable(v.term, v.vote, v.log)
            && Restart(v.disk) == v.(commit := 0, applied := 0, role := Follower, next := map[], matched := map[], votes := 0, calls := {})
  {
    hide HistoryAt, IsStep, CountInv, ReplyInv;
    EveryRun(rule, cluster, run, events, k);
    assert Synced(run[k].nodes[n]);
  }

  // The counter of a candidate is the number of distinct nodes that voted for
  // it in its term; none of their calls is still open.
  lemma VotesAreVoters(rule: VoteRule, cluster: set<NodeId>, run: seq<State>, events: seq<Event>, k: nat, n: NodeId)
    returns (voters: set<NodeId>)
    requires IsRun(rule, cluster, run, events) && k <= |events| && n in run[k].nodes
    requires run[k].nodes[n].role == Candidate
    ensures voters <= cluster && |voters| == run[k].nodes[n].votes
    ensures forall p | p in voters ::
              && Ballot(p, run[k].nodes[n].term, n) in HistoryAt(rule, cluster, run, events, k).ballots
              && Call(run[k].nodes[n].term, p) !in run[k].nodes[n].calls
  {
    hide HistoryAt, IsStep, Synced, ReplyInv;
    EveryRun(rule, cluster, run, events, k);
    assert CountInv(cluster, HistoryAt(rule, cluster, run, events, k), n, run[k].nodes[n]);
    voters := HistoryAt(rule, cluster, run, events, k).tally[n];
  }
}
