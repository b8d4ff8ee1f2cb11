/** What reaches the state machines: every committed command of the log once, in
    order and without a gap, and nothing that no client asked for. */
module RaftDeliveries {
  import opened RaftTypes
  import opened RaftNode
  import opened RaftProtocol
  import opened RaftInvariant
  import opened RaftGrowth
  import opened RaftAppend
  import opened RaftRuns
  import opened RaftSafety
  import opened RaftEveryRun

  // ---- nothing is skipped ----

  // Everything node n hands to its state machine in the events j..k.
  ghost function Deliveries(rule: VoteRule, cluster: set<NodeId>, run: seq<State>, events: seq<Event>, n: NodeId, j: nat, k: nat)
    : seq<(nat, Command)>
    requires IsRun(rule, cluster, run, events) && j <= k <= |events|
  {
    if j == k then []
    else
      assert IsStep(rule, cluster, run[k - 1], events[k - 1], run[k]);
      var d := Delivery(cluster, run[k - 1], events[k - 1]);
      Deliveries(rule, cluster, run, events, n, j, k - 1) + if events[k - 1].n == n && d.Some? then [d.value] else []
  }

  // The commands of a log at the indices a+1..b, with their indices.
  function Commands(log: seq<Entry>, a: nat, b: nat): seq<(nat, Command)>
    requires a <= b < |log|
  {
    if a == b then []
    else Commands(log, a, b - 1) + if log[b].command == Nil then [] else [(b, log[b].command)]
  }

  lemma {:induction false} CommandsAgree(log: seq<Entry>, log': seq<Entry>, a: nat, b: nat)
    requires a <= b && Agree(log, log', b + 1)
    ensures Commands(log, a, b) == Commands(log', a, b)
    decreases b
  {
    if a < b {
      CommandsAgree(log, log', a, b - 1);
    }
  }

  // Only a delivery or a crash moves lastApplied.
  lemma AppliedStays(rule: VoteRule, cluster: set<NodeId>, s: State, e: Event)
    requires WellFormed(cluster, s) && Enabled(cluster, s, e) && !e.Deliver? && !e.Crash? && !e.CrashHandling?
    ensures Turn(rule, cluster, s, e).0.applied == s.nodes[e.n].applied
  {
    hide Sends, VoteRequests, Grants, HandleAppendEntries, OnAppendReply, OnVoteReply;
    var v := s.nodes[e.n];
    if e.OnMessage? {
      match e.m
      case VoteReply(from, _, callTerm, t, granted) => VoteReplyKeeps(v, Peers(cluster, e.n), from, callTerm, t, granted);
      case AppendEntries(_, _, a) => AppendKeepsApplied(rule, v, a);
      case AppendReply(from, _, a, r) => AppendReplyKeeps(v, Peers(cluster, e.n), from, a, r);
      case _ =>
    }
  }

  lemma VoteReplyKeeps(v: NodeState, peers: set<NodeId>, p: NodeId, callTerm: nat, t: nat, granted: bool)
    ensures var v' := OnVoteReply(v, peers, p, callTerm, t, granted); v'.applied == v.applied && v'.log == v.log
  {
    hide Wins;
  }

  lemma AppendKeepsApplied(rule: VoteRule, v: NodeState, a: AppendArgs)
    ensures HandleAppendEntries(v, rule, a).0.applied == v.applied
  {
    hide Merge, Rejection, CommitAfter;
  }

  lemma AppendReplyKeeps(v: NodeState, peers: set<NodeId>, p: NodeId, a: AppendArgs, r: AppendResult)
    requires |v.log| > 0
    ensures var v' := OnAppendReply(v, peers, p, a, r); v'.applied == v.applied && v'.log == v.log
  {
    hide CommitFrom, BackedUp;
  }

  lemma AppliedInside(rule: VoteRule, cluster: set<NodeId>, run: seq<State>, events: seq<Event>, k: nat, n: NodeId)
    requires SafeRun(rule, cluster, run, events) && k <= |events| && n in cluster
    ensures n in run[k].nodes && run[k].nodes[n].applied <= run[k].nodes[n].commit < |run[k].nodes[n].log|
  {
    hide HistoryAt, SingleVotes, HistoryInv, MessageInv, IsStep, Grows;
    hide Anchored, TermsUpTo, Certified, CandidateInv, LeaderInv, HoldsAcked, NodeComplete;
    InvAt(rule, cluster, run, events, k, k);
    assert NodeInv(cluster, HistoryAt(rule, cluster, run, events, k), n, run[k].nodes[n]);
  }

  // In any stretch of a safe run in which the node does not go down, it delivers
  // exactly the commands of its log between the two values of lastApplied: each
  // once, in order, none left out.
  lemma {:induction false} DeliversInOrder(rule: VoteRule, cluster: set<NodeId>, run: seq<State>, events: seq<Event>,
                                           j: nat, k: nat, n: NodeId)
    requires SafeRun(rule, cluster, run, events) && j <= k <= |events| && n in cluster
    requires forall i | j <= i < k :: !Stops(events[i], n)
    ensures n in run[j].nodes && n in run[k].nodes
    ensures run[j].nodes[n].applied <= run[k].nodes[n].applied < |run[k].nodes[n].log|
    ensures Deliveries(rule, cluster, run, events, n, j, k)
            == Commands(run[k].nodes[n].log, run[j].nodes[n].applied, run[k].nodes[n].applied)
    decreases k
  {
    hide HistoryAt, SingleVotes, IsStep, Agree, Delivery;
    AppliedInside(rule, cluster, run, events, j, n);
    AppliedInside(rule, cluster, run, events, k, n);
    if j < k {
      DeliversInOrder(rule, cluster, run, events, j, k - 1, n);
      AppliedInside(rule, cluster, run, events, k - 1, n);
      CommitOnlyGrows(rule, cluster, run, events, k - 1, k, n);
      assert IsStep(rule, cluster, run[k - 1], events[k - 1], run[k]);
      DeliversOnce(rule, cluster, run[k - 1], events[k - 1], run[k], n, run[j].nodes[n].applied);
    }
  }

  lemma DeliversOnce(rule: VoteRule, cluster: set<NodeId>, s: State, e: Event, s': State, n: NodeId, a: nat)
    requires IsStep(rule, cluster, s, e, s') && n in cluster && n in s'.nodes && !Stops(e, n)
    requires a <= s.nodes[n].applied <= s.nodes[n].commit < |s.nodes[n].log| && s'.nodes[n].applied < |s'.nodes[n].log|
    requires Agree(s.nodes[n].log, s'.nodes[n].log, s.nodes[n].commit + 1)
    ensures s.nodes[n].applied <= s'.nodes[n].applied
    ensures var d := Delivery(cluster, s, e);
            Commands(s'.nodes[n].log, a, s'.nodes[n].applied)
            == Commands(s.nodes[n].log, a, s.nodes[n].applied) + if e.n == n && d.Some? then [d.value] else []
  {
    hide Turn, Commands;
    var v, v' := s.nodes[n], s'.nodes[n];
    CommandsAgree(v.log, v'.log, a, v.applied);
    if e.n != n || !e.Deliver? {
      if e.n == n { AppliedStays(rule, cluster, s, e); }
      assert Commands(v'.log, a, v.applied) + [] == Commands(v'.log, a, v.applied);
    } else {
      DeliverTurn(rule, cluster, s, n, a);
    }
  }

  lemma DeliverTurn(rule: VoteRule, cluster: set<NodeId>, s: State, n: NodeId, a: nat)
    requires WellFormed(cluster, s) && Enabled(cluster, s, Deliver(n)) && a <= s.nodes[n].applied
    ensures var v, v', d := s.nodes[n], Turn(rule, cluster, s, Deliver(n)).0, Delivery(cluster, s, Deliver(n));
            && v'.log == v.log && v.applied <= v'.applied < |v'.log|
            && Commands(v'.log, a, v'.applied) == Commands(v.log, a, v.applied) + if d.Some? then [d.value] else []
  {
  }

  // ---- nothing is made up ----

  // The j-th event is a client's command c accepted by a leader at index i.
  ghost predicate ProposedAt(run: seq<State>, events: seq<Event>, j: nat, i: nat, e: Entry)
    requires |run| == |events| + 1 && j < |events|
  {
    && events[j].ClientCommand? && events[j].c == e.command && events[j].n in run[j].nodes
    && run[j].nodes[events[j].n].role == Leader && run[j].nodes[events[j].n].term == e.term
    && |run[j].nodes[events[j].n].log| == i
  }

  // Every such entry of the first k events, with its index.
  ghost function Proposals(run: seq<State>, events: seq<Event>, k: nat): set<(nat, Entry)>
    requires |run| == |events| + 1 && k <= |events|
  {
    if k == 0 then {}
    else Proposals(run, events, k - 1) + Proposal(run[k - 1], events[k - 1])
  }

  function Proposal(s: State, e: Event): set<(nat, Entry)>
  {
    if e.ClientCommand? && e.n in s.nodes && s.nodes[e.n].role == Leader
    then {(|s.nodes[e.n].log|, Entry(s.nodes[e.n].term, e.c))} else {}
  }

  ghost predicate LogFrom(log: seq<Entry>, ps: set<(nat, Entry)>)
  {
    |log| > 0 && forall i: nat | 1 <= i < |log| :: (i, log[i]) in ps
  }

  ghost predicate ArgsFrom(a: AppendArgs, ps: set<(nat, Entry)>)
  {
    forall j: nat | j < |a.entries| :: (a.prevIndex + 1 + j, a.entries[j]) in ps
  }

  ghost predicate OriginInv(cluster: set<NodeId>, s: State, ps: set<(nat, Entry)>)
  {
    && s.nodes.Keys == cluster
    && (forall n | n in cluster :: LogFrom(s.nodes[n].log, ps))
    && (forall m | m in s.net && m.AppendEntries? :: ArgsFrom(m.args, ps))
  }

  lemma MergeFrom(log: seq<Entry>, a: AppendArgs, ps: set<(nat, Entry)>)
    requires LogFrom(log, ps) && ArgsFrom(a, ps) && a.prevIndex < |log|
    ensures LogFrom(Merge(log, a.prevIndex + 1, a.entries), ps)
  {
    hide Merge;
    var idx := a.prevIndex + 1;
    var f := MergeShape(log, idx, a.entries);
    var res := Merge(log, idx, a.entries);
    if f < |a.entries| {
      forall i: nat | 1 <= i < |res| ensures (i, res[i]) in ps {
        if i >= idx + f {
          assert res[i] == a.entries[i - idx];
        }
      }
    }
  }

  lemma AppendFrom(rule: VoteRule, v: NodeState, a: AppendArgs, ps: set<(nat, Entry)>)
    requires LogFrom(v.log, ps) && ArgsFrom(a, ps)
    ensures LogFrom(HandleAppendEntries(v, rule, a).0.log, ps)
  {
    hide Merge, Rejection, CommitAfter, LogFrom, ArgsFrom;
    if a.term >= v.term && Consistent(v.log, a) {
      MergeFrom(v.log, a, ps);
    }
  }

  lemma TurnFrom(rule: VoteRule, cluster: set<NodeId>, s: State, e: Event, ps: set<(nat, Entry)>)
    requires WellFormed(cluster, s) && Enabled(cluster, s, e) && Synced(s.nodes[e.n]) && OriginInv(cluster, s, ps)
    ensures LogFrom(Turn(rule, cluster, s, e).0.log, ps + Proposal(s, e))
  {
    hide Sends, VoteRequests, Grants, HandleAppendEntries, OnAppendReply, OnVoteReply, ArgsFrom;
    var v := s.nodes[e.n];
    assert LogFrom(v.log, ps);
    if e.OnMessage? {
      match e.m
      case VoteReply(from, _, callTerm, t, granted) => VoteReplyKeeps(v, Peers(cluster, e.n), from, callTerm, t, granted);
      case AppendEntries(_, _, a) => AppendFrom(rule, v, a, ps);
      case AppendReply(from, _, a, r) => AppendReplyKeeps(v, Peers(cluster, e.n), from, a, r);
      case _ =>
    }
  }

  lemma SendsFrom(v: NodeState, n: NodeId, to: set<NodeId>, m: Message, ps: set<(nat, Entry)>)
    requires LogFrom(v.log, ps) && m in Sends(v, n, to)
    ensures m.AppendEntries? && ArgsFrom(m.args, ps)
  {
  }

  lemma OutFrom(rule: VoteRule, cluster: set<NodeId>, s: State, e: Event, m: Message, ps: set<(nat, Entry)>)
    requires WellFormed(cluster, s) && Enabled(cluster, s, e)
    requires m in Turn(rule, cluster, s, e).1 && m.AppendEntries? && LogFrom(Turn(rule, cluster, s, e).0.log, ps)
    ensures ArgsFrom(m.args, ps)
  {
    hide HandleRequestVote, HandleAppendEntries, OnVoteReply, OnAppendReply, Propose, StartElection, Sends, LogFrom, ArgsFrom, Grants;
    var v' := Turn(rule, cluster, s, e).0;
    SendsOf(rule, cluster, s, e, m);
    SendsFrom(v', e.n, if e.OnMessage? && e.m.AppendReply? then {e.m.from} else Peers(cluster, e.n), m, ps);
  }

  lemma SendsOf(rule: VoteRule, cluster: set<NodeId>, s: State, e: Event, m: Message)
    requires WellFormed(cluster, s) && Enabled(cluster, s, e) && m in Turn(rule, cluster, s, e).1 && m.AppendEntries?
    ensures m in Sends(Turn(rule, cluster, s, e).0, e.n, if e.OnMessage? && e.m.AppendReply? then {e.m.from} else Peers(cluster, e.n))
  {
    hide HandleRequestVote, HandleAppendEntries, OnVoteReply, OnAppendReply, Propose, StartElection, Sends, Grants;
  }

  lemma OriginStep(rule: VoteRule, cluster: set<NodeId>, s: State, e: Event, ps: set<(nat, Entry)>)
    requires WellFormed(cluster, s) && Enabled(cluster, s, e) && Synced(s.nodes[e.n]) && OriginInv(cluster, s, ps)
    ensures OriginInv(cluster, Next(rule, cluster, s, e), ps + Proposal(s, e))
  {
    hide Synced, Turn, Proposal;
    var ps' := ps + Proposal(s, e);
    var s' := Next(rule, cluster, s, e);
    TurnFrom(rule, cluster, s, e, ps);
    forall m | m in s'.net && m.AppendEntries? ensures ArgsFrom(m.args, ps') {
      if m in s.net {
        assert ArgsFrom(m.args, ps);
      } else {
        OutFrom(rule, cluster, s, e, m, ps');
      }
    }
  }

  lemma {:induction false} RunOrigins(rule: VoteRule, cluster: set<NodeId>, run: seq<State>, events: seq<Event>, k: nat)
    requires IsRun(rule, cluster, run, events) && k <= |events|
    ensures OriginInv(cluster, run[k], Proposals(run, events, k))
    decreases k
  {
    hide Next, Proposal, CountInv, ReplyInv, Synced, HistoryAt, OriginInv, Enabled;
    if k == 0 {
      NoOrigins(cluster);
    } else {
      RunOrigins(rule, cluster, run, events, k - 1);
      EveryRun(rule, cluster, run, events, k - 1);
      assert IsStep(rule, cluster, run[k - 1], events[k - 1], run[k]);
      assert events[k - 1].n in cluster by { ActorInside(cluster, run[k - 1], events[k - 1]); }
      OriginStep(rule, cluster, run[k - 1], events[k - 1], Proposals(run, events, k - 1));
    }
  }

  lemma NoOrigins(cluster: set<NodeId>)
    ensures OriginInv(cluster, Init(cluster), {})
  {
  }

  lemma ActorInside(cluster: set<NodeId>, s: State, e: Event)
    requires WellFormed(cluster, s) && Enabled(cluster, s, e)
    ensures e.n in cluster
  {
  }

  lemma {:induction false} ProposalFound(run: seq<State>, events: seq<Event>, k: nat, i: nat, e: Entry) returns (j: nat)
    requires |run| == |events| + 1 && k <= |events| && (i, e) in Proposals(run, events, k)
    ensures j < k && ProposedAt(run, events, j, i, e)
    decreases k
  {
    if (i, e) in Proposal(run[k - 1], events[k - 1]) {
      j := k - 1;
    } else {
      j := ProposalFound(run, events, k - 1, i, e);
    }
  }

  // In every run under either vote rule, each entry of each log was proposed by a
  // client to a leader of its term, at that very index.
  lemma EntryWasProposed(rule: VoteRule, cluster: set<NodeId>, run: seq<State>, events: seq<Event>, k: nat, n: NodeId, i: nat)
    returns (j: nat)
    requires IsRun(rule, cluster, run, events) && k <= |events| && n in run[k].nodes && 1 <= i < |run[k].nodes[n].log|
    ensures j < k && ProposedAt(run, events, j, i, run[k].nodes[n].log[i])
  {
    hide IsStep;
    RunOrigins(rule, cluster, run, events, k);
    assert LogFrom(run[k].nodes[n].log, Proposals(run, events, k));
    j := ProposalFound(run, events, k, i, run[k].nodes[n].log[i]);
  }

  // So is every command that reaches a state machine.
  lemma DeliveredWasProposed(rule: VoteRule, cluster: set<NodeId>, run: seq<State>, events: seq<Event>, k: nat)
    returns (j: nat, t: nat)
    requires IsRun(rule, cluster, run, events) && k < |events| && IsStep(rule, cluster, run[k], events[k], run[k + 1])
    requires Delivery(cluster, run[k], events[k]).Some?
    ensures var d := Delivery(cluster, run[k], events[k]).value;
            j < k && ProposedAt(run, events, j, d.0, Entry(t, d.1))
  {
    var v := run[k].nodes[events[k].n];
    var d := Delivery(cluster, run[k], events[k]).value;
    t := v.log[d.0].term;
    j := EntryWasProposed(rule, cluster, run, events, k, events[k].n, d.0);
    assert v.log[d.0] == Entry(t, d.1);
  }
}
