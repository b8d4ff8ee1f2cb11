/** Continuing a run: states that satisfy the invariant, steps that give nobody a
    second vote, and the safe runs they extend. */
module RaftPaths {
  import opened RaftTypes
  import opened RaftNode
  import opened RaftProtocol
  import opened RaftHistory
  import opened RaftInvariant
  import opened RaftSteps
  import opened RaftRuns
  import opened RaftSafety

  // A state like those of safe runs.
  ghost predicate Good(cluster: set<NodeId>, s: State)
  {
    exists h :: Inv(cluster, s, h)
  }

  // A step other than a crash, in which a vote is only asked for in a term new
  // to the voter.
  ghost predicate Mild(cluster: set<NodeId>, s: State, e: Event)
    requires WellFormed(cluster, s)
  {
    && Enabled(cluster, s, e) && !e.Crash? && !e.CrashHandling?
    && (e.OnMessage? && e.m.RequestVote? ==> e.m.term > s.nodes[e.n].term)
  }

  lemma MildVotesOnce(cluster: set<NodeId>, s: State, h: History, e: Event)
    requires WellFormed(cluster, s) && Mild(cluster, s, e)
    ensures VotesOnce(cluster, s, h, e)
  {
    hide UpToDate;
  }

  lemma GoodWellFormed(cluster: set<NodeId>, s: State)
    requires Good(cluster, s)
    ensures WellFormed(cluster, s)
  {
    hide Inv;
    var h :| Inv(cluster, s, h);
    InvWellFormed(cluster, s, h);
  }

  lemma MildKeeps(rule: VoteRule, cluster: set<NodeId>, s: State, e: Event)
    requires Good(cluster, s) && WellFormed(cluster, s) && Mild(cluster, s, e)
    ensures Good(cluster, Next(rule, cluster, s, e))
  {
    hide Inv, Next, Mild, VotesOnce;
    var h :| Inv(cluster, s, h);
    InvWellFormed(cluster, s, h);
    MildVotesOnce(cluster, s, h, e);
    assert Enabled(cluster, s, e) by { MildEnabled(cluster, s, e); }
    EveryStepKeepsInv(rule, cluster, s, h, e);
  }

  lemma MildEnabled(cluster: set<NodeId>, s: State, e: Event)
    requires WellFormed(cluster, s) && Mild(cluster, s, e)
    ensures Enabled(cluster, s, e)
  {
    hide Enabled;
  }

  // ---- paths ----

  // Such steps lead from s to t.
  ghost predicate Path(rule: VoteRule, cluster: set<NodeId>, s: State, es: seq<Event>, t: State)
    decreases |es|
  {
    if es == [] then s == t
    else WellFormed(cluster, s) && Mild(cluster, s, es[0]) && Path(rule, cluster, Next(rule, cluster, s, es[0]), es[1..], t)
  }

  lemma PathNone(rule: VoteRule, cluster: set<NodeId>, s: State)
    ensures Path(rule, cluster, s, [], s)
  {
  }

  lemma PathOne(rule: VoteRule, cluster: set<NodeId>, s: State, e: Event) returns (t: State)
    requires Good(cluster, s) && WellFormed(cluster, s) && Mild(cluster, s, e)
    ensures t == Next(rule, cluster, s, e) && Path(rule, cluster, s, [e], t) && Good(cluster, t) && WellFormed(cluster, t)
  {
    hide Enabled, Next, WellFormed, Good;
    t := Next(rule, cluster, s, e);
    assert [e][1..] == [];
    PathNone(rule, cluster, t);
    MildKeeps(rule, cluster, s, e);
    GoodWellFormed(cluster, t);
  }

  lemma {:induction false} PathThen(rule: VoteRule, cluster: set<NodeId>, s: State, a: seq<Event>, t: State, b: seq<Event>, u: State)
    requires Path(rule, cluster, s, a, t) && Path(rule, cluster, t, b, u)
    ensures Path(rule, cluster, s, a + b, u)
    decreases |a|
  {
    hide Enabled, Next, WellFormed;
    if a == [] {
      assert a + b == b;
    } else {
      assert (a + b)[1..] == a[1..] + b;
      PathThen(rule, cluster, Next(rule, cluster, s, a[0]), a[1..], t, b, u);
    }
  }

  lemma {:induction false} PathStaysUp(rule: VoteRule, cluster: set<NodeId>, s: State, es: seq<Event>, t: State, n: NodeId)
    requires Path(rule, cluster, s, es, t)
    ensures forall i | 0 <= i < |es| :: !Stops(es[i], n)
    decreases |es|
  {
    hide Enabled, Next, WellFormed;
    if es != [] {
      PathStaysUp(rule, cluster, Next(rule, cluster, s, es[0]), es[1..], t, n);
      forall i | 0 <= i < |es| ensures !Stops(es[i], n) {
        if i > 0 { assert es[i] == es[1..][i - 1]; }
      }
    }
  }

  // ---- the runs they extend ----

  lemma {:induction false} HistoryPrefix(rule: VoteRule, cluster: set<NodeId>, run: seq<State>, events: seq<Event>,
                                         run': seq<State>, events': seq<Event>, k: nat)
    requires IsRun(rule, cluster, run, events) && IsRun(rule, cluster, run', events')
    requires run <= run' && events <= events' && k <= |events|
    ensures HistoryAt(rule, cluster, run', events', k) == HistoryAt(rule, cluster, run, events, k)
    decreases k
  {
    hide Next, Record, Enabled;
    if k > 0 {
      HistoryPrefix(rule, cluster, run, events, run', events', k - 1);
      assert IsStep(rule, cluster, run[k - 1], events[k - 1], run[k]);
    }
  }

  lemma SafeExtends(rule: VoteRule, cluster: set<NodeId>, run: seq<State>, events: seq<Event>, e: Event)
    returns (run': seq<State>, events': seq<Event>)
    requires SafeRun(rule, cluster, run, events) && WellFormed(cluster, run[|events|]) && Mild(cluster, run[|events|], e)
    ensures SafeRun(rule, cluster, run', events') && run <= run' && events' == events + [e]
    ensures run'[|events'|] == Next(rule, cluster, run[|events|], e)
  {
    hide Next, Mild, SingleVotes, HistoryAt, VotesOnce, WellFormed;
    MildEnabled(cluster, run[|events|], e);
    run', events' := run + [Next(rule, cluster, run[|events|], e)], events + [e];
    RunSnoc(rule, cluster, run, events, e);
    SingleVotesIff(rule, cluster, run, events);
    forall k | 0 <= k < |events'| ensures OnceAt(rule, cluster, run', events', k) {
      assert IsStep(rule, cluster, run'[k], events'[k], run'[k + 1]);
      HistoryPrefix(rule, cluster, run, events, run', events', k);
      if k < |events| {
        assert OnceAt(rule, cluster, run, events, k);
      } else {
        MildVotesOnce(cluster, run[k], HistoryAt(rule, cluster, run', events', k), e);
      }
    }
    SingleVotesIff(rule, cluster, run', events');
  }

  lemma RunSnoc(rule: VoteRule, cluster: set<NodeId>, run: seq<State>, events: seq<Event>, e: Event)
    requires IsRun(rule, cluster, run, events) && WellFormed(cluster, run[|events|]) && Enabled(cluster, run[|events|], e)
    ensures IsRun(rule, cluster, run + [Next(rule, cluster, run[|events|], e)], events + [e])
  {
    hide Next, Enabled, WellFormed;
    var run', events' := run + [Next(rule, cluster, run[|events|], e)], events + [e];
    forall k | 0 <= k < |events'| ensures IsStep(rule, cluster, run'[k], events'[k], run'[k + 1]) {
      if k < |events| {
        assert IsStep(rule, cluster, run[k], events[k], run[k + 1]);
      }
    }
  }

  lemma {:induction false} PathExtends(rule: VoteRule, cluster: set<NodeId>, run: seq<State>, events: seq<Event>, es: seq<Event>, t: State)
    returns (run': seq<State>, events': seq<Event>)
    requires SafeRun(rule, cluster, run, events) && Path(rule, cluster, run[|events|], es, t)
    ensures SafeRun(rule, cluster, run', events') && run <= run' && events' == events + es && run'[|events'|] == t
    decreases |es|
  {
    hide Next, Mild, SingleVotes, WellFormed, IsStep;
    if es == [] {
      run', events' := run, events;
      assert events + es == events;
    } else {
      var run1, events1 := SafeExtends(rule, cluster, run, events, es[0]);
      assert events1 == events + [es[0]];
      run', events' := PathExtends(rule, cluster, run1, events1, es[1..], t);
      assert events + [es[0]] + es[1..] == events + es;
    }
  }

  lemma SafeIsGood(rule: VoteRule, cluster: set<NodeId>, run: seq<State>, events: seq<Event>)
    requires SafeRun(rule, cluster, run, events)
    ensures Good(cluster, run[|events|]) && WellFormed(cluster, run[|events|])
  {
    hide HistoryAt, SingleVotes, Inv, IsStep;
    InvAt(rule, cluster, run, events, |events|, |events|);
    GoodWellFormed(cluster, run[|events|]);
  }
}
