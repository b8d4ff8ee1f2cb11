/** No safe run is a dead end: with at least two nodes, from every state of every
    safe run the cluster can elect a leader, and a new command can be replicated,
    committed and delivered by every node. A single node can never lead. */
module RaftProgress {
  import opened RaftTypes
  import opened RaftNode
  import opened RaftProtocol
  import opened RaftInvariant
  import opened RaftHandlers
  import opened RaftRuns
  import opened RaftSafety
  import opened RaftDeliveries
  import opened RaftPaths
  import opened RaftCatchUp

  // ---- an election ----

  function Ask(v: NodeState, n: NodeId, p: NodeId): Message
    requires |v.log| > 0
  {
    RequestVote(n, p, v.term, |v.log| - 1, LastTerm(v.log))
  }

  // n is a candidate of its term, has asked p, and has no answer yet.
  ghost predicate Asked(s: State, n: NodeId, p: NodeId)
  {
    && n in s.nodes && s.nodes[n].role == Candidate && |s.nodes[n].log| > 0
    && Ask(s.nodes[n], n, p) in s.net && Call(s.nodes[n].term, p) in s.nodes[n].calls
  }

  // Nobody but n moved, and n kept its log.
  ghost predicate OnlyOne(cluster: set<NodeId>, s: State, n: NodeId, t: State)
  {
    && s.nodes.Keys == cluster && t.nodes.Keys == cluster && n in cluster
    && (forall q | q in cluster && q != n :: t.nodes[q] == s.nodes[q])
    && t.nodes[n].log == s.nodes[n].log
  }

  lemma Stands(rule: VoteRule, cluster: set<NodeId>, s: State, n: NodeId) returns (t: State)
    requires Good(cluster, s) && WellFormed(cluster, s) && n in cluster && s.nodes[n].role != Leader
    ensures Path(rule, cluster, s, [Timeout(n)], t) && Good(cluster, t) && WellFormed(cluster, t)
    ensures OnlyOne(cluster, s, n, t) && t.nodes[n].term == s.nodes[n].term + 1
    ensures t.nodes[n].role == Candidate && t.nodes[n].votes == 1 && forall p | p in Peers(cluster, n) :: Asked(t, n, p)
  {
    hide Good, Path;
    t := PathOne(rule, cluster, s, Timeout(n));
    forall p | p in Peers(cluster, n) ensures Asked(t, n, p) {
      assert Ask(t.nodes[n], n, p) in VoteRequests(t.nodes[n], n, Peers(cluster, n));
    }
  }

  // As often as it takes to get past term top.
  lemma {:induction false} RaisesTerm(rule: VoteRule, cluster: set<NodeId>, s: State, n: NodeId, top: nat) returns (es: seq<Event>, t: State)
    requires Good(cluster, s) && WellFormed(cluster, s) && n in cluster && s.nodes[n].role != Leader
    ensures Path(rule, cluster, s, es, t) && Good(cluster, t) && WellFormed(cluster, t)
    ensures OnlyOne(cluster, s, n, t) && t.nodes[n].term > top && t.nodes[n].term > s.nodes[n].term
    ensures t.nodes[n].role == Candidate && t.nodes[n].votes == 1 && forall p | p in Peers(cluster, n) :: Asked(t, n, p)
    decreases if s.nodes[n].term <= top then top + 1 - s.nodes[n].term else 0
  {
    hide Good, Path, Asked, WellFormed;
    var s1 := Stands(rule, cluster, s, n);
    if s1.nodes[n].term > top {
      es, t := [Timeout(n)], s1;
    } else {
      var more;
      more, t := RaisesTerm(rule, cluster, s1, n, top);
      es := [Timeout(n)] + more;
      PathThen(rule, cluster, s, [Timeout(n)], s1, more, t);
    }
  }

  // p, in an older term and with a log that n's passes against, votes for n.
  lemma GetsVote(rule: VoteRule, cluster: set<NodeId>, s: State, n: NodeId, p: NodeId) returns (es: seq<Event>, t: State)
    requires Good(cluster, s) && WellFormed(cluster, s) && n in cluster && p in Peers(cluster, n) && Asked(s, n, p)
    requires s.nodes[p].term < s.nodes[n].term && Passes(s.nodes[n].log, s.nodes[p].log)
    ensures Path(rule, cluster, s, es, t) && Good(cluster, t) && WellFormed(cluster, t) && s.net <= t.net
    ensures var v := s.nodes[n];
            && t.nodes[n] == OnVoteReply(v, Peers(cluster, n), p, v.term, v.term, true)
            && (forall q | q in cluster && q != n && q != p :: t.nodes[q] == s.nodes[q])
            && t.nodes[p].log == s.nodes[p].log && t.nodes[p].term == v.term
  {
    hide Good, Path, OnVoteReply, HandleRequestVote, Grants, Sends;
    var v, w := s.nodes[n], s.nodes[p];
    VoteIff(w, n, v.term, |v.log| - 1, LastTerm(v.log));
    var m := Ask(v, n, p);
    var s1 := PathOne(rule, cluster, s, OnMessage(p, m));
    var yes := VoteReply(p, n, v.term, v.term, true);
    assert yes in s1.net && s1.nodes[n] == v;
    t := PathOne(rule, cluster, s1, OnMessage(n, yes));
    es := [OnMessage(p, m)] + [OnMessage(n, yes)];
    PathThen(rule, cluster, s, [OnMessage(p, m)], s1, [OnMessage(n, yes)], t);
  }

  // n leads, nobody is in a later term, and no log changed since s.
  ghost predicate Leading(cluster: set<NodeId>, s: State, n: NodeId, t: State)
  {
    && s.nodes.Keys == cluster && t.nodes.Keys == cluster && n in cluster && t.nodes[n].role == Leader
    && (forall q | q in cluster :: t.nodes[q].log == s.nodes[q].log && s.nodes[q].term <= t.nodes[n].term && t.nodes[q].term <= t.nodes[n].term)
  }

  lemma {:induction false} Collects(rule: VoteRule, cluster: set<NodeId>, s: State, n: NodeId, todo: set<NodeId>)
    returns (es: seq<Event>, t: State)
    requires Good(cluster, s) && WellFormed(cluster, s) && n in cluster && todo <= Peers(cluster, n)
    requires var v := s.nodes[n];
             && v.role == Candidate && v.votes >= 1 && v.votes + |todo| == |cluster| && 2 * v.votes <= |cluster|
             && (forall p | p in todo :: Asked(s, n, p) && s.nodes[p].term < v.term && Passes(v.log, s.nodes[p].log))
             && (forall p | p in cluster :: s.nodes[p].term <= v.term)
    ensures Path(rule, cluster, s, es, t) && Good(cluster, t) && WellFormed(cluster, t) && Leading(cluster, s, n, t)
    decreases |todo|
  {
    hide Good, Path, OnVoteReply, Passes, Asked;
    var v := s.nodes[n];
    assert todo != {};
    var p :| p in todo;
    var first, s1 := GetsVote(rule, cluster, s, n, p);
    StaysAsking(v, cluster, n, p);
    assert forall q | q in cluster :: s1.nodes[q].log == s.nodes[q].log && s1.nodes[q].term <= v.term;
    if 2 * (v.votes + 1) > |cluster| {
      es, t := first, s1;
    } else {
      forall q | q in todo - {p} ensures Asked(s1, n, q) {
        StillAsked(s, n, p, s1, q);
      }
      var more;
      more, t := Collects(rule, cluster, s1, n, todo - {p});
      es := first + more;
      PathThen(rule, cluster, s, first, s1, more, t);
    }
  }

  lemma StaysAsking(v: NodeState, cluster: set<NodeId>, n: NodeId, p: NodeId)
    requires v.role == Candidate && n in cluster
    ensures var v' := OnVoteReply(v, Peers(cluster, n), p, v.term, v.term, true);
            && v'.calls == v.calls - {Call(v.term, p)} && v'.log == v.log && v'.term == v.term && v'.votes == v.votes + 1
            && v'.role == if 2 * (v.votes + 1) > |cluster| then Leader else Candidate
  {
    hide Wins;
    VoteReplyIff(v, cluster, n, p, v.term, v.term, true);
  }

  lemma StillAsked(s: State, n: NodeId, p: NodeId, t: State, q: NodeId)
    requires Asked(s, n, q) && q != p && s.net <= t.net && n in t.nodes && t.nodes[n].role == Candidate
    requires t.nodes[n].log == s.nodes[n].log && t.nodes[n].term == s.nodes[n].term
    requires t.nodes[n].calls == s.nodes[n].calls - {Call(s.nodes[n].term, p)}
    ensures Asked(t, n, q)
  {
  }

  lemma {:induction false} TopTerm(s: State, xs: set<NodeId>) returns (top: nat)
    requires xs <= s.nodes.Keys
    ensures forall p | p in xs :: s.nodes[p].term <= top
    decreases |xs|
  {
    if xs == {} {
      top := 0;
    } else {
      var x :| x in xs;
      top := TopTerm(s, xs - {x});
      if s.nodes[x].term > top { top := s.nodes[x].term; }
    }
  }

  // Some node's log passes against every other.
  lemma {:induction false} BestNode(cluster: set<NodeId>, s: State, xs: set<NodeId>) returns (n: NodeId)
    requires WellFormed(cluster, s) && xs <= cluster && xs != {}
    ensures n in xs && forall p | p in xs :: Passes(s.nodes[n].log, s.nodes[p].log)
    decreases |xs|
  {
    hide Passes;
    var x :| x in xs;
    PassesTotal(s.nodes[x].log, s.nodes[x].log);
    if xs == {x} {
      n := x;
    } else {
      n := BestNode(cluster, s, xs - {x});
      PassesTotal(s.nodes[n].log, s.nodes[x].log);
      if !Passes(s.nodes[n].log, s.nodes[x].log) {
        forall p | p in xs ensures Passes(s.nodes[x].log, s.nodes[p].log) {
          if p != x { PassesTransitive(s.nodes[x].log, s.nodes[n].log, s.nodes[p].log); }
        }
        n := x;
      }
    }
  }

  lemma Elects(rule: VoteRule, cluster: set<NodeId>, s: State, n: NodeId) returns (es: seq<Event>, t: State)
    requires Good(cluster, s) && WellFormed(cluster, s) && n in cluster && s.nodes[n].role != Leader && |cluster| >= 2
    requires forall p | p in cluster :: Passes(s.nodes[n].log, s.nodes[p].log)
    ensures Path(rule, cluster, s, es, t) && Good(cluster, t) && WellFormed(cluster, t) && Leading(cluster, s, n, t)
  {
    hide Good, Path, Asked, Passes;
    var top := TopTerm(s, cluster);
    var raise, s1 := RaisesTerm(rule, cluster, s, n, top);
    assert |Peers(cluster, n)| == |cluster| - 1;
    var vote;
    vote, t := Collects(rule, cluster, s1, n, Peers(cluster, n));
    es := raise + vote;
    PathThen(rule, cluster, s, raise, s1, vote, t);
  }

  // A leader that hears of a later term stands down.
  lemma StandsDown(rule: VoteRule, cluster: set<NodeId>, s: State, n: NodeId, p: NodeId) returns (es: seq<Event>, t: State)
    requires Good(cluster, s) && WellFormed(cluster, s) && n in cluster && p in Peers(cluster, n)
    requires s.nodes[n].role == Leader && s.nodes[p].term > s.nodes[n].term
    ensures Path(rule, cluster, s, es, t) && Good(cluster, t) && WellFormed(cluster, t)
    ensures OnlyOne(cluster, s, n, t) && t.nodes[n].role == Follower && t.nodes[n].term == s.nodes[p].term
  {
    hide Good, Path, HandleAppendEntries;
    var v, w := s.nodes[n], s.nodes[p];
    CanSendFirst(cluster, s, n, p);
    var a := AppendFor(v, p);
    var s1 := PathOne(rule, cluster, s, Heartbeat(n));
    assert AppendEntries(n, p, a) in Sends(v, n, Peers(cluster, n));
    assert s1.nodes == s.nodes;
    AcceptIff(w, rule, a);
    var r := HandleAppendEntries(w, rule, a).1;
    var s2 := TakesAppend(rule, cluster, s1, n, p, a);
    assert s2.nodes == s.nodes;
    t := TakesReply(rule, cluster, s2, n, p, a, r);
    var e1, e2 := OnMessage(p, AppendEntries(n, p, a)), OnMessage(n, AppendReply(p, n, a, r));
    PathThen(rule, cluster, s, [Heartbeat(n)], s1, [e1], s2);
    PathThen(rule, cluster, s, [Heartbeat(n)] + [e1], s2, [e2], t);
    es := [Heartbeat(n)] + [e1] + [e2];
  }

  // Two nodes or more can always get a leader that nobody is ahead of.
  lemma CanLead(rule: VoteRule, cluster: set<NodeId>, s: State) returns (es: seq<Event>, t: State, n: NodeId)
    requires Good(cluster, s) && WellFormed(cluster, s) && |cluster| >= 2
    ensures Path(rule, cluster, s, es, t) && Good(cluster, t) && WellFormed(cluster, t) && Leading(cluster, s, n, t)
  {
    hide Good, Path, Passes;
    assert cluster != {};
    n := BestNode(cluster, s, cluster);
    if s.nodes[n].role != Leader {
      es, t := Elects(rule, cluster, s, n);
    } else if p :| p in cluster && s.nodes[p].term > s.nodes[n].term {
      var down, s1 := StandsDown(rule, cluster, s, n, p);
      var up;
      up, t := Elects(rule, cluster, s1, n);
      es := down + up;
      PathThen(rule, cluster, s, down, s1, up, t);
    } else {
      es, t := [], s;
      PathNone(rule, cluster, s);
    }
  }

  // ---- replication to all ----

  lemma BetweenKeeps(cluster: set<NodeId>, s: State, n: NodeId, p: NodeId, t: State, q: NodeId, known: nat)
    requires Between(cluster, s, n, p, t) && q in cluster && q != n && q != p && InStep(s, n, q, known)
    ensures InStep(t, n, q, known)
  {
  }

  lemma {:induction false} CatchesUpAll(rule: VoteRule, cluster: set<NodeId>, s: State, n: NodeId, todo: set<NodeId>, known: nat)
    returns (es: seq<Event>, t: State)
    requires Good(cluster, s) && WellFormed(cluster, s) && n in cluster && todo <= Peers(cluster, n)
    requires s.nodes[n].role == Leader && s.nodes[n].commit >= known
    requires forall p | p in Peers(cluster, n) :: s.nodes[p].term <= s.nodes[n].term && (p !in todo ==> InStep(s, n, p, known))
    ensures Path(rule, cluster, s, es, t) && Good(cluster, t) && WellFormed(cluster, t)
    ensures var v, w := s.nodes[n], t.nodes[n];
            w.role == Leader && w.term == v.term && w.log == v.log && w.commit >= v.commit
    ensures forall p | p in Peers(cluster, n) :: InStep(t, n, p, known)
    ensures todo != {} ==> CommitsLast(cluster, t, n)
    decreases |todo|
  {
    hide Good, Path, CommitsLast, Agree;
    if todo == {} {
      es, t := [], s;
      PathNone(rule, cluster, s);
    } else {
      var p :| p in todo;
      var first, s1 := CatchUpPeer(rule, cluster, s, n, p);
      forall q | q in Peers(cluster, n) && q !in todo - {p} ensures InStep(s1, n, q, known) {
        if q != p { BetweenKeeps(cluster, s, n, p, s1, q, known); }
      }
      if todo == {p} {
        es, t := first, s1;
      } else {
        assert todo - {p} != {};
        var more;
        more, t := CatchesUpAll(rule, cluster, s1, n, todo - {p}, known);
        es := first + more;
        PathThen(rule, cluster, s, first, s1, more, t);
      }
    }
  }

  // The leader takes a command, and after two rounds of messages every node has
  // it at the same index and knows that it is committed.
  lemma CanCommit(rule: VoteRule, cluster: set<NodeId>, s: State, n: NodeId, c: Command) returns (es: seq<Event>, t: State)
    requires Good(cluster, s) && WellFormed(cluster, s) && n in cluster && |cluster| >= 2 && s.nodes[n].role == Leader
    requires forall p | p in cluster :: s.nodes[p].term <= s.nodes[n].term
    ensures Path(rule, cluster, s, es, t) && Good(cluster, t) && WellFormed(cluster, t)
    ensures var i := |s.nodes[n].log|;
            forall x | x in cluster :: Holding(t, x, i, Entry(s.nodes[n].term, c)) && t.nodes[x].commit >= i
  {
    hide Good, Path, InStep, CommitsLast, Agree;
    var v, i, peers := s.nodes[n], |s.nodes[n].log|, Peers(cluster, n);
    assert |peers| == |cluster| - 1;
    assert peers != {};
    var s1 := PathOne(rule, cluster, s, ClientCommand(n, c));
    assert s1.nodes[n].log == v.log + [Entry(v.term, c)];
    var a, s2 := CatchesUpAll(rule, cluster, s1, n, peers, 0);
    AllHeld(cluster, s2, n, 0);
    var b;
    b, t := SecondRound(rule, cluster, s2, n);
    PathThen(rule, cluster, s, [ClientCommand(n, c)], s1, a, s2);
    PathThen(rule, cluster, s, [ClientCommand(n, c)] + a, s2, b, t);
    es := [ClientCommand(n, c)] + a + b;
    forall x | x in cluster ensures Holding(t, x, i, Entry(v.term, c)) && t.nodes[x].commit >= i {
      if x != n { StepHolds(t, n, x, s2.nodes[n].commit, i); }
    }
  }

  lemma SecondRound(rule: VoteRule, cluster: set<NodeId>, s: State, n: NodeId) returns (es: seq<Event>, t: State)
    requires Good(cluster, s) && WellFormed(cluster, s) && n in cluster && s.nodes[n].role == Leader
    requires forall p | p in Peers(cluster, n) :: InStep(s, n, p, 0)
    ensures Path(rule, cluster, s, es, t) && Good(cluster, t) && WellFormed(cluster, t)
    ensures t.nodes[n].log == s.nodes[n].log && t.nodes[n].commit >= s.nodes[n].commit
    ensures forall p | p in Peers(cluster, n) :: InStep(t, n, p, s.nodes[n].commit)
  {
    hide Good, Path, CommitsLast, Agree;
    es, t := CatchesUpAll(rule, cluster, s, n, Peers(cluster, n), s.nodes[n].commit);
  }

  // The node's log has the entry at index i.
  ghost predicate Holding(s: State, x: NodeId, i: nat, e: Entry)
  {
    x in s.nodes && i < |s.nodes[x].log| && s.nodes[x].log[i] == e
  }

  lemma AllHeld(cluster: set<NodeId>, s: State, n: NodeId, known: nat)
    requires n in s.nodes && s.nodes.Keys == cluster && CommitsLast(cluster, s, n)
    requires forall p | p in Peers(cluster, n) :: InStep(s, n, p, known)
    requires |s.nodes[n].log| > 0 && s.nodes[n].log[|s.nodes[n].log| - 1].term == s.nodes[n].term
    ensures s.nodes[n].commit + 1 >= |s.nodes[n].log|
  {
    hide Agree;
    forall q | q in Peers(cluster, n) ensures At(s.nodes[n].matched, q) + 1 >= |s.nodes[n].log| {
      assert InStep(s, n, q, known);
    }
  }

  lemma StepHolds(s: State, n: NodeId, x: NodeId, known: nat, i: nat)
    requires n in s.nodes && x in s.nodes && InStep(s, n, x, known) && i < |s.nodes[n].log|
    ensures Holding(s, x, i, s.nodes[n].log[i]) && s.nodes[x].commit >= known
  {
  }

  // ---- delivery to all ----

  // Only lastApplied of some nodes moved.
  ghost predicate OnlyApplied(cluster: set<NodeId>, s: State, t: State)
  {
    && s.nodes.Keys == cluster && t.nodes.Keys == cluster
    && forall q | q in cluster ::
         t.nodes[q].applied >= s.nodes[q].applied && t.nodes[q] == s.nodes[q].(applied := t.nodes[q].applied)
  }

  lemma {:induction false} DeliversTo(rule: VoteRule, cluster: set<NodeId>, s: State, x: NodeId, i: nat) returns (es: seq<Event>, t: State)
    requires Good(cluster, s) && WellFormed(cluster, s) && x in cluster && s.nodes[x].commit >= i
    ensures Path(rule, cluster, s, es, t) && Good(cluster, t) && WellFormed(cluster, t)
    ensures OnlyApplied(cluster, s, t) && t.nodes[x].applied >= i
    decreases if s.nodes[x].applied < i then i - s.nodes[x].applied else 0
  {
    hide Good, Path;
    if s.nodes[x].applied >= i {
      es, t := [], s;
      PathNone(rule, cluster, s);
    } else {
      CommitInLog(cluster, s, x);
      var s1 := PathOne(rule, cluster, s, Deliver(x));
      var more;
      more, t := DeliversTo(rule, cluster, s1, x, i);
      es := [Deliver(x)] + more;
      PathThen(rule, cluster, s, [Deliver(x)], s1, more, t);
    }
  }

  lemma {:induction false} DeliversAll(rule: VoteRule, cluster: set<NodeId>, s: State, todo: set<NodeId>, i: nat) returns (es: seq<Event>, t: State)
    requires Good(cluster, s) && WellFormed(cluster, s) && todo <= cluster && forall x | x in cluster :: s.nodes[x].commit >= i
    requires forall x | x in cluster && x !in todo :: s.nodes[x].applied >= i
    ensures Path(rule, cluster, s, es, t) && Good(cluster, t) && WellFormed(cluster, t)
    ensures OnlyApplied(cluster, s, t) && forall x | x in cluster :: t.nodes[x].applied >= i
    decreases |todo|
  {
    hide Good, Path;
    if todo == {} {
      es, t := [], s;
      PathNone(rule, cluster, s);
    } else {
      var x :| x in todo;
      var first, s1 := DeliversTo(rule, cluster, s, x, i);
      var more;
      more, t := DeliversAll(rule, cluster, s1, todo - {x}, i);
      es := first + more;
      PathThen(rule, cluster, s, first, s1, more, t);
    }
  }

  // ---- the theorem ----

  // Everything already applied lies below the log of a leader nobody is ahead of.
  lemma AppliedBelow(rule: VoteRule, cluster: set<NodeId>, run: seq<State>, events: seq<Event>, es: seq<Event>, t: State, n: NodeId)
    requires SafeRun(rule, cluster, run, events) && Path(rule, cluster, run[|events|], es, t)
    requires Leading(cluster, run[|events|], n, t)
    ensures forall x | x in cluster :: run[|events|].nodes[x].applied < |t.nodes[n].log|
  {
    hide SingleVotes, Path, IsStep, Agree;
    var run', events' := PathExtends(rule, cluster, run, events, es, t);
    forall x | x in cluster ensures run[|events|].nodes[x].applied < |t.nodes[n].log| {
      AppliedInside(rule, cluster, run, events, |events|, x);
      LeaderCompleteness(rule, cluster, run', events', |events|, |events'|, x, n);
      AgreeLength(run[|events|].nodes[x].log, t.nodes[n].log, run[|events|].nodes[x].commit + 1);
    }
  }

  lemma AgreeLength(a: seq<Entry>, b: seq<Entry>, k: nat)
    requires Agree(a, b, k)
    ensures k <= |a| && k <= |b|
  {
  }

  lemma {:induction false} CommandsInclude(log: seq<Entry>, a: nat, b: nat, i: nat)
    requires a < i <= b < |log| && log[i].command != Nil
    ensures (i, log[i].command) in Commands(log, a, b)
    decreases b
  {
    if i < b {
      CommandsInclude(log, a, b - 1, i);
    }
  }

  // Every safe run of two nodes or more, in whatever state it left the cluster,
  // can go on, without a crash, so that every node delivers a new command c at
  // one and the same index.
  lemma CanProgress(rule: VoteRule, cluster: set<NodeId>, run: seq<State>, events: seq<Event>, c: Command)
    returns (run': seq<State>, events': seq<Event>, i: nat)
    requires SafeRun(rule, cluster, run, events) && |cluster| >= 2 && c != Nil
    ensures SafeRun(rule, cluster, run', events') && run <= run' && events <= events'
    ensures forall x | x in cluster :: (i, c) in Deliveries(rule, cluster, run', events', x, |events|, |events'|)
  {
    hide SingleVotes, Path, Good, IsStep, Deliveries, Stops, HistoryAt;
    var s := run[|events|];
    SafeIsGood(rule, cluster, run, events);
    var lead, s1, n := CanLead(rule, cluster, s);
    AppliedBelow(rule, cluster, run, events, lead, s1, n);
    i := |s1.nodes[n].log|;
    var commit, s2 := CanCommit(rule, cluster, s1, n, c);
    var deliver, t := DeliversAll(rule, cluster, s2, cluster, i);
    PathThen(rule, cluster, s, lead, s1, commit, s2);
    PathThen(rule, cluster, s, lead + commit, s2, deliver, t);
    var es := lead + commit + deliver;
    run', events' := PathExtends(rule, cluster, run, events, es, t);
    forall x | x in cluster ensures (i, c) in Deliveries(rule, cluster, run', events', x, |events|, |events'|) {
      PathStaysUp(rule, cluster, s, es, t, x);
      forall k | |events| <= k < |events'| ensures !Stops(events'[k], x) {
        assert events'[k] == es[k - |events|];
      }
      DeliversInOrder(rule, cluster, run', events', |events|, |events'|, x);
      CommandsInclude(t.nodes[x].log, s.nodes[x].applied, t.nodes[x].applied, i);
    }
  }

  // ---- one node alone ----

  ghost predicate Alone(v: NodeState)
  {
    v.role != Leader && v.calls == {}
  }

  lemma AloneTurn(rule: VoteRule, cluster: set<NodeId>, s: State, e: Event)
    requires WellFormed(cluster, s) && Enabled(cluster, s, e) && cluster == {e.n} && Alone(s.nodes[e.n])
    ensures Alone(Turn(rule, cluster, s, e).0)
  {
    hide Sends, VoteRequests, Grants, OnVoteReply, HandleAppendEntries, OnAppendReply, Propose;
    var v := s.nodes[e.n];
    assert Peers(cluster, e.n) == {};
    match e {
      case OnMessage(_, m) =>
        if m.AppendEntries? {
          AloneAppend(rule, v, m.args);
        } else if m.AppendReply? {
          AloneReply(v, Peers(cluster, e.n), m.from, m.args, m.result);
        }
      case ClientCommand(n, c) => assert Propose(v, n, c) == v by { AlonePropose(v, n, c); }
      case _ =>
    }
  }

  lemma AloneAppend(rule: VoteRule, v: NodeState, a: AppendArgs)
    requires Alone(v)
    ensures Alone(HandleAppendEntries(v, rule, a).0)
  {
    hide Merge, Rejection, CommitAfter;
  }

  lemma AloneReply(v: NodeState, peers: set<NodeId>, p: NodeId, a: AppendArgs, r: AppendResult)
    requires Alone(v) && |v.log| > 0
    ensures Alone(OnAppendReply(v, peers, p, a, r))
  {
    hide CommitFrom, BackedUp;
  }

  lemma AlonePropose(v: NodeState, n: NodeId, c: Command)
    requires v.role != Leader && |v.log| > 0
    ensures Propose(v, n, c) == v
  {
  }

  // The own vote is never counted against the majority, only replies are: a
  // cluster of one never has a leader.
  lemma {:induction false} LoneNodeNeverLeads(rule: VoteRule, n: NodeId, run: seq<State>, events: seq<Event>, k: nat)
    requires IsRun(rule, {n}, run, events) && k <= |events|
    ensures n in run[k].nodes && run[k].nodes[n].role != Leader && run[k].nodes[n].calls == {}
    decreases k
  {
    hide Turn;
    if k > 0 {
      LoneNodeNeverLeads(rule, n, run, events, k - 1);
      assert IsStep(rule, {n}, run[k - 1], events[k - 1], run[k]);
      AloneTurn(rule, {n}, run[k - 1], events[k - 1]);
    }
  }
}
