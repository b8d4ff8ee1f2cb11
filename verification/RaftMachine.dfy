/** The node as the program has it: an object whose fields the handlers update.
    Each method is one mutex-held region and does what RaftNode says it does. */
module RaftMachine {
  import opened Options
  import opened RaftTypes
  import N = RaftNode

  class Node {
    const id: NodeId
    const peers: seq<NodeId>

    var currentTerm: nat
    var votedFor: Option<NodeId>
    var log: seq<Entry>
    var commitIndex: nat
    var lastApplied: nat
    var role: Role
    var nextIndex: map<NodeId, nat>
    var matchIndex: map<NodeId, nat>
    var votes: nat
    var calls: set<Call>
    var disk: Durable

    ghost predicate Valid()
      reads this
    {
      |log| > 0 && id !in peers && forall i, j | 0 <= i < j < |peers| :: peers[i] != peers[j]
    }

    function Abs(): NodeState
      reads this
    {
      NodeState(currentTerm, votedFor, log, commitIndex, lastApplied, role,
                nextIndex, matchIndex, votes, calls, disk)
    }

    ghost function PeerSet(): set<NodeId>
    {
      set p | p in peers
    }

    // NewNode: restore the state file, start as a follower.
    constructor (id: NodeId, peers: seq<NodeId>, d: Durable)
      requires id !in peers && forall i, j | 0 <= i < j < |peers| :: peers[i] != peers[j]
      ensures Valid() && this.id == id && this.peers == peers && Abs() == N.Restart(d)
    {
      this.id, this.peers := id, peers;
      currentTerm, votedFor := d.term, d.vote;
      log := if d.log == [] then [SENTINEL] else d.log;
      commitIndex, lastApplied, role := 0, 0, Follower;
      nextIndex, matchIndex := map[], map[];
      votes, calls := 0, {};
      disk := d;
    }

    method Persist()
      modifies this`disk
      ensures Abs() == N.Persist(old(Abs()))
    {
      disk := Durable(currentTerm, votedFor, log);
    }

    method BecomeFollower(t: nat)
      modifies this
      ensures Abs() == N.BecomeFollower(old(Abs()), t)
    {
      role := Follower;
      currentTerm := t;
      votedFor := None;
      Persist();
    }

    method StartElection() returns (out: set<Message>)
      requires Valid()
      modifies this
      ensures Valid() && Abs() == N.StartElection(old(Abs()), id, PeerSet())
      ensures out == N.VoteRequests(Abs(), id, PeerSet())
    {
      hide PeerSet;
      currentTerm := currentTerm + 1;
      role := Candidate;
      votedFor := Some(id);
      votes := 1;
      Persist();
      var started;
      started, out := StartCalls(currentTerm, |log| - 1, N.LastTerm(log));
      calls := calls + started;
    }

    // One RequestVote call to each peer.
    method StartCalls(t: nat, lastIndex: nat, lastTerm: nat) returns (started: set<Call>, out: set<Message>)
      ensures started == set p | p in PeerSet() :: Call(t, p)
      ensures out == set p | p in PeerSet() :: RequestVote(id, p, t, lastIndex, lastTerm)
    {
      started, out := {}, {};
      for i := 0 to |peers|
        invariant forall c :: c in started <==> c.term == t && c.peer in peers[..i]
        invariant forall m :: m in out <==> m.RequestVote? && m.to in peers[..i] && m == RequestVote(id, m.to, t, lastIndex, lastTerm)
      {
        assert peers[..i + 1] == peers[..i] + [peers[i]];
        started := started + {Call(t, peers[i])};
        out := out + {RequestVote(id, peers[i], t, lastIndex, lastTerm)};
      }
      assert peers[..|peers|] == peers;
      assert forall c | c in started :: c == Call(t, c.peer);
    }

    method HandleRequestVote(cand: NodeId, t: nat, lastIndex: nat, lastTerm: nat) returns (replyTerm: nat, granted: bool)
      requires Valid()
      modifies this
      ensures Valid() && Abs() == N.HandleRequestVote(old(Abs()), cand, t, lastIndex, lastTerm)
      ensures granted == N.Grants(old(Abs()), cand, t, lastIndex, lastTerm) && replyTerm == currentTerm
    {
      if t < currentTerm {
        return currentTerm, false;
      }
      if t > currentTerm {
        BecomeFollower(t);
      }
      var logOK := N.UpToDate(lastTerm, lastIndex, log);
      var canVote := votedFor == None || votedFor == Some(cand);
      if logOK && canVote {
        votedFor := Some(cand);
        Persist();
        return currentTerm, true;
      }
      return currentTerm, false;
    }

    method BecomeLeader() returns (out: set<Message>)
      requires Valid()
      modifies this`role, this`nextIndex, this`matchIndex
      ensures Valid() && Abs() == N.BecomeLeader(old(Abs()), PeerSet())
      ensures out == N.Sends(Abs(), id, PeerSet())
    {
      role := Leader;
      nextIndex := AllPeers(|log|);
      matchIndex := AllPeers(0);
      out := Broadcast();
    }

    method AllPeers(value: nat) returns (m: map<NodeId, nat>)
      ensures m == map p | p in PeerSet() :: value
    {
      m := map[];
      for i := 0 to |peers|
        invariant forall p :: p in m <==> p in peers[..i]
        invariant forall p | p in m :: m[p] == value
      {
        assert peers[..i + 1] == peers[..i] + [peers[i]];
        m := m[peers[i] := value];
      }
      assert peers[..|peers|] == peers;
    }

    method OnVoteReply(peer: NodeId, callTerm: nat, replyTerm: nat, granted: bool) returns (out: set<Message>)
      requires Valid()
      modifies this
      ensures Valid() && Abs() == N.OnVoteReply(old(Abs()), PeerSet(), peer, callTerm, replyTerm, granted)
      ensures out == if old(role) != Leader && role == Leader then N.Sends(Abs(), id, PeerSet()) else {}
    {
      out := {};
      calls := calls - {Call(callTerm, peer)};
      if replyTerm > currentTerm {
        BecomeFollower(replyTerm);
        return;
      }
      if role != Candidate || currentTerm != callTerm {
        return;
      }
      if granted {
        votes := votes + 1;
        PeerCount();
        if votes >= (|peers| + 1) / 2 + 1 {
          out := BecomeLeader();
        }
      }
    }

    // Distinct peers: counting the list counts the set.
    lemma PeerCount()
      requires Valid()
      ensures |PeerSet()| == |peers|
    {
      DistinctSize(peers);
      assert PeerSet() == Members(peers);
    }

    method SendAppendEntries(peer: NodeId) returns (m: Message)
      requires Valid() && N.CanSend(Abs(), peer)
      ensures m == AppendEntries(id, peer, N.AppendFor(Abs(), peer))
    {
      var nextIdx := N.At(nextIndex, peer);
      if nextIdx < 1 {
        nextIdx := 1;
      }
      var prevLogIndex := nextIdx - 1;
      var entries := [];
      if |log| > nextIdx {
        entries := log[nextIdx..];
      }
      m := AppendEntries(id, peer, AppendArgs(currentTerm, prevLogIndex, log[prevLogIndex].term, entries, commitIndex));
    }

    method Broadcast() returns (out: set<Message>)
      requires Valid() && forall p | p in peers :: N.CanSend(Abs(), p)
      ensures out == N.Sends(Abs(), id, PeerSet())
    {
      out := {};
      for i := 0 to |peers|
        invariant out == set p | p in peers[..i] && N.CanSend(Abs(), p) :: AppendEntries(id, p, N.AppendFor(Abs(), p))
      {
        assert peers[..i + 1] == peers[..i] + [peers[i]];
        var m := SendAppendEntries(peers[i]);
        out := out + {m};
      }
      assert peers[..|peers|] == peers;
    }

    method MaybeAdvanceCommitIndex()
      requires Valid()
      modifies this`commitIndex
      ensures Valid() && Abs() == N.AdvanceCommit(old(Abs()), PeerSet())
    {
      var idx := |log| - 1;
      while idx > commitIndex
        invariant -1 <= idx < |log| && commitIndex == old(commitIndex)
        invariant idx >= 0
        invariant N.CommitFrom(Abs(), PeerSet(), idx) == N.CommitFrom(old(Abs()), PeerSet(), |log| - 1)
      {
        if log[idx].term == currentTerm {
          var count := CountReplicas(idx);
          if count * 2 > |peers| + 1 {
            commitIndex := idx;
            return;
          }
        }
        idx := idx - 1;
      }
    }

    method CountReplicas(idx: nat) returns (count: nat)
      requires Valid()
      ensures count == 1 + |N.Holders(Abs(), PeerSet(), idx)| && |peers| == |PeerSet()|
    {
      count := 1;
      for i := 0 to |peers|
        invariant count == 1 + |Reached(matchIndex, peers[..i], idx)|
      {
        assert peers[..i + 1] == peers[..i] + [peers[i]];
        ReachedSnoc(matchIndex, peers[..i], peers[i], idx);
        if N.At(matchIndex, peers[i]) >= idx {
          count := count + 1;
        }
      }
      assert peers[..|peers|] == peers;
      assert Reached(matchIndex, peers, idx) == N.Holders(Abs(), PeerSet(), idx);
      PeerCount();
    }

    method OnAppendReply(peer: NodeId, a: AppendArgs, r: AppendResult) returns (out: set<Message>)
      requires Valid()
      requires N.Relevant(Abs(), a, r) && !r.success ==> N.BackedUp(Abs(), peer, r) <= |log|
      modifies this
      ensures Valid() && Abs() == N.OnAppendReply(old(Abs()), PeerSet(), peer, a, r)
      ensures out == if N.Relevant(old(Abs()), a, r) && !r.success then N.Sends(Abs(), id, {peer}) else {}
    {
      out := {};
      if r.term > currentTerm {
        BecomeFollower(r.term);
        return;
      }
      if role != Leader || currentTerm != a.term {
        return;
      }
      if r.success {
        var newMatch := a.prevIndex + |a.entries|;
        var m := N.At(matchIndex, peer);
        if newMatch > m {
          m := newMatch;
        }
        matchIndex := matchIndex[peer := m];
        nextIndex := nextIndex[peer := m + 1];
        MaybeAdvanceCommitIndex();
      } else {
        var next := N.At(nextIndex, peer);
        if r.conflictTerm != 0 {
          var found := FindLast(r.conflictTerm);
          next := if found > 0 then found + 1 else r.conflictIndex;
        } else if r.conflictIndex > 0 {
          next := r.conflictIndex;
        } else if next > 1 {
          next := next - 1;
        }
        nextIndex := nextIndex[peer := next];
        var m := SendAppendEntries(peer);
        out := {m};
        assert out == N.Sends(Abs(), id, {peer});
      }
    }

    // The last entry with the given term, or 0.
    method FindLast(t: nat) returns (found: nat)
      requires Valid()
      ensures found == N.LastOfTerm(log, t, |log| - 1)
    {
      found := 0;
      var i := |log| - 1;
      while i > 0
        invariant 0 <= i < |log|
        invariant N.LastOfTerm(log, t, i) == N.LastOfTerm(log, t, |log| - 1)
      {
        if log[i].term == t {
          found := i;
          return;
        }
        i := i - 1;
      }
    }

    method Propose(c: Command) returns (idx: nat, term: nat, isLeader: bool, out: set<Message>)
      requires Valid() && (role == Leader ==> forall p | p in peers :: N.CanSend(Abs(), p))
      modifies this
      ensures Valid() && Abs() == N.Propose(old(Abs()), id, c)
      ensures isLeader == (old(role) == Leader) && term == currentTerm
      ensures isLeader ==> idx == |old(log)| && out == N.Sends(Abs(), id, PeerSet())
      ensures !isLeader ==> idx == 0 && out == {}
    {
      if role != Leader {
        return 0, currentTerm, false, {};
      }
      log := log + [Entry(currentTerm, c)];
      idx := |log| - 1;
      matchIndex := matchIndex[id := idx];
      Persist();
      out := Broadcast();
      term, isLeader := currentTerm, true;
    }

    method HandleAppendEntries(a: AppendArgs) returns (r: AppendResult)
      requires Valid()
      modifies this
      ensures Valid() && (Abs(), r) == N.HandleAppendEntries(old(Abs()), AsWritten, a)
    {
      if a.term < currentTerm {
        return AppendResult(currentTerm, false, 0, 0);
      }
      BecomeFollower(a.term);
      if a.prevIndex >= |log| {
        return AppendResult(currentTerm, false, |log|, 0);
      }
      if log[a.prevIndex].term != a.prevTerm {
        var conflictIndex := a.prevIndex;
        while conflictIndex > 1 && log[conflictIndex - 1].term == log[a.prevIndex].term
          invariant 0 <= conflictIndex <= a.prevIndex
          invariant log[conflictIndex].term == log[a.prevIndex].term
          invariant N.FirstOfRun(log, conflictIndex) == N.FirstOfRun(log, a.prevIndex)
        {
          conflictIndex := conflictIndex - 1;
        }
        return AppendResult(currentTerm, false, conflictIndex, log[a.prevIndex].term);
      }
      AppendNew(a.prevIndex, a.entries);
      if |a.entries| > 0 {
        Persist();
      }
      if a.leaderCommit > commitIndex {
        var lastNew := a.prevIndex + |a.entries|;
        commitIndex := if a.leaderCommit < lastNew then a.leaderCommit else lastNew;
      }
      return AppendResult(currentTerm, true, 0, 0);
    }

    // The append loop: keep what is already there, cut at the first conflict.
    method AppendNew(prev: nat, entries: seq<Entry>)
      requires Valid() && prev < |log|
      modifies this`log
      ensures Valid() && log == N.Merge(old(log), prev + 1, entries)
    {
      for i := 0 to |entries|
        modifies this`log
        invariant prev + 1 + i <= |log|
        invariant N.Merge(log, prev + 1 + i, entries[i..]) == N.Merge(old(log), prev + 1, entries)
      {
        var idx := prev + i + 1;
        assert entries[i..][0] == entries[i] && entries[i..][1..] == entries[i + 1..];
        if idx < |log| {
          if log[idx].term != entries[i].term {
            log := log[..idx];
          } else {
            continue;
          }
        }
        assert log[..idx] == log;
        log := log + [entries[i]];
      }
    }

    // One turn of the apply loop.
    method ApplyNext() returns (d: Option<(nat, Command)>)
      requires Valid() && lastApplied < commitIndex < |log|
      modifies this`lastApplied
      ensures Valid() && Abs() == N.Apply(old(Abs()))
      ensures d == N.Handed(old(Abs()))
      ensures lastApplied == old(lastApplied) + 1
    {
      lastApplied := lastApplied + 1;
      var entry := log[lastApplied];
      d := if entry.command != Nil then Some((lastApplied, entry.command)) else None;
    }
  }

  ghost function Members(s: seq<NodeId>): set<NodeId>
  {
    set p | p in s
  }

  lemma {:induction false} DistinctSize(s: seq<NodeId>)
    requires forall i, j | 0 <= i < j < |s| :: s[i] != s[j]
    ensures |Members(s)| == |s|
  {
    if s != [] {
      var t, x := s[..|s| - 1], s[|s| - 1];
      DistinctSize(t);
      MembersSnoc(t, x);
      assert s == t + [x];
      assert x !in t;
    }
  }

  lemma MembersSnoc(t: seq<NodeId>, x: NodeId)
    ensures Members(t + [x]) == Members(t) + {x}
  {
  }

  // Those of the listed peers whose matchIndex has reached idx.
  ghost function Reached(m: map<NodeId, nat>, s: seq<NodeId>, idx: nat): set<NodeId>
  {
    set p | p in s && N.At(m, p) >= idx
  }

  lemma ReachedSnoc(m: map<NodeId, nat>, t: seq<NodeId>, x: NodeId, idx: nat)
    requires x !in t
    ensures |Reached(m, t + [x], idx)| == |Reached(m, t, idx)| + if N.At(m, x) >= idx then 1 else 0
  {
    if N.At(m, x) >= idx {
      assert Reached(m, t + [x], idx) == Reached(m, t, idx) + {x};
    } else {
      assert Reached(m, t + [x], idx) == Reached(m, t, idx);
    }
  }
}
