/** What each handler answers and does, in both directions: who gets a vote, who
    wins, what a follower takes over and commits, and where a leader goes on. */
module RaftHandlers {
  import opened Options
  import opened RaftTypes
  import opened RaftNode
  import opened RaftProtocol
  import opened RaftInvariant
  import opened RaftGrowth
  import opened RaftAppend
  import opened RaftLeader

  // ---- who gets a vote ----

  // The candidate with log a passes the test of the voter with log b.
  ghost predicate Passes(a: seq<Entry>, b: seq<Entry>)
    requires |a| > 0 && |b| > 0
  {
    UpToDate(LastTerm(a), |a| - 1, b)
  }

  // Of any two logs one passes against the other.
  lemma PassesTotal(a: seq<Entry>, b: seq<Entry>)
    requires |a| > 0 && |b| > 0
    ensures Passes(a, a) && (Passes(a, b) || Passes(b, a))
  {
  }

  lemma PassesTransitive(a: seq<Entry>, b: seq<Entry>, c: seq<Entry>)
    requires |a| > 0 && |b| > 0 && |c| > 0 && Passes(a, b) && Passes(b, c)
    ensures Passes(a, c)
  {
  }

  // A log that went on, in the same term or a later one, passes against what
  // it was, and not the other way round.
  lemma LongerPasses(a: seq<Entry>, e: Entry)
    requires |a| > 0 && e.term >= a[|a| - 1].term
    ensures Passes(a + [e], a) && !Passes(a, a + [e])
  {
  }

  // A vote is granted exactly to a candidate whose last (term, index) is not
  // below the voter's, in a newer term, or in this one if the vote is free or
  // already the candidate's. A newer term is adopted whether it is or not.
  lemma VoteIff(v: NodeState, cand: NodeId, t: nat, lastIndex: nat, lastTerm: nat)
    requires |v.log| > 0
    ensures var mine := v.log[|v.log| - 1].term;
            var better := lastTerm > mine || (lastTerm == mine && lastIndex + 1 >= |v.log|);
            var granted := better && (t > v.term || (t == v.term && (v.vote == None || v.vote == Some(cand))));
            var v' := HandleRequestVote(v, cand, t, lastIndex, lastTerm);
            && (Grants(v, cand, t, lastIndex, lastTerm) <==> granted)
            && v'.term == (if t > v.term then t else v.term)
            && v'.vote == (if granted then Some(cand) else if t > v.term then None else v.vote)
            && v'.role == (if t > v.term then Follower else v.role)
            && v'.log == v.log && v'.commit == v.commit && v'.applied == v.applied
  {
  }

  // ---- who wins ----

  // Enough votes are more than half of the cluster, and no more than that.
  lemma WinsIff(votes: nat, cluster: set<NodeId>, n: NodeId)
    requires n in cluster
    ensures Wins(votes, Peers(cluster, n)) <==> 2 * votes > |cluster|
  {
    assert |Peers(cluster, n)| == |cluster| - 1;
  }

  // A reply counts exactly when it grants a vote to a candidate still in the
  // term of the call. With it the candidate leads as soon as more than half of
  // the cluster has voted for it, and starts every peer at the end of its log.
  lemma VoteReplyIff(v: NodeState, cluster: set<NodeId>, n: NodeId, p: NodeId, callTerm: nat, t: nat, granted: bool)
    requires n in cluster
    ensures var v' := OnVoteReply(v, Peers(cluster, n), p, callTerm, t, granted);
            var counts := t <= v.term && v.role == Candidate && v.term == callTerm && granted;
            && v'.votes == (if counts then v.votes + 1 else v.votes)
            && v'.term == (if t > v.term then t else v.term)
            && (v.role != Leader ==> (v'.role == Leader <==> counts && 2 * (v.votes + 1) > |cluster|))
            && (v.role != Leader && v'.role == Leader ==>
                  forall q | q in cluster && q != n :: At(v'.next, q) == |v.log| && At(v'.matched, q) == 0)
            && (v.role == Candidate && t <= v.term ==> v'.role == Candidate || v'.role == Leader)
            && (t > v.term ==> v'.role == Follower && v'.vote == None)
            && v'.log == v.log
  {
    hide Wins;
    WinsIff(v.votes + 1, cluster, n);
  }

  // ---- what a follower takes over ----

  // An AppendEntries is accepted exactly if its term is not old and the follower
  // holds the entry before it. Then the commit index is the larger of the old
  // one and what both the leader and the message vouch for, except for a message
  // that ends below the old one and claims a commit above it; that one would
  // take the commit index back. No leader sends it (RaftSafety.CommitLearned).
  lemma AcceptIff(v: NodeState, rule: VoteRule, a: AppendArgs)
    ensures var (v', r) := HandleAppendEntries(v, rule, a);
            var holds := a.prevIndex < |v.log| && v.log[a.prevIndex].term == a.prevTerm;
            var last := a.prevIndex + |a.entries|;
            var vouched := if a.leaderCommit < last then a.leaderCommit else last;
            && (r.success <==> a.term >= v.term && holds)
            && r.term == (if a.term > v.term then a.term else v.term)
            && (r.success && !(last < v.commit < a.leaderCommit) ==> v'.commit == if vouched > v.commit then vouched else v.commit)
            && (r.success && last < v.commit < a.leaderCommit ==> v'.commit == last)
            && (!r.success ==> v'.commit == v.commit && v'.log == v.log)
            && (a.term >= v.term ==> v'.role == Follower && v'.term == a.term)
            && (a.term < v.term ==> v' == v)
  {
    hide Merge, FirstOfRun;
  }

  // A rejection that is not about the term tells how long the log is, if it is
  // too short, and otherwise the term in the way and where its run starts.
  lemma RejectionNames(v: NodeState, rule: VoteRule, a: AppendArgs)
    requires a.term >= v.term && !HandleAppendEntries(v, rule, a).1.success
    ensures var r := HandleAppendEntries(v, rule, a).1;
            if a.prevIndex >= |v.log| then r.conflictTerm == 0 && r.conflictIndex == |v.log|
            else
              && r.conflictTerm == v.log[a.prevIndex].term != a.prevTerm
              && r.conflictIndex <= a.prevIndex
              && (forall i | r.conflictIndex <= i <= a.prevIndex :: v.log[i].term == r.conflictTerm)
              && (r.conflictIndex <= 1 || v.log[r.conflictIndex - 1].term != r.conflictTerm)
              && (a.prevIndex > 0 ==> r.conflictIndex > 0)
  {
    hide FirstOfRun, Merge;
    if 0 < a.prevIndex < |v.log| {
      FirstOfRunShape(v.log, a.prevIndex);
    } else if a.prevIndex == 0 < |v.log| {
      RunAtZero(v.log);
    }
  }

  lemma RunAtZero(log: seq<Entry>)
    requires |log| > 0
    ensures FirstOfRun(log, 0) == 0
  {
  }

  // ---- where a leader goes on ----

  // The last entry of a term in a log, by its definition.
  ghost predicate LastAt(log: seq<Entry>, t: nat, i: nat)
  {
    1 <= i < |log| && log[i].term == t && forall j | i < j < |log| :: log[j].term != t
  }

  // A newer term makes the leader stand down, a reply of another term is
  // ignored. A success raises matchIndex to the end of what was sent; a
  // rejection moves nextIndex behind the leader's last entry of ConflictTerm,
  // and without one to ConflictIndex.
  lemma ReplyIff(v: NodeState, peers: set<NodeId>, p: NodeId, a: AppendArgs, r: AppendResult)
    requires |v.log| > 0
    ensures var v' := OnAppendReply(v, peers, p, a, r);
            var acts := r.term <= v.term && v.role == Leader && v.term == a.term;
            var last := a.prevIndex + |a.entries|;
            && (r.term > v.term ==> v'.role == Follower && v'.term == r.term && v'.vote == None)
            && (r.term <= v.term && !acts ==> v' == v)
            && (acts && r.success ==>
                  && At(v'.matched, p) == (if last > At(v.matched, p) then last else At(v.matched, p))
                  && At(v'.next, p) == At(v'.matched, p) + 1)
            && (acts && !r.success ==> v'.matched == v.matched && v'.commit == v.commit)
            && (acts && !r.success && r.conflictTerm != 0 ==>
                  && (forall i: nat | LastAt(v.log, r.conflictTerm, i) :: At(v'.next, p) == i + 1)
                  && ((forall i | 1 <= i < |v.log| :: v.log[i].term != r.conflictTerm) ==> At(v'.next, p) == r.conflictIndex))
            && (acts && !r.success && r.conflictTerm == 0 && r.conflictIndex > 0 ==> At(v'.next, p) == r.conflictIndex)
            && (v'.role == v.role ==> forall q | q != p :: At(v'.next, q) == At(v.next, q) && At(v'.matched, q) == At(v.matched, q))
  {
    hide CommitFrom, LastOfTerm;
    LastOfTermShape(v.log, r.conflictTerm, |v.log| - 1);
  }

  // Whatever of its own term more than half of the cluster is known to hold, the
  // leader commits with the reply that tells it so.
  lemma MajorityCommits(v: NodeState, cluster: set<NodeId>, n: NodeId, p: NodeId, a: AppendArgs, r: AppendResult, q: set<NodeId>, i: nat)
    requires n in cluster && p in Peers(cluster, n) && |v.log| > 0
    requires v.role == Leader && v.term == a.term && r.term <= v.term && r.success
    requires Majority(cluster, q) && i < |v.log| && v.log[i].term == v.term
    requires var v' := OnAppendReply(v, Peers(cluster, n), p, a, r);
             forall x | x in q && x != n :: At(v'.matched, x) >= i
    ensures OnAppendReply(v, Peers(cluster, n), p, a, r).commit >= i
  {
    hide CommitFrom, Replicated, Majority;
    var peers := Peers(cluster, n);
    var last := a.prevIndex + |a.entries|;
    var m := if last > At(v.matched, p) then last else At(v.matched, p);
    var v1 := v.(matched := v.matched[p := m], next := v.next[p := m + 1]);
    CommitFromShape(v1, peers, |v.log| - 1);
    MajorityReplicates(v1, cluster, n, q, i);
  }

  lemma MajorityReplicates(v: NodeState, cluster: set<NodeId>, n: NodeId, q: set<NodeId>, i: nat)
    requires n in cluster && Majority(cluster, q) && forall x | x in q && x != n :: At(v.matched, x) >= i
    ensures Replicated(v, Peers(cluster, n), i)
  {
    var peers := Peers(cluster, n);
    assert |peers| == |cluster| - 1;
    var holders := Holders(v, peers, i);
    SubsetSize(q, holders + {n});
  }
}
