/** The inductive invariant of the protocol, in pieces that speak of the
    history alone, of one node, or of one message. */
module RaftInvariant {
  import opened RaftTypes
  import opened RaftNode
  import opened RaftProtocol
  import opened RaftHistory

  // ---- logs ----

  // The first k entries of the two logs exist and are the same.
  ghost predicate Agree(a: seq<Entry>, b: seq<Entry>, k: nat)
  {
    k <= |a| && k <= |b| && forall j | 0 <= j < k :: a[j] == b[j]
  }

  // An entry of term t sits where the leader of t put it, below the same entries.
  ghost predicate AnchoredAt(h: History, log: seq<Entry>, i: nat)
    requires i < |log|
  {
    log[i].term in h.reigns && Agree(log, h.reigns[log[i].term].log, i + 1)
  }

  ghost predicate Anchored(h: History, log: seq<Entry>)
  {
    && |log| > 0 && log[0] == SENTINEL
    && forall i | 1 <= i < |log| :: AnchoredAt(h, log, i)
  }

  ghost predicate TermsUpTo(log: seq<Entry>, t: nat)
  {
    forall i | 0 <= i < |log| :: log[i].term <= t
  }

  // ---- majorities ----

  ghost predicate Majority(cluster: set<NodeId>, q: set<NodeId>)
  {
    q <= cluster && 2 * |q| > |cluster|
  }

  ghost function TermOf(h: History, n: NodeId): nat
  {
    if n in h.terms then h.terms[n] else 0
  }

  ghost function Acked(cluster: set<NodeId>, h: History, t: nat, i: nat): set<NodeId>
  {
    set n | n in cluster && Ack(h, n, t) >= i
  }

  // Nodes that have left term t without acknowledging index i, and so never will.
  ghost function Deaf(cluster: set<NodeId>, h: History, t: nat, i: nat): set<NodeId>
  {
    set n | n in cluster && TermOf(h, n) > t && Ack(h, n, t) < i
  }

  // The leader of term t wrote an entry of its own term at index i.
  ghost predicate HasEntry(h: History, t: nat, i: nat)
  {
    t in h.reigns && 1 <= i < |h.reigns[t].log| && h.reigns[t].log[i].term == t
  }

  // A majority acknowledged that entry in its term: it is committed.
  ghost predicate Chosen(cluster: set<NodeId>, h: History, t: nat, i: nat)
  {
    HasEntry(h, t, i) && Majority(cluster, Acked(cluster, h, t, i))
  }

  // It can no longer be committed.
  ghost predicate Blocked(cluster: set<NodeId>, h: History, t: nat, i: nat)
  {
    Majority(cluster, Deaf(cluster, h, t, i))
  }

  // The log holds entry i of term t and all below it, unless that entry is lost.
  ghost predicate Inherits(cluster: set<NodeId>, h: History, log: seq<Entry>, t: nat, i: nat)
    requires t in h.reigns
  {
    Blocked(cluster, h, t, i) || Agree(log, h.reigns[t].log, i + 1)
  }

  // The log up to k was committed by a leader whose term is at most `bound`.
  ghost predicate Certified(cluster: set<NodeId>, h: History, log: seq<Entry>, k: nat, bound: nat)
  {
    k == 0 || exists t: nat, i: nat :: Certifies(cluster, h, log, k, bound, t, i)
  }

  ghost predicate Certifies(cluster: set<NodeId>, h: History, log: seq<Entry>, k: nat, bound: nat, t: nat, i: nat)
  {
    Chosen(cluster, h, t, i) && t <= bound && k <= i && Agree(log, h.reigns[t].log, k + 1)
  }

  // ---- the history ----

  ghost predicate ReignInv(cluster: set<NodeId>, h: History, t: nat)
    requires t in h.reigns
  {
    var r := h.reigns[t];
    && t > 0
    && Anchored(h, r.log) && TermsUpTo(r.log, t)
    && r.leader in cluster && TermOf(h, r.leader) >= t
    && Majority(cluster, r.voters)
    && forall n | n in r.voters :: Ballot(n, t, r.leader) in h.ballots
  }

  ghost predicate ReignsInv(cluster: set<NodeId>, h: History)
  {
    forall t | t in h.reigns :: ReignInv(cluster, h, t)
  }

  ghost predicate BallotInv(cluster: set<NodeId>, h: History, b: Ballot)
  {
    b.voter in cluster && b.term <= TermOf(h, b.voter) && (b.cand, b.term) in h.clogs
  }

  ghost predicate BallotsInv(cluster: set<NodeId>, h: History)
  {
    forall b | b in h.ballots :: BallotInv(cluster, h, b)
  }

  // Nobody votes for two candidates in one term.
  ghost predicate OneVote(h: History)
  {
    forall b, c | b in h.ballots && c in h.ballots && b.voter == c.voter && b.term == c.term :: b.cand == c.cand
  }

  ghost predicate ClogInv(h: History, n: NodeId, t: nat)
    requires (n, t) in h.clogs
  {
    t > 0 && t <= TermOf(h, n) && Anchored(h, h.clogs[(n, t)]) && TermsUpTo(h.clogs[(n, t)], t - 1)
  }

  ghost predicate ClogsInv(h: History)
  {
    forall n: NodeId, t: nat | (n, t) in h.clogs :: ClogInv(h, n, t)
  }

  ghost predicate AcksInv(h: History)
  {
    forall n: NodeId, t: nat :: Ack(h, n, t) > 0 ==>
      t in h.reigns && Ack(h, n, t) < |h.reigns[t].log| && t <= TermOf(h, n)
  }

  // Leader completeness: the log of every later leader has what an earlier
  // leader wrote in its own term, unless that can no longer be committed.
  ghost predicate Completeness(cluster: set<NodeId>, h: History)
  {
    forall t: nat, u: nat, i: nat | t < u && u in h.reigns && HasEntry(h, t, i) :: Inherits(cluster, h, h.reigns[u].log, t, i)
  }

  // The same of every candidate a node voted for, as far as that node acknowledged.
  ghost predicate VotesComplete(cluster: set<NodeId>, h: History)
  {
    forall b, t: nat, i: nat | b in h.ballots && t < b.term && HasEntry(h, t, i) && i <= Ack(h, b.voter, t) ::
      VoteComplete(cluster, h, b, t, i)
  }

  ghost predicate VoteComplete(cluster: set<NodeId>, h: History, b: Ballot, t: nat, i: nat)
    requires t in h.reigns
  {
    (b.cand, b.term) in h.clogs && Inherits(cluster, h, h.clogs[(b.cand, b.term)], t, i)
  }

  ghost predicate DeliveredInv(cluster: set<NodeId>, h: History, d: (nat, Command))
  {
    exists t: nat, i: nat :: DeliveredBy(cluster, h, d, t, i)
  }

  ghost predicate DeliveredBy(cluster: set<NodeId>, h: History, d: (nat, Command), t: nat, i: nat)
  {
    Chosen(cluster, h, t, i) && d.0 <= i && h.reigns[t].log[d.0].command == d.1
  }

  ghost predicate HistoryInv(cluster: set<NodeId>, h: History)
  {
    && h.terms.Keys == cluster && h.tally.Keys == cluster
    && ReignsInv(cluster, h)
    && BallotsInv(cluster, h)
    && OneVote(h)
    && ClogsInv(h)
    && AcksInv(h)
    && Completeness(cluster, h)
    && VotesComplete(cluster, h)
    && forall d | d in h.delivered :: DeliveredInv(cluster, h, d)
  }

  // ---- one node ----

  ghost predicate DiskInv(h: History, n: NodeId, v: NodeState)
  {
    v.term == TermOf(h, n) && v.disk == Durable(v.term, v.vote, v.log)
  }

  ghost predicate LogInv(cluster: set<NodeId>, h: History, v: NodeState)
  {
    && Anchored(h, v.log) && TermsUpTo(v.log, v.term)
    && v.applied <= v.commit < |v.log|
    && Certified(cluster, h, v.log, v.commit, v.term)
  }

  ghost predicate CandidateInv(cluster: set<NodeId>, h: History, n: NodeId, v: NodeState)
  {
    v.role == Candidate ==>
      && n in h.tally
      && (n, v.term) in h.clogs && h.clogs[(n, v.term)] == v.log
      && (v.term in h.reigns ==> h.reigns[v.term].leader != n)
      && v.votes == |h.tally[n]|
      && h.tally[n] <= cluster
      && (forall p | p in h.tally[n] :: Ballot(p, v.term, n) in h.ballots && Call(v.term, p) !in v.calls)
  }

  ghost predicate LeaderInv(cluster: set<NodeId>, h: History, n: NodeId, v: NodeState)
  {
    v.role == Leader ==>
      && v.term in h.reigns && h.reigns[v.term].leader == n && h.reigns[v.term].log == v.log
      && Ack(h, n, v.term) == |v.log| - 1
      && (forall p | p in Peers(cluster, n) ::
            1 <= At(v.next, p) <= |v.log| && At(v.matched, p) <= Ack(h, p, v.term))
  }

  // What the node acknowledged in its current term, it still holds.
  ghost predicate HoldsAcked(h: History, n: NodeId, v: NodeState)
  {
    Ack(h, n, v.term) > 0 ==> v.term in h.reigns && Agree(v.log, h.reigns[v.term].log, Ack(h, n, v.term) + 1)
  }

  // What it acknowledged in any term, it still holds unless that is lost.
  ghost predicate NodeComplete(cluster: set<NodeId>, h: History, n: NodeId, v: NodeState)
  {
    forall t: nat, i: nat | HasEntry(h, t, i) && i <= Ack(h, n, t) :: Inherits(cluster, h, v.log, t, i)
  }

  ghost predicate CallsInv(v: NodeState)
  {
    forall c | c in v.calls :: c.term <= v.term
  }

  ghost predicate NodeInv(cluster: set<NodeId>, h: History, n: NodeId, v: NodeState)
  {
    && DiskInv(h, n, v)
    && CallsInv(v)
    && (v.vote.Some? ==> Ballot(n, v.term, v.vote.value) in h.ballots)
    && LogInv(cluster, h, v)
    && CandidateInv(cluster, h, n, v)
    && LeaderInv(cluster, h, n, v)
    && HoldsAcked(h, n, v)
    && NodeComplete(cluster, h, n, v)
  }

  // ---- one message ----

  // An AppendEntries carries the whole tail of its leader's log from prevIndex.
  ghost predicate ArgsInv(cluster: set<NodeId>, h: History, leader: NodeId, a: AppendArgs)
  {
    && a.term in h.reigns && h.reigns[a.term].leader == leader
    && a.prevIndex + |a.entries| < |h.reigns[a.term].log|
    && a.prevTerm == h.reigns[a.term].log[a.prevIndex].term
    && (forall j | 0 <= j < |a.entries| :: a.entries[j] == h.reigns[a.term].log[a.prevIndex + 1 + j])
    && a.leaderCommit <= a.prevIndex + |a.entries|
    && Certified(cluster, h, h.reigns[a.term].log, a.leaderCommit, a.term)
  }

  ghost predicate HintInv(h: History, a: AppendArgs, r: AppendResult)
  {
    && 1 <= r.conflictIndex <= a.prevIndex
    && (r.conflictTerm != 0 ==>
          && r.conflictTerm != a.prevTerm
          && r.conflictTerm in h.reigns
          && a.prevIndex < |h.reigns[r.conflictTerm].log|
          && h.reigns[r.conflictTerm].log[a.prevIndex].term == r.conflictTerm)
  }

  ghost predicate ResultInv(h: History, follower: NodeId, a: AppendArgs, r: AppendResult)
  {
    if r.success then r.term == a.term && a.prevIndex + |a.entries| <= Ack(h, follower, a.term)
    else r.term > a.term || HintInv(h, a, r)
  }

  ghost predicate MessageInv(cluster: set<NodeId>, h: History, m: Message)
  {
    && m.from in cluster && m.to in cluster && m.from != m.to
    && match m
       case RequestVote(from, _, t, lastIndex, lastTerm) =>
         && (from, t) in h.clogs
         && |h.clogs[(from, t)]| > 0
         && lastIndex == |h.clogs[(from, t)]| - 1
         && lastTerm == LastTerm(h.clogs[(from, t)])
       case VoteReply(from, to, callTerm, _, granted) =>
         granted ==> Ballot(from, callTerm, to) in h.ballots
       case AppendEntries(from, _, a) => ArgsInv(cluster, h, from, a)
       case AppendReply(from, to, a, r) => ArgsInv(cluster, h, to, a) && ResultInv(h, from, a, r)
  }

  ghost predicate Inv(cluster: set<NodeId>, s: State, h: History)
  {
    && s.nodes.Keys == cluster
    && HistoryInv(cluster, h)
    && (forall n | n in cluster :: NodeInv(cluster, h, n, s.nodes[n]))
    && (forall m | m in s.net :: MessageInv(cluster, h, m))
  }
}
