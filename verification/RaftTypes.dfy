/** The values the Raft protocol passes around: log entries, node states, RPCs. */
module RaftTypes {
  import opened Options

  // Node ids are non-empty strings in the program, and the empty string is
  // "no vote". Here ids are numbers and "no vote" is None.
  type NodeId = nat

  datatype Command = Nil | Bytes(data: seq<bv8>)

  datatype Entry = Entry(term: nat, command: Command)

  // log[0]: real entries start at index 1.
  const SENTINEL := Entry(0, Nil)

  datatype Role = Follower | Candidate | Leader

  // The state file that persist writes and restoreState reads.
  datatype Durable = Durable(term: nat, vote: Option<NodeId>, log: seq<Entry>)

  // A RequestVote call of the election at `term` that has not returned yet.
  datatype Call = Call(term: nat, peer: NodeId)

  datatype NodeState = NodeState(
    term: nat,
    vote: Option<NodeId>,
    log: seq<Entry>,
    commit: nat,
    applied: nat,
    role: Role,
    next: map<NodeId, nat>,
    matched: map<NodeId, nat>,
    votes: nat,
    calls: set<Call>,
    disk: Durable)

  datatype AppendArgs = AppendArgs(
    term: nat,
    prevIndex: nat,
    prevTerm: nat,
    entries: seq<Entry>,
    leaderCommit: nat)

  datatype AppendResult = AppendResult(
    term: nat,
    success: bool,
    conflictIndex: nat,
    conflictTerm: nat)

  datatype Message =
    | RequestVote(from: NodeId, to: NodeId, term: nat, lastIndex: nat, lastTerm: nat)
    | VoteReply(from: NodeId, to: NodeId, callTerm: nat, term: nat, granted: bool)
    | AppendEntries(from: NodeId, to: NodeId, args: AppendArgs)
    | AppendReply(from: NodeId, to: NodeId, args: AppendArgs, result: AppendResult)

  // What an AppendEntries of the node's own term does to its vote: the
  // documentation keeps it (one vote per term), the code clears it.
  datatype VoteRule = Documented | AsWritten
}
