/**
 The data of the Raft server: log entries, the four wire messages, the per-peer
 record and the server record itself.  Indices are one-based, as on the wire:
 entry `i` of the protocol is `log[i - 1]`.
 */
module RaftTypes {

  /** A log entry.  Only ordinary entries are modelled; `data` stands for the payload. */
  datatype Entry = Entry(term: nat, id: nat, data: int)

  type Log = seq<Entry>

  datatype Role = Follower | Candidate | Leader

  /** An index kept at one or more, as `raft_node_set_next_idx` does. */
  type Index = x: int | 1 <= x witness 1

  /** What a server records about one member of the cluster. */
  datatype Peer = Peer(next: Index, matchIdx: int, voted: bool)

  datatype Msg =
    | RequestVote(term: int, candidate: nat, lastIdx: int, lastTerm: int)
    | VoteReply(term: int, granted: bool)
    | Append(term: int, prevIdx: int, prevTerm: int, commit: int, entries: seq<Entry>)
    | AppendReply(term: int, success: bool, currentIdx: int, firstIdx: int)

  datatype Packet = Packet(src: nat, dst: nat, msg: Msg)

  /** The private server record.  `vote` is -1 when no vote is held; `trace` is the
      sequence of entries handed to the `applylog` callback so far. */
  datatype Server = Server(
    id: nat,
    term: nat,
    vote: int,
    log: Log,
    commit: nat,
    lastApplied: nat,
    trace: Log,
    role: Role,
    peers: seq<Peer>)

  /** The runtime assertions of the server (and the one null dereference) whose
      failure stops it. */
  datatype Assertion =
    | CommittedCut        // an entry at or below the commit index would be deleted
    | CommitBackwards     // the commit index would decrease
    | CommitBeyondLog     // the commit index would pass the end of the log
    | GrantNotFollower    // a leader or a candidate would grant a vote
    | ReplyBeyondLog      // a peer acknowledged more entries than the log holds
    | BadIndex            // an index below one was looked up
    | MissingEntry        // a peer's match index lies past the end of the log

  datatype Result = Halt(why: Assertion) | Ok(s: Server, out: seq<Packet>)

  /** Everything that can be handed to a server: a message from a peer, a client
      request, a periodic call (`fired` says whether its timer ran out), or a
      request to apply all committed entries. */
  datatype Input =
    | FromPeer(src: nat, msg: Msg)
    | ClientEntry(entryId: nat, data: int)
    | Periodic(fired: bool)
    | ApplyCommitted
}
