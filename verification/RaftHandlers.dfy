/** The message handlers of one Raft server (consensus/raft/raft_server.cc), as functions of the
    server's state.  The class in RaftServer.dfy updates its fields to exactly these values, and
    RaftProtocol.dfy runs any number of servers that use them.
 */
module RaftHandlers {
  import opened Basics

  datatype Role = Follower | Candidate | Leader

  /** A log record: its own position, the term of the leader that created it, and the command. */
  datatype Entry = Entry(index: nat, term: nat, command: int)

  /** Index 0 of every log; the first real entry has index 1. */
  const SENTINEL := Entry(0, 0, 0)

  /** How a candidate decides that it has won.  `CountReplies` is the counter as coded, which adds
      one for every granted reply; `CountVoters` waits for a strict majority of distinct servers. */
  datatype VoteRule = CountReplies | CountVoters

  /** What a leader makes of a reply to its entries.  `CountSuccesses` is the counter as coded, which adds
      one for every success, of whatever term; `Acknowledged` records the index that a reply of its own
      term names. */
  datatype MatchRule = CountSuccesses | Acknowledged

  /** Whom a server votes for.  `SameLast` is the test as coded, for a candidate with the very same last
      entry; `UpToDate` is that of section 5.4.1 of the Raft paper. */
  datatype VoteTest = SameLast | UpToDate

  /** What a server makes of entries from a leader of a newer term.  `KeepsTerm` is `append_entries` as
      coded, which takes them and stays what it is; `Adopts` becomes a follower of that term first. */
  datatype TermRule = KeepsTerm | Adopts

  datatype Config = Config(n: nat, rule: VoteRule, counter: MatchRule, test: VoteTest, terms: TermRule)

  datatype Server = Server(
    id: nat,
    role: Role,
    term: nat,
    votedFor: Option<nat>,
    votes: nat,
    voters: set<nat>,
    log: seq<Entry>,
    commit: nat,
    matchIndex: seq<nat>)

  datatype Message =
    | VoteRequest(term: nat, candidate: nat, lastIndex: nat, lastTerm: nat)
    | VoteReply(term: nat, from: nat, to: nat, granted: bool)
    | Append(term: nat, leader: nat, prevIndex: nat, prevTerm: nat, leaderCommit: nat, entries: seq<Entry>)
    | AppendReply(term: nat, from: nat, to: nat, success: bool, matched: nat)

  function Last(log: seq<Entry>): Entry
    requires log != []
  {
    log[|log| - 1]
  }

  /** `majority()`: half of all servers, rounded down, computed from the number of peers. */
  function Majority(peers: nat): nat {
    (peers + 1) / 2
  }

  /** Peers are numbered without the server itself. */
  function PeerId(self: nat, p: nat): nat {
    if p < self then p else p + 1
  }

  function PeerNumber(self: nat, peer: nat): nat
    requires peer != self
  {
    if peer < self then peer else peer - 1
  }

  // ----- convert_to

  function StepDown(s: Server, term: nat): Server {
    s.(role := Follower, term := term, votedFor := None)
  }

  function StartElection(s: Server): Server {
    s.(role := Candidate, term := s.term + 1, votedFor := Some(s.id), votes := 1, voters := {s.id})
  }

  function BecomeLeader(s: Server): Server {
    s.(role := Leader, matchIndex := seq(|s.matchIndex|, _ => 0))
  }

  // ----- elections

  /** The candidate's last entry is of a later term, or of the same term and no earlier place. */
  predicate AtLeastAsUpToDate(log: seq<Entry>, m: Message)
    requires m.VoteRequest? && log != []
  {
    m.lastTerm > Last(log).term || (m.lastTerm == Last(log).term && m.lastIndex >= Last(log).index)
  }

  /** The vote test of `request_vote`: not yet promised to another, and a good enough log. */
  predicate CanVote(c: Config, s: Server, m: Message)
    requires m.VoteRequest? && s.log != []
  {
    && (s.votedFor == None || s.votedFor == Some(m.candidate))
    && match c.test
       case SameLast => Last(s.log).index == m.lastIndex && Last(s.log).term == m.lastTerm
       case UpToDate => AtLeastAsUpToDate(s.log, m)
  }

  function OnVoteRequest(c: Config, s: Server, m: Message): (Server, bool)
    requires m.VoteRequest? && s.log != []
  {
    if m.term < s.term then (s, false)
    else
      var s1 := if m.term > s.term then StepDown(s, m.term) else s;
      if CanVote(c, s1, m) then (s1.(votedFor := Some(m.candidate)), true) else (s1, false)
  }

  predicate Wins(c: Config, s: Server) {
    match c.rule
    case CountReplies => s.votes >= Majority(|s.matchIndex|)
    case CountVoters => 2 * |s.voters| > c.n
  }

  function OnVoteReply(c: Config, s: Server, m: Message): Server
    requires m.VoteReply?
  {
    if s.role != Candidate then s
    else
      var s1 := if m.term > s.term then StepDown(s, m.term) else s;
      if m.term == s1.term && m.granted then
        var s2 := s1.(votes := s1.votes + 1, voters := s1.voters + {m.from});
        if Wins(c, s2) then BecomeLeader(s2) else s2
      else s1
  }

  // ----- replication

  function Replicate(s: Server, command: int): Server {
    if s.role != Leader then s
    else s.(log := s.log + [Entry(|s.log|, s.term, command)])
  }

  /** The request for a peer whose next index is `next`: everything from there to the end. */
  function AppendFor(s: Server, next: nat): Message
    requires 0 < next <= |s.log|
  {
    Append(s.term, s.id, s.log[next - 1].index, s.log[next - 1].term, s.commit, s.log[next..])
  }

  /** How many of the new entries the log already holds, position by position from `at`, before the
      first that is missing or has another term. */
  function Known(log: seq<Entry>, at: nat, entries: seq<Entry>): (k: nat)
    ensures k <= |entries|
    ensures at <= |log| ==> at + k <= |log|
    ensures forall j :: 0 <= j < k ==> at + j < |log| && log[at + j].term == entries[j].term
    ensures k < |entries| ==> at + k >= |log| || log[at + k].term != entries[k].term
    decreases |entries|
  {
    if entries == [] || at >= |log| || log[at].term != entries[0].term then 0
    else 1 + Known(log, at + 1, entries[1..])
  }

  /** Cut the log at the first conflict and append what is not already there. */
  function Merge(log: seq<Entry>, at: nat, entries: seq<Entry>): (merged: seq<Entry>)
    requires at <= |log|
    ensures |merged| >= at + |entries|
  {
    var k := Known(log, at, entries);
    if k == |entries| then log else log[..at + k] + entries[k..]
  }

  function Min(a: nat, b: nat): nat { if a <= b then a else b }

  predicate Continues(s: Server, m: Message)
    requires m.Append?
  {
    m.prevIndex < |s.log| && s.log[m.prevIndex].term == m.prevTerm
  }

  function OnAppend(c: Config, s: Server, m: Message): (Server, bool)
    requires m.Append?
  {
    if m.term < s.term then (s, false)
    else
      var s1 := if m.term > s.term && c.terms == Adopts then StepDown(s, m.term) else s;
      if !Continues(s1, m) then (s1, false)
      else
        var log := Merge(s1.log, m.prevIndex + 1, m.entries);
        var commit := if m.leaderCommit > s1.commit then Min(m.leaderCommit, |log| - 1) else s1.commit;
        (s1.(log := log, commit := commit), true)
  }

  // ----- commitment

  /** How many peers are known to hold index `k`. */
  function MatchCount(matchIndex: seq<nat>, k: nat): nat {
    if matchIndex == [] then 0
    else MatchCount(matchIndex[..|matchIndex| - 1], k) + if Last'(matchIndex) >= k then 1 else 0
  }

  function Last'(m: seq<nat>): nat
    requires m != []
  {
    m[|m| - 1]
  }

  /** The test of `update_commit_index` for one index. */
  predicate Committable(s: Server, k: nat)
    requires k < |s.log|
  {
    MatchCount(s.matchIndex, k) >= Majority(|s.matchIndex|) && s.log[k].term == s.term
  }

  /** The commit index after the loop has looked at all indices from `k` on. */
  function CommitFrom(s: Server, k: nat, commit: nat): (c: nat)
    ensures c == commit || (k <= c < |s.log| && Committable(s, c))
    ensures forall i :: k <= i < |s.log| && Committable(s, i) ==> i <= c
    decreases |s.log| - k
  {
    if k >= |s.log| then commit
    else CommitFrom(s, k + 1, if Committable(s, k) then k else commit)
  }

  function UpdateCommit(s: Server): Server {
    s.(commit := CommitFrom(s, s.commit + 1, s.commit))
  }

  function Max(a: nat, b: nat): nat { if a >= b then a else b }

  /** The match index of the peer that replied. */
  function Matched(c: Config, s: Server, m: Message): Server
    requires m.AppendReply? && m.from != s.id && PeerNumber(s.id, m.from) < |s.matchIndex|
  {
    var p := PeerNumber(s.id, m.from);
    if !m.success then s
    else if c.counter == CountSuccesses then s.(matchIndex := s.matchIndex[p := s.matchIndex[p] + 1])
    else s.(matchIndex := s.matchIndex[p := Max(s.matchIndex[p], m.matched)])
  }

  /** As coded a leader counts replies of older terms, and after a newer term has made it a follower it still
      counts and looks for what to commit; otherwise it ignores the one and stops after the other. */
  function OnAppendReply(c: Config, s: Server, m: Message): Server
    requires m.AppendReply? && m.from != s.id && PeerNumber(s.id, m.from) < |s.matchIndex|
  {
    if s.role != Leader then s
    else
      var s1 := if m.term > s.term then StepDown(s, m.term) else s;
      if c.counter == Acknowledged && m.term != s.term then s1
      else UpdateCommit(Matched(c, s1, m))
  }
}
