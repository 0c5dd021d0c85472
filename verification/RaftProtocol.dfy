/** A cluster of Raft servers and a network that may lose, duplicate and reorder messages: a sent
    message stays in `net` for ever and any handler may take it at any time, any number of times.

    The history records what happened and is never read by a server: every vote cast, every
    election won, the log of each term's leader as far as it grew, and every acknowledged append.
 */
module RaftProtocol {
  import opened Basics
  import opened RaftHandlers

  datatype Ballot = Ballot(term: nat, voter: nat, candidate: nat)
  datatype Election = Election(id: nat, voters: set<nat>)
  datatype Ack = Ack(term: nat, voter: nat, index: nat)

  datatype History = History(
    ballots: set<Ballot>,
    elections: map<nat, Election>,
    logs: map<nat, seq<Entry>>,
    acks: set<Ack>)

  datatype State = State(servers: seq<Server>, net: set<Message>, h: History)

  // ----- the step system

  ghost predicate Init(c: Config, s: State) {
    && c.n >= 1
    && s.servers == seq(c.n, i requires 0 <= i => Server(i, Follower, 0, None, 0, {}, [SENTINEL], 0, seq(c.n - 1, _ => 0)))
    && s.net == {}
    && s.h == History({}, map[], map[0 := [SENTINEL]], set v | 0 <= v < c.n :: Ack(0, v, 0))
  }

  datatype Step =
    | Timeout(i: nat)
    | AskVotes(i: nat)
    | TakeVoteRequest(i: nat, m: Message)
    | TakeVoteReply(i: nat, m: Message)
    | ClientCommand(i: nat, command: int)
    | SendAppend(i: nat, next: nat)
    | TakeAppend(i: nat, m: Message)
    | TakeAppendReply(i: nat, m: Message)

  predicate Enabled(s: State, step: Step) {
    && step.i < |s.servers|
    && var sv := s.servers[step.i];
    && match step
       case Timeout(i) => sv.role != Leader && sv.log != []
       case AskVotes(i) => sv.role == Candidate && sv.log != []
       case TakeVoteRequest(i, m) => m.VoteRequest? && m in s.net && m.candidate != i && sv.log != []
       case TakeVoteReply(i, m) => m.VoteReply? && m in s.net && m.to == i
       case ClientCommand(i, command) => true
       case SendAppend(i, next) => sv.role == Leader && 0 < next <= |sv.log|
       case TakeAppend(i, m) => m.Append? && m in s.net && m.leader != i
       case TakeAppendReply(i, m) =>
         m.AppendReply? && m in s.net && m.to == i && m.from != sv.id && PeerNumber(sv.id, m.from) < |sv.matchIndex|
  }

  function RequestFrom(sv: Server): Message
    requires sv.log != []
  {
    VoteRequest(sv.term, sv.id, Last(sv.log).index, Last(sv.log).term)
  }

  /** The handler of the step, the messages it sends, and what the history notes. */
  function Apply(c: Config, s: State, step: Step): (s': State)
    requires Enabled(s, step)
    ensures |s'.servers| == |s.servers|
  {
    var i := step.i;
    var sv := s.servers[i];
    match step
    case Timeout(_) =>
      var sv' := StartElection(sv);
      State(s.servers[i := sv'], s.net + {RequestFrom(sv')}, s.h.(ballots := s.h.ballots + {Ballot(sv'.term, i, i)}))
    case AskVotes(_) =>
      State(s.servers, s.net + {RequestFrom(sv)}, s.h)
    case TakeVoteRequest(_, m) =>
      var (sv', granted) := OnVoteRequest(c, sv, m);
      State(s.servers[i := sv'], s.net + {VoteReply(m.term, i, m.candidate, granted)},
            if granted then s.h.(ballots := s.h.ballots + {Ballot(m.term, i, m.candidate)}) else s.h)
    case TakeVoteReply(_, m) =>
      var sv' := OnVoteReply(c, sv, m);
      State(s.servers[i := sv'], s.net, if sv.role == Candidate && sv'.role == Leader then NoteElection(s.h, sv') else s.h)
    case ClientCommand(_, command) =>
      var sv' := Replicate(sv, command);
      State(s.servers[i := sv'], s.net, if sv.role == Leader then NoteLeaderLog(s.h, sv') else s.h)
    case SendAppend(_, next) =>
      State(s.servers, s.net + {AppendFor(sv, next)}, s.h)
    case TakeAppend(_, m) =>
      var (sv', ok) := OnAppend(c, sv, m);
      var matched := m.prevIndex + |m.entries|;
      State(s.servers[i := sv'], s.net + {AppendReply(m.term, i, m.leader, ok, matched)},
            if ok then s.h.(acks := s.h.acks + {Ack(m.term, i, matched)}) else s.h)
    case TakeAppendReply(_, m) =>
      State(s.servers[i := OnAppendReply(c, sv, m)], s.net, s.h)
  }

  function NoteElection(h: History, sv: Server): History {
    NoteLeaderLog(h.(elections := h.elections[sv.term := Election(sv.id, sv.voters)]), sv)
  }

  function NoteLeaderLog(h: History, sv: Server): History {
    h.(logs := h.logs[sv.term := sv.log],
       acks := h.acks + {Ack(sv.term, sv.id, if sv.log == [] then 0 else |sv.log| - 1)})
  }

  ghost predicate Next(c: Config, s: State, s': State) {
    exists step :: Enabled(s, step) && s' == Apply(c, s, step)
  }

  /** A run: an initial state and any number of steps. */
  ghost predicate IsRun(c: Config, run: seq<State>) {
    && run != []
    && Init(c, run[0])
    && forall a :: 0 < a < |run| ==> StepTo(c, run, a)
  }

  ghost predicate StepTo(c: Config, run: seq<State>, a: nat)
    requires 0 < a < |run|
  {
    Next(c, run[a - 1], run[a])
  }

  // ----- quorums

  ghost predicate Quorum(n: nat, q: set<nat>) {
    2 * |q| > n && forall v :: v in q ==> v < n
  }

  lemma {:induction false} BoundedSet(n: nat, q: set<nat>)
    requires forall v :: v in q ==> v < n
    ensures |q| <= n
  {
    if n > 0 {
      BoundedSet(n - 1, q - {n - 1});
    } else {
      assert q == {};
    }
  }

  /** Any two strict majorities share a server. */
  lemma QuorumsMeet(n: nat, q: set<nat>, r: set<nat>) returns (v: nat)
    requires Quorum(n, q) && Quorum(n, r)
    ensures v in q && v in r
  {
    if q !! r {
      assert |q + r| == |q| + |r|;
      BoundedSet(n, q + r);
    }
    v :| v in q && v in r;
  }
}
