/** Election safety: in every run, at most one server becomes leader in any term (section 5.2 of
    the Raft paper).  The proof holds for every rule that makes a winner's voters a strict
    majority; the counter as coded is such a rule exactly in clusters of at most three servers.
 */
module RaftElection {
  import opened Basics
  import opened RaftHandlers
  import opened RaftProtocol

  // ----- every log is numbered from 0, in the servers and on the wire

  ghost predicate Indexed(log: seq<Entry>, from: nat) {
    forall k :: 0 <= k < |log| ==> log[k].index == from + k
  }

  ghost predicate ServerOk(n: nat, i: nat, sv: Server) {
    && sv.id == i
    && sv.log != [] && sv.log[0] == SENTINEL
    && Indexed(sv.log, 0)
    && |sv.matchIndex| == n - 1
  }

  ghost predicate Shape(c: Config, s: State) {
    && c.n >= 1
    && |s.servers| == c.n
    && (forall i :: 0 <= i < c.n ==> ServerOk(c.n, i, s.servers[i]))
    && (forall m :: m in s.net && m.Append? ==> Indexed(m.entries, m.prevIndex + 1))
  }

  lemma MergeIndexed(log: seq<Entry>, at: nat, entries: seq<Entry>)
    requires 0 < at <= |log| && Indexed(log, 0) && Indexed(entries, at)
    ensures Indexed(Merge(log, at, entries), 0)
    ensures Merge(log, at, entries) != [] && Merge(log, at, entries)[0] == log[0]
  {
  }

  lemma ShapeInit(c: Config, s: State)
    requires Init(c, s)
    ensures Shape(c, s)
  {
  }

  lemma AppendKeepsServer(c: Config, n: nat, i: nat, sv: Server, m: Message)
    requires ServerOk(n, i, sv) && m.Append? && Indexed(m.entries, m.prevIndex + 1)
    ensures ServerOk(n, i, OnAppend(c, sv, m).0)
  {
    hide Merge;
    if OnAppend(c, sv, m).1 {
      MergeIndexed(sv.log, m.prevIndex + 1, m.entries);
    }
  }

  lemma ReplyKeepsServer(c: Config, n: nat, i: nat, sv: Server, m: Message)
    requires ServerOk(n, i, sv) && m.AppendReply? && m.from != sv.id && PeerNumber(sv.id, m.from) < |sv.matchIndex|
    ensures ServerOk(n, i, OnAppendReply(c, sv, m))
  {
    hide CommitFrom;
  }

  lemma ServerKept(c: Config, s: State, step: Step)
    requires Enabled(s, step) && ServerOk(c.n, step.i, s.servers[step.i])
    requires step.TakeAppend? ==> Indexed(step.m.entries, step.m.prevIndex + 1)
    ensures ServerOk(c.n, step.i, Apply(c, s, step).servers[step.i])
  {
    hide OnAppend, OnAppendReply;
    var sv := s.servers[step.i];
    if step.TakeAppend? {
      AppendKeepsServer(c, c.n, step.i, sv, step.m);
    } else if step.TakeAppendReply? {
      ReplyKeepsServer(c, c.n, step.i, sv, step.m);
    }
  }

  lemma ShapeKept(c: Config, s: State, step: Step)
    requires Shape(c, s) && Enabled(s, step)
    ensures Shape(c, Apply(c, s, step))
  {
    hide Merge, CommitFrom;
    var s' := Apply(c, s, step);
    assert ServerOk(c.n, step.i, s.servers[step.i]);
    ServerKept(c, s, step);
    assert forall i :: 0 <= i < c.n && i != step.i ==> s'.servers[i] == s.servers[i];
  }

  // ----- who voted, who won

  ghost predicate BallotOk(s: State, b: Ballot) {
    && b.voter < |s.servers| && b.candidate < |s.servers|
    && b.term <= s.servers[b.candidate].term
    && b.term <= s.servers[b.voter].term
    && (b.term == s.servers[b.voter].term ==> s.servers[b.voter].votedFor == Some(b.candidate))
  }

  ghost predicate OneVote(b: Ballot, b': Ballot) {
    b.term == b'.term && b.voter == b'.voter ==> b.candidate == b'.candidate
  }

  ghost predicate VoteMessageOk(s: State, m: Message) {
    match m
    case VoteRequest(t, cand, _, _) => cand < |s.servers| && t <= s.servers[cand].term
    case VoteReply(t, v, cand, granted) => granted ==> v != cand && Ballot(t, v, cand) in s.h.ballots
    case _ => true
  }

  ghost predicate Backers(s: State, term: nat, id: nat, voters: set<nat>) {
    forall v :: v in voters ==> Ballot(term, v, id) in s.h.ballots
  }

  ghost predicate ContenderOk(s: State, sv: Server) {
    sv.role != Follower ==>
      && sv.term > 0
      && sv.votedFor == Some(sv.id)
      && sv.id in sv.voters
      && Backers(s, sv.term, sv.id, sv.voters)
  }

  ghost predicate LeaderOk(s: State, sv: Server) {
    sv.role == Leader ==> sv.term in s.h.elections && s.h.elections[sv.term].id == sv.id
  }

  ghost predicate ElectionOk(c: Config, s: State, t: nat)
    requires t in s.h.elections
  {
    var e := s.h.elections[t];
    && e.id < |s.servers|
    && t > 0
    && Quorum(c.n, e.voters)
    && Backers(s, t, e.id, e.voters)
    && (s.servers[e.id].term > t || (s.servers[e.id].term == t && s.servers[e.id].role == Leader))
  }

  ghost predicate Votes(c: Config, s: State) {
    && (forall b :: b in s.h.ballots ==> BallotOk(s, b))
    && (forall b, b' :: b in s.h.ballots && b' in s.h.ballots ==> OneVote(b, b'))
    && (forall m :: m in s.net ==> VoteMessageOk(s, m))
    && (forall i :: 0 <= i < |s.servers| ==> ContenderOk(s, s.servers[i]))
    && (forall i :: 0 <= i < |s.servers| ==> LeaderOk(s, s.servers[i]))
    && (forall t :: t in s.h.elections ==> ElectionOk(c, s, t))
  }

  /** The vote counts that make a winner's voters a strict majority: distinct voters always, the
      coded counter in clusters of at most three servers. */
  predicate SoundRule(c: Config) {
    c.rule == CountVoters || c.n <= 3
  }

  /** What every step does to one server and to the records about votes. */
  ghost predicate Moves(s: State, s': State, i: nat) {
    && i < |s.servers| == |s'.servers|
    && (forall j :: 0 <= j < |s.servers| && j != i ==> s'.servers[j] == s.servers[j])
    && s.servers[i].term <= s'.servers[i].term
    && s.h.ballots <= s'.h.ballots
    && s.net <= s'.net
  }

  /** Ballots cast before the step stay in order when the mover keeps its promise for its term. */
  lemma BallotsKept(c: Config, s: State, s': State, i: nat)
    requires Votes(c, s) && Moves(s, s', i)
    requires s'.servers[i].term == s.servers[i].term && s.servers[i].votedFor.Some?
             ==> s'.servers[i].votedFor == s.servers[i].votedFor
    ensures forall b :: b in s.h.ballots ==> BallotOk(s', b)
  {
    forall b | b in s.h.ballots
      ensures BallotOk(s', b)
    {
      assert BallotOk(s, b);
    }
  }

  /** Elections stay in order when a leader that leaves its office has a newer term. */
  lemma ElectionsKept(c: Config, s: State, s': State, i: nat)
    requires Votes(c, s) && Moves(s, s', i)
    requires s.servers[i].role == Leader ==> s'.servers[i].role == Leader || s'.servers[i].term > s.servers[i].term
    ensures forall t :: t in s.h.elections && t in s'.h.elections && s'.h.elections[t] == s.h.elections[t] ==> ElectionOk(c, s', t)
  {
    forall t | t in s.h.elections && t in s'.h.elections && s'.h.elections[t] == s.h.elections[t]
      ensures ElectionOk(c, s', t)
    {
      assert ElectionOk(c, s, t);
    }
  }

  lemma MessagesKept(c: Config, s: State, s': State, i: nat)
    requires Votes(c, s) && Moves(s, s', i)
    ensures forall m :: m in s.net ==> VoteMessageOk(s', m)
  {
    forall m | m in s.net
      ensures VoteMessageOk(s', m)
    {
      assert VoteMessageOk(s, m);
    }
  }

  lemma VotesInit(c: Config, s: State)
    requires Init(c, s)
    ensures Votes(c, s)
  {
  }

  lemma TimeoutKeepsVotes(c: Config, s: State, step: Step)
    requires Shape(c, s) && Votes(c, s) && Enabled(s, step) && step.Timeout?
    ensures Votes(c, Apply(c, s, step))
  {
    hide OnVoteRequest, OnVoteReply, Replicate, AppendFor, OnAppend, OnAppendReply;
    var s', i := Apply(c, s, step), step.i;
    assert ServerOk(c.n, i, s.servers[i]);
    BallotsKept(c, s, s', i);
    ElectionsKept(c, s, s', i);
    MessagesKept(c, s, s', i);
    var b0 := Ballot(s'.servers[i].term, i, i);
    assert BallotOk(s', b0);
    forall b | b in s.h.ballots
      ensures OneVote(b, b0) && OneVote(b0, b)
    {
      assert BallotOk(s, b);
    }
    assert forall j :: 0 <= j < c.n && j != i ==> ContenderOk(s, s.servers[j]) && LeaderOk(s, s.servers[j]);
  }

  /** A step that casts no vote and ends no term's office keeps the records. */
  lemma QuietStepKeepsVotes(c: Config, s: State, s': State, i: nat)
    requires Shape(c, s) && Votes(c, s) && Moves(s, s', i)
    requires s'.h.ballots == s.h.ballots && s'.h.elections == s.h.elections
    requires forall m :: m in s'.net && m !in s.net ==> VoteMessageOk(s', m)
    requires var sv, sv' := s.servers[i], s'.servers[i];
      && sv'.id == sv.id
      && (sv'.term == sv.term ==> sv'.role == sv.role && sv'.votedFor == sv.votedFor && sv.voters <= sv'.voters)
      && Backers(s, sv.term, sv.id, sv'.voters - sv.voters)
      && (sv'.term > sv.term ==> sv'.role == Follower)
    ensures Votes(c, s')
  {
    assert ContenderOk(s, s.servers[i]) && LeaderOk(s, s.servers[i]);
    BallotsKept(c, s, s', i);
    ElectionsKept(c, s, s', i);
    MessagesKept(c, s, s', i);
    assert forall j :: 0 <= j < c.n && j != i ==> ContenderOk(s, s.servers[j]) && LeaderOk(s, s.servers[j]);
  }

  lemma GrantKeepsVotes(c: Config, s: State, step: Step)
    requires Shape(c, s) && Votes(c, s) && Enabled(s, step) && step.TakeVoteRequest?
    requires OnVoteRequest(c, s.servers[step.i], step.m).1
    ensures Votes(c, Apply(c, s, step))
  {
    hide StartElection, RequestFrom, OnVoteReply, Replicate, AppendFor, OnAppend, OnAppendReply;
    var s', i, m := Apply(c, s, step), step.i, step.m;
    var sv := s.servers[i];
    assert ServerOk(c.n, i, sv) && VoteMessageOk(s, m) && ContenderOk(s, sv) && LeaderOk(s, sv);
    BallotsKept(c, s, s', i);
    ElectionsKept(c, s, s', i);
    MessagesKept(c, s, s', i);
    var b0 := Ballot(m.term, i, m.candidate);
    assert BallotOk(s', b0);
    forall b | b in s.h.ballots
      ensures OneVote(b, b0) && OneVote(b0, b)
    {
      assert BallotOk(s, b);
    }
    assert forall j :: 0 <= j < c.n && j != i ==> ContenderOk(s, s.servers[j]) && LeaderOk(s, s.servers[j]);
  }

  lemma VoteRequestKeepsVotes(c: Config, s: State, step: Step)
    requires Shape(c, s) && Votes(c, s) && Enabled(s, step) && step.TakeVoteRequest?
    ensures Votes(c, Apply(c, s, step))
  {
    hide StartElection, RequestFrom, OnVoteReply, Replicate, AppendFor, OnAppend, OnAppendReply;
    if OnVoteRequest(c, s.servers[step.i], step.m).1 {
      GrantKeepsVotes(c, s, step);
    } else {
      QuietStepKeepsVotes(c, s, Apply(c, s, step), step.i);
    }
  }

  /** A candidate that wins has a strict majority behind it. */
  lemma WinnerHasQuorum(c: Config, s: State, sv: Server, m: Message)
    requires Shape(c, s) && Votes(c, s) && SoundRule(c)
    requires m.VoteReply? && m in s.net && m.granted && m.term == sv.term && m.to == sv.id
    requires sv.role == Candidate && ContenderOk(s, sv) && |sv.matchIndex| == c.n - 1
    requires Wins(c, sv.(votes := sv.votes + 1, voters := sv.voters + {m.from}))
    ensures Quorum(c.n, sv.voters + {m.from})
    ensures Backers(s, sv.term, sv.id, sv.voters + {m.from})
  {
    var q := sv.voters + {m.from};
    assert VoteMessageOk(s, m);
    forall v | v in q
      ensures v < c.n
    {
      assert BallotOk(s, Ballot(sv.term, v, sv.id));
    }
    assert {sv.id, m.from} <= q;
    BoundedBelow({sv.id, m.from}, q);
  }

  lemma BoundedBelow(a: set<nat>, b: set<nat>)
    requires a <= b
    ensures |a| <= |b|
  {
    assert b == a + (b - a);
    assert |b| == |a| + |b - a|;
  }

  /** A candidate's term has no winner yet. */
  lemma WinnerIsFirst(c: Config, s: State, sv: Server, q: set<nat>)
    requires Shape(c, s) && Votes(c, s)
    requires sv in s.servers && sv.role == Candidate
    requires Quorum(c.n, q) && Backers(s, sv.term, sv.id, q)
    ensures sv.term !in s.h.elections
  {
    if sv.term in s.h.elections {
      assert ElectionOk(c, s, sv.term);
      var i :| 0 <= i < c.n && s.servers[i] == sv;
      assert ServerOk(c.n, i, sv);
      var e := s.h.elections[sv.term];
      var v := QuorumsMeet(c.n, q, e.voters);
    }
  }

  /** What it takes to win: a granted reply of the candidate's own term, a strict majority of
      distinct voters, and a term that nobody has won before. */
  lemma WinFacts(c: Config, s: State, i: nat, m: Message)
    requires SoundRule(c) && Shape(c, s) && Votes(c, s) && i < c.n
    requires m.VoteReply? && m in s.net && m.to == i
    requires s.servers[i].role == Candidate && OnVoteReply(c, s.servers[i], m).role == Leader
    ensures var sv := s.servers[i];
      && sv.id == i && sv.term > 0 && m.granted && m.term == sv.term && sv.term !in s.h.elections
      && Quorum(c.n, sv.voters + {m.from}) && Backers(s, sv.term, i, sv.voters + {m.from})
      && OnVoteReply(c, sv, m) == BecomeLeader(sv.(votes := sv.votes + 1, voters := sv.voters + {m.from}))
  {
    var sv := s.servers[i];
    assert ServerOk(c.n, i, sv) && VoteMessageOk(s, m) && ContenderOk(s, sv);
    assert BallotOk(s, Ballot(m.term, m.from, m.to));
    WinnerHasQuorum(c, s, sv, m);
    WinnerIsFirst(c, s, sv, sv.voters + {m.from});
  }

  lemma WinKeepsVotes(c: Config, s: State, step: Step)
    requires SoundRule(c) && Shape(c, s) && Votes(c, s) && Enabled(s, step) && step.TakeVoteReply?
    requires s.servers[step.i].role == Candidate && OnVoteReply(c, s.servers[step.i], step.m).role == Leader
    ensures Votes(c, Apply(c, s, step))
  {
    hide StartElection, RequestFrom, OnVoteRequest, Replicate, AppendFor, OnAppend, OnAppendReply;
    var s', i, m := Apply(c, s, step), step.i, step.m;
    WinFacts(c, s, i, m);
    assert ContenderOk(s, s.servers[i]);
    WonKeepsVotes(c, s, s', i, s.servers[i].voters + {m.from});
  }

  /** A candidate takes office with the votes of `q`, in a term nobody has won. */
  lemma WonKeepsVotes(c: Config, s: State, s': State, i: nat, q: set<nat>)
    requires Shape(c, s) && Votes(c, s) && Moves(s, s', i)
    requires s'.h.ballots == s.h.ballots && s'.net == s.net
    requires var sv, sv' := s.servers[i], s'.servers[i];
      && sv.role == Candidate && sv'.role == Leader && sv'.term == sv.term && sv'.id == sv.id == i
      && sv'.votedFor == sv.votedFor && sv'.voters == q && sv.voters <= q
      && Quorum(c.n, q) && Backers(s, sv.term, i, q)
      && sv.term !in s.h.elections && s'.h.elections == s.h.elections[sv.term := Election(i, q)]
    ensures Votes(c, s')
  {
    hide Quorum;
    assert ContenderOk(s, s.servers[i]);
    BallotsKept(c, s, s', i);
    MessagesKept(c, s, s', i);
    ElectionsKept(c, s, s', i);
    assert ElectionOk(c, s', s.servers[i].term);
    assert forall j :: 0 <= j < c.n && j != i ==> ContenderOk(s, s.servers[j]) && LeaderOk(s, s.servers[j]);
  }

  /** A granted reply never has a newer term than the candidate it is for. */
  lemma VoteReplyKeepsVotes(c: Config, s: State, step: Step)
    requires SoundRule(c) && Shape(c, s) && Votes(c, s) && Enabled(s, step) && step.TakeVoteReply?
    ensures Votes(c, Apply(c, s, step))
  {
    hide StartElection, RequestFrom, OnVoteRequest, Replicate, AppendFor, OnAppend, OnAppendReply;
    var i, m := step.i, step.m;
    var sv := s.servers[i];
    if sv.role == Candidate && OnVoteReply(c, sv, m).role == Leader {
      WinKeepsVotes(c, s, step);
    } else {
      assert ServerOk(c.n, i, sv) && VoteMessageOk(s, m) && ContenderOk(s, sv);
      if m.granted {
        assert BallotOk(s, Ballot(m.term, m.from, m.to));
      }
      QuietStepKeepsVotes(c, s, Apply(c, s, step), i);
    }
  }

  /** As far as votes go, a server stays what it is or follows a newer term. */
  ghost predicate Abides(sv: Server, sv': Server) {
    && sv'.id == sv.id && sv'.voters == sv.voters && sv.term <= sv'.term
    && (sv'.term == sv.term ==> sv'.role == sv.role && sv'.votedFor == sv.votedFor)
    && (sv'.term > sv.term ==> sv'.role == Follower)
  }

  lemma AppendAbides(c: Config, sv: Server, m: Message)
    requires m.Append?
    ensures Abides(sv, OnAppend(c, sv, m).0)
  {
    hide Merge;
  }

  lemma ReplyAbides(c: Config, sv: Server, m: Message)
    requires m.AppendReply? && m.from != sv.id && PeerNumber(sv.id, m.from) < |sv.matchIndex|
    ensures Abides(sv, OnAppendReply(c, sv, m))
  {
    hide CommitFrom;
  }

  lemma OtherStepsKeepVotes(c: Config, s: State, step: Step)
    requires Shape(c, s) && Votes(c, s) && Enabled(s, step)
    requires step.AskVotes? || step.ClientCommand? || step.SendAppend? || step.TakeAppend? || step.TakeAppendReply?
    ensures Votes(c, Apply(c, s, step))
  {
    hide Votes, StartElection, OnVoteRequest, OnVoteReply, OnAppend, OnAppendReply, Backers;
    var s', i := Apply(c, s, step), step.i;
    assert ServerOk(c.n, i, s.servers[i]);
    if step.TakeAppend? {
      AppendAbides(c, s.servers[i], step.m);
    } else if step.TakeAppendReply? {
      ReplyAbides(c, s.servers[i], step.m);
    }
    NoBackers(s, s.servers[i].term, s.servers[i].id);
    QuietStepKeepsVotes(c, s, s', i);
  }

  lemma NoBackers(s: State, term: nat, id: nat)
    ensures forall q: set<nat> :: Backers(s, term, id, q - q)
  {
  }

  lemma VotesKept(c: Config, s: State, step: Step)
    requires SoundRule(c) && Shape(c, s) && Votes(c, s) && Enabled(s, step)
    ensures Votes(c, Apply(c, s, step))
  {
    match step
    case Timeout(_) => TimeoutKeepsVotes(c, s, step);
    case TakeVoteRequest(_, _) => VoteRequestKeepsVotes(c, s, step);
    case TakeVoteReply(_, _) => VoteReplyKeepsVotes(c, s, step);
    case _ => OtherStepsKeepVotes(c, s, step);
  }

  // ----- over whole runs

  /** The record of winners only grows. */
  lemma ElectionsGrow(c: Config, s: State, step: Step, t: nat)
    requires SoundRule(c) && Shape(c, s) && Votes(c, s) && Enabled(s, step) && t in s.h.elections
    ensures t in Apply(c, s, step).h.elections && Apply(c, s, step).h.elections[t] == s.h.elections[t]
  {
    hide Shape, Votes, OnVoteReply;
    var sv := s.servers[step.i];
    if step.TakeVoteReply? && sv.role == Candidate && OnVoteReply(c, sv, step.m).role == Leader {
      SeatedHere(c, s);
      WinFacts(c, s, step.i, step.m);
    }
    ElectionNoted(c, s, step, t);
  }

  lemma SeatedHere(c: Config, s: State)
    requires Shape(c, s)
    ensures |s.servers| == c.n
  {
  }

  lemma ElectionNoted(c: Config, s: State, step: Step, t: nat)
    requires Enabled(s, step) && t in s.h.elections
    requires step.TakeVoteReply? && s.servers[step.i].role == Candidate && OnVoteReply(c, s.servers[step.i], step.m).role == Leader ==>
               OnVoteReply(c, s.servers[step.i], step.m).term != t
    ensures t in Apply(c, s, step).h.elections && Apply(c, s, step).h.elections[t] == s.h.elections[t]
  {
    hide OnVoteRequest, OnVoteReply, OnAppend, OnAppendReply, AppendFor, RequestFrom, StartElection, Replicate;
  }

  lemma NextKeepsVotes(c: Config, s: State, s': State)
    requires SoundRule(c) && Shape(c, s) && Votes(c, s) && Next(c, s, s')
    ensures Shape(c, s') && Votes(c, s')
    ensures forall t :: t in s.h.elections ==> t in s'.h.elections && s'.h.elections[t] == s.h.elections[t]
  {
    var step :| Enabled(s, step) && s' == Apply(c, s, step);
    ShapeKept(c, s, step);
    VotesKept(c, s, step);
    forall t | t in s.h.elections
      ensures t in s'.h.elections && s'.h.elections[t] == s.h.elections[t]
    {
      ElectionsGrow(c, s, step, t);
    }
  }

  lemma {:induction false} ReachableVotes(c: Config, run: seq<State>, a: nat)
    requires SoundRule(c) && IsRun(c, run) && a < |run|
    ensures Shape(c, run[a]) && Votes(c, run[a])
  {
    if a == 0 {
      ShapeInit(c, run[0]);
      VotesInit(c, run[0]);
    } else {
      ReachableVotes(c, run, a - 1);
      assert StepTo(c, run, a);
      NextKeepsVotes(c, run[a - 1], run[a]);
    }
  }

  lemma {:induction false} ElectionsGrowAlong(c: Config, run: seq<State>, a: nat, b: nat, t: nat)
    requires SoundRule(c) && IsRun(c, run) && a <= b < |run| && t in run[a].h.elections
    ensures t in run[b].h.elections && run[b].h.elections[t] == run[a].h.elections[t]
  {
    if a < b {
      ElectionsGrowAlong(c, run, a, b - 1, t);
      ReachableVotes(c, run, b - 1);
      assert StepTo(c, run, b);
      NextKeepsVotes(c, run[b - 1], run[b]);
    }
  }

  /** Two servers that lead the same term, at whatever moments of the run, are one server. */
  ghost predicate OneLeaderPerTerm(run: seq<State>) {
    forall a, b, i, j ::
      (0 <= a < |run| && 0 <= b < |run| && 0 <= i < |run[a].servers| && 0 <= j < |run[b].servers| &&
       run[a].servers[i].role == Leader && run[b].servers[j].role == Leader &&
       run[a].servers[i].term == run[b].servers[j].term) ==> i == j
  }

  lemma ElectionSafety(c: Config, run: seq<State>)
    requires SoundRule(c) && IsRun(c, run)
    ensures OneLeaderPerTerm(run)
  {
    forall a, b, i, j |
      0 <= a < |run| && 0 <= b < |run| && 0 <= i < |run[a].servers| && 0 <= j < |run[b].servers| &&
      run[a].servers[i].role == Leader && run[b].servers[j].role == Leader &&
      run[a].servers[i].term == run[b].servers[j].term
      ensures i == j
    {
      LeaderRecorded(c, run, a, i);
      LeaderRecorded(c, run, b, j);
    }
  }

  lemma LeaderRecorded(c: Config, run: seq<State>, a: nat, i: nat)
    requires SoundRule(c) && IsRun(c, run) && a < |run| && i < |run[a].servers|
    requires run[a].servers[i].role == Leader
    ensures var t := run[a].servers[i].term; var z := run[|run| - 1].h.elections; t in z && z[t].id == i
  {
    ReachableVotes(c, run, a);
    assert ServerOk(c.n, i, run[a].servers[i]) && LeaderOk(run[a], run[a].servers[i]);
    ElectionsGrowAlong(c, run, a, |run| - 1, run[a].servers[i].term);
  }
}
