/** What an acknowledgement is worth.  A server that acknowledged index N of term t keeps the leader's
    log up to N until a leader of a later term sends it something else; the votes it casts are for
    candidates whose log is at least as up to date as its own, so for entries that term t itself put its
    acknowledgements bind the leaders it elects.
 */
module RaftAcks {
  import opened RaftHandlers
  import opened RaftProtocol
  import opened RaftElection
  import opened RaftLog

  ghost predicate Agree(a: seq<Entry>, b: seq<Entry>, n: nat) {
    n < |a| && n < |b| && a[..n + 1] == b[..n + 1]
  }

  ghost predicate Clash(a: seq<Entry>, b: seq<Entry>, n: nat) {
    exists k :: 0 <= k <= n && k < |a| && k < |b| && a[k] != b[k]
  }

  /** The leader of the later term u contradicts the log of term t at or before index n. */
  ghost predicate Overruled(logs: map<nat, seq<Entry>>, t: nat, n: nat, u: nat) {
    t in logs && u in logs && t < u && Clash(logs[u], logs[t], n)
  }

  /** `log` still has what term t put up to index n, unless a term before `limit` overruled it. */
  ghost predicate Held(logs: map<nat, seq<Entry>>, log: seq<Entry>, t: nat, n: nat, limit: nat) {
    t in logs && (Agree(log, logs[t], n) || exists u: nat :: u < limit && Overruled(logs, t, n, u))
  }

  /** The server's log holds it, up to the server's own term. */
  ghost predicate Keeps(logs: map<nat, seq<Entry>>, sv: Server, t: nat, n: nat) {
    Held(logs, sv.log, t, n, sv.term + 1)
  }

  ghost predicate AckOk(s: State, a: Ack) {
    && a.voter < |s.servers|
    && a.term in s.h.logs && a.index < |s.h.logs[a.term]|
    && a.term <= s.servers[a.voter].term
    && forall n: nat :: n <= a.index ==> Keeps(s.h.logs, s.servers[a.voter], a.term, n)
  }

  /** Term t itself put the entry at index n. */
  ghost predicate Own(logs: map<nat, seq<Entry>>, t: nat, n: nat) {
    t in logs && n < |logs[t]| && logs[t][n].term == t
  }

  /** A candidate still in the race for the term of the ballot. */
  ghost predicate Running(s: State, candidate: nat, term: nat) {
    candidate < |s.servers| && s.servers[candidate].role == Candidate && s.servers[candidate].term == term && term !in s.h.elections
  }

  ghost predicate BallotHeld(s: State, b: Ballot, a: Ack, n: nat) {
    a.voter == b.voter && a.term < b.term && n <= a.index && Own(s.h.logs, a.term, n) && Running(s, b.candidate, b.term) ==>
      Held(s.h.logs, s.servers[b.candidate].log, a.term, n, b.term)
  }

  ghost predicate ElectionHeld(s: State, t: nat, a: Ack, n: nat)
    requires t in s.h.elections
  {
    a.voter in s.h.elections[t].voters && a.term < t && n <= a.index && Own(s.h.logs, a.term, n) ==>
      t in s.h.logs && Held(s.h.logs, s.h.logs[t], a.term, n, t)
  }

  ghost predicate AckMessageOk(s: State, m: Message) {
    match m
    case VoteRequest(t, cand, lastIndex, lastTerm) =>
      Running(s, cand, t) ==>
        && |s.servers[cand].log| == lastIndex + 1
        && s.servers[cand].log[lastIndex].term == lastTerm
    case AppendReply(t, from, _, success, matched) => success ==> Ack(t, from, matched) in s.h.acks
    case _ => true
  }

  ghost predicate LeaderAckOk(c: Config, s: State, sv: Server) {
    sv.role == Leader ==>
      && sv.log != [] && Ack(sv.term, sv.id, |sv.log| - 1) in s.h.acks
      && (c.counter == Acknowledged ==> forall p :: 0 <= p < |sv.matchIndex| && sv.matchIndex[p] > 0 ==>
           Ack(sv.term, PeerId(sv.id, p), sv.matchIndex[p]) in s.h.acks)
  }

  ghost predicate AcksOk(s: State) {
    forall a :: a in s.h.acks ==> AckOk(s, a)
  }

  ghost predicate BallotsHeld(s: State) {
    forall b, a, n: nat :: b in s.h.ballots && a in s.h.acks ==> BallotHeld(s, b, a, n)
  }

  ghost predicate ElectionsHeld(s: State) {
    forall t, a, n: nat :: t in s.h.elections && a in s.h.acks ==> ElectionHeld(s, t, a, n)
  }

  ghost predicate AckMessages(s: State) {
    forall m :: m in s.net ==> AckMessageOk(s, m)
  }

  ghost predicate LeaderAcks(c: Config, s: State) {
    forall i :: 0 <= i < |s.servers| ==> LeaderAckOk(c, s, s.servers[i])
  }

  ghost predicate Acks(c: Config, s: State) {
    AcksOk(s) && BallotsHeld(s) && ElectionsHeld(s) && AckMessages(s) && LeaderAcks(c, s)
  }

  ghost predicate Inv(c: Config, s: State) {
    Shape(c, s) && Votes(c, s) && Logs(c, s) && Acks(c, s)
  }

  lemma AgreeKept(a: seq<Entry>, a': seq<Entry>, b: seq<Entry>, b': seq<Entry>, n: nat)
    requires Agree(a, b, n) && a <= a' && b <= b'
    ensures Agree(a', b', n)
  {
    assert a'[..n + 1] == a[..n + 1] == b[..n + 1] == b'[..n + 1];
  }

  lemma OverruledKept(logs: map<nat, seq<Entry>>, logs': map<nat, seq<Entry>>, t: nat, n: nat, u: nat)
    requires Extends(logs, logs') && Overruled(logs, t, n, u)
    ensures Overruled(logs', t, n, u)
  {
    var k :| 0 <= k <= n && k < |logs[u]| && k < |logs[t]| && logs[u][k] != logs[t][k];
    assert logs'[u][k] == logs[u][k] && logs'[t][k] == logs[t][k];
  }

  lemma HeldKept(logs: map<nat, seq<Entry>>, logs': map<nat, seq<Entry>>, log: seq<Entry>, log': seq<Entry>,
                 t: nat, n: nat, limit: nat, limit': nat)
    requires Extends(logs, logs') && log <= log' && limit <= limit' && Held(logs, log, t, n, limit)
    ensures Held(logs', log', t, n, limit')
  {
    if Agree(log, logs[t], n) {
      AgreeKept(log, log', logs[t], logs'[t], n);
    } else {
      var u: nat :| u < limit && Overruled(logs, t, n, u);
      OverruledKept(logs, logs', t, n, u);
    }
  }

  /** What one step does, as far as acknowledgements can see. */
  ghost predicate Progress(s: State, s': State, i: nat) {
    && i < |s.servers| == |s'.servers|
    && (forall j :: 0 <= j < |s.servers| && j != i ==> s'.servers[j] == s.servers[j])
    && s.servers[i].term <= s'.servers[i].term
    && Extends(s.h.logs, s'.h.logs)
    && s.h.ballots <= s'.h.ballots && s.h.acks <= s'.h.acks && s.net <= s'.net
    && (forall t :: t in s.h.elections ==> t in s'.h.elections && s'.h.elections[t] == s.h.elections[t])
  }

  /** The mover's log keeps, up to its new term, every acknowledgement it gave before. */
  ghost predicate MoverHolds(s: State, s': State, i: nat)
    requires i < |s.servers| == |s'.servers|
  {
    forall a, n: nat :: a in s.h.acks && a.voter == i && n <= a.index ==> Keeps(s'.h.logs, s'.servers[i], a.term, n)
  }

  /** Only the mover acknowledges, for its own term, and its log then agrees with that term's. */
  ghost predicate FreshAck(s': State, i: nat, a: Ack)
    requires i < |s'.servers|
  {
    && a.voter == i && a.term == s'.servers[i].term && a.term in s'.h.logs
    && Agree(s'.servers[i].log, s'.h.logs[a.term], a.index)
  }

  ghost predicate FreshAcks(s: State, s': State, i: nat)
    requires i < |s'.servers|
  {
    forall a :: a in s'.h.acks && a !in s.h.acks ==> FreshAck(s', i, a)
  }

  lemma AcksStayOk(s: State, s': State, i: nat)
    requires AcksOk(s) && Progress(s, s', i) && MoverHolds(s, s', i) && FreshAcks(s, s', i)
    ensures AcksOk(s')
  {
    forall a | a in s'.h.acks
      ensures AckOk(s', a)
    {
      if a in s.h.acks {
        OldAckStaysOk(s, s', i, a);
      } else {
        assert FreshAck(s', i, a);
        forall n: nat | n <= a.index
          ensures Keeps(s'.h.logs, s'.servers[i], a.term, n)
        {
          ShorterAgree(s'.servers[i].log, s'.h.logs[a.term], a.index, n);
        }
      }
    }
  }

  lemma OldAckStaysOk(s: State, s': State, i: nat, a: Ack)
    requires a in s.h.acks && AckOk(s, a) && Progress(s, s', i) && MoverHolds(s, s', i)
    ensures AckOk(s', a)
  {
    var sv := s.servers[a.voter];
    forall n: nat | n <= a.index
      ensures Keeps(s'.h.logs, s'.servers[a.voter], a.term, n)
    {
      assert Keeps(s.h.logs, sv, a.term, n);
      if a.voter != i {
        HeldKept(s.h.logs, s'.h.logs, sv.log, sv.log, a.term, n, sv.term + 1, sv.term + 1);
      }
    }
  }

  lemma ShorterAgree(a: seq<Entry>, b: seq<Entry>, m: nat, n: nat)
    requires Agree(a, b, m) && n <= m
    ensures Agree(a, b, n)
  {
    assert a[..n + 1] == a[..m + 1][..n + 1] == b[..m + 1][..n + 1] == b[..n + 1];
  }

  /** A fresh acknowledgement is for the voter's newest term, so no ballot of a later term has it. */
  lemma BallotsStayHeld(s: State, s': State, i: nat)
    requires AcksOk(s) && BallotsHeld(s) && Progress(s, s', i) && FreshAcks(s, s', i)
    requires forall b :: b in s'.h.ballots ==> BallotOk(s', b)
    requires MoverBallots(s, s', i)
    ensures BallotsHeld(s')
  {
    forall b, a, n: nat | b in s'.h.ballots && a in s'.h.acks
      ensures BallotHeld(s', b, a, n)
    {
      if a !in s.h.acks {
        assert FreshAck(s', i, a) && BallotOk(s', b);
      } else if b.candidate == i || b !in s.h.ballots {
        assert BallotHeld(s', b, a, n);
      } else {
        assert BallotHeld(s, b, a, n) && AckOk(s, a);
        if a.voter == b.voter && a.term < b.term && n <= a.index && Own(s'.h.logs, a.term, n) && Running(s', b.candidate, b.term) {
          var log := s.servers[b.candidate].log;
          HeldKept(s.h.logs, s'.h.logs, log, log, a.term, n, b.term, b.term);
        }
      }
    }
  }

  /** Ballots for the mover, and ballots just cast, are held. */
  ghost predicate MoverBallots(s: State, s': State, i: nat) {
    forall b, a, n: nat :: b in s'.h.ballots && a in s.h.acks && (b.candidate == i || b !in s.h.ballots) ==> BallotHeld(s', b, a, n)
  }

  ghost predicate NewElections(s: State, s': State) {
    forall t, a, n: nat :: t in s'.h.elections && t !in s.h.elections && a in s.h.acks ==> ElectionHeld(s', t, a, n)
  }

  lemma ElectionsStayHeld(c: Config, s: State, s': State, i: nat)
    requires AcksOk(s) && ElectionsHeld(s) && Votes(c, s') && Progress(s, s', i) && FreshAcks(s, s', i) && NewElections(s, s')
    ensures ElectionsHeld(s')
  {
    forall t, a, n: nat | t in s'.h.elections && a in s'.h.acks
      ensures ElectionHeld(s', t, a, n)
    {
      if a.voter in s'.h.elections[t].voters && a.term < t && n <= a.index {
        if a !in s.h.acks {
          assert false;
        } else if t in s.h.elections {
          assert AckOk(s, a);
          OldElectionStaysHeld(s, s', i, t, a, n);
        }
      }
    }
  }

  lemma OldElectionStaysHeld(s: State, s': State, i: nat, t: nat, a: Ack, n: nat)
    requires t in s.h.elections && ElectionHeld(s, t, a, n) && Progress(s, s', i) && AckOk(s, a)
    ensures ElectionHeld(s', t, a, n)
  {
    if a.voter in s.h.elections[t].voters && a.term < t && n <= a.index && Own(s'.h.logs, a.term, n) {
      HeldKept(s.h.logs, s'.h.logs, s.h.logs[t], s'.h.logs[t], a.term, n, t, t);
    }
  }

  ghost predicate MoverMessages(s: State, s': State, i: nat) {
    forall m :: m in s'.net && (m !in s.net || (m.VoteRequest? && m.candidate == i)) ==> AckMessageOk(s', m)
  }

  /** The records stay in order when the mover's own part does. */
  lemma StepKeepsAcks(c: Config, s: State, s': State, i: nat)
    requires Acks(c, s) && Votes(c, s') && Progress(s, s', i)
    requires MoverHolds(s, s', i) && FreshAcks(s, s', i) && MoverBallots(s, s', i) && NewElections(s, s')
    requires MoverMessages(s, s', i) && LeaderAckOk(c, s', s'.servers[i])
    ensures Acks(c, s')
  {
    AcksStayOk(s, s', i);
    BallotsStayHeld(s, s', i);
    ElectionsStayHeld(c, s, s', i);
    MessagesStayOk(s, s', i);
    forall j | 0 <= j < |s'.servers|
      ensures LeaderAckOk(c, s', s'.servers[j])
    {
      if j != i {
        assert LeaderAckOk(c, s, s.servers[j]);
      }
    }
  }

  lemma MessagesStayOk(s: State, s': State, i: nat)
    requires AckMessages(s) && Progress(s, s', i) && MoverMessages(s, s', i)
    ensures AckMessages(s')
  {
    forall m | m in s'.net
      ensures AckMessageOk(s', m)
    {
      if m in s.net && !(m.VoteRequest? && m.candidate == i) {
        assert AckMessageOk(s, m);
      }
    }
  }

  /** A mover whose log only grows holds what it held. */
  lemma GrowingLogHolds(s: State, s': State, i: nat)
    requires AcksOk(s) && Progress(s, s', i) && s.servers[i].log <= s'.servers[i].log
    ensures MoverHolds(s, s', i)
  {
    forall a, n: nat | a in s.h.acks && a.voter == i && n <= a.index
      ensures Keeps(s'.h.logs, s'.servers[i], a.term, n)
    {
      assert AckOk(s, a) && Keeps(s.h.logs, s.servers[i], a.term, n);
      HeldKept(s.h.logs, s'.h.logs, s.servers[i].log, s'.servers[i].log, a.term, n, s.servers[i].term + 1, s'.servers[i].term + 1);
    }
  }

  /** A mover that is no candidate any more, or the same candidate with the same log, leaves old
      ballots and requests in order. */
  lemma SameCandidacy(s: State, s': State, i: nat)
    requires BallotsHeld(s) && AckMessages(s) && Progress(s, s', i) && s'.h.logs == s.h.logs && s'.h.elections == s.h.elections
    requires var sv, sv' := s.servers[i], s'.servers[i];
      sv'.role == Candidate && sv'.term !in s.h.elections ==> sv.role == Candidate && sv'.term == sv.term && sv'.log == sv.log
    ensures forall b, a, n: nat :: b in s.h.ballots && a in s.h.acks && b.candidate == i ==> BallotHeld(s', b, a, n)
    ensures forall m :: m in s.net && m.VoteRequest? && m.candidate == i ==> AckMessageOk(s', m)
  {
    forall b, a, n: nat | b in s.h.ballots && a in s.h.acks && b.candidate == i
      ensures BallotHeld(s', b, a, n)
    {
      assert BallotHeld(s, b, a, n);
    }
    forall m | m in s.net && m.VoteRequest? && m.candidate == i
      ensures AckMessageOk(s', m)
    {
      assert AckMessageOk(s, m);
    }
  }

  lemma AcksInit(c: Config, s: State)
    requires Init(c, s)
    ensures Acks(c, s)
  {
    forall a | a in s.h.acks
      ensures AckOk(s, a)
    {
      assert Agree(s.servers[a.voter].log, s.h.logs[0], 0);
    }
  }

  // ----- step by step

  lemma TimeoutBallots(c: Config, s: State, step: Step)
    requires AcksOk(s) && Enabled(s, step) && step.Timeout?
    requires forall b :: b in s.h.ballots ==> BallotOk(s, b)
    ensures MoverBallots(s, Apply(c, s, step), step.i)
  {
    var s', i := Apply(c, s, step), step.i;
    forall b, a, n: nat | b in s'.h.ballots && a in s.h.acks && (b.candidate == i || b !in s.h.ballots)
      ensures BallotHeld(s', b, a, n)
    {
      assert AckOk(s, a);
      if b in s.h.ballots {
        assert BallotOk(s, b);
      } else if a.voter == i && n <= a.index {
        assert Keeps(s.h.logs, s.servers[i], a.term, n);
      }
    }
  }

  lemma TimeoutMessages(c: Config, s: State, step: Step)
    requires Enabled(s, step) && step.Timeout? && ServerOk(c.n, step.i, s.servers[step.i])
    requires forall m :: m in s.net ==> VoteMessageOk(s, m)
    ensures MoverMessages(s, Apply(c, s, step), step.i)
  {
    var s', i := Apply(c, s, step), step.i;
    forall m | m in s'.net && (m !in s.net || (m.VoteRequest? && m.candidate == i))
      ensures AckMessageOk(s', m)
    {
      if m in s.net {
        assert VoteMessageOk(s, m);
      }
    }
  }

  lemma TimeoutKeepsAcks(c: Config, s: State, step: Step)
    requires Inv(c, s) && Enabled(s, step) && step.Timeout? && Votes(c, Apply(c, s, step))
    ensures Acks(c, Apply(c, s, step))
  {
    hide OnVoteRequest, OnVoteReply, Replicate, AppendFor, OnAppend, OnAppendReply, Held, ElectionsHeld, LeaderAcks, BallotsHeld;
    var s', i := Apply(c, s, step), step.i;
    assert ServerOk(c.n, i, s.servers[i]);
    assert Progress(s, s', i);
    GrowingLogHolds(s, s', i);
    TimeoutBallots(c, s, step);
    TimeoutMessages(c, s, step);
    StepKeepsAcks(c, s, s', i);
  }

  lemma VoteRequestBallots(c: Config, s: State, step: Step)
    requires Inv(c, s) && Enabled(s, step) && step.TakeVoteRequest?
    ensures MoverBallots(s, Apply(c, s, step), step.i)
  {
    hide StartElection, RequestFrom, OnVoteReply, Replicate, AppendFor, OnAppend, OnAppendReply, Votes, Logs, Shape, AcksOk, ElectionsHeld, LeaderAcks, Held;
    var s', i, m := Apply(c, s, step), step.i, step.m;
    assert Progress(s, s', i);
    SameCandidacy(s, s', i);
    forall b, a, n: nat | b in s'.h.ballots && a in s.h.acks && (b.candidate == i || b !in s.h.ballots)
      ensures BallotHeld(s', b, a, n)
    {
      if b !in s.h.ballots && a.voter == i && n <= a.index && Own(s.h.logs, a.term, n) && Running(s', m.candidate, m.term) {
        VoterBinds(c, s, i, m, a, n);
      }
    }
  }

  lemma VoteRequestKeepsAcks(c: Config, s: State, step: Step)
    requires Inv(c, s) && Enabled(s, step) && step.TakeVoteRequest? && Votes(c, Apply(c, s, step))
    ensures Acks(c, Apply(c, s, step))
  {
    VoteRequestRest(c, s, step);
    VoteRequestBallots(c, s, step);
    StepKeepsAcks(c, s, Apply(c, s, step), step.i);
  }

  lemma VoteRequestRest(c: Config, s: State, step: Step)
    requires Acks(c, s) && Enabled(s, step) && step.TakeVoteRequest?
    ensures var s', i := Apply(c, s, step), step.i;
      && Progress(s, s', i) && MoverHolds(s, s', i) && FreshAcks(s, s', i) && NewElections(s, s')
      && MoverMessages(s, s', i) && LeaderAckOk(c, s', s'.servers[i])
  {
    var s', i := Apply(c, s, step), step.i;
    assert LeaderAckOk(c, s, s.servers[i]);
    assert Progress(s, s', i);
    GrowingLogHolds(s, s', i);
    SameCandidacy(s, s', i);
  }

  /** A granted vote is for a candidate that holds what the voter has acknowledged, if the term it was
      acknowledged to itself put it there. */
  lemma VoterBinds(c: Config, s: State, i: nat, m: Message, a: Ack, n: nat)
    requires Inv(c, s) && i < |s.servers| && m in s.net && m.VoteRequest? && m.candidate != i
    requires OnVoteRequest(c, s.servers[i], m).1 && Running(s, m.candidate, m.term)
    requires a in s.h.acks && a.voter == i && n <= a.index && Own(s.h.logs, a.term, n)
    ensures Held(s.h.logs, s.servers[m.candidate].log, a.term, n, m.term)
  {
    var sv, cand := s.servers[i], s.servers[m.candidate];
    assert ServerOk(c.n, i, sv) && ServerOk(c.n, m.candidate, cand);
    assert AckMessageOk(s, m) && AckOk(s, a) && ContenderOk(s, cand);
    assert Keeps(s.h.logs, sv, a.term, n);
    if !Agree(sv.log, s.h.logs[a.term], n) {
      var u: nat :| u < sv.term + 1 && Overruled(s.h.logs, a.term, n, u);
      assert u != m.term;
    } else {
      assert TermsUpTo(cand.log, cand.term);
      BetterLogHolds(s.h.logs, sv.log, cand.log, a.term, n, m.term);
    }
  }

  /** A log that is at least as up to date holds it too, unless a later leader overruled it. */
  lemma BetterLogHolds(logs: map<nat, seq<Entry>>, log: seq<Entry>, better: seq<Entry>, t: nat, n: nat, limit: nat)
    requires Anchored(logs, log) && Anchored(logs, better) && (forall u :: u in logs ==> TermsUpTo(logs[u], u))
    requires Own(logs, t, n) && Agree(log, logs[t], n) && better != []
    requires limit !in logs && TermsUpTo(better, limit)
    requires Last(better).term > Last(log).term || (Last(better).term == Last(log).term && |better| >= |log|)
    ensures Held(logs, better, t, n, limit)
  {
    var x, y := |log| - 1, |better| - 1;
    var u := better[y].term;
    assert AnchoredAt(logs, log, x) && AnchoredAt(logs, better, y);
    assert better == better[..y + 1] == logs[u][..y + 1];
    assert log == log[..x + 1] == logs[log[x].term][..x + 1];
    if u == log[x].term {
      assert better[..n + 1] == logs[u][..n + 1] == log[..n + 1];
    } else {
      assert log[n] == log[..n + 1][n] == logs[t][..n + 1][n];
      TermsAscend(logs, log, n, x);
      LaterLeader(logs, t, n, u, y);
      if Agree(logs[u], logs[t], n) {
        assert better[..n + 1] == logs[u][..n + 1];
      }
    }
  }

  /** The log of a later leader, from a place of its own term on, has it or contradicts it. */
  lemma LaterLeader(logs: map<nat, seq<Entry>>, t: nat, n: nat, u: nat, y: nat)
    requires t in logs && TermsUpTo(logs[t], t) && n < |logs[t]|
    requires t < u && u in logs && y < |logs[u]| && logs[u][y].term == u
    ensures Overruled(logs, t, n, u) || (Agree(logs[u], logs[t], n) && n < y)
  {
    if !Clash(logs[u], logs[t], n) {
      assert forall k :: 0 <= k <= n && k < |logs[u]| ==> logs[u][k] == logs[t][k];
      assert n < y;
      assert logs[u][..n + 1] == logs[t][..n + 1];
    }
  }

  lemma WinnerHolds(s: State, s': State, i: nat, q: set<nat>)
    requires AcksOk(s) && BallotsHeld(s) && Progress(s, s', i)
    requires var sv := s.servers[i];
      && Running(s, i, sv.term) && Backers(s, sv.term, i, q)
      && s'.h.elections == s.h.elections[sv.term := Election(i, q)]
      && sv.term in s'.h.logs && s'.h.logs[sv.term] == sv.log
    ensures NewElections(s, s')
  {
    var sv := s.servers[i];
    forall t, a, n: nat | t in s'.h.elections && t !in s.h.elections && a in s.h.acks
      ensures ElectionHeld(s', t, a, n)
    {
      if a.voter in q && a.term < t && n <= a.index && Own(s'.h.logs, a.term, n) {
        assert BallotHeld(s, Ballot(t, a.voter, i), a, n) && AckOk(s, a);
        HeldKept(s.h.logs, s'.h.logs, sv.log, sv.log, a.term, n, t, t);
      }
    }
  }

  lemma WinKeepsAcks(c: Config, s: State, step: Step)
    requires Sound(c) && Inv(c, s) && Enabled(s, step) && step.TakeVoteReply? && Votes(c, Apply(c, s, step))
    requires s.servers[step.i].role == Candidate && OnVoteReply(c, s.servers[step.i], step.m).role == Leader
    ensures Acks(c, Apply(c, s, step))
  {
    assert ServerOk(c.n, step.i, s.servers[step.i]);
    WinFacts(c, s, step.i, step.m);
    WinRest(c, s, step);
    StepKeepsAcks(c, s, Apply(c, s, step), step.i);
  }

  lemma WinRest(c: Config, s: State, step: Step)
    requires Acks(c, s) && Enabled(s, step) && step.TakeVoteReply? && OnVoteReply(c, s.servers[step.i], step.m).role == Leader
    requires s.h.logs.Keys == s.h.elections.Keys + {0}
    requires var sv := s.servers[step.i];
      && Running(s, step.i, sv.term) && sv.term > 0 && sv.log != [] && sv.id == step.i && sv.term == step.m.term
      && Backers(s, sv.term, step.i, sv.voters + {step.m.from})
    ensures var s', i := Apply(c, s, step), step.i;
      && Progress(s, s', i) && MoverHolds(s, s', i) && FreshAcks(s, s', i) && NewElections(s, s')
      && MoverBallots(s, s', i) && MoverMessages(s, s', i) && LeaderAckOk(c, s', s'.servers[i])
  {
    var s', i := Apply(c, s, step), step.i;
    var sv := s.servers[i];
    assert Progress(s, s', i);
    GrowingLogHolds(s, s', i);
    WinnerHolds(s, s', i, sv.voters + {step.m.from});
    assert FreshAck(s', i, Ack(sv.term, i, |sv.log| - 1));
  }

  lemma VoteReplyKeepsAcks(c: Config, s: State, step: Step)
    requires Sound(c) && Inv(c, s) && Enabled(s, step) && step.TakeVoteReply? && Votes(c, Apply(c, s, step))
    ensures Acks(c, Apply(c, s, step))
  {
    hide Apply, OnVoteReply, Acks, Shape, Votes, Logs;
    var sv := s.servers[step.i];
    if sv.role == Candidate && OnVoteReply(c, sv, step.m).role == Leader {
      WinKeepsAcks(c, s, step);
    } else {
      LostVoteKeepsAcks(c, s, step);
    }
  }

  lemma LostVoteKeepsAcks(c: Config, s: State, step: Step)
    requires Acks(c, s) && Enabled(s, step) && step.TakeVoteReply? && Votes(c, Apply(c, s, step))
    requires !(s.servers[step.i].role == Candidate && OnVoteReply(c, s.servers[step.i], step.m).role == Leader)
    ensures Acks(c, Apply(c, s, step))
  {
    hide Votes, AcksOk, BallotsHeld, ElectionsHeld, AckMessages, StartElection, RequestFrom, OnVoteRequest, Replicate, AppendFor, OnAppend, OnAppendReply;
    assert LeaderAckOk(c, s, s.servers[step.i]);
    QuietStepKeepsAcks(c, s, Apply(c, s, step), step.i);
  }

  /** A step that changes no log, acknowledges nothing and casts no vote. */
  lemma QuietStepKeepsAcks(c: Config, s: State, s': State, i: nat)
    requires Acks(c, s) && Votes(c, s') && Progress(s, s', i) && s'.h == s.h
    requires forall m :: m in s'.net && m !in s.net ==> AckMessageOk(s', m)
    requires var sv, sv' := s.servers[i], s'.servers[i];
      && sv'.log == sv.log
      && (sv'.role == Candidate ==> sv.role == Candidate && sv'.term == sv.term)
      && LeaderAckOk(c, s', sv')
    ensures Acks(c, s')
  {
    GrowingLogHolds(s, s', i);
    SameCandidacy(s, s', i);
    StepKeepsAcks(c, s, s', i);
  }

  lemma ClientCommandKeepsAcks(c: Config, s: State, step: Step)
    requires Acks(c, s) && Enabled(s, step) && step.ClientCommand? && Votes(c, Apply(c, s, step))
    requires ServerOk(c.n, step.i, s.servers[step.i]) && LeaderLogOk(s.h, s.servers[step.i])
    ensures Acks(c, Apply(c, s, step))
  {
    hide StartElection, RequestFrom, OnVoteRequest, OnVoteReply, AppendFor, OnAppend, OnAppendReply;
    var s', i := Apply(c, s, step), step.i;
    assert LeaderAckOk(c, s, s.servers[i]);
    if s.servers[i].role == Leader {
      assert Progress(s, s', i);
      GrowingLogHolds(s, s', i);
      assert FreshAcks(s, s', i);
      assert MoverBallots(s, s', i);
      StepKeepsAcks(c, s, s', i);
    } else {
      QuietStepKeepsAcks(c, s, s', i);
    }
  }

  /** Following a leader drops an acknowledged entry only where that leader's log contradicts it. */
  lemma FollowerHolds(c: Config, s: State, s': State, i: nat, m: Message)
    requires AcksOk(s) && i < |s.servers| && m.Append? && Heeds(c, s.servers[i], m) && LogMessageOk(s.h, m)
    requires Anchored(s.h.logs, s.servers[i].log) && (m.term in s.h.logs ==> Anchored(s.h.logs, s.h.logs[m.term]))
    requires OnAppend(c, s.servers[i], m).1 && |s'.servers| == |s.servers| && s'.h.logs == s.h.logs
    requires s'.servers[i] == OnAppend(c, s.servers[i], m).0
    ensures MoverHolds(s, s', i)
    ensures FreshAck(s', i, Ack(m.term, i, m.prevIndex + |m.entries|))
  {
    hide Merge, Anchored, Agree, AckOk;
    var sv, sv' := s.servers[i], s'.servers[i];
    var lead := s.h.logs[m.term];
    var cut := MergeWithLeader(s.h.logs, sv.log, lead, m.prevIndex + 1, m.entries);
    var end := m.prevIndex + 1 + |m.entries|;
    MergedAgrees(sv.log, lead, sv'.log, cut, end);
    forall a, n: nat | a in s.h.acks && a.voter == i && n <= a.index
      ensures Keeps(s.h.logs, sv', a.term, n)
    {
      OldAckHeld(s, a, n);
      if cut < end {
        MergeHolds(s.h.logs, sv.log, lead, cut, end, a.term, n, sv.term, m.term);
      } else {
        HeldKept(s.h.logs, s.h.logs, sv.log, sv.log, a.term, n, sv.term + 1, sv'.term + 1);
      }
    }
  }

  lemma OldAckHeld(s: State, a: Ack, n: nat)
    requires AcksOk(s) && a in s.h.acks && n <= a.index
    ensures a.voter < |s.servers| && a.term <= s.servers[a.voter].term
    ensures Held(s.h.logs, s.servers[a.voter].log, a.term, n, s.servers[a.voter].term + 1)
  {
    assert AckOk(s, a) && Keeps(s.h.logs, s.servers[a.voter], a.term, n);
  }

  /** The merged log has what was sent. */
  lemma MergedAgrees(log: seq<Entry>, lead: seq<Entry>, log': seq<Entry>, cut: nat, end: nat)
    requires 0 < end <= |lead| && cut <= end && cut <= |log| && log[..cut] == lead[..cut]
    requires log' == if cut == end then log else lead[..end]
    ensures Agree(log', lead, end - 1) && Agree(lead, log', end - 1)
  {
  }

  lemma MergeHolds(logs: map<nat, seq<Entry>>, log: seq<Entry>, lead: seq<Entry>, cut: nat, end: nat,
                   t: nat, n: nat, term: nat, newTerm: nat)
    requires t <= term <= newTerm && newTerm in logs && logs[newTerm] == lead
    requires cut < end <= |lead| && cut <= |log| && log[..cut] == lead[..cut]
    requires cut < |log| ==> log[cut].term != lead[cut].term
    requires Held(logs, log, t, n, term + 1)
    ensures Held(logs, lead[..end], t, n, newTerm + 1)
  {
    if !Agree(log, logs[t], n) {
      var u: nat :| u < term + 1 && Overruled(logs, t, n, u);
      assert u < newTerm + 1;
    } else if n < cut {
      assert lead[..end][..n + 1] == lead[..cut][..n + 1] == log[..cut][..n + 1] == log[..n + 1];
    } else {
      assert log[cut] == log[..n + 1][cut] == logs[t][..n + 1][cut] == logs[t][cut];
      assert Overruled(logs, t, n, newTerm);
    }
  }

  lemma TakeAppendKeepsAcks(c: Config, s: State, step: Step)
    requires SoundTerms(c) && Inv(c, s) && Enabled(s, step) && step.TakeAppend? && Votes(c, Apply(c, s, step))
    ensures Acks(c, Apply(c, s, step))
  {
    var i, m := step.i, step.m;
    var sv := s.servers[i];
    assert LogMessageOk(s.h, m) && LeaderOk(s, sv) && ServerOk(c.n, i, sv);
    HeedsLeader(c, s, i, m);
    TakeAppendRest(c, s, step);
    StepKeepsAcks(c, s, Apply(c, s, step), step.i);
  }

  lemma TakeAppendRest(c: Config, s: State, step: Step)
    requires Acks(c, s) && Enabled(s, step) && step.TakeAppend? && LogMessageOk(s.h, step.m) && Heeds(c, s.servers[step.i], step.m)
    requires var sv := s.servers[step.i];
      && Anchored(s.h.logs, sv.log) && Anchored(s.h.logs, s.h.logs[step.m.term])
      && sv.log != [] && LeaderOk(s, sv) && sv.id == step.i
    ensures var s', i := Apply(c, s, step), step.i;
      && Progress(s, s', i) && MoverHolds(s, s', i) && FreshAcks(s, s', i) && NewElections(s, s')
      && MoverBallots(s, s', i) && MoverMessages(s, s', i) && LeaderAckOk(c, s', s'.servers[i])
  {
    hide Merge;
    var s', i, m := Apply(c, s, step), step.i, step.m;
    assert LeaderAckOk(c, s, s.servers[i]);
    assert Progress(s, s', i);
    SameCandidacy(s, s', i);
    if OnAppend(c, s.servers[i], m).1 {
      FollowerHolds(c, s, s', i, m);
    } else {
      GrowingLogHolds(s, s', i);
    }
  }

  lemma SendKeepsAcks(c: Config, s: State, step: Step)
    requires Acks(c, s) && Enabled(s, step) && Votes(c, Apply(c, s, step))
    requires ServerOk(c.n, step.i, s.servers[step.i])
    requires step.AskVotes? || step.SendAppend?
    ensures Acks(c, Apply(c, s, step))
  {
    hide StartElection, OnVoteRequest, OnVoteReply, Replicate, OnAppend, OnAppendReply;
    assert LeaderAckOk(c, s, s.servers[step.i]);
    QuietStepKeepsAcks(c, s, Apply(c, s, step), step.i);
  }

  lemma ReplyCounts(c: Config, s: State, sv: Server, m: Message)
    requires LeaderAckOk(c, s, sv) && AckMessageOk(s, m)
    requires m.AppendReply? && m.from != sv.id && PeerNumber(sv.id, m.from) < |sv.matchIndex|
    ensures LeaderAckOk(c, s, OnAppendReply(c, sv, m))
  {
    assert PeerId(sv.id, PeerNumber(sv.id, m.from)) == m.from;
  }

  lemma AppendReplyKeepsAcks(c: Config, s: State, step: Step)
    requires Acks(c, s) && Enabled(s, step) && step.TakeAppendReply? && Votes(c, Apply(c, s, step))
    ensures Acks(c, Apply(c, s, step))
  {
    hide StartElection, RequestFrom, OnVoteRequest, OnVoteReply, Replicate, AppendFor, OnAppend, CommitFrom, Votes, AcksOk, BallotsHeld, ElectionsHeld;
    var sv := s.servers[step.i];
    assert LeaderAckOk(c, s, sv) && AckMessageOk(s, step.m);
    ReplyCounts(c, s, sv, step.m);
    QuietStepKeepsAcks(c, s, Apply(c, s, step), step.i);
  }

  lemma AcksKept(c: Config, s: State, step: Step)
    requires Sound(c) && Inv(c, s) && Enabled(s, step) && Votes(c, Apply(c, s, step))
    ensures Acks(c, Apply(c, s, step))
  {
    assert ServerOk(c.n, step.i, s.servers[step.i]) && LeaderLogOk(s.h, s.servers[step.i]);
    match step
    case Timeout(_) => TimeoutKeepsAcks(c, s, step);
    case TakeVoteRequest(_, _) => VoteRequestKeepsAcks(c, s, step);
    case TakeVoteReply(_, _) => VoteReplyKeepsAcks(c, s, step);
    case ClientCommand(_, _) => ClientCommandKeepsAcks(c, s, step);
    case TakeAppend(_, _) => TakeAppendKeepsAcks(c, s, step);
    case TakeAppendReply(_, _) => AppendReplyKeepsAcks(c, s, step);
    case _ => SendKeepsAcks(c, s, step);
  }
}
