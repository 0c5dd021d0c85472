/** Leader completeness and state machine safety (section 5.4 of the Raft paper), and the theorems
    about whole runs.  An entry that term t itself put is chosen when enough servers have acknowledged it to
    the leader of t that every election has a voter among them: a strict majority always is enough, and in a
    cluster of at most two a single server is.  Every server's commit index lies on a chosen prefix.
 */
module RaftSafety {
  import opened Basics
  import opened RaftHandlers
  import opened RaftProtocol
  import opened RaftElection
  import opened RaftLog
  import opened RaftAcks

  ghost predicate AckedBy(h: History, t: nat, v: nat, n: nat) {
    exists a :: a in h.acks && a.term == t && a.voter == v && a.index >= n
  }

  ghost predicate AllAcked(h: History, q: set<nat>, t: nat, n: nat) {
    forall v :: v in q ==> AckedBy(h, t, v, n)
  }

  ghost predicate Meets(q: set<nat>, r: set<nat>) {
    exists v :: v in q && v in r
  }

  /** Whoever wins an election has a voter in `q`. */
  ghost predicate Covers(n: nat, q: set<nat>) {
    forall r :: Quorum(n, r) ==> Meets(q, r)
  }

  lemma QuorumCovers(n: nat, q: set<nat>)
    requires Quorum(n, q)
    ensures Covers(n, q)
  {
    forall r | Quorum(n, r)
      ensures Meets(q, r)
    {
      var v := QuorumsMeet(n, q, r);
    }
  }

  /** In a cluster of at most two, a single server does. */
  lemma SingleCovers(n: nat, v: nat)
    requires v < n <= 2
    ensures Covers(n, {v})
  {
    forall r | Quorum(n, r)
      ensures Meets({v}, r)
    {
      if v !in r {
        assert r <= {if v == 0 then 1 else 0};
        BoundedSet(n, r);
        BoundedBelow(r, {if v == 0 then 1 else 0});
        assert false;
      }
    }
  }

  ghost predicate Chosen(c: Config, h: History, t: nat, n: nat) {
    Own(h.logs, t, n) && exists q :: Covers(c.n, q) && AllAcked(h, q, t, n)
  }

  /** The ways of counting that make a committed entry a chosen one: what replies acknowledge always, the
      coded counter in clusters of at most two servers. */
  predicate SoundCounter(c: Config) {
    c.counter == Acknowledged || c.n <= 2
  }

  /** Some voter of a later leader has acknowledged what is chosen. */
  lemma ChosenHeld(c: Config, s: State, t: nat, n: nat, t': nat)
    requires Inv(c, s) && Chosen(c, s.h, t, n) && t' in s.h.elections && t < t'
    ensures t' in s.h.logs && Held(s.h.logs, s.h.logs[t'], t, n, t')
  {
    hide Shape, Logs, AcksOk, BallotsHeld, AckMessages, LeaderAcks, ContenderOk, LeaderOk, Held;
    var q :| Covers(c.n, q) && AllAcked(s.h, q, t, n);
    assert ElectionOk(c, s, t');
    assert Meets(q, s.h.elections[t'].voters);
    var v :| v in q && v in s.h.elections[t'].voters;
    assert AckedBy(s.h, t, v, n);
    var a :| a in s.h.acks && a.term == t && a.voter == v && a.index >= n;
    assert ElectionHeld(s, t', a, n);
  }

  /** What is chosen in a term is in the log of every later leader, for either way of testing a vote. */
  lemma {:induction false} LeaderCompleteness(c: Config, s: State, t: nat, n: nat, t': nat)
    requires Inv(c, s) && Chosen(c, s.h, t, n) && t' in s.h.elections && t < t'
    ensures t' in s.h.logs && Agree(s.h.logs[t'], s.h.logs[t], n)
    decreases t'
  {
    ChosenHeld(c, s, t, n, t');
    hide Inv, Chosen, Agree, Clash;
    if !Agree(s.h.logs[t'], s.h.logs[t], n) {
      var u: nat :| u < t' && Overruled(s.h.logs, t, n, u);
      LogsOfElected(c, s, u);
      LeaderCompleteness(c, s, t, n, u);
      NoClash(s.h.logs[u], s.h.logs[t], n);
    }
  }

  lemma NoClash(a: seq<Entry>, b: seq<Entry>, n: nat)
    requires Agree(a, b, n)
    ensures !Clash(a, b, n)
  {
    forall k | 0 <= k <= n
      ensures a[k] == b[k]
    {
      assert a[..n + 1][k] == b[..n + 1][k];
    }
  }

  // ----- the commit indices

  /** Up to n, `log` is a prefix of something chosen in a term up to `limit`. */
  ghost predicate Backed(c: Config, h: History, log: seq<Entry>, n: nat, limit: nat) {
    exists t: nat :: t <= limit && Chosen(c, h, t, n) && Agree(log, h.logs[t], n)
  }

  ghost predicate CommitOk(c: Config, h: History, sv: Server) {
    sv.commit < |sv.log| && Backed(c, h, sv.log, sv.commit, sv.term)
  }

  ghost predicate CommitMessageOk(c: Config, h: History, m: Message) {
    m.Append? ==>
      && m.leaderCommit <= m.prevIndex + |m.entries|
      && m.term in h.logs && Backed(c, h, h.logs[m.term], m.leaderCommit, m.term)
  }

  ghost predicate Commits(c: Config, s: State) {
    && (forall i :: 0 <= i < |s.servers| ==> CommitOk(c, s.h, s.servers[i]))
    && (forall m :: m in s.net ==> CommitMessageOk(c, s.h, m))
  }

  ghost predicate HistoryGrows(h: History, h': History) {
    Extends(h.logs, h'.logs) && h.acks <= h'.acks
  }

  lemma ChosenKept(c: Config, h: History, h': History, t: nat, n: nat)
    requires HistoryGrows(h, h') && Chosen(c, h, t, n)
    ensures Chosen(c, h', t, n)
  {
    var q :| Covers(c.n, q) && AllAcked(h, q, t, n);
    forall v | v in q
      ensures AckedBy(h', t, v, n)
    {
      assert AckedBy(h, t, v, n);
    }
    assert AllAcked(h', q, t, n);
  }

  lemma BackedKept(c: Config, h: History, h': History, log: seq<Entry>, log': seq<Entry>, n: nat, limit: nat, limit': nat)
    requires HistoryGrows(h, h') && log <= log' && limit <= limit' && Backed(c, h, log, n, limit)
    ensures Backed(c, h', log', n, limit')
  {
    var t: nat :| t <= limit && Chosen(c, h, t, n) && Agree(log, h.logs[t], n);
    ChosenKept(c, h, h', t, n);
    AgreeKept(log, log', h.logs[t], h'.logs[t], n);
  }

  /** The log of any elected term from `limit` on agrees with a backed prefix. */
  lemma BackedMeetsLeader(c: Config, s: State, log: seq<Entry>, n: nat, limit: nat, t': nat)
    requires Inv(c, s) && Backed(c, s.h, log, n, limit) && limit <= t' && t' in s.h.elections
    ensures t' in s.h.logs && Agree(log, s.h.logs[t'], n)
  {
    hide Inv;
    var t: nat :| t <= limit && Chosen(c, s.h, t, n) && Agree(log, s.h.logs[t], n);
    if t < t' {
      LeaderCompleteness(c, s, t, n, t');
      AgreeTrans(log, s.h.logs[t], s.h.logs[t'], n);
    }
  }

  lemma AgreeTrans(x: seq<Entry>, y: seq<Entry>, z: seq<Entry>, n: nat)
    requires Agree(x, y, n) && Agree(z, y, n)
    ensures Agree(x, z, n)
  {
  }

  lemma LogsOfElected(c: Config, s: State, t: nat)
    requires Inv(c, s) && t in s.h.logs && t > 0
    ensures t in s.h.elections
  {
  }

  /** Two backed prefixes never disagree. */
  lemma BackedAgree(c: Config, s: State, a: seq<Entry>, n: nat, la: nat, b: seq<Entry>, m: nat, lb: nat, k: nat)
    requires Inv(c, s) && Backed(c, s.h, a, n, la) && Backed(c, s.h, b, m, lb)
    requires k <= n && k <= m
    ensures Agree(a, b, k)
  {
    hide Inv;
    var t: nat :| t <= la && Chosen(c, s.h, t, n) && Agree(a, s.h.logs[t], n);
    var u: nat :| u <= lb && Chosen(c, s.h, u, m) && Agree(b, s.h.logs[u], m);
    ShorterAgree(a, s.h.logs[t], n, k);
    ShorterAgree(b, s.h.logs[u], m, k);
    if t < u {
      LogsOfElected(c, s, u);
      LeaderCompleteness(c, s, t, n, u);
      ShorterAgree(s.h.logs[u], s.h.logs[t], n, k);
    } else if u < t {
      LogsOfElected(c, s, t);
      LeaderCompleteness(c, s, u, m, t);
      ShorterAgree(s.h.logs[t], s.h.logs[u], m, k);
    }
  }

  /** The peers counted by `update_commit_index`, as servers. */
  lemma {:induction false} Matchers(self: nat, matchIndex: seq<nat>, k: nat) returns (q: set<nat>)
    ensures |q| == MatchCount(matchIndex, k) && self !in q
    ensures forall v :: v in q ==> exists p :: 0 <= p < |matchIndex| && v == PeerId(self, p) && matchIndex[p] >= k
  {
    if matchIndex == [] {
      q := {};
    } else {
      var z := |matchIndex| - 1;
      var rest := matchIndex[..z];
      q := Matchers(self, rest, k);
      forall v | v in q
        ensures v != PeerId(self, z)
        ensures exists p :: 0 <= p < |matchIndex| && v == PeerId(self, p) && matchIndex[p] >= k
      {
        var p :| 0 <= p < |rest| && v == PeerId(self, p) && rest[p] >= k;
        assert matchIndex[p] >= k;
      }
      if matchIndex[z] >= k {
        q := q + {PeerId(self, z)};
      }
    }
  }

  /** Enough peers and the leader itself are a strict majority of the cluster, whatever its size. */
  lemma CommitQuorum(c: Config, h: History, sv: Server, k: nat)
    requires sv.id < c.n && |sv.matchIndex| == c.n - 1 && 0 < k < |sv.log|
    requires MatchCount(sv.matchIndex, k) >= Majority(c.n - 1) && sv.log[k].term == sv.term
    requires Ack(sv.term, sv.id, |sv.log| - 1) in h.acks
    requires forall p :: 0 <= p < |sv.matchIndex| && sv.matchIndex[p] > 0 ==> Ack(sv.term, PeerId(sv.id, p), sv.matchIndex[p]) in h.acks
    requires sv.term in h.logs && h.logs[sv.term] == sv.log
    ensures Chosen(c, h, sv.term, k)
  {
    var q := Matchers(sv.id, sv.matchIndex, k);
    var q' := q + {sv.id};
    forall v | v in q'
      ensures v < c.n && AckedBy(h, sv.term, v, k)
    {
      if v != sv.id {
        var p :| 0 <= p < |sv.matchIndex| && v == PeerId(sv.id, p) && sv.matchIndex[p] >= k;
        assert Ack(sv.term, v, sv.matchIndex[p]) in h.acks;
      }
    }
    QuorumCovers(c.n, q');
    assert AllAcked(h, q', sv.term, k);
  }

  /** ... and in a cluster of at most two the leader alone will do. */
  lemma LeaderAlone(c: Config, h: History, sv: Server, k: nat)
    requires sv.id < c.n <= 2 && 0 < k < |sv.log| && sv.log[k].term == sv.term
    requires Ack(sv.term, sv.id, |sv.log| - 1) in h.acks && sv.term in h.logs && h.logs[sv.term] == sv.log
    ensures Chosen(c, h, sv.term, k)
  {
    SingleCovers(c.n, sv.id);
    assert AckedBy(h, sv.term, sv.id, k);
    assert AllAcked(h, {sv.id}, sv.term, k);
  }

  lemma CommitsInit(c: Config, s: State)
    requires Init(c, s)
    ensures Commits(c, s)
  {
    var q := Upto(c.n);
    UptoSize(c.n);
    forall v | v in q
      ensures AckedBy(s.h, 0, v, 0)
    {
      assert Ack(0, v, 0) in s.h.acks;
    }
    QuorumCovers(c.n, q);
    assert AllAcked(s.h, q, 0, 0);
    assert Chosen(c, s.h, 0, 0);
    forall i | 0 <= i < |s.servers|
      ensures CommitOk(c, s.h, s.servers[i])
    {
      assert Agree(s.servers[i].log, s.h.logs[0], 0);
    }
  }

  /** Everything but the mover's commit index and the new messages stays backed. */
  lemma StepKeepsCommits(c: Config, s: State, s': State, i: nat)
    requires Commits(c, s) && i < |s.servers| == |s'.servers| && HistoryGrows(s.h, s'.h)
    requires forall j :: 0 <= j < |s.servers| && j != i ==> s'.servers[j] == s.servers[j]
    requires CommitOk(c, s'.h, s'.servers[i])
    requires forall m :: m in s'.net && m !in s.net ==> CommitMessageOk(c, s'.h, m)
    ensures Commits(c, s')
  {
    forall j | 0 <= j < |s'.servers|
      ensures CommitOk(c, s'.h, s'.servers[j])
    {
      if j != i {
        var sv := s.servers[j];
        assert CommitOk(c, s.h, sv);
        BackedKept(c, s.h, s'.h, sv.log, sv.log, sv.commit, sv.term, sv.term);
      }
    }
    forall m | m in s'.net
      ensures CommitMessageOk(c, s'.h, m)
    {
      if m in s.net && m.Append? {
        assert CommitMessageOk(c, s.h, m);
        BackedKept(c, s.h, s'.h, s.h.logs[m.term], s'.h.logs[m.term], m.leaderCommit, m.term, m.term);
      }
    }
  }

  /** A server whose log only grows keeps its commit index backed. */
  lemma GrowingLogStaysBacked(c: Config, h: History, h': History, sv: Server, sv': Server)
    requires HistoryGrows(h, h') && CommitOk(c, h, sv)
    requires sv.log <= sv'.log && sv'.commit == sv.commit && sv.term <= sv'.term
    ensures CommitOk(c, h', sv')
  {
    BackedKept(c, h, h', sv.log, sv'.log, sv.commit, sv.term, sv'.term);
  }

  /** What a follower keeps and what it newly commits is backed: nothing committed is ever cut off. */
  lemma FollowerStaysBacked(c: Config, s: State, i: nat, m: Message)
    requires SoundTerms(c) && Inv(c, s) && Commits(c, s) && i < |s.servers| && m in s.net && m.Append?
    requires OnAppend(c, s.servers[i], m).1
    ensures CommitOk(c, s.h, OnAppend(c, s.servers[i], m).0)
  {
    var sv := s.servers[i];
    assert LogMessageOk(s.h, m) && CommitMessageOk(c, s.h, m) && CommitOk(c, s.h, sv);
    HeedsLeader(c, s, i, m);
    BackedMeetsLeader(c, s, sv.log, sv.commit, sv.term, m.term);
    FollowerCommit(c, s.h, sv, m);
  }

  lemma FollowerCommit(c: Config, h: History, sv: Server, m: Message)
    requires m.Append? && Heeds(c, sv, m) && OnAppend(c, sv, m).1 && LogMessageOk(h, m) && CommitMessageOk(c, h, m) && CommitOk(c, h, sv)
    requires Anchored(h.logs, sv.log) && Anchored(h.logs, h.logs[m.term]) && Agree(sv.log, h.logs[m.term], sv.commit)
    ensures CommitOk(c, h, OnAppend(c, sv, m).0)
  {
    hide Merge, Backed, Anchored;
    var sv' := OnAppend(c, sv, m).0;
    var lead, end := h.logs[m.term], m.prevIndex + 1 + |m.entries|;
    var cut := MergeWithLeader(h.logs, sv.log, lead, m.prevIndex + 1, m.entries);
    MergedAgrees(sv.log, lead, sv'.log, cut, end);
    if sv'.commit == sv.commit {
      KeptUpToCommit(sv.log, lead, sv'.log, cut, end, sv.commit);
      TransferBacked(c, h, sv.log, sv'.log, sv.commit, sv.term, sv'.term);
    } else {
      assert sv'.commit == m.leaderCommit;
      ShorterAgree(lead, sv'.log, end - 1, sv'.commit);
      TransferBacked(c, h, lead, sv'.log, sv'.commit, m.term, sv'.term);
    }
  }

  lemma KeptUpToCommit(log: seq<Entry>, lead: seq<Entry>, log': seq<Entry>, cut: nat, end: nat, n: nat)
    requires Agree(log, lead, n) && cut <= end <= |lead| && cut <= |log| && log[..cut] == lead[..cut]
    requires cut == end ==> log' == log
    requires cut < end ==> log' == lead[..end] && (cut < |log| ==> log[cut].term != lead[cut].term)
    ensures Agree(log, log', n)
  {
    if cut < end {
      if cut <= n {
        assert false;
      }
      assert log'[..n + 1] == lead[..n + 1];
    }
  }

  lemma TransferBacked(c: Config, h: History, log: seq<Entry>, log': seq<Entry>, n: nat, limit: nat, limit': nat)
    requires Backed(c, h, log, n, limit) && Agree(log, log', n) && limit <= limit'
    ensures Backed(c, h, log', n, limit')
  {
    var t: nat :| t <= limit && Chosen(c, h, t, n) && Agree(log, h.logs[t], n);
    assert Agree(log', h.logs[t], n);
  }

  lemma LeaderCommit(c: Config, s: State, sv: Server, m: Message)
    requires m.AppendReply? && m.from != sv.id && |sv.matchIndex| == c.n - 1 && PeerNumber(sv.id, m.from) < |sv.matchIndex| && sv.id < c.n
    requires LeaderAckOk(c, s, sv) && AckMessageOk(s, m) && LeaderLogOk(s.h, sv) && CommitOk(c, s.h, sv)
    requires SoundCounter(c) && TermsUpTo(sv.log, sv.term)
    ensures CommitOk(c, s.h, OnAppendReply(c, sv, m))
  {
    var sv' := OnAppendReply(c, sv, m);
    ReplyCounts(c, s, sv, m);
    if sv'.commit == sv.commit {
      GrowingLogStaysBacked(c, s.h, s.h, sv, sv');
    } else {
      if c.counter == Acknowledged {
        CommitQuorum(c, s.h, sv', sv'.commit);
      } else {
        LeaderAlone(c, s.h, sv', sv'.commit);
      }
      assert Agree(sv'.log, s.h.logs[sv.term], sv'.commit);
    }
  }

  lemma SendStaysBacked(c: Config, s: State, i: nat, next: nat)
    requires Inv(c, s) && Commits(c, s) && i < |s.servers| && s.servers[i].role == Leader && 0 < next <= |s.servers[i].log|
    ensures CommitMessageOk(c, s.h, AppendFor(s.servers[i], next))
  {
    var sv := s.servers[i];
    assert ServerOk(c.n, i, sv) && LeaderLogOk(s.h, sv) && CommitOk(c, s.h, sv);
  }

  lemma LeaderNoteGrows(c: Config, s: State, step: Step)
    requires Sound(c) && Inv(c, s) && Enabled(s, step)
    ensures HistoryGrows(s.h, Apply(c, s, step).h)
  {
    hide Apply, OnVoteReply, Inv;
    var sv := s.servers[step.i];
    if step.TakeVoteReply? && sv.role == Candidate && OnVoteReply(c, sv, step.m).role == Leader {
      WinIsNew(c, s, step.i, step.m);
    }
    OwnLog(c, s, step.i);
    NoteGrows(c, s, step);
  }

  lemma OwnLog(c: Config, s: State, i: nat)
    requires Inv(c, s) && i < |s.servers|
    ensures LeaderLogOk(s.h, s.servers[i])
  {
    hide Shape, Votes, Acks, Anchored, TermsUpTo;
  }

  lemma WinIsNew(c: Config, s: State, i: nat, m: Message)
    requires Sound(c) && Inv(c, s) && i < |s.servers| && m.VoteReply? && m in s.net && m.to == i
    requires s.servers[i].role == Candidate && OnVoteReply(c, s.servers[i], m).role == Leader
    ensures m.term == s.servers[i].term && s.servers[i].term !in s.h.logs
  {
    WinFacts(c, s, i, m);
    hide Votes, Acks, Anchored, TermsUpTo, OnVoteReply;
  }

  lemma NoteGrows(c: Config, s: State, step: Step)
    requires Enabled(s, step) && LeaderLogOk(s.h, s.servers[step.i])
    requires step.TakeVoteReply? ==>
      var sv := s.servers[step.i];
      sv.role == Candidate && OnVoteReply(c, sv, step.m).role == Leader ==> step.m.term == sv.term && sv.term !in s.h.logs
    ensures HistoryGrows(s.h, Apply(c, s, step).h)
  {
    hide OnVoteRequest, OnAppend, OnAppendReply, AppendFor, RequestFrom, StartElection;
  }

  lemma CommitsKept(c: Config, s: State, step: Step)
    requires Sound(c) && SoundCounter(c) && Inv(c, s) && Commits(c, s) && Enabled(s, step)
    ensures Commits(c, Apply(c, s, step))
  {
    hide Inv;
    LeaderNoteGrows(c, s, step);
    MoverStaysBacked(c, s, step);
    NewMessagesBacked(c, s, step);
    StepKeepsCommits(c, s, Apply(c, s, step), step.i);
  }

  lemma NewMessagesBacked(c: Config, s: State, step: Step)
    requires Inv(c, s) && Commits(c, s) && Enabled(s, step)
    ensures forall m :: m in Apply(c, s, step).net && m !in s.net ==> CommitMessageOk(c, Apply(c, s, step).h, m)
  {
    hide StartElection, OnVoteRequest, OnVoteReply, Replicate, OnAppend, OnAppendReply;
    if step.SendAppend? {
      SendStaysBacked(c, s, step.i, step.next);
    }
  }

  lemma MoverStaysBacked(c: Config, s: State, step: Step)
    requires SoundTerms(c) && SoundCounter(c) && Inv(c, s) && Commits(c, s) && Enabled(s, step) && HistoryGrows(s.h, Apply(c, s, step).h)
    ensures CommitOk(c, Apply(c, s, step).h, Apply(c, s, step).servers[step.i])
  {
    hide Apply, OnAppend, OnAppendReply, Votes, Backed;
    var sv := s.servers[step.i];
    assert ServerOk(c.n, step.i, sv) && CommitOk(c, s.h, sv);
    if step.TakeAppend? && OnAppend(c, sv, step.m).1 {
      FollowerStaysBacked(c, s, step.i, step.m);
    } else if step.TakeAppendReply? {
      assert LeaderAckOk(c, s, sv) && AckMessageOk(s, step.m) && LeaderLogOk(s.h, sv) && TermsUpTo(sv.log, sv.term);
      LeaderCommit(c, s, sv, step.m);
    }
    MoverRest(c, s, step);
  }

  /** Steps that neither follow nor count leave the mover's commit index and extend its log. */
  lemma MoverRest(c: Config, s: State, step: Step)
    requires Enabled(s, step) && HistoryGrows(s.h, Apply(c, s, step).h)
    requires CommitOk(c, s.h, s.servers[step.i])
    requires step.TakeAppend? && OnAppend(c, s.servers[step.i], step.m).1 ==> CommitOk(c, s.h, OnAppend(c, s.servers[step.i], step.m).0)
    requires step.TakeAppendReply? ==> CommitOk(c, s.h, OnAppendReply(c, s.servers[step.i], step.m))
    ensures CommitOk(c, Apply(c, s, step).h, Apply(c, s, step).servers[step.i])
  {
    var s', sv := Apply(c, s, step), s.servers[step.i];
    var sv' := s'.servers[step.i];
    if (step.TakeAppend? && OnAppend(c, sv, step.m).1) || step.TakeAppendReply? {
      GrowingLogStaysBacked(c, s.h, s'.h, sv', sv');
    } else {
      GrowingLogStaysBacked(c, s.h, s'.h, sv, sv');
    }
  }

  // ----- over whole runs

  lemma NextKeeps(c: Config, s: State, s': State)
    requires Sound(c) && Inv(c, s) && Next(c, s, s')
    ensures Inv(c, s') && HistoryGrows(s.h, s'.h)
    ensures SoundCounter(c) && Commits(c, s) ==> Commits(c, s')
  {
    var step :| Enabled(s, step) && s' == Apply(c, s, step);
    ShapeKept(c, s, step);
    VotesKept(c, s, step);
    LogsKept(c, s, step);
    AcksKept(c, s, step);
    LeaderNoteGrows(c, s, step);
    if SoundCounter(c) && Commits(c, s) {
      CommitsKept(c, s, step);
    }
  }

  lemma Initially(c: Config, s: State)
    requires Init(c, s)
    ensures Inv(c, s) && Commits(c, s)
  {
    ShapeInit(c, s);
    VotesInit(c, s);
    LogsInit(c, s);
    AcksInit(c, s);
    CommitsInit(c, s);
  }

  lemma {:induction false} Reachable(c: Config, run: seq<State>, a: nat)
    requires Sound(c) && IsRun(c, run) && a < |run|
    ensures Inv(c, run[a]) && (SoundCounter(c) ==> Commits(c, run[a]))
  {
    hide Inv, Commits, Next, Init;
    if a == 0 {
      Initially(c, run[0]);
    } else {
      Reachable(c, run, a - 1);
      assert StepTo(c, run, a);
      NextKeeps(c, run[a - 1], run[a]);
    }
  }

  lemma {:induction false} HistoryAlong(c: Config, run: seq<State>, a: nat, b: nat)
    requires Sound(c) && IsRun(c, run) && a <= b < |run|
    ensures HistoryGrows(run[a].h, run[b].h)
  {
    hide Inv, Commits, Next, Init;
    if a < b {
      HistoryAlong(c, run, a, b - 1);
      Reachable(c, run, b - 1);
      assert StepTo(c, run, b);
      NextKeeps(c, run[b - 1], run[b]);
      ExtendsTrans(run[a].h.logs, run[b - 1].h.logs, run[b].h.logs);
    }
  }

  lemma ExtendsTrans(a: map<nat, seq<Entry>>, b: map<nat, seq<Entry>>, c: map<nat, seq<Entry>>)
    requires Extends(a, b) && Extends(b, c)
    ensures Extends(a, c)
  {
    forall t | t in a
      ensures t in c && a[t] <= c[t]
    {
      assert a[t] <= b[t] && b[t] <= c[t];
    }
  }

  /** Log matching: if the logs of any two servers, at any two moments of the run, have an entry of
      the same term at the same index, they are identical up to that index. */
  lemma LogMatching(c: Config, run: seq<State>, a: nat, i: nat, b: nat, j: nat, k: nat)
    requires Sound(c) && IsRun(c, run) && a < |run| && b < |run|
    requires i < |run[a].servers| && j < |run[b].servers|
    requires var x, y := run[a].servers[i].log, run[b].servers[j].log;
      k < |x| && k < |y| && x[k].term == y[k].term
    ensures run[a].servers[i].log[..k + 1] == run[b].servers[j].log[..k + 1]
    ensures run[a].servers[i].log[k].index == k
  {
    var z := |run| - 1;
    LogAnchored(c, run, a, i, z);
    LogAnchored(c, run, b, j, z);
    hide IsRun, Anchored;
    SameTermSamePrefix(run[z].h.logs, run[a].servers[i].log, run[b].servers[j].log, k);
  }

  lemma LogAnchored(c: Config, run: seq<State>, a: nat, i: nat, z: nat)
    requires Sound(c) && IsRun(c, run) && a <= z < |run| && i < |run[a].servers|
    ensures Anchored(run[z].h.logs, run[a].servers[i].log) && Indexed(run[a].servers[i].log, 0)
  {
    Reachable(c, run, a);
    HistoryAlong(c, run, a, z);
    hide Anchored, Acks, Votes, Commits, Indexed;
    AnchoredKept(run[a].h.logs, run[z].h.logs, run[a].servers[i].log);
    assert ServerOk(c.n, i, run[a].servers[i]);
  }

  lemma BackedAlong(c: Config, run: seq<State>, a: nat, i: nat, z: nat)
    requires Sound(c) && SoundCounter(c) && IsRun(c, run) && a <= z < |run| && i < |run[a].servers|
    ensures var sv := run[a].servers[i]; sv.commit < |sv.log| && Backed(c, run[z].h, sv.log, sv.commit, sv.term)
  {
    Reachable(c, run, a);
    HistoryAlong(c, run, a, z);
    var sv := run[a].servers[i];
    assert CommitOk(c, run[a].h, sv);
    BackedKept(c, run[a].h, run[z].h, sv.log, sv.log, sv.commit, sv.term, sv.term);
  }

  /** State machine safety: an index that two servers have both committed, at whatever moments of the
      run, holds the same entry in both, after the same entries. */
  lemma StateMachineSafety(c: Config, run: seq<State>, a: nat, i: nat, b: nat, j: nat, k: nat)
    requires Sound(c) && SoundCounter(c) && IsRun(c, run) && a < |run| && b < |run|
    requires i < |run[a].servers| && j < |run[b].servers|
    requires k <= run[a].servers[i].commit && k <= run[b].servers[j].commit
    ensures k < |run[a].servers[i].log| && k < |run[b].servers[j].log|
    ensures run[a].servers[i].log[..k + 1] == run[b].servers[j].log[..k + 1]
  {
    var z := |run| - 1;
    Reachable(c, run, z);
    BackedAlong(c, run, a, i, z);
    BackedAlong(c, run, b, j, z);
    var x, y := run[a].servers[i], run[b].servers[j];
    BackedAgree(c, run[z], x.log, x.commit, x.term, y.log, y.commit, y.term, k);
  }

  /** Whatever a server has committed is in the log of every later leader of its term or a newer one. */
  lemma LeadersHoldCommitted(c: Config, run: seq<State>, a: nat, i: nat, b: nat, j: nat)
    requires Sound(c) && SoundCounter(c) && IsRun(c, run) && a <= b < |run|
    requires i < |run[a].servers| && j < |run[b].servers|
    requires run[b].servers[j].role == Leader && run[a].servers[i].term <= run[b].servers[j].term
    ensures var x, y := run[a].servers[i], run[b].servers[j];
      x.commit < |x.log| && x.commit < |y.log| && x.log[..x.commit + 1] == y.log[..x.commit + 1]
  {
    hide Inv, Commits, Next, Init;
    var x := run[a].servers[i];
    Reachable(c, run, b);
    BackedAlong(c, run, a, i, b);
    BackedMeetsServer(c, run[b], x.log, x.commit, x.term, j);
  }

  lemma BackedMeetsServer(c: Config, s: State, log: seq<Entry>, n: nat, limit: nat, j: nat)
    requires Inv(c, s) && Backed(c, s.h, log, n, limit)
    requires j < |s.servers| && s.servers[j].role == Leader && limit <= s.servers[j].term
    ensures Agree(log, s.servers[j].log, n)
  {
    var y := s.servers[j];
    assert LeaderLogOk(s.h, y) && LeaderOk(s, y);
    BackedMeetsLeader(c, s, log, n, limit, y.term);
  }
}
