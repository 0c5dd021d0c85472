/** The match counter as coded: `match_index_` grows by one for every success, whatever was acknowledged and
    to which term.  Committed entries then agree in clusters of at most two servers and in no larger one.
 */
module RaftMatchCount {
  import opened RaftHandlers
  import opened RaftProtocol
  import opened RaftElection
  import opened RaftLog
  import opened RaftAcks
  import opened RaftSafety
  import opened RaftVoteCount

  /** What two servers have both committed, at whatever moments of the run, is the same. */
  ghost predicate CommitsAgree(run: seq<State>) {
    forall a, i, b, j, k: nat ::
      (0 <= a < |run| && 0 <= b < |run| && 0 <= i < |run[a].servers| && 0 <= j < |run[b].servers| &&
       k <= run[a].servers[i].commit && k <= run[b].servers[j].commit) ==> Agree(run[a].servers[i].log, run[b].servers[j].log, k)
  }

  // ----- a leader that commits what nobody else has

  ghost function End(run: seq<State>): State
    requires run != []
  {
    run[|run| - 1]
  }

  /** Server `v` has nothing in its log and is in term `t`. */
  ghost predicate Blank(c: Config, sv: Server, v: nat, t: nat) {
    sv.id == v && sv.role != Leader && sv.term == t && sv.log == [SENTINEL] && |sv.matchIndex| == c.n - 1 && sv.commit == 0
  }

  /** From server `from` on all are blank in term `t`. */
  ghost predicate BlankFrom(c: Config, s: State, from: nat, t: nat) {
    |s.servers| == c.n && forall v :: from <= v < c.n ==> Blank(c, s.servers[v], v, t)
  }

  ghost predicate SameBelow(s: State, s': State, n: nat) {
    |s'.servers| == |s.servers| && forall v :: 0 <= v < n && v < |s.servers| ==> s'.servers[v] == s.servers[v]
  }

  /** No entries have been sent in between. */
  ghost predicate NothingSent(s: State, s': State) {
    forall m :: m in s'.net && m.Append? ==> m in s.net
  }

  /** Everybody after candidate `l` votes for it. */
  lemma AllVote(c: Config, run0: seq<State>, l: nat, t: nat) returns (run: seq<State>)
    requires IsRun(c, run0) && l < c.n && t > 0 && BlankFrom(c, End(run0), l, t - 1)
    ensures IsRun(c, run) && SameBelow(End(run0), End(run), l) && BlankFrom(c, End(run), l, t)
    ensures End(run).servers[l].role == Candidate && End(run).servers[l].votes == 1 && End(run).servers[l].voters == {l}
    ensures forall v :: l < v < c.n ==> VoteReply(t, v, l, true) in End(run).net
    ensures NothingSent(End(run0), End(run))
  {
    hide Init, StepTo, OnVoteReply, Replicate, AppendFor, OnAppend, OnAppendReply;
    var req := VoteRequest(t, l, 0, 0);
    assert Blank(c, End(run0).servers[l], l, t - 1);
    run := Extend(c, run0, Timeout(l));
    var v := l + 1;
    while v < c.n
      invariant l < v <= c.n && IsRun(c, run) && SameBelow(End(run0), End(run), l) && |End(run).servers| == c.n
      invariant req in End(run).net && NothingSent(End(run0), End(run))
      invariant Blank(c, End(run).servers[l], l, t) && End(run).servers[l].role == Candidate
      invariant End(run).servers[l].votes == 1 && End(run).servers[l].voters == {l}
      invariant forall w :: l < w < v ==> Blank(c, End(run).servers[w], w, t) && VoteReply(t, w, l, true) in End(run).net
      invariant forall w :: v <= w < c.n ==> Blank(c, End(run).servers[w], w, t - 1)
    {
      run := Extend(c, run, TakeVoteRequest(v, req));
      v := v + 1;
    }
  }

  /** The candidate's count of votes while it has not won. */
  ghost predicate Counting(c: Config, sv: Server, l: nat, v: nat) {
    && sv.role == Candidate && sv.votes == v - l && |sv.voters| == v - l
    && (forall w :: w in sv.voters ==> l <= w < v)
    && (v > l + 1 ==> !Wins(c, sv))
  }

  ghost predicate InOffice(c: Config, sv: Server, l: nat, t: nat) {
    && sv.id == l && sv.role == Leader && sv.term == t && |sv.matchIndex| == c.n - 1 && sv.commit == 0
    && (forall p :: 0 <= p < |sv.matchIndex| ==> sv.matchIndex[p] == 0)
  }

  /** With all their replies it takes office, however votes are counted. */
  lemma AllElect(c: Config, run0: seq<State>, l: nat, t: nat) returns (run: seq<State>)
    requires IsRun(c, run0) && l + 1 < c.n && 2 * (c.n - l) > c.n && BlankFrom(c, End(run0), l, t)
    requires End(run0).servers[l].role == Candidate && End(run0).servers[l].votes == 1 && End(run0).servers[l].voters == {l}
    requires forall v :: l < v < c.n ==> VoteReply(t, v, l, true) in End(run0).net
    ensures IsRun(c, run) && SameBelow(End(run0), End(run), l) && BlankFrom(c, End(run), l + 1, t)
    ensures InOffice(c, End(run).servers[l], l, t) && End(run).servers[l].log == [SENTINEL]
    ensures End(run).net == End(run0).net
  {
    hide Init, StepTo, OnVoteRequest, Replicate, AppendFor, OnAppend, OnAppendReply, StartElection, RequestFrom;
    run := run0;
    var v := l + 1;
    assert Blank(c, End(run).servers[l], l, t);
    while v < c.n
      invariant l < v <= c.n && IsRun(c, run) && SameBelow(End(run0), End(run), l) && BlankFrom(c, End(run), l + 1, t)
      invariant End(run).net == End(run0).net
      invariant var sv := End(run).servers[l];
        sv.log == [SENTINEL] && (InOffice(c, sv, l, t) || (Blank(c, sv, l, t) && Counting(c, sv, l, v)))
    {
      ghost var s := End(run);
      run := Extend(c, run, TakeVoteReply(l, VoteReply(t, v, l, true)));
      assert forall w :: l < w < c.n ==> End(run).servers[w] == s.servers[w];
      v := v + 1;
    }
  }

  /** It sends a heartbeat, and everybody after it acknowledges index 0. */
  lemma AllAcknowledge(c: Config, run0: seq<State>, l: nat, t: nat) returns (run: seq<State>)
    requires IsRun(c, run0) && l < c.n && BlankFrom(c, End(run0), l + 1, t)
    requires InOffice(c, End(run0).servers[l], l, t) && End(run0).servers[l].log == [SENTINEL]
    ensures IsRun(c, run) && SameBelow(End(run0), End(run), l + 1) && BlankFrom(c, End(run), l + 1, t)
    ensures forall v :: l < v < c.n ==> AppendReply(t, v, l, true, 0) in End(run).net
  {
    var beat := Append(t, l, 0, 0, 0, []);
    assert End(run0).servers[l].log[1..] == [];
    assert AppendFor(End(run0).servers[l], 1) == beat;
    run := Extend(c, run0, SendAppend(l, 1));
    var v := l + 1;
    while v < c.n
      invariant l < v <= c.n && IsRun(c, run) && SameBelow(End(run0), End(run), l + 1) && BlankFrom(c, End(run), l + 1, t)
      invariant beat in End(run).net
      invariant forall w :: l < w < v ==> AppendReply(t, w, l, true, 0) in End(run).net
    {
      ghost var s := End(run);
      assert Blank(c, s.servers[v], v, t);
      assert Merge([SENTINEL], 1, []) == [SENTINEL];
      run := Extend(c, run, TakeAppend(v, beat));
      assert End(run).servers[v] == s.servers[v];
      v := v + 1;
    }
  }

  /** The leader has counted one success of each of the servers from `l + 1` to `v`. */
  ghost predicate Counted(c: Config, sv: Server, l: nat, t: nat, v: nat) {
    && sv.id == l && sv.role == Leader && sv.term == t && |sv.matchIndex| == c.n - 1 && sv.commit == 0
    && (forall p :: l <= p < v - 1 && p < |sv.matchIndex| ==> sv.matchIndex[p] >= 1)
  }

  lemma AllCounted(c: Config, run0: seq<State>, l: nat, t: nat) returns (run: seq<State>)
    requires c.counter == CountSuccesses && IsRun(c, run0) && l < c.n && BlankFrom(c, End(run0), l + 1, t)
    requires InOffice(c, End(run0).servers[l], l, t) && End(run0).servers[l].log == [SENTINEL]
    requires forall v :: l < v < c.n ==> AppendReply(t, v, l, true, 0) in End(run0).net
    ensures IsRun(c, run) && SameBelow(End(run0), End(run), l) && BlankFrom(c, End(run), l + 1, t) && End(run).net == End(run0).net
    ensures Counted(c, End(run).servers[l], l, t, c.n) && End(run).servers[l].log == [SENTINEL]
  {
    run := run0;
    var v := l + 1;
    while v < c.n
      invariant l < v <= c.n && IsRun(c, run) && SameBelow(End(run0), End(run), l) && BlankFrom(c, End(run), l + 1, t)
      invariant End(run).net == End(run0).net
      invariant Counted(c, End(run).servers[l], l, t, v) && End(run).servers[l].log == [SENTINEL]
    {
      ghost var s := End(run);
      run := Extend(c, run, TakeAppendReply(l, AppendReply(t, v, l, true, 0)));
      assert forall w :: l < w < c.n ==> End(run).servers[w] == s.servers[w];
      v := v + 1;
    }
  }

  lemma {:induction false} CountAtLeast(ms: seq<nat>, k: nat, from: nat)
    requires from <= |ms| && forall p :: from <= p < |ms| ==> ms[p] >= k
    ensures MatchCount(ms, k) >= |ms| - from
  {
    if from < |ms| {
      CountAtLeast(ms[..|ms| - 1], k, from);
    }
  }

  /** A leader that takes a command then, and one of those replies once more, commits the command. */
  lemma CommitsAlone(c: Config, run0: seq<State>, l: nat, t: nat, command: int) returns (run: seq<State>)
    requires c.counter == CountSuccesses && IsRun(c, run0) && l + 1 < c.n && c.n - 1 - l >= c.n / 2
    requires BlankFrom(c, End(run0), l + 1, t) && Counted(c, End(run0).servers[l], l, t, c.n) && End(run0).servers[l].log == [SENTINEL]
    requires AppendReply(t, l + 1, l, true, 0) in End(run0).net
    ensures IsRun(c, run) && SameBelow(End(run0), End(run), l) && BlankFrom(c, End(run), l + 1, t)
    ensures var sv := End(run).servers[l]; sv.log == [SENTINEL, Entry(1, t, command)] && sv.commit == 1
  {
    run := Extend(c, run0, ClientCommand(l, command));
    ghost var s := End(run);
    var reply := AppendReply(t, l + 1, l, true, 0);
    var counted := Matched(c, s.servers[l], reply);
    CountAtLeast(counted.matchIndex, 1, l);
    assert s.servers[l].log == [SENTINEL, Entry(1, t, command)];
    assert Committable(counted, 1);
    run := Extend(c, run, TakeAppendReply(l, reply));
    assert forall w :: l < w < c.n ==> End(run).servers[w] == s.servers[w];
  }

  /** Server `l` is elected by those after it and commits a command that none of them has. */
  lemma LeadsAndCommits(c: Config, run0: seq<State>, l: nat, t: nat, command: int) returns (run: seq<State>)
    requires c.counter == CountSuccesses && IsRun(c, run0) && t > 0 && BlankFrom(c, End(run0), l, t - 1)
    requires l + 1 < c.n && 2 * (c.n - l) > c.n && c.n - 1 - l >= c.n / 2
    ensures IsRun(c, run) && SameBelow(End(run0), End(run), l) && BlankFrom(c, End(run), l + 1, t)
    ensures var sv := End(run).servers[l]; sv.log == [SENTINEL, Entry(1, t, command)] && sv.commit == 1
  {
    hide IsRun, Blank, InOffice, Counted;
    run := AllVote(c, run0, l, t);
    run := AllElect(c, run, l, t);
    run := AllAcknowledge(c, run, l, t);
    run := AllCounted(c, run, l, t);
    run := CommitsAlone(c, run, l, t, command);
  }

  /** In every cluster of three or more, server 0 commits one command in term 1 and server 1 another, at the
      same index, in term 2. */
  lemma CommitsDiverge(c: Config) returns (run: seq<State>)
    requires c.counter == CountSuccesses && c.n >= 3
    ensures IsRun(c, run) && !CommitsAgree(run)
  {
    run := [Start(c.n)];
    run := LeadsAndCommits(c, run, 0, 1, 10);
    ghost var s := End(run);
    run := LeadsAndCommits(c, run, 1, 2, 20);
    var z := |run| - 1;
    assert run[z].servers[0] == s.servers[0];
    var x, y := run[z].servers[0].log, run[z].servers[1].log;
    assert x[..2][1] == Entry(1, 1, 10) && y[..2][1] == Entry(1, 2, 20);
    assert !Agree(x, y, 1);
  }

  /** Counting successes keeps all committed entries in agreement, over all runs, if and only if the cluster
      has at most two servers; however votes are counted and tested. */
  lemma CodedMatchSafeIff(c: Config)
    requires c.counter == CountSuccesses
    ensures (forall run :: IsRun(c, run) ==> CommitsAgree(run)) <==> c.n <= 2
  {
    if c.n <= 2 {
      forall run | IsRun(c, run)
        ensures CommitsAgree(run)
      {
        SafeAgrees(c, run);
      }
    } else {
      var run := CommitsDiverge(c);
    }
  }

  lemma SafeAgrees(c: Config, run: seq<State>)
    requires Sound(c) && SoundCounter(c) && IsRun(c, run)
    ensures CommitsAgree(run)
  {
    forall a, i, b, j, k: nat |
      0 <= a < |run| && 0 <= b < |run| && 0 <= i < |run[a].servers| && 0 <= j < |run[b].servers| &&
      k <= run[a].servers[i].commit && k <= run[b].servers[j].commit
      ensures Agree(run[a].servers[i].log, run[b].servers[j].log, k)
    {
      StateMachineSafety(c, run, a, i, b, j, k);
    }
  }
}
