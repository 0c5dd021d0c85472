/** The vote test as coded, for a candidate with the very same last entry, can leave a cluster without a leader
    for ever.  Leaders that take a command and are then deposed drive the logs apart; once no last entry is
    shared by enough servers, nobody is elected in any continuation.  So progress from the end of every run
    needs the test of the Raft paper, and a second server: nobody asks a server that is alone for its vote.
 */
module RaftStuck {
  import opened Basics
  import opened RaftHandlers
  import opened RaftProtocol
  import opened RaftElection
  import opened RaftLog
  import opened RaftAcks
  import opened RaftSafety
  import opened RaftVoteCount
  import opened RaftMatchCount
  import RaftKeptTerm
  import RaftOutcomes
  import RaftProgress

  // ----- stuck for ever

  ghost predicate SameEnd(a: Server, b: Server) {
    a.log != [] && b.log != [] && Last(a.log).index == Last(b.log).index && Last(a.log).term == Last(b.log).term
  }

  /** The servers whose last entry is that of server `i`. */
  ghost function Kin(s: State, i: nat): set<nat>
    requires i < |s.servers|
  {
    set v: nat | v < |s.servers| && SameEnd(s.servers[v], s.servers[i])
  }

  /** Those with a given last entry are no majority, and where replies are counted none has company. */
  ghost predicate Divided(c: Config, s: State) {
    forall i :: 0 <= i < |s.servers| ==> Kin(s, i) <= {i} || (c.rule == CountVoters && 2 * |Kin(s, i)| <= c.n)
  }

  /** A request or a vote for the present term of a candidate is from a server that ends like it. */
  ghost predicate MessageOk(s: State, m: Message) {
    match m
    case VoteRequest(t, cand, lastIndex, lastTerm) =>
      && cand < |s.servers| && t <= s.servers[cand].term
      && (t == s.servers[cand].term && s.servers[cand].role == Candidate ==>
            s.servers[cand].log != [] && lastIndex == Last(s.servers[cand].log).index && lastTerm == Last(s.servers[cand].log).term)
    case VoteReply(t, v, cand, granted) =>
      granted ==>
        && v < |s.servers| && cand < |s.servers| && v != cand && t <= s.servers[cand].term
        && (t == s.servers[cand].term && s.servers[cand].role == Candidate ==> SameEnd(s.servers[v], s.servers[cand]))
    case Append(_, _, _, _, _, _) => false
    case AppendReply(_, _, _, _, _) => true
  }

  ghost predicate Stuck(c: Config, s: State) {
    && (c.test == SameLast || c.n == 1) && |s.servers| == c.n && Divided(c, s)
    && (forall i :: 0 <= i < c.n ==> s.servers[i].id == i && s.servers[i].log != [] && s.servers[i].role != Leader)
    && (forall i :: 0 <= i < c.n && s.servers[i].role == Candidate ==> s.servers[i].voters <= Kin(s, i))
    && (forall m :: m in s.net ==> MessageOk(s, m))
  }

  /** Logs and commit indices are as they were. */
  ghost predicate Frozen(s: State, s': State) {
    |s'.servers| == |s.servers| && forall j :: 0 <= j < |s.servers| ==> s'.servers[j].log == s.servers[j].log && s'.servers[j].commit == s.servers[j].commit
  }

  lemma FrozenKin(c: Config, s: State, s': State)
    requires Frozen(s, s')
    ensures forall i :: 0 <= i < |s.servers| ==> Kin(s', i) == Kin(s, i)
    ensures Divided(c, s) ==> Divided(c, s')
  {
    assert forall i :: 0 <= i < |s.servers| ==> Kin(s', i) == Kin(s, i);
  }

  /** A step of one server that moves to no earlier term and, in its old term, is no new candidate. */
  lemma StuckMoves(c: Config, s: State, s': State, i: nat)
    requires Stuck(c, s) && i < c.n && |s'.servers| == c.n
    requires forall j :: 0 <= j < c.n && j != i ==> s'.servers[j] == s.servers[j]
    requires var sv, sv' := s.servers[i], s'.servers[i];
      && sv'.id == i && sv'.log == sv.log && sv'.commit == sv.commit && sv'.role != Leader && sv.term <= sv'.term
      && (sv'.term == sv.term && sv'.role == Candidate ==> sv.role == Candidate)
      && (sv'.role == Candidate ==> sv'.voters <= Kin(s, i))
    requires forall m :: m in s'.net && m !in s.net ==> MessageOk(s', m)
    ensures Stuck(c, s') && Frozen(s, s')
  {
    hide Kin;
    FrozenKin(c, s, s');
    forall m | m in s'.net
      ensures MessageOk(s', m)
    {
      if m in s.net {
        assert MessageOk(s, m);
      }
    }
  }

  lemma StuckTimeout(c: Config, s: State, i: nat)
    requires Stuck(c, s) && Enabled(s, Timeout(i))
    ensures var s' := Apply(c, s, Timeout(i)); Stuck(c, s') && Frozen(s, s')
  {
    assert i in Kin(s, i);
    StuckMoves(c, s, Apply(c, s, Timeout(i)), i);
  }

  lemma StuckVoteRequest(c: Config, s: State, i: nat, m: Message)
    requires Stuck(c, s) && Enabled(s, TakeVoteRequest(i, m))
    ensures var s' := Apply(c, s, TakeVoteRequest(i, m)); Stuck(c, s') && Frozen(s, s')
  {
    hide Kin, Divided;
    assert MessageOk(s, m);
    RaftOutcomes.VoteGrantedIff(c, s.servers[i], m);
    VoteKeepsRun(c, s.servers[i], m);
    hide OnVoteRequest;
    var s' := Apply(c, s, TakeVoteRequest(i, m));
    StuckMoves(c, s, s', i);
  }

  lemma VoteKeepsRun(c: Config, sv: Server, m: Message)
    requires m.VoteRequest? && sv.log != []
    ensures var sv' := OnVoteRequest(c, sv, m).0; sv'.id == sv.id && sv'.voters == sv.voters
  {
  }

  lemma StuckVoteReply(c: Config, s: State, i: nat, m: Message)
    requires Stuck(c, s) && Enabled(s, TakeVoteReply(i, m))
    ensures var s' := Apply(c, s, TakeVoteReply(i, m)); Stuck(c, s') && Frozen(s, s')
  {
    var sv := s.servers[i];
    assert MessageOk(s, m);
    if sv.role == Candidate && m.granted && m.term == sv.term {
      assert m.from in Kin(s, i);
      BoundedBelow(sv.voters + {m.from}, Kin(s, i));
    }
    hide Kin;
    StuckMoves(c, s, Apply(c, s, TakeVoteReply(i, m)), i);
  }

  lemma StuckStep(c: Config, s: State, step: Step)
    requires Stuck(c, s) && Enabled(s, step)
    ensures var s' := Apply(c, s, step); Stuck(c, s') && Frozen(s, s')
  {
    NothingToTake(c, s, step);
    if step.Timeout? {
      StuckTimeout(c, s, step.i);
    } else if step.TakeVoteRequest? {
      StuckVoteRequest(c, s, step.i, step.m);
    } else if step.TakeVoteReply? {
      StuckVoteReply(c, s, step.i, step.m);
    } else {
      StuckMoves(c, s, Apply(c, s, step), step.i);
    }
  }

  lemma NothingToTake(c: Config, s: State, step: Step)
    requires Stuck(c, s) && Enabled(s, step)
    ensures !step.TakeAppend? && !step.SendAppend?
  {
    assert step.TakeAppend? ==> MessageOk(s, step.m);
  }

  lemma {:induction false} StuckForever(c: Config, run: seq<State>, a: nat, b: nat)
    requires IsRun(c, run) && a <= b < |run| && Stuck(c, run[a])
    ensures Stuck(c, run[b]) && Frozen(run[a], run[b])
    decreases b
  {
    hide Stuck, Init, Enabled, Apply;
    if a < b {
      StuckForever(c, run, a, b - 1);
      assert StepTo(c, run, b);
      var step :| Enabled(run[b - 1], step) && run[b] == Apply(c, run[b - 1], step);
      StuckStep(c, run[b - 1], step);
    }
  }

  // ----- how a cluster gets there

  /** The servers below `l` have led one after the other, each with a command of its own; the others have
      nothing and no entries were ever sent. */
  ghost predicate Parted(c: Config, s: State, l: nat) {
    && l <= c.n && BlankFrom(c, s, l, l)
    && (forall j :: 0 <= j < l ==> s.servers[j].term == j + 1 && |s.servers[j].log| == 2 && Last(s.servers[j].log) == Entry(1, j + 1, 0))
    && (forall m :: m in s.net ==> !m.Append?)
  }

  lemma LedInTurn(c: Config, l: nat) returns (run: seq<State>)
    requires c.n >= 2 && 2 * l <= c.n + 1
    ensures IsRun(c, run) && Parted(c, End(run), l)
  {
    hide StepTo;
    run := [Start(c.n)];
    var k := 0;
    while k < l
      invariant k <= l && IsRun(c, run) && Parted(c, End(run), k)
    {
      ghost var s := End(run);
      run := RaftKeptTerm.Leads(c, run, k, k + 1);
      run := Extend(c, run, ClientCommand(k, 0));
      assert forall j :: 0 <= j < k ==> End(run).servers[j] == s.servers[j];
      assert forall j :: k < j < c.n ==> Blank(c, End(run).servers[j], j, k + 1);
      k := k + 1;
    }
  }

  /** What everybody is like when a new term has deposed all leaders. */
  ghost predicate Deposed(c: Config, s: State, x: nat, t: nat) {
    && |s.servers| == c.n && x < c.n && s.servers[x].role == Candidate && s.servers[x].term == t && s.servers[x].voters == {x}
    && (forall w :: 0 <= w < c.n && w != x ==> s.servers[w].role == Follower && s.servers[w].term <= t)
    && (forall m :: m in s.net ==> !m.Append?)
    && (forall m :: m in s.net && m.VoteReply? && m.granted && m.term == t && m.to == x && m.from < c.n ==> SameEnd(s.servers[m.from], s.servers[x]))
  }

  /** Server `x` asks for a term that is new to all, and everybody hears of it. */
  lemma DeposeAll(c: Config, run0: seq<State>, x: nat, t: nat) returns (run: seq<State>)
    requires Sound(c) && c.test == SameLast && IsRun(c, run0) && x < c.n && |End(run0).servers| == c.n
    requires forall w :: 0 <= w < c.n ==> End(run0).servers[w].term < t && End(run0).servers[w].log != []
    requires End(run0).servers[x].role != Leader && End(run0).servers[x].term == t - 1 && End(run0).servers[x].id == x
    requires forall m :: m in End(run0).net ==> !m.Append?
    ensures IsRun(c, run) && run0 <= run && Deposed(c, End(run), x, t)
    ensures forall w :: 0 <= w < c.n ==> End(run).servers[w].log == End(run0).servers[w].log
  {
    hide Init, StepTo, OnVoteRequest;
    NoVotesYet(c, run0, t);
    run := Extend(c, run0, Timeout(x));
    ghost var sv := End(run).servers[x];
    ghost var req := RequestFrom(sv);
    hide Apply;
    var w := 0;
    while w < c.n
      invariant w <= c.n && IsRun(c, run) && run0 <= run && |End(run).servers| == c.n && End(run).servers[x] == sv && req in End(run).net
      invariant forall j :: 0 <= j < c.n ==> End(run).servers[j].log == End(run0).servers[j].log
      invariant forall j :: 0 <= j < w && j != x ==> End(run).servers[j].role == Follower && End(run).servers[j].term <= t
      invariant forall j :: w <= j < c.n && j != x ==> End(run).servers[j] == End(run0).servers[j]
      invariant forall m :: m in End(run).net ==> !m.Append?
      invariant forall m :: m in End(run).net && m.VoteReply? && m.granted && m.term == t && m.from < c.n ==> SameEnd(End(run).servers[m.from], sv)
    {
      if w != x {
        HearsOf(c, End(run), w, req, sv, t);
        run := Extend(c, run, TakeVoteRequest(w, req));
      }
      w := w + 1;
    }
  }

  /** A server hears of the new term. */
  lemma HearsOf(c: Config, s: State, w: nat, req: Message, sv: Server, t: nat)
    requires c.test == SameLast && w < |s.servers| && s.servers[w].term < t && s.servers[w].log != []
    requires sv.log != [] && sv.term == t && req == RequestFrom(sv) && Enabled(s, TakeVoteRequest(w, req))
    ensures var s', granted := Apply(c, s, TakeVoteRequest(w, req)), OnVoteRequest(c, s.servers[w], req).1;
      && s'.servers == s.servers[w := s'.servers[w]] && s'.servers[w].log == s.servers[w].log
      && s'.servers[w].role == Follower && s'.servers[w].term == t
      && s'.net == s.net + {VoteReply(t, w, sv.id, granted)} && (granted ==> SameEnd(s'.servers[w], sv))
  {
    RaftOutcomes.VoteGrantedIff(c, s.servers[w], req);
    hide OnVoteRequest;
  }

  lemma NoVotesYet(c: Config, run: seq<State>, t: nat)
    requires Sound(c) && IsRun(c, run) && run != [] && |End(run).servers| == c.n
    requires forall w :: 0 <= w < c.n ==> End(run).servers[w].term < t
    ensures forall m :: m in End(run).net && m.VoteReply? && m.granted ==> m.term < t
  {
    Reachable(c, run, |run| - 1);
    var s := End(run);
    forall m | m in s.net && m.VoteReply? && m.granted
      ensures m.term < t
    {
      assert VoteMessageOk(s, m);
      assert BallotOk(s, Ballot(m.term, m.from, m.to));
    }
  }

  /** Deposed after having been driven apart: nobody will lead again. */
  lemma DeposedIsStuck(c: Config, run: seq<State>, x: nat, t: nat, k: nat)
    requires Sound(c) && c.test == SameLast && c.n >= 2 && IsRun(c, run) && run != [] && Deposed(c, End(run), x, t)
    requires k == (c.n + 1) / 2
    requires forall j :: 0 <= j < k ==> |End(run).servers[j].log| == 2 && Last(End(run).servers[j].log) == Entry(1, j + 1, 0)
    requires forall j :: k <= j < c.n ==> End(run).servers[j].log == [SENTINEL]
    ensures Stuck(c, End(run))
  {
    hide Init, StepTo;
    Reachable(c, run, |run| - 1);
    var s := End(run);
    PartedDivides(c, s, k);
    SeatedAndNumbered(c, s);
    hide Divided, Inv, Kin, MessageOk;
    OwnKin(s, x);
    forall m | m in s.net
      ensures MessageOk(s, m)
    {
      DeposedMessage(c, s, x, t, m);
    }
  }

  lemma SeatedAndNumbered(c: Config, s: State)
    requires Inv(c, s)
    ensures |s.servers| == c.n && forall i :: 0 <= i < c.n ==> s.servers[i].id == i && s.servers[i].log != []
  {
    assert forall i :: 0 <= i < c.n ==> ServerOk(c.n, i, s.servers[i]);
  }

  lemma OwnKin(s: State, x: nat)
    requires x < |s.servers| && s.servers[x].log != []
    ensures x in Kin(s, x)
  {
  }

  lemma DeposedMessage(c: Config, s: State, x: nat, t: nat, m: Message)
    requires Inv(c, s) && Deposed(c, s, x, t) && m in s.net
    ensures MessageOk(s, m)
  {
    assert VoteMessageOk(s, m) && AckMessageOk(s, m);
    assert ServerOk(c.n, x, s.servers[x]);
    if m.VoteReply? && m.granted {
      assert BallotOk(s, Ballot(m.term, m.from, m.to));
    }
    NotWon(c, s, x, t);
  }

  lemma NotWon(c: Config, s: State, x: nat, t: nat)
    requires Inv(c, s) && Deposed(c, s, x, t)
    ensures t !in s.h.elections
  {
    assert t in s.h.elections ==> ElectionOk(c, s, t);
  }

  lemma PartedDivides(c: Config, s: State, k: nat)
    requires SoundRule(c) && c.n >= 2 && |s.servers| == c.n && k == (c.n + 1) / 2
    requires forall j :: 0 <= j < k ==> |s.servers[j].log| == 2 && Last(s.servers[j].log) == Entry(1, j + 1, 0)
    requires forall j :: k <= j < c.n ==> s.servers[j].log == [SENTINEL]
    ensures Divided(c, s)
  {
    hide Kin;
    forall i | 0 <= i < c.n
      ensures Kin(s, i) <= {i} || (c.rule == CountVoters && 2 * |Kin(s, i)| <= c.n)
    {
      if i < k {
        LeaderAloneInKin(s, i, k);
      } else {
        BlankKin(s, i, k);
      }
    }
  }

  lemma LeaderAloneInKin(s: State, i: nat, k: nat)
    requires i < k <= |s.servers|
    requires forall j :: 0 <= j < k ==> |s.servers[j].log| == 2 && Last(s.servers[j].log) == Entry(1, j + 1, 0)
    requires forall j :: k <= j < |s.servers| ==> s.servers[j].log == [SENTINEL]
    ensures Kin(s, i) <= {i}
  {
    forall v | v in Kin(s, i)
      ensures v == i
    {
      assert v < k ==> Last(s.servers[v].log) == Entry(1, v + 1, 0);
    }
  }

  lemma BlankKin(s: State, i: nat, k: nat)
    requires k <= i < |s.servers| && k == (|s.servers| + 1) / 2
    requires forall j :: 0 <= j < k ==> |s.servers[j].log| == 2 && Last(s.servers[j].log) == Entry(1, j + 1, 0)
    requires forall j :: k <= j < |s.servers| ==> s.servers[j].log == [SENTINEL]
    ensures 2 * |Kin(s, i)| <= |s.servers| && (|s.servers| <= 3 ==> Kin(s, i) <= {i})
  {
    var n := |s.servers|;
    forall v: nat
      ensures v in Kin(s, i) <==> k <= v < n
    {
      assert v < k ==> Last(s.servers[v].log) == Entry(1, v + 1, 0);
    }
    hide Kin;
    UpperPart(k, n, Kin(s, i));
  }

  lemma UpperPart(k: nat, n: nat, q: set<nat>)
    requires k <= n && forall v: nat :: v in q <==> k <= v < n
    ensures |q| == n - k
  {
    UptoSize(n);
    UptoSize(k);
    assert Upto(n) == Upto(k) + q && Upto(k) !! q;
  }

  /** With the coded test every cluster has a run after which nobody ever leads again. */
  lemma CodedTestSticks(c: Config) returns (run: seq<State>)
    requires Sound(c) && c.test == SameLast && c.n >= 2
    ensures IsRun(c, run) && Stuck(c, End(run))
  {
    hide Init, StepTo, Stuck, Deposed;
    var k := (c.n + 1) / 2;
    run := LedInTurn(c, k);
    ghost var s := End(run);
    assert Blank(c, s.servers[c.n - 1], c.n - 1, k);
    run := DeposeAll(c, run, c.n - 1, k + 1);
    DeposedIsStuck(c, run, c.n - 1, k + 1, k);
  }

  lemma AloneIsStuck(c: Config) returns (run: seq<State>)
    requires c.n == 1
    ensures IsRun(c, run) && Stuck(c, End(run))
  {
    run := [Start(1)];
  }

  // ----- progress, exactly

  /** The run can go on to commit the command at every server. */
  ghost predicate CanGoOn(c: Config, run0: seq<State>, command: int)
    requires run0 != []
  {
    exists run :: IsRun(c, run) && run0 <= run && RaftProgress.CommittedEverywhere(End(run0), End(run), command)
  }

  lemma StuckCannotGoOn(c: Config, run0: seq<State>, command: int)
    requires IsRun(c, run0) && Stuck(c, End(run0))
    ensures !CanGoOn(c, run0, command)
  {
    forall run | IsRun(c, run) && run0 <= run
      ensures !RaftProgress.CommittedEverywhere(End(run0), End(run), command)
    {
      StuckForever(c, run, |run0| - 1, |run| - 1);
      assert End(run0) == run[|run0| - 1];
      assert |End(run0).servers| > 0 ==> End(run).servers[0].commit == End(run0).servers[0].commit;
    }
  }

  /** From the end of every run, any command can still be committed everywhere, exactly when votes go to logs
      at least as up to date and the cluster has at least two servers. */
  lemma GoesOnIff(c: Config)
    requires Sound(c) && c.counter == Acknowledged && c.n >= 1
    ensures (forall run, command :: IsRun(c, run) ==> CanGoOn(c, run, command)) <==> c.test == UpToDate && c.n >= 2
  {
    if c.test == UpToDate && c.n >= 2 {
      forall run, command | IsRun(c, run)
        ensures CanGoOn(c, run, command)
      {
        var more := RaftProgress.Progress(c, run, command);
      }
    } else {
      var run;
      if c.n == 1 {
        run := AloneIsStuck(c);
      } else {
        run := CodedTestSticks(c);
      }
      StuckCannotGoOn(c, run, 0);
    }
  }
}
