/** Progress: whatever has happened, a cluster can still elect a leader and commit a command everywhere.  From
    the end of any run further steps are given, made of timeouts, deliveries and one client command, after
    which every server has committed the command at an index that nobody had committed before.
 */
module RaftProgress {
  import opened Basics
  import opened RaftHandlers
  import opened RaftProtocol
  import opened RaftElection
  import opened RaftLog
  import opened RaftAcks
  import opened RaftSafety
  import opened RaftOutcomes
  import opened RaftVoteCount
  import opened RaftMatchCount

  /** The sound ways of counting, and a vote for whoever has a log at least as up to date. */
  predicate Lively(c: Config) {
    Sound(c) && c.counter == Acknowledged && c.test == UpToDate && c.n >= 2
  }

  lemma AtEnd(c: Config, run: seq<State>)
    requires Sound(c) && SoundCounter(c) && IsRun(c, run)
    ensures run != [] && Inv(c, End(run)) && Commits(c, End(run))
  {
    Reachable(c, run, |run| - 1);
  }

  /** At the end of a run every server is what its place says. */
  lemma WellFormed(c: Config, run: seq<State>)
    requires Sound(c) && SoundCounter(c) && IsRun(c, run)
    ensures run != [] && |End(run).servers| == c.n
    ensures forall j :: 0 <= j < c.n ==> ServerOk(c.n, j, End(run).servers[j])
  {
    AtEnd(c, run);
  }

  lemma CommitInLog(c: Config, run: seq<State>, j: nat)
    requires Sound(c) && SoundCounter(c) && IsRun(c, run) && run != [] && j < |End(run).servers|
    ensures End(run).servers[j].commit < |End(run).servers[j].log|
  {
    AtEnd(c, run);
    assert CommitOk(c, End(run).h, End(run).servers[j]);
  }

  ghost predicate OthersSame(s: State, s': State, i: nat) {
    |s'.servers| == |s.servers| && forall j :: 0 <= j < |s.servers| && j != i ==> s'.servers[j] == s.servers[j]
  }

  // ----- who should lead

  lemma {:induction false} HighestTerm(svs: seq<Server>) returns (j: nat)
    requires svs != []
    ensures j < |svs| && forall i :: 0 <= i < |svs| ==> svs[i].term <= svs[j].term
  {
    var z := |svs| - 1;
    j := z;
    if z > 0 {
      var best := HighestTerm(svs[..z]);
      if svs[best].term > svs[z].term {
        j := best;
      }
      assert forall i :: 0 <= i < z ==> svs[i] == svs[..z][i];
    }
  }

  predicate NotBehind(a: Entry, b: Entry) {
    a.term < b.term || (a.term == b.term && a.index <= b.index)
  }

  /** Nobody's last entry is later than that of server `j`. */
  ghost predicate Best(svs: seq<Server>, j: nat) {
    && j < |svs| && (forall i :: 0 <= i < |svs| ==> svs[i].log != [])
    && forall i :: 0 <= i < |svs| ==> NotBehind(Last(svs[i].log), Last(svs[j].log))
  }

  lemma {:induction false} BestLog(svs: seq<Server>) returns (j: nat)
    requires svs != [] && forall i :: 0 <= i < |svs| ==> svs[i].log != []
    ensures Best(svs, j)
  {
    var z := |svs| - 1;
    j := z;
    if z > 0 {
      var best := BestLog(svs[..z]);
      assert forall i :: 0 <= i < z ==> svs[i] == svs[..z][i];
      if !NotBehind(Last(svs[best].log), Last(svs[z].log)) {
        j := best;
      }
    }
  }

  // ----- an election

  /** Server `i` asks for votes in a term from `t` on. */
  lemma {:induction false} Campaign(c: Config, run0: seq<State>, i: nat, t: nat) returns (run: seq<State>)
    requires IsRun(c, run0) && i < |End(run0).servers| && End(run0).servers[i].role != Leader && End(run0).servers[i].log != []
    ensures IsRun(c, run) && run0 <= run && OthersSame(End(run0), End(run), i)
    ensures var sv, sv' := End(run0).servers[i], End(run).servers[i];
      && sv'.id == sv.id && sv'.log == sv.log && sv'.role == Candidate && sv'.term >= t && sv'.votes == 1 && sv'.voters == {sv.id}
      && RequestFrom(sv') in End(run).net
    decreases t - End(run0).servers[i].term
  {
    hide Init, StepTo;
    run := Extend(c, run0, Timeout(i));
    if End(run).servers[i].term < t {
      run := Campaign(c, run, i, t);
    }
  }

  /** A leader of an old term hears of a newer one from a server that wants to lead. */
  lemma Depose(c: Config, run0: seq<State>, i: nat, j: nat) returns (run: seq<State>)
    requires Sound(c) && SoundCounter(c) && IsRun(c, run0) && i < c.n && j < c.n && i != j
    requires |End(run0).servers| == c.n && End(run0).servers[j].role != Leader && End(run0).servers[i].term <= End(run0).servers[j].term
    ensures IsRun(c, run) && run0 <= run && |End(run).servers| == c.n && End(run).servers[i].role == Follower
    ensures forall w :: 0 <= w < c.n ==> End(run).servers[w].log == End(run0).servers[w].log
  {
    hide Init, StepTo;
    WellFormed(c, run0);
    assert ServerOk(c.n, i, End(run0).servers[i]) && ServerOk(c.n, j, End(run0).servers[j]);
    run := Extend(c, run0, Timeout(j));
    var req := RequestFrom(End(run).servers[j]);
    VoteGrantedIff(c, End(run).servers[i], req);
    run := Extend(c, run, TakeVoteRequest(i, req));
  }

  /** Candidate `i`, with no vote but its own. */
  ghost predicate Running(c: Config, s: State, i: nat) {
    && |s.servers| == c.n && i < c.n && s.servers[i].id == i && s.servers[i].role == Candidate
    && s.servers[i].votes == 1 && s.servers[i].voters == {i} && |s.servers[i].matchIndex| == c.n - 1
  }

  /** ... with the best log, and its request on the way. */
  ghost predicate Standing(c: Config, s: State, i: nat) {
    Running(c, s, i) && Best(s.servers, i) && RequestFrom(s.servers[i]) in s.net
  }

  /** The best logged server that does not lead stands for a term that is new to all. */
  lemma Stand(c: Config, run0: seq<State>, i: nat) returns (run: seq<State>)
    requires Sound(c) && SoundCounter(c) && IsRun(c, run0) && Best(End(run0).servers, i) && End(run0).servers[i].role != Leader
    ensures IsRun(c, run) && run0 <= run && Standing(c, End(run), i)
    ensures forall j :: 0 <= j < c.n && j != i ==> End(run).servers[j].term < End(run).servers[i].term
  {
    hide Init, StepTo;
    WellFormed(c, run0);
    var top := HighestTerm(End(run0).servers);
    assert ServerOk(c.n, i, End(run0).servers[i]);
    run := Campaign(c, run0, i, End(run0).servers[top].term + 1);
    WellFormed(c, run);
    assert ServerOk(c.n, i, End(run).servers[i]);
  }

  ghost predicate Granted(s: State, i: nat, w: nat)
    requires i < |s.servers|
  {
    VoteReply(s.servers[i].term, w, i, true) in s.net
  }

  /** Everybody votes for it. */
  lemma CollectVotes(c: Config, run0: seq<State>, i: nat) returns (run: seq<State>)
    requires IsRun(c, run0) && c.test == UpToDate && Standing(c, End(run0), i)
    requires forall j :: 0 <= j < c.n && j != i ==> End(run0).servers[j].term < End(run0).servers[i].term
    ensures IsRun(c, run) && run0 <= run && |End(run).servers| == c.n && End(run).servers[i] == End(run0).servers[i]
    ensures forall j :: 0 <= j < c.n && j != i ==> End(run).servers[j].term == End(run).servers[i].term && Granted(End(run), i, j)
  {
    hide Init, StepTo, OnVoteRequest;
    var sv := End(run0).servers[i];
    var req := RequestFrom(sv);
    run := run0;
    var w := 0;
    while w < c.n
      invariant w <= c.n && IsRun(c, run) && run0 <= run && |End(run).servers| == c.n && End(run).servers[i] == sv && req in End(run).net
      invariant forall j :: 0 <= j < w && j != i ==> End(run).servers[j].term == sv.term && Granted(End(run), i, j)
      invariant forall j :: w <= j < c.n && j != i ==> End(run).servers[j] == End(run0).servers[j]
    {
      if w != i {
        assert NotBehind(Last(End(run0).servers[w].log), Last(sv.log));
        VoteGrantedIff(c, End(run).servers[w], req);
        run := Extend(c, run, TakeVoteRequest(w, req));
      }
      w := w + 1;
    }
  }

  /** A candidate that has counted the votes of the servers below `w`, its own included, and not won. */
  ghost predicate Tallied(c: Config, sv: Server, i: nat, w: nat) {
    && sv.role == Candidate && sv.id == i && sv.votes == (if i < w then w else w + 1) && i in sv.voters && (forall v :: v in sv.voters ==> v < w || v == i)
    && (forall v: nat :: v < w ==> v in sv.voters)
    && ((w > 0 && !(w == 1 && i == 0)) ==> !Wins(c, sv))
  }

  /** With all the replies it takes office. */
  lemma TakeOffice(c: Config, run0: seq<State>, i: nat) returns (run: seq<State>)
    requires IsRun(c, run0) && c.n >= 2 && Running(c, End(run0), i)
    requires forall j :: 0 <= j < c.n && j != i ==> Granted(End(run0), i, j)
    ensures IsRun(c, run) && run0 <= run && OthersSame(End(run0), End(run), i)
    ensures End(run).servers[i].role == Leader && End(run).servers[i].term == End(run0).servers[i].term
  {
    hide Init, StepTo, OnVoteReply;
    var sv := End(run0).servers[i];
    run := run0;
    var w := 0;
    while w < c.n
      invariant w <= c.n && IsRun(c, run) && run0 <= run && OthersSame(End(run0), End(run), i) && End(run).net == End(run0).net
      invariant End(run).servers[i].term == sv.term && |End(run).servers[i].matchIndex| == c.n - 1
      invariant End(run).servers[i].role == Leader || Tallied(c, End(run).servers[i], i, w)
    {
      if w != i {
        assert Granted(End(run0), i, w);
        VoteCounted(c, End(run).servers[i], i, w, VoteReply(sv.term, w, i, true));
        run := Extend(c, run, TakeVoteReply(i, VoteReply(sv.term, w, i, true)));
      }
      w := w + 1;
    }
    if End(run).servers[i].role != Leader {
      AllVotesWin(c, End(run).servers[i], i);
    }
  }

  lemma VoteCounted(c: Config, sv: Server, i: nat, w: nat, m: Message)
    requires m == VoteReply(sv.term, w, i, true) && w != i && (sv.role == Leader || Tallied(c, sv, i, w))
    ensures var sv' := OnVoteReply(c, sv, m);
      && sv'.term == sv.term && |sv'.matchIndex| == |sv.matchIndex| && (sv'.role == Leader || Tallied(c, sv', i, w + 1))
  {
    if sv.role != Leader {
      TakesOfficeIff(c, sv, m);
    }
  }

  lemma AllVotesWin(c: Config, sv: Server, i: nat)
    requires c.n >= 2 && i < c.n && |sv.matchIndex| == c.n - 1
    ensures !Tallied(c, sv, i, c.n)
  {
    if Tallied(c, sv, i, c.n) {
      UptoSize(c.n);
      assert sv.voters == Upto(c.n);
      assert Wins(c, sv);
      assert false;
    }
  }

  /** Server `i` leads, and nobody is in a later term. */
  ghost predicate Leading(c: Config, s: State, i: nat) {
    |s.servers| == c.n && i < c.n && s.servers[i].role == Leader && forall j :: 0 <= j < c.n ==> s.servers[j].term <= s.servers[i].term
  }

  lemma StillBest(svs: seq<Server>, svs': seq<Server>, i: nat)
    requires Best(svs, i) && |svs'| == |svs| && forall w :: 0 <= w < |svs| ==> svs'[w].log == svs[w].log
    ensures Best(svs', i)
  {
  }

  /** From wherever a cluster is, some server comes to lead it. */
  lemma Elect(c: Config, run0: seq<State>) returns (run: seq<State>, i: nat)
    requires Lively(c) && IsRun(c, run0)
    ensures IsRun(c, run) && run0 <= run && Leading(c, End(run), i)
  {
    hide Init, StepTo, Best, Standing;
    WellFormed(c, run0);
    run := run0;
    var top := HighestTerm(End(run).servers);
    if End(run).servers[top].role == Leader {
      i := top;
    } else {
      i := BestLog(End(run).servers);
      BestInRange(End(run).servers, i);
      if End(run).servers[i].role == Leader {
        run := Depose(c, run, i, top);
        StillBest(End(run0).servers, End(run).servers, i);
      }
      run := Stand(c, run, i);
      run := Win(c, run, i);
    }
  }

  lemma BestInRange(svs: seq<Server>, i: nat)
    requires Best(svs, i)
    ensures i < |svs|
  {
  }

  lemma Win(c: Config, run0: seq<State>, i: nat) returns (run: seq<State>)
    requires c.test == UpToDate && c.n >= 2 && IsRun(c, run0) && Standing(c, End(run0), i)
    requires forall j :: 0 <= j < c.n && j != i ==> End(run0).servers[j].term < End(run0).servers[i].term
    ensures IsRun(c, run) && run0 <= run && Leading(c, End(run), i)
  {
    hide Init, StepTo, Best;
    run := CollectVotes(c, run0, i);
    run := TakeOffice(c, run, i);
  }

  // ----- replication

  /** A log that begins with the leader's, in no later term, is the leader's: nobody else puts entries of its term. */
  lemma NotLonger(c: Config, s: State, i: nat, w: nat)
    requires Inv(c, s) && Leading(c, s, i) && w < c.n
    requires var lead, log := s.servers[i].log, s.servers[w].log;
      lead != [] && Last(lead).term == s.servers[i].term && |lead| <= |log| && log[..|lead|] == lead
    ensures s.servers[w].log == s.servers[i].log
  {
    assert LeaderLogOk(s.h, s.servers[i]) && Anchored(s.h.logs, s.servers[w].log) && TermsUpTo(s.servers[w].log, s.servers[w].term);
    assert forall t :: t in s.h.logs ==> TermsUpTo(s.h.logs[t], t);
    hide Inv, Anchored;
    NoFurther(s.h.logs, s.servers[w].log, s.servers[i].log, s.servers[i].term);
  }

  lemma NoFurther(logs: map<nat, seq<Entry>>, log: seq<Entry>, lead: seq<Entry>, t: nat)
    requires Anchored(logs, log) && (forall u :: u in logs ==> TermsUpTo(logs[u], u)) && TermsUpTo(log, t)
    requires t in logs && logs[t] == lead && lead != [] && Last(lead).term == t && |lead| <= |log| && log[..|lead|] == lead
    ensures log == lead
  {
    var z := |lead|;
    assert log[z - 1] == log[..z][z - 1];
    if z < |log| {
      TermsAscend(logs, log, z - 1, z);
      assert log[z].term == t;
      OwnEntry(logs, log, z);
      assert false;
    }
    assert log == log[..z];
  }

  lemma OwnEntry(logs: map<nat, seq<Entry>>, log: seq<Entry>, k: nat)
    requires Anchored(logs, log) && k < |log|
    ensures log[k].term in logs && k < |logs[log[k].term]|
  {
    assert AnchoredAt(logs, log, k);
  }

  /** What a leader sends is its log from some index on, after the entry before it, and its commit index. */
  lemma SendsFrom(c: Config, s: State, i: nat, next: nat)
    requires Shape(c, s) && Logs(c, s) && i < c.n && s.servers[i].role == Leader && 0 < next <= |s.servers[i].log|
    ensures var sv := s.servers[i];
      && AppendFor(sv, next) == Append(sv.term, i, next - 1, sv.log[next - 1].term, sv.commit, sv.log[next..])
      && sv.term in s.h.logs && s.h.logs[sv.term] == sv.log
  {
    assert ServerOk(c.n, i, s.servers[i]) && LeaderLogOk(s.h, s.servers[i]);
  }

  /** Server `w` can follow on from the entry before `next`. */
  ghost predicate Follows(s: State, i: nat, w: nat, next: nat)
    requires i < |s.servers| && w < |s.servers| && 0 < next <= |s.servers[i].log|
  {
    var sv, log := s.servers[i], s.servers[w].log;
    s.servers[w].term <= sv.term && next <= |log| && log[next - 1].term == sv.log[next - 1].term
  }

  lemma TakesAll(c: Config, s: State, i: nat, w: nat, next: nat)
    requires Inv(c, s) && Commits(c, s) && i < c.n && w < c.n && w != i && s.servers[i].role == Leader
    requires 0 < next <= |s.servers[i].log| && AppendFor(s.servers[i], next) in s.net
    ensures var sv, m := s.servers[i], AppendFor(s.servers[i], next);
      var (sv', ok) := OnAppend(c, s.servers[w], m);
      && m.leader == i && (ok <==> Follows(s, i, w, next))
      && (ok ==> |sv.log| <= |sv'.log| && sv'.log[..|sv.log|] == sv.log && sv'.commit == Max(s.servers[w].commit, sv.commit)
                 && sv'.term <= sv.term)
  {
    hide OnAppend, Acks, Votes, Commits;
    SendsFrom(c, s, i, next);
    hide Shape;
    var sv, m := s.servers[i], AppendFor(s.servers[i], next);
    AppendIs(c, s.servers[w], m);
    if OnAppend(c, s.servers[w], m).1 {
      AcceptedCommit(c, s, w, m);
      assert LogMessageOk(s.h, m);
      TakenAgrees(c, s, w, m);
      assert Agree(OnAppend(c, s.servers[w], m).0.log, sv.log, |sv.log| - 1);
    }
  }

  /** At the end of every run: a leader that sends from any index, to any other server, brings it to its whole
      log and its commit index exactly when that server is in no later term and has the entry before. */
  lemma CatchesUpIff(c: Config, run: seq<State>, i: nat, w: nat, next: nat) returns (more: seq<State>)
    requires Sound(c) && SoundCounter(c) && IsRun(c, run) && i < c.n && w < c.n && w != i && |End(run).servers| == c.n
    requires End(run).servers[i].role == Leader && 0 < next <= |End(run).servers[i].log|
    ensures IsRun(c, more) && run <= more && |more| == |run| + 2 && |End(more).servers| == c.n && End(more).servers[i] == End(run).servers[i]
    ensures var lead, sv, sv' := End(run).servers[i], End(run).servers[w], End(more).servers[w];
      && (Follows(End(run), i, w, next) ==>
            lead.log <= sv'.log && sv'.commit == Max(sv.commit, lead.commit))
      && (!Follows(End(run), i, w, next) ==> sv'.log == sv.log && sv'.commit == sv.commit)
  {
    hide Init, StepTo, OnAppend, Inv, Commits;
    var m := AppendFor(End(run).servers[i], next);
    more := Extend(c, run, SendAppend(i, next));
    AtEnd(c, more);
    TakesAll(c, End(more), i, w, next);
    AppendIs(c, End(more).servers[w], m);
    more := Extend(c, more, TakeAppend(w, m));
  }

  /** The message that carries a leader's whole log. */
  function WholeLog(sv: Server): Message
    requires sv.log != []
  {
    AppendFor(sv, 1)
  }

  /** The reply of server `w` that it has the whole log of leader `sv`. */
  function Confirms(sv: Server, w: nat): Message
    requires sv.log != []
  {
    AppendReply(sv.term, w, sv.id, true, |sv.log| - 1)
  }

  /** Server `w` has the leader's log and has committed at least what the leader has. */
  ghost predicate UpToLeader(s: State, i: nat, w: nat)
    requires i < |s.servers| && w < |s.servers| && s.servers[i].log != []
  {
    var sv := s.servers[i];
    && s.servers[w].log == sv.log && s.servers[w].term <= sv.term && s.servers[w].commit >= sv.commit
    && Confirms(sv, w) in s.net
  }

  lemma Deliver(c: Config, run0: seq<State>, i: nat, w: nat) returns (run: seq<State>)
    requires Lively(c) && IsRun(c, run0) && Leading(c, End(run0), i) && w < c.n && w != i
    requires var sv := End(run0).servers[i]; sv.log != [] && Last(sv.log).term == sv.term && sv.id == i && WholeLog(sv) in End(run0).net
    ensures IsRun(c, run) && run0 <= run && OthersSame(End(run0), End(run), w) && End(run0).net <= End(run).net
    ensures Leading(c, End(run), i) && UpToLeader(End(run), i, w)
  {
    hide Init, StepTo, OnAppend, Inv, Commits;
    var sv := End(run0).servers[i];
    AtEnd(c, run0);
    AlwaysFollows(c, End(run0), i, w);
    TakesAll(c, End(run0), i, w, 1);
    run := Extend(c, run0, TakeAppend(w, WholeLog(sv)));
    AtEnd(c, run);
    NotLonger(c, End(run), i, w);
  }

  /** The sentinel is in every log. */
  lemma AlwaysFollows(c: Config, s: State, i: nat, w: nat)
    requires Inv(c, s) && Leading(c, s, i) && w < c.n
    ensures s.servers[i].log != [] && Follows(s, i, w, 1)
    ensures var m := WholeLog(s.servers[i]); m.term == s.servers[i].term && m.leader == i && m.prevIndex + |m.entries| == |s.servers[i].log| - 1
  {
    assert ServerOk(c.n, w, s.servers[w]) && ServerOk(c.n, i, s.servers[i]);
  }

  lemma OthersStayUp(c: Config, s: State, s': State, i: nat, w: nat)
    requires OthersSame(s, s', w) && s.net <= s'.net && |s.servers| == c.n && i < c.n && w != i && s.servers[i].log != []
    ensures forall v :: 0 <= v < c.n && v != w && UpToLeader(s, i, v) ==> UpToLeader(s', i, v)
  {
  }

  /** The leader sends its whole log and everybody takes it. */
  lemma Spread(c: Config, run0: seq<State>, i: nat) returns (run: seq<State>)
    requires Lively(c) && IsRun(c, run0) && Leading(c, End(run0), i)
    requires var sv := End(run0).servers[i]; sv.log != [] && Last(sv.log).term == sv.term && sv.id == i
    ensures IsRun(c, run) && run0 <= run && Leading(c, End(run), i) && End(run).servers[i] == End(run0).servers[i]
    ensures forall w :: 0 <= w < c.n && w != i ==> UpToLeader(End(run), i, w)
  {
    hide Init, StepTo, OnAppend;
    var sv := End(run0).servers[i];
    run := Extend(c, run0, SendAppend(i, 1));
    assert WholeLog(sv) in End(run).net;
    hide Apply, Enabled;
    var w := 0;
    while w < c.n
      invariant w <= c.n && IsRun(c, run) && run0 <= run && Leading(c, End(run), i) && End(run).servers[i] == sv
      invariant WholeLog(sv) in End(run).net
      invariant forall v :: 0 <= v < w && v != i ==> UpToLeader(End(run), i, v)
    {
      if w != i {
        ghost var s := End(run);
        run := Deliver(c, run, i, w);
        OthersStayUp(c, s, End(run), i, w);
      }
      w := w + 1;
    }
  }

  // ----- commitment

  /** The leader's log and office are unchanged, and it knows that the peers of servers below `w` have it all. */
  ghost predicate Knows(c: Config, sv: Server, sv': Server, w: nat) {
    && sv' == sv.(matchIndex := sv'.matchIndex, commit := sv'.commit) && sv.id < c.n && |sv'.matchIndex| == c.n - 1
    && forall v :: 0 <= v < w && v != sv.id && v < c.n ==> sv'.matchIndex[PeerNumber(sv.id, v)] >= |sv.log| - 1
  }

  lemma OneConfirms(c: Config, sv: Server, sv1: Server, w: nat)
    requires c.counter == Acknowledged && sv.log != [] && sv.role == Leader && Knows(c, sv, sv1, w) && w < c.n && w != sv.id
    ensures Knows(c, sv, OnAppendReply(c, sv1, Confirms(sv, w)), w + 1)
  {
    LeaderCommitsLargest(c, sv1, Confirms(sv, w));
  }

  /** It hears from everybody, and from one of them again. */
  lemma Gather(c: Config, run0: seq<State>, i: nat) returns (run: seq<State>)
    requires Lively(c) && IsRun(c, run0) && Leading(c, End(run0), i)
    requires var sv := End(run0).servers[i]; sv.log != [] && Last(sv.log).term == sv.term && sv.id == i && |sv.matchIndex| == c.n - 1
    requires forall w :: 0 <= w < c.n && w != i ==> UpToLeader(End(run0), i, w)
    ensures IsRun(c, run) && run0 <= run && OthersSame(End(run0), End(run), i)
    ensures Knows(c, End(run0).servers[i], End(run).servers[i], c.n) && End(run).servers[i].commit == |End(run).servers[i].log| - 1
  {
    hide Init, StepTo, OnAppendReply;
    var sv := End(run0).servers[i];
    run := run0;
    var w := 0;
    while w < c.n
      invariant w <= c.n && IsRun(c, run) && run0 <= run && OthersSame(End(run0), End(run), i) && End(run).net == End(run0).net
      invariant Knows(c, sv, End(run).servers[i], w)
    {
      if w != i {
        assert UpToLeader(End(run0), i, w);
        OneConfirms(c, sv, End(run).servers[i], w);
        run := Extend(c, run, TakeAppendReply(i, Confirms(sv, w)));
      }
      w := w + 1;
    }
    var v := if i == 0 then 1 else 0;
    var sv1 := End(run).servers[i];
    assert UpToLeader(End(run0), i, v);
    run := Extend(c, run, TakeAppendReply(i, Confirms(sv, v)));
    AllConfirmed(c, sv, sv1, v);
    CommitInLog(c, run, i);
  }

  lemma AllConfirmed(c: Config, sv: Server, sv1: Server, v: nat)
    requires c.counter == Acknowledged && c.n >= 2 && sv.log != [] && sv.role == Leader && sv.id < c.n && Knows(c, sv, sv1, c.n)
    requires Last(sv.log).term == sv.term && v < c.n && v != sv.id
    ensures var sv' := OnAppendReply(c, sv1, Confirms(sv, v)); Knows(c, sv, sv', c.n) && sv'.commit >= |sv.log| - 1
  {
    var z := |sv.log| - 1;
    LeaderCommitsLargest(c, sv1, Confirms(sv, v));
    hide OnAppendReply;
    var sv' := OnAppendReply(c, sv1, Confirms(sv, v));
    assert Knows(c, sv, sv', c.n);
    AllHold(c, sv, sv', z);
    assert Enough(sv', z);
  }

  lemma AllHold(c: Config, sv: Server, sv': Server, z: nat)
    requires c.n >= 2 && Knows(c, sv, sv', c.n) && z + 1 == |sv.log|
    ensures |Holders(sv'.matchIndex, z)| == c.n - 1
  {
    forall p: nat | p < c.n - 1
      ensures sv'.matchIndex[p] >= z
    {
      assert PeerNumber(sv.id, PeerId(sv.id, p)) == p;
    }
    UptoSize(c.n - 1);
    assert Holders(sv'.matchIndex, z) == Upto(c.n - 1);
  }

  // ----- the whole way

  /** Every server has the same log, ends it with the command and has committed all of it; nobody had
      committed as much before. */
  ghost predicate CommittedEverywhere(s0: State, s: State, command: int) {
    && s.servers != [] && |s.servers| == |s0.servers|
    && forall j :: 0 <= j < |s.servers| ==>
         var sv := s.servers[j];
         && sv.log == s.servers[0].log && sv.log != [] && Last(sv.log).command == command
         && sv.commit == |sv.log| - 1 && s0.servers[j].commit < sv.commit
  }

  /** The leader takes the command, spreads it, hears of it, and spreads what it has committed. */
  lemma LeadThrough(c: Config, run0: seq<State>, i: nat, command: int) returns (run: seq<State>)
    requires Lively(c) && IsRun(c, run0) && Leading(c, End(run0), i)
    ensures IsRun(c, run) && run0 <= run && |End(run).servers| == c.n
    ensures forall j :: 0 <= j < c.n ==>
      var sv, lead := End(run).servers[j], End(run0).servers[i];
      && |sv.log| == |lead.log| + 1 && sv.log == End(run).servers[0].log && Last(sv.log).command == command && sv.commit == |sv.log| - 1
  {
    hide Init, StepTo;
    WellFormed(c, run0);
    assert ServerOk(c.n, i, End(run0).servers[i]);
    run := Extend(c, run0, ClientCommand(i, command));
    hide Apply, Enabled;
    var lead := End(run).servers[i].log;
    run := Spread(c, run, i);
    run := Gather(c, run, i);
    run := Spread(c, run, i);
    forall j | 0 <= j < c.n
      ensures var sv := End(run).servers[j]; sv.log == lead && sv.commit == |lead| - 1
    {
      CommitInLog(c, run, j);
      assert j != i ==> UpToLeader(End(run), i, j);
    }
  }

  /** From the end of every run a cluster can go on to commit any command at every server. */
  lemma Progress(c: Config, run0: seq<State>, command: int) returns (run: seq<State>)
    requires Lively(c) && IsRun(c, run0)
    ensures IsRun(c, run) && run0 <= run && CommittedEverywhere(End(run0), End(run), command)
  {
    hide Init, StepTo;
    var elected, i := Elect(c, run0);
    run := LeadThrough(c, elected, i, command);
    var a, b := |run0| - 1, |elected| - 1;
    WellFormed(c, run0);
    forall j | 0 <= j < c.n
      ensures End(run0).servers[j].commit < |End(elected).servers[i].log|
    {
      CommitGrows(c, elected, a, b, j);
      LeadersHoldCommitted(c, elected, b, j, b, i);
    }
  }
}
