/** `append_entries` as coded takes the entries of a leader of a newer term and keeps its own term and role, so
    a leader can be overwritten and go on leading.  Logs then match in clusters of at most two servers, where
    a leader has everybody's vote, and in no larger one.
 */
module RaftKeptTerm {
  import opened RaftHandlers
  import opened RaftProtocol
  import opened RaftElection
  import opened RaftLog
  import opened RaftSafety
  import opened RaftVoteCount
  import opened RaftMatchCount

  /** Logs that have an entry of one term at one index, at whatever moments, are the same up to there. */
  ghost predicate LogsMatch(run: seq<State>) {
    forall a, i, b, j, k: nat ::
      (0 <= a < |run| && 0 <= b < |run| && 0 <= i < |run[a].servers| && 0 <= j < |run[b].servers|) ==>
        MatchAt(run[a].servers[i].log, run[b].servers[j].log, k)
  }

  ghost predicate MatchAt(x: seq<Entry>, y: seq<Entry>, k: nat) {
    k < |x| && k < |y| && x[k].term == y[k].term ==> x[..k + 1] == y[..k + 1]
  }

  /** Server `l` wins term `t` with the votes of all after it. */
  lemma Leads(c: Config, run0: seq<State>, l: nat, t: nat) returns (run: seq<State>)
    requires IsRun(c, run0) && t > 0 && BlankFrom(c, End(run0), l, t - 1) && l + 1 < c.n && 2 * (c.n - l) > c.n
    ensures IsRun(c, run) && SameBelow(End(run0), End(run), l) && BlankFrom(c, End(run), l + 1, t)
    ensures InOffice(c, End(run).servers[l], l, t) && End(run).servers[l].log == [SENTINEL]
    ensures NothingSent(End(run0), End(run))
  {
    hide IsRun, Blank, InOffice;
    run := AllVote(c, run0, l, t);
    run := AllElect(c, run, l, t);
  }

  /** Server 0 leads term 1 and takes two commands. */
  lemma FirstLeader(c: Config) returns (run: seq<State>)
    requires c.n >= 3
    ensures IsRun(c, run) && BlankFrom(c, End(run), 1, 1)
    ensures var sv := End(run).servers[0];
      sv.role == Leader && sv.term == 1 && sv.id == 0 && sv.log == [SENTINEL, Entry(1, 1, 10), Entry(2, 1, 11)]
  {
    run := [Start(c.n)];
    run := Leads(c, run, 0, 1);
    run := Extend(c, run, ClientCommand(0, 10));
    run := Extend(c, run, ClientCommand(0, 11));
  }

  /** Server 1 leads term 2, takes a command and sends it. */
  lemma SecondLeader(c: Config, run0: seq<State>) returns (run: seq<State>)
    requires c.n >= 3 && IsRun(c, run0) && BlankFrom(c, End(run0), 1, 1)
    ensures IsRun(c, run) && SameBelow(End(run0), End(run), 1) && Append(2, 1, 0, 0, 0, [Entry(1, 2, 20)]) in End(run).net
  {
    run := Leads(c, run0, 1, 2);
    run := Extend(c, run, ClientCommand(1, 20));
    var sv := End(run).servers[1];
    assert sv.log == [SENTINEL, Entry(1, 2, 20)] && sv.log[1..] == [Entry(1, 2, 20)];
    run := Extend(c, run, SendAppend(1, 1));
  }

  /** Server 0, still leader of term 1, takes the entry of term 2 and then a command of its own. */
  lemma Overwritten(c: Config, run0: seq<State>) returns (run: seq<State>)
    requires c.terms == KeepsTerm && IsRun(c, run0) && |End(run0).servers| > 0
    requires Append(2, 1, 0, 0, 0, [Entry(1, 2, 20)]) in End(run0).net
    requires var sv := End(run0).servers[0];
      sv.role == Leader && sv.term == 1 && sv.id == 0 && sv.log == [SENTINEL, Entry(1, 1, 10), Entry(2, 1, 11)]
    ensures IsRun(c, run) && run0 <= run && |End(run).servers| > 0
    ensures End(run).servers[0].log == [SENTINEL, Entry(1, 2, 20), Entry(2, 1, 12)]
  {
    var m := Append(2, 1, 0, 0, 0, [Entry(1, 2, 20)]);
    var log := End(run0).servers[0].log;
    assert Known(log, 1, m.entries) == 0;
    assert Merge(log, 1, m.entries) == [SENTINEL, Entry(1, 2, 20)];
    run := Extend(c, run0, TakeAppend(0, m));
    run := Extend(c, run, ClientCommand(0, 12));
  }

  /** In every cluster of three or more, index 2 of term 1 is one entry at one moment and another later. */
  lemma LogsDiverge(c: Config) returns (run: seq<State>)
    requires c.terms == KeepsTerm && c.n >= 3
    ensures IsRun(c, run) && !LogsMatch(run)
  {
    hide BlankFrom, SameBelow;
    run := FirstLeader(c);
    var before := End(run);
    run := SecondLeader(c, run);
    StillThere(c, before, End(run));
    var a, x := |run| - 1, End(run).servers[0].log;
    run := Overwritten(c, run);
    var b, y := |run| - 1, End(run).servers[0].log;
    assert run[a].servers[0].log == x && run[b].servers[0].log == y;
    assert x[..3][1] == Entry(1, 1, 10) && y[..3][1] == Entry(1, 2, 20);
    assert !MatchAt(x, y, 2);
  }

  lemma StillThere(c: Config, s: State, s': State)
    requires SameBelow(s, s', 1) && BlankFrom(c, s, 1, 1) && c.n >= 3
    ensures |s'.servers| > 0 && s'.servers[0] == s.servers[0]
  {
  }

  /** Keeping the term keeps logs matching, over all runs, if and only if the cluster has at most two servers;
      whatever the other parameters are. */
  lemma KeptTermSafeIff(c: Config)
    requires c.terms == KeepsTerm
    ensures (forall run :: IsRun(c, run) ==> LogsMatch(run)) <==> c.n <= 2
  {
    if c.n <= 2 {
      forall run | IsRun(c, run)
        ensures LogsMatch(run)
      {
        SoundMatches(c, run);
      }
    } else {
      var run := LogsDiverge(c);
    }
  }

  lemma SoundMatches(c: Config, run: seq<State>)
    requires Sound(c) && IsRun(c, run)
    ensures LogsMatch(run)
  {
    hide IsRun;
    forall a, i, b, j, k: nat |
      0 <= a < |run| && 0 <= b < |run| && 0 <= i < |run[a].servers| && 0 <= j < |run[b].servers|
      ensures MatchAt(run[a].servers[i].log, run[b].servers[j].log, k)
    {
      var x, y := run[a].servers[i].log, run[b].servers[j].log;
      if k < |x| && k < |y| && x[k].term == y[k].term {
        LogMatching(c, run, a, i, b, j, k);
      }
    }
  }
}
