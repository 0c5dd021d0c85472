/** Log matching (section 5.3 of the Raft paper).  Each term has one leader and that leader only
    appends, so `h.logs[t]` is the one log of term t as far as it grew.  Every log in the cluster
    agrees, up to each of its entries, with the log of the term that created the entry.
 */
module RaftLog {
  import opened RaftHandlers
  import opened RaftProtocol
  import opened RaftElection

  /** A newer term is adopted, or cannot come: in a cluster of at most two a leader has everybody's vote. */
  predicate SoundTerms(c: Config) {
    c.terms == Adopts || c.n <= 2
  }

  predicate Sound(c: Config) {
    SoundRule(c) && SoundTerms(c)
  }

  /** The server is, or will be, in the term of the message. */
  predicate Heeds(c: Config, sv: Server, m: Message)
    requires m.Append?
  {
    c.terms == Adopts || m.term <= sv.term
  }

  lemma HeedsLeader(c: Config, s: State, i: nat, m: Message)
    requires SoundTerms(c) && Shape(c, s) && Votes(c, s) && i < c.n && m.Append? && m.term in s.h.elections
    ensures Heeds(c, s.servers[i], m)
  {
    if c.terms == KeepsTerm {
      assert ElectionOk(c, s, m.term);
      var e := s.h.elections[m.term];
      EverybodyVoted(c.n, e.voters, i);
      assert BallotOk(s, Ballot(m.term, i, e.id));
    }
  }

  lemma EverybodyVoted(n: nat, q: set<nat>, i: nat)
    requires Quorum(n, q) && i < n <= 2
    ensures i in q
  {
    if i !in q {
      BoundedBelow(q, {1 - i});
    }
  }

  /** `log` holds the entry at `k` because the leader of its term holds it at the same place, after
      the same entries. */
  ghost predicate AnchoredAt(logs: map<nat, seq<Entry>>, log: seq<Entry>, k: nat)
    requires k < |log|
  {
    var t := log[k].term;
    t in logs && k < |logs[t]| && log[..k + 1] == logs[t][..k + 1]
  }

  ghost predicate Anchored(logs: map<nat, seq<Entry>>, log: seq<Entry>) {
    forall k :: 0 <= k < |log| ==> AnchoredAt(logs, log, k)
  }

  ghost predicate TermsUpTo(log: seq<Entry>, t: nat) {
    forall k :: 0 <= k < |log| ==> log[k].term <= t
  }

  /** The terms in an anchored log do not go down. */
  lemma TermsAscend(logs: map<nat, seq<Entry>>, log: seq<Entry>, j: nat, k: nat)
    requires Anchored(logs, log) && j <= k < |log| && (forall t :: t in logs ==> TermsUpTo(logs[t], t))
    ensures log[j].term <= log[k].term
  {
    assert AnchoredAt(logs, log, k);
    var lead := logs[log[k].term];
    assert log[j] == log[..k + 1][j] == lead[..k + 1][j] == lead[j];
  }

  ghost predicate LogMessageOk(h: History, m: Message) {
    m.Append? ==>
      && m.term in h.elections && h.elections[m.term].id == m.leader
      && m.term in h.logs
      && var log := h.logs[m.term];
      && m.prevIndex + 1 + |m.entries| <= |log|
      && log[m.prevIndex].term == m.prevTerm
      && m.entries == log[m.prevIndex + 1..m.prevIndex + 1 + |m.entries|]
  }

  ghost predicate LeaderLogOk(h: History, sv: Server) {
    sv.role == Leader ==> sv.term in h.logs && h.logs[sv.term] == sv.log
  }

  ghost predicate Logs(c: Config, s: State) {
    && s.h.logs.Keys == s.h.elections.Keys + {0}
    && s.h.logs[0] == [SENTINEL]
    && (forall t :: t in s.h.logs ==> Anchored(s.h.logs, s.h.logs[t]))
    && (forall t :: t in s.h.logs ==> TermsUpTo(s.h.logs[t], t))
    && (forall i :: 0 <= i < |s.servers| ==> Anchored(s.h.logs, s.servers[i].log))
    && (forall i :: 0 <= i < |s.servers| ==> TermsUpTo(s.servers[i].log, s.servers[i].term))
    && (forall i :: 0 <= i < |s.servers| ==> LeaderLogOk(s.h, s.servers[i]))
    && (forall m :: m in s.net ==> LogMessageOk(s.h, m))
  }

  ghost predicate Extends(logs: map<nat, seq<Entry>>, logs': map<nat, seq<Entry>>) {
    forall t :: t in logs ==> t in logs' && logs[t] <= logs'[t]
  }

  lemma AnchoredKept(logs: map<nat, seq<Entry>>, logs': map<nat, seq<Entry>>, log: seq<Entry>)
    requires Extends(logs, logs') && Anchored(logs, log)
    ensures Anchored(logs', log)
  {
    forall k | 0 <= k < |log|
      ensures AnchoredAt(logs', log, k)
    {
      assert AnchoredAt(logs, log, k);
      var t := log[k].term;
      assert logs'[t][..k + 1] == logs[t][..k + 1];
    }
  }

  lemma AnchoredPrefix(logs: map<nat, seq<Entry>>, log: seq<Entry>, n: nat)
    requires Anchored(logs, log) && n <= |log|
    ensures Anchored(logs, log[..n])
  {
    forall k | 0 <= k < n
      ensures AnchoredAt(logs, log[..n], k)
    {
      assert AnchoredAt(logs, log, k);
      assert log[..n][..k + 1] == log[..k + 1];
    }
  }

  /** Two anchored logs with the same term at one index agree up to that index. */
  lemma SameTermSamePrefix(logs: map<nat, seq<Entry>>, a: seq<Entry>, b: seq<Entry>, k: nat)
    requires Anchored(logs, a) && Anchored(logs, b)
    requires k < |a| && k < |b| && a[k].term == b[k].term
    ensures a[..k + 1] == b[..k + 1]
  {
    assert AnchoredAt(logs, a, k) && AnchoredAt(logs, b, k);
  }

  /** What `Merge` does to a log that matches the leader's log `lead` up to `at`: it is kept whole up
      to `cut`, where it first lacks or contradicts what the leader sent; with no such place nothing
      changes, otherwise the result is the part of the leader's log that was sent. */
  lemma MergeWithLeader(logs: map<nat, seq<Entry>>, log: seq<Entry>, lead: seq<Entry>, at: nat, entries: seq<Entry>)
    returns (cut: nat)
    requires Anchored(logs, log) && Anchored(logs, lead)
    requires 0 < at <= |log| && at + |entries| <= |lead|
    requires log[at - 1].term == lead[at - 1].term
    requires entries == lead[at..at + |entries|]
    ensures at <= cut <= at + |entries| && cut <= |log| && log[..cut] == lead[..cut]
    ensures cut == at + |entries| ==> Merge(log, at, entries) == log
    ensures cut < at + |entries| ==> Merge(log, at, entries) == lead[..at + |entries|]
    ensures cut < at + |entries| && cut < |log| ==> log[cut].term != lead[cut].term
  {
    var k := Known(log, at, entries);
    cut := at + k;
    if k > 0 {
      assert log[at + (k - 1)].term == entries[k - 1].term == lead[at + (k - 1)].term;
    }
    SameTermSamePrefix(logs, log, lead, cut - 1);
    if k < |entries| {
      assert entries[k] == lead[at + k];
      assert log[..cut] + entries[k..] == lead[..at + |entries|];
    }
  }

  lemma LogsInit(c: Config, s: State)
    requires Init(c, s)
    ensures Logs(c, s)
  {
    assert AnchoredAt(s.h.logs, [SENTINEL], 0);
  }

  /** A step that leaves the leaders' logs alone keeps the records, if the moved server's own log and
      the new messages are in order. */
  lemma QuietStepKeepsLogs(c: Config, s: State, s': State, i: nat)
    requires Logs(c, s) && i < |s.servers| == |s'.servers|
    requires s'.h.logs == s.h.logs && s'.h.elections == s.h.elections
    requires forall j :: 0 <= j < |s.servers| && j != i ==> s'.servers[j] == s.servers[j]
    requires Anchored(s.h.logs, s'.servers[i].log) && LeaderLogOk(s.h, s'.servers[i])
    requires TermsUpTo(s'.servers[i].log, s'.servers[i].term)
    requires forall m :: m in s'.net && m !in s.net ==> LogMessageOk(s.h, m)
    ensures Logs(c, s')
  {
    forall j | 0 <= j < |s'.servers|
      ensures Anchored(s'.h.logs, s'.servers[j].log) && LeaderLogOk(s'.h, s'.servers[j])
      ensures TermsUpTo(s'.servers[j].log, s'.servers[j].term)
    {
      assert Anchored(s.h.logs, s.servers[j].log) && LeaderLogOk(s.h, s.servers[j]);
      assert TermsUpTo(s.servers[j].log, s.servers[j].term);
    }
  }

  /** A step that gives term `t` the log `log` keeps the records when no other server leads `t`. */
  lemma LeaderStepKeepsLogs(c: Config, s: State, s': State, i: nat, t: nat)
    requires Logs(c, s) && i < |s.servers| == |s'.servers|
    requires s'.servers == s.servers[i := s'.servers[i]] && s'.net == s.net
    requires s'.servers[i].role == Leader && s'.servers[i].term == t && t > 0
    requires s'.h.logs == s.h.logs[t := s'.servers[i].log] && t in s'.h.elections
    requires s'.h.elections.Keys == s.h.elections.Keys + {t}
    requires forall u :: u in s.h.elections ==> s'.h.elections[u] == s.h.elections[u]
    requires t in s.h.logs ==> s.h.logs[t] <= s'.servers[i].log
    requires Anchored(s'.h.logs, s'.servers[i].log) && TermsUpTo(s'.servers[i].log, t)
    requires forall j :: 0 <= j < |s.servers| && j != i ==> !(s.servers[j].role == Leader && s.servers[j].term == t)
    ensures Logs(c, s')
  {
    hide Anchored, TermsUpTo, LogMessageOk;
    assert Extends(s.h.logs, s'.h.logs);
    forall u | u in s'.h.logs
      ensures Anchored(s'.h.logs, s'.h.logs[u]) && TermsUpTo(s'.h.logs[u], u)
    {
      if u != t {
        AnchoredKept(s.h.logs, s'.h.logs, s.h.logs[u]);
      }
    }
    forall j | 0 <= j < |s'.servers|
      ensures Anchored(s'.h.logs, s'.servers[j].log) && LeaderLogOk(s'.h, s'.servers[j])
      ensures TermsUpTo(s'.servers[j].log, s'.servers[j].term)
    {
      if j != i {
        assert LeaderLogOk(s.h, s.servers[j]) && TermsUpTo(s.servers[j].log, s.servers[j].term);
        AnchoredKept(s.h.logs, s'.h.logs, s.servers[j].log);
      }
    }
    forall m | m in s'.net
      ensures LogMessageOk(s'.h, m)
    {
      assert LogMessageOk(s.h, m);
      MessageKept(s.h, s'.h, m);
    }
  }

  lemma MessageKept(h: History, h': History, m: Message)
    requires LogMessageOk(h, m) && Extends(h.logs, h'.logs)
    requires forall u :: u in h.elections ==> u in h'.elections && h'.elections[u] == h.elections[u]
    ensures LogMessageOk(h', m)
  {
  }

  lemma VoteReplyKeepsLogs(c: Config, s: State, step: Step)
    requires Sound(c) && Shape(c, s) && Votes(c, s) && Logs(c, s) && Enabled(s, step) && step.TakeVoteReply?
    ensures Logs(c, Apply(c, s, step))
  {
    var sv := s.servers[step.i];
    if sv.role == Candidate && OnVoteReply(c, sv, step.m).role == Leader {
      WinFacts(c, s, step.i, step.m);
      WinKeepsLogs(c, s, step);
    } else {
      LostVoteKeepsLogs(c, s, step);
    }
    hide Apply, OnVoteReply, Logs, Shape, Votes;
  }

  lemma LostVoteKeepsLogs(c: Config, s: State, step: Step)
    requires Logs(c, s) && Enabled(s, step) && step.TakeVoteReply?
    requires !(s.servers[step.i].role == Candidate && OnVoteReply(c, s.servers[step.i], step.m).role == Leader)
    ensures Logs(c, Apply(c, s, step))
  {
    hide StartElection, RequestFrom, OnVoteRequest, Replicate, AppendFor, OnAppend, OnAppendReply, Anchored, LogMessageOk;
    var sv := s.servers[step.i];
    assert LeaderLogOk(s.h, sv) && TermsUpTo(sv.log, sv.term);
    QuietStepKeepsLogs(c, s, Apply(c, s, step), step.i);
  }

  lemma WinKeepsLogs(c: Config, s: State, step: Step)
    requires Logs(c, s) && Enabled(s, step) && step.TakeVoteReply?
    requires forall j :: 0 <= j < |s.servers| ==> LeaderOk(s, s.servers[j])
    requires var sv := s.servers[step.i];
      && sv.role == Candidate && OnVoteReply(c, sv, step.m).role == Leader && step.m.term == sv.term && sv.term > 0
      && sv.term !in s.h.elections
    ensures Logs(c, Apply(c, s, step))
  {
    hide StartElection, RequestFrom, OnVoteRequest, Replicate, AppendFor, OnAppend, OnAppendReply;
    var s', i := Apply(c, s, step), step.i;
    var sv := s.servers[i];
    assert forall j :: 0 <= j < |s.servers| && j != i ==> LeaderOk(s, s.servers[j]);
    assert Extends(s.h.logs, s'.h.logs);
    AnchoredKept(s.h.logs, s'.h.logs, sv.log);
    LeaderStepKeepsLogs(c, s, s', i, sv.term);
  }

  /** A leader's own log with one more entry of its own term. */
  lemma OneMoreAnchored(logs: map<nat, seq<Entry>>, log: seq<Entry>, e: Entry)
    requires Anchored(logs, log) && e.term in logs && logs[e.term] == log + [e]
    ensures Anchored(logs, log + [e])
  {
    forall k | 0 <= k < |log + [e]|
      ensures AnchoredAt(logs, log + [e], k)
    {
      if k < |log| {
        assert AnchoredAt(logs, log, k);
        assert (log + [e])[..k + 1] == log[..k + 1];
      }
    }
  }

  lemma ClientCommandKeepsLogs(c: Config, s: State, step: Step)
    requires Shape(c, s) && Votes(c, s) && Logs(c, s) && Enabled(s, step) && step.ClientCommand?
    ensures Logs(c, Apply(c, s, step))
  {
    var s', i := Apply(c, s, step), step.i;
    var sv := s.servers[i];
    assert ServerOk(c.n, i, sv) && LeaderLogOk(s.h, sv) && LeaderOk(s, sv) && ContenderOk(s, sv);
    if sv.role == Leader {
      forall j | 0 <= j < |s.servers| && j != i
        ensures !(s.servers[j].role == Leader && s.servers[j].term == sv.term)
      {
        assert LeaderOk(s, s.servers[j]) && ServerOk(c.n, j, s.servers[j]);
      }
      LeaderCommandKeepsLogs(c, s, step);
    } else {
      QuietStepKeepsLogs(c, s, s', i);
    }
  }

  lemma LeaderCommandKeepsLogs(c: Config, s: State, step: Step)
    requires Logs(c, s) && Enabled(s, step) && step.ClientCommand?
    requires var sv := s.servers[step.i]; sv.role == Leader && sv.term > 0 && LeaderOk(s, sv)
    requires forall j :: 0 <= j < |s.servers| && j != step.i ==> !(s.servers[j].role == Leader && s.servers[j].term == s.servers[step.i].term)
    ensures Logs(c, Apply(c, s, step))
  {
    var s', i := Apply(c, s, step), step.i;
    var sv := s.servers[i];
    assert LeaderLogOk(s.h, sv) && TermsUpTo(sv.log, sv.term);
    assert Extends(s.h.logs, s'.h.logs);
    AnchoredKept(s.h.logs, s'.h.logs, sv.log);
    OneMoreAnchored(s'.h.logs, sv.log, Entry(|sv.log|, sv.term, step.command));
    LeaderStepKeepsLogs(c, s, s', i, sv.term);
  }

  lemma SendAppendKeepsLogs(c: Config, s: State, step: Step)
    requires Logs(c, s) && Enabled(s, step) && step.SendAppend?
    requires ServerOk(c.n, step.i, s.servers[step.i]) && LeaderOk(s, s.servers[step.i])
    ensures Logs(c, Apply(c, s, step))
  {
    var sv := s.servers[step.i];
    assert LeaderLogOk(s.h, sv);
    assert LogMessageOk(s.h, AppendFor(sv, step.next));
    QuietStepKeepsLogs(c, s, Apply(c, s, step), step.i);
  }

  /** Taking a leader's entries leaves the follower with an anchored log. */
  lemma AppendedLogAnchored(c: Config, logs: map<nat, seq<Entry>>, sv: Server, m: Message)
    requires m.Append? && Heeds(c, sv, m) && m.term in logs && Anchored(logs, logs[m.term]) && Anchored(logs, sv.log)
    requires m.prevIndex + 1 + |m.entries| <= |logs[m.term]|
    requires logs[m.term][m.prevIndex].term == m.prevTerm
    requires m.entries == logs[m.term][m.prevIndex + 1..m.prevIndex + 1 + |m.entries|]
    requires TermsUpTo(logs[m.term], m.term) && TermsUpTo(sv.log, sv.term)
    ensures Anchored(logs, OnAppend(c, sv, m).0.log) && TermsUpTo(OnAppend(c, sv, m).0.log, OnAppend(c, sv, m).0.term)
  {
    hide Merge;
    if OnAppend(c, sv, m).1 {
      var lead := logs[m.term];
      var cut := MergeWithLeader(logs, sv.log, lead, m.prevIndex + 1, m.entries);
      AnchoredPrefix(logs, lead, m.prevIndex + 1 + |m.entries|);
    }
  }

  lemma TakeAppendKeepsLogs(c: Config, s: State, step: Step)
    requires Logs(c, s) && Enabled(s, step) && step.TakeAppend? && Heeds(c, s.servers[step.i], step.m)
    requires ServerOk(c.n, step.i, s.servers[step.i]) && LeaderOk(s, s.servers[step.i])
    ensures Logs(c, Apply(c, s, step))
  {
    hide Merge;
    var s', i, m := Apply(c, s, step), step.i, step.m;
    var sv := s.servers[i];
    assert LogMessageOk(s.h, m) && LeaderLogOk(s.h, sv);
    AppendedLogAnchored(c, s.h.logs, sv, m);
    QuietStepKeepsLogs(c, s, s', i);
  }

  lemma OtherStepsKeepLogs(c: Config, s: State, step: Step)
    requires Logs(c, s) && Enabled(s, step)
    requires step.Timeout? || step.AskVotes? || step.TakeVoteRequest? || step.TakeAppendReply?
    ensures Logs(c, Apply(c, s, step))
  {
    var s', i := Apply(c, s, step), step.i;
    assert LeaderLogOk(s.h, s.servers[i]);
    assert s'.servers[i].log == s.servers[i].log;
    QuietStepKeepsLogs(c, s, s', i);
  }

  lemma LogsKept(c: Config, s: State, step: Step)
    requires Sound(c) && Shape(c, s) && Votes(c, s) && Logs(c, s) && Enabled(s, step)
    ensures Logs(c, Apply(c, s, step))
  {
    assert ServerOk(c.n, step.i, s.servers[step.i]) && LeaderOk(s, s.servers[step.i]);
    match step
    case TakeVoteReply(_, _) => VoteReplyKeepsLogs(c, s, step);
    case ClientCommand(_, _) => ClientCommandKeepsLogs(c, s, step);
    case SendAppend(_, _) => SendAppendKeepsLogs(c, s, step);
    case TakeAppend(_, m) =>
      assert LogMessageOk(s.h, m);
      HeedsLeader(c, s, step.i, m);
      TakeAppendKeepsLogs(c, s, step);
    case _ => OtherStepsKeepLogs(c, s, step);
  }
}
