/** What a server answers and when its commit index moves (consensus/raft/raft_server.cc): exactly when a vote
    is granted, when a candidate takes office, when entries are accepted and what is then committed; and over
    whole runs, that an append brings a follower up to its leader's commit index and that nothing committed
    is ever given up.
 */
module RaftOutcomes {
  import opened Basics
  import opened RaftHandlers
  import opened RaftProtocol
  import opened RaftElection
  import opened RaftLog
  import opened RaftAcks
  import opened RaftSafety

  // ----- votes

  /** The candidate's last entry against the voter's: the very same, or no earlier in term and then index. */
  ghost predicate LogGoodEnough(c: Config, last: Entry, m: Message)
    requires m.VoteRequest?
  {
    if c.test == SameLast then (m.lastTerm, m.lastIndex) == (last.term, last.index)
    else last.term < m.lastTerm || (last.term == m.lastTerm && last.index <= m.lastIndex)
  }

  /** A vote is granted exactly when the term is not stale, the voter has not given its vote of that term to
      another, and the candidate's log is good enough; a candidate that asks again is answered again. */
  lemma VoteGrantedIff(c: Config, sv: Server, m: Message)
    requires m.VoteRequest? && sv.log != []
    ensures var (sv', granted) := OnVoteRequest(c, sv, m);
      && (granted <==> sv.term <= m.term && (sv.term == m.term ==> sv.votedFor in {None, Some(m.candidate)})
                       && LogGoodEnough(c, Last(sv.log), m))
      && sv'.term == Max(sv.term, m.term) && sv'.log == sv.log && sv'.commit == sv.commit
      && (sv.term < m.term ==> sv'.role == Follower) && (m.term <= sv.term ==> sv'.role == sv.role)
      && (granted ==> sv'.votedFor == Some(m.candidate) && OnVoteRequest(c, sv', m) == (sv', true))
      && (!granted && sv.term == m.term ==> sv'.votedFor == sv.votedFor)
  {
  }

  /** A candidate takes office exactly when a granted vote gives it enough: a strict majority of distinct
      servers, or half of the cluster where replies are counted.  As coded this holds of a vote of a newer term
      too, which no run brings, as the next lemma says. */
  lemma TakesOfficeIff(c: Config, sv: Server, m: Message)
    requires m.VoteReply? && sv.role == Candidate
    ensures var sv' := OnVoteReply(c, sv, m);
      && (sv'.role == Leader <==>
            m.granted && sv.term <= m.term
            && (if c.rule == CountVoters then |sv.voters + {m.from}| > c.n / 2 else sv.votes + 1 >= (|sv.matchIndex| + 1) / 2))
      && (sv'.role == Follower <==> m.term > sv.term && sv'.role != Leader)
      && sv'.term == Max(sv.term, m.term) && sv'.log == sv.log && sv'.commit == sv.commit
      && (m.granted && sv.term <= m.term ==> sv'.voters == sv.voters + {m.from} && sv'.votes == sv.votes + 1)
      && (sv'.role == Leader ==> forall p :: 0 <= p < |sv'.matchIndex| ==> sv'.matchIndex[p] == 0)
  {
  }

  /** No run brings a candidate a vote of a term it has not stood for. */
  lemma VotesAreNotNewer(c: Config, run: seq<State>, a: nat, m: Message)
    requires Sound(c) && IsRun(c, run) && a < |run| && m in run[a].net && m.VoteReply? && m.granted
    ensures m.to < |run[a].servers| && m.term <= run[a].servers[m.to].term
  {
    Reachable(c, run, a);
    assert VoteMessageOk(run[a], m);
    assert BallotOk(run[a], Ballot(m.term, m.from, m.to));
  }

  // ----- appends

  /** Entries are accepted exactly when the leader's term is not stale and the log has the entry before them.
      The log then holds all of them, by their terms; what was there before them stays, and so does what
      comes after them unless one of them is missing or has another term.  The commit index moves to the
      leader's, or as far as the log goes, if that is further. */
  lemma AppendIs(c: Config, sv: Server, m: Message)
    requires m.Append?
    ensures var (sv', ok) := OnAppend(c, sv, m);
      var at := m.prevIndex + 1;
      && (ok <==> sv.term <= m.term && at <= |sv.log| && sv.log[at - 1].term == m.prevTerm)
      && (!ok ==> sv'.log == sv.log && sv'.commit == sv.commit)
      && (ok ==>
          && at + |m.entries| <= |sv'.log| && sv'.log[..at] == sv.log[..at] && HasAll(sv'.log, at, m.entries)
          && (if HasAll(sv.log, at, m.entries) then sv'.log == sv.log
              else |sv'.log| == at + |m.entries| && Last(sv'.log) == Last(m.entries))
          && (m.leaderCommit <= sv.commit ==> sv'.commit == sv.commit)
          && (sv.commit < m.leaderCommit ==>
                sv'.commit <= m.leaderCommit && sv'.commit < |sv'.log| && (sv'.commit == m.leaderCommit || sv'.commit == |sv'.log| - 1)))
      && sv'.term == (if c.terms == Adopts then Max(sv.term, m.term) else sv.term)
  {
    hide Merge;
    if OnAppend(c, sv, m).1 {
      MergeIs(sv.log, m.prevIndex + 1, m.entries);
    }
  }

  /** All of the new entries are there already. */
  ghost predicate HasAll(log: seq<Entry>, at: nat, entries: seq<Entry>) {
    forall j :: 0 <= j < |entries| ==> at + j < |log| && log[at + j].term == entries[j].term
  }

  lemma MergeIs(log: seq<Entry>, at: nat, entries: seq<Entry>)
    requires at <= |log|
    ensures var log' := Merge(log, at, entries);
      && at + |entries| <= |log'| && log'[..at] == log[..at] && HasAll(log', at, entries)
      && (if HasAll(log, at, entries) then log' == log else |log'| == at + |entries| && Last(log') == Last(entries))
  {
    var k := Known(log, at, entries);
    hide Known;
    if k < |entries| {
      var log' := log[..at + k] + entries[k..];
      assert log'[..at] == log[..at];
      assert forall j :: k <= j < |entries| ==> log'[at + j] == entries[j];
      assert Last(log') == Last(entries);
    }
  }

  /** An append of a run that a server accepts leaves it committed exactly as far as it was or as its leader
      was, whichever is further, with the leader's entries up to there. */
  lemma AppendBringsCommit(c: Config, run: seq<State>, a: nat, i: nat, m: Message)
    requires Sound(c) && SoundCounter(c) && IsRun(c, run) && a < |run|
    requires i < |run[a].servers| && m.Append? && m in run[a].net && OnAppend(c, run[a].servers[i], m).1
    ensures var sv' := OnAppend(c, run[a].servers[i], m).0;
      && sv'.commit == Max(run[a].servers[i].commit, m.leaderCommit)
      && m.term in run[a].h.logs && Agree(sv'.log, run[a].h.logs[m.term], m.leaderCommit)
  {
    hide IsRun;
    Reachable(c, run, a);
    AcceptedCommit(c, run[a], i, m);
  }

  lemma AcceptedCommit(c: Config, s: State, i: nat, m: Message)
    requires Inv(c, s) && Commits(c, s)
    requires i < |s.servers| && m.Append? && m in s.net && OnAppend(c, s.servers[i], m).1
    ensures var sv' := OnAppend(c, s.servers[i], m).0;
      && sv'.commit == Max(s.servers[i].commit, m.leaderCommit)
      && m.term in s.h.logs && Agree(sv'.log, s.h.logs[m.term], m.leaderCommit)
  {
    hide OnAppend, Inv, Commits, LogMessageOk, HasAll;
    SentFacts(c, s, m);
    AppendIs(c, s.servers[i], m);
    TakenAgrees(c, s, i, m);
  }

  lemma SentFacts(c: Config, s: State, m: Message)
    requires Inv(c, s) && Commits(c, s) && m.Append? && m in s.net
    ensures Logs(c, s) && LogMessageOk(s.h, m) && m.term in s.h.logs && m.leaderCommit <= m.prevIndex + |m.entries|
  {
    assert LogMessageOk(s.h, m) && CommitMessageOk(c, s.h, m);
  }

  /** The new log has everything the message reaches. */
  lemma TakenAgrees(c: Config, s: State, i: nat, m: Message)
    requires Logs(c, s) && i < |s.servers| && m.Append? && LogMessageOk(s.h, m) && OnAppend(c, s.servers[i], m).1
    ensures var sv' := OnAppend(c, s.servers[i], m).0;
      forall k: nat :: k <= m.prevIndex + |m.entries| ==> Agree(sv'.log, s.h.logs[m.term], k)
  {
    hide Merge, Anchored;
    var sv, lead, end := s.servers[i], s.h.logs[m.term], m.prevIndex + 1 + |m.entries|;
    var cut := MergeWithLeader(s.h.logs, sv.log, lead, m.prevIndex + 1, m.entries);
    var log := OnAppend(c, sv, m).0.log;
    assert log[..end] == lead[..end];
    forall k: nat | k <= m.prevIndex + |m.entries|
      ensures Agree(log, lead, k)
    {
      assert log[..end][..k + 1] == lead[..end][..k + 1];
      assert log[..end][..k + 1] == log[..k + 1] && lead[..end][..k + 1] == lead[..k + 1];
    }
  }

  // ----- commitment

  /** How many peers are known to hold index `k`, as a set. */
  ghost function Holders(matchIndex: seq<nat>, k: nat): set<nat> {
    set p: nat | p < |matchIndex| && matchIndex[p] >= k
  }

  lemma {:induction false} MatchCountIs(matchIndex: seq<nat>, k: nat)
    ensures MatchCount(matchIndex, k) == |Holders(matchIndex, k)|
  {
    if matchIndex != [] {
      var z := |matchIndex| - 1;
      MatchCountIs(matchIndex[..z], k);
      var rest := Holders(matchIndex[..z], k);
      assert Holders(matchIndex, k) == if matchIndex[z] >= k then rest + {z} else rest;
    }
  }

  /** With the acknowledged index recorded, a leader's commit index becomes the largest index beyond it, of
      its own term, that half of the cluster beside itself holds; otherwise it stays. */
  lemma LeaderCommitsLargest(c: Config, sv: Server, m: Message)
    requires c.counter == Acknowledged && m.AppendReply? && m.from != sv.id && PeerNumber(sv.id, m.from) < |sv.matchIndex|
    requires sv.role == Leader && m.term == sv.term
    ensures var sv', p := OnAppendReply(c, sv, m), PeerNumber(sv.id, m.from);
      && sv' == sv.(matchIndex := sv'.matchIndex, commit := sv'.commit) && |sv'.matchIndex| == |sv.matchIndex|
      && sv'.matchIndex[p] == (if m.success then Max(sv.matchIndex[p], m.matched) else sv.matchIndex[p])
      && (forall r :: 0 <= r < |sv.matchIndex| && r != p ==> sv'.matchIndex[r] == sv.matchIndex[r])
      && (sv'.commit == sv.commit || (sv.commit < sv'.commit < |sv.log| && Enough(sv', sv'.commit)))
      && (forall k :: sv.commit < k < |sv.log| && Enough(sv', k) ==> k <= sv'.commit)
  {
    var sv1 := Matched(c, sv, m);
    var sv' := OnAppendReply(c, sv, m);
    forall k | 0 <= k < |sv.log|
      ensures Enough(sv', k) <==> Committable(sv1, k)
    {
      MatchCountIs(sv1.matchIndex, k);
    }
  }

  ghost predicate Enough(sv: Server, k: nat)
    requires k < |sv.log|
  {
    sv.log[k].term == sv.term && |Holders(sv.matchIndex, k)| >= (|sv.matchIndex| + 1) / 2
  }

  lemma StepKeepsCommit(c: Config, s: State, step: Step, i: nat)
    requires Inv(c, s) && Commits(c, s) && Enabled(s, step) && i < |s.servers|
    ensures s.servers[i].commit <= Apply(c, s, step).servers[i].commit
  {
    hide Inv, Commits, Merge, CommitFrom;
    if step.i == i && step.TakeAppend? && OnAppend(c, s.servers[i], step.m).1 {
      AcceptedCommit(c, s, i, step.m);
    } else if step.i == i && step.TakeAppendReply? {
      ReplyKeepsCommit(c, s.servers[i], step.m);
    }
  }

  lemma ReplyKeepsCommit(c: Config, sv: Server, m: Message)
    requires m.AppendReply? && m.from != sv.id && PeerNumber(sv.id, m.from) < |sv.matchIndex|
    ensures sv.commit <= OnAppendReply(c, sv, m).commit
  {
  }

  lemma {:induction false} CommitGrows(c: Config, run: seq<State>, a: nat, b: nat, i: nat)
    requires Sound(c) && SoundCounter(c) && IsRun(c, run) && a <= b < |run| && i < |run[a].servers|
    ensures i < |run[b].servers| && run[a].servers[i].commit <= run[b].servers[i].commit
    decreases b
  {
    hide Inv, Commits, Init, Enabled, Apply;
    if a < b {
      CommitGrows(c, run, a, b - 1, i);
      Reachable(c, run, b - 1);
      assert StepTo(c, run, b);
      var step :| Enabled(run[b - 1], step) && run[b] == Apply(c, run[b - 1], step);
      StepKeepsCommit(c, run[b - 1], step, i);
    }
  }

  /** What a server has committed it has committed for good: its commit index never goes down, and the entries
      up to it never change. */
  lemma CommittedForGood(c: Config, run: seq<State>, a: nat, b: nat, i: nat)
    requires Sound(c) && SoundCounter(c) && IsRun(c, run) && a <= b < |run| && i < |run[a].servers|
    ensures i < |run[b].servers|
    ensures var x, y := run[a].servers[i], run[b].servers[i];
      x.commit <= y.commit && x.commit < |x.log| && x.commit < |y.log| && x.log[..x.commit + 1] == y.log[..x.commit + 1]
  {
    hide IsRun;
    CommitGrows(c, run, a, b, i);
    StateMachineSafety(c, run, a, i, b, i, run[a].servers[i].commit);
  }
}
