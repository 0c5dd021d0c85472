/** One Raft server as an object (consensus/raft/raft_server.cc): the handlers update its fields, each
    to exactly what the corresponding function of RaftHandlers says.  A handler runs as one atomic
    step, as under the server's mutex.  The next indices are kept as coded; RaftProtocol lets a leader
    send from any index of its log, so they bear on what is sent and not on what is safe.
 */
module RaftServer {
  import opened Basics
  import opened RaftHandlers

  class Node {
    const config: Config
    const id: nat
    var role: Role
    var term: nat
    var votedFor: Option<nat>
    var votes: nat
    var voters: set<nat>
    var log: seq<Entry>
    var commit: nat
    var matchIndex: seq<nat>
    var nextIndex: seq<int>

    ghost function View(): Server
      reads this
    {
      Server(id, role, term, votedFor, votes, voters, log, commit, matchIndex)
    }

    constructor (config: Config, id: nat)
      requires id < config.n
      ensures this.config == config
      ensures View() == Server(id, Follower, 0, None, 0, {}, [SENTINEL], 0, seq(config.n - 1, _ => 0))
      ensures |nextIndex| == |matchIndex|
    {
      this.config, this.id := config, id;
      role, term, votedFor, votes, voters := Follower, 0, None, 0, {};
      log, commit := [SENTINEL], 0;
      matchIndex, nextIndex := seq(config.n - 1, _ => 0), seq(config.n - 1, _ => 0);
    }

    method ConvertToFollower(newTerm: nat)
      modifies this`role, this`term, this`votedFor
      ensures View() == StepDown(old(View()), newTerm)
    {
      role := Follower;
      term := newTerm;
      votedFor := None;
    }

    method ConvertToCandidate()
      modifies this`role, this`term, this`votedFor, this`votes, this`voters
      ensures View() == StartElection(old(View()))
    {
      role := Candidate;
      term := term + 1;
      votedFor := Some(id);
      votes := 1;
      voters := {id};
    }

    method ConvertToLeader()
      modifies this`role, this`matchIndex, this`nextIndex
      ensures View() == BecomeLeader(old(View()))
      ensures |nextIndex| == |old(nextIndex)| && AllAre(nextIndex, |log| + 1)
    {
      role := Leader;
      var i := 0;
      while i < |nextIndex|
        invariant i <= |nextIndex| == |old(nextIndex)|
        invariant forall p :: 0 <= p < i ==> nextIndex[p] == |log| + 1
        modifies this`nextIndex
      {
        nextIndex := nextIndex[i := |log| + 1];
        i := i + 1;
      }
      i := 0;
      while i < |matchIndex|
        invariant i <= |matchIndex| == |old(matchIndex)|
        invariant forall p :: 0 <= p < i ==> matchIndex[p] == 0
        modifies this`matchIndex
      {
        matchIndex := matchIndex[i := 0];
        i := i + 1;
      }
      assert matchIndex == seq(|old(matchIndex)|, _ => 0);
    }

    method RequestVote(m: Message) returns (reply: Message)
      requires m.VoteRequest? && log != []
      modifies this`role, this`term, this`votedFor
      ensures View() == OnVoteRequest(config, old(View()), m).0
      ensures reply == VoteReply(m.term, id, m.candidate, OnVoteRequest(config, old(View()), m).1)
    {
      if m.term < term {
        return VoteReply(m.term, id, m.candidate, false);
      } else if m.term > term {
        ConvertToFollower(m.term);
      }
      if votedFor == None || votedFor == Some(m.candidate) {
        var good := if config.test == SameLast then Last(log).index == m.lastIndex && Last(log).term == m.lastTerm
                    else AtLeastAsUpToDate(log, m);
        if good {
          votedFor := Some(m.candidate);
          return VoteReply(m.term, id, m.candidate, true);
        }
      }
      return VoteReply(m.term, id, m.candidate, false);
    }

    method ReceiveVoteReply(m: Message)
      requires m.VoteReply?
      modifies this
      ensures View() == OnVoteReply(config, old(View()), m)
      ensures |nextIndex| == |old(nextIndex)|
      ensures if role == Leader && old(role) == Candidate then AllAre(nextIndex, |log| + 1) else nextIndex == old(nextIndex)
    {
      if role != Candidate {
        return;
      }
      if m.term > term {
        ConvertToFollower(m.term);
      }
      if m.term == term && m.granted {
        votes := votes + 1;
        voters := voters + {m.from};
        var won := if config.rule == CountReplies then votes >= Majority(|matchIndex|) else 2 * |voters| > config.n;
        if won {
          ConvertToLeader();
        }
      }
    }

    method ReplicateCommand(command: int) returns (ok: bool)
      modifies this`log
      ensures View() == Replicate(old(View()), command)
      ensures ok == (old(role) == Leader)
      ensures log == if ok then old(log) + [Entry(|old(log)|, term, command)] else old(log)
    {
      if role != Leader {
        return false;
      }
      log := log + [Entry(|log|, term, command)];
      return true;
    }

    /** The message for peer `p`; none if its next index is outside the log, where the code reads past it. */
    method SendAppendEntries(p: nat) returns (m: Option<Message>)
      requires p < |nextIndex|
      ensures m == if 0 < nextIndex[p] <= |log| then Some(AppendFor(View(), nextIndex[p])) else None
    {
      var next := nextIndex[p];
      if !(0 < next <= |log|) {
        return None;
      }
      var entries: seq<Entry> := [];
      var j := next;
      while j < |log|
        invariant next <= j <= |log| && entries == log[next..j]
      {
        entries := entries + [log[j]];
        j := j + 1;
      }
      assert entries == log[next..];
      m := Some(Append(term, id, log[next - 1].index, log[next - 1].term, commit, entries));
    }

    method AppendEntries(m: Message) returns (reply: Message)
      requires m.Append?
      modifies this`role, this`term, this`votedFor, this`log, this`commit
      ensures View() == OnAppend(config, old(View()), m).0
      ensures reply == AppendReply(m.term, id, m.leader, OnAppend(config, old(View()), m).1, m.prevIndex + |m.entries|)
      ensures reply.success <==> old(term) <= m.term && m.prevIndex < |old(log)| && old(log)[m.prevIndex].term == m.prevTerm
      ensures commit == if reply.success && m.leaderCommit > old(commit) then Min(m.leaderCommit, |log| - 1) else old(commit)
    {
      hide Merge;
      if m.term < term {
        return AppendReply(m.term, id, m.leader, false, m.prevIndex + |m.entries|);
      } else if m.term > term && config.terms == Adopts {
        ConvertToFollower(m.term);
      }
      if |log| <= m.prevIndex || log[m.prevIndex].term != m.prevTerm {
        return AppendReply(m.term, id, m.leader, false, m.prevIndex + |m.entries|);
      }
      MergeEntries(m.prevIndex + 1, m.entries);
      if m.leaderCommit > commit {
        commit := Min(m.leaderCommit, |log| - 1);
      }
      return AppendReply(m.term, id, m.leader, true, m.prevIndex + |m.entries|);
    }

    /** Walk over the new entries to the first that conflicts or is missing, cut the log there, and
        append the rest. */
    method MergeEntries(at: nat, entries: seq<Entry>)
      requires at <= |log|
      modifies this`log
      ensures log == Merge(old(log), at, entries)
    {
      var k := 0;
      while k < |entries| && at + k < |log| && log[at + k].term == entries[k].term
        invariant k <= |entries| && at + k <= |log|
        invariant forall j :: 0 <= j < k ==> log[at + j].term == entries[j].term
      {
        k := k + 1;
      }
      KnownIs(log, at, entries, k);
      if k < |entries| {
        var merged, cut := log[..at + k], k;
        while k < |entries|
          invariant cut <= k <= |entries|
          invariant merged == log[..at + cut] + entries[cut..k]
        {
          merged := merged + [entries[k]];
          k := k + 1;
        }
        assert entries[cut..k] == entries[cut..];
        log := merged;
      }
    }

    method UpdateCommitIndex()
      modifies this`commit
      ensures View() == UpdateCommit(old(View()))
      ensures commit >= old(commit)
      ensures commit == old(commit) || (commit < |log| && Committable(View(), commit))
      ensures forall k :: old(commit) < k < |log| && Committable(View(), k) ==> k <= commit
    {
      ghost var was := View();
      var n := commit + 1;
      while n < |log|
        invariant View() == was.(commit := commit)
        invariant was.commit < n && was.commit <= commit < n
        invariant CommitFrom(was, was.commit + 1, was.commit) == CommitFrom(was, n, commit)
      {
        var count, i := 0, 0;
        while i < |matchIndex|
          invariant i <= |matchIndex| && count == MatchCount(matchIndex[..i], n)
        {
          assert matchIndex[..i + 1][..i] == matchIndex[..i];
          if matchIndex[i] >= n {
            count := count + 1;
          }
          i := i + 1;
        }
        assert matchIndex[..i] == matchIndex;
        assert Committable(was, n) <==> count >= Majority(|matchIndex|) && log[n].term == term;
        if count >= Majority(|matchIndex|) && log[n].term == term {
          commit := n;
        }
        n := n + 1;
      }
      assert forall k :: 0 <= k < |log| ==> Committable(was, k) == Committable(View(), k);
    }

    /** `resend` says that the entries are to be sent again, from one place further back. */
    method ReceiveAppendReply(m: Message) returns (resend: bool)
      requires m.AppendReply? && m.from != id && PeerNumber(id, m.from) < |matchIndex| == |nextIndex|
      modifies this
      ensures View() == OnAppendReply(config, old(View()), m)
      ensures resend <==> Counts(config, old(View()), m) && !m.success
      ensures var p := PeerNumber(id, m.from);
        nextIndex == if !Counts(config, old(View()), m) then old(nextIndex)
                     else if m.success then old(nextIndex)[p := old(nextIndex)[p] + 1]
                     else old(nextIndex)[p := old(nextIndex)[p] - 1]
    {
      resend := false;
      if role != Leader {
        return;
      }
      var current := term;
      if m.term > term {
        ConvertToFollower(m.term);
      }
      if config.counter == Acknowledged && m.term != current {
        return;
      }
      var p := PeerNumber(id, m.from);
      if m.success {
        nextIndex := nextIndex[p := nextIndex[p] + 1];
        matchIndex := matchIndex[p := if config.counter == CountSuccesses then matchIndex[p] + 1 else Max(matchIndex[p], m.matched)];
      } else {
        nextIndex := nextIndex[p := nextIndex[p] - 1];
        resend := true;
      }
      UpdateCommitIndex();
    }
  }

  ghost predicate AllAre(s: seq<int>, x: int) {
    forall p :: 0 <= p < |s| ==> s[p] == x
  }

  /** The leader takes the reply into account. */
  predicate Counts(c: Config, s: Server, m: Message)
    requires m.AppendReply?
  {
    s.role == Leader && (c.counter == CountSuccesses || m.term == s.term)
  }

  lemma KnownIs(log: seq<Entry>, at: nat, entries: seq<Entry>, k: nat)
    requires k <= |entries| && at + k <= |log|
    requires forall j :: 0 <= j < k ==> log[at + j].term == entries[j].term
    requires k < |entries| ==> at + k == |log| || log[at + k].term != entries[k].term
    ensures Known(log, at, entries) == k
  {
  }
}
