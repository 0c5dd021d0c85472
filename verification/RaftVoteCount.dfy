/** The vote counter as coded: `votes_` starts at one for the candidate itself and every granted
    reply adds one, also a second reply of the same voter, until it reaches `majority()`.  Election
    safety then holds for clusters of at most three servers and for no larger one.
 */
module RaftVoteCount {
  import opened Basics
  import opened RaftHandlers
  import opened RaftProtocol
  import opened RaftElection

  lemma Extend(c: Config, run: seq<State>, step: Step) returns (run': seq<State>)
    requires IsRun(c, run) && Enabled(run[|run| - 1], step)
    ensures IsRun(c, run') && run <= run' && |run'| == |run| + 1 && run'[|run'| - 1] == Apply(c, run[|run| - 1], step)
  {
    run' := run + [Apply(c, run[|run| - 1], step)];
    forall a | 0 < a < |run'|
      ensures StepTo(c, run', a)
    {
      if a < |run| {
        assert StepTo(c, run, a);
      } else {
        assert Next(c, run[|run| - 1], run'[a]);
      }
    }
  }

  /** One voter's reply, delivered again and again, makes its candidate the leader. */
  lemma {:induction false} OneReplyElects(c: Config, run: seq<State>, i: nat, m: Message) returns (run': seq<State>)
    requires c.rule == CountReplies && IsRun(c, run)
    requires var s := run[|run| - 1];
      && i < |s.servers| && m.VoteReply? && m in s.net && m.to == i && m.granted
      && s.servers[i].role == Candidate && s.servers[i].term == m.term
    ensures IsRun(c, run')
    ensures var s, s' := run[|run| - 1], run'[|run'| - 1];
      && |s'.servers| == |s.servers| && s'.net == s.net
      && s'.servers[i].role == Leader && s'.servers[i].term == m.term
      && forall j :: 0 <= j < |s.servers| && j != i ==> s'.servers[j] == s.servers[j]
    decreases Majority(|run[|run| - 1].servers[i].matchIndex|) - run[|run| - 1].servers[i].votes
  {
    run' := Extend(c, run, TakeVoteReply(i, m));
    if run'[|run'| - 1].servers[i].role != Leader {
      run' := OneReplyElects(c, run', i, m);
    }
  }

  /** The state in which every run of a cluster begins. */
  function Start(n: nat): State
    requires n >= 1
  {
    State(
      seq(n, i requires 0 <= i => Server(i, Follower, 0, None, 0, {}, [SENTINEL], 0, seq(n - 1, _ => 0))), {},
      History({}, map[], map[0 := [SENTINEL]], set v | 0 <= v < n :: Ack(0, v, 0)))
  }

  /** Candidates 0 and 1 each get the vote of one further server. */
  lemma TwoVotes(c: Config) returns (run: seq<State>)
    requires c.n >= 4
    ensures IsRun(c, run)
    ensures var s := run[|run| - 1];
      && |s.servers| == c.n
      && VoteReply(1, 2, 0, true) in s.net && VoteReply(1, 3, 1, true) in s.net
      && s.servers[0].role == s.servers[1].role == Candidate
      && s.servers[0].term == s.servers[1].term == 1
  {
    run := [Start(c.n)];
    run := Extend(c, run, Timeout(0));
    run := Extend(c, run, Timeout(1));
    run := Extend(c, run, TakeVoteRequest(2, VoteRequest(1, 0, 0, 0)));
    run := Extend(c, run, TakeVoteRequest(3, VoteRequest(1, 1, 0, 0)));
  }

  lemma TwoLeaders(c: Config) returns (run: seq<State>)
    requires c.n >= 4 && c.rule == CountReplies
    ensures IsRun(c, run) && !OneLeaderPerTerm(run)
  {
    run := TwoVotes(c);
    run := OneReplyElects(c, run, 0, VoteReply(1, 2, 0, true));
    run := OneReplyElects(c, run, 1, VoteReply(1, 3, 1, true));
    var z := |run| - 1;
    assert run[z].servers[0].role == Leader && run[z].servers[1].role == Leader;
    assert run[z].servers[0].term == run[z].servers[1].term;
  }

  /** Counting replies elects at most one leader for each term, over all runs, if and only if the cluster has
      at most three servers. */
  lemma CodedCounterSafeIff(c: Config)
    requires c.rule == CountReplies
    ensures (forall run :: IsRun(c, run) ==> OneLeaderPerTerm(run)) <==> c.n <= 3
  {
    if c.n <= 3 {
      forall run | IsRun(c, run)
        ensures OneLeaderPerTerm(run)
      {
        ElectionSafety(c, run);
      }
    } else {
      var run := TwoLeaders(c);
    }
  }
}
