/**
  * From the call that sets a timer to the callback that runs (network/dispatcher.cc): over any run, what the
  * pool runs for an id is the callback given to the call of run_at that returned it, for the deadlines asked
  * for; and a timer leaves the queue only by being handed over or cancelled.
  */
module TimerCalls {
  import opened Timers
  import opened TimerRuns

  /** The callback that a pool thread runs when it takes what is at place `k`. */
  function Callback(s: State, k: nat): int
    requires Allowed(s, DoExecute(k))
  {
    match s.pool[k]
    case Once(_, job) => job
    case Again(rep) => s.repeats[rep].job
  }

  /** Every task is named by an id given out before, a one-shot timer by its place in the queue. */
  ghost predicate Named(s: State) {
    && (forall t :: t in s.timers || t in s.handed ==> TaskId(t.task).no <= s.no && (t.task.Once? ==> t.task.tid == t.id))
    && (forall task :: task in s.pool ==> TaskId(task).no <= s.no)
  }

  /** All that the state holds under the id `tid` comes from `run_at(tp, job, interval)`. */
  ghost predicate From(s: State, tid: Id, tp: int, job: int, interval: int) {
    && tid.no <= s.no
    && (forall t :: (t in s.timers || t in s.handed) && TaskId(t.task) == tid ==> TaskFrom(t.task, tid, job, interval))
    && (forall task :: task in s.pool && TaskId(task) == tid ==> TaskFrom(task, tid, job, interval))
    && (if interval == 0 then tid.at == tp && tid !in s.repeats
        else tid.at == -tp && tid in s.born && s.born[tid] == interval && (tid in s.repeats ==> s.repeats[tid].job == job))
  }

  predicate TaskFrom(task: Task, tid: Id, job: int, interval: int) {
    task == if interval == 0 then Once(tid, job) else Again(tid)
  }

  // ----- one step

  /** What a call of run_at puts in the queue. */
  lemma RunAtAdds(s: State, tp: int, job: int, interval: int) returns (t: Timer)
    requires Inv(s) && s.working
    ensures var (s', tid) := RunAt(s, tp, job, interval);
      && t.id.at == tp && s.no < t.id.no <= s.no + 2 && TaskId(t.task) == tid && TaskFrom(t.task, tid, job, interval)
      && t !in s.timers && forall u :: u in s'.timers <==> u in s.timers || u == t
  {
    hide RepOk, Sorted;
    RunAtGains(s, tp, job, interval);
    t := Added(s, tp, job, interval);
  }

  lemma RunAtNamed(s: State, tp: int, job: int, interval: int)
    requires Inv(s) && Named(s)
    ensures Named(RunAt(s, tp, job, interval).0)
  {
    hide RepOk, Sorted;
    if s.working {
      RunAtGains(s, tp, job, interval);
    }
  }

  /** A call of run_at sets one timer: a fresh id, one task in the queue, for `tp`. */
  lemma SetsTimer(s: State, tp: int, job: int, interval: int)
    requires Inv(s) && Named(s) && s.working
    ensures var (s', tid) := RunAt(s, tp, job, interval);
      From(s', tid, tp, job, interval) && tid !in s.given && tid in s'.given
  {
    hide RepOk, Sorted;
    RunAtGains(s, tp, job, interval);
    RunAtIds(s, tp, job, interval);
  }

  lemma HandFrom(s: State, tid: Id, tp: int, job: int, interval: int)
    requires s.timers != []
    ensures Named(s) ==> Named(Hand(s))
    ensures From(s, tid, tp, job, interval) ==> From(Hand(s), tid, tp, job, interval)
  {
    var t := s.timers[0];
    assert t in s.timers;
    assert forall u :: u in s.timers[1..] ==> u in s.timers;
  }

  lemma {:induction false} TimeoutFrom(s: State, now: int, tid: Id, tp: int, job: int, interval: int)
    ensures Named(s) ==> Named(HandleTimeout(s, now))
    ensures From(s, tid, tp, job, interval) ==> From(HandleTimeout(s, now), tid, tp, job, interval)
    decreases |s.timers|
  {
    hide Named, From;
    if s.timers != [] && Less(s.timers[0].id, Id(now, MAX_TIMEOUTS)) {
      HandFrom(s, tid, tp, job, interval);
      TimeoutFrom(Hand(s), now, tid, tp, job, interval);
    }
  }

  lemma CancelFrom(s: State, c: Id, tid: Id, tp: int, job: int, interval: int)
    requires Inv(s) && Named(s) && Allowed(s, DoCancel(c))
    ensures Named(Cancel(s, c).0)
    ensures From(s, tid, tp, job, interval) ==> From(Cancel(s, c).0, tid, tp, job, interval)
  {
    hide RepOk, Sorted, IdsOk;
    assert RepOk(s, c);
    CancelErases(s, c);
  }

  lemma ExecuteFrom(s: State, k: nat, tid: Id, tp: int, job: int, interval: int)
    requires Inv(s) && Named(s) && Allowed(s, DoExecute(k))
    ensures Named(Step(s, DoExecute(k)))
    ensures From(s, tid, tp, job, interval) ==> From(Step(s, DoExecute(k)), tid, tp, job, interval)
  {
    hide RepOk, Sorted, IdsOk, Insert;
    ExecuteIds(s, k);
    var s1 := Take(s, k);
    assert s.pool[k] in s.pool;
    assert forall task :: task in s1.pool ==> task in s.pool;
  }

  lemma AnotherFrom(s: State, tid: Id, tp: int, job: int, interval: int, tp': int, job': int, interval': int)
    requires Inv(s) && From(s, tid, tp, job, interval)
    ensures From(RunAt(s, tp', job', interval').0, tid, tp, job, interval)
  {
    hide RepOk, Sorted;
    if s.working {
      RunAtGains(s, tp', job', interval');
    }
  }

  lemma StepFrom(s: State, a: Action, tid: Id, tp: int, job: int, interval: int)
    requires Inv(s) && Named(s) && Allowed(s, a)
    ensures Named(Step(s, a))
    ensures From(s, tid, tp, job, interval) ==> From(Step(s, a), tid, tp, job, interval)
  {
    hide Inv;
    match a
    case DoRunAt(tp', job', interval') =>
      RunAtNamed(s, tp', job', interval');
      if From(s, tid, tp, job, interval) {
        AnotherFrom(s, tid, tp, job, interval, tp', job', interval');
      }
    case DoCancel(c) => CancelFrom(s, c, tid, tp, job, interval);
    case DoTimeout(now) => TimeoutFrom(s, now, tid, tp, job, interval);
    case DoExecute(k) => ExecuteFrom(s, k, tid, tp, job, interval);
    case DoExit =>
  }

  // ----- runs

  lemma {:induction false} RunNamed(run: seq<State>, n: nat)
    requires IsRun(run) && run[0] == Initial() && n < |run|
    ensures Inv(run[n]) && Named(run[n])
  {
    hide Inv, Named;
    RunKeeps(run, n);
    if n == 0 {
      assert Named(Initial()) by { StartNamed(); }
    } else {
      RunNamed(run, n - 1);
      assert StepTo(run[n - 1], run[n - 1 + 1]);
      var a :| Allowed(run[n - 1], a) && run[n] == Step(run[n - 1], a);
      StepFrom(run[n - 1], a, Id(0, 0), 0, 0, 0);
    }
  }

  lemma StartNamed()
    ensures Named(Initial())
  {
  }

  lemma {:induction false} RunFrom(run: seq<State>, m: nat, n: nat, tid: Id, tp: int, job: int, interval: int)
    requires IsRun(run) && run[0] == Initial() && m <= n < |run| && From(run[m], tid, tp, job, interval)
    ensures From(run[n], tid, tp, job, interval)
    decreases n
  {
    hide Inv, Named, From;
    if m < n {
      RunFrom(run, m, n - 1, tid, tp, job, interval);
      RunNamed(run, n - 1);
      assert StepTo(run[n - 1], run[n - 1 + 1]);
      var a :| Allowed(run[n - 1], a) && run[n] == Step(run[n - 1], a);
      StepFrom(run[n - 1], a, tid, tp, job, interval);
    }
  }

  /** In every run, whatever happens after a call of run_at that returned `tid`: every callback the pool runs
    * for `tid` is the one given to that call, and every firing handed over for it is for the time asked for:
    * `tp` once, or `tp`, `tp + interval` and so on. */
  lemma CallbacksAreTheirs(run: seq<State>, m: nat, n: nat, tp: int, job: int, interval: int)
    requires IsRun(run) && run[0] == Initial() && m < n < |run| && run[m].working
    requires run[m + 1] == Step(run[m], DoRunAt(tp, job, interval))
    ensures var tid := RunAt(run[m], tp, job, interval).1;
      && tid !in run[m].given && tid in run[m + 1].given
      && (forall k: nat :: k < |run[n].pool| && TaskId(run[n].pool[k]) == tid ==>
            Allowed(run[n], DoExecute(k)) && Callback(run[n], k) == job)
      && (interval == 0 ==> forall t :: t in run[n].handed && TaskId(t.task) == tid ==> t.id.at == tp)
      && (interval != 0 ==> Arithmetic(Firings(run[n].handed, tid), tp, interval))
  {
    hide Inv, Firings, Arithmetic;
    var tid := RunAt(run[m], tp, job, interval).1;
    RunNamed(run, m);
    SetsTimer(run[m], tp, job, interval);
    RunFrom(run, m + 1, n, tid, tp, job, interval);
    RunNamed(run, n);
    forall k: nat | k < |run[n].pool| && TaskId(run[n].pool[k]) == tid
      ensures Allowed(run[n], DoExecute(k)) && Callback(run[n], k) == job
    {
      NothingDangles(run, n, k);
      assert run[n].pool[k] in run[n].pool;
    }
    if interval != 0 {
      FiringsAreRegular(run, n, tid);
    }
  }

  // ----- nothing is lost

  ghost predicate Cancels(s: State, s': State, tid: Id) {
    Allowed(s, DoCancel(tid)) && s' == Step(s, DoCancel(tid))
  }

  lemma {:induction false} TimeoutKeepsTimer(s: State, now: int, t: Timer)
    requires t in s.timers || t in s.handed
    ensures var s' := HandleTimeout(s, now); t in s'.timers || t in s'.handed
    decreases |s.timers|
  {
    if s.timers != [] && Less(s.timers[0].id, Id(now, MAX_TIMEOUTS)) {
      assert s.timers == [s.timers[0]] + s.timers[1..];
      TimeoutKeepsTimer(Hand(s), now, t);
    }
  }

  lemma CancelledOnly(s: State, c: Id, t: Timer)
    requires Inv(s) && Named(s) && Allowed(s, DoCancel(c)) && t in s.timers && TaskId(t.task) != c
    ensures t in Cancel(s, c).0.timers
  {
    hide RepOk, Sorted;
    assert RepOk(s, c);
    CancelErases(s, c);
    if c.at < 0 {
      RepeatingPends(s, c);
    }
  }

  lemma StepKeepsTimer(s: State, a: Action, t: Timer)
    requires Inv(s) && Named(s) && Allowed(s, a) && (t in s.timers || t in s.handed)
    ensures var s' := Step(s, a); t in s'.timers || t in s'.handed || a == DoCancel(TaskId(t.task))
  {
    hide RepOk, Sorted, IdsOk, Named, Insert;
    match a
    case DoRunAt(tp, job, interval) =>
      RunAtIds(s, tp, job, interval);
    case DoCancel(c) =>
      if t in s.timers && TaskId(t.task) != c {
        CancelledOnly(s, c, t);
      }
    case DoTimeout(now) => TimeoutKeepsTimer(s, now, t);
    case DoExecute(k) => ExecuteIds(s, k);
    case DoExit =>
  }

  /** A timer that is set stays in the queue until it is handed over, unless somebody cancels it by its id. */
  lemma {:induction false} NothingIsLost(run: seq<State>, m: nat, n: nat, t: Timer)
    requires IsRun(run) && run[0] == Initial() && m <= n < |run| && t in run[m].timers
    requires forall i :: m <= i < n ==> !Cancels(run[i], run[i + 1], TaskId(t.task))
    ensures t in run[n].timers || t in run[n].handed
    decreases n
  {
    hide Inv, Named, Allowed, Step;
    if m < n {
      NothingIsLost(run, m, n - 1, t);
      RunNamed(run, n - 1);
      assert StepTo(run[n - 1], run[n - 1 + 1]);
      var a :| Allowed(run[n - 1], a) && run[n] == Step(run[n - 1], a);
      StepKeepsTimer(run[n - 1], a, t);
      assert !Cancels(run[n - 1], run[n - 1 + 1], TaskId(t.task));
    }
  }

  /** So the first timeout past its time hands it over: from the call that sets a timer to the timeout, with
    * no cancel of its id in between. */
  lemma FiresWhenDue(run: seq<State>, m: nat, n: nat, tp: int, job: int, interval: int, now: int)
    requires IsRun(run) && run[0] == Initial() && m < n < |run| - 1 && run[m].working
    requires run[m + 1] == Step(run[m], DoRunAt(tp, job, interval)) && run[n + 1] == Step(run[n], DoTimeout(now))
    requires tp < now || (tp == now && run[m].no + 2 < MAX_TIMEOUTS)
    requires var tid := RunAt(run[m], tp, job, interval).1; forall i :: m < i < n ==> !Cancels(run[i], run[i + 1], tid)
    ensures var tid := RunAt(run[m], tp, job, interval).1;
      exists t :: t in run[n + 1].handed && TaskId(t.task) == tid && t.id.at == tp
  {
    hide Inv, Named;
    RunNamed(run, m);
    var (s1, tid) := RunAt(run[m], tp, job, interval);
    var t := RunAtAdds(run[m], tp, job, interval);
    assert s1 == run[m + 1];
    NothingIsLost(run, m + 1, n, t);
    RunNamed(run, n);
    assert run[n + 1] == HandleTimeout(run[n], now);
    DueIsHanded(run[n], now, t);
  }

  lemma DueIsHanded(s: State, now: int, t: Timer)
    requires Inv(s) && (t in s.timers || t in s.handed) && Less(t.id, Id(now, MAX_TIMEOUTS))
    ensures t in HandleTimeout(s, now).handed
  {
    hide RepOk;
    HandleTimeoutIs(s, now);
    DueCountIs(s.timers, now);
    if t !in s.handed {
      var i :| 0 <= i < |s.timers| && s.timers[i] == t;
      var n := DueCount(s.timers, now);
      assert s.timers[..n][i] == t;
    }
  }

  // ----- cancelling

  /** A cancel finds its timer exactly when it is in the queue, and a repeating one only by a negative time;
    * then it takes out that timer, and nothing else. */
  lemma CancelFindsIff(s: State, c: Id)
    requires Inv(s) && Named(s) && Allowed(s, DoCancel(c))
    ensures var (s', found) := Cancel(s, c);
      && (found <==> exists t :: t in s.timers && TaskId(t.task) == c && (t.task.Again? ==> c.at < 0))
      && (!found ==> s' == s)
      && (found ==>
          && (forall t :: t in s'.timers <==> t in s.timers && TaskId(t.task) != c)
          && c !in s'.repeats && (forall rep :: rep != c ==> (rep in s'.repeats <==> rep in s.repeats))
          && (forall rep :: rep in s'.repeats ==> s'.repeats[rep] == s.repeats[rep])
          && s'.pool == s.pool && s'.handed == s.handed && s'.no == s.no && s'.working == s.working)
  {
    hide RepOk, Sorted;
    assert RepOk(s, c);
    CancelErases(s, c);
    if c.at < 0 {
      RepeatingPends(s, c);
    } else {
      OneShotPends(s, c);
    }
  }

  lemma RepeatingPends(s: State, c: Id)
    requires Inv(s) && Named(s) && c in s.repeats && Quiet(s, c)
    ensures Timer(s.repeats[c].timer, Again(c)) in s.timers
    ensures forall t :: t in s.timers ==> (t.id == s.repeats[c].timer <==> TaskId(t.task) == c)
  {
    hide Sorted, Firings, Arithmetic;
    assert RepOk(s, c);
    assert multiset(s.pool)[Again(c)] > 0 ==> Again(c) in s.pool;
    var u := Timer(s.repeats[c].timer, Again(c));
    forall t | t in s.timers
      ensures t.id == s.repeats[c].timer <==> TaskId(t.task) == c
    {
      if t.id == u.id {
        SameId(s.timers, t, u);
      }
    }
  }

  lemma OneShotPends(s: State, c: Id)
    requires Inv(s) && Named(s) && c in s.given && c.at >= 0
    ensures Pending(s.timers, c) <==> exists t :: t in s.timers && TaskId(t.task) == c && t.task.Once?
    ensures Pending(s.timers, c) ==> c !in s.repeats && forall t :: t in s.timers ==> (t.id == c <==> TaskId(t.task) == c)
  {
    hide RepOk, Sorted;
    if t :| t in s.timers && TaskId(t.task) == c && t.task.Once? {
      assert t.id == c;
    }
  }
}
