/**
  * Whole runs of the timer queue of network/dispatcher.cc: any calls in any order, with the
  * pool running what it was handed in any order. Each repeating timer has one firing
  * outstanding, fires at regular deadlines, and is silent once cancelled.
  */
module TimerRuns {
  import opened Timers

  datatype Action =
    | DoRunAt(tp: int, job: int, interval: int)
    | DoCancel(tid: Id)
    | DoTimeout(now: int)
    | DoExecute(k: nat)
    | DoExit

  /** Nothing of the repeating timer waits in the pool. */
  predicate Quiet(s: State, rep: Id) {
    Again(rep) !in s.pool
  }

  /** What a caller owes: to cancel only by ids that run_at returned, and a repeating timer
    * once, and not between its being handed to the pool and its being run. */
  predicate Allowed(s: State, a: Action) {
    match a
    case DoCancel(tid) =>
      tid in s.given && (tid.at < 0 ==> tid in s.repeats && Quiet(s, tid))
    case DoExecute(k) =>
      k < |s.pool| && (s.pool[k].Again? ==> s.pool[k].rep in s.repeats)
    case _ => true
  }

  function Step(s: State, a: Action): (s': State)
    requires Allowed(s, a)
  {
    match a
    case DoRunAt(tp, job, interval) => RunAt(s, tp, job, interval).0
    case DoCancel(tid) => Cancel(s, tid).0
    case DoTimeout(now) => HandleTimeout(s, now)
    case DoExecute(k) =>
      if s.pool[k].Once? then Take(s, k) else Repeat(Take(s, k), s.pool[k].rep)
    case DoExit => s.(working := false)
  }

  ghost predicate StepTo(s: State, s': State) {
    exists a :: Allowed(s, a) && s' == Step(s, a)
  }

  ghost predicate IsRun(run: seq<State>) {
    run != [] && forall i :: 0 <= i < |run| - 1 ==> StepTo(run[i], run[i + 1])
  }

  function Initial(): (s: State) {
    State([], map[], 0, true, [], {}, [], map[])
  }

  /** The deadlines at which a repeating timer was handed over, in the order it was. */
  function Firings(handed: seq<Timer>, rep: Id): (r: seq<int>) {
    if handed == [] then []
    else
      var last := handed[|handed| - 1];
      Firings(handed[..|handed| - 1], rep) + (if last.task == Again(rep) then [last.id.at] else [])
  }

  lemma FiringsGrow(handed: seq<Timer>, t: Timer, rep: Id)
    ensures Firings(handed + [t], rep) ==
            Firings(handed, rep) + (if t.task == Again(rep) then [t.id.at] else [])
  {
    assert (handed + [t])[..|handed|] == handed;
  }

  ghost predicate Arithmetic(r: seq<int>, start: int, step: int) {
    forall k :: 0 <= k < |r| ==> r[k] == start + k * step
  }

  /** The deadline of the firing after those handed over. */
  function NextFiring(s: State, rep: Id, interval: int): int {
    -rep.at + |Firings(s.handed, rep)| * interval
  }

  /** A live repeating timer is either in the queue, at its next deadline, or once in the
    * pool, with its deadline still to be moved on. */
  ghost predicate LiveOk(s: State, rep: Id)
    requires rep in s.repeats
  {
    var r := s.repeats[rep];
    && rep in s.born && s.born[rep] == r.interval && r.timer.at == r.at
    && (if Timer(r.timer, Again(rep)) in s.timers
        then multiset(s.pool)[Again(rep)] == 0 && r.at == NextFiring(s, rep, r.interval)
        else multiset(s.pool)[Again(rep)] == 1
             && r.at + r.interval == NextFiring(s, rep, r.interval))
  }

  ghost predicate RepOk(s: State, rep: Id) {
    && (if rep in s.repeats then LiveOk(s, rep) else multiset(s.pool)[Again(rep)] == 0)
    && (if rep in s.born then Arithmetic(Firings(s.handed, rep), -rep.at, s.born[rep])
        else Firings(s.handed, rep) == [])
  }

  /** Each sequence number names one thing, and the queue holds no more than it should. */
  ghost predicate IdsOk(s: State) {
    && Sorted(s.timers)
    && (forall t :: t in s.timers ==> 0 < t.id.no <= s.no && t.id !in s.born)
    && (forall id :: id in s.given ==> id.no <= s.no)
    && (forall t :: t in s.handed ==> t.id.no <= s.no && !Pending(s.timers, t.id))
    && (forall i, j :: 0 <= i < j < |s.handed| ==> s.handed[i].id != s.handed[j].id)
    && (forall rep :: rep in s.born ==> rep.no <= s.no)
    && (forall t :: t in s.timers && t.task.Again? ==>
          t.task.rep in s.repeats && t.id == s.repeats[t.task.rep].timer && t.id !in s.given)
    && (forall rep :: rep in s.repeats ==> s.repeats[rep].timer.no <= s.no && rep in s.born)
  }

  ghost predicate Inv(s: State) {
    IdsOk(s) && forall rep :: RepOk(s, rep)
  }

  lemma NotPending(q: seq<Timer>, id: Id)
    requires forall t :: t in q ==> t.id != id
    ensures !Pending(q, id)
  {
  }

  lemma SameId(q: seq<Timer>, t: Timer, u: Timer)
    requires Sorted(q) && t in q && u in q && t.id == u.id
    ensures t == u
  {
    var i :| 0 <= i < |q| && q[i] == t;
    var j :| 0 <= j < |q| && q[j] == u;
    assert i == j;
  }

  /** A queue that gains one timer with a new number. */
  ghost predicate Gains(s: State, s': State, t: Timer) {
    && Sorted(s'.timers) && (forall u :: u in s'.timers <==> u in s.timers || u == t)
    && s'.handed == s.handed && s.no < t.id.no <= s'.no
  }

  lemma GainsHanded(s: State, s': State, t: Timer)
    requires IdsOk(s) && Gains(s, s', t)
    ensures forall u :: u in s'.handed ==> u.id.no <= s'.no && !Pending(s'.timers, u.id)
  {
    forall u | u in s'.handed ensures u.id.no <= s'.no && !Pending(s'.timers, u.id) {
      assert !Pending(s.timers, u.id);
      forall v | v in s'.timers ensures v.id != u.id {
        if v in s.timers {
          var i :| 0 <= i < |s.timers| && s.timers[i] == v;
        }
      }
      NotPending(s'.timers, u.id);
    }
  }

  /** A repeating timer that a step does not touch. */
  lemma RepSame(s: State, s': State, rep: Id)
    requires RepOk(s, rep) && Firings(s'.handed, rep) == Firings(s.handed, rep)
    requires rep in s.repeats <==> rep in s'.repeats
    requires rep in s.repeats ==> s.repeats[rep] == s'.repeats[rep]
    requires rep in s.repeats ==>
               var t := Timer(s.repeats[rep].timer, Again(rep)); t in s.timers <==> t in s'.timers
    requires rep in s.born <==> rep in s'.born
    requires rep in s.born ==> s.born[rep] == s'.born[rep]
    requires multiset(s.pool)[Again(rep)] == multiset(s'.pool)[Again(rep)]
    ensures RepOk(s', rep)
  {
    hide Firings, Arithmetic;
  }

  /** The timer that `run_at` adds. */
  function Added(s: State, tp: int, job: int, interval: int): Timer {
    if interval != 0 then Timer(Id(tp, s.no + 2), Again(Id(-tp, s.no + 1)))
    else Timer(Id(tp, s.no + 1), Once(Id(tp, s.no + 1), job))
  }

  lemma RunAtKeeps(s: State, tp: int, job: int, interval: int)
    requires Inv(s)
    ensures Inv(RunAt(s, tp, job, interval).0)
  {
    hide IdsOk, RepOk;
    RunAtIds(s, tp, job, interval);
    forall rep ensures RepOk(RunAt(s, tp, job, interval).0, rep) {
      assert RepOk(s, rep);
      RunAtRep(s, tp, job, interval, rep);
    }
  }

  lemma RunAtIds(s: State, tp: int, job: int, interval: int)
    requires IdsOk(s)
    ensures IdsOk(RunAt(s, tp, job, interval).0)
    ensures s.working ==> Gains(s, RunAt(s, tp, job, interval).0, Added(s, tp, job, interval))
  {
    if s.working {
      RunAtGains(s, tp, job, interval);
      GainsIds(s, RunAt(s, tp, job, interval).0, Added(s, tp, job, interval));
    }
  }

  lemma RunAtGains(s: State, tp: int, job: int, interval: int)
    requires IdsOk(s) && s.working
    ensures Gains(s, RunAt(s, tp, job, interval).0, Added(s, tp, job, interval))
  {
    hide Sorted;
    var t := Added(s, tp, job, interval);
    NotPending(s.timers, t.id);
    InsertOk(s.timers, t);
  }

  /** A queue that gains a timer with a new number, and a record for it if it repeats. */
  lemma GainsIds(s: State, s': State, t: Timer)
    requires IdsOk(s) && Gains(s, s', t) && t.id !in s'.born
    requires forall id :: id in s'.given ==> id in s.given || ((id != t.id || t.task.Once?) && s.no < id.no <= s'.no)
    requires forall rep :: rep in s'.born ==> rep in s.born || s.no < rep.no <= s'.no
    requires forall rep :: rep in s.repeats ==> rep in s'.repeats && s'.repeats[rep] == s.repeats[rep]
    requires forall rep :: rep in s'.repeats ==> rep in s'.born && (rep in s.repeats || s'.repeats[rep].timer == t.id)
    requires t.task.Again? ==> t.task.rep in s'.repeats && t.id == s'.repeats[t.task.rep].timer
    requires s.born.Keys <= s'.born.Keys
    ensures IdsOk(s')
  {
    hide Sorted, Pending;
    GainsHanded(s, s', t);
  }

  lemma RunAtRep(s: State, tp: int, job: int, interval: int, rep: Id)
    requires IdsOk(s) && RepOk(s, rep)
    ensures RepOk(RunAt(s, tp, job, interval).0, rep)
  {
    hide Sorted, Firings;
    var s' := RunAt(s, tp, job, interval).0;
    RunAtIds(s, tp, job, interval);
    if s.working && interval != 0 && rep == Id(-tp, s.no + 1) {
      assert Timer(s'.repeats[rep].timer, Again(rep)) == Added(s, tp, job, interval);
    } else {
      RepSame(s, s', rep);
    }
  }

  lemma HandKeeps(s: State)
    requires Inv(s) && s.timers != []
    ensures Inv(Hand(s))
  {
    HandIds(s);
    forall rep ensures RepOk(Hand(s), rep) {
      HandRep(s, rep);
    }
  }

  lemma HandRep(s: State, rep: Id)
    requires IdsOk(s) && RepOk(s, rep) && s.timers != []
    ensures RepOk(Hand(s), rep)
  {
    hide Firings, Sorted, Pending, Arithmetic;
    var s', t := Hand(s), s.timers[0];
    FirstOff(s.timers);
    FiringsGrow(s.handed, t, rep);
    PoolGains(s.pool, t.task, rep);
    if t.task == Again(rep) {
      HandOwn(s, rep);
    } else {
      RepSame(s, s', rep);
    }
  }

  /** The timer's own firing is handed over. */
  lemma HandOwn(s: State, rep: Id)
    requires IdsOk(s) && RepOk(s, rep) && s.timers != [] && s.timers[0].task == Again(rep)
    ensures RepOk(Hand(s), rep)
  {
    hide Firings, Sorted, Pending;
    var s', t := Hand(s), s.timers[0];
    assert t in s.timers;
    FirstOff(s.timers);
    hide IdsOk;
    FiringsGrow(s.handed, t, rep);
    PoolGains(s.pool, t.task, rep);
    assert t == Timer(s.repeats[rep].timer, Again(rep));
    NextStep(|Firings(s.handed, rep)|, s.born[rep]);
  }

  lemma PoolGains(pool: seq<Task>, t: Task, rep: Id)
    ensures multiset(pool + [t])[Again(rep)] ==
            multiset(pool)[Again(rep)] + (if t == Again(rep) then 1 else 0)
  {
  }

  lemma NextStep(n: nat, d: int)
    ensures (n + 1) * d == n * d + d
  {
  }

  lemma HandIds(s: State)
    requires IdsOk(s) && s.timers != []
    ensures IdsOk(Hand(s))
  {
    hide Sorted;
    var s', t := Hand(s), s.timers[0];
    FirstOff(s.timers);
    assert Pending(s.timers, t.id);
    forall u | u in s'.handed ensures u.id.no <= s'.no && !Pending(s'.timers, u.id) {
      if u in s.handed {
        assert !Pending(s.timers, u.id);
        assert forall i :: 0 <= i < |s'.timers| ==> s'.timers[i] == s.timers[i + 1];
      }
    }
    forall i, j | 0 <= i < j < |s'.handed| ensures s'.handed[i].id != s'.handed[j].id {
      if j == |s.handed| {
        assert s.handed[i] in s.handed;
      }
    }
  }

  lemma {:induction false} TimeoutKeeps(s: State, now: int)
    requires Inv(s)
    ensures Inv(HandleTimeout(s, now))
    decreases |s.timers|
  {
    hide Inv;
    if s.timers != [] && Less(s.timers[0].id, Id(now, MAX_TIMEOUTS)) {
      HandKeeps(s);
      TimeoutKeeps(Hand(s), now);
    }
  }

  /** The entry of the queue that `cancel` takes out. */
  function Target(s: State, tid: Id): Id
    requires tid.at < 0 ==> tid in s.repeats
  {
    if tid.at < 0 then s.repeats[tid].timer else tid
  }

  lemma CancelErases(s: State, tid: Id)
    requires IdsOk(s) && RepOk(s, tid) && Allowed(s, DoCancel(tid))
    ensures Sorted(Cancel(s, tid).0.timers)
    ensures forall t :: t in Cancel(s, tid).0.timers <==> t in s.timers && t.id != Target(s, tid)
    ensures forall t :: t in s.timers && t.id == Target(s, tid) && t.task.Again? ==>
                          tid.at < 0 && t.task.rep == tid
  {
    hide Sorted, Firings, Arithmetic;
    EraseOk(s.timers, Target(s, tid));
    assert multiset(s.pool)[Again(tid)] > 0 ==> Again(tid) in s.pool;
    if tid.at < 0 {
      forall t | t in s.timers && t.id == Target(s, tid) ensures t == Timer(t.id, Again(tid)) {
        SameId(s.timers, t, Timer(t.id, Again(tid)));
      }
    }
  }

  lemma CancelIds(s: State, tid: Id)
    requires IdsOk(s) && RepOk(s, tid) && Allowed(s, DoCancel(tid))
    ensures IdsOk(Cancel(s, tid).0)
  {
    hide Sorted, RepOk;
    var s' := Cancel(s, tid).0;
    CancelErases(s, tid);
    forall t | t in s'.handed ensures !Pending(s'.timers, t.id) {
      assert !Pending(s.timers, t.id);
      forall v | v in s'.timers ensures v.id != t.id {
        var i :| 0 <= i < |s.timers| && s.timers[i] == v;
      }
      NotPending(s'.timers, t.id);
    }
  }

  lemma CancelKeeps(s: State, tid: Id)
    requires Inv(s) && Allowed(s, DoCancel(tid))
    ensures Inv(Cancel(s, tid).0)
  {
    hide IdsOk, Sorted, Firings, Arithmetic;
    var s' := Cancel(s, tid).0;
    assert RepOk(s, tid);
    CancelIds(s, tid);
    CancelErases(s, tid);
    forall rep ensures RepOk(s', rep) {
      assert RepOk(s, rep);
      if !(tid.at < 0 && rep == tid) {
        RepSame(s, s', rep);
      } else {
        assert multiset(s.pool)[Again(tid)] > 0 ==> Again(tid) in s.pool;
      }
    }
  }

  /** The firing that `repeat` puts in the queue. */
  function NextTimer(s: State, rep: Id): Timer
    requires rep in s.repeats
  {
    Timer(Id(s.repeats[rep].at + s.repeats[rep].interval, s.no + 1), Again(rep))
  }

  lemma RepeatIds(s: State, rep: Id)
    requires IdsOk(s) && rep in s.repeats
    requires forall t :: t in s.timers ==> t.task != Again(rep)
    ensures IdsOk(Repeat(s, rep)) && Gains(s, Repeat(s, rep), NextTimer(s, rep))
  {
    hide Sorted;
    var t := NextTimer(s, rep);
    NotPending(s.timers, t.id);
    InsertOk(s.timers, t);
    GainsHanded(s, Repeat(s, rep), t);
  }

  lemma ExecuteIds(s: State, k: nat)
    requires Inv(s) && Allowed(s, DoExecute(k))
    ensures IdsOk(Step(s, DoExecute(k)))
    ensures var task, s1 := s.pool[k], Take(s, k);
            task.Again? ==> Gains(s1, Step(s, DoExecute(k)), NextTimer(s1, task.rep))
  {
    hide Sorted, Arithmetic, Firings;
    var task, s1 := s.pool[k], Take(s, k);
    if task.Again? {
      assert RepOk(s, task.rep);
      PoolLoses(s.pool, k);
      InFlightNotWaiting(s, task.rep);
      RepeatIds(s1, task.rep);
    }
  }

  lemma ExecuteRep(s: State, k: nat, rep: Id)
    requires Inv(s) && Allowed(s, DoExecute(k))
    ensures RepOk(Step(s, DoExecute(k)), rep)
  {
    hide Sorted, Arithmetic, Firings;
    var s' := Step(s, DoExecute(k));
    assert RepOk(s, rep);
    ExecuteIds(s, k);
    hide IdsOk;
    PoolLoses(s.pool, k);
    if s.pool[k] == Again(rep) {
      ExecuteOwn(s, s', k, rep);
    } else {
      RepSame(s, s', rep);
    }
  }

  /** The timer's own firing is run, and its next one is queued. */
  lemma ExecuteOwn(s: State, s': State, k: nat, rep: Id)
    requires k < |s.pool| && s.pool[k] == Again(rep) && rep in s.repeats && RepOk(s, rep)
    requires s' == Repeat(Take(s, k), rep) && NextTimer(Take(s, k), rep) in s'.timers
    requires multiset(s.pool) == multiset(s'.pool) + multiset{Again(rep)}
    ensures RepOk(s', rep)
  {
    hide Firings, Arithmetic, Insert;
  }

  lemma ExecuteKeeps(s: State, k: nat)
    requires Inv(s) && Allowed(s, DoExecute(k))
    ensures Inv(Step(s, DoExecute(k)))
  {
    hide IdsOk, RepOk, Step;
    ExecuteIds(s, k);
    forall rep ensures RepOk(Step(s, DoExecute(k)), rep) {
      ExecuteRep(s, k, rep);
    }
  }

  lemma InFlightNotWaiting(s: State, rep: Id)
    requires IdsOk(s) && RepOk(s, rep) && rep in s.repeats && multiset(s.pool)[Again(rep)] > 0
    ensures forall t :: t in s.timers ==> t.task != Again(rep)
  {
    hide Sorted, Arithmetic, Firings;
    assert Timer(s.repeats[rep].timer, Again(rep)) !in s.timers;
    assert forall t :: t in s.timers && t.task == Again(rep) ==>
                         t == Timer(s.repeats[rep].timer, Again(rep));
  }

  lemma PoolLoses(pool: seq<Task>, k: nat)
    requires k < |pool|
    ensures multiset(pool) == multiset(pool[..k] + pool[k + 1..]) + multiset{pool[k]}
  {
    assert pool == pool[..k] + [pool[k]] + pool[k + 1..];
  }

  /** What holds at the start of every run holds at each of its states. */
  lemma StepKeeps(s: State, a: Action)
    requires Inv(s) && Allowed(s, a)
    ensures Inv(Step(s, a))
  {
    match a
    case DoRunAt(tp, job, interval) => RunAtKeeps(s, tp, job, interval);
    case DoCancel(tid) => CancelKeeps(s, tid);
    case DoTimeout(now) => TimeoutKeeps(s, now);
    case DoExecute(k) => ExecuteKeeps(s, k);
    case DoExit =>
      forall rep ensures RepOk(Step(s, a), rep) {
        assert RepOk(s, rep);
      }
  }

  lemma {:induction false} RunKeeps(run: seq<State>, n: nat)
    requires IsRun(run) && run[0] == Initial() && n < |run|
    ensures Inv(run[n])
  {
    if n > 0 {
      RunKeeps(run, n - 1);
      assert StepTo(run[n - 1], run[n - 1 + 1]);
      var a :| Allowed(run[n - 1], a) && run[n] == Step(run[n - 1], a);
      StepKeeps(run[n - 1], a);
    }
  }

  // --- What every run shows -----------------------------------------------------------------

  function Waiting(q: seq<Timer>, rep: Id): (n: nat) {
    if q == [] then 0 else (if q[0].task == Again(rep) then 1 else 0) + Waiting(q[1..], rep)
  }

  lemma {:induction false} WaitingIs(q: seq<Timer>, rep: Id, id: Id)
    requires Sorted(q) && forall t :: t in q && t.task == Again(rep) ==> t.id == id
    ensures Waiting(q, rep) == if Timer(id, Again(rep)) in q then 1 else 0
  {
    if q != [] {
      FirstOff(q);
      WaitingIs(q[1..], rep, id);
    }
  }

  /** Handed to the pool or waiting to be: exactly once for each repeating timer that is
    * not cancelled, not at all for one that is. */
  lemma OneFiringOutstanding(run: seq<State>, n: nat, rep: Id)
    requires IsRun(run) && run[0] == Initial() && n < |run|
    ensures Waiting(run[n].timers, rep) + multiset(run[n].pool)[Again(rep)] ==
            if rep in run[n].repeats then 1 else 0
  {
    RunKeeps(run, n);
    var s := run[n];
    assert RepOk(s, rep);
    if rep in s.repeats {
      WaitingIs(s.timers, rep, s.repeats[rep].timer);
    } else {
      WaitingIs(s.timers, rep, rep);
    }
  }

  /** The k-th time a repeating timer is handed over, it is for start + k * interval. */
  lemma FiringsAreRegular(run: seq<State>, n: nat, rep: Id)
    requires IsRun(run) && run[0] == Initial() && n < |run| && rep in run[n].born
    ensures Arithmetic(Firings(run[n].handed, rep), -rep.at, run[n].born[rep])
  {
    RunKeeps(run, n);
    assert RepOk(run[n], rep);
  }

  /** The pool never runs a repeating timer that is gone. */
  lemma NothingDangles(run: seq<State>, n: nat, k: nat)
    requires IsRun(run) && run[0] == Initial() && n < |run| && k < |run[n].pool|
    ensures Allowed(run[n], DoExecute(k))
  {
    RunKeeps(run, n);
    var s := run[n];
    if s.pool[k].Again? {
      assert RepOk(s, s.pool[k].rep);
      assert s.pool[k] in multiset(s.pool);
    }
  }

  /** Cancelling it while it is in the pool is what would: after a cancel, something in
    * the pool runs on a timer that is gone exactly when it was in flight. */
  lemma CancelSafeIff(s: State, tid: Id)
    requires Inv(s) && tid.at < 0 && tid in s.repeats
    ensures (exists k: nat :: k < |s.pool| && !Allowed(Cancel(s, tid).0, DoExecute(k))) <==>
            !Quiet(s, tid)
  {
    var s' := Cancel(s, tid).0;
    if !Quiet(s, tid) {
      var k: nat :| k < |s.pool| && s.pool[k] == Again(tid);
      assert !Allowed(s', DoExecute(k));
    }
    forall k: nat | k < |s.pool| && !Allowed(s', DoExecute(k)) ensures s.pool[k] == Again(tid) {
      assert RepOk(s, s.pool[k].rep);
      assert s.pool[k] in multiset(s.pool);
    }
  }

  /** From `s` to `s'`: what was handed over stays so; an id whose number is spent and that
    * is not in the queue is not handed over; and a repeating timer that is gone does not
    * come back or fire. */
  ghost predicate LeavesGone(s: State, s': State, id: Id) {
    && s.no <= s'.no && s.handed <= s'.handed
    && (id.no <= s.no && !Pending(s.timers, id) ==>
          !Pending(s'.timers, id)
          && forall i :: |s.handed| <= i < |s'.handed| ==> s'.handed[i].id != id)
    && (id.no <= s.no && id !in s.repeats ==>
          id !in s'.repeats && Firings(s'.handed, id) == Firings(s.handed, id))
  }

  lemma {:induction false} TimeoutLeavesGone(s: State, now: int, id: Id)
    requires Inv(s)
    ensures LeavesGone(s, HandleTimeout(s, now), id)
    ensures HandleTimeout(s, now).repeats == s.repeats
    decreases |s.timers|
  {
    hide Firings, RepOk, Sorted;
    if s.timers != [] && Less(s.timers[0].id, Id(now, MAX_TIMEOUTS)) {
      var s1, t := Hand(s), s.timers[0];
      HandKeeps(s);
      FiringsGrow(s.handed, t, id);
      assert forall i :: 0 <= i < |s1.timers| ==> s1.timers[i] == s.timers[i + 1];
      assert Pending(s.timers, t.id);
      assert t in s.timers;
      assert LeavesGone(s, s1, id);
      TimeoutLeavesGone(s1, now, id);
      GoneChains(s, s1, HandleTimeout(s1, now), id);
    }
  }

  lemma GoneChains(s: State, s1: State, s': State, id: Id)
    requires LeavesGone(s, s1, id) && LeavesGone(s1, s', id)
    ensures LeavesGone(s, s', id)
  {
    hide Firings, Pending;
    assert forall i :: 0 <= i < |s1.handed| ==> s'.handed[i] == s1.handed[i];
  }

  lemma StepLeavesGone(s: State, a: Action, id: Id)
    requires Inv(s) && Allowed(s, a)
    ensures LeavesGone(s, Step(s, a), id)
  {
    hide Firings, RepOk, Sorted, Pending, IdsOk;
    match a
    case DoRunAt(tp, job, interval) =>
      RunAtIds(s, tp, job, interval);
      if s.working {
        StillNotPending(s, Step(s, a), Added(s, tp, job, interval), id);
      }
    case DoCancel(tid) =>
      assert RepOk(s, tid);
      CancelErases(s, tid);
      ErasedNotPending(s.timers, Step(s, a).timers, id);
    case DoTimeout(now) => TimeoutLeavesGone(s, now, id);
    case DoExecute(k) =>
      ExecuteIds(s, k);
      if s.pool[k].Again? {
        StillNotPending(Take(s, k), Step(s, a), NextTimer(Take(s, k), s.pool[k].rep), id);
      }
    case DoExit =>
  }

  lemma StillNotPending(s: State, s': State, t: Timer, id: Id)
    requires Gains(s, s', t)
    ensures id.no <= s.no && !Pending(s.timers, id) ==> !Pending(s'.timers, id)
  {
    if j :| 0 <= j < |s'.timers| && s'.timers[j].id == id {
      var u := s'.timers[j];
      assert u in s'.timers;
      if u != t {
        var i :| 0 <= i < |s.timers| && s.timers[i] == u;
      }
    }
  }

  lemma ErasedNotPending(q: seq<Timer>, r: seq<Timer>, id: Id)
    requires forall t :: t in r ==> t in q
    ensures !Pending(q, id) ==> !Pending(r, id)
  {
    if j :| 0 <= j < |r| && r[j].id == id {
      assert r[j] in r;
      var i :| 0 <= i < |q| && q[i] == r[j];
    }
  }

  /** Once a timer has been handed over or cancelled it is not handed over again, and a
    * cancelled repeating timer never fires. */
  lemma {:induction false} GoneForGood(run: seq<State>, m: nat, n: nat, id: Id)
    requires IsRun(run) && run[0] == Initial() && m <= n < |run|
    ensures LeavesGone(run[m], run[n], id)
    decreases n
  {
    hide Inv;
    if m < n {
      GoneForGood(run, m, n - 1, id);
      RunKeeps(run, n - 1);
      assert StepTo(run[n - 1], run[n - 1 + 1]);
      var a :| Allowed(run[n - 1], a) && run[n] == Step(run[n - 1], a);
      StepLeavesGone(run[n - 1], a, id);
      GoneChains(run[m], run[n - 1], run[n], id);
    }
  }

  /** A repeating timer can be cancelled by the id `run_at` returned for it exactly when its
    * first deadline was positive; otherwise the call finds nothing and changes nothing. */
  lemma CancelReachesIff(s: State, tid: Id)
    requires Inv(s) && tid in s.repeats
    ensures tid !in Cancel(s, tid).0.repeats <==> tid.at < 0
    ensures tid.at >= 0 ==> Cancel(s, tid) == (s, false)
  {
    assert tid in s.born;
    NotPending(s.timers, tid);
  }

  /** A repeating timer is set, falls due and is handed to the pool: cancelling it then is not safe. */
  lemma InFlightReached(tp: int, job: int, interval: int) returns (run: seq<State>, tid: Id)
    requires interval != 0 && tp > 0
    ensures IsRun(run) && run[0] == Initial()
    ensures var s := run[|run| - 1]; tid.at < 0 && tid in s.repeats && !Quiet(s, tid)
  {
    var s0 := Initial();
    var a, b := DoRunAt(tp, job, interval), DoTimeout(tp);
    var s1 := Step(s0, a);
    tid := Id(-tp, 1);
    var t := Timer(Id(tp, 2), Again(tid));
    assert s1.timers == [t] && tid in s1.repeats;
    var s2 := Step(s1, b);
    assert Hand(s1).timers == [] && Hand(s1).pool == [Again(tid)];
    assert Less(t.id, Id(tp, MAX_TIMEOUTS)) && HandleTimeout(Hand(s1), tp) == Hand(s1);
    assert s2 == HandleTimeout(s1, tp) == Hand(s1);
    run := [s0, s1, s2];
    assert StepTo(s0, s1) && StepTo(s1, s2);
    assert Again(tid) in s2.pool;
  }
}
