/** The lock of one data item (transaction/lock_manager.cc): a queue of requests in order of arrival,
    the current mode, the number of shared holders, and a condition variable.  What runs under the
    entry's mutex is one step; the notification that `unlock` sends after it has released the mutex is
    a step of its own, so anything may happen in between.  A sleeper may also wake for no reason.
 */
module LockEntry {

  datatype Mode = NoLock | Shared | Exclusive

  datatype Request = Request(txn: nat, mode: Mode, granted: bool)

  /** `asleep` are the transactions waiting on the condition variable; `pending` counts the unlocks
      that have released the mutex and not yet notified. */
  datatype Entry = Entry(queue: seq<Request>, mode: Mode, sharedCount: int, asleep: set<nat>, pending: nat)

  const IDLE := Entry([], NoLock, 0, {}, 0)

  datatype Step =
    | Push(txn: nat, mode: Mode)
    | Evaluate(txn: nat)
    | Unlock(txn: nat)
    | Notify
    | Spurious(txn: nat)

  /** Whether a shared grant records the mode: not as coded, but `unlock` relies on it. */
  datatype Version = AsCoded | Repaired

  function Position(queue: seq<Request>, txn: nat): (i: nat)
    ensures i <= |queue|
    ensures i < |queue| ==> queue[i].txn == txn
    ensures forall j :: 0 <= j < i ==> queue[j].txn != txn
  {
    if queue == [] || queue[0].txn == txn then 0 else 1 + Position(queue[1..], txn)
  }

  predicate Queued(e: Entry, txn: nat) {
    Position(e.queue, txn) < |e.queue|
  }

  predicate Waiting(e: Entry, txn: nat) {
    Queued(e, txn) && !e.queue[Position(e.queue, txn)].granted
  }

  predicate Holding(e: Entry, txn: nat) {
    Queued(e, txn) && e.queue[Position(e.queue, txn)].granted
  }

  /** Everything in front of place `i` is shared and granted. */
  predicate AllSharedGranted(queue: seq<Request>, i: nat)
    requires i <= |queue|
  {
    forall j :: 0 <= j < i ==> queue[j].mode == Shared && queue[j].granted
  }

  /** The wait predicate: an exclusive request must be at the head; a shared one must have only granted
      shared requests in front of it. */
  predicate Grantable(e: Entry, txn: nat)
    requires Queued(e, txn)
  {
    var i := Position(e.queue, txn);
    if e.queue[i].mode == Exclusive then i == 0 else AllSharedGranted(e.queue, i)
  }

  predicate Enabled(e: Entry, step: Step) {
    match step
    case Push(txn, mode) => mode != NoLock && !Queued(e, txn)
    case Evaluate(txn) => Waiting(e, txn) && txn !in e.asleep
    case Unlock(txn) => Holding(e, txn)
    case Notify => e.pending > 0
    case Spurious(txn) => txn in e.asleep
  }

  /** `list::remove` of a granted record with this transaction and the entry's current mode. */
  function RemoveRecord(queue: seq<Request>, r: Request): seq<Request> {
    if queue == [] then []
    else if queue[0] == r then RemoveRecord(queue[1..], r)
    else [queue[0]] + RemoveRecord(queue[1..], r)
  }

  function Apply(v: Version, e: Entry, step: Step): Entry
    requires Enabled(e, step)
  {
    match step
    case Push(txn, mode) => e.(queue := e.queue + [Request(txn, mode, false)])
    case Evaluate(txn) =>
      if !Grantable(e, txn) then e.(asleep := e.asleep + {txn})
      else
        var i := Position(e.queue, txn);
        var granted := e.(queue := e.queue[i := e.queue[i].(granted := true)]);
        if e.queue[i].mode == Exclusive then granted.(mode := Exclusive)
        else granted.(mode := if v == Repaired then Shared else e.mode, sharedCount := e.sharedCount + 1, asleep := {})
    case Unlock(txn) =>
      var less := e.(queue := RemoveRecord(e.queue, Request(txn, e.mode, true)));
      if e.mode == Shared then
        if e.sharedCount - 1 == 0 then less.(sharedCount := 0, mode := NoLock, pending := e.pending + 1)
        else less.(sharedCount := e.sharedCount - 1)
      else if e.mode == Exclusive then less.(mode := NoLock, pending := e.pending + 1)
      else less
    case Notify => e.(pending := e.pending - 1, asleep := {})
    case Spurious(txn) => e.(asleep := e.asleep - {txn})
  }

  // ----- the invariant

  ghost predicate OnePerTxn(queue: seq<Request>) {
    forall i, j :: 0 <= i < j < |queue| ==> queue[i].txn != queue[j].txn
  }

  /** The first `n` requests are granted and no other. */
  ghost predicate GrantedPrefix(queue: seq<Request>, n: nat) {
    && n <= |queue|
    && (forall i :: 0 <= i < n ==> queue[i].granted)
    && (forall i :: n <= i < |queue| ==> !queue[i].granted)
  }

  /** Granted requests are all shared, or one exclusive; mode and count say so. */
  ghost predicate Compatible(e: Entry, n: nat)
    requires n <= |e.queue|
  {
    && (e.mode == NoLock ==> n == 0 && e.sharedCount == 0)
    && (e.mode == Shared ==> n > 0 && e.sharedCount == n && forall i :: 0 <= i < n ==> e.queue[i].mode == Shared)
    && (e.mode == Exclusive ==> n == 1 && e.sharedCount == 0 && e.queue[0].mode == Exclusive)
  }

  /** A sleeper whose turn has come has a notification on the way. */
  ghost predicate NoLostWakeup(e: Entry) {
    forall txn :: txn in e.asleep ==> Waiting(e, txn) && (Grantable(e, txn) ==> e.pending > 0)
  }

  ghost predicate Safe(e: Entry, n: nat) {
    && OnePerTxn(e.queue)
    && (forall i :: 0 <= i < |e.queue| ==> e.queue[i].mode != NoLock)
    && GrantedPrefix(e.queue, n)
    && Compatible(e, n)
    && NoLostWakeup(e)
  }

  lemma PositionIs(queue: seq<Request>, i: nat)
    requires OnePerTxn(queue) && i < |queue|
    ensures Position(queue, queue[i].txn) == i
  {
  }

  lemma {:induction false} RemoveAt(queue: seq<Request>, i: nat)
    requires OnePerTxn(queue) && i < |queue|
    ensures RemoveRecord(queue, queue[i]) == queue[..i] + queue[i + 1..]
  {
    var rest := queue[1..];
    if i == 0 {
      RemoveNothing(rest, queue[0]);
    } else {
      assert rest[i - 1] == queue[i];
      RemoveAt(rest, i - 1);
      assert queue[0].txn != queue[i].txn;
      assert queue[..i] + queue[i + 1..] == [queue[0]] + (rest[..i - 1] + rest[i..]);
    }
  }

  lemma {:induction false} RemoveNothing(queue: seq<Request>, r: Request)
    requires forall j :: 0 <= j < |queue| ==> queue[j] != r
    ensures RemoveRecord(queue, r) == queue
  {
    if queue != [] {
      RemoveNothing(queue[1..], r);
      assert queue == [queue[0]] + queue[1..];
    }
  }

  lemma PushSafe(e: Entry, n: nat, step: Step)
    requires Safe(e, n) && step.Push? && Enabled(e, step)
    ensures Safe(Apply(Repaired, e, step), n)
  {
    var e' := Apply(Repaired, e, step);
    assert OnePerTxn(e'.queue);
    forall txn | txn in e'.asleep
      ensures Waiting(e', txn) && (Grantable(e', txn) ==> e'.pending > 0)
    {
      assert Waiting(e, txn);
      var i := Position(e.queue, txn);
      assert forall m :: 0 <= m <= i ==> e'.queue[m] == e.queue[m];
      PositionIs(e'.queue, i);
    }
  }

  lemma GrantExclusiveSafe(e: Entry, n: nat, txn: nat)
    requires Safe(e, n) && Waiting(e, txn) && txn !in e.asleep && Grantable(e, txn)
    requires e.queue[Position(e.queue, txn)].mode == Exclusive
    ensures Safe(Apply(Repaired, e, Evaluate(txn)), 1)
  {
    var e' := Apply(Repaired, e, Evaluate(txn));
    assert e'.queue == e.queue[0 := e.queue[0].(granted := true)];
    forall t | t in e'.asleep
      ensures Waiting(e', t) && !Grantable(e', t)
    {
      assert Waiting(e, t);
      var i := Position(e.queue, t);
      PositionIs(e'.queue, i);
      assert e'.queue[0].mode == Exclusive;
    }
  }

  lemma FirstUngranted(queue: seq<Request>, n: nat, i: nat)
    requires GrantedPrefix(queue, n) && i < |queue| && !queue[i].granted && AllSharedGranted(queue, i)
    ensures n == i
  {
    assert n < |queue| ==> queue[n] == queue[n];
  }

  lemma GrantSharedSafe(e: Entry, n: nat, txn: nat)
    requires Safe(e, n) && Waiting(e, txn) && txn !in e.asleep && Grantable(e, txn)
    requires e.queue[Position(e.queue, txn)].mode == Shared
    ensures Safe(Apply(Repaired, e, Evaluate(txn)), n + 1)
  {
    var e' := Apply(Repaired, e, Evaluate(txn));
    var i := Position(e.queue, txn);
    FirstUngranted(e.queue, n, i);
    assert e'.queue == e.queue[i := e.queue[i].(granted := true)];
    assert n > 0 ==> e.queue[0].mode == Shared;
  }

  lemma EvaluateSafe(e: Entry, n: nat, step: Step) returns (n': nat)
    requires Safe(e, n) && step.Evaluate? && Enabled(e, step)
    ensures Safe(Apply(Repaired, e, step), n')
  {
    if !Grantable(e, step.txn) {
      n' := n;
    } else if e.queue[Position(e.queue, step.txn)].mode == Exclusive {
      n' := 1;
      GrantExclusiveSafe(e, n, step.txn);
    } else {
      n' := n + 1;
      GrantSharedSafe(e, n, step.txn);
    }
  }

  /** The record that an unlock removes is the holder's own. */
  lemma UnlockRemoves(e: Entry, n: nat, txn: nat)
    requires Safe(e, n) && Holding(e, txn)
    ensures var i := Position(e.queue, txn);
      && i < n && e.queue[i] == Request(txn, e.mode, true)
      && RemoveRecord(e.queue, Request(txn, e.mode, true)) == e.queue[..i] + e.queue[i + 1..]
  {
    RemoveAt(e.queue, Position(e.queue, txn));
  }

  /** The queue without one of its granted requests. */
  lemma ShorterQueue(queue: seq<Request>, n: nat, i: nat)
    requires OnePerTxn(queue) && GrantedPrefix(queue, n) && i < n
    ensures var less := queue[..i] + queue[i + 1..];
      && |less| == |queue| - 1 && OnePerTxn(less) && GrantedPrefix(less, n - 1)
      && (forall m :: 0 <= m < |less| ==> less[m] == queue[if m < i then m else m + 1])
      && (forall j :: n <= j < |queue| ==> Position(less, queue[j].txn) == j - 1 && Position(queue, queue[j].txn) == j)
  {
    var less := queue[..i] + queue[i + 1..];
    assert OnePerTxn(less);
    forall j | n <= j < |queue|
      ensures Position(less, queue[j].txn) == j - 1 && Position(queue, queue[j].txn) == j
    {
      assert less[j - 1] == queue[j];
      PositionIs(less, j - 1);
      PositionIs(queue, j);
    }
  }

  lemma UnlockSafe(e: Entry, n: nat, step: Step)
    requires Safe(e, n) && step.Unlock? && Enabled(e, step)
    ensures n > 0 && Safe(Apply(Repaired, e, step), n - 1)
  {
    hide Position, RemoveRecord, OnePerTxn, NoLostWakeup, Grantable, GrantedPrefix, Compatible;
    UnlockRemoves(e, n, step.txn);
    var e', i := Apply(Repaired, e, step), Position(e.queue, step.txn);
    ShorterQueue(e.queue, n, i);
    UnlockCompatible(e, n, step.txn);
    UnlockWakes(e, e', n, i);
  }

  lemma UnlockCompatible(e: Entry, n: nat, txn: nat)
    requires Safe(e, n) && Holding(e, txn)
    ensures var e' := Apply(Repaired, e, Unlock(txn));
      && 0 < n <= |e'.queue| + 1 && Compatible(e', n - 1)
      && (e'.pending > 0 || (e'.pending == e.pending && e.mode == Shared && n > 1))
  {
    hide Position, RemoveRecord, OnePerTxn, NoLostWakeup, Grantable;
    UnlockRemoves(e, n, txn);
    ShorterQueue(e.queue, n, Position(e.queue, txn));
  }

  /** An unlock that notifies wakes every sleeper; one that does not lets nobody through. */
  lemma UnlockWakes(e: Entry, e': Entry, n: nat, i: nat)
    requires Safe(e, n) && i < n && e'.queue == e.queue[..i] + e.queue[i + 1..] && e'.asleep == e.asleep
    requires e'.pending > 0 || (e'.pending == e.pending && e.mode == Shared && n > 1)
    ensures NoLostWakeup(e')
  {
    hide Position;
    ShorterQueue(e.queue, n, i);
    forall t | t in e'.asleep
      ensures Waiting(e', t) && (Grantable(e', t) ==> e'.pending > 0)
    {
      assert Waiting(e, t);
      var j := Position(e.queue, t);
      assert j >= n && e'.queue[j - 1] == e.queue[j];
      if e'.pending == 0 {
        SharedUnlockEnablesNobody(e, e', n, i, t);
      }
    }
  }

  /** While shared holders remain, an unlock lets nobody through who could not go before. */
  lemma SharedUnlockEnablesNobody(e: Entry, e': Entry, n: nat, i: nat, t: nat)
    requires Safe(e, n) && i < n && e'.queue == e.queue[..i] + e.queue[i + 1..]
    requires e.mode == Shared && n > 1 && Waiting(e, t)
    ensures Queued(e', t) && (Grantable(e', t) ==> Grantable(e, t))
  {
    hide Position;
    ShorterQueue(e.queue, n, i);
    var j := Position(e.queue, t);
    assert j >= n && e'.queue[j - 1] == e.queue[j];
    if Grantable(e', t) && e.queue[j].mode != Exclusive {
      FirstUngranted(e'.queue, n - 1, j - 1);
    }
  }

  lemma StepSafe(e: Entry, n: nat, step: Step) returns (n': nat)
    requires Safe(e, n) && Enabled(e, step)
    ensures Safe(Apply(Repaired, e, step), n')
  {
    match step
    case Push(_, _) => n' := n; PushSafe(e, n, step);
    case Evaluate(_) => n' := EvaluateSafe(e, n, step);
    case Unlock(_) => UnlockSafe(e, n, step); n' := n - 1;
    case Notify => n' := n;
    case Spurious(_) => n' := n;
  }

  // ----- runs

  ghost predicate Runs(v: Version, e: Entry, steps: seq<Step>, e': Entry)
    decreases |steps|
  {
    if steps == [] then e' == e
    else Enabled(e, steps[0]) && Runs(v, Apply(v, e, steps[0]), steps[1..], e')
  }

  lemma {:induction false} RunSafe(e: Entry, n: nat, steps: seq<Step>, e': Entry) returns (n': nat)
    requires Safe(e, n) && Runs(Repaired, e, steps, e')
    ensures Safe(e', n')
    decreases |steps|
  {
    if steps == [] {
      n' := n;
    } else {
      var m := StepSafe(e, n, steps[0]);
      n' := RunSafe(Apply(Repaired, e, steps[0]), m, steps[1..], e');
    }
  }

  /** Lock safety over all interleavings: the granted requests are a prefix of the arrival order, either
      all shared or a single exclusive one; the count is theirs; nobody is granted past a waiting
      request; and no sleeper whose turn has come is without a notification. */
  lemma LockSafety(steps: seq<Step>, e: Entry) returns (n: nat)
    requires Runs(Repaired, IDLE, steps, e)
    ensures GrantedPrefix(e.queue, n)
    ensures (forall i :: 0 <= i < n ==> e.queue[i].mode == Shared) || (n == 1 && e.queue[0].mode == Exclusive)
    ensures e.sharedCount == if n > 0 && e.queue[0].mode == Shared then n else 0
    ensures NoLostWakeup(e)
  {
    assert Safe(IDLE, 0);
    n := RunSafe(IDLE, 0, steps, e);
  }

  // ----- bounded waiting

  function Unlocks(steps: seq<Step>): nat {
    if steps == [] then 0 else (if steps[0].Unlock? then 1 else 0) + Unlocks(steps[1..])
  }

  /** The transaction waits in every state of the run. */
  ghost predicate WaitsThroughout(e: Entry, steps: seq<Step>, txn: nat)
    decreases |steps|
  {
    Waiting(e, txn) && (steps != [] && Enabled(e, steps[0]) ==> WaitsThroughout(Apply(Repaired, e, steps[0]), steps[1..], txn))
  }

  lemma WaitsBehind(e: Entry, n: nat, txn: nat)
    requires Safe(e, n) && Waiting(e, txn)
    ensures n <= Position(e.queue, txn) < |e.queue| && e.queue[Position(e.queue, txn)].txn == txn
  {
    hide Compatible, NoLostWakeup, OnePerTxn;
  }

  lemma UnlockQueue(e: Entry, n: nat, t: nat)
    requires Safe(e, n) && Holding(e, t)
    ensures var i := Position(e.queue, t);
      i < n && Apply(Repaired, e, Unlock(t)).queue == e.queue[..i] + e.queue[i + 1..]
  {
    hide RemoveRecord, NoLostWakeup, Compatible, OnePerTxn;
    UnlockRemoves(e, n, t);
  }

  lemma UnlockMoves(e: Entry, n: nat, t: nat, txn: nat)
    requires Safe(e, n) && Holding(e, t) && Waiting(e, txn)
    ensures Position(Apply(Repaired, e, Unlock(t)).queue, txn) == Position(e.queue, txn) - 1
  {
    WaitsBehind(e, n, txn);
    UnlockQueue(e, n, t);
    hide Apply, Position, OnePerTxn, Compatible, NoLostWakeup, GrantedPrefix;
    ShorterQueue(e.queue, n, Position(e.queue, t));
  }

  /** Each unlock moves a waiting request one place forward; nothing else moves it. */
  lemma StepMoves(e: Entry, n: nat, step: Step, txn: nat)
    requires Safe(e, n) && Enabled(e, step) && Waiting(e, txn) && Waiting(Apply(Repaired, e, step), txn)
    ensures Position(Apply(Repaired, e, step).queue, txn) == Position(e.queue, txn) - (if step.Unlock? then 1 else 0)
  {
    hide RemoveRecord, Position, Safe;
    var e' := Apply(Repaired, e, step);
    if step.Unlock? {
      UnlockMoves(e, n, step.txn, txn);
    } else {
      SamePlace(e.queue, e'.queue, txn);
    }
  }

  lemma SamePlace(queue: seq<Request>, queue': seq<Request>, txn: nat)
    requires Position(queue, txn) < |queue| <= |queue'|
    requires forall i :: 0 <= i < |queue| ==> queue'[i].txn == queue[i].txn
    ensures Position(queue', txn) == Position(queue, txn)
  {
    hide Position;
  }

  /** A request that still waits has seen at most as many unlocks as there were requests ahead of it;
      once it has seen that many it is at the head, may be granted, and is awake or about to be. */
  lemma {:induction false} BoundedWaiting(e: Entry, n: nat, steps: seq<Step>, e': Entry, txn: nat)
    requires Safe(e, n) && Runs(Repaired, e, steps, e') && WaitsThroughout(e, steps, txn)
    ensures Position(e'.queue, txn) + Unlocks(steps) == Position(e.queue, txn)
    ensures Unlocks(steps) == Position(e.queue, txn) ==>
      Queued(e', txn) && Grantable(e', txn) && (txn !in e'.asleep || e'.pending > 0)
    decreases |steps|
  {
    if steps != [] {
      var m := StepSafe(e, n, steps[0]);
      StepMoves(e, n, steps[0], txn);
      BoundedWaiting(Apply(Repaired, e, steps[0]), m, steps[1..], e', txn);
    }
  }

  // ----- what each step does, read off the queue

  /** The compatibility matrix with the order of arrival: nobody is in front of an exclusive request, and
      only shared holders in front of a shared one. */
  ghost predicate Proceeds(queue: seq<Request>, i: nat)
    requires i < |queue|
  {
    forall j :: 0 <= j < i ==> queue[i].mode == Shared && queue[j].mode == Shared && queue[j].granted
  }

  /** A request that is looked at holds its lock afterwards exactly when it may proceed; then its record alone
      changes and sleepers are woken if the lock is shared, otherwise its transaction goes to sleep and that is
      all. */
  lemma EvaluateIff(e: Entry, n: nat, txn: nat)
    requires Safe(e, n) && Enabled(e, Evaluate(txn))
    ensures var e', i := Apply(Repaired, e, Evaluate(txn)), Position(e.queue, txn);
      && e.queue[i].txn == txn && !e.queue[i].granted
      && (Holding(e', txn) <==> Proceeds(e.queue, i))
      && e'.pending == e.pending && |e'.queue| == |e.queue|
      && (forall j :: 0 <= j < |e.queue| ==> e'.queue[j] == e.queue[j].(granted := e.queue[j].granted || (j == i && Proceeds(e.queue, i))))
      && e'.asleep == (if !Proceeds(e.queue, i) then e.asleep + {txn} else if e.queue[i].mode == Shared then {} else e.asleep)
  {
    hide RemoveRecord, NoLostWakeup, Compatible;
    var e', i := Apply(Repaired, e, Evaluate(txn)), Position(e.queue, txn);
    assert Grantable(e, txn) <==> Proceeds(e.queue, i);
    SamePlace(e.queue, e'.queue, txn);
  }

  /** A new request goes behind all others, with the mode asked for. */
  lemma PushIs(e: Entry, n: nat, txn: nat, mode: Mode)
    requires Safe(e, n) && Enabled(e, Push(txn, mode))
    ensures var e' := Apply(Repaired, e, Push(txn, mode));
      && Safe(e', n) && Waiting(e', txn) && e'.asleep == e.asleep && e'.pending == e.pending
      && Position(e'.queue, txn) == |e.queue| && |e'.queue| == |e.queue| + 1 && e'.queue[|e.queue|].mode == mode
      && forall j :: 0 <= j < |e.queue| ==> e'.queue[j] == e.queue[j]
  {
    PushSafe(e, n, Push(txn, mode));
    hide RemoveRecord, NoLostWakeup, Compatible;
    PositionIs(Apply(Repaired, e, Push(txn, mode)).queue, |e.queue|);
  }

  /** An unlock takes the holder's record out of the queue, and notifies exactly when nobody else holds. */
  lemma UnlockIs(e: Entry, n: nat, txn: nat)
    requires Safe(e, n) && Holding(e, txn)
    ensures var e', i := Apply(Repaired, e, Unlock(txn)), Position(e.queue, txn);
      && i < n && Safe(e', n - 1) && !Queued(e', txn)
      && e'.queue == e.queue[..i] + e.queue[i + 1..] && e'.asleep == e.asleep
      && e'.pending == e.pending + (if n == 1 then 1 else 0)
  {
    UnlockSafe(e, n, Unlock(txn));
    UnlockRemoves(e, n, txn);
    hide RemoveRecord, Position, NoLostWakeup;
  }

  /** Readers share: however many transactions ask for a shared lock, they come to hold it all at once. */
  lemma {:induction false} ReadersShare(n: nat) returns (steps: seq<Step>, e: Entry)
    ensures Runs(Repaired, IDLE, steps, e) && Safe(e, n) && |e.queue| == n && e.asleep == {}
    ensures forall t: nat :: t < n ==> Holding(e, t) && e.queue[Position(e.queue, t)].mode == Shared
    ensures forall t: nat :: Queued(e, t) ==> t < n
  {
    if n == 0 {
      steps, e := [], IDLE;
    } else {
      var before, d := ReadersShare(n - 1);
      var t := n - 1;
      hide Runs;
      e := OneMoreReader(d, t);
      var e1 := Apply(Repaired, d, Push(t, Shared));
      steps := Then(IDLE, before, d, Push(t, Shared));
      steps := Then(IDLE, steps, e1, Evaluate(t));
    }
  }

  /** All shared holders: one more asks, and proceeds. */
  lemma OneMoreReader(d: Entry, t: nat) returns (e: Entry)
    requires Safe(d, t) && |d.queue| == t && d.asleep == {}
    requires forall u: nat :: u < t ==> Holding(d, u) && d.queue[Position(d.queue, u)].mode == Shared
    requires forall u: nat :: Queued(d, u) ==> u < t
    ensures Enabled(d, Push(t, Shared))
    ensures var d1 := Apply(Repaired, d, Push(t, Shared)); Enabled(d1, Evaluate(t)) && e == Apply(Repaired, d1, Evaluate(t))
    ensures Safe(e, t + 1) && |e.queue| == t + 1 && e.asleep == {}
    ensures forall u: nat :: u < t + 1 ==> Holding(e, u) && e.queue[Position(e.queue, u)].mode == Shared
    ensures forall u: nat :: Queued(e, u) ==> u < t + 1
  {
    hide Apply;
    PushIs(d, t, t, Shared);
    var d1 := Apply(Repaired, d, Push(t, Shared));
    AllShared(d, t);
    assert Proceeds(d1.queue, t);
    EvaluateIff(d1, t, t);
    e := Apply(Repaired, d1, Evaluate(t));
    assert Grantable(d1, t);
    GrantSharedSafe(d1, t, t);
    hide Enabled, NoLostWakeup, Compatible, GrantedPrefix;
    ReadersNow(d, e, t);
  }

  lemma ReadersNow(d: Entry, e: Entry, t: nat)
    requires OnePerTxn(d.queue) && OnePerTxn(e.queue) && |d.queue| == t && |e.queue| == t + 1
    requires e.queue[t] == Request(t, Shared, true) && forall j :: 0 <= j < t ==> e.queue[j] == d.queue[j]
    requires forall u: nat :: u < t ==> Holding(d, u) && d.queue[Position(d.queue, u)].mode == Shared
    requires forall u: nat :: Queued(d, u) ==> u < t
    ensures forall u: nat :: u < t + 1 ==> Holding(e, u) && e.queue[Position(e.queue, u)].mode == Shared
    ensures forall u: nat :: Queued(e, u) ==> u < t + 1
  {
    forall u: nat | u < t + 1
      ensures Holding(e, u) && e.queue[Position(e.queue, u)].mode == Shared
    {
      PositionIs(e.queue, if u < t then Position(d.queue, u) else t);
    }
    forall u: nat | Queued(e, u)
      ensures u < t + 1
    {
      var j := Position(e.queue, u);
      if j < t {
        PositionIs(d.queue, j);
        assert Queued(d, u);
      }
    }
  }

  lemma AllShared(d: Entry, t: nat)
    requires Safe(d, t) && |d.queue| == t
    requires forall u: nat :: u < t ==> Holding(d, u) && d.queue[Position(d.queue, u)].mode == Shared
    ensures forall j :: 0 <= j < t ==> d.queue[j].mode == Shared && d.queue[j].granted
  {
    if t > 0 {
      assert Holding(d, 0);
      assert d.mode != NoLock && (d.mode == Exclusive ==> t == 1);
    }
  }

  lemma {:induction false} RunsThen(e: Entry, steps: seq<Step>, d: Entry, more: seq<Step>, e': Entry)
    requires Runs(Repaired, e, steps, d) && Runs(Repaired, d, more, e')
    ensures Runs(Repaired, e, steps + more, e')
    decreases |steps|
  {
    hide Apply, Enabled;
    if steps == [] {
      assert steps + more == more;
    } else {
      RunsThen(Apply(Repaired, e, steps[0]), steps[1..], d, more, e');
      assert (steps + more)[1..] == steps[1..] + more;
    }
  }

  lemma Then(e: Entry, steps: seq<Step>, d: Entry, step: Step) returns (more: seq<Step>)
    requires Runs(Repaired, e, steps, d) && Enabled(d, step)
    ensures Runs(Repaired, e, more, Apply(Repaired, d, step)) && more == steps + [step]
  {
    hide Apply, Enabled;
    more := steps + [step];
    var d' := Apply(Repaired, d, step);
    assert [step][1..] == [] && Runs(Repaired, d', [], d');
    RunsThen(e, steps, d, [step], d');
  }

  /** Steps of calls that are already there: no new request and no waking for no reason. */
  predicate OwnSteps(steps: seq<Step>) {
    forall i :: 0 <= i < |steps| ==> !steps[i].Push? && !steps[i].Spurious?
  }

  /** A waiting request that may proceed is woken if it sleeps, and gets its lock. */
  lemma WakeAndGrant(e: Entry, n: nat, txn: nat) returns (steps: seq<Step>, e': Entry, n': nat)
    requires Safe(e, n) && Waiting(e, txn) && Proceeds(e.queue, Position(e.queue, txn))
    ensures Runs(Repaired, e, steps, e') && OwnSteps(steps) && Safe(e', n') && Holding(e', txn)
    ensures |e'.queue| == |e.queue| && forall j :: 0 <= j < |e.queue| ==> e'.queue[j].txn == e.queue[j].txn
    ensures forall j :: 0 <= j < |e.queue| ==> e'.queue[j].mode == e.queue[j].mode
  {
    steps, e' := Awake(e, n, txn);
    hide Apply, Runs, Safe;
    EvaluateIff(e', n, txn);
    n' := EvaluateSafe(e', n, Evaluate(txn));
    steps := Then(e, steps, e', Evaluate(txn));
    e' := Apply(Repaired, e', Evaluate(txn));
  }

  lemma Awake(e: Entry, n: nat, txn: nat) returns (steps: seq<Step>, e': Entry)
    requires Safe(e, n) && Waiting(e, txn) && Proceeds(e.queue, Position(e.queue, txn))
    ensures Runs(Repaired, e, steps, e') && OwnSteps(steps) && Safe(e', n)
    ensures e'.queue == e.queue && txn !in e'.asleep
  {
    steps, e' := [], e;
    if txn in e.asleep {
      assert Grantable(e, txn);
      steps := Then(e, steps, e, Notify);
      e' := Apply(Repaired, e, Notify);
    }
  }

  /** Nobody waits for ever if holders let go: from every state, the calls that are already there can bring
      each queued request to its lock, in the mode it asked for. */
  lemma {:induction false} RequestCanBeGranted(e: Entry, n: nat, txn: nat) returns (steps: seq<Step>, e': Entry)
    requires Safe(e, n) && Queued(e, txn)
    ensures Runs(Repaired, e, steps, e') && OwnSteps(steps)
    ensures Holding(e', txn) && e'.queue[Position(e'.queue, txn)].mode == e.queue[Position(e.queue, txn)].mode
    decreases Position(e.queue, txn)
  {
    hide Apply, Enabled, Compatible, NoLostWakeup;
    var i := Position(e.queue, txn);
    if Holding(e, txn) {
      steps, e' := [], e;
    } else if Proceeds(e.queue, i) {
      var m: nat;
      steps, e', m := WakeAndGrant(e, n, txn);
      PositionIs(e'.queue, i);
    } else {
      var d, m;
      steps, d, m := HeadLeaves(e, n);
      PositionIs(d.queue, i - 1);
      var more;
      more, e' := RequestCanBeGranted(d, m, txn);
      RunsThen(e, steps, d, more, e');
      steps := steps + more;
    }
  }

  /** The first request gets its lock, if it has not yet, and gives it back. */
  lemma HeadLeaves(e: Entry, n: nat) returns (steps: seq<Step>, d: Entry, m: nat)
    requires Safe(e, n) && e.queue != []
    ensures Runs(Repaired, e, steps, d) && OwnSteps(steps) && Safe(d, m)
    ensures |d.queue| == |e.queue| - 1
    ensures forall j :: 0 <= j < |d.queue| ==> d.queue[j].txn == e.queue[j + 1].txn && d.queue[j].mode == e.queue[j + 1].mode
  {
    var head := e.queue[0].txn;
    PositionIs(e.queue, 0);
    steps, d, m := [], e, n;
    if Waiting(e, head) {
      steps, d, m := WakeAndGrant(e, n, head);
      PositionIs(d.queue, 0);
    }
    hide Apply, Runs;
    UnlockIs(d, m, head);
    steps := Then(e, steps, d, Unlock(head));
    d, m := Apply(Repaired, d, Unlock(head)), m - 1;
  }

  // ----- as coded

  /** What holds of the entry as coded: the mode is never shared, an exclusive holder is alone at the head
      and the mode says so, and a shared holder has only shared requests in front of it. */
  ghost predicate CodedOk(e: Entry) {
    && OnePerTxn(e.queue)
    && e.mode != Shared && (forall i :: 0 <= i < |e.queue| ==> e.queue[i].mode != NoLock)
    && (e.mode == Exclusive <==> e.queue != [] && e.queue[0].granted && e.queue[0].mode == Exclusive)
    && (forall i :: 0 <= i < |e.queue| && e.queue[i].granted && e.queue[i].mode == Exclusive ==> i == 0)
    && (forall i, j :: 0 <= j < i < |e.queue| && e.queue[i].granted && e.queue[i].mode != Exclusive ==> e.queue[j].mode == Shared)
  }

  lemma CodedStep(e: Entry, step: Step)
    requires CodedOk(e) && Enabled(e, step)
    ensures CodedOk(Apply(AsCoded, e, step))
  {
    if step.Unlock? {
      CodedUnlock(e, step.txn);
    } else if step.Evaluate? {
      CodedEvaluate(e, step.txn);
    }
  }

  lemma CodedEvaluate(e: Entry, txn: nat)
    requires CodedOk(e) && Enabled(e, Evaluate(txn))
    ensures CodedOk(Apply(AsCoded, e, Evaluate(txn)))
  {
    hide RemoveRecord;
  }

  lemma CodedTail(e: Entry, pending: nat)
    requires CodedOk(e) && e.mode == Exclusive
    ensures CodedOk(e.(queue := e.queue[1..], mode := NoLock, pending := pending))
    ensures !Queued(e.(queue := e.queue[1..], mode := NoLock, pending := pending), e.queue[0].txn)
  {
    assert forall j :: 0 <= j < |e.queue[1..]| ==> e.queue[1..][j] == e.queue[j + 1];
  }

  lemma CodedUnlock(e: Entry, txn: nat)
    requires CodedOk(e) && Holding(e, txn)
    ensures CodedOk(Apply(AsCoded, e, Unlock(txn)))
    ensures var i := Position(e.queue, txn); var e' := Apply(AsCoded, e, Unlock(txn));
      if e.queue[i].mode == Exclusive then e'.queue == e.queue[1..] && !Queued(e', txn) else e' == e
  {
    hide RemoveRecord, Position;
    var i := Position(e.queue, txn);
    var gone := Request(txn, e.mode, true);
    if e.queue[i].mode == Exclusive {
      RemoveAt(e.queue, i);
      assert e.queue[i] == gone && e.queue[..0] + e.queue[1..] == e.queue[1..];
      CodedTail(e, e.pending + 1);
    } else {
      assert e.mode == NoLock;
      RemoveNothing(e.queue, gone);
    }
  }

  lemma {:induction false} CodedRun(e: Entry, steps: seq<Step>, e': Entry)
    requires CodedOk(e) && Runs(AsCoded, e, steps, e')
    ensures CodedOk(e')
    decreases |steps|
  {
    if steps != [] {
      CodedStep(e, steps[0]);
      CodedRun(Apply(AsCoded, e, steps[0]), steps[1..], e');
    }
  }

  /** As coded, in every run, `unlock` gives a lock back if and only if it is an exclusive one; the unlock
      of a shared lock changes nothing and wakes nobody. */
  lemma CodedUnlockGivesBackIff(steps: seq<Step>, e: Entry, txn: nat)
    requires Runs(AsCoded, IDLE, steps, e) && Holding(e, txn)
    ensures var e' := Apply(AsCoded, e, Unlock(txn)); var mode := e.queue[Position(e.queue, txn)].mode;
      (!Queued(e', txn) <==> mode == Exclusive) && (mode != Exclusive ==> e' == e)
  {
    CodedRun(IDLE, steps, e);
    CodedUnlock(e, txn);
  }

  /** A shared request at the head, as coded: it never leaves. */
  lemma {:induction false} CodedHeadStays(e: Entry, steps: seq<Step>, e': Entry)
    requires CodedOk(e) && e.queue != [] && e.queue[0].mode == Shared && Runs(AsCoded, e, steps, e')
    ensures CodedOk(e') && |e'.queue| >= |e.queue| && e'.queue[0].mode == Shared
    ensures forall i :: 0 <= i < |e.queue| ==> e'.queue[i].txn == e.queue[i].txn && (e.queue[i].granted ==> e'.queue[i].granted)
    decreases |steps|
  {
    if steps != [] {
      CodedStep(e, steps[0]);
      if steps[0].Unlock? {
        CodedUnlock(e, steps[0].txn);
      }
      CodedHeadStays(Apply(AsCoded, e, steps[0]), steps[1..], e');
    }
  }

  /** As coded, once any shared request has been granted on an item it stays granted, and no exclusive
      request on that item is granted in any later state of any run. */
  lemma CodedSharedBlocks(steps: seq<Step>, e: Entry, i: nat, more: seq<Step>, e': Entry)
    requires Runs(AsCoded, IDLE, steps, e) && i < |e.queue| && e.queue[i].granted && e.queue[i].mode == Shared
    requires Runs(AsCoded, e, more, e')
    ensures Holding(e', e.queue[i].txn)
    ensures forall j :: 0 <= j < |e'.queue| && e'.queue[j].mode == Exclusive ==> !e'.queue[j].granted
  {
    CodedRun(IDLE, steps, e);
    CodedHeadStays(e, more, e');
    PositionIs(e'.queue, i);
  }

  /** A run in which a shared lock is held, so that its unlock as coded does nothing. */
  lemma SharedHolderReached(txn: nat) returns (steps: seq<Step>, e: Entry)
    ensures Runs(AsCoded, IDLE, steps, e) && Holding(e, txn) && e.queue[Position(e.queue, txn)].mode == Shared
  {
    steps := [Push(txn, Shared), Evaluate(txn)];
    var q := Apply(AsCoded, IDLE, Push(txn, Shared));
    assert q.queue == [Request(txn, Shared, false)] && Position(q.queue, txn) == 0;
    e := Apply(AsCoded, q, Evaluate(txn));
    assert e.queue == [Request(txn, Shared, true)] && Position(e.queue, txn) == 0;
    assert steps[1..] == [Evaluate(txn)] && steps[1..][1..] == [];
    assert Runs(AsCoded, e, [], e);
    assert Runs(AsCoded, q, [Evaluate(txn)], e);
  }
}
