/** The lock manager over many items (transaction/lock_manager.cc): the entry object with the wait
    predicate's loop, and the table from items to entries.  `lock` fetches the entry in one critical
    section and queues its request in another, and `unlock` drops an entry whose queue it finds empty
    without holding the entry's mutex.
 */
module LockManager {
  import opened LockEntry

  // ----- one entry, updated in place

  class EntryObject {
    var queue: seq<Request>
    var mode: Mode
    var sharedCount: int
    var asleep: set<nat>
    var pending: nat

    ghost function View(): Entry
      reads this
    {
      Entry(queue, mode, sharedCount, asleep, pending)
    }

    constructor ()
      ensures View() == IDLE
    {
      queue, mode, sharedCount, asleep, pending := [], NoLock, 0, {}, 0;
    }

    method PushRequest(txn: nat, requested: Mode)
      requires Enabled(View(), Push(txn, requested))
      modifies this
      ensures View() == Apply(Repaired, old(View()), Push(txn, requested))
    {
      queue := queue + [Request(txn, requested, false)];
    }

    /** The predicate given to `wait`, and what follows it under the same mutex: a shared grant wakes all
        sleepers, a refusal puts the caller to sleep. */
    method TryGrant(txn: nat) returns (granted: bool)
      requires Enabled(View(), Evaluate(txn))
      modifies this
      ensures View() == Apply(Repaired, old(View()), Evaluate(txn))
      ensures var q, i := old(queue), Position(old(queue), txn);
        granted <==> if q[i].mode == Exclusive then i == 0 else forall j :: 0 <= j < i ==> q[j].mode == Shared && q[j].granted
    {
      var i := 0;
      var allShared, allGranted := true, true;
      while queue[i].txn != txn
        invariant 0 <= i <= Position(queue, txn) < |queue|
        invariant allShared && allGranted <==> AllSharedGranted(queue, i)
        invariant View() == old(View())
        decreases |queue| - i
      {
        if queue[i].mode != Shared {
          allShared := false;
        }
        if !queue[i].granted {
          allGranted := false;
        }
        i := i + 1;
      }
      assert i == Position(queue, txn);
      if queue[i].mode == Exclusive {
        granted := i == 0;
        if granted {
          queue := queue[i := queue[i].(granted := true)];
          mode := Exclusive;
        }
      } else {
        granted := allShared && allGranted;
        if granted {
          queue := queue[i := queue[i].(granted := true)];
          mode := Shared;
          sharedCount := sharedCount + 1;
          asleep := {};
        }
      }
      if !granted {
        asleep := asleep + {txn};
      }
    }

    method Release(txn: nat) returns (needNotify: bool)
      requires Enabled(View(), Unlock(txn))
      modifies this
      ensures View() == Apply(Repaired, old(View()), Unlock(txn))
      ensures needNotify == (pending == old(pending) + 1)
    {
      var record := Request(txn, mode, true);
      var kept: seq<Request> := [];
      var i := 0;
      while i < |queue|
        invariant 0 <= i <= |queue| && View() == old(View())
        invariant RemoveRecord(queue, record) == kept + RemoveRecord(queue[i..], record)
      {
        assert queue[i..][1..] == queue[i + 1..];
        if queue[i] != record {
          kept := kept + [queue[i]];
        }
        i := i + 1;
      }
      queue := kept;
      needNotify := false;
      if mode == Shared {
        sharedCount := sharedCount - 1;
        if sharedCount == 0 {
          mode := NoLock;
          needNotify := true;
        }
      } else if mode == Exclusive {
        mode := NoLock;
        needNotify := true;
      }
      if needNotify {
        pending := pending + 1;
      }
    }

    method NotifyAll()
      requires Enabled(View(), Notify)
      modifies this
      ensures View() == Apply(Repaired, old(View()), Notify)
    {
      pending := pending - 1;
      asleep := {};
    }
  }

  // ----- many items

  /** A call of `lock` that has fetched its entry and not yet queued its request. */
  datatype Arrival = Arrival(entry: nat, txn: nat, mode: Mode)

  /** All entries ever made, the item of each, and for each the number of calls of `unlock` that have notified,
      if they had to, and not yet looked whether the queue is empty; the table from items to entries; and the
      calls of `lock` on their way.  An entry that is dropped from the table is deleted. */
  datatype LockState = LockState(
    entries: seq<Entry>, items: seq<int>, leaving: seq<nat>, table: map<int, nat>, arrivals: set<Arrival>)

  const EMPTY := LockState([], [], [], map[], {})

  datatype Move =
    | Fetch(txn: nat, item: int, mode: Mode)
    | Queue(a: Arrival)
    | Try(entry: nat, txn: nat)
    | Rouse(entry: nat, txn: nat)
    | GiveBack(item: int, txn: nat)
    | Wake(entry: nat)
    | Leave(entry: nat)

  predicate Shaped(m: LockState) {
    |m.items| == |m.entries| == |m.leaving|
  }

  predicate MayMove(m: LockState, move: Move) {
    Shaped(m) &&
    match move
    case Fetch(_, _, mode) => mode != NoLock
    case Queue(a) => a in m.arrivals && a.entry < |m.entries| && Enabled(m.entries[a.entry], Push(a.txn, a.mode))
    case Try(i, txn) => i < |m.entries| && Enabled(m.entries[i], Evaluate(txn))
    case Rouse(i, txn) => i < |m.entries| && Enabled(m.entries[i], Spurious(txn))
    case GiveBack(item, txn) => item in m.table && m.table[item] < |m.entries| && Enabled(m.entries[m.table[item]], Unlock(txn))
    case Wake(i) => i < |m.entries| && Enabled(m.entries[i], Notify)
    case Leave(i) => i < |m.entries| && m.leaving[i] > 0
  }

  /** When an `unlock` that finds the queue empty drops the entry: `AsCoded` always; `Guarded` only if it is the
      table's entry and nobody else has to do with it. */
  datatype DropRule = AsCodedDrop | Guarded

  predicate Arriving(m: LockState, i: nat) {
    exists a :: a in m.arrivals && a.entry == i
  }

  predicate IsCurrent(m: LockState, i: nat)
    requires Shaped(m) && i < |m.entries|
  {
    m.items[i] in m.table && m.table[m.items[i]] == i
  }

  predicate Drops(rule: DropRule, m: LockState, i: nat)
    requires Shaped(m) && i < |m.entries|
  {
    && m.entries[i].queue == []
    && (rule == Guarded ==> IsCurrent(m, i) && !Arriving(m, i) && m.entries[i].pending == 0 && m.leaving[i] == 1)
  }

  /** One step of one entry. */
  function StepAt(m: LockState, i: nat, step: Step): LockState
    requires i < |m.entries| && Enabled(m.entries[i], step)
  {
    m.(entries := m.entries[i := Apply(Repaired, m.entries[i], step)])
  }

  function Moved(rule: DropRule, m: LockState, move: Move): LockState
    requires MayMove(m, move)
  {
    match move
    case Fetch(txn, item, mode) =>
      if item in m.table then m.(arrivals := m.arrivals + {Arrival(m.table[item], txn, mode)})
      else
        LockState(m.entries + [IDLE], m.items + [item], m.leaving + [0], m.table[item := |m.entries|],
                  m.arrivals + {Arrival(|m.entries|, txn, mode)})
    case Queue(a) => StepAt(m, a.entry, Push(a.txn, a.mode)).(arrivals := m.arrivals - {a})
    case Try(i, txn) => StepAt(m, i, Evaluate(txn))
    case Rouse(i, txn) => StepAt(m, i, Spurious(txn))
    case GiveBack(item, txn) =>
      var i := m.table[item];
      var q := StepAt(m, i, Unlock(txn));
      if q.entries[i].pending > m.entries[i].pending then q else q.(leaving := m.leaving[i := m.leaving[i] + 1])
    case Wake(i) => StepAt(m, i, Notify).(leaving := m.leaving[i := m.leaving[i] + 1])
    case Leave(i) =>
      var q := m.(leaving := m.leaving[i := m.leaving[i] - 1]);
      if Drops(rule, m, i) then q.(table := m.table - {m.items[i]}) else q
  }

  ghost predicate MovesTo(rule: DropRule, m: LockState, moves: seq<Move>, m': LockState)
    decreases |moves|
  {
    if moves == [] then m' == m
    else MayMove(m, moves[0]) && MovesTo(rule, Moved(rule, m, moves[0]), moves[1..], m')
  }

  /** Two granted requests on one item are both shared, unless they are the same request. */
  ghost predicate ItemSafe(m: LockState) {
    forall i, a, j, b ::
      (0 <= i < |m.entries| && 0 <= j < |m.entries| && i < |m.items| && j < |m.items| && m.items[i] == m.items[j] &&
       0 <= a < |m.entries[i].queue| && 0 <= b < |m.entries[j].queue| && (i, a) != (j, b) &&
       m.entries[i].queue[a].granted && m.entries[j].queue[b].granted) ==>
        m.entries[i].queue[a].mode == Shared && m.entries[j].queue[b].mode == Shared
  }

  /** Somebody has to do with the entry: a request is queued, or on its way, or an unlock is not over. */
  predicate Referred(m: LockState, i: nat)
    requires Shaped(m) && i < |m.entries|
  {
    m.entries[i].queue != [] || Arriving(m, i) || m.entries[i].pending > 0 || m.leaving[i] > 0
  }

  /** The move reads or writes entry `i`. */
  predicate Touches(m: LockState, move: Move, i: nat)
    requires MayMove(m, move)
  {
    match move
    case Fetch(_, item, _) => item in m.table && m.table[item] == i
    case Queue(a) => a.entry == i
    case Try(j, _) => j == i
    case Rouse(j, _) => j == i
    case GiveBack(item, _) => m.table[item] == i
    case Wake(j) => j == i
    case Leave(j) => j == i
  }

  // ----- what keeps items safe

  ghost predicate EntrySafe(e: Entry) {
    exists n :: Safe(e, n)
  }

  /** Every entry with a request, queued or on its way, is the one the table has for its item. */
  ghost predicate ManagerOk(m: LockState) {
    && Shaped(m)
    && (forall i :: 0 <= i < |m.entries| ==> EntrySafe(m.entries[i]))
    && (forall i :: 0 <= i < |m.entries| && (m.entries[i].queue != [] || Arriving(m, i)) ==> IsCurrent(m, i))
    && (forall item :: item in m.table ==> m.table[item] < |m.entries| && m.items[m.table[item]] == item)
    && (forall a :: a in m.arrivals ==> a.entry < |m.entries| && a.mode != NoLock)
  }

  /** ... and an entry is in the table exactly as long as somebody has to do with it. */
  ghost predicate Exact(m: LockState) {
    ManagerOk(m) && forall i :: 0 <= i < |m.entries| ==> (Referred(m, i) <==> IsCurrent(m, i))
  }

  lemma StepAtOk(m: LockState, i: nat, step: Step, m': LockState)
    requires ManagerOk(m) && i < |m.entries| && Enabled(m.entries[i], step)
    requires m'.entries == m.entries[i := Apply(Repaired, m.entries[i], step)] && |m'.leaving| == |m.leaving|
    requires m'.items == m.items && m'.table == m.table && m'.arrivals <= m.arrivals
    requires step.Push? || m.entries[i].queue != [] || step.Notify?
    requires step.Push? ==> Arriving(m, i)
    ensures ManagerOk(m')
  {
    hide Apply, Enabled, Safe;
    StepEntry(m.entries[i], step);
    forall j | 0 <= j < |m'.entries|
      ensures EntrySafe(m'.entries[j])
      ensures m'.entries[j].queue != [] || Arriving(m', j) ==> IsCurrent(m', j)
    {
      assert EntrySafe(m.entries[j]);
      assert Arriving(m', j) ==> Arriving(m, j);
    }
  }

  lemma StepEntry(e: Entry, step: Step)
    requires EntrySafe(e) && Enabled(e, step)
    ensures var e' := Apply(Repaired, e, step);
      && EntrySafe(e')
      && (step.Notify? ==> e'.queue == e.queue && e'.pending == e.pending - 1)
      && (step.Push? ==> e'.queue != [] && e'.pending == e.pending)
      && (step.Evaluate? || step.Spurious? ==> |e'.queue| == |e.queue| && e.queue != [] && e'.pending == e.pending)
      && (step.Unlock? ==> e.queue != [] && (e'.pending == e.pending || e'.pending == e.pending + 1))
  {
    var n :| Safe(e, n);
    var n' := StepSafe(e, n, step);
  }

  lemma FetchOk(m: LockState, rule: DropRule, move: Move)
    requires ManagerOk(m) && move.Fetch? && MayMove(m, move)
    ensures ManagerOk(Moved(rule, m, move))
  {
    var m' := Moved(rule, m, move);
    assert Safe(IDLE, 0);
    assert m'.entries[..|m.entries|] == m.entries && m'.items[..|m.items|] == m.items;
    forall i | 0 <= i < |m'.entries|
      ensures EntrySafe(m'.entries[i])
      ensures m'.entries[i].queue != [] || Arriving(m', i) ==> IsCurrent(m', i)
    {
      if i < |m.entries| {
        assert m'.entries[i] == m.entries[i] && m'.items[i] == m.items[i] && EntrySafe(m.entries[i]);
        assert Arriving(m', i) ==> Arriving(m, i) || (move.item in m.table && m.table[move.item] == i);
      }
    }
  }

  lemma MoveOk(m: LockState, move: Move)
    requires ManagerOk(m) && MayMove(m, move)
    ensures ManagerOk(Moved(Guarded, m, move))
  {
    var m' := Moved(Guarded, m, move);
    match move
    case Fetch(_, _, _) => FetchOk(m, Guarded, move);
    case Queue(a) => StepAtOk(m, a.entry, Push(a.txn, a.mode), m');
    case Try(i, txn) => StepAtOk(m, i, Evaluate(txn), m');
    case Rouse(i, txn) => RouseOk(m, i, txn);
    case GiveBack(item, txn) => StepAtOk(m, m.table[item], Unlock(txn), m');
    case Wake(i) => StepAtOk(m, i, Notify, m');
    case Leave(i) => LeaveOk(m, Guarded, i);
  }

  lemma RouseOk(m: LockState, i: nat, txn: nat)
    requires ManagerOk(m) && MayMove(m, Rouse(i, txn))
    ensures ManagerOk(Moved(Guarded, m, Rouse(i, txn)))
  {
    assert EntrySafe(m.entries[i]);
    StepEntry(m.entries[i], Spurious(txn));
    StepAtOk(m, i, Spurious(txn), Moved(Guarded, m, Rouse(i, txn)));
  }

  /** Leaving an entry, under either rule, keeps items safe if nobody is arriving at a dropped entry. */
  lemma LeaveOk(m: LockState, rule: DropRule, i: nat)
    requires ManagerOk(m) && MayMove(m, Leave(i))
    requires Drops(rule, m, i) ==> IsCurrent(m, i) && !Arriving(m, i)
    ensures ManagerOk(Moved(rule, m, Leave(i)))
  {
    var m' := Moved(rule, m, Leave(i));
    forall j | 0 <= j < |m'.entries|
      ensures EntrySafe(m'.entries[j])
      ensures m'.entries[j].queue != [] || Arriving(m', j) ==> IsCurrent(m', j)
    {
      assert EntrySafe(m.entries[j]);
      assert Arriving(m', j) ==> Arriving(m, j);
    }
  }

  lemma OkIsItemSafe(m: LockState)
    requires ManagerOk(m)
    ensures ItemSafe(m)
  {
    forall i, a, j, b |
      0 <= i < |m.entries| && 0 <= j < |m.entries| && i < |m.items| && j < |m.items| && m.items[i] == m.items[j] &&
      0 <= a < |m.entries[i].queue| && 0 <= b < |m.entries[j].queue| && (i, a) != (j, b) &&
      m.entries[i].queue[a].granted && m.entries[j].queue[b].granted
      ensures m.entries[i].queue[a].mode == Shared && m.entries[j].queue[b].mode == Shared
    {
      assert IsCurrent(m, i) && IsCurrent(m, j) && EntrySafe(m.entries[i]);
      var n :| Safe(m.entries[i], n);
    }
  }

  lemma {:induction false} MovesOk(m: LockState, moves: seq<Move>, m': LockState)
    requires ManagerOk(m) && MovesTo(Guarded, m, moves, m')
    ensures ManagerOk(m')
    decreases |moves|
  {
    hide ManagerOk, Moved, MayMove;
    if moves != [] {
      MoveOk(m, moves[0]);
      MovesOk(Moved(Guarded, m, moves[0]), moves[1..], m');
    }
  }

  // ----- nothing dropped is touched, nothing unused is kept

  /** A move that changes one entry, which is current and stays referred to. */
  lemma ExactAt(m: LockState, m': LockState, i: nat)
    requires Exact(m) && ManagerOk(m') && i < |m.entries| && m'.items == m.items && m'.table == m.table
    requires |m'.entries| == |m.entries| && IsCurrent(m, i) && Referred(m', i)
    requires forall j :: 0 <= j < |m.entries| && j != i ==>
               m'.entries[j] == m.entries[j] && m'.leaving[j] == m.leaving[j] && (Arriving(m', j) <==> Arriving(m, j))
    ensures Exact(m')
  {
    forall j | 0 <= j < |m'.entries|
      ensures Referred(m', j) <==> IsCurrent(m', j)
    {
      assert Referred(m, j) <==> IsCurrent(m, j);
    }
  }

  lemma FetchExact(m: LockState, move: Move)
    requires Exact(m) && move.Fetch? && MayMove(m, move)
    ensures Exact(Moved(Guarded, m, move))
  {
    var m' := Moved(Guarded, m, move);
    MoveOk(m, move);
    var at := if move.item in m.table then m.table[move.item] else |m.entries|;
    var a := Arrival(at, move.txn, move.mode);
    assert m'.arrivals == m.arrivals + {a};
    forall j | 0 <= j < |m'.entries|
      ensures Referred(m', j) <==> IsCurrent(m', j)
    {
      if j == at {
        assert a in m'.arrivals;
      } else {
        assert m'.entries[j] == m.entries[j] && m'.items[j] == m.items[j] && m'.leaving[j] == m.leaving[j];
        assert Arriving(m', j) <==> Arriving(m, j);
        assert Referred(m, j) <==> IsCurrent(m, j);
      }
    }
  }

  lemma QueueExact(m: LockState, a: Arrival)
    requires Exact(m) && MayMove(m, Queue(a))
    ensures Exact(Moved(Guarded, m, Queue(a)))
  {
    hide Apply, Enabled;
    var m' := Moved(Guarded, m, Queue(a));
    MoveOk(m, Queue(a));
    assert Arriving(m, a.entry) && EntrySafe(m.entries[a.entry]);
    StepEntry(m.entries[a.entry], Push(a.txn, a.mode));
    forall j | 0 <= j < |m.entries| && j != a.entry
      ensures Arriving(m', j) <==> Arriving(m, j)
    {
      if b :| b in m.arrivals && b.entry == j {
        assert b in m'.arrivals;
      }
    }
    ExactAt(m, m', a.entry);
  }

  lemma LeaveExact(m: LockState, i: nat)
    requires Exact(m) && MayMove(m, Leave(i))
    ensures Exact(Moved(Guarded, m, Leave(i)))
  {
    var m' := Moved(Guarded, m, Leave(i));
    MoveOk(m, Leave(i));
    assert Referred(m, i);
    forall j | 0 <= j < |m'.entries|
      ensures Referred(m', j) <==> IsCurrent(m', j)
    {
      assert Arriving(m', j) <==> Arriving(m, j);
      assert Referred(m, j) <==> IsCurrent(m, j);
    }
  }

  lemma InsideExact(m: LockState, move: Move, i: nat, step: Step)
    requires Exact(m) && MayMove(m, move) && i < |m.entries| && Enabled(m.entries[i], step)
    requires match move
             case Try(j, _) => j == i
             case Rouse(j, _) => j == i
             case Wake(j) => j == i
             case GiveBack(item, _) => m.table[item] == i
             case _ => false
    requires step == match move
                     case Try(_, txn) => Evaluate(txn)
                     case Rouse(_, txn) => Spurious(txn)
                     case GiveBack(_, txn) => Unlock(txn)
                     case _ => Notify
    ensures Exact(Moved(Guarded, m, move))
  {
    hide Apply, Enabled;
    var m' := Moved(Guarded, m, move);
    MoveOk(m, move);
    assert EntrySafe(m.entries[i]);
    StepEntry(m.entries[i], step);
    assert Referred(m, i);
    assert forall j :: 0 <= j < |m.entries| ==> (Arriving(m', j) <==> Arriving(m, j));
    ExactAt(m, m', i);
  }

  lemma MoveExact(m: LockState, move: Move)
    requires Exact(m) && MayMove(m, move)
    ensures Exact(Moved(Guarded, m, move))
  {
    hide Moved, Exact;
    match move
    case Fetch(_, _, _) => FetchExact(m, move);
    case Queue(a) => QueueExact(m, a);
    case Try(i, txn) => InsideExact(m, move, i, Evaluate(txn));
    case Rouse(i, txn) => InsideExact(m, move, i, Spurious(txn));
    case GiveBack(item, txn) => InsideExact(m, move, m.table[item], Unlock(txn));
    case Wake(i) => InsideExact(m, move, i, Notify);
    case Leave(i) => LeaveExact(m, i);
  }

  lemma {:induction false} MovesExact(m: LockState, moves: seq<Move>, m': LockState)
    requires Exact(m) && MovesTo(Guarded, m, moves, m')
    ensures Exact(m')
    decreases |moves|
  {
    hide Exact, Moved, MayMove;
    if moves != [] {
      MoveExact(m, moves[0]);
      MovesExact(Moved(Guarded, m, moves[0]), moves[1..], m');
    }
  }

  /** What a move touches somebody referred to, or the table has. */
  lemma TouchedIsReferred(m: LockState, move: Move, i: nat)
    requires ManagerOk(m) && MayMove(m, move) && Touches(m, move, i)
    ensures i < |m.entries| && (Referred(m, i) || IsCurrent(m, i))
  {
    if move.Try? || move.Rouse? {
      assert EntrySafe(m.entries[i]);
      StepEntry(m.entries[i], if move.Try? then Evaluate(move.txn) else Spurious(move.txn));
    }
  }

  /** With the guard, over all interleavings: no two conflicting locks are held on an item, no step touches an
      entry that was dropped, and no entry is kept that nobody has to do with. */
  lemma GuardedRuns(moves: seq<Move>, m: LockState)
    requires MovesTo(Guarded, EMPTY, moves, m)
    ensures ItemSafe(m) && Shaped(m)
    ensures forall i :: 0 <= i < |m.entries| ==> (Referred(m, i) <==> IsCurrent(m, i))
    ensures forall move, i: nat :: MayMove(m, move) && Touches(m, move, i) ==> i < |m.entries| && IsCurrent(m, i)
  {
    MovesExact(EMPTY, moves, m);
    OkIsItemSafe(m);
    forall move, i: nat | MayMove(m, move) && Touches(m, move, i)
      ensures i < |m.entries| && IsCurrent(m, i)
    {
      TouchedIsReferred(m, move, i);
    }
  }

  // ----- every lock can be had

  /** The move that makes one step of the table's entry for the item. */
  function MoveOf(item: int, i: nat, step: Step): Move
    requires !step.Push?
  {
    match step
    case Evaluate(txn) => Try(i, txn)
    case Unlock(txn) => GiveBack(item, txn)
    case Notify => Wake(i)
    case Spurious(txn) => Rouse(i, txn)
  }

  lemma MoveIsStep(m: LockState, item: int, step: Step)
    requires Shaped(m) && item in m.table && m.table[item] < |m.entries| && !step.Push? && Enabled(m.entries[m.table[item]], step)
    ensures var i, move := m.table[item], MoveOf(item, m.table[item], step);
      && MayMove(m, move)
      && var m' := Moved(Guarded, m, move);
      && Shaped(m') && m'.table == m.table && m'.entries == m.entries[i := Apply(Repaired, m.entries[i], step)]
  {
    hide Apply, Enabled;
  }

  /** What one entry can do, the lock manager can do with it. */
  lemma {:induction false} EntryRuns(m: LockState, item: int, steps: seq<Step>, e: Entry) returns (moves: seq<Move>, m': LockState)
    requires Shaped(m) && item in m.table && m.table[item] < |m.entries|
    requires Runs(Repaired, m.entries[m.table[item]], steps, e) && OwnSteps(steps)
    ensures MovesTo(Guarded, m, moves, m') && m'.table == m.table && |m'.entries| == |m.entries| && m'.entries[m.table[item]] == e
    decreases |steps|
  {
    hide Apply, Enabled, MovesTo, MayMove;
    if steps == [] {
      m' := m;
      moves := Nothing(Guarded, m);
    } else {
      MoveIsStep(m, item, steps[0]);
      var move := MoveOf(item, m.table[item], steps[0]);
      moves, m' := EntryRuns(Moved(Guarded, m, move), item, steps[1..], e);
      moves := Before(Guarded, m, move, moves, m');
    }
  }

  /** A call of `lock` up to its request in the queue, behind all others, with the mode asked for. */
  lemma LockQueues(m: LockState, txn: nat, item: int, mode: Mode) returns (moves: seq<Move>, m': LockState)
    requires Exact(m) && mode != NoLock && (item in m.table ==> !Queued(m.entries[m.table[item]], txn))
    ensures MovesTo(Guarded, m, moves, m') && Exact(m') && item in m'.table
    ensures var q := m'.entries[m'.table[item]].queue;
      && q == (if item in m.table then m.entries[m.table[item]].queue else []) + [Request(txn, mode, false)]
      && Position(q, txn) == |q| - 1
  {
    hide MovesTo;
    var fetch := Fetch(txn, item, mode);
    var m1 := Moved(Guarded, m, fetch);
    MoveExact(m, fetch);
    var i := m1.table[item];
    var a := Arrival(i, txn, mode);
    assert EntrySafe(m1.entries[i]);
    var n :| Safe(m1.entries[i], n);
    PushIs(m1.entries[i], n, txn, mode);
    hide Apply;
    m' := Moved(Guarded, m1, Queue(a));
    MoveExact(m1, Queue(a));
    moves := Nothing(Guarded, m');
    moves := Before(Guarded, m1, Queue(a), moves, m');
    moves := Before(Guarded, m, fetch, moves, m');
  }

  /** With the guard, after every run: a transaction that asks for an item it has not asked for before can come
      to hold it in the mode it asks for, whatever is queued, held or on its way. */
  lemma LockCanBeHad(prefix: seq<Move>, m: LockState, txn: nat, item: int, mode: Mode) returns (moves: seq<Move>, m': LockState)
    requires MovesTo(Guarded, EMPTY, prefix, m) && mode != NoLock
    requires item in m.table && m.table[item] < |m.entries| ==> !Queued(m.entries[m.table[item]], txn)
    ensures MovesTo(Guarded, m, moves, m') && item in m'.table && m'.table[item] < |m'.entries|
    ensures var e := m'.entries[m'.table[item]]; Holding(e, txn) && e.queue[Position(e.queue, txn)].mode == mode
  {
    hide MovesTo, Apply, Enabled;
    ReachedExact(prefix, m);
    var asked, m1 := LockQueues(m, txn, item, mode);
    var i := m1.table[item];
    assert EntrySafe(m1.entries[i]);
    var n :| Safe(m1.entries[i], n);
    hide Exact, Safe, Holding;
    var steps, e := RequestCanBeGranted(m1.entries[i], n, txn);
    moves, m' := EntryRuns(m1, item, steps, e);
    moves := MovesJoin(m, asked, m1, moves, m');
  }

  lemma {:induction false} MovesJoin(m: LockState, first: seq<Move>, m1: LockState, second: seq<Move>, m2: LockState) returns (moves: seq<Move>)
    requires MovesTo(Guarded, m, first, m1) && MovesTo(Guarded, m1, second, m2)
    ensures MovesTo(Guarded, m, moves, m2)
    decreases |first|
  {
    hide Moved, MayMove;
    if first == [] {
      moves := second;
    } else {
      moves := MovesJoin(Moved(Guarded, m, first[0]), first[1..], m1, second, m2);
      moves := Before(Guarded, m, first[0], moves, m2);
    }
  }

  // ----- the drop as coded

  /** A request that comes to an entry with an empty queue is granted at its first try. */
  lemma GrantedAlone(e: Entry, txn: nat, mode: Mode)
    requires EntrySafe(e) && e.queue == [] && mode != NoLock
    ensures Enabled(e, Push(txn, mode))
    ensures var e1 := Apply(Repaired, e, Push(txn, mode));
      Enabled(e1, Evaluate(txn)) && Apply(Repaired, e1, Evaluate(txn)).queue == [Request(txn, mode, true)]
  {
    var n :| Safe(e, n);
    assert txn !in e.asleep;
    var q := [Request(txn, mode, false)];
    assert e.queue + [Request(txn, mode, false)] == q && Position(q, txn) == 0;
    assert q[0 := q[0].(granted := true)] == [Request(txn, mode, true)];
  }

  lemma Before(rule: DropRule, m: LockState, move: Move, moves: seq<Move>, m': LockState) returns (more: seq<Move>)
    requires MayMove(m, move) && MovesTo(rule, Moved(rule, m, move), moves, m')
    ensures MovesTo(rule, m, more, m')
  {
    more := [move] + moves;
    assert more[1..] == moves;
  }

  /** Queue and grant one request on an entry with an empty queue, and go on from there. */
  lemma ThenGranted(rule: DropRule, m: LockState, a: Arrival, moves: seq<Move>, m': LockState) returns (more: seq<Move>)
    requires Shaped(m) && a in m.arrivals && a.entry < |m.entries| && a.mode != NoLock
    requires EntrySafe(m.entries[a.entry]) && m.entries[a.entry].queue == []
    requires MovesTo(rule, Granted(m, a), moves, m')
    ensures MovesTo(rule, m, more, m')
  {
    hide Apply, Enabled, MovesTo;
    GrantedAlone(m.entries[a.entry], a.txn, a.mode);
    var m1 := Moved(rule, m, Queue(a));
    assert Moved(rule, m1, Try(a.entry, a.txn)).entries == Granted(m, a).entries;
    more := Before(rule, m1, Try(a.entry, a.txn), moves, m');
    more := Before(rule, m, Queue(a), more, m');
  }

  /** The state in which that request is granted. */
  ghost function Granted(m: LockState, a: Arrival): LockState
    requires Shaped(m) && a.entry < |m.entries| && a.mode != NoLock
    requires EntrySafe(m.entries[a.entry]) && m.entries[a.entry].queue == []
  {
    GrantedAlone(m.entries[a.entry], a.txn, a.mode);
    var e1 := Apply(Repaired, m.entries[a.entry], Push(a.txn, a.mode));
    m.(entries := m.entries[a.entry := Apply(Repaired, e1, Evaluate(a.txn))], arrivals := m.arrivals - {a})
  }

  /** A request arriving at an entry that has been dropped is granted, and so is an exclusive one on the entry
      that the table makes next. */
  lemma ArrivalBreaks(rule: DropRule, d: LockState, a: Arrival) returns (moves: seq<Move>, m': LockState)
    requires Shaped(d) && a in d.arrivals && a.entry < |d.entries| && a.mode != NoLock
    requires EntrySafe(d.entries[a.entry]) && d.entries[a.entry].queue == [] && d.items[a.entry] !in d.table
    requires Arrival(|d.entries|, 0, Exclusive) !in d.arrivals
    ensures MovesTo(rule, d, moves, m') && !ItemSafe(m')
  {
    hide Apply, Enabled, MovesTo;
    var item, z := d.items[a.entry], |d.entries|;
    GrantedAlone(d.entries[a.entry], a.txn, a.mode);
    var d1 := Granted(d, a);
    var fetch, b := Fetch(0, item, Exclusive), Arrival(z, 0, Exclusive);
    var d2 := Moved(rule, d1, fetch);
    assert Safe(IDLE, 0) by { IdleSafe(); }
    assert EntrySafe(d2.entries[z]) && d2.entries[z] == IDLE && b in d2.arrivals;
    GrantedAlone(IDLE, 0, Exclusive);
    m' := Granted(d2, b);
    moves := Nothing(rule, m');
    moves := ThenGranted(rule, d2, b, moves, m');
    moves := Before(rule, d1, fetch, moves, m');
    moves := ThenGranted(rule, d, a, moves, m');
    assert m'.entries[a.entry].queue[0].granted && m'.entries[z].queue[0].granted && m'.items[z] == m'.items[a.entry];
  }

  lemma IdleSafe()
    ensures Safe(IDLE, 0)
  {
  }

  lemma Nothing(rule: DropRule, m: LockState) returns (moves: seq<Move>)
    ensures MovesTo(rule, m, moves, m)
  {
    moves := [];
  }

  /** In every state that guarded drops have led to: if an unlock that finds the queue empty drops the entry
      without the guard, a later state can have two conflicting locks on the item, even if all further drops
      are guarded, exactly when a call of `lock` is on its way to that entry. */
  lemma DropUnsafeIff(prefix: seq<Move>, m: LockState, i: nat)
    requires MovesTo(Guarded, EMPTY, prefix, m) && MayMove(m, Leave(i)) && m.entries[i].queue == []
    ensures var d := Moved(AsCodedDrop, m, Leave(i));
      (exists moves, m' :: MovesTo(Guarded, d, moves, m') && !ItemSafe(m')) <==> Arriving(m, i)
  {
    hide MovesTo, Apply, Enabled;
    ReachedExact(prefix, m);
    assert Referred(m, i) && IsCurrent(m, i) && EntrySafe(m.entries[i]);
    var d := Moved(AsCodedDrop, m, Leave(i));
    if a :| a in m.arrivals && a.entry == i {
      var moves, m' := ArrivalBreaks(Guarded, d, a);
    } else {
      LeaveOk(m, AsCodedDrop, i);
      forall moves, m' | MovesTo(Guarded, d, moves, m')
        ensures ItemSafe(m')
      {
        MovesOk(d, moves, m');
        OkIsItemSafe(m');
      }
    }
  }

  lemma ReachedExact(prefix: seq<Move>, m: LockState)
    requires MovesTo(Guarded, EMPTY, prefix, m)
    ensures Exact(m)
  {
    MovesExact(EMPTY, prefix, m);
  }

  /** Dropped, and nobody has to do with it any more. */
  ghost predicate Gone(m: LockState, i: nat) {
    ManagerOk(m) && i < |m.entries| && !Referred(m, i) && !IsCurrent(m, i)
  }

  lemma MoveLeavesGone(m: LockState, move: Move, i: nat)
    requires Gone(m, i) && MayMove(m, move)
    ensures Gone(Moved(Guarded, m, move), i) && !Touches(m, move, i)
  {
    hide Apply, Enabled, ManagerOk;
    MoveOk(m, move);
    if Touches(m, move, i) {
      TouchedIsReferred(m, move, i);
      assert false;
    }
    var m' := Moved(Guarded, m, move);
    assert m'.entries[i] == m.entries[i];
    assert Arriving(m', i) ==> Arriving(m, i);
  }

  lemma {:induction false} GoneStays(m: LockState, moves: seq<Move>, m': LockState, i: nat)
    requires Gone(m, i) && MovesTo(Guarded, m, moves, m')
    ensures Gone(m', i)
    decreases |moves|
  {
    hide Gone, Moved, MayMove;
    if moves != [] {
      MoveLeavesGone(m, moves[0], i);
      GoneStays(Moved(Guarded, m, moves[0]), moves[1..], m', i);
    }
  }

  /** Some guarded continuation leads to a step that touches entry `i`. */
  ghost predicate TouchedLater(d: LockState, i: nat) {
    exists moves, m', move :: MovesTo(Guarded, d, moves, m') && MayMove(m', move) && Touches(m', move, i)
  }

  /** In every such state: after the unguarded drop some later step touches the deleted entry exactly when
      a call of `lock` is on its way to it or another call of `unlock` has not left it. */
  lemma DropTouchedIff(prefix: seq<Move>, m: LockState, i: nat)
    requires MovesTo(Guarded, EMPTY, prefix, m) && MayMove(m, Leave(i)) && m.entries[i].queue == []
    ensures TouchedLater(Moved(AsCodedDrop, m, Leave(i)), i) <==>
            Arriving(m, i) || m.entries[i].pending > 0 || m.leaving[i] > 1
  {
    ReachedExact(prefix, m);
    hide MovesTo, Moved, Exact, Touches, TouchedLater;
    if Arriving(m, i) || m.entries[i].pending > 0 || m.leaving[i] > 1 {
      ExactIsOk(m);
      TouchedNext(m, i);
    } else {
      DropCleanly(m, i);
      GoneUntouched(Moved(AsCodedDrop, m, Leave(i)), i);
    }
  }

  lemma TouchedNext(m: LockState, i: nat)
    requires ManagerOk(m) && MayMove(m, Leave(i)) && m.entries[i].queue == []
    requires Arriving(m, i) || m.entries[i].pending > 0 || m.leaving[i] > 1
    ensures TouchedLater(Moved(AsCodedDrop, m, Leave(i)), i)
  {
    hide Moved, ManagerOk, MovesTo;
    var d := Moved(AsCodedDrop, m, Leave(i));
    var none := Nothing(Guarded, d);
    var move := StillTouches(m, d, i);
    assert MovesTo(Guarded, d, none, d) && MayMove(d, move) && Touches(d, move, i);
  }

  lemma GoneUntouched(d: LockState, i: nat)
    requires Gone(d, i)
    ensures !TouchedLater(d, i)
  {
    hide Gone, MovesTo, MayMove;
    forall moves, m', move | MovesTo(Guarded, d, moves, m') && MayMove(m', move)
      ensures !Touches(m', move, i)
    {
      GoneStays(d, moves, m', i);
      MoveLeavesGone(m', move, i);
    }
  }

  lemma ExactIsOk(m: LockState)
    requires Exact(m)
    ensures ManagerOk(m)
  {
  }

  lemma DropCleanly(m: LockState, i: nat)
    requires Exact(m) && MayMove(m, Leave(i)) && m.entries[i].queue == []
    requires !Arriving(m, i) && m.entries[i].pending == 0 && m.leaving[i] == 1
    ensures Gone(Moved(AsCodedDrop, m, Leave(i)), i)
  {
    assert Referred(m, i) && IsCurrent(m, i);
    LeaveOk(m, AsCodedDrop, i);
    assert !Arriving(Moved(AsCodedDrop, m, Leave(i)), i);
  }

  lemma StillTouches(m: LockState, d: LockState, i: nat) returns (move: Move)
    requires ManagerOk(m) && MayMove(m, Leave(i)) && m.entries[i].queue == [] && d == Moved(AsCodedDrop, m, Leave(i))
    requires Arriving(m, i) || m.entries[i].pending > 0 || m.leaving[i] > 1
    ensures MayMove(d, move) && Touches(d, move, i)
  {
    if a :| a in m.arrivals && a.entry == i {
      move := Queue(a);
    } else if m.entries[i].pending > 0 {
      move := Wake(i);
    } else {
      move := Leave(i);
    }
  }

  // ----- a run of the code

  const HELD := Entry([Request(1, Exclusive, true)], Exclusive, 0, {}, 0)
  const FREED := Entry([], NoLock, 0, {}, 1)

  /** Transaction 1 takes the item and gives it back. */
  lemma TakenAndGivenBack()
    ensures EntrySafe(IDLE) && Enabled(IDLE, Push(1, Exclusive))
    ensures var e1 := Apply(Repaired, IDLE, Push(1, Exclusive));
      Enabled(e1, Evaluate(1)) && Apply(Repaired, e1, Evaluate(1)) == HELD
    ensures Enabled(HELD, Unlock(1)) && Apply(Repaired, HELD, Unlock(1)) == FREED
    ensures Enabled(FREED, Notify) && Apply(Repaired, FREED, Notify) == IDLE
  {
    assert Safe(IDLE, 0);
    var q := [Request(1, Exclusive, false)];
    assert Position(q, 1) == 0 && Position(HELD.queue, 1) == 0;
    assert q[0 := q[0].(granted := true)] == HELD.queue;
    assert RemoveRecord(HELD.queue[1..], HELD.queue[0]) == [];
  }

  const A1 := Arrival(0, 1, Exclusive)
  const A2 := Arrival(0, 2, Exclusive)
  const S1 := LockState([IDLE], [7], [0], map[7 := 0], {A1})
  const S2 := LockState([HELD], [7], [0], map[7 := 0], {})
  const S3 := LockState([FREED], [7], [0], map[7 := 0], {})
  const S4 := LockState([IDLE], [7], [1], map[7 := 0], {})
  const S5 := LockState([IDLE], [7], [1], map[7 := 0], {A2})
  const TORN := LockState([IDLE], [7], [0], map[], {A2})

  lemma TakingSteps()
    ensures MayMove(EMPTY, Fetch(1, 7, Exclusive)) && Moved(AsCodedDrop, EMPTY, Fetch(1, 7, Exclusive)) == S1
    ensures EntrySafe(IDLE) && Granted(S1, A1) == S2
    ensures MayMove(S2, GiveBack(7, 1)) && Moved(AsCodedDrop, S2, GiveBack(7, 1)) == S3
  {
    TakenAndGivenBack();
    hide Apply, Enabled, EntrySafe;
  }

  lemma LeavingSteps()
    ensures MayMove(S3, Wake(0)) && Moved(AsCodedDrop, S3, Wake(0)) == S4
    ensures MayMove(S4, Fetch(2, 7, Exclusive)) && Moved(AsCodedDrop, S4, Fetch(2, 7, Exclusive)) == S5
    ensures MayMove(S5, Leave(0)) && Moved(AsCodedDrop, S5, Leave(0)) == TORN
  {
    TakenAndGivenBack();
    hide Apply, Enabled, EntrySafe;
  }

  /** As coded: transaction 1 locks an item, unlocks it and notifies; transaction 2 fetches the entry; the
      unlock finds the queue empty and drops it; and then transactions 2 and 0 hold the item exclusively. */
  lemma CodedDropUnsafe() returns (moves: seq<Move>, m: LockState)
    ensures MovesTo(AsCodedDrop, EMPTY, moves, m) && !ItemSafe(m)
  {
    TakingSteps();
    LeavingSteps();
    hide Moved, MayMove, MovesTo, ItemSafe, Granted, EntrySafe;
    moves, m := ArrivalBreaks(AsCodedDrop, TORN, A2);
    moves := Before(AsCodedDrop, S5, Leave(0), moves, m);
    moves := Before(AsCodedDrop, S4, Fetch(2, 7, Exclusive), moves, m);
    moves := Before(AsCodedDrop, S3, Wake(0), moves, m);
    moves := Before(AsCodedDrop, S2, GiveBack(7, 1), moves, m);
    moves := ThenGranted(AsCodedDrop, S1, A1, moves, m);
    moves := Before(AsCodedDrop, EMPTY, Fetch(1, 7, Exclusive), moves, m);
  }
}
