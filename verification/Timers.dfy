/**
  * The timer queue of network/dispatcher.cc. One-shot timers and the next firing of each
  * repeating timer sit in one map ordered by (deadline, sequence number); a timeout hands
  * the ones due to the thread pool, and a repeating timer puts its next firing back only
  * when the pool gets to run it.
  *
  * Time is a parameter, each call is one step, and the pool may run what it was handed in
  * any order. Three fields record history: `given`, the ids that run_at returned; `handed`,
  * what ever went to the pool; and `born`, the interval of every repeating timer ever made.
  */
module Timers {

  const MAX_TIMEOUTS: int := 0x4000_0000

  datatype Id = Id(at: int, no: int)

  predicate Less(a: Id, b: Id) {
    a.at < b.at || (a.at == b.at && a.no < b.no)
  }

  /** What the pool is asked to run: a callback, or `repeat` on a repeating timer.  `tid` is the id that
    * `run_at` gave the one-shot timer; like the history it is never read. */
  datatype Task = Once(tid: Id, job: int) | Again(rep: Id)

  /** The id that `run_at` returned for the timer behind a task. */
  function TaskId(t: Task): Id {
    match t
    case Once(tid, _) => tid
    case Again(rep) => rep
  }

  datatype Timer = Timer(id: Id, task: Task)

  datatype Repeating = Repeating(at: int, interval: int, timer: Id, job: int)

  datatype State = State(
    timers: seq<Timer>, repeats: map<Id, Repeating>, no: nat, working: bool,
    pool: seq<Task>, given: set<Id>, handed: seq<Timer>, born: map<Id, int>)

  // --- The ordered map --------------------------------------------------------------

  ghost predicate Sorted(q: seq<Timer>) {
    forall i, j :: 0 <= i < j < |q| ==> Less(q[i].id, q[j].id)
  }

  function Insert(q: seq<Timer>, t: Timer): (r: seq<Timer>) {
    if q == [] || Less(t.id, q[0].id) then [t] + q
    else if t.id == q[0].id then [t] + q[1..]
    else [q[0]] + Insert(q[1..], t)
  }

  function Erase(q: seq<Timer>, id: Id): (r: seq<Timer>) {
    if q == [] then [] else if q[0].id == id then q[1..] else [q[0]] + Erase(q[1..], id)
  }

  predicate Pending(q: seq<Timer>, id: Id) {
    exists i :: 0 <= i < |q| && q[i].id == id
  }

  lemma {:induction false} InsertOk(q: seq<Timer>, t: Timer)
    requires Sorted(q) && !Pending(q, t.id)
    ensures Sorted(Insert(q, t))
    ensures forall u :: u in Insert(q, t) <==> u in q || u == t
  {
    if !(q == [] || Less(t.id, q[0].id)) {
      var tail := q[1..];
      assert forall i :: 0 <= i < |tail| ==> tail[i] == q[i + 1];
      InsertOk(tail, t);
      var r := Insert(tail, t);
      assert forall u :: u in q <==> u == q[0] || u in tail;
      assert forall i :: 0 <= i < |r| ==> r[i] in tail || r[i] == t;
      assert Insert(q, t) == [q[0]] + r;
    }
  }

  lemma {:induction false} EraseOk(q: seq<Timer>, id: Id)
    requires Sorted(q)
    ensures Sorted(Erase(q, id))
    ensures forall u :: u in Erase(q, id) <==> u in q && u.id != id
  {
    if q != [] {
      FirstOff(q);
      if q[0].id != id {
        EraseOk(q[1..], id);
        SortedCons(q[0], Erase(q[1..], id));
      }
    }
    hide Sorted;
  }

  lemma FirstOff(q: seq<Timer>)
    requires Sorted(q) && q != []
    ensures Sorted(q[1..])
    ensures forall u :: u in q <==> u == q[0] || u in q[1..]
    ensures forall u :: u in q[1..] ==> u.id != q[0].id && Less(q[0].id, u.id)
  {
    assert q == [q[0]] + q[1..];
    assert forall i :: 0 <= i < |q[1..]| ==> q[1..][i] == q[i + 1];
  }

  lemma SortedCons(t: Timer, q: seq<Timer>)
    requires Sorted(q) && forall u :: u in q ==> Less(t.id, u.id)
    ensures Sorted([t] + q)
  {
    forall i, j | 0 <= i < j < |[t] + q|
      ensures Less(([t] + q)[i].id, ([t] + q)[j].id)
    {
      assert q[j - 1] in q;
    }
  }

  // --- The operations -----------------------------------------------------------------

  /** `run_at`: a repeating timer takes two sequence numbers, one for the id it is cancelled
    * by, which carries the deadline negated, and one for its first firing. */
  function RunAt(s: State, tp: int, job: int, interval: int): (r: (State, Id)) {
    if !s.working then (s.(given := s.given + {Id(0, 0)}), Id(0, 0))
    else if interval != 0 then
      var tid, timer := Id(-tp, s.no + 1), Id(tp, s.no + 2);
      (s.(timers := Insert(s.timers, Timer(timer, Again(tid))),
          repeats := s.repeats[tid := Repeating(tp, interval, timer, job)],
          no := s.no + 2, given := s.given + {tid}, born := s.born[tid := interval]), tid)
    else
      var tid := Id(tp, s.no + 1);
      (s.(timers := Insert(s.timers, Timer(tid, Once(tid, job))), no := s.no + 1,
          given := s.given + {tid}), tid)
  }

  /** `cancel`: the sign of the id's deadline says which map to look in. */
  function Cancel(s: State, tid: Id): (r: (State, bool))
    requires tid.at < 0 ==> tid in s.repeats
  {
    if tid.at < 0 then
      (s.(timers := Erase(s.timers, s.repeats[tid].timer), repeats := s.repeats - {tid}), true)
    else if Pending(s.timers, tid) then (s.(timers := Erase(s.timers, tid)), true)
    else (s, false)
  }

  /** The first timer goes to the pool. */
  function Hand(s: State): (s': State)
    requires s.timers != []
  {
    s.(timers := s.timers[1..], pool := s.pool + [s.timers[0].task],
       handed := s.handed + [s.timers[0]])
  }

  function HandleTimeout(s: State, now: int): (s': State)
    decreases |s.timers|
  {
    if s.timers != [] && Less(s.timers[0].id, Id(now, MAX_TIMEOUTS))
    then HandleTimeout(Hand(s), now) else s
  }

  /** `repeat`: the next firing is one interval after the last one's deadline. */
  function Repeat(s: State, rep: Id): (s': State)
    requires rep in s.repeats
  {
    var r := s.repeats[rep];
    var timer := Id(r.at + r.interval, s.no + 1);
    s.(timers := Insert(s.timers, Timer(timer, Again(rep))), no := s.no + 1,
       repeats := s.repeats[rep := r.(at := r.at + r.interval, timer := timer)])
  }

  function Take(s: State, k: nat): (s': State)
    requires k < |s.pool|
  {
    s.(pool := s.pool[..k] + s.pool[k + 1..])
  }

  // --- Timeouts -------------------------------------------------------------------------

  /** How many timers at the front a timeout at `now` hands over. */
  function DueCount(q: seq<Timer>, now: int): (n: nat)
    ensures n <= |q|
  {
    if q != [] && Less(q[0].id, Id(now, MAX_TIMEOUTS)) then 1 + DueCount(q[1..], now) else 0
  }

  lemma {:induction false} HandleTimeoutIs(s: State, now: int)
    ensures
      var n := DueCount(s.timers, now);
      HandleTimeout(s, now) == s.(timers := s.timers[n..], pool := s.pool + Tasks(s.timers[..n]),
                                  handed := s.handed + s.timers[..n])
    decreases |s.timers|
  {
    var n, q := DueCount(s.timers, now), s.timers;
    if q != [] && Less(q[0].id, Id(now, MAX_TIMEOUTS)) {
      HandleTimeoutIs(Hand(s), now);
      FrontIs(q, n, s.pool, s.handed);
    } else {
      assert q[..0] == [] && q[0..] == q;
      assert s.pool + Tasks(q[..0]) == s.pool;
      assert s.handed + q[..0] == s.handed;
    }
  }

  lemma FrontIs(q: seq<Timer>, n: nat, pool: seq<Task>, handed: seq<Timer>)
    requires 0 < n <= |q|
    ensures q[1..][n - 1..] == q[n..]
    ensures pool + [q[0].task] + Tasks(q[1..][..n - 1]) == pool + Tasks(q[..n])
    ensures handed + [q[0]] + q[1..][..n - 1] == handed + q[..n]
  {
    assert q[..n] == [q[0]] + q[1..][..n - 1];
    TasksSplit(q[0], q[1..][..n - 1]);
  }

  function Tasks(q: seq<Timer>): (r: seq<Task>) {
    if q == [] then [] else [q[0].task] + Tasks(q[1..])
  }

  lemma TasksSplit(t: Timer, q: seq<Timer>)
    ensures Tasks([t] + q) == [t.task] + Tasks(q)
  {
    assert ([t] + q)[1..] == q;
  }

  /** The queue being in order, the ones in front are all that are below the bound. */
  lemma {:induction false} DueCountIs(q: seq<Timer>, now: int)
    requires Sorted(q)
    ensures forall i :: 0 <= i < |q| ==>
              (i < DueCount(q, now) <==> Less(q[i].id, Id(now, MAX_TIMEOUTS)))
  {
    if q != [] && Less(q[0].id, Id(now, MAX_TIMEOUTS)) {
      DueCountIs(q[1..], now);
      forall i | 0 <= i < |q|
        ensures i < DueCount(q, now) <==> Less(q[i].id, Id(now, MAX_TIMEOUTS))
      {
        if i > 0 { assert q[i] == q[1..][i - 1]; }
      }
    }
  }

  /** A timeout hands over a front of the queue, so in (deadline, number) order. That front
    * is exactly what is due by `now` exactly when no timer set for `now` itself has a
    * sequence number of 2^30 or more. */
  lemma HandsOverDueIff(s: State, now: int)
    requires Sorted(s.timers)
    ensures
      var n := DueCount(s.timers, now);
      && Sorted(s.timers[..n]) && Sorted(s.timers[n..])
      && HandleTimeout(s, now).timers == s.timers[n..]
      && HandleTimeout(s, now).handed == s.handed + s.timers[..n]
      && ((forall i :: 0 <= i < |s.timers| ==> (i < n <==> s.timers[i].id.at <= now)) <==>
          (forall i :: 0 <= i < |s.timers| && s.timers[i].id.at == now ==>
             s.timers[i].id.no < MAX_TIMEOUTS))
  {
    HandleTimeoutIs(s, now);
    DueCountIs(s.timers, now);
    var n, q := DueCount(s.timers, now), s.timers;
    if i :| 0 <= i < |q| && q[i].id.at == now && q[i].id.no >= MAX_TIMEOUTS {
      assert !(i < n <==> q[i].id.at <= now);
    }
  }
}
