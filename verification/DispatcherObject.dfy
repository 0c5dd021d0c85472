/**
  * The dispatcher's timer fields as an object (network/dispatcher.cc): every method does what
  * the corresponding function of Timers says and keeps the invariant of TimerRuns.
  */
module DispatcherObject {
  import opened Timers
  import opened TimerRuns
  import opened TimerCalls

  class Dispatcher {
    var working: bool
    var timeSeq: nat
    var timers: seq<Timer>
    var repeatable: map<Id, Repeating>
    var pool: seq<Task>
    ghost var given: set<Id>
    ghost var handed: seq<Timer>
    ghost var born: map<Id, int>

    ghost function View(): (s: State)
      reads this
    {
      State(timers, repeatable, timeSeq, working, pool, given, handed, born)
    }

    constructor ()
      ensures View() == Initial() && Inv(View())
    {
      working, timeSeq, timers, repeatable, pool := true, 0, [], map[], [];
      given, handed, born := {}, [], map[];
    }

    method SetTimer(tp: int, job: int, interval: int) returns (tid: Id)
      requires Inv(View())
      modifies this
      ensures (View(), tid) == RunAt(old(View()), tp, job, interval)
      ensures Inv(View())
      ensures old(!working) ==> tid == Id(0, 0) && timers == old(timers) && repeatable == old(repeatable)
    {
      ghost var was := View();
      hide Inv, Insert;
      if !working {
        tid := Id(0, 0);
      } else if interval != 0 {
        timeSeq := timeSeq + 1;
        tid := Id(-tp, timeSeq);
        timeSeq := timeSeq + 1;
        var timer := Id(tp, timeSeq);
        repeatable := repeatable[tid := Repeating(tp, interval, timer, job)];
        timers := Insert(timers, Timer(timer, Again(tid)));
        born := born[tid := interval];
      } else {
        timeSeq := timeSeq + 1;
        tid := Id(tp, timeSeq);
        timers := Insert(timers, Timer(tid, Once(tid, job)));
      }
      given := given + {tid};
      assert (View(), tid) == RunAt(was, tp, job, interval);
      RunAtKeeps(was, tp, job, interval);
    }

    method CancelTimer(tid: Id) returns (found: bool)
      requires Inv(View()) && Allowed(View(), DoCancel(tid))
      modifies this
      ensures (View(), found) == Cancel(old(View()), tid)
      ensures Inv(View())
    {
      CancelKeeps(View(), tid);
      hide Inv;
      if tid.at < 0 {
        timers := Erase(timers, repeatable[tid].timer);
        repeatable := repeatable - {tid};
        found := true;
      } else if Pending(timers, tid) {
        timers := Erase(timers, tid);
        found := true;
      } else {
        found := false;
      }
    }

    method OnTimeout(now: int)
      requires Inv(View())
      modifies this
      ensures View() == HandleTimeout(old(View()), now)
      ensures Inv(View())
      ensures timers == [] || !Less(timers[0].id, Id(now, MAX_TIMEOUTS))
    {
      TimeoutKeeps(View(), now);
      hide Inv;
      while timers != [] && Less(timers[0].id, Id(now, MAX_TIMEOUTS))
        invariant HandleTimeout(View(), now) == old(HandleTimeout(View(), now))
        decreases |timers|
      {
        pool := pool + [timers[0].task];
        handed := handed + [timers[0]];
        timers := timers[1..];
      }
    }

    /** A pool thread takes what is at place `k`; `fired` is the callback it runs, once the next
      * firing of a repeating timer is in the queue. */
    method Execute(k: nat) returns (fired: int)
      requires Inv(View()) && Allowed(View(), DoExecute(k))
      modifies this
      ensures View() == Step(old(View()), DoExecute(k))
      ensures Inv(View())
      ensures fired == Callback(old(View()), k)
    {
      ExecuteKeeps(View(), k);
      hide Inv, Insert;
      var task := pool[k];
      pool := pool[..k] + pool[k + 1..];
      match task
      case Once(_, job) => fired := job;
      case Again(rep) => fired := RepeatTask(rep);
    }

    method RepeatTask(rep: Id) returns (fired: int)
      requires rep in repeatable
      modifies this
      ensures View() == Repeat(old(View()), rep)
      ensures fired == old(repeatable)[rep].job
    {
      var r := repeatable[rep];
      timeSeq := timeSeq + 1;
      var timer := Id(r.at + r.interval, timeSeq);
      repeatable := repeatable[rep := r.(at := r.at + r.interval, timer := timer)];
      timers := Insert(timers, Timer(timer, Again(rep)));
      fired := r.job;
    }
  }
}
