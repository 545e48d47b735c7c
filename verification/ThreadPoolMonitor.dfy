/** The fields of tpool_t and the code that runs under work_mutex: the linked work queue with its
    first and last pointers, the working count and the stop flag. Each method is one critical
    section of the state machine in ThreadPool and is proved to act on the shared fields exactly as
    the machine's step does. */
module ThreadPoolMonitor {
  import opened ThreadPool

  class Work {
    const job: Job
    var next: Work?

    constructor (job: Job)
      ensures this.job == job && next == null
    {
      this.job := job;
      next := null;
    }
  }

  ghost function Jobs(ws: seq<Work>): seq<Job> {
    seq(|ws|, i requires 0 <= i < |ws| => ws[i].job)
  }

  datatype CheckOutcome = Sleep | Exit | Start(work: Work)

  class TPool {
    var first: Work?
    var last: Work?
    var workingCnt: nat
    var stop: bool
    ghost var spine: seq<Work>

    ghost predicate Valid()
      reads this, spine
    {
      && (forall i, j :: 0 <= i < j < |spine| ==> spine[i] != spine[j])
      && first == (if spine == [] then null else spine[0])
      && last == (if spine == [] then null else spine[|spine| - 1])
      && (forall i, j :: 0 <= i < |spine| && j == i + 1 < |spine| ==> spine[i].next == spine[j])
      && (last != null ==> last.next == null)
    }

    /** The shared state that the machine sees. */
    ghost function Mon(): Monitor
      reads this
    {
      Monitor(Jobs(spine), workingCnt, stop)
    }

    constructor ()
      ensures Valid() && Mon() == Monitor([], 0, false)
    {
      first, last, workingCnt, stop, spine := null, null, 0, false, [];
    }

    method AddWork(job: Job) returns (added: bool)
      requires Valid()
      modifies this, spine
      ensures Valid()
      ensures added <==> !old(stop)
      ensures Mon() == if added then Enqueued(old(Mon()), job) else old(Mon())
      ensures added ==> |spine| > 0 && fresh(last) && spine == old(spine) + [last]
    {
      var work := new Work(job);
      if stop {
        return false;
      }
      if first == null {
        first := work;
      } else {
        last.next := work;
      }
      last := work;
      spine := spine + [work];
      added := true;
    }

    /** tpool_work_get: unlink the oldest work item. */
    method WorkGet() returns (work: Work?)
      requires Valid()
      modifies this, spine
      ensures Valid()
      ensures work == old(first)
      ensures work == null ==> Mon() == old(Mon())
      ensures work != null ==>
                && spine == old(spine)[1..] && work.next == null
                && Mon() == old(Mon()).(queue := old(Mon()).queue[1..])
                && work.job == old(Mon()).queue[0]
    {
      work := first;
      if work == null {
        return;
      }
      first := work.next;
      if first == null {
        last := null;
      }
      work.next := null;
      spine := spine[1..];
    }

    /** A worker at the top of its loop, holding the lock: sleep, leave, or take a job. */
    method WorkerCheck() returns (outcome: CheckOutcome)
      requires Valid()
      modifies this, spine
      ensures Valid()
      ensures outcome.Sleep? <==> old(first) == null && !old(stop)
      ensures outcome.Exit? <==> old(stop)
      ensures !outcome.Start? ==> Mon() == old(Mon())
      ensures outcome.Start? ==>
                old(Mon()).queue != [] && Mon() == Dequeued(old(Mon())) && outcome.work.job == old(Mon()).queue[0]
    {
      if first == null && !stop {
        return Sleep;
      }
      if stop {
        return Exit;
      }
      var work := WorkGet();
      workingCnt := workingCnt + 1;
      outcome := Start(work);
    }

    /** A worker back under the lock after its job; the answer says whether waiters are woken. */
    method WorkerFinish() returns (wakeWaiters: bool)
      requires Valid()
      modifies this
      ensures Valid() && spine == old(spine)
      ensures Mon() == JobDone(old(Mon()))
      ensures wakeWaiters <==> Quiet(Mon())
    {
      if 0 < workingCnt {
        workingCnt := workingCnt - 1;
      }
      wakeWaiters := first == null && workingCnt == 0;
    }

    /** The loop test of tpool_wait. */
    method WaitCheck() returns (done: bool)
      requires Valid()
      ensures done <==> Quiet(Mon())
    {
      done := !(first != null || workingCnt != 0);
    }

    /** tpool_destroy up to the unlock; freed lists the work items handed back, in order. */
    method Discard() returns (ghost freed: seq<Work>)
      requires Valid()
      modifies this
      ensures Valid()
      ensures Mon() == Stopped(old(Mon()))
      ensures freed == old(spine)
    {
      stop := true;
      freed := [];
      var work := first;
      while work != null
        invariant |freed| <= |spine| && freed == spine[..|freed|]
        invariant work == if |freed| < |spine| then spine[|freed|] else null
        decreases |spine| - |freed|
      {
        var next := work.next;
        freed := freed + [work];
        work := next;
      }
      first, last, spine := null, null, [];
    }
  }
}
