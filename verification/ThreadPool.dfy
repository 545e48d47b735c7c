/** The thread pool as a state machine over the critical sections of its threads.

    Every step is one stretch of code executed under work_mutex, or the call of a job outside it.
    The sets of workers and of threads calling tpool_wait are unbounded; a condition variable is
    the set of its sleepers; sleepers may wake spuriously at any moment. */
module ThreadPool {
  import opened ByteStrings

  type Tid = nat

  /** The function pointer and argument of one work item. */
  type Job = nat

  /** The shared fields that work_mutex protects. */
  datatype Monitor = Monitor(queue: seq<Job>, working: nat, stop: bool)

  /** tpool_add_work under the lock, when stop is not set. */
  function Enqueued(m: Monitor, job: Job): Monitor { m.(queue := m.queue + [job]) }

  /** tpool_work_get followed by the increment of working_cnt. */
  function Dequeued(m: Monitor): Monitor
    requires m.queue != []
  {
    m.(queue := m.queue[1..], working := m.working + 1)
  }

  /** The guarded decrement of working_cnt after a job. */
  function JobDone(m: Monitor): Monitor {
    if m.working > 0 then m.(working := m.working - 1) else m
  }

  predicate Quiet(m: Monitor) { m.queue == [] && m.working == 0 }

  /** tpool_destroy under the lock: stop is set and the queue is thrown away. */
  function Stopped(m: Monitor): Monitor { m.(queue := [], stop := true) }

  /** Where a worker is: about to hold the lock at the queue check, asleep on work_cond, inside its
      job, about to take the lock after the job, or gone. A ticket is the position of the job in
      the order in which jobs were started. */
  datatype WorkerPc = AtCheck | Asleep | Running(ticket: nat) | Finishing(ticket: nat) | Exited

  /** Where a thread inside tpool_wait is. */
  datatype WaiterPc = Checking | Sleeping | Returned

  datatype Pool = Pool(
    mon: Monitor,
    workers: map<Tid, WorkerPc>,
    waiters: map<Tid, WaiterPc>,
    accepted: seq<Job>,   // history: every job for which tpool_add_work answered true
    started: seq<Job>,    // history: every job handed to a worker
    finished: set<nat>,   // history: tickets whose job has returned
    discarded: seq<Job>)  // history: what tpool_destroy threw away

  datatype Event =
    | AddWork(job: Job, woken: Option<Tid>)
    | WorkerCheck(w: Tid)
    | JobReturns(w: Tid)
    | WorkerFinish(w: Tid)
    | WorkerSpurious(w: Tid)
    | WaitCall(t: Tid)
    | WaitCheck(t: Tid)
    | WaitSpurious(t: Tid)
    | Destroy

  ghost function Sleepers(p: Pool): set<Tid> { set w | w in p.workers && p.workers[w].Asleep? }

  ghost function Heading(p: Pool): set<Tid> { set w | w in p.workers && p.workers[w].AtCheck? }

  predicate Busy(pc: WorkerPc) { pc.Running? || pc.Finishing? }

  ghost function BusyWorkers(p: Pool): set<Tid> { set w | w in p.workers && Busy(p.workers[w]) }

  /** What may happen next. A signal on work_cond with sleepers present wakes one of them. */
  ghost predicate Enabled(p: Pool, e: Event) {
    match e
    case AddWork(_, woken) =>
      if p.mon.stop || Sleepers(p) == {} then woken.None?
      else woken.Some? && woken.value in Sleepers(p)
    case WorkerCheck(w) => w in p.workers && p.workers[w].AtCheck?
    case JobReturns(w) => w in p.workers && p.workers[w].Running?
    case WorkerFinish(w) => w in p.workers && p.workers[w].Finishing?
    case WorkerSpurious(w) => w in p.workers && p.workers[w].Asleep?
    case WaitCall(t) => t !in p.waiters || p.waiters[t].Returned?
    case WaitCheck(t) => t in p.waiters && p.waiters[t].Checking?
    case WaitSpurious(t) => t in p.waiters && p.waiters[t].Sleeping?
    case Destroy => !p.mon.stop
  }

  function WakeAllWorkers(ws: map<Tid, WorkerPc>): map<Tid, WorkerPc> {
    map w | w in ws :: if ws[w].Asleep? then AtCheck else ws[w]
  }

  function WakeAllWaiters(ts: map<Tid, WaiterPc>): map<Tid, WaiterPc> {
    map t | t in ts :: if ts[t].Sleeping? then Checking else ts[t]
  }

  /** One pass of a worker from the queue check to the unlock (or to the sleep). */
  function CheckStep(p: Pool, w: Tid): Pool {
    if p.mon.stop then p.(workers := p.workers[w := Exited])
    else if p.mon.queue == [] then p.(workers := p.workers[w := Asleep])
    else p.(mon := Dequeued(p.mon),
            workers := p.workers[w := Running(|p.started|)],
            started := p.started + [p.mon.queue[0]])
  }

  /** A worker back under the lock after its job: decrement, and wake the waiters if all is quiet. */
  function FinishStep(p: Pool, w: Tid): Pool {
    var mon := JobDone(p.mon);
    p.(mon := mon,
       workers := p.workers[w := AtCheck],
       waiters := if Quiet(mon) then WakeAllWaiters(p.waiters) else p.waiters)
  }

  ghost function Next(p: Pool, e: Event): Pool
    requires Enabled(p, e)
  {
    match e
    case AddWork(job, woken) =>
      if p.mon.stop then p
      else p.(mon := Enqueued(p.mon, job),
              accepted := p.accepted + [job],
              workers := if woken.Some? then p.workers[woken.value := AtCheck] else p.workers)
    case WorkerCheck(w) => CheckStep(p, w)
    case JobReturns(w) =>
      var i := p.workers[w].ticket;
      p.(workers := p.workers[w := Finishing(i)], finished := p.finished + {i})
    case WorkerFinish(w) => FinishStep(p, w)
    case WorkerSpurious(w) => p.(workers := p.workers[w := AtCheck])
    case WaitCall(t) => p.(waiters := p.waiters[t := Checking])
    case WaitCheck(t) => p.(waiters := p.waiters[t := if Quiet(p.mon) then Returned else Sleeping])
    case WaitSpurious(t) => p.(waiters := p.waiters[t := Checking])
    case Destroy =>
      p.(mon := Stopped(p.mon),
         discarded := p.discarded + p.mon.queue,
         workers := WakeAllWorkers(p.workers),
         waiters := WakeAllWaiters(p.waiters))
  }

  /** tpool_create: every thread starts at the queue check. */
  ghost predicate Init(p: Pool) {
    && p.mon == Monitor([], 0, false)
    && (forall w :: w in p.workers ==> p.workers[w].AtCheck?)
    && p.waiters == map[]
    && p.accepted == [] && p.started == [] && p.finished == {} && p.discarded == []
  }

  // ---------------------------------------------------------------- invariants

  /** working_cnt counts exactly the workers between dequeue and decrement. */
  ghost predicate CountExact(p: Pool) { p.mon.working == |BusyWorkers(p)| }

  /** No lost wake-ups on work_cond. */
  ghost predicate WorkersAwake(p: Pool) {
    && (p.mon.stop ==> Sleepers(p) == {})
    && (!p.mon.stop && Sleepers(p) != {} ==> |p.mon.queue| <= |Heading(p)|)
  }

  /** No lost wake-ups on working_cond. */
  ghost predicate WaitersAwake(p: Pool) {
    Quiet(p.mon) ==> forall t :: t in p.waiters ==> !p.waiters[t].Sleeping?
  }

  /** Accepted work is, in order, the started work, then what was discarded, then the queue. */
  ghost predicate Conserved(p: Pool) {
    && p.accepted == p.started + p.discarded + p.mon.queue
    && (p.mon.stop ==> p.mon.queue == [])
    && (!p.mon.stop ==> p.discarded == [])
  }

  /** Each started job is either finished or in the hands of exactly one worker. */
  ghost predicate Tickets(p: Pool) {
    && (forall i :: i in p.finished ==> i < |p.started|)
    && (forall w :: w in p.workers && Busy(p.workers[w]) ==> p.workers[w].ticket < |p.started|)
    && (forall w :: w in p.workers && p.workers[w].Running? ==> p.workers[w].ticket !in p.finished)
    && (forall w :: w in p.workers && p.workers[w].Finishing? ==> p.workers[w].ticket in p.finished)
    && (forall v, w | v in p.workers && w in p.workers && Busy(p.workers[v]) && Busy(p.workers[w]) ::
          p.workers[v].ticket == p.workers[w].ticket ==> v == w)
    && (forall i :: 0 <= i < |p.started| && i !in p.finished ==> Holder(p, i))
  }

  ghost predicate Holder(p: Pool, i: nat) {
    exists w :: w in p.workers && p.workers[w] == Running(i)
  }

  ghost predicate NoEarlyExit(p: Pool) {
    !p.mon.stop ==> forall w :: w in p.workers ==> !p.workers[w].Exited?
  }

  /** The invariants about counters and sleepers. */
  ghost predicate CountInv(p: Pool) {
    CountExact(p) && WorkersAwake(p) && WaitersAwake(p) && NoEarlyExit(p)
  }

  ghost predicate Inv(p: Pool) { CountInv(p) && Conserved(p) && Tickets(p) }

  lemma MoreHeading(p: Pool, q: Pool, w: Tid)
    requires w in p.workers && !p.workers[w].AtCheck? && q.workers == p.workers[w := AtCheck]
    ensures |Heading(q)| == |Heading(p)| + 1
  {
    assert Heading(q) == Heading(p) + {w} && w !in Heading(p);
  }

  /** Tickets stay in order when no job starts or returns and no running worker changes. */
  lemma TicketsKept(p: Pool, q: Pool)
    requires Tickets(p) && q.started == p.started && q.finished == p.finished
    requires forall w :: w in q.workers && Busy(q.workers[w]) ==> w in p.workers && p.workers[w] == q.workers[w]
    requires forall w :: w in p.workers && p.workers[w].Running? ==> w in q.workers && q.workers[w] == p.workers[w]
    ensures Tickets(q)
  {
    forall i | 0 <= i < |q.started| && i !in q.finished
      ensures Holder(q, i)
    {
      assert Holder(p, i);
      var w :| w in p.workers && p.workers[w] == Running(i);
      assert q.workers[w] == Running(i);
    }
  }

  lemma AddWorkCounts(p: Pool, e: Event)
    requires CountInv(p) && e.AddWork? && Enabled(p, e)
    ensures CountInv(Next(p, e))
  {
    if e.woken.Some? {
      AddWorkWakes(p, e.job, e.woken.value);
    } else {
      var q := Next(p, e);
      assert Sleepers(q) == Sleepers(p) && Heading(q) == Heading(p) && BusyWorkers(q) == BusyWorkers(p);
    }
  }

  lemma AddWorkWakes(p: Pool, job: Job, w: Tid)
    requires CountInv(p) && Enabled(p, AddWork(job, Some(w)))
    ensures CountInv(Next(p, AddWork(job, Some(w))))
  {
    var q := Next(p, AddWork(job, Some(w)));
    MoreHeading(p, q, w);
    assert w in Sleepers(p) && BusyWorkers(q) == BusyWorkers(p);
  }

  lemma WorkerStartCounts(p: Pool, w: Tid)
    requires CountInv(p) && Enabled(p, WorkerCheck(w)) && !p.mon.stop && p.mon.queue != []
    ensures CountInv(CheckStep(p, w))
  {
    var q := CheckStep(p, w);
    assert w in Heading(p) && w !in BusyWorkers(p);
    assert Heading(q) == Heading(p) - {w};
    assert BusyWorkers(q) == BusyWorkers(p) + {w};
    assert Sleepers(q) == Sleepers(p);
  }

  lemma WorkerCheckCounts(p: Pool, w: Tid)
    requires CountInv(p) && Enabled(p, WorkerCheck(w))
    ensures CountInv(Next(p, WorkerCheck(w)))
  {
    var q := Next(p, WorkerCheck(w));
    if !p.mon.stop && p.mon.queue != [] {
      WorkerStartCounts(p, w);
    } else {
      assert BusyWorkers(q) == BusyWorkers(p);
      if p.mon.stop {
        assert Sleepers(q) == Sleepers(p);
      }
    }
  }

  lemma WorkerCheckTickets(p: Pool, w: Tid)
    requires Tickets(p) && Enabled(p, WorkerCheck(w))
    ensures Tickets(Next(p, WorkerCheck(w)))
  {
    var q := Next(p, WorkerCheck(w));
    if q.workers[w].Running? {
      forall i | 0 <= i < |q.started| && i !in q.finished
        ensures Holder(q, i)
      {
        if i == |p.started| {
          assert q.workers[w] == Running(i);
        } else {
          assert Holder(p, i);
          var v :| v in p.workers && p.workers[v] == Running(i);
          assert q.workers[v] == Running(i);
        }
      }
    } else {
      TicketsKept(p, q);
    }
  }

  lemma JobReturnsCounts(p: Pool, w: Tid)
    requires CountInv(p) && Enabled(p, JobReturns(w))
    ensures CountInv(Next(p, JobReturns(w)))
  {
    var q := Next(p, JobReturns(w));
    assert BusyWorkers(q) == BusyWorkers(p) && Heading(q) == Heading(p) && Sleepers(q) == Sleepers(p);
  }

  lemma JobReturnsTickets(p: Pool, w: Tid)
    requires Tickets(p) && Enabled(p, JobReturns(w))
    ensures Tickets(Next(p, JobReturns(w)))
  {
    var q := Next(p, JobReturns(w));
    forall i | 0 <= i < |q.started| && i !in q.finished
      ensures Holder(q, i)
    {
      assert Holder(p, i);
      var v :| v in p.workers && p.workers[v] == Running(i);
      assert q.workers[v] == Running(i);
    }
  }

  /** The guard around the decrement never skips it. */
  lemma DecrementNeverSkipped(p: Pool, w: Tid)
    requires CountInv(p) && Enabled(p, WorkerFinish(w))
    ensures p.mon.working > 0 && Next(p, WorkerFinish(w)).mon.working == p.mon.working - 1
  {
    assert w in BusyWorkers(p);
  }

  lemma WorkerFinishWorkers(p: Pool, w: Tid)
    requires CountExact(p) && WorkersAwake(p) && p.mon.working > 0 && Enabled(p, WorkerFinish(w))
    ensures CountExact(FinishStep(p, w)) && WorkersAwake(FinishStep(p, w))
  {
    var q := FinishStep(p, w);
    MoreHeading(p, q, w);
    assert w in BusyWorkers(p) && BusyWorkers(q) == BusyWorkers(p) - {w};
    assert Sleepers(q) == Sleepers(p);
  }

  lemma WorkerFinishCounts(p: Pool, w: Tid)
    requires CountInv(p) && Enabled(p, WorkerFinish(w))
    ensures CountInv(Next(p, WorkerFinish(w)))
  {
    DecrementNeverSkipped(p, w);
    WorkerFinishWorkers(p, w);
  }

  lemma WorkerSpuriousCounts(p: Pool, w: Tid)
    requires CountInv(p) && Enabled(p, WorkerSpurious(w))
    ensures CountInv(Next(p, WorkerSpurious(w)))
  {
    var q := Next(p, WorkerSpurious(w));
    MoreHeading(p, q, w);
    assert Sleepers(q) == Sleepers(p) - {w};
    assert BusyWorkers(q) == BusyWorkers(p);
  }

  lemma WaiterCounts(p: Pool, e: Event)
    requires CountInv(p) && Enabled(p, e) && (e.WaitCall? || e.WaitCheck? || e.WaitSpurious?)
    ensures CountInv(Next(p, e))
  {
    var q := Next(p, e);
    assert Sleepers(q) == Sleepers(p) && Heading(q) == Heading(p) && BusyWorkers(q) == BusyWorkers(p);
  }

  lemma DestroyCounts(p: Pool)
    requires CountInv(p) && Enabled(p, Destroy)
    ensures CountInv(Next(p, Destroy))
  {
    var q := Next(p, Destroy);
    assert BusyWorkers(q) == BusyWorkers(p);
  }

  lemma StepConserves(p: Pool, e: Event)
    requires Conserved(p) && Enabled(p, e)
    ensures Conserved(Next(p, e))
  {
    var q := Next(p, e);
    if e.WorkerCheck? && !p.mon.stop && p.mon.queue != [] {
      assert p.mon.queue == [p.mon.queue[0]] + p.mon.queue[1..];
    }
    assert q.accepted == q.started + q.discarded + q.mon.queue;
  }

  lemma StepKeepsInv(p: Pool, e: Event)
    requires Inv(p) && Enabled(p, e)
    ensures Inv(Next(p, e))
  {
    StepConserves(p, e);
    match e
    case AddWork(_, _) => AddWorkCounts(p, e); TicketsKept(p, Next(p, e));
    case WorkerCheck(w) => WorkerCheckCounts(p, w); WorkerCheckTickets(p, w);
    case JobReturns(w) => JobReturnsCounts(p, w); JobReturnsTickets(p, w);
    case WorkerFinish(w) => WorkerFinishCounts(p, w); TicketsKept(p, Next(p, e));
    case WorkerSpurious(w) => WorkerSpuriousCounts(p, w); TicketsKept(p, Next(p, e));
    case WaitCall(_) => WaiterCounts(p, e); TicketsKept(p, Next(p, e));
    case WaitCheck(_) => WaiterCounts(p, e); TicketsKept(p, Next(p, e));
    case WaitSpurious(_) => WaiterCounts(p, e); TicketsKept(p, Next(p, e));
    case Destroy => DestroyCounts(p); TicketsKept(p, Next(p, e));
  }

  // ---------------------------------------------------------------- whole runs

  /** es can happen one after another starting in p. */
  ghost predicate Possible(p: Pool, es: seq<Event>)
    decreases |es|
  {
    es == [] || (Enabled(p, es[0]) && Possible(Next(p, es[0]), es[1..]))
  }

  ghost function After(p: Pool, es: seq<Event>): Pool
    requires Possible(p, es)
    decreases |es|
  {
    if es == [] then p else After(Next(p, es[0]), es[1..])
  }

  lemma {:induction false} RunKeepsInv(p: Pool, es: seq<Event>)
    requires Inv(p) && Possible(p, es)
    ensures Inv(After(p, es))
    decreases |es|
  {
    if es != [] {
      StepKeepsInv(p, es[0]);
      RunKeepsInv(Next(p, es[0]), es[1..]);
    }
  }

  lemma InitEstablishesInv(p: Pool)
    requires Init(p)
    ensures Inv(p)
  {
    assert BusyWorkers(p) == {};
    assert Sleepers(p) == {};
  }

  /** No lost wake-ups, after any run: while jobs are queued and the pool is not stopping, the queued
      jobs are matched by workers on their way to the queue check or every worker is awake; and a
      thread sleeping in tpool_wait always has something left to wait for. */
  lemma NoLostWakeups(p: Pool, es: seq<Event>)
    requires Init(p) && Possible(p, es)
    ensures var q := After(p, es);
            && (!q.mon.stop && q.mon.queue != [] && q.workers != map[] ==>
                  (exists w :: w in q.workers && (q.workers[w].AtCheck? || Busy(q.workers[w]))))
            && (!q.mon.stop && Sleepers(q) != {} ==> |q.mon.queue| <= |Heading(q)|)
            && (forall t :: t in q.waiters && q.waiters[t].Sleeping? ==>
                  q.mon.queue != [] || (exists w :: w in q.workers && Busy(q.workers[w])))
  {
    InitEstablishesInv(p);
    RunKeepsInv(p, es);
    var q := After(p, es);
    if !q.mon.stop && q.mon.queue != [] && q.workers != map[] {
      if Sleepers(q) != {} {
        var w :| w in Heading(q);
      } else {
        var w :| w in q.workers;
        assert w !in Sleepers(q);
        assert q.workers[w].AtCheck? || Busy(q.workers[w]);
      }
    }
    if t :| t in q.waiters && q.waiters[t].Sleeping? && q.mon.queue == [] {
      assert q.mon.working > 0;
      var w :| w in BusyWorkers(q);
    }
  }

  /** Conservation and order, after any run: started work is a prefix of accepted work, so jobs
      start in the order they were accepted and each at most once; the rest is still queued or was
      discarded; working_cnt is exact; every started job has finished or is held by one worker. */
  lemma WorkIsConserved(p: Pool, es: seq<Event>)
    requires Init(p) && Possible(p, es)
    ensures var q := After(p, es);
            && q.accepted == q.started + q.discarded + q.mon.queue
            && (q.discarded == [] || q.mon.queue == [])
            && q.mon.working == |BusyWorkers(q)|
            && (forall i :: 0 <= i < |q.started| ==> (i in q.finished <==> !Holder(q, i)))
  {
    InitEstablishesInv(p);
    RunKeepsInv(p, es);
  }

  /** When tpool_wait returns, every job accepted so far has finished or has been discarded. */
  lemma WaitReturnsOnlyWhenDone(p: Pool, es: seq<Event>, t: Tid)
    requires Init(p) && Possible(p, es) && Enabled(After(p, es), WaitCheck(t))
    ensures var q := After(p, es);
            Next(q, WaitCheck(t)).waiters[t].Returned? ==>
              && q.accepted == q.started + q.discarded
              && (forall i :: i in q.finished <==> 0 <= i < |q.started|)
  {
    InitEstablishesInv(p);
    RunKeepsInv(p, es);
    var q := After(p, es);
    if Quiet(q.mon) {
      assert BusyWorkers(q) == {};
      forall w | w in q.workers
        ensures !Busy(q.workers[w])
      {
        assert w !in BusyWorkers(q);
      }
    }
  }

  /** Nothing is accepted and nothing starts once stop is set. */
  lemma {:induction false} NothingAfterStop(p: Pool, es: seq<Event>)
    requires Inv(p) && p.mon.stop && Possible(p, es)
    ensures var q := After(p, es);
            q.mon.stop && q.accepted == p.accepted && q.started == p.started && q.discarded == p.discarded
    decreases |es|
  {
    if es != [] {
      StepKeepsInv(p, es[0]);
      NothingAfterStop(Next(p, es[0]), es[1..]);
    }
  }

  // ---------------------------------------------------------------- shutdown

  /** How many steps each worker still has to make before it has exited. */
  function StepsLeft(pc: WorkerPc): nat {
    match pc
    case Running(_) => 3
    case Finishing(_) => 2
    case AtCheck => 1
    case Asleep => 1
    case Exited => 0
  }

  ghost function SumLeft(ws: map<Tid, WorkerPc>): nat {
    if ws == map[] then 0
    else var w :| w in ws; StepsLeft(ws[w]) + SumLeft(ws - {w})
  }

  /** The sum may be taken in any order. */
  lemma {:induction false} SumLeftAt(ws: map<Tid, WorkerPc>, w: Tid)
    requires w in ws
    ensures SumLeft(ws) == StepsLeft(ws[w]) + SumLeft(ws - {w})
    decreases |ws|
  {
    var v :| v in ws && SumLeft(ws) == StepsLeft(ws[v]) + SumLeft(ws - {v});
    if v != w {
      SumLeftAt(ws - {v}, w);
      SumLeftAt(ws - {w}, v);
      assert ws - {v} - {w} == ws - {w} - {v};
    }
  }

  lemma SumLeftUpdate(ws: map<Tid, WorkerPc>, w: Tid, pc: WorkerPc)
    requires w in ws
    ensures SumLeft(ws[w := pc]) == SumLeft(ws) - StepsLeft(ws[w]) + StepsLeft(pc)
  {
    SumLeftAt(ws, w);
    SumLeftAt(ws[w := pc], w);
    assert ws[w := pc] - {w} == ws - {w};
  }

  predicate IsWorkerStep(e: Event) { e.WorkerCheck? || e.JobReturns? || e.WorkerFinish? || e.WorkerSpurious? }

  function WorkerSteps(es: seq<Event>): nat {
    if es == [] then 0 else (if IsWorkerStep(es[0]) then 1 else 0) + WorkerSteps(es[1..])
  }

  /** After stop every step of a worker brings the pool exactly one step closer to the end. */
  lemma StepAfterStop(p: Pool, e: Event)
    requires Inv(p) && p.mon.stop && Enabled(p, e)
    ensures SumLeft(Next(p, e).workers) + (if IsWorkerStep(e) then 1 else 0) == SumLeft(p.workers)
  {
    if IsWorkerStep(e) {
      assert e.w !in Sleepers(p);
      var q := Next(p, e);
      assert q.workers == p.workers[e.w := q.workers[e.w]];
      SumLeftUpdate(p.workers, e.w, q.workers[e.w]);
    }
  }

  lemma {:induction false} SumLeftZero(ws: map<Tid, WorkerPc>)
    ensures SumLeft(ws) == 0 <==> forall w :: w in ws ==> ws[w].Exited?
    decreases |ws|
  {
    if ws != map[] {
      var v :| v in ws && SumLeft(ws) == StepsLeft(ws[v]) + SumLeft(ws - {v});
      var rest := ws - {v};
      SumLeftZero(rest);
      assert StepsLeft(ws[v]) == 0 <==> ws[v].Exited?;
      assert (forall w :: w in ws ==> ws[w].Exited?)
             <==> ws[v].Exited? && forall w :: w in rest ==> rest[w].Exited? by {
        assert forall w :: w in rest ==> w in ws && rest[w] == ws[w];
        assert forall w :: w in ws ==> w == v || w in rest;
      }
    }
  }

  /** Shutdown terminates. From any state with stop set the workers take, whatever else happens, no
      more than SumLeft steps; as long as one of them has not exited some worker step is possible,
      none of them being asleep; and the budget is used up exactly when all have exited, at which
      point the joins complete. */
  lemma {:induction false} ShutdownTerminates(p: Pool, es: seq<Event>)
    requires Inv(p) && p.mon.stop && Possible(p, es)
    ensures WorkerSteps(es) + SumLeft(After(p, es).workers) == SumLeft(p.workers)
    ensures (forall w :: w in After(p, es).workers ==> After(p, es).workers[w].Exited?)
            <==> WorkerSteps(es) == SumLeft(p.workers)
    ensures WorkerSteps(es) < SumLeft(p.workers) ==>
              exists e :: IsWorkerStep(e) && Enabled(After(p, es), e)
    decreases |es|
  {
    if es == [] {
      SumLeftZero(p.workers);
      if SumLeft(p.workers) > 0 {
        var w :| w in p.workers && !p.workers[w].Exited?;
        assert w !in Sleepers(p);
        var e := if p.workers[w].AtCheck? then WorkerCheck(w)
                 else if p.workers[w].Running? then JobReturns(w) else WorkerFinish(w);
        assert IsWorkerStep(e) && Enabled(p, e);
      }
    } else {
      StepAfterStop(p, es[0]);
      StepKeepsInv(p, es[0]);
      ShutdownTerminates(Next(p, es[0]), es[1..]);
    }
  }

  /** Once all workers have exited nobody is left asleep in tpool_wait, and its next check returns. */
  lemma WaitersReleasedAfterShutdown(p: Pool, t: Tid)
    requires Inv(p) && p.mon.stop && (forall w :: w in p.workers ==> p.workers[w].Exited?)
    requires t in p.waiters
    ensures !p.waiters[t].Sleeping?
    ensures p.waiters[t].Checking? ==> Next(p, WaitCheck(t)).waiters[t].Returned?
  {
    assert BusyWorkers(p) == {};
  }
}
