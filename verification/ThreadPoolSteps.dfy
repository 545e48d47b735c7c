/** The machine of ThreadPool beside the object of ThreadPoolMonitor, step by step, and what a run of the
    machine amounts to when it is read off the calls alone. */
module ThreadPoolSteps {
  import opened ByteStrings
  import opened ThreadPool
  import opened ThreadPoolMonitor

  // ---------------------------------------------------------------- one critical section at a time

  /** tpool_add_work on the object is the step AddWork of the machine, and it answers true exactly when the
      machine accepts the job. */
  method AddWorkIsStep(pool: TPool, ghost p: Pool, job: Job, ghost woken: Option<Tid>) returns (added: bool)
    requires pool.Valid() && pool.Mon() == p.mon && Enabled(p, AddWork(job, woken))
    modifies pool, pool.spine
    ensures pool.Valid() && pool.Mon() == Next(p, AddWork(job, woken)).mon
    ensures Next(p, AddWork(job, woken)).accepted == if added then p.accepted + [job] else p.accepted
  {
    added := pool.AddWork(job);
  }

  /** The top of the worker's loop: the outcome is where the machine's worker goes. */
  method WorkerCheckIsStep(pool: TPool, ghost p: Pool, ghost w: Tid) returns (outcome: CheckOutcome)
    requires pool.Valid() && pool.Mon() == p.mon && Enabled(p, WorkerCheck(w))
    modifies pool, pool.spine
    ensures var q := Next(p, WorkerCheck(w));
            && pool.Valid() && pool.Mon() == q.mon && w in q.workers
            && (outcome.Sleep? <==> q.workers[w] == Asleep)
            && (outcome.Exit? <==> q.workers[w] == Exited)
            && (outcome.Start? <==> q.workers[w] == Running(|p.started|))
            && q.started == p.started + if outcome.Start? then [outcome.work.job] else []
  {
    outcome := pool.WorkerCheck();
  }

  /** A worker after its job: the waiters are woken exactly when the machine wakes them. */
  method WorkerFinishIsStep(pool: TPool, ghost p: Pool, ghost w: Tid) returns (wakeWaiters: bool)
    requires pool.Valid() && pool.Mon() == p.mon && Enabled(p, WorkerFinish(w))
    modifies pool
    ensures var q := Next(p, WorkerFinish(w));
            && pool.Valid() && pool.Mon() == q.mon && w in q.workers && q.workers[w] == AtCheck
            && q.waiters.Keys == p.waiters.Keys
            && forall t :: t in p.waiters ==>
                 q.waiters[t] == if wakeWaiters && p.waiters[t].Sleeping? then Checking else p.waiters[t]
  {
    wakeWaiters := pool.WorkerFinish();
  }

  /** The loop test of tpool_wait decides whether the machine's waiter returns. */
  method WaitCheckIsStep(pool: TPool, ghost p: Pool, ghost t: Tid) returns (done: bool)
    requires pool.Valid() && pool.Mon() == p.mon && Enabled(p, WaitCheck(t))
    ensures var q := Next(p, WaitCheck(t));
            pool.Mon() == q.mon && t in q.waiters && q.waiters[t] == if done then Returned else Sleeping
  {
    done := pool.WaitCheck();
  }

  /** tpool_destroy up to the unlock: what is handed back is what the machine discards. */
  method DestroyIsStep(pool: TPool, ghost p: Pool) returns (ghost freed: seq<Work>)
    requires pool.Valid() && pool.Mon() == p.mon && Enabled(p, Destroy)
    modifies pool
    ensures var q := Next(p, Destroy);
            && pool.Valid() && pool.Mon() == q.mon && q.discarded == p.discarded + Jobs(freed)
            && q.waiters.Keys == p.waiters.Keys
            && (forall t :: t in p.waiters ==>
                  q.waiters[t] == if p.waiters[t].Sleeping? then Checking else p.waiters[t])
  {
    freed := pool.Discard();
  }

  // ---------------------------------------------------------------- what moves, and who

  /** The shared fields and the histories after each step. Work is taken by a call of tpool_add_work before
      stop, and handed to the worker that comes by while there is some. */
  lemma WhatMoves(p: Pool, e: Event)
    requires Enabled(p, e)
    ensures Next(p, e).mon ==
            match e
            case AddWork(job, _) => if p.mon.stop then p.mon else Monitor(p.mon.queue + [job], p.mon.working, false)
            case WorkerCheck(_) =>
              if p.mon.stop || p.mon.queue == [] then p.mon else Monitor(p.mon.queue[1..], p.mon.working + 1, false)
            case WorkerFinish(_) =>
              Monitor(p.mon.queue, if p.mon.working == 0 then 0 else p.mon.working - 1, p.mon.stop)
            case Destroy => Monitor([], p.mon.working, true)
            case _ => p.mon
    ensures Next(p, e).accepted == if e.AddWork? && !p.mon.stop then p.accepted + [e.job] else p.accepted
    ensures Next(p, e).started == if e.WorkerCheck? && !p.mon.stop && p.mon.queue != []
                                  then p.started + [p.mon.queue[0]] else p.started
    ensures Next(p, e).finished == if e.JobReturns? then p.finished + {p.workers[e.w].ticket} else p.finished
    ensures Next(p, e).discarded == if e.Destroy? then p.discarded + p.mon.queue else p.discarded
  {
  }

  /** Every step moves the worker that it names, or the sleepers that it wakes, and no others. */
  lemma WhoMoves(p: Pool, e: Event, w: Tid)
    requires Enabled(p, e)
    ensures Next(p, e).workers.Keys == p.workers.Keys
    ensures w in p.workers ==>
              Next(p, e).workers[w] ==
              match e
              case AddWork(_, woken) => if woken == Some(w) then AtCheck else p.workers[w]
              case WorkerCheck(x) =>
                if x != w then p.workers[w]
                else if p.mon.stop then Exited
                else if p.mon.queue == [] then Asleep else Running(|p.started|)
              case JobReturns(x) => if x == w then Finishing(p.workers[w].ticket) else p.workers[w]
              case WorkerFinish(x) => if x == w then AtCheck else p.workers[w]
              case WorkerSpurious(x) => if x == w then AtCheck else p.workers[w]
              case Destroy => if p.workers[w] == Asleep then AtCheck else p.workers[w]
              case _ => p.workers[w]
  {
  }

  /** The threads in tpool_wait likewise: the last job to finish, and tpool_destroy, wake all of them. */
  lemma WhoWaits(p: Pool, e: Event, t: Tid)
    requires Enabled(p, e) && t in p.waiters
    ensures t in Next(p, e).waiters
    ensures Next(p, e).waiters[t] ==
            match e
            case WaitCall(x) => if x == t then Checking else p.waiters[t]
            case WaitCheck(x) =>
              if x != t then p.waiters[t] else if p.mon.queue == [] && p.mon.working == 0 then Returned else Sleeping
            case WaitSpurious(x) => if x == t then Checking else p.waiters[t]
            case WorkerFinish(_) =>
              if p.mon.queue == [] && p.mon.working <= 1 && p.waiters[t] == Sleeping then Checking else p.waiters[t]
            case Destroy => if p.waiters[t] == Sleeping then Checking else p.waiters[t]
            case _ => p.waiters[t]
  {
  }

  /** What may happen at any moment. A thread may always call; a worker that is awake goes on by where it is, and
      so does a thread in tpool_wait; sleepers may wake by themselves. A new job wakes a sleeping worker if there
      is one. */
  lemma WhatMayHappen(p: Pool, job: Job, w: Tid, t: Tid)
    ensures exists woken :: Enabled(p, AddWork(job, woken)) && (woken.Some? <==> !p.mon.stop && Sleepers(p) != {})
    ensures w in p.workers ==>
              match p.workers[w]
              case AtCheck => Enabled(p, WorkerCheck(w))
              case Asleep => Enabled(p, WorkerSpurious(w))
              case Running(_) => Enabled(p, JobReturns(w))
              case Finishing(_) => Enabled(p, WorkerFinish(w))
              case Exited => true
    ensures if t !in p.waiters || p.waiters[t].Returned? then Enabled(p, WaitCall(t))
            else if p.waiters[t].Checking? then Enabled(p, WaitCheck(t)) else Enabled(p, WaitSpurious(t))
    ensures Enabled(p, Destroy) <==> !p.mon.stop
  {
    if !p.mon.stop && Sleepers(p) != {} {
      var u :| u in Sleepers(p);
      assert Enabled(p, AddWork(job, Some(u)));
    } else {
      assert Enabled(p, AddWork(job, None));
    }
  }

  // ---------------------------------------------------------------- runs, read off the events

  /** The jobs of the calls of tpool_add_work before tpool_destroy. */
  function Submitted(es: seq<Event>): seq<Job> {
    if es == [] then []
    else match es[0]
      case Destroy => []
      case AddWork(job, _) => [job] + Submitted(es[1..])
      case _ => Submitted(es[1..])
  }

  /** How many jobs have returned. */
  function Returns(es: seq<Event>): nat {
    if es == [] then 0 else (if es[0].JobReturns? then 1 else 0) + Returns(es[1..])
  }

  lemma {:induction false} AcceptsFrom(p: Pool, es: seq<Event>)
    requires Inv(p) && Possible(p, es)
    ensures After(p, es).accepted == p.accepted + if p.mon.stop then [] else Submitted(es)
    ensures After(p, es).mon.stop <==> p.mon.stop || Destroy in es
    ensures |After(p, es).finished| == |p.finished| + Returns(es)
    decreases |es|
  {
    hide Inv, Enabled, Next;
    if es == [] {
      assert p.accepted + [] == p.accepted;
    } else {
      StepKeepsInv(p, es[0]);
      AcceptsFrom(Next(p, es[0]), es[1..]);
      StepAccepts(p, es[0]);
      assert es == [es[0]] + es[1..];
    }
  }

  lemma StepAccepts(p: Pool, e: Event)
    requires Inv(p) && Enabled(p, e)
    ensures Next(p, e).accepted == if e.AddWork? && !p.mon.stop then p.accepted + [e.job] else p.accepted
    ensures Next(p, e).mon.stop <==> p.mon.stop || e == Destroy
    ensures |Next(p, e).finished| == |p.finished| + if e.JobReturns? then 1 else 0
  {
    WhatMoves(p, e);
    hide Next;
  }

  /** What a run has done with the work that it was given, read off the calls. The jobs submitted before
      tpool_destroy are the accepted ones; those that have started are the first of them, in the order of the
      calls; the rest is still queued, all of it, until tpool_destroy discards it, all of it. As many jobs as
      have returned are finished. */
  lemma WorkFromCalls(p: Pool, es: seq<Event>)
    requires Init(p) && Possible(p, es)
    ensures var q := After(p, es);
            && q.started <= Submitted(es)
            && (Destroy !in es ==> Submitted(es) == q.started + q.mon.queue && q.discarded == [])
            && (Destroy in es ==> Submitted(es) == q.started + q.discarded && q.mon.queue == [])
            && |q.finished| == Returns(es)
  {
    hide *;
    InitEstablishesInv(p);
    EmptyAtFirst(p);
    AcceptsFrom(p, es);
    RunKeepsInv(p, es);
    WhereAcceptedWorkIs(After(p, es));
    assert [] + Submitted(es) == Submitted(es);
  }

  lemma EmptyAtFirst(p: Pool)
    requires Init(p)
    ensures p.accepted == [] && !p.mon.stop && |p.finished| == 0
  {
  }

  lemma WhereAcceptedWorkIs(p: Pool)
    requires Inv(p)
    ensures p.started <= p.accepted
    ensures !p.mon.stop ==> p.accepted == p.started + p.mon.queue && p.discarded == []
    ensures p.mon.stop ==> p.accepted == p.started + p.discarded && p.mon.queue == []
  {
    hide CountInv, Tickets;
    assert p.started + [] == p.started && p.started + p.discarded + [] == p.started + p.discarded;
  }
}
