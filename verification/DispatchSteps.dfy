/** What every step of the dispatch does, field by field: which client it destroys, and where the others go. */
module DispatchSteps {
  import opened ByteStrings
  import opened Registry
  import opened Dispatch

  // ---------------------------------------------------------------- who is destroyed

  /** The step is the end of c: it hung up; its run failed, or epoll refused to take it back after a good one;
      epoll refused to take it at first, or after the pool had refused it; it came while the table was full, or
      its setup failed; or the table is being swept and it stands next. */
  ghost predicate Ends(w: World, step: Step, c: Id)
    requires Enabled(w, step)
  {
    match step
    case DropHangup => w.batch[0] == Hangup(c)
    case Finish(t, success, rearmed) => w.running[t] == c && (!success || !rearmed)
    case Arm(ok) => w.new_ == Some(c) && !ok
    case Enqueue(taken, rearmed) => w.batch[0] == Readable(c) && !taken && !rearmed
    case Accept(x, initOk) => x == c && ((forall i :: 0 <= i < |w.slots| ==> w.slots[i].Some?) || !initOk)
    case Sweep => w.slots[w.stage.idx] == Some(c)
    case _ => false
  }

  lemma TableFull(slots: seq<Option<Id>>)
    ensures FreeSlot(slots) == |slots| <==> forall i :: 0 <= i < |slots| ==> slots[i].Some?
  {
  }

  /** The client that a step is about is not yet among the destroyed. */
  lemma NotYetDestroyed(w: World, step: Step, c: Id)
    requires Inv(w) && Enabled(w, step) && Ends(w, step, c)
    ensures c !in w.destroyed
  {
    var at :| Consistent(w, at) && Settled(at);
    Open(w, at);
  }

  lemma DestroyedAdds(w: World, step: Step, c: Id)
    requires Enabled(w, step)
    ensures Apply(w, step).destroyed == w.destroyed || |Apply(w, step).destroyed| == |w.destroyed| + 1
    ensures Ends(w, step, c) <==> Apply(w, step).destroyed == w.destroyed + [c]
  {
    TableFull(w.slots);
    hide Removed, Added, FreeSlot;
    assert |w.destroyed + [c]| == |w.destroyed| + 1;
    forall x: Id
      ensures w.destroyed + [x] == w.destroyed + [c] ==> x == c
    {
      assert (w.destroyed + [x])[|w.destroyed|] == x && (w.destroyed + [c])[|w.destroyed|] == c;
    }
  }

  /** A client is destroyed by a step if and only if the step is its end. */
  lemma DestroyedExactlyWhen(w: World, step: Step, c: Id)
    requires Inv(w) && Enabled(w, step)
    ensures c in Apply(w, step).destroyed && c !in w.destroyed <==> Ends(w, step, c)
  {
    DestroyedAdds(w, step, c);
    StepOnlyDestroysMore(w, step);
    if Ends(w, step, c) {
      NotYetDestroyed(w, step, c);
    }
    if c in Apply(w, step).destroyed && c !in w.destroyed {
      var d := Apply(w, step).destroyed[|w.destroyed|];
      assert Apply(w, step).destroyed == w.destroyed + [d];
    }
    hide Inv, Ends, Apply, Enabled;
  }

  // ---------------------------------------------------------------- where the others go

  /** The main thread goes through its batch from the front; what it hands over goes to the end of the queue,
      and workers take from its front. */
  lemma WhatMoves(w: World, step: Step)
    requires Enabled(w, step)
    ensures Apply(w, step).batch ==
            match step
            case Poll(events) => events
            case AcceptFails => w.batch[1..]
            case Accept(_, _) => w.batch[1..]
            case DropHangup => w.batch[1..]
            case Enqueue(_, _) => w.batch[1..]
            case _ => w.batch
    ensures Apply(w, step).queue ==
            match step
            case Enqueue(true, _) => w.queue + [w.batch[0].client]
            case Start(_) => w.queue[1..]
            case _ => w.queue
    ensures Apply(w, step).running ==
            match step
            case Start(t) => w.running[t := w.queue[0]]
            case Finish(t, _, _) => w.running - {t}
            case _ => w.running
  {
    hide Removed, Added, FreeSlot, Delivered;
  }

  /** The client just accepted waits to be armed, unless it has been turned away. */
  lemma WhoIsNew(w: World, step: Step)
    requires Enabled(w, step)
    ensures Apply(w, step).new_ ==
            match step
            case Accept(c, _) => if Ends(w, step, c) then None else Some(c)
            case Arm(_) => None
            case _ => w.new_
    ensures Apply(w, step).accepted == if step.Accept? then w.accepted + {step.client} else w.accepted
    ensures Apply(w, step).stage ==
            match step
            case LeaveLoop => Draining
            case Drained => Sweeping(0)
            case Sweep => if w.stage.idx + 1 == |w.slots| then Done else Sweeping(w.stage.idx + 1)
            case _ => w.stage
  {
    TableFull(w.slots);
    hide Removed, Added, FreeSlot, Delivered;
  }

  ghost predicate HasEventOf(events: seq<Event>, c: Id) {
    exists i :: 0 <= i < |events| && HasClient(events[i]) && events[i].client == c
  }

  /** Armed again is exactly who is new, or came back well from the pool, or was refused by it; nobody stays
      armed once an event of theirs is delivered. */
  lemma WhoIsArmed(w: World, step: Step, c: Id)
    requires Enabled(w, step)
    ensures c in Apply(w, step).armed <==>
            match step
            case Poll(events) => c in w.armed && !HasEventOf(events, c)
            case Arm(ok) => c in w.armed || (ok && w.new_ == Some(c))
            case Enqueue(taken, rearmed) => c in w.armed || (!taken && rearmed && w.batch[0] == Readable(c))
            case Finish(t, success, rearmed) => c in w.armed || (success && rearmed && w.running[t] == c)
            case Sweep => c in w.armed && w.slots[w.stage.idx] != Some(c)
            case _ => c in w.armed
  {
    hide Removed, Added, FreeSlot;
    if step.Poll? && c in Delivered(step.events) {
      var e :| e in step.events && HasClient(e) && e.client == c;
      var i :| 0 <= i < |step.events| && step.events[i] == e;
      assert HasEventOf(step.events, c);
    }
    if step.Poll? && HasEventOf(step.events, c) {
      var i :| 0 <= i < |step.events| && HasClient(step.events[i]) && step.events[i].client == c;
      assert step.events[i] in step.events;
    }
  }

  /** A slot changes hands only when its client ends, or when it is the lowest free one and a client comes. */
  lemma WhoIsRegistered(w: World, step: Step, i: nat)
    requires Inv(w) && Enabled(w, step) && i < |w.slots|
    ensures |Apply(w, step).slots| == |w.slots| == 128
    ensures Apply(w, step).slots[i] ==
            if step.Accept? && step.initOk && w.slots[i].None? && (forall j :: 0 <= j < i ==> w.slots[j].Some?)
            then Some(step.client)
            else if w.slots[i].Some? && Ends(w, step, w.slots[i].value) then None
            else w.slots[i]
  {
    NotRegisteredYet(w, step);
    hide Inv;
    if step.Accept? {
      AcceptSlots(w, step.client, step.initOk, i);
    } else {
      hide Added, FreeSlot, Delivered;
    }
  }

  lemma AcceptSlots(w: World, c: Id, initOk: bool, i: nat)
    requires Enabled(w, Accept(c, initOk)) && i < |w.slots| && Some(c) !in w.slots
    ensures |Apply(w, Accept(c, initOk)).slots| == |w.slots|
    ensures Apply(w, Accept(c, initOk)).slots[i] ==
            if initOk && w.slots[i].None? && (forall j :: 0 <= j < i ==> w.slots[j].Some?) then Some(c) else w.slots[i]
  {
    TableFull(w.slots);
  }

  lemma NotRegisteredYet(w: World, step: Step)
    requires Inv(w) && Enabled(w, step)
    ensures |w.slots| == 128 && (step.Accept? ==> Some(step.client) !in w.slots)
  {
    var at :| Consistent(w, at) && Settled(at);
    Open(w, at);
  }

  /** A client that a step is about and that the step does not end keeps its slot, and goes back to epoll or on
      to the pool: it is in that one spot and in no other. */
  lemma KeptClientGoesOn(w: World, step: Step, c: Id)
    requires Inv(w) && Enabled(w, step) && !Ends(w, step, c)
    requires match step
             case Accept(x, _) => x == c
             case Arm(_) => w.new_ == Some(c)
             case Enqueue(_, _) => w.batch[0] == Readable(c)
             case Start(_) => w.queue[0] == c
             case Finish(t, _, _) => w.running[t] == c
             case _ => false
    ensures var w' := Apply(w, step);
            && Inv(w') && Some(c) in w'.slots && c !in w'.destroyed
            && (step.Accept? ==> w'.new_ == Some(c))
            && (step.Arm? || step.Finish? || step == Enqueue(false, true) ==> c in w'.armed)
            && (step.Enqueue? && step.taken ==> w'.queue != [] && w'.queue[|w'.queue| - 1] == c)
            && (step.Start? ==> step.worker in w'.running && w'.running[step.worker] == c)
            && forall a, b :: IsAt(w', c, a) && IsAt(w', c, b) ==> a == b
  {
    var w' := Apply(w, step);
    StepKeepsInv(w, step);
    WhatMoves(w, step);
    WhoIsNew(w, step);
    WhoIsArmed(w, step, c);
    var spot := match step
      case Accept(_, _) => NewSpot
      case Enqueue(true, _) => QueueSpot(|w.queue|)
      case Start(t) => WorkerSpot(t)
      case _ => ArmedSpot;
    ExactlyOneSpot(w', c);
    hide Inv, Apply;
    assert IsAt(w', c, spot);
    SpottedIsAlive(w', c);
  }

  lemma SpottedIsAlive(w: World, c: Id)
    requires Inv(w) && Some(c) in w.slots
    ensures c !in w.destroyed
  {
    var at :| Consistent(w, at) && Settled(at);
    Open(w, at);
  }

  // ---------------------------------------------------------------- what may happen

  /** The events of one call of epoll_wait: at most as many as the array holds, one for each client, and only for
      clients that are armed. */
  ghost predicate Deliverable(w: World, events: seq<Event>) {
    && |events| <= 64
    && (forall i :: 0 <= i < |events| && HasClient(events[i]) ==> events[i].client in w.armed)
    && (forall i, j :: 0 <= i < j < |events| && HasClient(events[i]) && HasClient(events[j]) ==>
          events[i].client != events[j].client)
  }

  /** In its loop the main thread always goes on, and nothing that the world outside decides is excluded: whatever
      can be delivered may be, and every call may turn out either way. */
  lemma LoopGoesOn(w: World, events: seq<Event>, c: Id, a: bool, b: bool)
    requires w.stage == Loop
    ensures w.new_.Some? ==> Enabled(w, Arm(a))
    ensures w.new_.None? && w.batch == [] ==>
              Enabled(w, LeaveLoop) && (Enabled(w, Poll(events)) <==> Deliverable(w, events))
    ensures w.new_.None? && w.batch != [] ==>
              match w.batch[0]
              case Incoming => Enabled(w, AcceptFails) && (Enabled(w, Accept(c, a)) <==> c !in w.accepted)
              case Readable(_) => Enabled(w, Enqueue(a, b))
              case Hangup(_) => Enabled(w, DropHangup)
  {
  }

  /** Beside it workers take clients while there are some, and give them back. */
  lemma WorkersGoOn(w: World, worker: Worker, a: bool, b: bool)
    ensures worker in w.running ==> Enabled(w, Finish(worker, a, b))
    ensures worker !in w.running && w.queue != [] ==> Enabled(w, Start(worker))
  {
  }
}
