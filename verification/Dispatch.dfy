/** The life of clients between the event loop, the thread pool and the registry.

    EPOLLONESHOT is "disarm on delivery": a client whose event has been delivered gets no other event
    until it is armed again. */
module Dispatch {
  import opened ByteStrings
  import opened Registry

  const MAX_EVENTS: nat := 64

  type Worker = nat

  /** The identity of a client_t: connections are numbered as they are accepted. */
  type Id = nat

  datatype Event = Incoming | Readable(client: Id) | Hangup(client: Id)

  /** Loop: server_run. Draining: tpool_wait. Sweeping: the loop of registry_destroy. */
  datatype Stage = Loop | Draining | Sweeping(idx: nat) | Done

  datatype World = World(
    armed: set<Id>,
    batch: seq<Event>,
    new_: Option<Id>,
    queue: seq<Id>,
    running: map<Worker, Id>,
    slots: seq<Option<Id>>,
    accepted: set<Id>,
    destroyed: seq<Id>,
    stage: Stage)

  datatype Step =
    | Poll(events: seq<Event>)
    | AcceptFails
    | Accept(client: Id, initOk: bool)
    | Arm(ok: bool)
    | DropHangup
    | Enqueue(taken: bool, rearmed: bool)
    | Start(worker: Worker)
    | Finish(worker: Worker, success: bool, rearmed: bool)
    | LeaveLoop
    | Drained
    | Sweep

  ghost function InitWorld(): World {
    World({}, [], None, [], map[], seq(MAX_CLIENTS, i => None), {}, [], Loop)
  }

  ghost predicate HasClient(e: Event) { e.Readable? || e.Hangup? }

  /** The main thread looks at the next event of its batch. */
  ghost predicate AtEvent(w: World) { w.stage == Loop && w.new_.None? && w.batch != [] }

  ghost predicate Enabled(w: World, step: Step) {
    match step
    case Poll(events) =>
      && w.stage == Loop && w.new_.None? && w.batch == [] && |events| <= MAX_EVENTS
      && (forall i :: 0 <= i < |events| && HasClient(events[i]) ==> events[i].client in w.armed)
      && (forall i, j :: 0 <= i < j < |events| && HasClient(events[i]) && HasClient(events[j]) ==>
            events[i].client != events[j].client)
    case AcceptFails => AtEvent(w) && w.batch[0].Incoming?
    case Accept(c, _) => AtEvent(w) && w.batch[0].Incoming? && c !in w.accepted
    case Arm(_) => w.stage == Loop && w.new_.Some?
    case DropHangup => AtEvent(w) && w.batch[0].Hangup?
    case Enqueue(_, _) => AtEvent(w) && w.batch[0].Readable?
    case Start(worker) => worker !in w.running && w.queue != []
    case Finish(worker, _, _) => worker in w.running
    case LeaveLoop => w.stage == Loop && w.new_.None? && w.batch == []
    case Drained => w.stage == Draining && w.queue == [] && w.running == map[]
    case Sweep => w.stage.Sweeping? && w.stage.idx < |w.slots|
  }

  /** client_destroy: the client leaves the registry and is freed. */
  ghost function Destroy(w: World, c: Id): World {
    w.(slots := Removed(w.slots, c), destroyed := w.destroyed + [c])
  }

  /** client_rearm, which destroys the client when epoll refuses it. */
  ghost function Rearm(w: World, c: Id, ok: bool): World {
    if ok then w.(armed := w.armed + {c}) else Destroy(w, c)
  }

  ghost function Delivered(events: seq<Event>): set<Id> {
    set e | e in events && HasClient(e) :: e.client
  }

  ghost function Apply(w: World, step: Step): World
    requires Enabled(w, step)
  {
    match step
    case Poll(events) => w.(batch := events, armed := w.armed - Delivered(events))
    case AcceptFails => w.(batch := w.batch[1..])
    case Accept(c, initOk) =>
      var w1 := w.(batch := w.batch[1..], accepted := w.accepted + {c});
      if FreeSlot(w.slots) == |w.slots| then w1.(destroyed := w.destroyed + [c])
      else if initOk then w1.(slots := Added(w.slots, c), new_ := Some(c))
      else Destroy(w1.(slots := Added(w.slots, c)), c)
    case Arm(ok) => Rearm(w.(new_ := None), w.new_.value, ok)
    case DropHangup => Destroy(w.(batch := w.batch[1..]), w.batch[0].client)
    case Enqueue(taken, rearmed) =>
      var c := w.batch[0].client;
      var w1 := w.(batch := w.batch[1..]);
      if taken then w1.(queue := w.queue + [c]) else Rearm(w1, c, rearmed)
    case Start(worker) => w.(queue := w.queue[1..], running := w.running[worker := w.queue[0]])
    case Finish(worker, success, rearmed) =>
      var w1 := w.(running := w.running - {worker});
      if success then Rearm(w1, w.running[worker], rearmed) else Destroy(w1, w.running[worker])
    case LeaveLoop => w.(stage := Draining)
    case Drained => w.(stage := Sweeping(0))
    case Sweep =>
      var c := w.slots[w.stage.idx];
      var w1 := if c.None? then w else Destroy(w.(armed := w.armed - {c.value}), c.value);
      w1.(stage := if w.stage.idx + 1 == |w.slots| then Done else Sweeping(w.stage.idx + 1))
  }

  // ---------------------------------------------------------------- every client is in one place

  /** Held: in the hands of the step that is under way. */
  datatype Place = New | Armed | InBatch | Queued | Running(worker: Worker) | Held

  datatype Clause = Registered | ArmedOnes | NewOne | BatchOnes | QueueOnes | RunningOnes | Accounts | Stages

  /** The clauses of the invariant, given the place of every live client. */
  ghost predicate Holds(clause: Clause, w: World, at: map<Id, Place>) {
    match clause
    case Registered =>
      && |w.slots| == MAX_CLIENTS
      && (forall i :: 0 <= i < |w.slots| && w.slots[i].Some? ==> w.slots[i].value in at)
      && (forall c :: c in at ==> Some(c) in w.slots)
      && (forall i, j :: 0 <= i < j < |w.slots| && w.slots[i].Some? ==> w.slots[i] != w.slots[j])
    case ArmedOnes => forall c: Id :: c in w.armed <==> c in at && at[c] == Armed
    case NewOne => forall c: Id :: w.new_ == Some(c) <==> c in at && at[c] == New
    case BatchOnes =>
      && (forall i :: 0 <= i < |w.batch| && HasClient(w.batch[i]) ==>
            w.batch[i].client in at && at[w.batch[i].client] == InBatch)
      && (forall i, j :: 0 <= i < j < |w.batch| && HasClient(w.batch[i]) && HasClient(w.batch[j]) ==>
            w.batch[i].client != w.batch[j].client)
      && (forall c: Id :: c in at && at[c] == InBatch ==> c in Delivered(w.batch))
    case QueueOnes =>
      && (forall i :: 0 <= i < |w.queue| ==> w.queue[i] in at && at[w.queue[i]] == Queued)
      && (forall i, j :: 0 <= i < j < |w.queue| ==> w.queue[i] != w.queue[j])
      && (forall c: Id :: c in at && at[c] == Queued ==> c in w.queue)
    case RunningOnes =>
      && (forall t :: t in w.running ==> w.running[t] in at && at[w.running[t]] == Running(t))
      && (forall c: Id :: c in at && at[c].Running? ==> at[c].worker in w.running && w.running[at[c].worker] == c)
    case Accounts =>
      && (forall c: Id :: c in w.accepted <==> c in at || c in w.destroyed)
      && (forall c: Id :: c in at ==> c !in w.destroyed)
      && (forall i, j :: 0 <= i < j < |w.destroyed| ==> w.destroyed[i] != w.destroyed[j])
    case Stages =>
      && (w.stage != Loop ==> w.batch == [] && w.new_.None?)
      && (w.stage.Sweeping? || w.stage.Done? ==> w.queue == [] && w.running == map[])
      && (w.stage.Sweeping? ==> w.stage.idx < |w.slots| && forall i :: 0 <= i < w.stage.idx ==> w.slots[i].None?)
      && (w.stage.Done? ==> forall i :: 0 <= i < |w.slots| ==> w.slots[i].None?)
  }

  ghost predicate Consistent(w: World, at: map<Id, Place>) { forall clause: Clause :: Holds(clause, w, at) }

  /** Between steps no client is in the hands of one. */
  ghost predicate Settled(at: map<Id, Place>) { forall c :: c in at ==> at[c] != Held }

  ghost predicate Inv(w: World) { exists at :: Consistent(w, at) && Settled(at) }

  lemma Open(w: World, at: map<Id, Place>)
    requires Consistent(w, at)
    ensures Holds(Registered, w, at) && Holds(ArmedOnes, w, at) && Holds(NewOne, w, at) && Holds(BatchOnes, w, at)
    ensures Holds(QueueOnes, w, at) && Holds(RunningOnes, w, at) && Holds(Accounts, w, at) && Holds(Stages, w, at)
  {
  }

  lemma Close(w: World, at: map<Id, Place>)
    requires Holds(Registered, w, at) && Holds(ArmedOnes, w, at) && Holds(NewOne, w, at) && Holds(BatchOnes, w, at)
    requires Holds(QueueOnes, w, at) && Holds(RunningOnes, w, at) && Holds(Accounts, w, at) && Holds(Stages, w, at)
    ensures Consistent(w, at)
  {
  }

  lemma InitIsConsistent()
    ensures Consistent(InitWorld(), map[])
  {
    Close(InitWorld(), map[]);
  }

  // ---------------------------------------------------------------- moves of one client

  /** A client that moves leaves the clauses about places it neither comes from nor goes to alone. */
  lemma Unmoved(w: World, w': World, at: map<Id, Place>, c: Id, place: Place)
    requires c in at
    ensures Holds(Registered, w, at) && w'.slots == w.slots ==> Holds(Registered, w', at[c := place])
    ensures Holds(ArmedOnes, w, at) && w'.armed == w.armed && at[c] != Armed && place != Armed
            ==> Holds(ArmedOnes, w', at[c := place])
    ensures Holds(NewOne, w, at) && w'.new_ == w.new_ && at[c] != New && place != New ==>
              Holds(NewOne, w', at[c := place])
    ensures Holds(Accounts, w, at) && w'.accepted == w.accepted && w'.destroyed == w.destroyed
            ==> Holds(Accounts, w', at[c := place])
  {
  }

  lemma UnmovedInLine(w: World, w': World, at: map<Id, Place>, c: Id, place: Place)
    requires c in at
    ensures Holds(BatchOnes, w, at) && w'.batch == w.batch && at[c] != InBatch && place != InBatch
            ==> Holds(BatchOnes, w', at[c := place])
    ensures Holds(QueueOnes, w, at) && w'.queue == w.queue && at[c] != Queued && place != Queued
            ==> Holds(QueueOnes, w', at[c := place])
    ensures Holds(RunningOnes, w, at) && w'.running == w.running && !at[c].Running? && !place.Running?
            ==> Holds(RunningOnes, w', at[c := place])
  {
  }

  lemma PutArmedClause(w: World, at: map<Id, Place>, c: Id)
    requires Holds(ArmedOnes, w, at) && Holds(Stages, w, at) && c in at && at[c] == Held
    ensures Holds(ArmedOnes, w.(armed := w.armed + {c}), at[c := Armed])
            && Holds(Stages, w.(armed := w.armed + {c}), at[c := Armed])
  {
  }

  lemma PutArmed(w: World, at: map<Id, Place>, c: Id)
    requires Consistent(w, at) && c in at && at[c] == Held
    ensures Consistent(w.(armed := w.armed + {c}), at[c := Armed])
  {
    hide Consistent, Holds;
    Open(w, at);
    PutArmedClause(w, at, c);
    Unmoved(w, w.(armed := w.armed + {c}), at, c, Armed);
    UnmovedInLine(w, w.(armed := w.armed + {c}), at, c, Armed);
    Close(w.(armed := w.armed + {c}), at[c := Armed]);
  }

  lemma PutNewClause(w: World, at: map<Id, Place>, c: Id)
    requires Holds(NewOne, w, at) && Holds(Stages, w, at) && c in at && at[c] == Held && w.new_.None? && w.stage == Loop
    ensures Holds(NewOne, w.(new_ := Some(c)), at[c := New]) && Holds(Stages, w.(new_ := Some(c)), at[c := New])
  {
  }

  lemma PutNew(w: World, at: map<Id, Place>, c: Id)
    requires Consistent(w, at) && c in at && at[c] == Held && w.new_.None? && w.stage == Loop
    ensures Consistent(w.(new_ := Some(c)), at[c := New])
  {
    hide Consistent, Holds;
    Open(w, at);
    PutNewClause(w, at, c);
    Unmoved(w, w.(new_ := Some(c)), at, c, New);
    UnmovedInLine(w, w.(new_ := Some(c)), at, c, New);
    Close(w.(new_ := Some(c)), at[c := New]);
  }

  lemma PutQueueClause(w: World, at: map<Id, Place>, c: Id)
    requires Holds(QueueOnes, w, at) && Holds(Stages, w, at) && c in at && at[c] == Held && w.stage == Loop
    ensures Holds(QueueOnes, w.(queue := w.queue + [c]), at[c := Queued])
            && Holds(Stages, w.(queue := w.queue + [c]), at[c := Queued])
  {
  }

  lemma PutQueue(w: World, at: map<Id, Place>, c: Id)
    requires Consistent(w, at) && c in at && at[c] == Held && w.stage == Loop
    ensures Consistent(w.(queue := w.queue + [c]), at[c := Queued])
  {
    hide Consistent, Holds;
    Open(w, at);
    PutQueueClause(w, at, c);
    Unmoved(w, w.(queue := w.queue + [c]), at, c, Queued);
    UnmovedInLine(w, w.(queue := w.queue + [c]), at, c, Queued);
    Close(w.(queue := w.queue + [c]), at[c := Queued]);
  }

  lemma PutRunningClause(w: World, at: map<Id, Place>, c: Id, t: Worker)
    requires Holds(RunningOnes, w, at) && Holds(Stages, w, at) && c in at && at[c] == Held && t !in w.running
             && (w.stage == Loop || w.stage == Draining)
    ensures Holds(RunningOnes, w.(running := w.running[t := c]), at[c := Running(t)])
            && Holds(Stages, w.(running := w.running[t := c]), at[c := Running(t)])
  {
  }

  lemma PutRunning(w: World, at: map<Id, Place>, c: Id, t: Worker)
    requires Consistent(w, at) && c in at && at[c] == Held && t !in w.running
             && (w.stage == Loop || w.stage == Draining)
    ensures Consistent(w.(running := w.running[t := c]), at[c := Running(t)])
  {
    hide Consistent, Holds;
    Open(w, at);
    PutRunningClause(w, at, c, t);
    Unmoved(w, w.(running := w.running[t := c]), at, c, Running(t));
    UnmovedInLine(w, w.(running := w.running[t := c]), at, c, Running(t));
    Close(w.(running := w.running[t := c]), at[c := Running(t)]);
  }

  lemma TakeNewClause(w: World, at: map<Id, Place>)
    requires Holds(NewOne, w, at) && Holds(Stages, w, at) && w.new_.Some?
    ensures w.new_.value in at && at[w.new_.value] == New
    ensures Holds(NewOne, w.(new_ := None), at[w.new_.value := Held])
            && Holds(Stages, w.(new_ := None), at[w.new_.value := Held])
  {
  }

  lemma TakeNew(w: World, at: map<Id, Place>)
    requires Consistent(w, at) && w.new_.Some?
    ensures w.new_.value in at && Consistent(w.(new_ := None), at[w.new_.value := Held])
  {
    hide Consistent, Holds;
    Open(w, at);
    TakeNewClause(w, at);
    Unmoved(w, w.(new_ := None), at, w.new_.value, Held);
    UnmovedInLine(w, w.(new_ := None), at, w.new_.value, Held);
    Close(w.(new_ := None), at[w.new_.value := Held]);
  }

  lemma TakeBatchClause(w: World, at: map<Id, Place>)
    requires Holds(BatchOnes, w, at) && Holds(Stages, w, at) && w.batch != [] && HasClient(w.batch[0])
    ensures w.batch[0].client in at && at[w.batch[0].client] == InBatch
    ensures Holds(BatchOnes, w.(batch := w.batch[1..]), at[w.batch[0].client := Held])
            && Holds(Stages, w.(batch := w.batch[1..]), at[w.batch[0].client := Held])
  {
  }

  lemma TakeBatch(w: World, at: map<Id, Place>)
    requires Consistent(w, at) && w.batch != [] && HasClient(w.batch[0])
    ensures w.batch[0].client in at && Consistent(w.(batch := w.batch[1..]), at[w.batch[0].client := Held])
  {
    hide Consistent, Holds;
    Open(w, at);
    TakeBatchClause(w, at);
    Unmoved(w, w.(batch := w.batch[1..]), at, w.batch[0].client, Held);
    UnmovedInLine(w, w.(batch := w.batch[1..]), at, w.batch[0].client, Held);
    Close(w.(batch := w.batch[1..]), at[w.batch[0].client := Held]);
  }

  lemma TakeQueueClause(w: World, at: map<Id, Place>)
    requires Holds(QueueOnes, w, at) && Holds(Stages, w, at) && w.queue != []
    ensures w.queue[0] in at && at[w.queue[0]] == Queued
    ensures Holds(QueueOnes, w.(queue := w.queue[1..]), at[w.queue[0] := Held])
            && Holds(Stages, w.(queue := w.queue[1..]), at[w.queue[0] := Held])
  {
  }

  lemma TakeQueue(w: World, at: map<Id, Place>)
    requires Consistent(w, at) && w.queue != []
    ensures w.queue[0] in at && Consistent(w.(queue := w.queue[1..]), at[w.queue[0] := Held])
  {
    hide Consistent, Holds;
    Open(w, at);
    TakeQueueClause(w, at);
    Unmoved(w, w.(queue := w.queue[1..]), at, w.queue[0], Held);
    UnmovedInLine(w, w.(queue := w.queue[1..]), at, w.queue[0], Held);
    Close(w.(queue := w.queue[1..]), at[w.queue[0] := Held]);
  }

  lemma TakeRunningClause(w: World, at: map<Id, Place>, t: Worker)
    requires Holds(RunningOnes, w, at) && Holds(Stages, w, at) && t in w.running
    ensures w.running[t] in at && at[w.running[t]].Running?
    ensures Holds(RunningOnes, w.(running := w.running - {t}), at[w.running[t] := Held])
            && Holds(Stages, w.(running := w.running - {t}), at[w.running[t] := Held])
  {
  }

  lemma TakeRunning(w: World, at: map<Id, Place>, t: Worker)
    requires Consistent(w, at) && t in w.running
    ensures w.running[t] in at && Consistent(w.(running := w.running - {t}), at[w.running[t] := Held])
  {
    hide Consistent, Holds;
    Open(w, at);
    TakeRunningClause(w, at, t);
    Unmoved(w, w.(running := w.running - {t}), at, w.running[t], Held);
    UnmovedInLine(w, w.(running := w.running - {t}), at, w.running[t], Held);
    Close(w.(running := w.running - {t}), at[w.running[t] := Held]);
  }

  lemma TakeArmedClause(w: World, at: map<Id, Place>, c: Id)
    requires Holds(ArmedOnes, w, at) && Holds(Stages, w, at) && c in w.armed
    ensures c in at && at[c] == Armed
    ensures Holds(ArmedOnes, w.(armed := w.armed - {c}), at[c := Held])
            && Holds(Stages, w.(armed := w.armed - {c}), at[c := Held])
  {
  }

  lemma TakeArmed(w: World, at: map<Id, Place>, c: Id)
    requires Consistent(w, at) && c in w.armed
    ensures c in at && Consistent(w.(armed := w.armed - {c}), at[c := Held])
  {
    hide Consistent, Holds;
    Open(w, at);
    TakeArmedClause(w, at, c);
    Unmoved(w, w.(armed := w.armed - {c}), at, c, Held);
    UnmovedInLine(w, w.(armed := w.armed - {c}), at, c, Held);
    Close(w.(armed := w.armed - {c}), at[c := Held]);
  }

  lemma DestroyHeldClauses(w: World, at: map<Id, Place>, c: Id)
    requires Holds(Registered, w, at) && Holds(Accounts, w, at) && Holds(Stages, w, at) && c in at
    ensures Holds(Registered, Destroy(w, c), at - {c}) && Holds(Accounts, Destroy(w, c), at - {c})
    ensures Holds(Stages, Destroy(w, c), at - {c})
  {
  }

  lemma DestroyHeldPlaces(w: World, at: map<Id, Place>, c: Id)
    requires Holds(ArmedOnes, w, at) && Holds(NewOne, w, at) && Holds(BatchOnes, w, at)
    requires Holds(QueueOnes, w, at) && Holds(RunningOnes, w, at) && c in at && at[c] == Held
    ensures Holds(ArmedOnes, Destroy(w, c), at - {c}) && Holds(NewOne, Destroy(w, c), at - {c})
    ensures Holds(BatchOnes, Destroy(w, c), at - {c}) && Holds(QueueOnes, Destroy(w, c), at - {c})
    ensures Holds(RunningOnes, Destroy(w, c), at - {c})
  {
  }

  lemma DestroyHeld(w: World, at: map<Id, Place>, c: Id)
    requires Consistent(w, at) && c in at && at[c] == Held
    ensures Consistent(Destroy(w, c), at - {c})
  {
    hide *;
    Open(w, at);
    DestroyHeldClauses(w, at, c);
    DestroyHeldPlaces(w, at, c);
    Close(Destroy(w, c), at - {c});
  }

  // ---------------------------------------------------------------- the steps

  ghost function AfterPoll(at: map<Id, Place>, events: seq<Event>): map<Id, Place> {
    map c | c in at :: if c in Delivered(events) then InBatch else at[c]
  }

  lemma PollBatch(w: World, at: map<Id, Place>, events: seq<Event>)
    requires Holds(ArmedOnes, w, at) && Holds(BatchOnes, w, at) && Enabled(w, Poll(events))
    ensures Holds(BatchOnes, Apply(w, Poll(events)), AfterPoll(at, events))
    ensures Holds(ArmedOnes, Apply(w, Poll(events)), AfterPoll(at, events))
    ensures forall c :: c in Delivered(events) ==> c in at && at[c] == Armed
  {
    forall i | 0 <= i < |events| && HasClient(events[i])
      ensures events[i].client in Delivered(events)
    {
      assert events[i] in events;
    }
  }

  lemma PollPlaces(w: World, at: map<Id, Place>, events: seq<Event>)
    requires Enabled(w, Poll(events)) && forall c :: c in Delivered(events) ==> c in at && at[c] == Armed
    requires Holds(NewOne, w, at) && Holds(QueueOnes, w, at) && Holds(RunningOnes, w, at)
    ensures var w', at' := Apply(w, Poll(events)), AfterPoll(at, events);
            Holds(NewOne, w', at') && Holds(QueueOnes, w', at') && Holds(RunningOnes, w', at')
  {
  }

  lemma PollAccounts(w: World, at: map<Id, Place>, events: seq<Event>)
    requires Enabled(w, Poll(events)) && Holds(Registered, w, at) && Holds(Accounts, w, at) && Holds(Stages, w, at)
    ensures var w', at' := Apply(w, Poll(events)), AfterPoll(at, events);
            Holds(Registered, w', at') && Holds(Accounts, w', at') && Holds(Stages, w', at')
  {
    hide Delivered;
  }

  lemma PollKeeps(w: World, at: map<Id, Place>, events: seq<Event>)
    requires Consistent(w, at) && Settled(at) && Enabled(w, Poll(events))
    ensures Consistent(Apply(w, Poll(events)), AfterPoll(at, events)) && Settled(AfterPoll(at, events))
  {
    hide Consistent, Holds, Enabled, Apply;
    Open(w, at);
    PollBatch(w, at, events);
    PollPlaces(w, at, events);
    PollAccounts(w, at, events);
    Close(Apply(w, Poll(events)), AfterPoll(at, events));
  }

  /** An event without a client is done with. */
  lemma SkipEvent(w: World, at: map<Id, Place>)
    requires Consistent(w, at) && w.batch != [] && !HasClient(w.batch[0])
    ensures Consistent(w.(batch := w.batch[1..]), at)
  {
    Open(w, at);
    var w' := w.(batch := w.batch[1..]);
    forall c | c in Delivered(w.batch)
      ensures c in Delivered(w'.batch)
    {
      var e :| e in w.batch && HasClient(e) && e.client == c;
      assert e in w'.batch;
    }
    Close(w', at);
  }

  /** A connection is accepted while every slot is taken: client_create destroys it at once. */
  lemma Reject(w: World, at: map<Id, Place>, c: Id)
    requires Consistent(w, at) && c !in w.accepted
    ensures Consistent(w.(accepted := w.accepted + {c}, destroyed := w.destroyed + [c]), at)
  {
    Open(w, at);
    Close(w.(accepted := w.accepted + {c}, destroyed := w.destroyed + [c]), at);
  }

  ghost function Admitted(w: World, c: Id): World { w.(accepted := w.accepted + {c}, slots := Added(w.slots, c)) }

  lemma AdmitSlots(w: World, at: map<Id, Place>, c: Id)
    requires Holds(Registered, w, at) && c !in at && FreeSlot(w.slots) < |w.slots|
    ensures Holds(Registered, Admitted(w, c), at[c := Held])
  {
    var slots := Added(w.slots, c);
    assert Some(c) !in w.slots;
    assert slots[FreeSlot(w.slots)] == Some(c);
    forall x | x in at
      ensures Some(x) in slots
    {
      var i :| 0 <= i < |w.slots| && w.slots[i] == Some(x);
      assert slots[i] == Some(x);
    }
  }

  lemma AdmitAccounts(w: World, at: map<Id, Place>, c: Id)
    requires Holds(Accounts, w, at) && Holds(Stages, w, at) && c !in w.accepted && w.stage == Loop
    ensures Holds(Accounts, Admitted(w, c), at[c := Held]) && Holds(Stages, Admitted(w, c), at[c := Held]) && c !in at
  {
  }

  lemma AdmitPlaces(w: World, at: map<Id, Place>, c: Id)
    requires Holds(ArmedOnes, w, at) && Holds(NewOne, w, at) && Holds(BatchOnes, w, at)
    requires Holds(QueueOnes, w, at) && Holds(RunningOnes, w, at) && c !in at
    ensures Holds(ArmedOnes, Admitted(w, c), at[c := Held]) && Holds(NewOne, Admitted(w, c), at[c := Held])
    ensures Holds(BatchOnes, Admitted(w, c), at[c := Held]) && Holds(QueueOnes, Admitted(w, c), at[c := Held])
    ensures Holds(RunningOnes, Admitted(w, c), at[c := Held])
  {
  }

  lemma Admit(w: World, at: map<Id, Place>, c: Id)
    requires Consistent(w, at) && c !in w.accepted && w.stage == Loop && FreeSlot(w.slots) < |w.slots|
    ensures c !in at && Consistent(Admitted(w, c), at[c := Held])
  {
    hide *;
    Open(w, at);
    AdmitAccounts(w, at, c);
    AdmitSlots(w, at, c);
    AdmitPlaces(w, at, c);
    Close(Admitted(w, c), at[c := Held]);
  }

  lemma ChangeStage(w: World, at: map<Id, Place>, stage: Stage)
    requires Consistent(w, at) && Holds(Stages, w.(stage := stage), at)
    ensures Consistent(w.(stage := stage), at)
  {
    Open(w, at);
    Close(w.(stage := stage), at);
  }

  /** client_rearm keeps the books either way. */
  lemma RearmKeeps(w: World, at: map<Id, Place>, c: Id, ok: bool) returns (at': map<Id, Place>)
    requires Consistent(w, at) && c in at && at[c] == Held && Settled(at - {c})
    ensures Consistent(Rearm(w, c, ok), at') && Settled(at')
  {
    hide Consistent;
    if ok {
      PutArmed(w, at, c);
      at' := at[c := Armed];
      assert forall x :: x in at' ==> x == c || x in at - {c};
    } else {
      DestroyHeld(w, at, c);
      at' := at - {c};
    }
  }

  lemma AcceptKeeps(w: World, at: map<Id, Place>, c: Id, initOk: bool) returns (at': map<Id, Place>)
    requires Consistent(w, at) && Settled(at) && Enabled(w, Accept(c, initOk))
    ensures Consistent(Apply(w, Accept(c, initOk)), at') && Settled(at')
  {
    hide Consistent;
    var w1 := w.(batch := w.batch[1..]);
    SkipEvent(w, at);
    at' := at;
    if FreeSlot(w.slots) == |w.slots| {
      Reject(w1, at, c);
    } else {
      Admit(w1, at, c);
      if initOk {
        PutNew(Admitted(w1, c), at[c := Held], c);
        at' := at[c := Held][c := New];
      } else {
        DestroyHeld(Admitted(w1, c), at[c := Held], c);
        at' := at[c := Held] - {c};
      }
    }
  }

  lemma EnqueueKeeps(w: World, at: map<Id, Place>, taken: bool, rearmed: bool) returns (at': map<Id, Place>)
    requires Consistent(w, at) && Settled(at) && Enabled(w, Enqueue(taken, rearmed))
    ensures Consistent(Apply(w, Enqueue(taken, rearmed)), at') && Settled(at')
  {
    hide Consistent;
    var c := w.batch[0].client;
    var w1 := w.(batch := w.batch[1..]);
    TakeBatch(w, at);
    if taken {
      PutQueue(w1, at[c := Held], c);
      at' := at[c := Held][c := Queued];
    } else {
      at' := RearmKeeps(w1, at[c := Held], c, rearmed);
    }
  }

  lemma FinishKeeps(w: World, at: map<Id, Place>, t: Worker, success: bool, rearmed: bool) returns (at': map<Id, Place>)
    requires Consistent(w, at) && Settled(at) && Enabled(w, Finish(t, success, rearmed))
    ensures Consistent(Apply(w, Finish(t, success, rearmed)), at') && Settled(at')
  {
    hide Consistent;
    TakeRunning(w, at, t);
    assert Apply(w, Finish(t, success, rearmed))
        == Rearm(w.(running := w.running - {t}), w.running[t], success && rearmed);
    at' := RearmKeeps(w.(running := w.running - {t}), at[w.running[t] := Held], w.running[t], success && rearmed);
  }

  lemma StartKeeps(w: World, at: map<Id, Place>, t: Worker) returns (at': map<Id, Place>)
    requires Consistent(w, at) && Settled(at) && Enabled(w, Start(t))
    ensures Consistent(Apply(w, Start(t)), at') && Settled(at')
  {
    StartStage(w, at);
    hide Consistent;
    var c := w.queue[0];
    TakeQueue(w, at);
    PutRunning(w.(queue := w.queue[1..]), at[c := Held], c, t);
    at' := at[c := Held][c := Running(t)];
  }

  /** While something is queued the registry is not being swept. */
  lemma StartStage(w: World, at: map<Id, Place>)
    requires Consistent(w, at) && w.queue != []
    ensures w.stage == Loop || w.stage == Draining
  {
    assert Holds(Stages, w, at);
  }

  /** When the sweep comes to a client, it is an armed one. */
  lemma OnlyArmedLeft(w: World, at: map<Id, Place>)
    requires Consistent(w, at) && Settled(at) && Enabled(w, Sweep) && w.slots[w.stage.idx].Some?
    ensures w.slots[w.stage.idx].value in w.armed
  {
    Open(w, at);
  }

  lemma SweepOn(w: World, at: map<Id, Place>)
    requires Consistent(w, at) && Enabled(w, Sweep) && w.slots[w.stage.idx].None?
    ensures Holds(Stages, w.(stage := if w.stage.idx + 1 == |w.slots| then Done else Sweeping(w.stage.idx + 1)), at)
  {
    Open(w, at);
  }

  lemma SweepKeeps(w: World, at: map<Id, Place>) returns (at': map<Id, Place>)
    requires Consistent(w, at) && Settled(at) && Enabled(w, Sweep)
    ensures Consistent(Apply(w, Sweep), at') && Settled(at')
  {
    hide Consistent, Holds;
    var next := if w.stage.idx + 1 == |w.slots| then Done else Sweeping(w.stage.idx + 1);
    var c := w.slots[w.stage.idx];
    if c.None? {
      at' := at;
      SweepOn(w, at);
      ChangeStage(w, at, next);
    } else {
      OnlyArmedLeft(w, at);
      TakeArmed(w, at, c.value);
      var w1 := w.(armed := w.armed - {c.value});
      DestroyHeld(w1, at[c.value := Held], c.value);
      at' := at[c.value := Held] - {c.value};
      SweepOn(Destroy(w1, c.value), at');
      ChangeStage(Destroy(w1, c.value), at', next);
    }
  }

  lemma LeaveKeeps(w: World, at: map<Id, Place>, step: Step)
    requires Consistent(w, at) && (step.LeaveLoop? || step.Drained?) && Enabled(w, step)
    ensures Consistent(Apply(w, step), at)
  {
    Open(w, at);
    ChangeStage(w, at, if step.LeaveLoop? then Draining else Sweeping(0));
  }

  /** Every step keeps the invariant. */
  lemma StepKeepsInv(w: World, step: Step)
    requires Inv(w) && Enabled(w, step)
    ensures Inv(Apply(w, step))
  {
    var at :| Consistent(w, at) && Settled(at);
    var at' := at;
    match step {
      case Poll(events) =>
        PollKeeps(w, at, events);
        at' := AfterPoll(at, events);
      case AcceptFails => SkipEvent(w, at);
      case Accept(c, initOk) => at' := AcceptKeeps(w, at, c, initOk);
      case Arm(ok) => at' := ArmKeeps(w, at, ok);
      case DropHangup => at' := DropKeeps(w, at);
      case Enqueue(taken, rearmed) => at' := EnqueueKeeps(w, at, taken, rearmed);
      case Start(t) => at' := StartKeeps(w, at, t);
      case Finish(t, success, rearmed) => at' := FinishKeeps(w, at, t, success, rearmed);
      case LeaveLoop => LeaveKeeps(w, at, step);
      case Drained => LeaveKeeps(w, at, step);
      case Sweep => at' := SweepKeeps(w, at);
    }
    assert Consistent(Apply(w, step), at') && Settled(at');
  }

  lemma ArmKeeps(w: World, at: map<Id, Place>, ok: bool) returns (at': map<Id, Place>)
    requires Consistent(w, at) && Settled(at) && Enabled(w, Arm(ok))
    ensures Consistent(Apply(w, Arm(ok)), at') && Settled(at')
  {
    hide Consistent;
    TakeNew(w, at);
    at' := RearmKeeps(w.(new_ := None), at[w.new_.value := Held], w.new_.value, ok);
  }

  lemma DropKeeps(w: World, at: map<Id, Place>) returns (at': map<Id, Place>)
    requires Consistent(w, at) && Settled(at) && Enabled(w, DropHangup)
    ensures Consistent(Apply(w, DropHangup), at') && Settled(at')
  {
    hide Consistent;
    var c := w.batch[0].client;
    TakeBatch(w, at);
    DestroyHeld(w.(batch := w.batch[1..]), at[c := Held], c);
    at' := at[c := Held] - {c};
  }

  // ---------------------------------------------------------------- runs of the server

  /** A run from the empty server. */
  ghost predicate IsRun(ws: seq<World>, steps: seq<Step>) {
    && |ws| == |steps| + 1 && ws[0] == InitWorld()
    && forall i :: 0 <= i < |steps| ==> Enabled(ws[i], steps[i]) && ws[i + 1] == Apply(ws[i], steps[i])
  }

  lemma {:induction false} RunKeepsInv(ws: seq<World>, steps: seq<Step>, n: nat)
    requires IsRun(ws, steps) && n < |ws|
    ensures Inv(ws[n])
  {
    if n == 0 {
      InitIsConsistent();
    } else {
      RunKeepsInv(ws, steps, n - 1);
      assert Enabled(ws[n - 1], steps[n - 1]);
      StepKeepsInv(ws[n - 1], steps[n - 1]);
    }
  }

  /** The spots in which the server can keep a pointer to a client. */
  datatype Spot = NewSpot | ArmedSpot | BatchSpot(i: nat) | QueueSpot(i: nat) | WorkerSpot(worker: Worker)

  ghost predicate IsAt(w: World, c: Id, spot: Spot) {
    match spot
    case NewSpot => w.new_ == Some(c)
    case ArmedSpot => c in w.armed
    case BatchSpot(i) => i < |w.batch| && HasClient(w.batch[i]) && w.batch[i].client == c
    case QueueSpot(i) => i < |w.queue| && w.queue[i] == c
    case WorkerSpot(t) => t in w.running && w.running[t] == c
  }

  /** The spot that belongs to a place. */
  lemma SpotOf(w: World, at: map<Id, Place>, c: Id) returns (spot: Spot)
    requires Consistent(w, at) && Settled(at) && c in at
    ensures IsAt(w, c, spot)
  {
    Open(w, at);
    match at[c] {
      case New => spot := NewSpot;
      case Armed => spot := ArmedSpot;
      case InBatch =>
        var e :| e in w.batch && HasClient(e) && e.client == c;
        var i :| 0 <= i < |w.batch| && w.batch[i] == e;
        spot := BatchSpot(i);
      case Queued =>
        var i :| 0 <= i < |w.queue| && w.queue[i] == c;
        spot := QueueSpot(i);
      case Running(t) => spot := WorkerSpot(t);
    }
  }

  lemma SpotFitsPlace(w: World, at: map<Id, Place>, c: Id, spot: Spot)
    requires Consistent(w, at) && IsAt(w, c, spot)
    ensures c in at
    ensures at[c] == match spot
                     case NewSpot => New
                     case ArmedSpot => Armed
                     case BatchSpot(_) => InBatch
                     case QueueSpot(_) => Queued
                     case WorkerSpot(t) => Running(t)
  {
    Open(w, at);
  }

  lemma SameLineSameSpot(w: World, at: map<Id, Place>, c: Id, a: Spot, b: Spot)
    requires Consistent(w, at) && IsAt(w, c, a) && IsAt(w, c, b)
    requires (a.BatchSpot? && b.BatchSpot?) || (a.QueueSpot? && b.QueueSpot?)
    ensures a == b
  {
    Open(w, at);
    if a.i < b.i {
    } else if b.i < a.i {
    }
  }

  /** A client is registered exactly when it is in some spot, and then it is in one spot only. */
  lemma ExactlyOneSpot(w: World, c: Id)
    requires Inv(w)
    ensures Some(c) in w.slots <==> exists spot :: IsAt(w, c, spot)
    ensures forall a, b :: IsAt(w, c, a) && IsAt(w, c, b) ==> a == b
  {
    var at :| Consistent(w, at) && Settled(at);
    assert Holds(Registered, w, at);
    if Some(c) in w.slots {
      var spot := SpotOf(w, at, c);
    }
    forall a, b | IsAt(w, c, a) && IsAt(w, c, b)
      ensures a == b
    {
      SpotFitsPlace(w, at, c, a);
      SpotFitsPlace(w, at, c, b);
      if a.BatchSpot? || a.QueueSpot? {
        SameLineSameSpot(w, at, c, a, b);
      }
    }
    forall spot | IsAt(w, c, spot)
      ensures Some(c) in w.slots
    {
      SpotFitsPlace(w, at, c, spot);
    }
  }

  /** In every reachable state no two workers handle the same client, and nobody handles a client that
      has been destroyed. */
  lemma NoSharedClient(ws: seq<World>, steps: seq<Step>, n: nat, t1: Worker, t2: Worker)
    requires IsRun(ws, steps) && n < |ws| && t1 in ws[n].running && t2 in ws[n].running
    requires ws[n].running[t1] == ws[n].running[t2]
    ensures t1 == t2 && ws[n].running[t1] !in ws[n].destroyed
  {
    RunKeepsInv(ws, steps, n);
    var w, c := ws[n], ws[n].running[t1];
    ExactlyOneSpot(w, c);
    assert IsAt(w, c, WorkerSpot(t1)) && IsAt(w, c, WorkerSpot(t2));
    var at :| Consistent(w, at) && Settled(at);
    SpotFitsPlace(w, at, c, WorkerSpot(t1));
    assert Holds(Accounts, w, at);
  }

  lemma AllGone(w: World)
    requires Inv(w) && w.stage.Done?
    ensures forall c :: c in w.accepted <==> c in w.destroyed
    ensures forall i, j :: 0 <= i < j < |w.destroyed| ==> w.destroyed[i] != w.destroyed[j]
  {
    var at :| Consistent(w, at) && Settled(at);
    Open(w, at);
  }

  /** Once server_destroy has swept the registry, every accepted client has been destroyed exactly once. */
  lemma DestroyedExactlyOnce(ws: seq<World>, steps: seq<Step>, n: nat)
    requires IsRun(ws, steps) && n < |ws| && ws[n].stage.Done?
    ensures forall c :: c in ws[n].accepted <==> c in ws[n].destroyed
    ensures forall i, j :: 0 <= i < j < |ws[n].destroyed| ==> ws[n].destroyed[i] != ws[n].destroyed[j]
  {
    RunKeepsInv(ws, steps, n);
    AllGone(ws[n]);
  }

  /** Destroying is for good: the log only grows, and so does the set of accepted connections. */
  lemma StepOnlyDestroysMore(w: World, step: Step)
    requires Enabled(w, step)
    ensures w.destroyed <= Apply(w, step).destroyed && |Apply(w, step).destroyed| <= |w.destroyed| + 1
    ensures w.accepted <= Apply(w, step).accepted
  {
  }

  // ---------------------------------------------------------------- the end

  /** The loop of registry_destroy as steps. */
  ghost function Swept(w: World): World
    decreases if w.stage.Sweeping? then |w.slots| - w.stage.idx else 0
  {
    if Enabled(w, Sweep) then Swept(Apply(w, Sweep)) else w
  }

  /** What the sweep has still to destroy. */
  ghost function ListedFrom(slots: seq<Option<Id>>, i: nat): seq<Id>
    decreases |slots| - i
  {
    if i >= |slots| then []
    else (if slots[i].None? then [] else [slots[i].value]) + ListedFrom(slots, i + 1)
  }

  lemma {:induction false} ListedFromAgree(a: seq<Option<Id>>, b: seq<Option<Id>>, i: nat)
    requires |a| == |b| && forall j :: i <= j < |a| ==> a[j] == b[j]
    ensures ListedFrom(a, i) == ListedFrom(b, i)
    decreases |a| - i
  {
    if i < |a| {
      ListedFromAgree(a, b, i + 1);
    }
  }

  lemma {:induction false} ListedSplit(slots: seq<Option<Id>>, i: nat)
    requires i <= |slots|
    ensures Listed(slots, |slots|) == Listed(slots, i) + ListedFrom(slots, i)
    decreases |slots| - i
  {
    if i < |slots| {
      ListedSplit(slots, i + 1);
    }
  }

  lemma SweepSlots(w: World)
    requires Inv(w) && Enabled(w, Sweep)
    ensures |Apply(w, Sweep).slots| == |w.slots|
    ensures forall j :: w.stage.idx < j < |w.slots| ==> Apply(w, Sweep).slots[j] == w.slots[j]
  {
    var at :| Consistent(w, at) && Settled(at);
    assert Holds(Registered, w, at);
  }

  lemma SweepStep(w: World)
    requires Inv(w) && Enabled(w, Sweep)
    ensures var w', i := Apply(w, Sweep), w.stage.idx;
            && w.destroyed + ListedFrom(w.slots, i) == w'.destroyed + ListedFrom(w'.slots, i + 1)
            && |w'.slots| == |w.slots|
            && w'.stage == (if i + 1 == |w.slots| then Done else Sweeping(i + 1))
  {
    hide Inv, Consistent, Holds, Removed;
    SweepSlots(w);
    ListedFromAgree(w.slots, Apply(w, Sweep).slots, w.stage.idx + 1);
  }

  /** The sweep ends, and it destroys what is registered, slot by slot. */
  lemma {:induction false} SweepDestroysRegistered(w: World)
    requires Inv(w) && w.stage.Sweeping? && w.stage.idx < |w.slots|
    ensures Swept(w).stage.Done?
    ensures Swept(w).destroyed == w.destroyed + ListedFrom(w.slots, w.stage.idx)
    decreases |w.slots| - w.stage.idx
  {
    StepKeepsInv(w, Sweep);
    SweepStep(w);
    var w' := Apply(w, Sweep);
    if w'.stage.Sweeping? {
      SweepDestroysRegistered(w');
    }
  }

  // ---------------------------------------------------------------- draining

  /** How many steps the workers still have to make: two for a client that waits, one for a client in hand. */
  ghost function LeftToDo(w: World): nat { 2 * |w.queue| + |w.running| }

  ghost predicate IsPoolStep(step: Step) { step.Start? || step.Finish? }

  /** While the main thread waits for the pool nobody but the workers moves, and each of their steps brings the
      pool one step closer to its end. */
  lemma DrainStep(w: World, step: Step)
    requires w.stage == Draining && Enabled(w, step) && !step.Drained?
    ensures IsPoolStep(step) && Apply(w, step).stage == Draining
    ensures LeftToDo(Apply(w, step)) + 1 == LeftToDo(w)
  {
    if step.Finish? {
      RemoveOne(w.running, step.worker);
    }
  }

  lemma RemoveOne(m: map<Worker, Id>, t: Worker)
    requires t in m
    ensures |m - {t}| + 1 == |m|
  {
    assert (m - {t}).Keys == m.Keys - {t};
    assert |m.Keys - {t}| + 1 == |m.Keys|;
  }

  /** As long as something is left to do some worker can do it. */
  lemma DrainGoesOn(w: World)
    requires w.stage == Draining && LeftToDo(w) > 0
    ensures exists step :: IsPoolStep(step) && Enabled(w, step)
  {
    if w.running != map[] {
      var t :| t in w.running;
      assert IsPoolStep(Finish(t, true, true)) && Enabled(w, Finish(t, true, true));
    } else {
      assert IsPoolStep(Start(0)) && Enabled(w, Start(0));
    }
  }

  lemma DrainedAtZero(w: World)
    requires w.stage == Draining
    ensures LeftToDo(w) == 0 <==> Enabled(w, Drained)
  {
  }

  ghost predicate CanDrain(w: World, steps: seq<Step>)
    decreases |steps|
  {
    steps == [] || (Enabled(w, steps[0]) && !steps[0].Drained? && CanDrain(Apply(w, steps[0]), steps[1..]))
  }

  ghost function AfterDrain(w: World, steps: seq<Step>): World
    requires CanDrain(w, steps)
    decreases |steps|
  {
    if steps == [] then w else AfterDrain(Apply(w, steps[0]), steps[1..])
  }

  /** tpool_wait ends: from the end of the loop on the workers make, in whatever order, exactly LeftToDo steps
      until the pool is drained, and until then one of them can always make one. */
  lemma {:induction false} DrainTerminates(w: World, steps: seq<Step>)
    requires Inv(w) && w.stage == Draining && CanDrain(w, steps)
    ensures var w' := AfterDrain(w, steps);
            && Inv(w') && w'.stage == Draining && w'.accepted == w.accepted
            && |steps| + LeftToDo(w') == LeftToDo(w)
            && (Enabled(w', Drained) <==> |steps| == LeftToDo(w))
            && (!Enabled(w', Drained) ==> exists step :: IsPoolStep(step) && Enabled(w', step))
    decreases |steps|
  {
    hide Inv, Enabled, Apply, LeftToDo, IsPoolStep;
    if steps == [] {
      DrainedAtZero(w);
      if !Enabled(w, Drained) {
        DrainGoesOn(w);
      }
    } else {
      DrainStep(w, steps[0]);
      StepKeepsInv(w, steps[0]);
      SameClients(w, steps[0]);
      DrainTerminates(Apply(w, steps[0]), steps[1..]);
    }
  }

  lemma SameClients(w: World, step: Step)
    requires w.stage == Draining && Enabled(w, step)
    ensures Apply(w, step).accepted == w.accepted
  {
  }

  /** From a drained pool on, shutdown runs to its end and destroys exactly the clients that the loop of
      the registry table lists. */
  lemma ShutdownFinishes(w: World)
    requires Inv(w) && Enabled(w, Drained)
    ensures Swept(Apply(w, Drained)).stage.Done?
    ensures Swept(Apply(w, Drained)).destroyed == w.destroyed + Listed(w.slots, |w.slots|)
  {
    hide Inv;
    HasSlots(w);
    StepKeepsInv(w, Drained);
    SweepDestroysRegistered(Apply(w, Drained));
    ListedSplit(w.slots, 0);
  }

  lemma HasSlots(w: World)
    requires Inv(w)
    ensures |w.slots| > 0
  {
    var at :| Consistent(w, at) && Settled(at);
    assert Holds(Registered, w, at);
  }

  lemma {:induction false} SweptInOrder(w: World)
    requires Inv(w)
    ensures Inv(Swept(w)) && Swept(w).accepted == w.accepted
    decreases if w.stage.Sweeping? then |w.slots| - w.stage.idx else 0
  {
    hide Inv;
    if Enabled(w, Sweep) {
      StepKeepsInv(w, Sweep);
      SweptInOrder(Apply(w, Sweep));
    }
  }

  /** The whole of shutdown, from the moment the main thread has left its loop: after as many steps of the
      workers as there are left to do, whatever their order and their outcomes, the sweep begins, ends, and
      every client that was ever accepted has been destroyed, exactly once. */
  lemma ShutdownFromLoop(w: World, steps: seq<Step>)
    requires Inv(w) && w.stage == Draining && CanDrain(w, steps) && |steps| == LeftToDo(w)
    ensures Enabled(AfterDrain(w, steps), Drained)
    ensures var end := Swept(Apply(AfterDrain(w, steps), Drained));
            && end.stage.Done?
            && (forall c :: c in w.accepted <==> c in end.destroyed)
            && (forall i, j :: 0 <= i < j < |end.destroyed| ==> end.destroyed[i] != end.destroyed[j])
  {
    hide *;
    DrainTerminates(w, steps);
    var drained := AfterDrain(w, steps);
    ShutdownFinishes(drained);
    StepKeepsInv(drained, Drained);
    SameClients(drained, Drained);
    SweptInOrder(Apply(drained, Drained));
    AllGone(Swept(Apply(drained, Drained)));
  }
}
