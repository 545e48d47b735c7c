/** File transfers beside everything else that the server does. The relay of a file is taken apart into
    its steps: waiting for file_lock, sending one payload after another while other handlers put their
    frames on the same sockets, giving up, and letting the lock go. What every target's socket has been
    given is kept in order, for any number of senders and targets.

    The steps that touch the shared state are those of ChatRuns; RunRefines says so. */
module ChatTransfers {
  import opened ByteStrings
  import opened ChatTypes
  import I = ChatInvariant
  import M = ChatModel
  import R = ChatRuns
  import W = Wire
  import F = ChatFraming
  import C = ChatClient
  import L = ChatListener

  /** Where opcode_file_send is, from the check to its end: the target and what is to be sent to it. */
  datatype Stage =
    | Waiting(target: Session, ps: C.Sent)
    | Holding(target: Session, ps: C.Sent, sent: nat)
    | Released(target: Session, whole: bool)

  datatype Server = Server(
    w: R.World,
    fileLock: Option<Session>,
    stage: map<Session, Stage>,
    down: map<Session, seq<L.Down>>,       // what has been put on each client's socket
    past: map<Session, seq<seq<W.Payload>>>)    // history: what each ended relay has sent to a target

  datatype Move =
    | Handler(op: R.Op)
    | FileSend(s: Session, sid: nat, username: Bytes, ps: C.Sent)
    | Acquire(s: Session)
    | SendChunk(s: Session)
    | GiveUp(s: Session)
    | Release(s: Session)
    | FileDone(s: Session)
    | Answer(s: Session, d: L.Down)

  function FlagByte(flag: MsgFlag): Byte {
    match flag
    case MSG => 0
    case NOTIF => 1
    case LIST => 2
    case JOIN => L.JOIN_FLAG
    case FILE => L.FILE_FLAG
  }

  /** msg_send as seen on the socket. */
  function ToDown(f: Frame): L.Down { L.Msg(F.SUCCESS, FlagByte(f.flag), f.payload) }

  function Put(down: map<Session, seq<L.Down>>, t: Session, d: L.Down): map<Session, seq<L.Down>> {
    if t in down then down[t := down[t] + [d]] else down
  }

  function PutAll(down: map<Session, seq<L.Down>>, frames: seq<Frame>): map<Session, seq<L.Down>>
    decreases |frames|
  {
    if frames == [] then down else PutAll(Put(down, frames[0].to, ToDown(frames[0])), frames[1..])
  }

  /** The frames that a handler sends to clients. */
  ghost function OutOf(w: R.World, op: R.Op): seq<Frame>
    requires R.Enabled(w, op)
  {
    if op.RespondOp? then M.Respond(w.st, op.s, op.sid, op.flag, op.choice, op.username, op.created).out
    else if op.DisconnectOp? then M.Disconnect(w.st, op.s, op.sid, op.username).out
    else if R.Plain(op) then R.PlainReply(w.st, op).out
    else []
  }

  /** When a move can be made. The text of a message has come out of one request packet; an answer is any
      frame of the client's format that carries no file, such as a return code or an entry of a list. */
  ghost predicate Allowed(v: Server, m: Move) {
    match m
    case Handler(op) =>
      && !op.FileSendOp? && !op.FileDoneOp? && R.Enabled(v.w, op)
      && (op.MsgSendOp? ==> |op.msg| <= W.MAX_PACKET)
    case FileSend(s, sid, username, _) => R.Enabled(v.w, R.FileSendOp(s, sid, username))
    case Acquire(s) => s in v.stage && v.stage[s].Waiting? && v.fileLock.None?
    case SendChunk(s) => s in v.stage && v.stage[s].Holding? && v.stage[s].sent < |v.stage[s].ps|
    case GiveUp(s) => s in v.stage && v.stage[s].Holding? && v.stage[s].sent < |v.stage[s].ps|
    case Release(s) => s in v.stage && v.stage[s].Holding? && v.stage[s].sent == |v.stage[s].ps|
    case FileDone(s) =>
      s in v.stage && v.stage[s].Released? && R.Enabled(v.w, R.FileDoneOp(s, v.stage[s].whole))
    case Answer(s, d) => s in v.w.st.sessions && L.WellFormed(d) && !L.IsFile(d)
  }

  function Kept(past: map<Session, seq<seq<W.Payload>>>, t: Session, ps: seq<W.Payload>):
    map<Session, seq<seq<W.Payload>>>
  {
    if t in past && ps != [] then past[t := past[t] + [ps]] else past
  }

  ghost function Do(v: Server, m: Move): Server
    requires Allowed(v, m)
  {
    match m
    case Handler(op) =>
      var w' := R.Step(v.w, op);
      if op.Connect? then v.(w := w', down := v.down[op.s := []], past := v.past[op.s := []])
      else v.(w := w', down := PutAll(v.down, OutOf(v.w, op)))
    case FileSend(s, sid, username, ps) =>
      var w' := R.Step(v.w, R.FileSendOp(s, sid, username));
      if M.FileCheck(v.w.st, s, sid, username) == Success
      then v.(w := w', stage := v.stage[s := Waiting(v.w.st.online[username], ps)]) else v.(w := w')
    case Acquire(s) =>
      v.(fileLock := Some(s), stage := v.stage[s := Holding(v.stage[s].target, v.stage[s].ps, 0)])
    case SendChunk(s) =>
      var st := v.stage[s];
      v.(stage := v.stage[s := st.(sent := st.sent + 1)],
         down := Put(v.down, st.target, L.Msg(F.SUCCESS, L.FILE_FLAG, st.ps[st.sent])))
    case GiveUp(s) =>
      var st := v.stage[s];
      v.(fileLock := None, stage := v.stage[s := Released(st.target, false)],
         past := Kept(v.past, st.target, st.ps[..st.sent]))
    case Release(s) =>
      var st := v.stage[s];
      v.(fileLock := None, stage := v.stage[s := Released(st.target, C.Whole(st.ps))],
         past := Kept(v.past, st.target, st.ps))
    case FileDone(s) =>
      v.(w := R.Step(v.w, R.FileDoneOp(s, v.stage[s].whole)), stage := v.stage - {s})
    case Answer(s, d) => v.(down := Put(v.down, s, d))
  }

  ghost predicate Start(v: Server, general: Room) {
    R.Init(v.w, general) && v.fileLock == None && v.stage == map[] && v.down == map[] && v.past == map[]
  }

  // ---------------------------------------------------------------- what holds in every state

  /** What the relay that holds file_lock has sent to t so far. */
  ghost function Current(v: Server, t: Session): seq<W.Payload> {
    if v.fileLock.Some? && v.fileLock.value in v.stage
    then
      var st := v.stage[v.fileLock.value];
      if st.Holding? && st.target == t && st.sent <= |st.ps| then st.ps[..st.sent] else []
    else []
  }

  ghost function Flat(bs: seq<seq<W.Payload>>): seq<W.Payload> {
    if bs == [] then [] else Flat(bs[..|bs| - 1]) + bs[|bs| - 1]
  }

  /** How many of the payloads are flagged LAST. */
  ghost function Lasts(ps: seq<Bytes>): nat {
    if ps == [] then 0
    else
      var last := ps[|ps| - 1];
      Lasts(ps[..|ps| - 1]) + if last != [] && W.IsLast(last[0]) then 1 else 0
  }

  function Payloads(ds: seq<L.Down>): seq<Bytes> { L.FilePayloads(ds, |ds|) }

  predicate AllWellFormed(ds: seq<L.Down>) { forall i :: 0 <= i < |ds| ==> L.WellFormed(ds[i]) }

  /** Senders whose relay into t has gone through but is not yet accounted for. */
  ghost function Ended(v: Server, t: Session): set<Session> {
    set s | s in v.stage && v.stage[s] == Released(t, true)
  }

  /** A sender is in a stage exactly while it relays, and has the target of its check. */
  ghost predicate StagesFit(v: Server) {
    && (forall s :: s in v.stage ==> s in v.w.phase && v.w.phase[s] == R.Relaying(v.stage[s].target))
    && (forall s :: s in v.w.phase && v.w.phase[s].Relaying? ==> s in v.stage)
  }

  /** file_lock is held by exactly the sender that is sending. */
  ghost predicate LockFits(v: Server) {
    && (forall s :: s in v.stage ==> (v.stage[s].Holding? <==> v.fileLock == Some(s)))
    && (forall s :: s in v.stage && v.stage[s].Holding? ==> v.stage[s].sent <= |v.stage[s].ps|)
    && (v.fileLock.Some? ==> v.fileLock.value in v.stage)
  }

  /** The file payloads on every live client's socket are those of the ended relays into it, one after
      another, and behind them what the relay under way has sent. */
  ghost predicate StreamsFit(v: Server) {
    forall t :: t in v.w.st.sessions ==>
      t in v.down && t in v.past && Payloads(v.down[t]) == Flat(v.past[t]) + Current(v, t)
  }

  ghost predicate FramesFit(v: Server) {
    forall t :: t in v.w.st.sessions && t in v.down ==> AllWellFormed(v.down[t])
  }

  /** Whole files sent are those that the server has accounted for, and those that it is about to. */
  ghost predicate CountsFit(v: Server) {
    forall t :: t in v.w.st.sessions && t in v.past && t in v.w.relays ==>
      Lasts(Flat(v.past[t])) == v.w.relays[t] + |Ended(v, t)|
  }

  datatype Part = WorldPart | StagePart | LockPart | StreamPart | FramePart | CountPart

  ghost predicate Fits(part: Part, v: Server) {
    match part
    case WorldPart => R.WorldInv(v.w)
    case StagePart => StagesFit(v)
    case LockPart => LockFits(v)
    case StreamPart => StreamsFit(v)
    case FramePart => FramesFit(v)
    case CountPart => CountsFit(v)
  }

  ghost predicate InOrder(v: Server) { forall part: Part :: Fits(part, v) }

  lemma OpenServer(v: Server)
    requires InOrder(v)
    ensures R.WorldInv(v.w) && StagesFit(v) && LockFits(v) && StreamsFit(v) && FramesFit(v) && CountsFit(v)
  {
    hide R.WorldInv, StagesFit, LockFits, StreamsFit, FramesFit, CountsFit;
    assert Fits(WorldPart, v) && Fits(StagePart, v) && Fits(LockPart, v);
    assert Fits(StreamPart, v) && Fits(FramePart, v) && Fits(CountPart, v);
  }

  lemma EstablishServer(v: Server)
    requires R.WorldInv(v.w) && StagesFit(v) && LockFits(v) && StreamsFit(v) && FramesFit(v) && CountsFit(v)
    ensures InOrder(v)
  {
    hide R.WorldInv, StagesFit, LockFits, StreamsFit, FramesFit, CountsFit;
  }

  lemma StartInOrder(v: Server, general: Room)
    requires Start(v, general)
    ensures InOrder(v)
  {
    R.InitEstablishes(v.w, general);
    EstablishServer(v);
  }

  // ---------------------------------------------------------------- sequences of payloads

  lemma {:induction false} PayloadsOfPrefix(a: seq<L.Down>, b: seq<L.Down>, n: nat)
    requires n <= |a|
    ensures L.FilePayloads(a + b, n) == L.FilePayloads(a, n)
  {
    if n > 0 {
      PayloadsOfPrefix(a, b, n - 1);
    }
  }

  lemma PayloadsOfOneMore(ds: seq<L.Down>, d: L.Down)
    ensures Payloads(ds + [d]) == Payloads(ds) + if L.IsFile(d) then [d.payload] else []
  {
    PayloadsOfPrefix(ds, [d], |ds|);
  }

  lemma FlatOfOneMore(bs: seq<seq<W.Payload>>, ps: seq<W.Payload>)
    ensures Flat(bs + [ps]) == Flat(bs) + ps
  {
    assert (bs + [ps])[..|bs|] == bs;
  }

  lemma {:induction false} LastsJoin(a: seq<Bytes>, b: seq<Bytes>)
    ensures Lasts(a + b) == Lasts(a) + Lasts(b)
    decreases |b|
  {
    if b == [] {
      assert a + b == a;
    } else {
      LastsJoin(a, b[..|b| - 1]);
      assert (a + b)[..|a + b| - 1] == a + b[..|b| - 1];
    }
  }

  lemma {:induction false} NoLasts(ps: seq<W.Payload>)
    requires forall i :: 0 <= i < |ps| ==> !W.IsLast(ps[i][0])
    ensures Lasts(ps) == 0
    decreases |ps|
  {
    if ps != [] {
      NoLasts(ps[..|ps| - 1]);
    }
  }

  /** A relay has sent a payload flagged LAST exactly when it has sent all of a whole file. */
  lemma LastsOfSent(ps: C.Sent, n: nat)
    requires n <= |ps|
    ensures Lasts(ps[..n]) == if n == |ps| && C.Whole(ps) then 1 else 0
  {
    if n > 0 {
      NoLasts(ps[..n - 1]);
      assert ps[..n][..n - 1] == ps[..n - 1];
    }
  }

  // ---------------------------------------------------------------- frames of the other handlers

  /** A frame that carries no file and fits the size field. */
  predicate Ordinary(f: Frame) { f.flag != FILE && |f.payload| < 0x1_0000 }

  predicate AllOrdinary(frames: seq<Frame>) { forall i :: 0 <= i < |frames| ==> Ordinary(frames[i]) }

  lemma OrdinaryDown(f: Frame)
    requires Ordinary(f)
    ensures L.WellFormed(ToDown(f)) && !L.IsFile(ToDown(f))
  {
  }

  /** The same clients are known, they have been sent the same files, and nothing malformed. */
  ghost predicate NoFilesBetween(down: map<Session, seq<L.Down>>, down': map<Session, seq<L.Down>>) {
    && down'.Keys == down.Keys
    && forall t :: t in down ==>
         Payloads(down'[t]) == Payloads(down[t]) && (AllWellFormed(down[t]) ==> AllWellFormed(down'[t]))
  }

  lemma PutNoFile(down: map<Session, seq<L.Down>>, s: Session, d: L.Down)
    requires L.WellFormed(d) && !L.IsFile(d)
    ensures NoFilesBetween(down, Put(down, s, d))
  {
    if s in down {
      PayloadsOfOneMore(down[s], d);
    }
  }

  lemma {:induction false} PutOrdinary(down: map<Session, seq<L.Down>>, frames: seq<Frame>)
    requires AllOrdinary(frames)
    ensures NoFilesBetween(down, PutAll(down, frames))
    decreases |frames|
  {
    hide L.WellFormed, L.IsFile, ToDown, Ordinary, Payloads;
    if frames != [] {
      OrdinaryDown(frames[0]);
      PutNoFile(down, frames[0].to, ToDown(frames[0]));
      PutOrdinary(Put(down, frames[0].to, ToDown(frames[0])), frames[1..]);
    }
  }

  lemma BroadcastOrdinary(st: ChatState, r: Room, flag: MsgFlag, payload: Bytes)
    requires flag != FILE && |payload| < 0x1_0000
    ensures AllOrdinary(M.Broadcast(st, r, flag, payload))
  {
  }

  /** The names that handlers put into texts are those of logged-in users, which are short. */
  lemma NameIsShort(st: ChatState, s: Session)
    requires I.Inv(st) && s in st.sessions && st.sessions[s].id != 0
    ensures |st.sessions[s].username| <= 16
  {
    I.Open(st);
  }

  lemma OnlineIsShort(st: ChatState, username: Bytes)
    requires I.Inv(st) && username in st.online
    ensures st.online[username] in st.sessions && st.sessions[st.online[username]].id != 0
    ensures |st.sessions[st.online[username]].username| <= 16
  {
    I.Open(st);
  }

  lemma RespondOrdinary(st: ChatState, s: Session, sid: nat, flag: Byte, choice: Byte, username: Bytes, created: Room)
    requires I.Inv(st) && s in st.sessions
    ensures AllOrdinary(M.Respond(st, s, sid, flag, choice, username, created).out)
  {
    hide I.Inv, M.MoveTo, M.AddRoom, M.PendingAt;
    if M.SessionValid(st, s, sid) && username in st.online {
      NameIsShort(st, s);
      OnlineIsShort(st, username);
    }
  }

  lemma RequestOrdinary(st: ChatState, s: Session, sid: nat, flag: Byte, username: Bytes)
    requires I.Inv(st) && s in st.sessions
    ensures AllOrdinary(M.Request(st, s, sid, flag, username).out)
  {
    hide I.Inv, M.PendingAt, M.WithTable, M.Table;
    if M.SessionValid(st, s, sid) {
      NameIsShort(st, s);
    }
  }

  lemma DeleteOrdinary(st: ChatState, s: Session, sid: nat, name: Bytes)
    requires s in st.sessions
    ensures AllOrdinary(M.Delete(st, s, sid, name).out)
  {
    hide M.DeleteRoom;
    var found := M.FindRoom(st, st.store, name);
    if found.Some? {
      BroadcastOrdinary(st, found.value, NOTIF, Ascii("Current room deleted by admin"));
      BroadcastOrdinary(st, found.value, JOIN, []);
    }
  }

  lemma MsgSendOrdinary(st: ChatState, s: Session, sid: nat, msg: Bytes)
    requires s in st.sessions && |msg| <= W.MAX_PACKET
    ensures AllOrdinary(M.MsgSend(st, s, sid, msg).out)
  {
    hide M.Broadcast;
    if st.sessions[s].room.Some? {
      BroadcastOrdinary(st, st.sessions[s].room.value, MSG, msg);
    }
  }

  lemma OthersOrdinary(st: ChatState, op: R.Op)
    requires op.s in st.sessions && (op.LogoutOp? || op.JoinOp? || op.PromoteOp?)
    ensures AllOrdinary(R.PlainReply(st, op).out)
  {
    hide M.UserLogout, M.MoveTo, M.RoomFor;
  }

  lemma DisconnectOrdinary(st: ChatState, s: Session, sid: nat, username: Bytes)
    requires s in st.sessions
    ensures AllOrdinary(M.Disconnect(st, s, sid, username).out)
  {
    hide M.UserLogout, M.ClientFree;
  }

  lemma OutOrdinary(w: R.World, op: R.Op)
    requires I.Inv(w.st) && R.Enabled(w, op) && (op.MsgSendOp? ==> |op.msg| <= W.MAX_PACKET)
    ensures AllOrdinary(OutOf(w, op))
  {
    hide I.Inv, M.Respond, M.Request, M.Delete, M.Join, M.MsgSend, M.Disconnect, M.Promote, M.Logout, Ordinary;
    if op.RespondOp? {
      RespondOrdinary(w.st, op.s, op.sid, op.flag, op.choice, op.username, op.created);
    } else if op.DisconnectOp? {
      DisconnectOrdinary(w.st, op.s, op.sid, op.username);
    } else if op.RequestOp? {
      RequestOrdinary(w.st, op.s, op.sid, op.flag, op.username);
    } else if op.DeleteOp? {
      DeleteOrdinary(w.st, op.s, op.sid, op.name);
    } else if op.MsgSendOp? {
      MsgSendOrdinary(w.st, op.s, op.sid, op.msg);
    } else if op.LogoutOp? || op.JoinOp? || op.PromoteOp? {
      OthersOrdinary(w.st, op);
    }
  }

  // ---------------------------------------------------------------- the other handlers

  /** The same senders relay into the same targets. */
  ghost predicate SameRelays(w: R.World, w': R.World) {
    && (forall s :: s in w.phase && w.phase[s].Relaying? ==> s in w'.phase && w'.phase[s] == w.phase[s])
    && (forall s :: s in w'.phase && w'.phase[s].Relaying? ==> s in w.phase && w'.phase[s] == w.phase[s])
  }

  /** No client is new, and no count of relayed files changes. */
  ghost predicate NobodyNew(w: R.World, w': R.World) {
    && w'.st.sessions.Keys <= w.st.sessions.Keys
    && (forall t :: t in w'.relays ==> t in w.relays && w'.relays[t] == w.relays[t])
  }

  /** Most handlers change the phase of their own session, from and to something that is not a relay. */
  lemma OwnPhaseOnly(w: R.World, op: R.Op, w': R.World)
    requires R.Enabled(w, op) && w' == R.Step(w, op) && !op.FileSendOp? && !op.FileDoneOp?
    requires !op.Connect? && !op.Close? && !op.DisconnectOp?
    ensures op.s in w.phase && !w.phase[op.s].Relaying? && op.s in w'.phase && !w'.phase[op.s].Relaying?
    ensures w'.phase == w.phase[op.s := w'.phase[op.s]] && w'.relays == w.relays
  {
    hide M.UserLogout, M.ClientFree, M.LoginCreds, M.LoginCommit, M.Respond, M.Disconnect, R.PlainReply, M.ClientInit;
    hide M.DisconnectTarget, I.Accepts, R.InFlight, R.AcceptsFile;
  }

  /** A client that is dropped was not relaying. */
  lemma DroppedPhase(w: R.World, op: R.Op, w': R.World)
    requires R.Enabled(w, op) && w' == R.Step(w, op) && (op.Close? || op.DisconnectOp?)
    ensures exists x: set<Session> :: Dropped(w, op.s, x, w')
  {
    hide M.UserLogout, M.ClientFree, M.Disconnect, M.DisconnectTarget, R.InFlight;
    if op.Close? {
      assert Dropped(w, op.s, {op.s}, w');
    } else {
      var target := M.DisconnectTarget(w.st, op.s, op.sid, op.username);
      if target.Some? && target.value != op.s {
        assert Dropped(w, op.s, {target.value}, w');
      } else {
        assert Dropped(w, op.s, {}, w');
      }
    }
  }

  ghost predicate Dropped(w: R.World, s: Session, x: set<Session>, w': R.World) {
    && s in w.phase && !w.phase[s].Relaying? && (forall t :: t in x ==> t in w.phase && !w.phase[t].Relaying?)
    && w'.phase.Keys == w.phase.Keys - x && w'.relays == w.relays - x
    && (forall t :: t in w'.phase && t != s ==> w'.phase[t] == w.phase[t])
    && (s in w'.phase ==> !w'.phase[s].Relaying?)
  }

  /** The other handlers neither start nor end a relay, because a session runs one handler at a time. */
  lemma OthersLeaveRelays(w: R.World, op: R.Op, w': R.World)
    requires R.PhasesFit(w) && R.PhasesFit(w') && R.Enabled(w, op) && w' == R.Step(w, op)
    requires !op.FileSendOp? && !op.FileDoneOp? && !op.Connect?
    ensures SameRelays(w, w') && NobodyNew(w, w')
  {
    hide R.Enabled, R.Step;
    if op.Close? || op.DisconnectOp? {
      DroppedPhase(w, op, w');
    } else {
      OwnPhaseOnly(w, op, w');
    }
  }

  lemma SameRelaysStages(v: Server, v': Server)
    requires StagesFit(v) && LockFits(v) && SameRelays(v.w, v'.w) && v'.stage == v.stage && v'.fileLock == v.fileLock
    ensures StagesFit(v') && LockFits(v')
    ensures forall t :: Current(v', t) == Current(v, t) && Ended(v', t) == Ended(v, t)
  {
  }

  lemma SameRelaysStreams(v: Server, v': Server)
    requires StreamsFit(v) && FramesFit(v) && CountsFit(v)
    requires NobodyNew(v.w, v'.w) && NoFilesBetween(v.down, v'.down) && v'.past == v.past
    requires forall t :: Current(v', t) == Current(v, t) && Ended(v', t) == Ended(v, t)
    ensures StreamsFit(v') && FramesFit(v') && CountsFit(v')
  {
    hide Current, Ended, Payloads, AllWellFormed, Flat, Lasts;
  }

  /** A step that starts and ends no relay and sends no file. */
  lemma OtherStep(v: Server, v': Server)
    requires InOrder(v) && R.WorldInv(v'.w) && SameRelays(v.w, v'.w) && NobodyNew(v.w, v'.w)
    requires v'.stage == v.stage && v'.fileLock == v.fileLock && v'.past == v.past && NoFilesBetween(v.down, v'.down)
    ensures InOrder(v')
  {
    hide *;
    OpenServer(v);
    SameRelaysStages(v, v');
    SameRelaysStreams(v, v');
    EstablishServer(v');
  }

  lemma SameWorld(w: R.World)
    ensures SameRelays(w, w) && NobodyNew(w, w)
  {
  }

  lemma HandlerShape(v: Server, op: R.Op)
    requires Allowed(v, Handler(op)) && !op.Connect?
    ensures R.Enabled(v.w, op) && !op.FileSendOp? && !op.FileDoneOp? && (op.MsgSendOp? ==> |op.msg| <= W.MAX_PACKET)
    ensures var v' := Do(v, Handler(op));
            v' == v.(w := R.Step(v.w, op), down := PutAll(v.down, OutOf(v.w, op)))
  {
    hide R.Step, R.Enabled, OutOf, PutAll;
  }

  lemma HandlerStep(v: Server, op: R.Op)
    requires InOrder(v) && Allowed(v, Handler(op)) && !op.Connect? && R.WorldInv(Do(v, Handler(op)).w)
    ensures InOrder(Do(v, Handler(op)))
  {
    hide *;
    var v' := Do(v, Handler(op));
    HandlerShape(v, op);
    OpenServer(v);
    R.OpenWorld(v.w);
    R.OpenWorld(v'.w);
    OthersLeaveRelays(v.w, op, v'.w);
    OutOrdinary(v.w, op);
    PutOrdinary(v.down, OutOf(v.w, op));
    OtherStep(v, v');
  }

  lemma AnswerStep(v: Server, s: Session, d: L.Down)
    requires InOrder(v) && Allowed(v, Answer(s, d))
    ensures InOrder(Do(v, Answer(s, d)))
  {
    hide L.WellFormed, L.IsFile, InOrder, NoFilesBetween, SameRelays, NobodyNew, R.WorldInv, Put;
    PutNoFile(v.down, s, d);
    SameWorld(v.w);
    OpenServer(v);
    OtherStep(v, Do(v, Answer(s, d)));
  }

  // ---------------------------------------------------------------- a new client

  ghost predicate Connected(v: Server, s: Session, v': Server) {
    && s !in v.w.st.sessions && v'.stage == v.stage && v'.fileLock == v.fileLock
    && v'.w.phase == v.w.phase[s := R.Idle] && v'.w.st.sessions.Keys == v.w.st.sessions.Keys + {s}
    && v'.w.relays == v.w.relays[s := 0]
    && v'.down == v.down[s := []] && v'.past == v.past[s := []]
  }

  lemma ConnectShape(v: Server, s: Session)
    requires Allowed(v, Handler(R.Connect(s)))
    ensures Connected(v, s, Do(v, Handler(R.Connect(s))))
  {
  }

  lemma ConnectStages(v: Server, s: Session, v': Server)
    requires StagesFit(v) && LockFits(v) && Connected(v, s, v') && s !in v.w.phase
    ensures StagesFit(v') && LockFits(v')
    ensures forall t :: Current(v', t) == Current(v, t) && Ended(v', t) == Ended(v, t)
  {
  }

  /** Nothing is being sent to a client that is not there. */
  lemma NothingForStrangers(v: Server, s: Session)
    requires R.PhasesFit(v.w) && StagesFit(v) && s !in v.w.st.sessions
    ensures Current(v, s) == [] && Ended(v, s) == {} && s !in v.w.phase
  {
  }

  lemma ConnectStreams(v: Server, s: Session, v': Server)
    requires StreamsFit(v) && FramesFit(v) && Connected(v, s, v')
    requires (forall t :: Current(v', t) == Current(v, t)) && Current(v, s) == []
    ensures StreamsFit(v') && FramesFit(v')
  {
    hide Current;
    forall t | t in v'.w.st.sessions
      ensures t in v'.down && t in v'.past && Payloads(v'.down[t]) == Flat(v'.past[t]) + Current(v', t)
    {
      if t != s {
        assert v'.down[t] == v.down[t] && v'.past[t] == v.past[t];
      }
    }
  }

  lemma ConnectCounts(v: Server, s: Session, v': Server)
    requires CountsFit(v) && Connected(v, s, v')
    requires (forall t :: Ended(v', t) == Ended(v, t)) && Ended(v, s) == {}
    ensures CountsFit(v')
  {
    hide Ended;
  }

  lemma ConnectStep(v: Server, s: Session)
    requires InOrder(v) && Allowed(v, Handler(R.Connect(s))) && R.WorldInv(Do(v, Handler(R.Connect(s))).w)
    ensures InOrder(Do(v, Handler(R.Connect(s))))
  {
    hide *;
    var v' := Do(v, Handler(R.Connect(s)));
    ConnectShape(v, s);
    OpenServer(v);
    R.OpenWorld(v.w);
    NothingForStrangers(v, s);
    ConnectStages(v, s, v');
    ConnectStreams(v, s, v');
    ConnectCounts(v, s, v');
    EstablishServer(v');
  }

  // ---------------------------------------------------------------- the steps of a relay

  ghost predicate Queued(v: Server, s: Session, t: Session, ps: C.Sent, v': Server) {
    && s in v.w.phase && !v.w.phase[s].Relaying?
    && v'.w.phase == v.w.phase[s := R.Relaying(t)] && v'.w.st.sessions == v.w.st.sessions && v'.w.relays == v.w.relays
    && v'.stage == v.stage[s := Waiting(t, ps)]
    && v'.fileLock == v.fileLock && v'.down == v.down && v'.past == v.past
  }

  lemma QueuedStages(v: Server, s: Session, t: Session, ps: C.Sent, v': Server)
    requires StagesFit(v) && LockFits(v) && Queued(v, s, t, ps, v')
    ensures StagesFit(v') && LockFits(v')
    ensures forall u :: Current(v', u) == Current(v, u) && Ended(v', u) == Ended(v, u)
  {
    assert s !in v.stage;
    forall u
      ensures Current(v', u) == Current(v, u) && Ended(v', u) == Ended(v, u)
    {
      assert forall x :: x in Ended(v', u) <==> x in Ended(v, u);
    }
  }

  lemma SameStreams(v: Server, v': Server)
    requires StreamsFit(v) && FramesFit(v) && CountsFit(v)
    requires v'.w.st.sessions == v.w.st.sessions && v'.w.relays == v.w.relays && v'.down == v.down && v'.past == v.past
    requires forall u :: Current(v', u) == Current(v, u) && Ended(v', u) == Ended(v, u)
    ensures StreamsFit(v') && FramesFit(v') && CountsFit(v')
  {
    hide Current, Ended, Payloads, AllWellFormed, Flat, Lasts;
  }

  lemma FileSendShape(v: Server, s: Session, sid: nat, username: Bytes, ps: C.Sent)
    requires Allowed(v, FileSend(s, sid, username, ps))
    ensures var v' := Do(v, FileSend(s, sid, username, ps));
            v' == v || exists t: Session :: Queued(v, s, t, ps, v')
  {
    if M.FileCheck(v.w.st, s, sid, username) == Success {
      assert Queued(v, s, v.w.st.online[username], ps, Do(v, FileSend(s, sid, username, ps)));
    }
  }

  lemma FileSendStep(v: Server, s: Session, sid: nat, username: Bytes, ps: C.Sent)
    requires InOrder(v) && Allowed(v, FileSend(s, sid, username, ps))
    requires R.WorldInv(Do(v, FileSend(s, sid, username, ps)).w)
    ensures InOrder(Do(v, FileSend(s, sid, username, ps)))
  {
    hide InOrder, Allowed, Do, R.WorldInv, StagesFit, LockFits, StreamsFit, FramesFit, CountsFit, Current, Ended;
    var v' := Do(v, FileSend(s, sid, username, ps));
    FileSendShape(v, s, sid, username, ps);
    if v' != v {
      var t: Session :| Queued(v, s, t, ps, v');
      OpenServer(v);
      QueuedStages(v, s, t, ps, v');
      SameStreams(v, v');
      EstablishServer(v');
    }
  }

  lemma AcquireStages(v: Server, s: Session)
    requires StagesFit(v) && LockFits(v) && Allowed(v, Acquire(s))
    ensures var v' := Do(v, Acquire(s));
            && StagesFit(v') && LockFits(v')
            && forall u :: Current(v', u) == Current(v, u) && Ended(v', u) == Ended(v, u)
  {
    var v' := Do(v, Acquire(s));
    forall u
      ensures Current(v', u) == Current(v, u) && Ended(v', u) == Ended(v, u)
    {
      assert forall x :: x in Ended(v', u) <==> x in Ended(v, u);
    }
  }

  lemma AcquireStep(v: Server, s: Session)
    requires InOrder(v) && Allowed(v, Acquire(s))
    ensures InOrder(Do(v, Acquire(s)))
  {
    hide InOrder, R.WorldInv, StagesFit, LockFits, StreamsFit, FramesFit, CountsFit, Current, Ended;
    OpenServer(v);
    AcquireStages(v, s);
    SameStreams(v, Do(v, Acquire(s)));
    EstablishServer(Do(v, Acquire(s)));
  }

  lemma SendStages(v: Server, s: Session)
    requires StagesFit(v) && LockFits(v) && Allowed(v, SendChunk(s))
    ensures var v' := Do(v, SendChunk(s)); var st := v.stage[s];
            && StagesFit(v') && LockFits(v')
            && Current(v', st.target) == Current(v, st.target) + [st.ps[st.sent]]
            && (forall u :: u != st.target ==> Current(v', u) == Current(v, u))
            && forall u :: Ended(v', u) == Ended(v, u)
  {
    var v' := Do(v, SendChunk(s));
    forall u
      ensures Ended(v', u) == Ended(v, u)
    {
      assert forall x :: x in Ended(v', u) <==> x in Ended(v, u);
    }
  }

  lemma SendStreams(v: Server, t: Session, payload: W.Payload, v': Server)
    requires StreamsFit(v) && FramesFit(v) && CountsFit(v) && |payload| <= W.MAX_PACKET
    requires v' == v.(stage := v'.stage, down := Put(v.down, t, L.Msg(F.SUCCESS, L.FILE_FLAG, payload)))
    requires Current(v', t) == Current(v, t) + [payload]
    requires forall u :: u != t ==> Current(v', u) == Current(v, u)
    requires forall u :: Ended(v', u) == Ended(v, u)
    ensures StreamsFit(v') && FramesFit(v') && CountsFit(v')
  {
    hide Current, Ended, Payloads, Flat, Lasts;
    if t in v.down {
      PayloadsOfOneMore(v.down[t], L.Msg(F.SUCCESS, L.FILE_FLAG, payload));
    }
  }

  lemma SendStep(v: Server, s: Session)
    requires InOrder(v) && Allowed(v, SendChunk(s))
    ensures InOrder(Do(v, SendChunk(s)))
  {
    hide InOrder, R.WorldInv, StagesFit, LockFits, StreamsFit, FramesFit, CountsFit, Current, Ended;
    var st := v.stage[s];
    OpenServer(v);
    SendStages(v, s);
    SendStreams(v, st.target, st.ps[st.sent], Do(v, SendChunk(s)));
    EstablishServer(Do(v, SendChunk(s)));
  }

  /** The lock is let go: what was sent becomes a thing of the past. */
  ghost predicate LetGo(v: Server, s: Session, whole: bool, v': Server) {
    && s in v.stage && v.stage[s].Holding? && v.stage[s].sent <= |v.stage[s].ps|
    && (whole <==> v.stage[s].sent == |v.stage[s].ps| && C.Whole(v.stage[s].ps))
    && v' == v.(fileLock := None, stage := v.stage[s := Released(v.stage[s].target, whole)],
                past := Kept(v.past, v.stage[s].target, v.stage[s].ps[..v.stage[s].sent]))
  }

  lemma LetGoShape(v: Server, s: Session)
    requires Allowed(v, GiveUp(s)) || Allowed(v, Release(s))
    ensures Allowed(v, GiveUp(s)) ==> LetGo(v, s, false, Do(v, GiveUp(s)))
    ensures Allowed(v, Release(s)) ==> LetGo(v, s, C.Whole(v.stage[s].ps), Do(v, Release(s)))
  {
    var st := v.stage[s];
    assert st.sent == |st.ps| ==> st.ps[..st.sent] == st.ps;
    hide C.IsSent, C.Whole, Kept;
  }

  lemma LetGoStages(v: Server, s: Session, whole: bool, v': Server)
    requires StagesFit(v) && LockFits(v) && LetGo(v, s, whole, v')
    ensures StagesFit(v') && LockFits(v')
    ensures Current(v, v.stage[s].target) == v.stage[s].ps[..v.stage[s].sent]
    ensures forall u :: Current(v', u) == [] && (u != v.stage[s].target ==> Current(v, u) == [])
  {
    hide C.Whole, Kept;
  }

  lemma LetGoEnded(v: Server, s: Session, whole: bool, v': Server)
    requires LetGo(v, s, whole, v')
    ensures forall u :: u != v.stage[s].target ==> Ended(v', u) == Ended(v, u)
    ensures |Ended(v', v.stage[s].target)| == |Ended(v, v.stage[s].target)| + if whole then 1 else 0
  {
    hide C.Whole, Kept;
    var t := v.stage[s].target;
    assert s !in Ended(v, t);
    assert Ended(v', t) == if whole then Ended(v, t) + {s} else Ended(v, t);
    forall u | u != t
      ensures Ended(v', u) == Ended(v, u)
    {
      assert forall x :: x in Ended(v', u) <==> x in Ended(v, u);
    }
  }

  lemma KeptFlat(past: map<Session, seq<seq<W.Payload>>>, t: Session, ps: seq<W.Payload>)
    requires t in past
    ensures var past' := Kept(past, t, ps);
            && past'.Keys == past.Keys && Flat(past'[t]) == Flat(past[t]) + ps
            && forall u :: u in past && u != t ==> past'[u] == past[u]
  {
    FlatOfOneMore(past[t], ps);
    if ps == [] {
      assert Flat(past[t]) + [] == Flat(past[t]);
    }
  }

  lemma LetGoStreams(v: Server, s: Session, whole: bool, v': Server)
    requires StreamsFit(v) && FramesFit(v) && LetGo(v, s, whole, v') && v.stage[s].target in v.w.st.sessions
    requires Current(v, v.stage[s].target) == v.stage[s].ps[..v.stage[s].sent]
    requires forall u :: Current(v', u) == [] && (u != v.stage[s].target ==> Current(v, u) == [])
    ensures StreamsFit(v') && FramesFit(v')
  {
    hide C.Whole, Kept, Current, Payloads, Flat, AllWellFormed;
    var t, ps := v.stage[s].target, v.stage[s].ps[..v.stage[s].sent];
    KeptFlat(v.past, t, ps);
    forall u | u in v'.w.st.sessions
      ensures u in v'.down && u in v'.past && Payloads(v'.down[u]) == Flat(v'.past[u]) + Current(v', u)
    {
      assert Flat(v'.past[u]) + [] == Flat(v'.past[u]);
    }
  }

  lemma LetGoCounts(v: Server, s: Session, whole: bool, v': Server)
    requires CountsFit(v) && LetGo(v, s, whole, v') && v.stage[s].target in v.past
    requires forall u :: u != v.stage[s].target ==> Ended(v', u) == Ended(v, u)
    requires |Ended(v', v.stage[s].target)| == |Ended(v, v.stage[s].target)| + if whole then 1 else 0
    ensures CountsFit(v')
  {
    var t, ps := v.stage[s].target, v.stage[s].ps[..v.stage[s].sent];
    KeptFlat(v.past, t, ps);
    LastsOfSent(v.stage[s].ps, v.stage[s].sent);
    LastsJoin(Flat(v.past[t]), ps);
    hide C.Whole, Kept, Ended, Flat, Lasts;
  }

  lemma TargetIsLive(v: Server, s: Session)
    requires R.PhasesFit(v.w) && StagesFit(v) && s in v.stage
    ensures v.stage[s].target in v.w.st.sessions && v.stage[s].target in v.w.relays
  {
  }

  lemma LetGoStep(v: Server, s: Session, whole: bool, v': Server)
    requires InOrder(v) && LetGo(v, s, whole, v')
    ensures InOrder(v')
  {
    OpenServer(v);
    R.OpenWorld(v.w);
    hide InOrder, R.WorldInv, R.PhasesFit, StagesFit, LockFits, FramesFit, CountsFit;
    hide Current, Ended, Kept, C.Whole, Payloads, Flat;
    TargetIsLive(v, s);
    LetGoStages(v, s, whole, v');
    LetGoEnded(v, s, whole, v');
    LetGoStreams(v, s, whole, v');
    LetGoCounts(v, s, whole, v');
    EstablishServer(v');
  }

  // ---------------------------------------------------------------- the end of a relay

  ghost predicate DoneWith(v: Server, s: Session, t: Session, whole: bool, v': Server) {
    && s in v.stage && v.stage[s] == Released(t, whole) && s in v.w.phase && s in v'.w.phase
    && v'.stage == v.stage - {s} && v'.fileLock == v.fileLock && v'.down == v.down && v'.past == v.past
    && v'.w.phase == v.w.phase[s := v'.w.phase[s]] && !v'.w.phase[s].Relaying?
    && v'.w.st.sessions.Keys == v.w.st.sessions.Keys
    && v'.w.relays == if whole then R.Bump(v.w.relays, t) else v.w.relays
  }

  lemma FileDoneShape(v: Server, s: Session)
    requires StagesFit(v) && Allowed(v, FileDone(s))
    ensures DoneWith(v, s, v.stage[s].target, v.stage[s].whole, Do(v, FileDone(s)))
  {
  }

  lemma DoneStages(v: Server, s: Session, t: Session, whole: bool, v': Server)
    requires StagesFit(v) && LockFits(v) && DoneWith(v, s, t, whole, v')
    ensures StagesFit(v') && LockFits(v')
    ensures forall u :: Current(v', u) == Current(v, u)
  {
    assert v.fileLock != Some(s);
  }

  lemma DoneEnded(v: Server, s: Session, t: Session, whole: bool, v': Server)
    requires DoneWith(v, s, t, whole, v')
    ensures forall u :: u != t ==> Ended(v', u) == Ended(v, u)
    ensures |Ended(v, t)| == |Ended(v', t)| + if whole then 1 else 0
  {
    assert Ended(v', t) == Ended(v, t) - {s};
    assert s in Ended(v, t) <==> whole;
    forall u | u != t
      ensures Ended(v', u) == Ended(v, u)
    {
      assert forall x :: x in Ended(v', u) <==> x in Ended(v, u);
    }
  }

  lemma DoneStreams(v: Server, s: Session, t: Session, whole: bool, v': Server)
    requires StreamsFit(v) && FramesFit(v) && CountsFit(v) && DoneWith(v, s, t, whole, v') && t in v.w.relays
    requires forall u :: Current(v', u) == Current(v, u)
    requires forall u :: u != t ==> Ended(v', u) == Ended(v, u)
    requires |Ended(v, t)| == |Ended(v', t)| + if whole then 1 else 0
    ensures StreamsFit(v') && FramesFit(v') && CountsFit(v')
  {
    hide Current, Ended, Payloads, AllWellFormed, Flat, Lasts;
  }

  lemma FileDoneStep(v: Server, s: Session)
    requires InOrder(v) && Allowed(v, FileDone(s)) && R.WorldInv(Do(v, FileDone(s)).w)
    ensures InOrder(Do(v, FileDone(s)))
  {
    hide *;
    var v' := Do(v, FileDone(s));
    OpenServer(v);
    R.OpenWorld(v.w);
    ReleasedStage(v, s);
    var t, whole := v.stage[s].target, v.stage[s].whole;
    FileDoneShape(v, s);
    TargetIsLive(v, s);
    DoneStages(v, s, t, whole, v');
    DoneEnded(v, s, t, whole, v');
    DoneStreams(v, s, t, whole, v');
    EstablishServer(v');
  }

  lemma ReleasedStage(v: Server, s: Session)
    requires Allowed(v, FileDone(s))
    ensures s in v.stage && v.stage[s].Released?
  {
  }

  lemma HolderGoesOn(v: Server, s: Session)
    requires LockFits(v) && s in v.stage && v.stage[s].Holding?
    ensures Allowed(v, SendChunk(s)) || Allowed(v, Release(s))
  {
  }

  lemma WaitingGoesOn(v: Server, s: Session)
    requires LockFits(v) && s in v.stage && v.stage[s].Waiting?
    ensures || Allowed(v, Acquire(s))
            || (v.fileLock.Some? && (Allowed(v, SendChunk(v.fileLock.value)) || Allowed(v, Release(v.fileLock.value))))
  {
    if v.fileLock.Some? {
      HolderGoesOn(v, v.fileLock.value);
    }
  }

  lemma RelayMayEnd(w: R.World, s: Session, t: Session, whole: bool)
    requires R.PhasesFit(w) && s in w.phase && w.phase[s] == R.Relaying(t)
    ensures R.Enabled(w, R.FileDoneOp(s, whole))
  {
  }

  lemma ReleasedGoesOn(v: Server, s: Session)
    requires StagesFit(v) && R.PhasesFit(v.w) && s in v.stage && v.stage[s].Released?
    ensures Allowed(v, FileDone(s))
  {
    hide R.PhasesFit, R.Enabled;
    RelayMayEnd(v.w, s, v.stage[s].target, v.stage[s].whole);
  }

  /** A relay can always go on: a waiting sender gets the lock, or the one that has it can send or let go,
      and one that has let go can finish. */
  lemma RelaysNeverStuck(v: Server, s: Session)
    requires InOrder(v) && s in v.stage
    ensures v.stage[s].Waiting? ==>
              || Allowed(v, Acquire(s))
              || (v.fileLock.Some?
                  && (Allowed(v, SendChunk(v.fileLock.value)) || Allowed(v, Release(v.fileLock.value))))
    ensures v.stage[s].Holding? ==> Allowed(v, SendChunk(s)) || Allowed(v, Release(s))
    ensures v.stage[s].Released? ==> Allowed(v, FileDone(s))
  {
    hide *;
    OpenServer(v);
    R.OpenWorld(v.w);
    if v.stage[s].Waiting? {
      WaitingGoesOn(v, s);
    } else if v.stage[s].Holding? {
      HolderGoesOn(v, s);
    } else {
      ReleasedGoesOn(v, s);
    }
  }
}
