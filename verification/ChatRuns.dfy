/** Whole runs of the chat server: every interleaving of the handlers' critical sections, for any
    number of clients, with the invariants that hold after every run.

    A login has three parts and a file transfer two, between which other handlers run; all other
    handlers are one critical section. A session runs one handler at a time. What happens between the
    two parts of a file transfer is the subject of ChatTransfers. */
module ChatRuns {
  import opened ByteStrings
  import opened ChatTypes
  import opened ChatModel
  import opened ChatInvariant
  import opened ChatHandlers

  /** What the one handler of a session is in the middle of. Closing: only the close can follow. */
  datatype Phase = Idle | AwaitCreds | HaveCreds | Relaying(target: Session) | Closing

  datatype World = World(
    st: ChatState,
    phase: map<Session, Phase>,
    granted: nat,                // history: session ids handed out
    accepts: map<Session, nat>,  // history: file requests a session has accepted
    relays: map<Session, nat>)   // history: files relayed into a session

  datatype Op =
    | Connect(s: Session)
    | Close(s: Session)
    | Quit(s: Session)
    | LoginBeginOp(s: Session)
    | LoginCredsOp(s: Session, u: Bytes, p: Bytes, fits: bool)
    | LoginCommitOp(s: Session)
    | LogoutOp(s: Session, sid: nat)
    | MsgSendOp(s: Session, sid: nat, msg: Bytes)
    | JoinOp(s: Session, sid: nat, name: Bytes, created: Room)
    | RequestOp(s: Session, sid: nat, flag: Byte, username: Bytes)
    | RespondOp(s: Session, sid: nat, flag: Byte, choice: Byte, username: Bytes, created: Room)
    | FileSendOp(s: Session, sid: nat, username: Bytes)
    | FileDoneOp(s: Session, relayed: bool)
    | PromoteOp(s: Session, sid: nat, username: Bytes)
    | DisconnectOp(s: Session, sid: nat, username: Bytes)
    | DeleteOp(s: Session, sid: nat, name: Bytes)

  ghost function InFlight(w: World, t: Session): set<Session> {
    set s | s in w.phase && w.phase[s] == Relaying(t)
  }

  ghost predicate At(w: World, s: Session, p: Phase) {
    s in w.st.sessions && s in w.phase && w.phase[s] == p
  }

  /** When a step can be taken. Two things are excluded here. An administrator's disconnect of a client
      that is inside a handler, or into which a relay is in flight, is the race that the repository
      documents. A client that closes by itself while a relay into it is in flight is another exclusion,
      of this model alone: the relay holds on to the session of a client that is gone. */
  ghost predicate Enabled(w: World, op: Op) {
    match op
    case Connect(s) => s !in w.st.sessions
    case Close(s) => (At(w, s, Idle) || At(w, s, Closing)) && InFlight(w, s) == {}
    case LoginCredsOp(s, _, _, _) => At(w, s, AwaitCreds)
    case LoginCommitOp(s) => At(w, s, HaveCreds)
    case JoinOp(s, _, _, created) => At(w, s, Idle) && created !in w.st.rooms
    case RespondOp(s, _, _, _, _, created) => At(w, s, Idle) && created !in w.st.rooms
    case FileDoneOp(s, _) =>
      s in w.st.sessions && s in w.phase && w.phase[s].Relaying? && w.phase[s].target in w.st.sessions
    case DisconnectOp(s, sid, username) =>
      && At(w, s, Idle)
      && (var target := DisconnectTarget(w.st, s, sid, username);
          target.Some? && target.value != s ==> At(w, target.value, Idle) && InFlight(w, target.value) == {})
    case _ => At(w, op.s, Idle)
  }

  function Bump(m: map<Session, nat>, s: Session): map<Session, nat> {
    if s in m then m[s := m[s] + 1] else m
  }

  function Finish(w: World, s: Session, reply: Reply): World {
    w.(st := reply.st, phase := w.phase[s := if reply.keep then Idle else Closing])
  }

  predicate AcceptsFile(reply: Reply, flag: Byte, choice: Byte) {
    reply.ret == Success && flag == 1 && choice != 1
  }

  /** Handlers that are one critical section and move no counter. */
  predicate Plain(op: Op) {
    op.LogoutOp? || op.MsgSendOp? || op.JoinOp? || op.RequestOp? || op.PromoteOp? || op.DeleteOp?
  }

  function PlainReply(st: ChatState, op: Op): Reply
    requires Plain(op) && op.s in st.sessions
  {
    match op
    case LogoutOp(s, sid) => Logout(st, s, sid)
    case MsgSendOp(s, sid, msg) => MsgSend(st, s, sid, msg)
    case JoinOp(s, sid, name, created) => Join(st, s, sid, name, created)
    case RequestOp(s, sid, flag, username) => Request(st, s, sid, flag, username)
    case PromoteOp(s, sid, username) => Promote(st, s, sid, username)
    case DeleteOp(s, sid, name) => Delete(st, s, sid, name)
  }

  ghost function Step(w: World, op: Op): World
    requires Enabled(w, op)
  {
    match op
    case Connect(s) =>
      w.(st := ClientInit(w.st, s), phase := w.phase[s := Idle],
         accepts := w.accepts[s := 0], relays := w.relays[s := 0])
    case Close(s) => Forget(w.(st := ClientFree(w.st, s)), s)
    case Quit(s) => w.(phase := w.phase[s := Closing])
    case LoginBeginOp(s) => w.(st := LoginBegin(w.st, s), phase := w.phase[s := AwaitCreds])
    case LoginCredsOp(s, u, p, fits) =>
      var reply := LoginCreds(w.st, s, u, p, fits);
      w.(st := reply.st, phase := w.phase[s := if reply.ret == Success then HaveCreds else Idle])
    case LoginCommitOp(s) =>
      var rec := w.st.sessions[s];
      Finish(w.(granted := if Accepts(w.st, rec.username, rec.password) then w.granted + 1 else w.granted),
             s, LoginCommit(w.st, s))
    case RespondOp(s, sid, flag, choice, username, created) =>
      var reply := Respond(w.st, s, sid, flag, choice, username, created);
      Finish(w.(accepts := if AcceptsFile(reply, flag, choice) then Bump(w.accepts, s) else w.accepts), s, reply)
    case FileSendOp(s, sid, username) =>
      if FileCheck(w.st, s, sid, username) == Success
      then w.(phase := w.phase[s := Relaying(w.st.online[username])]) else w
    case FileDoneOp(s, relayed) =>
      var t := w.phase[s].target;
      Finish(w.(relays := if relayed then Bump(w.relays, t) else w.relays), s, FileDone(w.st, t, relayed))
    case DisconnectOp(s, sid, username) =>
      var target := DisconnectTarget(w.st, s, sid, username);
      var w' := Finish(w, s, Disconnect(w.st, s, sid, username));
      if target.Some? && target.value != s then Forget(w', target.value) else w'
    case _ => Finish(w, op.s, PlainReply(w.st, op))
  }

  /** The client object and everything counted about it are gone. */
  function Forget(w: World, s: Session): World {
    w.(phase := w.phase - {s}, accepts := w.accepts - {s}, relays := w.relays - {s})
  }

  ghost predicate Init(w: World, general: Room) {
    && InitState(w.st, general)
    && w.phase == map[] && w.granted == 0 && w.accepts == map[] && w.relays == map[]
  }

  // ---------------------------------------------------------------- invariants of a run

  ghost predicate PhasesFit(w: World) {
    && w.phase.Keys == w.st.sessions.Keys && w.accepts.Keys == w.st.sessions.Keys
    && w.relays.Keys == w.st.sessions.Keys
    && (forall s :: s in w.phase && (w.phase[s].AwaitCreds? || w.phase[s].HaveCreds?) ==>
          w.st.sessions[s].id == 0)
    && (forall s :: s in w.phase && w.phase[s].HaveCreds? ==> ValidUsername(w.st.sessions[s].username))
    && (forall s :: s in w.phase && w.phase[s].Relaying? ==>
          w.phase[s].target in w.st.sessions && w.st.sessions[s].id != 0)
  }

  /** Session ids are handed out in order, each to one session. */
  ghost predicate IdsInOrder(w: World) {
    && w.granted < ID_LIMIT && w.st.nextId == (w.granted + 1) % ID_LIMIT
    && (forall s :: s in w.st.sessions ==> w.st.sessions[s].id <= w.granted)
    && (forall s, t | s in w.st.sessions && t in w.st.sessions && w.st.sessions[s].id != 0 ::
          w.st.sessions[s].id == w.st.sessions[t].id ==> s == t)
  }

  /** The permission stored at t can still start a relay. */
  ghost predicate Usable(w: World, t: Session)
    requires t in w.st.sessions
  {
    w.st.sessions[t].allow != [] &&
    forall s :: s in w.st.sessions && s in InFlight(w, t) ==> w.st.sessions[s].username != w.st.sessions[t].allow
  }

  /** Relays done, relays under way and a permission not yet used are covered by accepted requests. */
  ghost predicate Budget(w: World) {
    forall t :: t in w.st.sessions && t in w.relays && t in w.accepts ==>
      w.relays[t] + |InFlight(w, t)| + (if Usable(w, t) then 1 else 0) <= w.accepts[t]
  }

  datatype Ledger = StateLedger | PhaseLedger | IdLedger | BudgetLedger

  ghost predicate InOrder(l: Ledger, w: World) {
    match l
    case StateLedger => Inv(w.st)
    case PhaseLedger => PhasesFit(w)
    case IdLedger => IdsInOrder(w)
    case BudgetLedger => Budget(w)
  }

  ghost predicate WorldInv(w: World) { forall l: Ledger :: InOrder(l, w) }

  lemma OpenWorld(w: World)
    requires WorldInv(w)
    ensures Inv(w.st) && PhasesFit(w) && IdsInOrder(w) && Budget(w)
  {
    assert InOrder(StateLedger, w) && InOrder(PhaseLedger, w) && InOrder(IdLedger, w) && InOrder(BudgetLedger, w);
  }

  lemma EstablishWorld(w: World)
    requires Inv(w.st) && PhasesFit(w) && IdsInOrder(w) && Budget(w)
    ensures WorldInv(w)
  {
  }

  lemma InitEstablishes(w: World, general: Room)
    requires Init(w, general)
    ensures WorldInv(w)
  {
    InitHolds(w.st, general);
    EstablishWorld(w);
  }

  // ---------------------------------------------------------------- steps that leave the ledgers alone

  /** s goes from a phase p0 to p, neither of them a relay. */
  lemma SameFlights(w: World, s: Session, st': ChatState, p: Phase, w': World)
    requires s in w.phase && !w.phase[s].Relaying? && !p.Relaying?
    requires w' == w.(st := st', phase := w.phase[s := p])
    ensures forall t :: InFlight(w', t) == InFlight(w, t)
  {
    forall t
      ensures InFlight(w', t) == InFlight(w, t)
    {
    }
  }

  lemma SteadyBudget(w: World, s: Session, x: Session, st': ChatState, p: Phase, w': World)
    requires PhasesFit(w) && Budget(w) && Steady(w.st, st', x)
    requires s in w.phase && !w.phase[s].Relaying? && !p.Relaying?
    requires x in w.phase && !w.phase[x].Relaying?
    requires w' == w.(st := st', phase := w.phase[s := p])
    ensures Budget(w')
  {
    SameFlights(w, s, st', p, w');
    forall t | t in w'.st.sessions
      ensures Usable(w', t) ==> Usable(w, t)
    {
      assert InFlight(w', t) == InFlight(w, t);
    }
  }

  lemma SteadyIds(w: World, s: Session, x: Session, st': ChatState, p: Phase, w': World)
    requires IdsInOrder(w) && Steady(w.st, st', x)
    requires w' == w.(st := st', phase := w.phase[s := p])
    ensures IdsInOrder(w')
  {
  }

  lemma SteadyPhases(w: World, s: Session, x: Session, st': ChatState, p: Phase, w': World)
    requires PhasesFit(w) && Steady(w.st, st', x)
    requires s in w.phase && !p.Relaying? && x in w.phase && (x == s || w.phase[x].Idle?)
    requires p.AwaitCreds? || p.HaveCreds? ==> st'.sessions[s].id == 0
    requires p.HaveCreds? ==> ValidUsername(st'.sessions[s].username)
    requires w' == w.(st := st', phase := w.phase[s := p])
    ensures PhasesFit(w')
  {
    SteadyRelays(w, s, x, st', p, w');
    forall t | t in w'.phase
      ensures (w'.phase[t].AwaitCreds? || w'.phase[t].HaveCreds?) ==> w'.st.sessions[t].id == 0
      ensures w'.phase[t].HaveCreds? ==> ValidUsername(w'.st.sessions[t].username)
    {
      hide ValidUsername;
      if t != s {
        assert w'.phase[t] == w.phase[t];
        if t != x {
          assert st'.sessions[t].id == w.st.sessions[t].id && st'.sessions[t].username == w.st.sessions[t].username;
        }
      }
    }
  }

  lemma SteadyRelays(w: World, s: Session, x: Session, st': ChatState, p: Phase, w': World)
    requires PhasesFit(w) && Steady(w.st, st', x)
    requires s in w.phase && !p.Relaying? && x in w.phase && (x == s || w.phase[x].Idle?)
    requires w' == w.(st := st', phase := w.phase[s := p])
    ensures forall t :: t in w'.phase && w'.phase[t].Relaying? ==>
              w'.phase[t].target in w'.st.sessions && w'.st.sessions[t].id != 0
  {
  }

  lemma SteadyStep(w: World, s: Session, x: Session, st': ChatState, p: Phase)
    requires WorldInv(w) && Safe(w.st, st', x)
    requires s in w.phase && !w.phase[s].Relaying? && !p.Relaying? && x in w.phase && (x == s || w.phase[x].Idle?)
    requires s in st'.sessions
    requires p.AwaitCreds? || p.HaveCreds? ==> st'.sessions[s].id == 0
    requires p.HaveCreds? ==> ValidUsername(st'.sessions[s].username)
    ensures WorldInv(w.(st := st', phase := w.phase[s := p]))
  {
    OpenWorld(w);
    var w' := w.(st := st', phase := w.phase[s := p]);
    SteadyBudget(w, s, x, st', p, w');
    SteadyIds(w, s, x, st', p, w');
    SteadyPhases(w, s, x, st', p, w');
    EstablishWorld(w');
  }

  lemma RespondSteady(st: ChatState, s: Session, sid: nat, flag: Byte, choice: Byte, username: Bytes, created: Room)
    requires Inv(st) && s in st.sessions && created !in st.rooms
    ensures var reply := Respond(st, s, sid, flag, choice, username, created);
            && reply.st.creds == st.creds
            && (!AcceptsFile(reply, flag, choice) ==> Steady(st, reply.st, s))
            && (AcceptsFile(reply, flag, choice) ==>
                  reply.keep && reply.st.sessions == st.sessions[s := st.sessions[s].(allow := username)]
                  && reply.st.nextId == st.nextId)
  {
    Open(st);
    if !MayAnswer(st, s, sid, flag, username) {
      RespondRefused(st, s, sid, flag, choice, username, created);
    } else if choice == 1 || flag == 1 {
      RespondOther(st, s, sid, flag, choice, username, created);
    } else {
      PmAcceptKeepsInv(st, st.online[username], s, created);
      RespondPm(st, s, sid, flag, choice, username, created);
    }
  }

  lemma PlainSafe(st: ChatState, op: Op)
    requires Inv(st) && Plain(op) && op.s in st.sessions
    requires op.JoinOp? ==> op.created !in st.rooms
    ensures Safe(st, PlainReply(st, op).st, op.s)
  {
    hide Inv;
    match op
    case LogoutOp(s, sid) => LogoutSafe(st, s);
    case MsgSendOp(_, _, _) =>
    case JoinOp(s, sid, name, created) => JoinKeepsInv(st, s, sid, name, created);
    case RequestOp(s, sid, flag, username) => RequestSafe(st, s, sid, flag, username);
    case PromoteOp(s, sid, username) => PromoteSafe(st, s, sid, username);
    case DeleteOp(s, sid, name) => DeleteSafe(st, s, sid, name);
  }

  /** A client that nothing refers to, and into which no relay runs, can be dropped. */
  lemma ForgetPhases(w: World, x: Session, w': World)
    requires PhasesFit(w) && x in w.phase && InFlight(w, x) == {}
    requires w' == Forget(w.(st := RemoveSession(w.st, x)), x)
    ensures PhasesFit(w')
  {
    forall s | s in w'.phase && w'.phase[s].Relaying?
      ensures w'.phase[s].target in w'.st.sessions
    {
      assert s !in InFlight(w, x);
    }
  }

  lemma ForgetIds(w: World, x: Session, w': World)
    requires IdsInOrder(w) && w' == Forget(w.(st := RemoveSession(w.st, x)), x)
    ensures IdsInOrder(w')
  {
  }

  lemma ForgetBudget(w: World, x: Session, w': World)
    requires Budget(w) && x in w.phase && !w.phase[x].Relaying?
    requires w' == Forget(w.(st := RemoveSession(w.st, x)), x)
    ensures Budget(w')
  {
    forall t | t in w'.st.sessions
      ensures InFlight(w', t) == InFlight(w, t)
      ensures Usable(w', t) ==> Usable(w, t) || x in InFlight(w, t)
    {
    }
  }

  lemma ForgetStep(w: World, x: Session)
    requires WorldInv(w) && NoReference(w.st, x) && x in w.st.sessions
    requires x in w.phase && !w.phase[x].Relaying? && InFlight(w, x) == {}
    ensures WorldInv(Forget(w.(st := RemoveSession(w.st, x)), x))
  {
    OpenWorld(w);
    var w' := Forget(w.(st := RemoveSession(w.st, x)), x);
    RemoveKeepsInv(w.st, x);
    ForgetPhases(w, x, w');
    ForgetIds(w, x, w');
    ForgetBudget(w, x, w');
    EstablishWorld(w');
  }

  lemma NobodyRelaysInto(w: World, s: Session)
    requires PhasesFit(w) && s !in w.st.sessions
    ensures InFlight(w, s) == {}
  {
  }

  lemma ConnectBudget(w: World, s: Session, w': World)
    requires Budget(w) && s !in w.st.sessions && InFlight(w, s) == {}
    requires w'.st.sessions == w.st.sessions[s := SessRec([], [], 0, None, [])]
    requires w'.accepts == w.accepts[s := 0] && w'.relays == w.relays[s := 0]
    requires forall t :: InFlight(w', t) == InFlight(w, t)
    ensures Budget(w')
  {
    forall t | t in w.st.sessions
      ensures Usable(w', t) ==> Usable(w, t)
    {
    }
  }

  lemma ConnectFlights(w: World, s: Session, w': World)
    requires PhasesFit(w) && s !in w.st.sessions && w'.phase == w.phase[s := Idle]
    ensures forall t :: InFlight(w', t) == InFlight(w, t)
  {
    forall t
      ensures InFlight(w', t) == InFlight(w, t)
    {
    }
  }

  lemma ConnectPhases(w: World, s: Session, w': World)
    requires PhasesFit(w) && s !in w.st.sessions && w'.phase == w.phase[s := Idle]
    requires w'.st.sessions == w.st.sessions[s := SessRec([], [], 0, None, [])]
    requires w'.accepts == w.accepts[s := 0] && w'.relays == w.relays[s := 0]
    ensures PhasesFit(w')
  {
  }

  lemma ConnectIds(w: World, s: Session, w': World)
    requires IdsInOrder(w) && s !in w.st.sessions && w'.granted == w.granted && w'.st.nextId == w.st.nextId
    requires w'.st.sessions == w.st.sessions[s := SessRec([], [], 0, None, [])]
    ensures IdsInOrder(w')
  {
  }

  lemma ConnectStep(w: World, s: Session)
    requires WorldInv(w) && s !in w.st.sessions
    ensures WorldInv(Step(w, Connect(s)))
  {
    OpenWorld(w);
    var w' := Step(w, Connect(s));
    ConnectKeepsInv(w.st, s);
    ConnectPhases(w, s, w');
    ConnectIds(w, s, w');
    NobodyRelaysInto(w, s);
    ConnectFlights(w, s, w');
    ConnectBudget(w, s, w');
    EstablishWorld(w');
  }

  lemma CloseStep(w: World, s: Session)
    requires WorldInv(w) && Enabled(w, Close(s))
    ensures WorldInv(Step(w, Close(s)))
  {
    assert InOrder(StateLedger, w);
    LogoutSafe(w.st, s);
    var st1 := UserLogout(w.st, s);
    var w1 := w.(st := st1, phase := w.phase[s := Idle]);
    SteadyStep(w, s, s, st1, Idle);
    SameFlights(w, s, st1, Idle, w1);
    ForgetStep(w1, s);
    assert w1.phase - {s} == w.phase - {s};
  }

  lemma LoginCredsSafe(st: ChatState, s: Session, u: Bytes, p: Bytes, fits: bool)
    requires Inv(st) && s in st.sessions && st.sessions[s].id == 0
    ensures Safe(st, LoginCreds(st, s, u, p, fits).st, s)
    ensures LoginCreds(st, s, u, p, fits).st == WithSession(st, s, st.sessions[s].(username := u, password := p))
    ensures LoginCreds(st, s, u, p, fits).ret == Success ==> ValidUsername(u)
  {
    var rec := st.sessions[s].(username := u, password := p);
    RecordKeepsInv(st, s, rec);
    assert st.sessions[s := rec][s := rec.(id := 0)] == st.sessions[s := rec];
  }

  lemma LoginCredsStep(w: World, s: Session, u: Bytes, p: Bytes, fits: bool)
    requires WorldInv(w) && Enabled(w, LoginCredsOp(s, u, p, fits))
    ensures WorldInv(Step(w, LoginCredsOp(s, u, p, fits)))
  {
    assert InOrder(StateLedger, w) && InOrder(PhaseLedger, w);
    var reply := LoginCreds(w.st, s, u, p, fits);
    LoginCredsSafe(w.st, s, u, p, fits);
    SteadyStep(w, s, s, reply.st, if reply.ret == Success then HaveCreds else Idle);
  }

  lemma RoomlessWhenLoggedOut(st: ChatState, s: Session)
    requires Inv(st) && s in st.sessions && st.sessions[s].id == 0
    ensures st.sessions[s].room.None?
  {
    Open(st);
  }

  /** Only the id of s changes, and s is not relaying. */
  ghost predicate OnlyLogsIn(w: World, s: Session, id: nat, w': World)
    requires s in w.st.sessions
  {
    && s in w.phase && !w.phase[s].Relaying?
    && w'.st.sessions == w.st.sessions[s := w.st.sessions[s].(id := id)]
    && w'.phase == w.phase[s := Idle] && w'.accepts == w.accepts && w'.relays == w.relays
  }

  lemma LoginBudget(w: World, s: Session, id: nat, w': World)
    requires Budget(w) && s in w.st.sessions && OnlyLogsIn(w, s, id, w')
    ensures Budget(w')
  {
    forall t
      ensures InFlight(w', t) == InFlight(w, t)
    {
    }
    forall t | t in w'.st.sessions
      ensures Usable(w', t) ==> Usable(w, t)
    {
    }
  }

  lemma LoginPhases(w: World, s: Session, id: nat, w': World)
    requires PhasesFit(w) && s in w.st.sessions && OnlyLogsIn(w, s, id, w')
    ensures PhasesFit(w')
  {
  }

  lemma LoginIds(w: World, s: Session, w': World)
    requires IdsInOrder(w) && s in w.st.sessions && s in w'.st.sessions && w'.granted < ID_LIMIT
    requires w'.st.nextId == (w'.granted + 1) % ID_LIMIT && OnlyLogsIn(w, s, w'.st.sessions[s].id, w')
    requires (w'.granted == w.granted && w'.st.sessions[s].id == 0)
             || (w'.granted == w.granted + 1 && w'.st.sessions[s].id == w'.granted)
    ensures IdsInOrder(w')
  {
  }

  lemma LoginCommitSafe(st: ChatState, s: Session)
    requires Inv(st) && s in st.sessions && st.sessions[s].id == 0 && ValidUsername(st.sessions[s].username)
    requires st.nextId != 0
    ensures var rec := st.sessions[s]; var st' := LoginCommit(st, s).st;
            && Inv(st')
            && (Accepts(st, rec.username, rec.password) ==>
                  st'.sessions == st.sessions[s := rec.(id := st.nextId)] && st'.nextId == (st.nextId + 1) % ID_LIMIT)
            && (!Accepts(st, rec.username, rec.password) ==> st' == st)
            && (forall u :: u in st.creds ==> u in st'.creds && st'.creds[u] == st.creds[u])
  {
    RoomlessWhenLoggedOut(st, s);
    LoginEffect(st, s);
    if Accepts(st, st.sessions[s].username, st.sessions[s].password) {
      AcceptedLoginKeepsInv(st, s);
    } else {
      RefusedLoginKeepsInv(st, s);
    }
  }

  lemma RefusedCommitStep(w: World, s: Session)
    requires WorldInv(w) && Enabled(w, LoginCommitOp(s))
    requires !Accepts(w.st, w.st.sessions[s].username, w.st.sessions[s].password)
    ensures WorldInv(Step(w, LoginCommitOp(s)))
  {
    assert InOrder(StateLedger, w) && InOrder(PhaseLedger, w);
    RoomlessWhenLoggedOut(w.st, s);
    RefusedLoginKeepsInv(w.st, s);
    SafeIfSame(w.st, s);
    SteadyStep(w, s, s, w.st, Idle);
  }

  lemma SafeIfSame(st: ChatState, s: Session)
    requires Inv(st)
    ensures Safe(st, st, s)
  {
  }

  lemma LoginCommitStep(w: World, s: Session)
    requires WorldInv(w) && Enabled(w, LoginCommitOp(s))
    requires Step(w, LoginCommitOp(s)).granted < ID_LIMIT
    ensures WorldInv(Step(w, LoginCommitOp(s)))
  {
    if Accepts(w.st, w.st.sessions[s].username, w.st.sessions[s].password) {
      AcceptedCommitStep(w, s);
    } else {
      RefusedCommitStep(w, s);
    }
  }

  lemma CommitReady(w: World, s: Session)
    requires WorldInv(w) && At(w, s, HaveCreds) && w.granted + 1 < ID_LIMIT
    ensures Inv(w.st) && w.st.sessions[s].id == 0 && ValidUsername(w.st.sessions[s].username)
    ensures w.st.nextId == w.granted + 1
  {
    assert InOrder(StateLedger, w) && InOrder(PhaseLedger, w) && InOrder(IdLedger, w);
  }

  lemma AcceptedCommitStep(w: World, s: Session)
    requires WorldInv(w) && Enabled(w, LoginCommitOp(s)) && w.granted + 1 < ID_LIMIT
    requires Accepts(w.st, w.st.sessions[s].username, w.st.sessions[s].password)
    ensures WorldInv(Step(w, LoginCommitOp(s)))
  {
    CommitReady(w, s);
    LoginCommitSafe(w.st, s);
    LoggedInWorld(w, s, Step(w, LoginCommitOp(s)));
  }

  lemma LoggedInWorld(w: World, s: Session, w': World)
    requires WorldInv(w) && Inv(w'.st) && At(w, s, HaveCreds) && w.granted + 1 < ID_LIMIT
    requires w.st.nextId == w.granted + 1
    requires OnlyLogsIn(w, s, w.st.nextId, w') && w'.granted == w.granted + 1
    requires w'.st.nextId == (w.st.nextId + 1) % ID_LIMIT
    ensures WorldInv(w')
  {
    OpenWorld(w);
    LoginIds(w, s, w');
    LoginBudget(w, s, w.st.nextId, w');
    LoginPhases(w, s, w.st.nextId, w');
    EstablishWorld(w');
  }

  /** An accepted file request may give the target a fresh permission: one more in the budget. */
  lemma AcceptFileBudget(w: World, s: Session, username: Bytes, w': World)
    requires Budget(w) && At(w, s, Idle) && w'.relays == w.relays
    requires w'.st.sessions == w.st.sessions[s := w.st.sessions[s].(allow := username)]
    requires w'.phase == w.phase[s := Idle] && w'.accepts == Bump(w.accepts, s)
    ensures Budget(w')
  {
    forall t
      ensures InFlight(w', t) == InFlight(w, t)
    {
    }
    forall t | t in w'.st.sessions && t != s
      ensures Usable(w', t) ==> Usable(w, t)
    {
    }
  }

  lemma AcceptFileStep(w: World, s: Session, username: Bytes, st': ChatState, w': World)
    requires WorldInv(w) && Inv(st') && At(w, s, Idle)
    requires st'.sessions == w.st.sessions[s := w.st.sessions[s].(allow := username)] && st'.nextId == w.st.nextId
    requires w' == w.(st := st', phase := w.phase[s := Idle], accepts := Bump(w.accepts, s))
    ensures WorldInv(w')
  {
    OpenWorld(w);
    AcceptFileBudget(w, s, username, w');
    AcceptFilePhases(w, s, username, w');
    AcceptFileIds(w, s, username, w');
    EstablishWorld(w');
  }

  lemma AcceptFilePhases(w: World, s: Session, username: Bytes, w': World)
    requires PhasesFit(w) && At(w, s, Idle) && w'.relays == w.relays
    requires w'.st.sessions == w.st.sessions[s := w.st.sessions[s].(allow := username)]
    requires w'.phase == w.phase[s := Idle] && w'.accepts == Bump(w.accepts, s)
    ensures PhasesFit(w')
  {
  }

  lemma AcceptFileIds(w: World, s: Session, username: Bytes, w': World)
    requires IdsInOrder(w) && s in w.st.sessions
    requires w'.st.sessions == w.st.sessions[s := w.st.sessions[s].(allow := username)]
    requires w'.st.nextId == w.st.nextId && w'.granted == w.granted
    ensures IdsInOrder(w')
  {
  }

  lemma RespondStep(w: World, op: Op)
    requires WorldInv(w) && op.RespondOp? && Enabled(w, op)
    ensures WorldInv(Step(w, op))
  {
    assert InOrder(StateLedger, w) && InOrder(PhaseLedger, w);
    var s := op.s;
    var reply := Respond(w.st, s, op.sid, op.flag, op.choice, op.username, op.created);
    RespondKeepsInv(w.st, s, op.sid, op.flag, op.choice, op.username, op.created);
    RespondSteady(w.st, s, op.sid, op.flag, op.choice, op.username, op.created);
    if AcceptsFile(reply, op.flag, op.choice) {
      AcceptFileStep(w, s, op.username, reply.st, Step(w, op));
    } else {
      SteadyStep(w, s, s, reply.st, if reply.keep then Idle else Closing);
    }
  }

  // ---------------------------------------------------------------- file transfers

  /** Only the sender's phase changes, and no relay into another target than t with it. */
  lemma FlightStarts(w: World, s: Session, t: Session, w': World)
    requires s in w.phase && w.phase[s].Idle? && w'.phase == w.phase[s := Relaying(t)]
    ensures InFlight(w', t) == InFlight(w, t) + {s} && s !in InFlight(w, t)
    ensures forall u :: u != t ==> InFlight(w', u) == InFlight(w, u)
  {
    forall u | u != t
      ensures InFlight(w', u) == InFlight(w, u)
    {
    }
  }

  lemma FlightEnds(w: World, s: Session, t: Session, p: Phase, w': World)
    requires s in w.phase && w.phase[s] == Relaying(t) && !p.Relaying? && w'.phase == w.phase[s := p]
    ensures InFlight(w', t) == InFlight(w, t) - {s} && s in InFlight(w, t)
    ensures forall u :: u != t ==> InFlight(w', u) == InFlight(w, u)
  {
    forall u | u != t
      ensures InFlight(w', u) == InFlight(w, u)
    {
    }
  }

  /** A sender that passes the check is the only one that could use the target's permission. */
  lemma PermissionIsUsable(w: World, s: Session, t: Session)
    requires Inv(w.st) && PhasesFit(w) && At(w, s, Idle) && t in w.st.sessions
    requires w.st.sessions[s].id != 0 && w.st.sessions[t].allow == w.st.sessions[s].username
    ensures Usable(w, t)
  {
    Open(w.st);
  }

  lemma FileSendBudget(w: World, s: Session, t: Session, w': World)
    requires Budget(w) && s in w.phase && w.phase[s].Idle? && s in w.st.sessions && t in w.st.sessions
    requires Usable(w, t) && w.st.sessions[t].allow == w.st.sessions[s].username
    requires w' == w.(phase := w.phase[s := Relaying(t)])
    ensures Budget(w')
  {
    FlightStarts(w, s, t, w');
    assert !Usable(w', t) by {
      assert s in InFlight(w', t);
    }
    forall u | u in w'.st.sessions && u != t
      ensures Usable(w', u) ==> Usable(w, u)
    {
    }
  }

  lemma FileSendPhases(w: World, s: Session, t: Session, w': World)
    requires PhasesFit(w) && s in w.phase && t in w.st.sessions && w.st.sessions[s].id != 0
    requires w' == w.(phase := w.phase[s := Relaying(t)])
    ensures PhasesFit(w')
  {
  }

  lemma RelayPermitted(w: World, s: Session, t: Session)
    requires WorldInv(w) && At(w, s, Idle) && t in w.st.sessions
    requires w.st.sessions[s].id != 0 && w.st.sessions[t].allow == w.st.sessions[s].username
    ensures Usable(w, t)
  {
    assert InOrder(StateLedger, w) && InOrder(PhaseLedger, w);
    PermissionIsUsable(w, s, t);
  }

  lemma RelayPhase(w: World, s: Session, t: Session, w': World)
    requires WorldInv(w) && At(w, s, Idle) && t in w.st.sessions
    requires w.st.sessions[s].id != 0 && w.st.sessions[t].allow == w.st.sessions[s].username
    requires w' == w.(phase := w.phase[s := Relaying(t)])
    ensures PhasesFit(w')
  {
    assert InOrder(PhaseLedger, w);
    FileSendPhases(w, s, t, w');
  }

  lemma RelayBudget(w: World, s: Session, t: Session, w': World)
    requires WorldInv(w) && At(w, s, Idle) && t in w.st.sessions
    requires w.st.sessions[s].id != 0 && w.st.sessions[t].allow == w.st.sessions[s].username
    requires w' == w.(phase := w.phase[s := Relaying(t)])
    ensures Budget(w')
  {
    RelayPermitted(w, s, t);
    assert InOrder(BudgetLedger, w);
    FileSendBudget(w, s, t, w');
  }

  lemma RelayKeepsIds(w: World, w': World)
    requires WorldInv(w) && w'.st == w.st && w'.granted == w.granted
    ensures Inv(w'.st) && IdsInOrder(w')
  {
    assert InOrder(StateLedger, w) && InOrder(IdLedger, w);
  }

  lemma RelayStarts(w: World, s: Session, t: Session, w': World)
    requires WorldInv(w) && At(w, s, Idle) && t in w.st.sessions
    requires w.st.sessions[s].id != 0 && w.st.sessions[t].allow == w.st.sessions[s].username
    requires w' == w.(phase := w.phase[s := Relaying(t)])
    ensures WorldInv(w')
  {
    RelayPhase(w, s, t, w');
    RelayBudget(w, s, t, w');
    RelayKeepsIds(w, w');
    EstablishWorld(w');
  }

  lemma FileSendStep(w: World, op: Op)
    requires WorldInv(w) && op.FileSendOp? && Enabled(w, op)
    ensures WorldInv(Step(w, op))
  {
    if FileCheck(w.st, op.s, op.sid, op.username) == Success {
      RelayStarts(w, op.s, w.st.online[op.username], Step(w, op));
    }
  }

  lemma FileDoneBudget(w: World, s: Session, t: Session, relayed: bool, w': World)
    requires Budget(w) && s in w.phase && w.phase[s] == Relaying(t) && t in w.st.sessions
    requires w'.phase == w.phase[s := if relayed then Idle else Closing] && w'.accepts == w.accepts
    requires w'.relays == if relayed then Bump(w.relays, t) else w.relays
    requires w'.st.sessions == if relayed then w.st.sessions[t := w.st.sessions[t].(allow := [])] else w.st.sessions
    ensures Budget(w')
  {
    FlightEnds(w, s, t, if relayed then Idle else Closing, w');
    forall u | u in w'.st.sessions && u != t
      ensures Usable(w', u) ==> Usable(w, u)
    {
    }
  }

  lemma FileDonePhases(w: World, s: Session, t: Session, relayed: bool, w': World)
    requires PhasesFit(w) && s in w.phase && w.phase[s] == Relaying(t) && t in w.st.sessions
    requires w'.phase == w.phase[s := if relayed then Idle else Closing] && w'.accepts == w.accepts
    requires w'.relays == if relayed then Bump(w.relays, t) else w.relays
    requires w'.st.sessions == if relayed then w.st.sessions[t := w.st.sessions[t].(allow := [])] else w.st.sessions
    ensures PhasesFit(w')
  {
  }

  lemma FileDoneIds(w: World, t: Session, relayed: bool, w': World)
    requires IdsInOrder(w) && t in w.st.sessions
    requires w'.st.sessions == if relayed then w.st.sessions[t := w.st.sessions[t].(allow := [])] else w.st.sessions
    requires w'.st.nextId == w.st.nextId && w'.granted == w.granted
    ensures IdsInOrder(w')
  {
  }

  lemma FileDoneStep(w: World, op: Op)
    requires WorldInv(w) && op.FileDoneOp? && Enabled(w, op)
    ensures WorldInv(Step(w, op))
  {
    OpenWorld(w);
    var t := w.phase[op.s].target;
    var w' := Step(w, op);
    if op.relayed {
      RecordKeepsInv(w.st, t, w.st.sessions[t].(allow := []));
    }
    FileDonePhases(w, op.s, t, op.relayed, w');
    FileDoneIds(w, t, op.relayed, w');
    FileDoneBudget(w, op.s, t, op.relayed, w');
    EstablishWorld(w');
  }

  // ---------------------------------------------------------------- disconnecting

  lemma DisconnectOtherStep(w: World, op: Op)
    requires WorldInv(w) && op.DisconnectOp? && Enabled(w, op)
    requires var target := DisconnectTarget(w.st, op.s, op.sid, op.username); target.Some? && target.value != op.s
    ensures WorldInv(Step(w, op))
  {
    assert InOrder(StateLedger, w);
    var s, x := op.s, DisconnectTarget(w.st, op.s, op.sid, op.username).value;
    var st1 := UserLogout(w.st, x);
    var w1 := w.(st := st1, phase := w.phase[s := Idle]);
    LogoutSafe(w.st, x);
    SteadyStep(w, s, x, st1, Idle);
    SameFlights(w, s, st1, Idle, w1);
    CloseIdle(w1, x);
    assert w1.phase - {x} == (w.phase - {x})[s := Idle] == Step(w, op).phase;
  }

  lemma CloseIdle(w: World, x: Session)
    requires WorldInv(w) && At(w, x, Idle) && InFlight(w, x) == {}
    ensures WorldInv(Forget(w.(st := ClientFree(w.st, x)), x))
  {
    CloseStep(w, x);
  }

  lemma DisconnectSelfStep(w: World, op: Op)
    requires WorldInv(w) && op.DisconnectOp? && Enabled(w, op)
    requires var target := DisconnectTarget(w.st, op.s, op.sid, op.username); target.Some? ==> target.value == op.s
    ensures WorldInv(Step(w, op))
  {
    assert InOrder(StateLedger, w);
    var s := op.s;
    var reply := Disconnect(w.st, s, op.sid, op.username);
    if DisconnectTarget(w.st, s, op.sid, op.username).Some? {
      LogoutSafe(w.st, s);
    } else {
      SafeIfSame(w.st, s);
    }
    SteadyStep(w, s, s, reply.st, if reply.keep then Idle else Closing);
  }

  lemma IdleStep(w: World, op: Op)
    requires WorldInv(w) && Enabled(w, op) && (op.Quit? || op.LoginBeginOp? || Plain(op))
    ensures WorldInv(Step(w, op))
  {
    assert InOrder(StateLedger, w);
    if op.Quit? {
      SafeIfSame(w.st, op.s);
      SteadyStep(w, op.s, op.s, w.st, Closing);
    } else if op.LoginBeginOp? {
      LogoutSafe(w.st, op.s);
      LoggedOutId(w.st, op.s);
      SteadyStep(w, op.s, op.s, UserLogout(w.st, op.s), AwaitCreds);
    } else {
      var reply := PlainReply(w.st, op);
      PlainSafe(w.st, op);
      SteadyStep(w, op.s, op.s, reply.st, if reply.keep then Idle else Closing);
    }
  }

  lemma LoggedOutId(st: ChatState, s: Session)
    requires s in st.sessions
    ensures UserLogout(st, s).sessions[s].id == 0
  {
  }

  /** Every step of the server keeps every invariant, as long as the 32-bit session counter has not
      come round. */
  lemma StepKeepsInv(w: World, op: Op)
    requires WorldInv(w) && Enabled(w, op) && Step(w, op).granted < ID_LIMIT
    ensures WorldInv(Step(w, op))
  {
    match op
    case Connect(s) => ConnectStep(w, s);
    case Close(s) => CloseStep(w, s);
    case LoginCredsOp(s, u, p, fits) => LoginCredsStep(w, s, u, p, fits);
    case LoginCommitOp(s) => LoginCommitStep(w, s);
    case RespondOp(_, _, _, _, _, _) => RespondStep(w, op);
    case FileSendOp(_, _, _) => FileSendStep(w, op);
    case FileDoneOp(_, _) => FileDoneStep(w, op);
    case DisconnectOp(s, sid, username) =>
      var target := DisconnectTarget(w.st, s, sid, username);
      if target.Some? && target.value != s {
        DisconnectOtherStep(w, op);
      } else {
        DisconnectSelfStep(w, op);
      }
    case _ => IdleStep(w, op);
  }

  // ---------------------------------------------------------------- whole runs

  ghost predicate Possible(w: World, ops: seq<Op>)
    decreases |ops|
  {
    ops == [] || (Enabled(w, ops[0]) && Possible(Step(w, ops[0]), ops[1..]))
  }

  ghost function After(w: World, ops: seq<Op>): World
    requires Possible(w, ops)
    decreases |ops|
  {
    if ops == [] then w else After(Step(w, ops[0]), ops[1..])
  }

  /** One run after another is a run. */
  lemma {:induction false} AfterBoth(w: World, a: seq<Op>, b: seq<Op>)
    requires Possible(w, a) && Possible(After(w, a), b)
    ensures Possible(w, a + b) && After(w, a + b) == After(After(w, a), b)
    decreases |a|
  {
    hide Enabled, Step;
    if a == [] {
      assert a + b == b;
    } else {
      assert (a + b)[0] == a[0] && (a + b)[1..] == a[1..] + b;
      AfterBoth(Step(w, a[0]), a[1..], b);
    }
  }

  lemma {:induction false} GrantedGrows(w: World, ops: seq<Op>)
    requires Possible(w, ops)
    ensures w.granted <= After(w, ops).granted
    decreases |ops|
  {
    if ops != [] {
      GrantedGrows(Step(w, ops[0]), ops[1..]);
    }
  }

  lemma {:induction false} RunKeepsInv(w: World, ops: seq<Op>)
    requires WorldInv(w) && Possible(w, ops) && After(w, ops).granted < ID_LIMIT
    ensures WorldInv(After(w, ops))
    decreases |ops|
  {
    if ops != [] {
      GrantedGrows(Step(w, ops[0]), ops[1..]);
      StepKeepsInv(w, ops[0]);
      RunKeepsInv(Step(w, ops[0]), ops[1..]);
    }
  }

  /** After any run in which fewer than 2^32 session ids were handed out: the session store lists
      exactly the logged-in sessions under their names; a session's room lists it once and no other
      room does, and is in the room store; whoever is in a room is logged in and has an entry in both
      request tables; and private rooms hold nobody but the two users in their name. */
  lemma ServerStateAgrees(w: World, ops: seq<Op>, general: Room)
    requires Init(w, general) && Possible(w, ops) && After(w, ops).granted < ID_LIMIT
    ensures var st := After(w, ops).st;
            OnlineAgree(st) && RoomsAgree(st) && RoomUsers(st) && StoreGood(st) && PrivateRooms(st)
  {
    InitEstablishes(w, general);
    RunKeepsInv(w, ops);
    OpenWorld(After(w, ops));
    Open(After(w, ops).st);
  }

  /** After any run, the files relayed into a session, finished or under way, are covered by the file
      requests that session accepted. */
  lemma RelaysNeedAccepts(w: World, ops: seq<Op>, general: Room, t: Session)
    requires Init(w, general) && Possible(w, ops) && After(w, ops).granted < ID_LIMIT
    requires t in After(w, ops).st.sessions
    ensures var w' := After(w, ops);
            t in w'.relays && t in w'.accepts && w'.relays[t] + |InFlight(w', t)| <= w'.accepts[t]
  {
    InitEstablishes(w, general);
    RunKeepsInv(w, ops);
    OpenWorld(After(w, ops));
  }

  /** Accounts are never removed and their passwords never change. */
  ghost predicate CredsKept(st: ChatState, st': ChatState) {
    forall u :: u in st.creds ==> u in st'.creds && st'.creds[u] == st.creds[u]
  }

  /** No session has gained an id, except possibly the newest id of all. */
  ghost predicate IdsOnlyRetire(w: World, w': World) {
    forall s :: s in w'.st.sessions && w'.st.sessions[s].id != 0 ==>
      || (s in w.st.sessions && w.st.sessions[s].id == w'.st.sessions[s].id)
      || (w'.granted == w.granted + 1 && w'.st.sessions[s].id == w'.granted)
  }

  lemma SteadyHistory(w: World, x: Session, w': World)
    requires Steady(w.st, w'.st, x) && w'.st.creds == w.st.creds
    ensures CredsKept(w.st, w'.st) && IdsOnlyRetire(w, w')
  {
  }

  lemma DisconnectHistory(w: World, op: Op)
    requires Inv(w.st) && op.DisconnectOp? && Enabled(w, op)
    ensures CredsKept(w.st, Step(w, op).st) && IdsOnlyRetire(w, Step(w, op))
  {
    var target := DisconnectTarget(w.st, op.s, op.sid, op.username);
    if target.Some? {
      LogoutSafe(w.st, target.value);
      LogoutSafe(UserLogout(w.st, target.value), target.value);
    }
  }

  lemma RespondHistory(w: World, op: Op)
    requires Inv(w.st) && op.RespondOp? && Enabled(w, op)
    ensures CredsKept(w.st, Step(w, op).st) && IdsOnlyRetire(w, Step(w, op))
  {
    RespondSteady(w.st, op.s, op.sid, op.flag, op.choice, op.username, op.created);
  }

  lemma LoggedInHistory(w: World, s: Session, w': World)
    requires s in w.st.sessions && w'.st.sessions == w.st.sessions[s := w.st.sessions[s].(id := w.granted + 1)]
    requires w'.granted == w.granted + 1
    ensures IdsOnlyRetire(w, w')
  {
  }

  lemma LoginHistory(w: World, op: Op)
    requires WorldInv(w) && op.LoginCommitOp? && Enabled(w, op) && Step(w, op).granted < ID_LIMIT
    ensures CredsKept(w.st, Step(w, op).st) && IdsOnlyRetire(w, Step(w, op))
  {
    if Accepts(w.st, w.st.sessions[op.s].username, w.st.sessions[op.s].password) {
      CommitReady(w, op.s);
      LoginCommitSafe(w.st, op.s);
      LoggedInHistory(w, op.s, Step(w, op));
    } else {
      LoginEffect(w.st, op.s);
    }
  }

  lemma ClientHistory(w: World, op: Op)
    requires Inv(w.st) && Enabled(w, op) && (op.Connect? || op.Close? || op.Quit? || op.LoginBeginOp?)
    ensures CredsKept(w.st, Step(w, op).st) && IdsOnlyRetire(w, Step(w, op))
  {
    if op.Close? || op.LoginBeginOp? {
      LogoutSafe(w.st, op.s);
    }
  }

  lemma PlainHistory(w: World, op: Op)
    requires Inv(w.st) && Plain(op) && Enabled(w, op)
    ensures CredsKept(w.st, Step(w, op).st) && IdsOnlyRetire(w, Step(w, op))
  {
    PlainSafe(w.st, op);
    SteadyHistory(w, op.s, Step(w, op));
  }

  lemma CredsHistory(w: World, op: Op)
    requires WorldInv(w) && op.LoginCredsOp? && Enabled(w, op)
    ensures CredsKept(w.st, Step(w, op).st) && IdsOnlyRetire(w, Step(w, op))
  {
    assert InOrder(StateLedger, w) && InOrder(PhaseLedger, w);
    LoginCredsSafe(w.st, op.s, op.u, op.p, op.fits);
    SteadyHistory(w, op.s, Step(w, op));
  }

  lemma FileHistory(w: World, op: Op)
    requires Inv(w.st) && (op.FileSendOp? || op.FileDoneOp?) && Enabled(w, op)
    ensures CredsKept(w.st, Step(w, op).st) && IdsOnlyRetire(w, Step(w, op))
  {
  }

  lemma StepHistory(w: World, op: Op)
    requires WorldInv(w) && Enabled(w, op) && Step(w, op).granted < ID_LIMIT
    ensures CredsKept(w.st, Step(w, op).st) && IdsOnlyRetire(w, Step(w, op))
  {
    assert InOrder(StateLedger, w);
    hide WorldInv, Inv, CredsKept, IdsOnlyRetire, Step;
    match op
    case LoginCredsOp(_, _, _, _) => CredsHistory(w, op);
    case LoginCommitOp(_) => LoginHistory(w, op);
    case RespondOp(_, _, _, _, _, _) => RespondHistory(w, op);
    case FileSendOp(_, _, _) => FileHistory(w, op);
    case FileDoneOp(_, _) => FileHistory(w, op);
    case DisconnectOp(_, _, _) => DisconnectHistory(w, op);
    case _ => if Plain(op) { PlainHistory(w, op); } else { ClientHistory(w, op); }
  }

  lemma {:induction false} PasswordsNeverChange(w: World, ops: seq<Op>)
    requires WorldInv(w) && Possible(w, ops) && After(w, ops).granted < ID_LIMIT
    ensures CredsKept(w.st, After(w, ops).st)
    decreases |ops|
  {
    if ops != [] {
      GrantedGrows(Step(w, ops[0]), ops[1..]);
      StepKeepsInv(w, ops[0]);
      StepHistory(w, ops[0]);
      PasswordsNeverChange(Step(w, ops[0]), ops[1..]);
    }
  }

  /** An id that has been handed out and that no session holds any more. */
  ghost predicate Retired(w: World, id: nat) {
    0 < id <= w.granted && forall s :: s in w.st.sessions ==> w.st.sessions[s].id != id
  }

  /** An id that has been logged out never validates again, on any session, in any continuation. */
  lemma {:induction false} RetiredIdsNeverValidate(w: World, ops: seq<Op>, id: nat)
    requires WorldInv(w) && Possible(w, ops) && After(w, ops).granted < ID_LIMIT && Retired(w, id)
    ensures Retired(After(w, ops), id)
    ensures forall s :: s in After(w, ops).st.sessions ==> !SessionValid(After(w, ops).st, s, id)
    decreases |ops|
  {
    if ops != [] {
      GrantedGrows(Step(w, ops[0]), ops[1..]);
      StepKeepsInv(w, ops[0]);
      StepHistory(w, ops[0]);
      RetiredIdsNeverValidate(Step(w, ops[0]), ops[1..], id);
    }
  }
}
