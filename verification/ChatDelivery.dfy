/** What every client hears of every move: which packets a handler, an answer or a relay adds to the end of
    each client's stream, told by the state before the move. */
module ChatDelivery {
  import opened ByteStrings
  import opened ChatTypes
  import opened ChatTransfers
  import I = ChatInvariant
  import M = ChatModel
  import H = ChatHandlers
  import P = ChatPackets
  import T = ChatTransferRuns
  import C = ChatClient
  import R = ChatRuns
  import F = ChatFraming
  import L = ChatListener

  // ---------------------------------------------------------------- all handlers

  /** The frames for t among them, in order. */
  function Addressed(frames: seq<Frame>, t: Session): seq<Frame> {
    if frames == [] then []
    else
      var first := if frames[0].to == t then [frames[0]] else [];
      first + Addressed(frames[1..], t)
  }

  /** MSG_FLAG_MSG and the others, as the client knows them. */
  function Number(flag: MsgFlag): Byte {
    match flag
    case MSG => 0x00
    case NOTIF => 0x01
    case LIST => 0x02
    case JOIN => 0x03
    case FILE => 0x04
  }

  /** One packet per frame: success, the number of its kind, its payload. */
  function Packets(frames: seq<Frame>): (ds: seq<L.Down>)
    ensures |ds| == |frames|
    ensures forall i :: 0 <= i < |ds| ==> ds[i] == L.Msg(0x01, Number(frames[i].flag), frames[i].payload)
  {
    seq(|frames|, i requires 0 <= i < |frames| => L.Msg(0x01, Number(frames[i].flag), frames[i].payload))
  }

  lemma PacketsJoin(f: Frame, rest: seq<Frame>)
    ensures Packets([]) == []
    ensures Packets([f] + rest) == [L.Msg(0x01, Number(f.flag), f.payload)] + Packets(rest)
    ensures Packets([f]) == [L.Msg(0x01, Number(f.flag), f.payload)]
  {
  }

  lemma {:induction false} PutAllHeard(down: map<Session, seq<L.Down>>, frames: seq<Frame>, t: Session)
    requires t in down
    ensures t in PutAll(down, frames)
    ensures PutAll(down, frames)[t] == down[t] + Packets(Addressed(frames, t))
    decreases |frames|
  {
    if frames != [] {
      PutAllHeard(Put(down, frames[0].to, ToDown(frames[0])), frames[1..], t);
      PacketsJoin(frames[0], Addressed(frames[1..], t));
    }
  }

  /** Of every handler a client hears exactly the frames that the handler sends to it, in order, each in a
      packet of its own. */
  lemma HandlerIsHeard(v: Server, op: R.Op, t: Session)
    requires Allowed(v, Handler(op)) && !op.Connect? && t in v.down
    ensures var v' := Do(v, Handler(op));
            && t in v'.down && R.Enabled(v.w, op)
            && v'.down[t] == v.down[t] + Packets(Addressed(OutOf(v.w, op), t))
  {
    hide *;
    HandlerShape(v, op);
    PutAllHeard(v.down, OutOf(v.w, op), t);
  }

  /** In order, and so t has a stream. */
  lemma Listens(v: Server, t: Session)
    requires InOrder(v) && t in v.w.st.sessions
    ensures t in v.down && I.Inv(v.w.st)
  {
    OpenServer(v);
    R.OpenWorld(v.w);
  }

  lemma {:induction false} AddressedJoin(a: seq<Frame>, b: seq<Frame>, t: Session)
    ensures Addressed(a + b, t) == Addressed(a, t) + Addressed(b, t)
  {
    if a == [] {
      assert a + b == b;
    } else {
      AddressedJoin(a[1..], b, t);
      var first := if a[0].to == t then [a[0]] else [];
      assert (a + b)[0] == a[0] && (a + b)[1..] == a[1..] + b;
      F.Regroup(first, Addressed(a[1..], t), Addressed(b, t));
    }
  }

  lemma {:induction false} AddressedNone(frames: seq<Frame>, t: Session)
    requires forall i :: 0 <= i < |frames| ==> frames[i].to != t
    ensures Addressed(frames, t) == []
  {
    if frames != [] {
      AddressedNone(frames[1..], t);
    }
  }

  /** Whoever is sent one frame gets that one. */
  lemma AddressedOne(frames: seq<Frame>, i: nat, t: Session)
    requires i < |frames| && frames[i].to == t
    requires forall j :: 0 <= j < |frames| && j != i ==> frames[j].to != t
    ensures Addressed(frames, t) == [frames[i]]
  {
    var before, after := frames[..i], frames[i + 1..];
    assert frames == before + ([frames[i]] + after);
    AddressedJoin(before, [frames[i]] + after, t);
    AddressedJoin([frames[i]], after, t);
    AddressedNone(before, t);
    AddressedNone(after, t);
  }

  lemma BroadcastAddressed(st: ChatState, r: Room, flag: MsgFlag, payload: Bytes, t: Session)
    requires I.Inv(st) && r in st.rooms && t in st.sessions
    ensures Addressed(M.Broadcast(st, r, flag, payload), t)
            == if st.sessions[t].room == Some(r) then [Frame(t, flag, payload)] else []
  {
    var out := M.Broadcast(st, r, flag, payload);
    H.BroadcastReachesExactlyTheRoom(st, r, flag, payload);
    hide M.Broadcast, I.Inv;
    if st.sessions[t].room == Some(r) {
      var i :| 0 <= i < |out| && out[i] == Frame(t, flag, payload);
      AddressedOne(out, i, t);
    } else {
      AddressedNone(out, t);
    }
  }

  // ---------------------------------------------------------------- handler by handler

  ghost predicate SameRoom(st: ChatState, s: Session, t: Session) {
    s in st.sessions && t in st.sessions && st.sessions[s].room.Some? && st.sessions[t].room == st.sessions[s].room
  }

  ghost predicate OnlineAs(st: ChatState, t: Session, username: Bytes) {
    username in st.online && st.online[username] == t
  }

  /** The request of s is recorded: none of its kind is pending at the user that it asks. */
  ghost predicate Recorded(st: ChatState, s: Session, sid: nat, flag: Byte, username: Bytes) {
    s in st.sessions && H.Reaches(st, s, sid, flag, username) && M.PendingAt(st, M.KindOf(flag).value, username).None?
  }

  ghost predicate Answers(st: ChatState, s: Session, sid: nat, flag: Byte, username: Bytes) {
    s in st.sessions && H.MayAnswer(st, s, sid, flag, username)
  }

  /** The room in which t is before goes. */
  ghost predicate LosesRoom(st: ChatState, st': ChatState, t: Session) {
    t in st.sessions && st.sessions[t].room.Some? && st.sessions[t].room.value !in st'.rooms
  }

  /** What a handler that brings the state from st to st' tells t. */
  ghost function Told(st: ChatState, st': ChatState, op: R.Op, t: Session): seq<Frame> {
    match op
    case MsgSendOp(s, sid, msg) => if P.Known(st, s, sid) && SameRoom(st, s, t) then [Frame(t, MSG, msg)] else []
    case RequestOp(s, sid, flag, username) =>
      if Recorded(st, s, sid, flag, username) && OnlineAs(st, t, username)
      then [Frame(t, NOTIF, RequestNotice(flag) + st.sessions[s].username)] else []
    case RespondOp(s, sid, flag, choice, username, created) =>
      if !Answers(st, s, sid, flag, username) then []
      else if choice == 1 then
        var notice := Frame(t, NOTIF, DeclineNotice(flag) + st.sessions[s].username);
        (if t == s then [notice] else []) + if OnlineAs(st, t, username) then [notice] else []
      else if flag == 0 && created in st'.rooms then
        var notice := Frame(t, JOIN, st'.rooms[created].name);
        (if OnlineAs(st, t, username) then [notice] else []) + if t == s then [notice] else []
      else []
    case PromoteOp(s, sid, username) =>
      if P.KnownAdmin(st, s, sid) && username !in st.admins && OnlineAs(st, t, username)
      then [Frame(t, NOTIF, Ascii("You are now an admin"))] else []
    case DisconnectOp(s, sid, username) =>
      if P.KnownAdmin(st, s, sid) && OnlineAs(st, t, username)
      then [Frame(t, NOTIF, Ascii("Disconnected by an admin"))] else []
    case DeleteOp(s, sid, _) =>
      if P.KnownAdmin(st, s, sid) && LosesRoom(st, st', t)
      then [Frame(t, NOTIF, Ascii("Current room deleted by admin")), Frame(t, JOIN, [])] else []
    case _ => []
  }

  function RequestNotice(flag: Byte): Bytes {
    if flag == 0 then Ascii("PM request received from ") else Ascii("File transfer request received from ")
  }

  function DeclineNotice(flag: Byte): Bytes {
    if flag == 0 then Ascii("PM request declined by ") else Ascii("File transfer request declined by ")
  }

  /** The frames of the handler for t are what it tells t. */
  ghost predicate Tells(w: R.World, op: R.Op, t: Session)
    requires R.Enabled(w, op)
  {
    Addressed(OutOf(w, op), t) == Told(w.st, R.Step(w, op).st, op, t)
  }

  lemma MessageTells(w: R.World, op: R.Op, t: Session)
    requires R.Enabled(w, op) && op.MsgSendOp? && I.Inv(w.st) && t in w.st.sessions
    ensures Tells(w, op, t)
  {
    I.Open(w.st);
    hide M.Broadcast, I.Inv;
    if P.Known(w.st, op.s, op.sid) && w.st.sessions[op.s].room.Some? {
      BroadcastAddressed(w.st, w.st.sessions[op.s].room.value, MSG, op.msg, t);
    }
  }

  lemma AddressedFew(f: Frame, g: Frame, t: Session)
    ensures Addressed([], t) == []
    ensures Addressed([f], t) == if f.to == t then [f] else []
    ensures Addressed([f, g], t) == (if f.to == t then [f] else []) + if g.to == t then [g] else []
  {
    assert [f][1..] == [] && [g][1..] == [] && [f, g][1..] == [g];
    assert Addressed([g], t) == if g.to == t then [g] else [];
  }

  lemma RequestOut(w: R.World, op: R.Op)
    requires R.Enabled(w, op) && op.RequestOp?
    ensures op.s in w.st.sessions && OutOf(w, op) == M.Request(w.st, op.s, op.sid, op.flag, op.username).out
  {
    hide M.Request;
    assert R.Plain(op);
    assert R.PlainReply(w.st, op) == M.Request(w.st, op.s, op.sid, op.flag, op.username);
  }

  lemma RequestFrames(st: ChatState, s: Session, sid: nat, flag: Byte, username: Bytes)
    requires I.Inv(st) && s in st.sessions
    ensures M.Request(st, s, sid, flag, username).out
            == if Recorded(st, s, sid, flag, username)
               then [Frame(st.online[username], NOTIF, RequestNotice(flag) + st.sessions[s].username)] else []
  {
    I.Open(st);
    hide M.Request, I.Inv, M.PendingAt, H.Reaches, Ascii;
    P.RequestTells(st, s, sid, flag, username);
    H.RequestDiscipline(st, s, sid, flag, username);
  }

  lemma RequestTells(w: R.World, op: R.Op, t: Session)
    requires R.Enabled(w, op) && op.RequestOp? && I.Inv(w.st)
    ensures Tells(w, op, t)
  {
    RequestOut(w, op);
    RequestFrames(w.st, op.s, op.sid, op.flag, op.username);
    hide M.Request, I.Inv, M.PendingAt, OutOf, Addressed, R.Step, H.Reaches, R.Enabled, RequestNotice;
    var out := OutOf(w, op);
    AddressedFew(if |out| > 0 then out[0] else Frame(t, MSG, []), Frame(t, MSG, []), t);
  }

  lemma RespondOut(w: R.World, op: R.Op)
    requires R.Enabled(w, op) && op.RespondOp?
    ensures op.s in w.st.sessions && op.created !in w.st.rooms
    ensures var reply := M.Respond(w.st, op.s, op.sid, op.flag, op.choice, op.username, op.created);
            OutOf(w, op) == reply.out && R.Step(w, op).st == reply.st
  {
    hide M.Respond;
  }

  lemma RespondTells(w: R.World, op: R.Op, t: Session)
    requires R.Enabled(w, op) && op.RespondOp? && I.Inv(w.st)
    ensures Tells(w, op, t)
  {
    RespondOut(w, op);
    P.RespondTells(w.st, op.s, op.sid, op.flag, op.choice, op.username, op.created);
    H.RespondDiscipline(w.st, op.s, op.sid, op.flag, op.choice, op.username, op.created);
    hide M.Respond, I.Inv, M.PendingAt, OutOf, Addressed, R.Step, H.MayAnswer, P.NamedInOrder, R.Enabled, Ascii;
    var out := OutOf(w, op);
    AddressedFew(if |out| > 0 then out[0] else Frame(t, MSG, []), if |out| > 1 then out[1] else Frame(t, MSG, []), t);
  }

  lemma PromoteTells(w: R.World, op: R.Op, t: Session)
    requires R.Enabled(w, op) && op.PromoteOp?
    ensures Tells(w, op, t)
  {
  }

  lemma DisconnectFrames(st: ChatState, s: Session, sid: nat, username: Bytes)
    requires I.OnlineAgree(st) && s in st.sessions
    ensures M.Disconnect(st, s, sid, username).out
            == if P.KnownAdmin(st, s, sid) && username in st.online
               then [Frame(st.online[username], NOTIF, Ascii("Disconnected by an admin"))] else []
  {
    hide M.UserLogout, M.ClientFree, Ascii;
  }

  lemma DisconnectOut(w: R.World, op: R.Op)
    requires R.Enabled(w, op) && op.DisconnectOp?
    ensures op.s in w.st.sessions && OutOf(w, op) == M.Disconnect(w.st, op.s, op.sid, op.username).out
  {
    hide M.Disconnect, M.DisconnectTarget;
  }

  lemma DisconnectTells(w: R.World, op: R.Op, t: Session)
    requires R.Enabled(w, op) && op.DisconnectOp? && I.Inv(w.st)
    ensures Tells(w, op, t)
  {
    I.Open(w.st);
    DisconnectOut(w, op);
    DisconnectFrames(w.st, op.s, op.sid, op.username);
    hide M.Disconnect, I.Inv, I.RoomsAgree, I.RoomUsers, I.UsersKnown, I.StoreGood, I.PrivateRooms, I.OnlineAgree;
    hide OutOf, Addressed, R.Step, R.Enabled, P.KnownAdmin, Ascii;
    var out := OutOf(w, op);
    AddressedFew(if |out| > 0 then out[0] else Frame(t, MSG, []), Frame(t, MSG, []), t);
  }

  lemma DeleteOut(w: R.World, op: R.Op)
    requires R.Enabled(w, op) && op.DeleteOp?
    ensures op.s in w.st.sessions
    ensures var reply := M.Delete(w.st, op.s, op.sid, op.name);
            OutOf(w, op) == reply.out && R.Step(w, op).st == reply.st
  {
    hide M.Delete;
    assert R.Plain(op) && R.PlainReply(w.st, op) == M.Delete(w.st, op.s, op.sid, op.name);
  }

  /** Both packets go to everybody in the room that is deleted. */
  lemma DeleteFrames(st: ChatState, r: Room, t: Session)
    requires I.Inv(st) && r in st.rooms && t in st.sessions
    ensures var text := Ascii("Current room deleted by admin");
            Addressed(M.Broadcast(st, r, NOTIF, text) + M.Broadcast(st, r, JOIN, []), t)
            == if st.sessions[t].room == Some(r) then [Frame(t, NOTIF, text), Frame(t, JOIN, [])] else []
  {
    hide M.Broadcast, I.Inv, Ascii, Addressed;
    var text := Ascii("Current room deleted by admin");
    BroadcastAddressed(st, r, NOTIF, text, t);
    BroadcastAddressed(st, r, JOIN, [], t);
    AddressedJoin(M.Broadcast(st, r, NOTIF, text), M.Broadcast(st, r, JOIN, []), t);
  }

  /** The room that goes is the first of the name. */
  lemma DeletedRoom(st: ChatState, name: Bytes, t: Session)
    requires I.Inv(st) && t in st.sessions
    ensures var found := M.FindRoom(st, st.store, name);
            found.Some? ==>
              && found.value in st.rooms
              && (LosesRoom(st, M.DeleteRoom(st, found.value, name), t) <==> st.sessions[t].room == found)
  {
    I.Open(st);
    H.FindRoomResult(st, st.store, name);
    var found := M.FindRoom(st, st.store, name);
    hide M.FindRoom, M.DeleteRoom;
    if found.Some? {
      H.DeleteRemovesWhatItEmptied(st, found.value, name);
      if st.sessions[t].room.Some? {
        H.InRoomIsMember(st, t, st.sessions[t].room.value);
      }
    }
  }

  lemma DeleteTells(w: R.World, op: R.Op, t: Session)
    requires R.Enabled(w, op) && op.DeleteOp? && I.Inv(w.st) && t in w.st.sessions
    ensures Tells(w, op, t)
  {
    DeleteOut(w, op);
    DeletedRoom(w.st, op.name, t);
    var found := M.FindRoom(w.st, w.st.store, op.name);
    if found.Some? {
      DeleteFrames(w.st, found.value, t);
    }
    AddressedFew(Frame(t, MSG, []), Frame(t, MSG, []), t);
    hide I.Inv, M.Broadcast, M.DeleteRoom, M.FindRoom, OutOf, Addressed, R.Step, R.Enabled, Ascii;
    NothingLost(w.st, t);
  }

  lemma NothingLost(st: ChatState, t: Session)
    requires I.Inv(st)
    ensures !LosesRoom(st, st, t)
  {
    I.Open(st);
    if t in st.sessions && st.sessions[t].room.Some? {
      H.InRoomIsMember(st, t, st.sessions[t].room.value);
    }
  }

  lemma OthersTell(w: R.World, op: R.Op, t: Session)
    requires R.Enabled(w, op) && !op.MsgSendOp? && !op.RequestOp? && !op.RespondOp? && !op.PromoteOp?
    requires !op.DisconnectOp? && !op.DeleteOp?
    ensures Tells(w, op, t)
  {
    hide R.Step;
  }

  lemma HandlerTells(w: R.World, op: R.Op, t: Session)
    requires R.Enabled(w, op) && I.Inv(w.st) && t in w.st.sessions
    ensures Tells(w, op, t)
  {
    hide *;
    match op {
      case MsgSendOp(_, _, _) => MessageTells(w, op, t);
      case RequestOp(_, _, _, _) => RequestTells(w, op, t);
      case RespondOp(_, _, _, _, _, _) => RespondTells(w, op, t);
      case PromoteOp(_, _, _) => PromoteTells(w, op, t);
      case DisconnectOp(_, _, _) => DisconnectTells(w, op, t);
      case DeleteOp(_, _, _) => DeleteTells(w, op, t);
      case _ => OthersTell(w, op, t);
    }
  }

  /** Everybody hears of a handler exactly what it tells them, and nothing else. */
  lemma HearsWhatIsTold(v: Server, op: R.Op, t: Session)
    requires InOrder(v) && Allowed(v, Handler(op)) && !op.Connect? && t in v.w.st.sessions
    ensures var v' := Do(v, Handler(op));
            && t in v.down && t in v'.down
            && v'.down[t] == v.down[t] + Packets(Told(v.w.st, v'.w.st, op, t))
  {
    hide *;
    Listens(v, t);
    HandlerIsHeard(v, op, t);
    HandlerTells(v.w, op, t);
    HandlerShape(v, op);
    TellsExactly(v.w, op, t);
  }

  lemma TellsExactly(w: R.World, op: R.Op, t: Session)
    requires R.Enabled(w, op) && Tells(w, op, t)
    ensures Addressed(OutOf(w, op), t) == Told(w.st, R.Step(w, op).st, op, t)
  {
    hide Addressed, OutOf, Told, R.Step, R.Enabled;
  }

  /** A message is heard by exactly those who are in the sender's room, the sender included, once each. */
  lemma MessageIsHeard(v: Server, s: Session, sid: nat, msg: Bytes, t: Session)
    requires InOrder(v) && Allowed(v, Handler(R.MsgSendOp(s, sid, msg))) && t in v.w.st.sessions
    ensures var v' := Do(v, Handler(R.MsgSendOp(s, sid, msg)));
            && t in v.down && t in v'.down
            && v'.down[t] == v.down[t] + if P.Known(v.w.st, s, sid) && SameRoom(v.w.st, s, t)
                                         then [L.Msg(1, 0, msg)] else []
  {
    hide InOrder, Allowed, Do, P.Known, SameRoom;
    HearsWhatIsTold(v, R.MsgSendOp(s, sid, msg), t);
    PacketsJoin(Frame(t, MSG, msg), []);
  }

  // ---------------------------------------------------------------- all moves, and whole runs

  /** What t hears of a move: of a handler what it tells; of a relay the next payload, if the file is for t;
      of an answer all of it, if it is the answer to t; of everything else nothing. */
  ghost function Hears(v: Server, m: Move, t: Session): seq<L.Down>
    requires Allowed(v, m)
  {
    match m
    case Handler(op) => Packets(Told(v.w.st, Do(v, m).w.st, op, t))
    case SendChunk(s) =>
      if v.stage[s].target == t then [L.Msg(0x01, 0x04, v.stage[s].ps[v.stage[s].sent])] else []
    case Answer(s, d) => if s == t then [d] else []
    case _ => []
  }

  lemma ConnectIsHeard(v: Server, s: Session, t: Session)
    requires Allowed(v, Handler(R.Connect(s))) && t in v.w.st.sessions && t in v.down
    ensures var v' := Do(v, Handler(R.Connect(s)));
            && t in v'.down && v'.down[t] == v.down[t] && v'.down[s] == []
            && Told(v.w.st, v'.w.st, R.Connect(s), t) == []
  {
  }

  lemma RelayMoveIsHeard(v: Server, m: Move, t: Session)
    requires Allowed(v, m) && !m.Handler? && t in v.down
    ensures t in Do(v, m).down && Do(v, m).down[t] == v.down[t] + Hears(v, m, t)
  {
    hide R.Enabled, R.Step, M.FileCheck, C.IsSent, C.Whole, Kept, Told, L.WellFormed;
    assert v.down[t] + [] == v.down[t];
  }

  /** Every move adds to every client's stream exactly what that client hears of it. */
  lemma MoveIsHeard(v: Server, m: Move, t: Session)
    requires InOrder(v) && Allowed(v, m) && t in v.w.st.sessions
    ensures t in v.down && t in Do(v, m).down && Do(v, m).down[t] == v.down[t] + Hears(v, m, t)
  {
    Listens(v, t);
    hide InOrder, Allowed, Do, Told, R.Enabled;
    if !m.Handler? {
      RelayMoveIsHeard(v, m, t);
    } else if m.op.Connect? {
      ConnectIsHeard(v, m.op.s, t);
      PacketsJoin(Frame(t, MSG, []), []);
    } else {
      HearsWhatIsTold(v, m.op, t);
    }
  }

  /** Transfers hold up no other handler, whatever stage they are in: each may run whenever it may run in
      ChatRuns, with any text that fits a packet, and anybody may be answered. */
  lemma TransfersHoldUpNobody(v: Server, op: R.Op, s: Session, d: L.Down)
    ensures Allowed(v, Handler(op)) <==>
            && R.Enabled(v.w, op) && !op.FileSendOp? && !op.FileDoneOp? && (op.MsgSendOp? ==> |op.msg| <= 4096)
    ensures Allowed(v, Answer(s, d)) <==>
            s in v.w.st.sessions && L.WellFormed(d) && !(d.Msg? && d.ret == 1 && d.flag == 4)
  {
    hide R.Enabled, L.WellFormed;
  }

  /** The client is there before each of the moves, and at the end. */
  ghost predicate Stays(v: Server, ms: seq<Move>, t: Session)
    requires T.Can(v, ms)
    decreases |ms|
  {
    t in v.w.st.sessions && (ms != [] ==> Stays(Do(v, ms[0]), ms[1..], t))
  }

  ghost function HearsAll(v: Server, ms: seq<Move>, t: Session): seq<L.Down>
    requires T.Can(v, ms)
    decreases |ms|
  {
    if ms == [] then [] else Hears(v, ms[0], t) + HearsAll(Do(v, ms[0]), ms[1..], t)
  }

  lemma CountedBefore(v: Server, ms: seq<Move>)
    requires T.Can(v, ms)
    ensures v.w.granted <= T.Run(v, ms).w.granted
  {
    T.RunRefines(v, ms);
    R.GrantedGrows(v.w, T.RunOps(v, ms));
  }

  /** Over any run the stream of a client that stays is what was on it, followed by everything that the client
      hears of the moves, in the order of the moves: nothing is lost, doubled, misdirected or out of order. */
  lemma {:induction false} RunIsHeard(v: Server, ms: seq<Move>, t: Session)
    requires InOrder(v) && T.Can(v, ms) && T.Run(v, ms).w.granted < ID_LIMIT && Stays(v, ms, t)
    ensures t in v.down && t in T.Run(v, ms).down
    ensures T.Run(v, ms).down[t] == v.down[t] + HearsAll(v, ms, t)
    decreases |ms|
  {
    hide InOrder, Allowed, Do, Hears;
    if ms == [] {
      Listens(v, t);
      assert v.down[t] + [] == v.down[t];
    } else {
      var v1 := Do(v, ms[0]);
      MoveIsHeard(v, ms[0], t);
      CountedBefore(v1, ms[1..]);
      T.StepInOrder(v, ms[0]);
      RunIsHeard(v1, ms[1..], t);
    }
  }
}
