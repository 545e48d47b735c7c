/** Which frames can end a client's listener: none that the server makes up by itself, only those that
    carry what another user wrote. */
module ChatReadable {
  import opened ByteStrings
  import opened Utf8
  import opened ChatTypes
  import opened ChatTransfers
  import opened ChatTransferRuns
  import I = ChatInvariant
  import M = ChatModel
  import R = ChatRuns
  import W = Wire
  import F = ChatFraming
  import C = ChatClient
  import L = ChatListener

  // ---------------------------------------------------------------- the server's own texts

  lemma NameDecodes(u: Bytes)
    requires ValidUsername(u)
    ensures Decodes(u)
  {
    AsciiDecodes(u);
  }

  predicate IsAscii(text: string) { forall i :: 0 <= i < |text| ==> text[i] <= '~' }

  /** A text of the server's own, with a name behind it. */
  lemma TextAndName(text: string, name: Bytes)
    requires IsAscii(text) && Decodes(name)
    ensures Decodes(Ascii(text)) && Decodes(Ascii(text) + name)
  {
    hide Decodes;
    AsciiDecodes(Ascii(text));
    JoinDecodes(Ascii(text), name);
  }

  lemma RequestTextDecodes(kind: M.ReqKind, from: Bytes)
    requires Decodes(from)
    ensures Decodes(M.RequestText(kind, from))
  {
    hide Decodes, Ascii;
    if kind.PmKind? {
      TextAndName("PM request received from ", from);
    } else {
      TextAndName("File transfer request received from ", from);
    }
  }

  lemma DeclineTextDecodes(kind: M.ReqKind, who: Bytes)
    requires Decodes(who)
    ensures Decodes(M.DeclineText(kind, who))
  {
    hide Decodes, Ascii;
    if kind.PmKind? {
      TextAndName("PM request declined by ", who);
    } else {
      TextAndName("File transfer request declined by ", who);
    }
  }

  lemma RoomNameDecodes(a: Bytes, b: Bytes)
    requires Decodes(a) && Decodes(b)
    ensures Decodes(M.PmRoomName(a, b))
  {
    hide Decodes;
    AsciiDecodes([PLUS]);
    JoinDecodes(a, [PLUS]);
    JoinDecodes(a + [PLUS], b);
    JoinDecodes(b, [PLUS]);
    JoinDecodes(b + [PLUS], a);
  }

  lemma Notice(text: string)
    requires IsAscii(text)
    ensures Decodes(Ascii(text))
  {
    AsciiDecodes([]);
    TextAndName(text, []);
  }

  lemma Notices()
    ensures Decodes(Ascii("You are now an admin"))
    ensures Decodes(Ascii("Disconnected by an admin"))
    ensures Decodes(Ascii("Current room deleted by admin"))
  {
    hide Decodes, Ascii;
    Notice("You are now an admin");
    Notice("Disconnected by an admin");
    Notice("Current room deleted by admin");
  }

  predicate AllDecode(frames: seq<Frame>) { forall i :: 0 <= i < |frames| ==> Decodes(frames[i].payload) }

  /** The names of logged-in users decode. */
  lemma LoggedInNameDecodes(st: ChatState, s: Session)
    requires I.Inv(st) && s in st.sessions && st.sessions[s].id != 0
    ensures Decodes(st.sessions[s].username)
  {
    I.Open(st);
    NameDecodes(st.sessions[s].username);
  }

  lemma OnlineNameDecodes(st: ChatState, username: Bytes)
    requires I.Inv(st) && username in st.online
    ensures st.online[username] in st.sessions && Decodes(st.sessions[st.online[username]].username)
  {
    I.Open(st);
    NameDecodes(st.sessions[st.online[username]].username);
  }

  lemma DecideDecodes(st: ChatState, s: Session, target: Session, kind: M.ReqKind, choice: Byte, created: Room)
    requires s in st.sessions && target in st.sessions
    requires Decodes(st.sessions[s].username) && Decodes(st.sessions[target].username)
    ensures AllDecode(M.Decide(st, s, target, kind, choice, created).out)
  {
    hide Decodes, M.MoveTo, M.AddRoom, M.PmRoomName, M.DeclineText;
    DeclineTextDecodes(kind, st.sessions[s].username);
    RoomNameDecodes(st.sessions[target].username, st.sessions[s].username);
  }

  lemma RespondDecodes(st: ChatState, s: Session, sid: nat, flag: Byte, choice: Byte, username: Bytes, created: Room)
    requires I.Inv(st) && s in st.sessions
    ensures AllDecode(M.Respond(st, s, sid, flag, choice, username, created).out)
  {
    hide I.Inv, Decodes, M.Decide, M.PendingAt;
    if M.SessionValid(st, s, sid) && username in st.online && M.KindOf(flag).Some? {
      LoggedInNameDecodes(st, s);
      OnlineNameDecodes(st, username);
      DecideDecodes(st, s, st.online[username], M.KindOf(flag).value, choice, created);
    }
  }

  lemma RequestDecodes(st: ChatState, s: Session, sid: nat, flag: Byte, username: Bytes)
    requires I.Inv(st) && s in st.sessions
    ensures AllDecode(M.Request(st, s, sid, flag, username).out)
  {
    hide I.Inv, Decodes, M.PendingAt, M.WithTable, M.Table, M.RequestText;
    if M.SessionValid(st, s, sid) && M.KindOf(flag).Some? {
      LoggedInNameDecodes(st, s);
      RequestTextDecodes(M.KindOf(flag).value, st.sessions[s].username);
    }
  }

  lemma BroadcastDecodes(st: ChatState, r: Room, flag: MsgFlag, payload: Bytes)
    requires Decodes(payload)
    ensures AllDecode(M.Broadcast(st, r, flag, payload))
  {
    hide Decodes;
  }

  lemma JoinAllDecode(a: seq<Frame>, b: seq<Frame>)
    requires AllDecode(a) && AllDecode(b)
    ensures AllDecode(a + b)
  {
    hide Decodes;
  }

  lemma DeleteDecodes(st: ChatState, s: Session, sid: nat, name: Bytes)
    requires s in st.sessions
    ensures AllDecode(M.Delete(st, s, sid, name).out)
  {
    hide Decodes, M.DeleteRoom, M.Broadcast, M.FindRoom, M.SessionValid, M.IsAdmin, Ascii;
    Notices();
    AsciiDecodes([]);
    var found := M.FindRoom(st, st.store, name);
    if found.Some? {
      var r := found.value;
      BroadcastDecodes(st, r, NOTIF, Ascii("Current room deleted by admin"));
      BroadcastDecodes(st, r, JOIN, []);
      JoinAllDecode(M.Broadcast(st, r, NOTIF, Ascii("Current room deleted by admin")), M.Broadcast(st, r, JOIN, []));
    }
  }

  lemma MsgSendDecodes(st: ChatState, s: Session, sid: nat, msg: Bytes)
    requires s in st.sessions && Decodes(msg)
    ensures AllDecode(M.MsgSend(st, s, sid, msg).out)
  {
    hide Decodes, M.Broadcast;
    if st.sessions[s].room.Some? {
      BroadcastDecodes(st, st.sessions[s].room.value, MSG, msg);
    }
  }

  lemma NoticesOnly(st: ChatState, op: R.Op)
    requires op.s in st.sessions && (op.LogoutOp? || op.JoinOp? || op.PromoteOp? || op.DisconnectOp?)
    ensures op.DisconnectOp? ==> AllDecode(M.Disconnect(st, op.s, op.sid, op.username).out)
    ensures !op.DisconnectOp? ==> AllDecode(R.PlainReply(st, op).out)
  {
    hide Decodes, M.UserLogout, M.MoveTo, M.RoomFor, M.ClientFree, Ascii;
    Notices();
  }

  /** Every frame that a handler sends decodes, except that a message is as its sender wrote it. */
  lemma OutDecodes(w: R.World, op: R.Op)
    requires I.Inv(w.st) && R.Enabled(w, op) && (op.MsgSendOp? ==> Decodes(op.msg))
    ensures AllDecode(OutOf(w, op))
  {
    hide I.Inv, M.Respond, M.Request, M.Delete, M.Join, M.MsgSend, M.Disconnect, M.Promote, M.Logout, Decodes;
    if op.RespondOp? {
      RespondDecodes(w.st, op.s, op.sid, op.flag, op.choice, op.username, op.created);
    } else if op.RequestOp? {
      RequestDecodes(w.st, op.s, op.sid, op.flag, op.username);
    } else if op.DeleteOp? {
      DeleteDecodes(w.st, op.s, op.sid, op.name);
    } else if op.MsgSendOp? {
      MsgSendDecodes(w.st, op.s, op.sid, op.msg);
    } else if op.LogoutOp? || op.JoinOp? || op.PromoteOp? || op.DisconnectOp? {
      NoticesOnly(w.st, op);
    }
  }

  // ---------------------------------------------------------------- over whole runs

  /** What users write decodes: messages, and what is echoed or listed. */
  ghost predicate TextsDecode(ms: seq<Move>) { forall i :: 0 <= i < |ms| ==> TextDecodes(ms[i]) }

  ghost predicate TextDecodes(m: Move) {
    match m
    case Handler(op) => op.MsgSendOp? ==> Decodes(op.msg)
    case Answer(_, d) => L.Readable(d)
    case _ => true
  }

  ghost predicate ReadableAll(down: map<Session, seq<L.Down>>) {
    forall t :: t in down ==> forall i :: 0 <= i < |down[t]| ==> L.Readable(down[t][i])
  }

  lemma PutReadable(down: map<Session, seq<L.Down>>, s: Session, d: L.Down)
    requires ReadableAll(down) && L.Readable(d)
    ensures ReadableAll(Put(down, s, d))
  {
    hide L.Readable;
  }

  lemma FrameReadable(f: Frame)
    requires Decodes(f.payload)
    ensures L.Readable(ToDown(f))
  {
    hide Decodes;
  }

  lemma {:induction false} PutAllReadable(down: map<Session, seq<L.Down>>, frames: seq<Frame>)
    requires ReadableAll(down) && AllDecode(frames)
    ensures ReadableAll(PutAll(down, frames))
    decreases |frames|
  {
    hide L.Readable, ToDown, Put, Decodes, ReadableAll;
    if frames != [] {
      FrameReadable(frames[0]);
      PutReadable(down, frames[0].to, ToDown(frames[0]));
      PutAllReadable(Put(down, frames[0].to, ToDown(frames[0])), frames[1..]);
    }
  }

  lemma HandlerReadable(v: Server, op: R.Op)
    requires InOrder(v) && ReadableAll(v.down) && Allowed(v, Handler(op)) && TextDecodes(Handler(op)) && !op.Connect?
    ensures ReadableAll(Do(v, Handler(op)).down)
  {
    hide *;
    OpenServer(v);
    R.OpenWorld(v.w);
    HandlerShape(v, op);
    TextOf(op);
    OutDecodes(v.w, op);
    PutAllReadable(v.down, OutOf(v.w, op));
  }

  lemma TextOf(op: R.Op)
    requires TextDecodes(Handler(op))
    ensures op.MsgSendOp? ==> Decodes(op.msg)
  {
    hide Decodes;
  }

  lemma RelayReadable(v: Server, m: Move)
    requires ReadableAll(v.down) && Allowed(v, m) && TextDecodes(m) && (m.Handler? ==> m.op.Connect?)
    ensures ReadableAll(Do(v, m).down)
  {
    hide R.Step, R.Enabled, OutOf, PutAll, Put, L.Readable, L.WellFormed;
    hide L.IsFile, M.FileCheck, C.IsSent, Decodes, Kept;
    if m.SendChunk? {
      ChunkReadable(v.stage[m.s].ps[v.stage[m.s].sent]);
      PutReadable(v.down, v.stage[m.s].target, L.Msg(F.SUCCESS, L.FILE_FLAG, v.stage[m.s].ps[v.stage[m.s].sent]));
    } else if m.Answer? {
      PutReadable(v.down, m.s, m.d);
    }
  }

  lemma StepReadable(v: Server, m: Move)
    requires InOrder(v) && ReadableAll(v.down) && Allowed(v, m) && TextDecodes(m)
    ensures ReadableAll(Do(v, m).down)
  {
    hide *;
    if m.Handler? && !m.op.Connect? {
      HandlerReadable(v, m.op);
    } else {
      RelayReadable(v, m);
    }
  }

  lemma ChunkReadable(payload: Bytes)
    ensures L.Readable(L.Msg(F.SUCCESS, L.FILE_FLAG, payload))
  {
  }

  lemma {:induction false} RunReadable(v: Server, ms: seq<Move>)
    requires InOrder(v) && ReadableAll(v.down) && Can(v, ms) && TextsDecode(ms) && Run(v, ms).w.granted < ID_LIMIT
    ensures ReadableAll(Run(v, ms).down)
    decreases |ms|
  {
    hide InOrder, Allowed, Do, ReadableAll, TextDecodes;
    if ms != [] {
      var v1 := Do(v, ms[0]);
      RunRefines(v1, ms[1..]);
      R.GrantedGrows(v1.w, RunOps(v1, ms[1..]));
      StepInOrder(v, ms[0]);
      StepReadable(v, ms[0]);
      assert forall i :: 0 <= i < |ms[1..]| ==> ms[1..][i] == ms[i + 1];
      RunReadable(v1, ms[1..]);
    }
  }

  lemma StartReadable(v: Server, general: Room)
    requires Start(v, general)
    ensures InOrder(v) && ReadableAll(v.down)
  {
    StartInOrder(v, general);
  }

  lemma ReadableOne(down: map<Session, seq<L.Down>>, t: Session)
    requires ReadableAll(down) && t in down
    ensures forall d :: d in down[t] ==> L.Readable(d)
  {
    hide L.Readable;
  }

  /** After any run in which senders flag their chunks as do_put does and what users write decodes: a client
      that hears everything on its socket has written exactly the completed files sent to it, up to one
      whose name ends its listener, and it is still listening exactly if there was none. */
  lemma ExactlyTheFilesArrive(v: Server, ms: seq<Move>, general: Room, t: Session, h: L.Hearing)
    requires Start(v, general) && Can(v, ms) && Run(v, ms).w.granted < ID_LIMIT
    requires SendsTransfers(ms) && TextsDecode(ms)
    requires t in Run(v, ms).w.st.sessions && h.box.alive
    ensures var v' := Run(v, ms);
            && OnlyTransfers(v') && LockFits(v') && t in v'.past && t in v'.down
            && (var heard := L.HearAll(h, v'.down[t], |v'.down[t]|).box;
                && heard.files == h.box.files + C.Written(Received(v', t))
                && (heard.alive <==> C.AllHarmless(Received(v', t))))
  {
    hide *;
    WholeFilesArrive(v, ms, general, t, h);
    StartReadable(v, general);
    RunReadable(v, ms);
    ReadableOne(Run(v, ms).down, t);
  }
}
