/** The protocol's table of answers: for every request that decides on the server state, the bytes that come
    back, told by the state and the request alone. */
module ChatProtocol {
  import opened ByteStrings
  import opened ChatTypes
  import opened Wire
  import M = ChatModel
  import I = ChatInvariant
  import H = ChatHandlers
  import A = ChatAnswers
  import P = ChatPackets
  import F = ChatFraming
  import B = ChatReplies
  import E = EndToEnd

  /** What client s is answered when its request r has come to the front of its stream and is decided in
      state st. */
  ghost function Answered(stream: Bytes, p: nat, r: Packed, st: ChatState, s: Session, created: Room): Bytes
    requires B.Comes(stream, p, r) && s in st.sessions && I.Inv(st) && st.nextId < ID_LIMIT
    requires r.Login? ==> st.sessions[s].id == 0
  {
    B.ReadBack(stream, p, r);
    VerdictIsFine(st, s, View(r), created);
    B.ReplyTo(stream, p, E.VerdictFor(st, s, View(r), created))
  }

  lemma VerdictIsFine(st: ChatState, s: Session, got: Received, created: Room)
    requires s in st.sessions && st.nextId < ID_LIMIT
    requires got.Got? && got.request.Login? ==> st.sessions[s].id == 0
    ensures E.VerdictFor(st, s, got, created).newId < 0x1_0000_0000
  {
    if got.Got? && got.request.Login? {
      E.OutcomeExactly(st, s, got.request.user, got.request.password);
    }
    hide E.Decided, E.LoginOutcome;
  }

  /** The code of a request that fits, given what its handler answers. */
  lemma CodeOf(stream: Bytes, p: nat, r: Packed, st: ChatState, s: Session, created: Room, ret: Retcode)
    requires B.Comes(stream, p, r) && s in st.sessions && I.Inv(st) && st.nextId < ID_LIMIT
    requires (r.Text? && r.op != 0x02) || r.Ask? || r.Answer? || r.Listing?
    requires E.Decided(st, s, Got(r), created) == Some(ret)
    ensures Answered(stream, p, r, st, s, created) ==
            [Encode(r)[0], if |Encode(r)| > 4096 && !r.Listing? then 0x03
                           else if !P.Known(st, s, r.sid) then 0x02 else E.RetByte(ret)]
  {
    B.Lengths(r);
    VerdictIsFine(st, s, View(r), created);
    var verdict := E.VerdictFor(st, s, View(r), created);
    hide E.Decided, B.Comes, Encode, B.ReplyTo, I.Inv;
    if |Encode(r)| > 4096 {
      B.TooLongIsOverflow(stream, p, r, verdict);
    } else {
      B.FittingIsDecided(stream, p, r, verdict);
    }
  }

  lemma RetBytes()
    ensures E.RetByte(Success) == 0x01 && E.RetByte(SessionError) == 0x02 && E.RetByte(Overflow) == 0x03
    ensures E.RetByte(Retcode.Pending) == 0x04 && E.RetByte(NotPending) == 0x05 && E.RetByte(Unallowed) == 0x06
    ensures E.RetByte(Unauthorized) == 0x07 && E.RetByte(Failure) == 0xff
  {
  }

  lemma MessageDecided(st: ChatState, s: Session, r: Packed, created: Room)
    requires s in st.sessions && r.Text? && r.op == 0x06
    ensures E.Decided(st, s, Got(r), created) ==
            Some(if !P.Known(st, s, r.sid) then SessionError
                 else if st.sessions[s].room.None? then Failure else Success)
  {
    hide M.Broadcast;
  }

  /** opcode_msg_send. */
  lemma MessageCode(stream: Bytes, p: nat, r: Packed, st: ChatState, s: Session, created: Room)
    requires B.Comes(stream, p, r) && s in st.sessions && I.Inv(st) && st.nextId < ID_LIMIT
    requires r.Text? && r.op == 0x06
    ensures Answered(stream, p, r, st, s, created) ==
            [0x06, if |Encode(r)| > 4096 then 0x03
                   else if !P.Known(st, s, r.sid) then 0x02
                   else if st.sessions[s].room.None? then 0xff else 0x01]
  {
    hide *;
    B.Lengths(r);
    RetBytes();
    MessageDecided(st, s, r, created);
    CodeOf(stream, p, r, st, s, created, E.Decided(st, s, Got(r), created).value);
  }

  lemma JoinDecided(st: ChatState, s: Session, r: Packed, created: Room)
    requires s in st.sessions && I.Inv(st) && r.Text? && r.op == 0x08 && created !in st.rooms
    ensures E.Decided(st, s, Got(r), created) ==
            Some(if !P.Known(st, s, r.sid) then SessionError
                 else if !AllAlnum(r.text) then Failure else Success)
  {
    H.JoinKeepsInv(st, s, r.sid, r.text, created);
    hide I.Inv, M.RoomFor, M.MoveTo, AllAlnum;
  }

  /** opcode_join: any alphanumeric name will do, because a room that does not exist is created. */
  lemma JoinCode(stream: Bytes, p: nat, r: Packed, st: ChatState, s: Session, created: Room)
    requires B.Comes(stream, p, r) && s in st.sessions && I.Inv(st) && st.nextId < ID_LIMIT
    requires r.Text? && r.op == 0x08 && created !in st.rooms
    ensures Answered(stream, p, r, st, s, created) ==
            [0x08, if |Encode(r)| > 4096 then 0x03
                   else if !P.Known(st, s, r.sid) then 0x02
                   else if !AllAlnum(r.text) then 0xff else 0x01]
  {
    hide *;
    B.Lengths(r);
    RetBytes();
    JoinDecided(st, s, r, created);
    CodeOf(stream, p, r, st, s, created, E.Decided(st, s, Got(r), created).value);
  }

  lemma PromoteDecided(st: ChatState, s: Session, r: Packed, created: Room)
    requires s in st.sessions && I.Inv(st) && r.Text? && r.op == 0x0d
    ensures E.Decided(st, s, Got(r), created) ==
            Some(if !P.Known(st, s, r.sid) then SessionError
                 else if !P.KnownAdmin(st, s, r.sid) then Unauthorized
                 else if r.text in st.admins then Failure else Success)
  {
    hide I.Inv;
  }

  /** opcode_promote. */
  lemma PromoteCode(stream: Bytes, p: nat, r: Packed, st: ChatState, s: Session, created: Room)
    requires B.Comes(stream, p, r) && s in st.sessions && I.Inv(st) && st.nextId < ID_LIMIT
    requires r.Text? && r.op == 0x0d
    ensures Answered(stream, p, r, st, s, created) ==
            [0x0d, if |Encode(r)| > 4096 then 0x03
                   else if !P.Known(st, s, r.sid) then 0x02
                   else if !P.KnownAdmin(st, s, r.sid) then 0x07
                   else if r.text in st.admins then 0xff else 0x01]
  {
    hide *;
    B.Lengths(r);
    RetBytes();
    PromoteDecided(st, s, r, created);
    CodeOf(stream, p, r, st, s, created, E.Decided(st, s, Got(r), created).value);
  }

  lemma DisconnectDecided(st: ChatState, s: Session, r: Packed, created: Room)
    requires s in st.sessions && I.Inv(st) && r.Text? && r.op == 0x0e
    ensures E.Decided(st, s, Got(r), created) ==
            Some(if !P.Known(st, s, r.sid) then SessionError
                 else if !P.KnownAdmin(st, s, r.sid) then Unauthorized
                 else if r.text !in st.online then Failure else Success)
  {
    DisconnectRet(st, s, r.sid, r.text);
    hide I.Inv, M.Disconnect;
  }

  /** opcode_disconnect. */
  lemma DisconnectCode(stream: Bytes, p: nat, r: Packed, st: ChatState, s: Session, created: Room)
    requires B.Comes(stream, p, r) && s in st.sessions && I.Inv(st) && st.nextId < ID_LIMIT
    requires r.Text? && r.op == 0x0e
    ensures Answered(stream, p, r, st, s, created) ==
            [0x0e, if |Encode(r)| > 4096 then 0x03
                   else if !P.Known(st, s, r.sid) then 0x02
                   else if !P.KnownAdmin(st, s, r.sid) then 0x07
                   else if r.text !in st.online then 0xff else 0x01]
  {
    hide *;
    B.Lengths(r);
    RetBytes();
    DisconnectDecided(st, s, r, created);
    CodeOf(stream, p, r, st, s, created, E.Decided(st, s, Got(r), created).value);
  }

  lemma DisconnectRet(st: ChatState, s: Session, sid: nat, username: Bytes)
    requires s in st.sessions && I.Inv(st)
    ensures M.Disconnect(st, s, sid, username).ret ==
            if !P.Known(st, s, sid) then SessionError
            else if !P.KnownAdmin(st, s, sid) then Unauthorized
            else if username !in st.online then Failure else Success
  {
    I.Open(st);
    hide I.Inv, M.UserLogout, M.ClientFree;
  }

  lemma DeleteDecided(st: ChatState, s: Session, r: Packed, created: Room)
    requires s in st.sessions && I.Inv(st) && r.Text? && r.op == 0x0f
    ensures E.Decided(st, s, Got(r), created) ==
            Some(if !P.Known(st, s, r.sid) then SessionError
                 else if !P.KnownAdmin(st, s, r.sid) then Unauthorized
                 else if forall q :: q in st.rooms ==> st.rooms[q].name != r.text then Failure else Success)
  {
    A.DeleteExactly(st, s, r.sid, r.text);
    hide I.Inv, M.DeleteRoom, M.FindRoom, M.Broadcast;
  }

  /** opcode_delete. */
  lemma DeleteCode(stream: Bytes, p: nat, r: Packed, st: ChatState, s: Session, created: Room)
    requires B.Comes(stream, p, r) && s in st.sessions && I.Inv(st) && st.nextId < ID_LIMIT
    requires r.Text? && r.op == 0x0f
    ensures Answered(stream, p, r, st, s, created) ==
            [0x0f, if |Encode(r)| > 4096 then 0x03
                   else if !P.Known(st, s, r.sid) then 0x02
                   else if !P.KnownAdmin(st, s, r.sid) then 0x07
                   else if forall q :: q in st.rooms ==> st.rooms[q].name != r.text then 0xff else 0x01]
  {
    hide *;
    B.Lengths(r);
    RetBytes();
    DeleteDecided(st, s, r, created);
    CodeOf(stream, p, r, st, s, created, E.Decided(st, s, Got(r), created).value);
  }

  /** Whoever is asked, or answered, has to be online, and the one who asks or answers in a room. */
  ghost predicate MayTalk(st: ChatState, s: Session, flag: Byte, username: Bytes)
    requires s in st.sessions
  {
    st.sessions[s].room.Some? && username in st.online && (flag == 0 || flag == 1)
  }

  /** The username whose request of this kind is pending at who; an empty one is no request. */
  ghost function Pending(st: ChatState, flag: Byte, who: Bytes): Bytes {
    if flag == 0 then if who in st.pmReqs then st.pmReqs[who] else []
    else if who in st.fileReqs then st.fileReqs[who] else []
  }

  lemma RequestDecided(st: ChatState, s: Session, r: Packed, created: Room)
    requires s in st.sessions && I.Inv(st) && r.Ask?
    ensures E.Decided(st, s, Got(r), created) ==
            Some(if !P.Known(st, s, r.sid) then SessionError
                 else if !MayTalk(st, s, r.flag, r.user) then Failure
                 else if Pending(st, r.flag, r.user) != [] then Retcode.Pending else Success)
  {
    RequestRet(st, s, r.sid, r.flag, r.user);
    hide I.Inv, M.Request;
  }

  /** opcode_request. */
  lemma RequestCode(stream: Bytes, p: nat, r: Packed, st: ChatState, s: Session, created: Room)
    requires B.Comes(stream, p, r) && s in st.sessions && I.Inv(st) && st.nextId < ID_LIMIT && r.Ask?
    ensures Answered(stream, p, r, st, s, created) ==
            [0x0a, if |Encode(r)| > 4096 then 0x03
                   else if !P.Known(st, s, r.sid) then 0x02
                   else if !MayTalk(st, s, r.flag, r.user) then 0xff
                   else if Pending(st, r.flag, r.user) != [] then 0x04 else 0x01]
  {
    hide *;
    B.Lengths(r);
    RetBytes();
    RequestDecided(st, s, r, created);
    CodeOf(stream, p, r, st, s, created, E.Decided(st, s, Got(r), created).value);
  }

  lemma RequestRet(st: ChatState, s: Session, sid: nat, flag: Byte, username: Bytes)
    requires s in st.sessions && I.Inv(st)
    ensures M.Request(st, s, sid, flag, username).ret ==
            if !P.Known(st, s, sid) then SessionError
            else if !MayTalk(st, s, flag, username) then Failure
            else if Pending(st, flag, username) != [] then Retcode.Pending else Success
  {
    I.Open(st);
    hide I.Inv, M.RequestText;
  }

  lemma RespondDecided(st: ChatState, s: Session, r: Packed, created: Room)
    requires s in st.sessions && I.Inv(st) && r.Answer? && created !in st.rooms
    ensures E.Decided(st, s, Got(r), created) ==
            Some(if !P.Known(st, s, r.sid) then SessionError
                 else if !MayTalk(st, s, r.flag, r.user) then Failure
                 else if Pending(st, r.flag, st.sessions[s].username) != r.user then NotPending else Success)
  {
    RespondRet(st, s, r.sid, r.flag, r.choice, r.user, created);
    hide I.Inv, M.Respond;
  }

  /** opcode_respond: the request that is answered must be the one that is pending. */
  lemma RespondCode(stream: Bytes, p: nat, r: Packed, st: ChatState, s: Session, created: Room)
    requires B.Comes(stream, p, r) && s in st.sessions && I.Inv(st) && st.nextId < ID_LIMIT
    requires r.Answer? && created !in st.rooms
    ensures Answered(stream, p, r, st, s, created) ==
            [0x0b, if |Encode(r)| > 4096 then 0x03
                   else if !P.Known(st, s, r.sid) then 0x02
                   else if !MayTalk(st, s, r.flag, r.user) then 0xff
                   else if Pending(st, r.flag, st.sessions[s].username) != r.user then 0x05 else 0x01]
  {
    hide *;
    B.Lengths(r);
    RetBytes();
    RespondDecided(st, s, r, created);
    CodeOf(stream, p, r, st, s, created, E.Decided(st, s, Got(r), created).value);
  }

  lemma RespondRet(st: ChatState, s: Session, sid: nat, flag: Byte, choice: Byte, username: Bytes, created: Room)
    requires s in st.sessions && I.Inv(st) && created !in st.rooms
    ensures M.Respond(st, s, sid, flag, choice, username, created).ret ==
            if !P.Known(st, s, sid) then SessionError
            else if !MayTalk(st, s, flag, username) then Failure
            else if Pending(st, flag, st.sessions[s].username) != username then NotPending else Success
  {
    H.RespondDiscipline(st, s, sid, flag, choice, username, created);
    I.Open(st);
    hide I.Inv, M.Decide;
  }

  lemma ListDecided(st: ChatState, s: Session, r: Packed, created: Room)
    requires s in st.sessions && I.Inv(st) && r.Listing?
    ensures E.Decided(st, s, Got(r), created) ==
            Some(if !P.Known(st, s, r.sid) then SessionError
                 else if r.flag == 0 || (r.flag == 1 && st.sessions[s].room.Some?) then Success else Failure)
  {
    hide I.Inv, M.RoomNames, M.UserNames;
  }

  /** opcode_list. */
  lemma ListCode(stream: Bytes, p: nat, r: Packed, st: ChatState, s: Session, created: Room)
    requires B.Comes(stream, p, r) && s in st.sessions && I.Inv(st) && st.nextId < ID_LIMIT && r.Listing?
    ensures Answered(stream, p, r, st, s, created) ==
            [0x09, if !P.Known(st, s, r.sid) then 0x02
                   else if r.flag == 0 || (r.flag == 1 && st.sessions[s].room.Some?) then 0x01 else 0xff]
  {
    hide *;
    B.Lengths(r);
    RetBytes();
    ListDecided(st, s, r, created);
    CodeOf(stream, p, r, st, s, created, E.Decided(st, s, Got(r), created).value);
  }

  /** The verdict on an echo, a ping or a logout is the session check. */
  lemma VerdictOf(r: Packed, st: ChatState, s: Session, created: Room)
    requires s in st.sessions && (r.Text? || r.Bare?)
    ensures E.VerdictFor(st, s, View(r), created).sessionOk == P.Known(st, s, r.sid)
  {
    hide M.MsgSend, M.Join, M.Promote, M.Disconnect, M.Delete, M.Logout;
  }

  /** opcode_quit, opcode_ping, opcode_logout and opcode_echo. */
  lemma BareCode(stream: Bytes, p: nat, r: Packed, st: ChatState, s: Session, created: Room)
    requires B.Comes(stream, p, r) && s in st.sessions && I.Inv(st) && st.nextId < ID_LIMIT
    requires r.Quit? || r.Bare? || (r.Text? && r.op == 0x02)
    ensures Answered(stream, p, r, st, s, created) ==
            match r
            case Quit => [0x03, 0x01]
            case Bare(op, sid) => [op, if P.Known(st, s, sid) then 0x01 else 0x02]
            case Text(_, sid, text) =>
              if !P.Known(st, s, sid) then [0x02, 0x02] + U16(0)
              else if |Encode(r)| > 4096 then [0x02, 0x03] + U16(0)
              else [0x02, 0x01] + (U16(|text|) + text)
  {
    VerdictIsFine(st, s, View(r), created);
    var verdict := E.VerdictFor(st, s, View(r), created);
    hide E.VerdictFor, B.Comes, Encode, View, B.ReplyTo, I.Inv, U16, P.Known;
    if r.Text? {
      VerdictOf(r, st, s, created);
      B.EchoAnswer(stream, p, r, verdict);
    } else {
      if r.Bare? {
        VerdictOf(r, st, s, created);
      }
      B.BareAnswer(stream, p, r, verdict);
    }
  }

  ghost predicate Welcome(st: ChatState, user: Bytes, password: Bytes) {
    && ValidUsername(user) && ValidPassword(password) && user !in st.online
    && (user in st.creds ==> st.creds[user] == password) && st.nextId != 0
  }

  lemma LoginVerdict(st: ChatState, s: Session, r: Packed, created: Room)
    requires s in st.sessions && st.sessions[s].id == 0 && r.Login? && |Encode(r)| <= 4096
    ensures var verdict := E.VerdictFor(st, s, View(r), created);
            && verdict.ret == (if Welcome(st, r.user, r.password) then 0x01 else 0xff)
            && verdict.newId == if Welcome(st, r.user, r.password) then st.nextId else 0
  {
    B.Lengths(r);
    hide E.LoginOutcome, Encode, ValidUsername, ValidPassword;
    E.OutcomeExactly(st, s, r.user, r.password);
    OutcomeCodes(st, s, r.user, r.password);
  }

  /** opcode_login: the next id goes out if the names are valid, the password is that of the account if there is
      one, and the user is not online; otherwise 0. */
  lemma LoginCode(stream: Bytes, p: nat, r: Packed, st: ChatState, s: Session, created: Room)
    requires B.Comes(stream, p, r) && s in st.sessions && I.Inv(st) && st.nextId < ID_LIMIT
    requires r.Login? && st.sessions[s].id == 0
    ensures Answered(stream, p, r, st, s, created) ==
            if |Encode(r)| > 4096 then [0x04, 0x03] + U32(0)
            else if Welcome(st, r.user, r.password) then [0x04, 0x01] + U32(st.nextId)
            else [0x04, 0xff] + U32(0)
  {
    VerdictIsFine(st, s, View(r), created);
    hide E.VerdictFor, B.Comes, Encode, View, B.ReplyTo, I.Inv, U32, Welcome;
    if |Encode(r)| <= 4096 {
      LoginVerdict(st, s, r, created);
    }
    B.LoginAnswer(stream, p, r, E.VerdictFor(st, s, View(r), created));
  }

  lemma OutcomeCodes(st: ChatState, s: Session, user: Bytes, password: Bytes)
    requires s in st.sessions
    ensures E.LoginOutcome(st, s, user, password).ret == Success || E.LoginOutcome(st, s, user, password).ret == Failure
  {
    hide ValidUsername, ValidPassword, M.UserLogin;
  }

  /** The user has accepted a file from s. */
  ghost predicate Allows(st: ChatState, username: Bytes, s: Session) {
    && username in st.online && st.online[username] in st.sessions && s in st.sessions
    && st.sessions[st.online[username]].allow == st.sessions[s].username
  }

  /** opcode_file_send for a file as do_put packs it. */
  lemma FileCode(stream: Bytes, p: nat, r: Packed, st: ChatState, s: Session, created: Room)
    requires B.Comes(stream, p, r) && s in st.sessions && I.Inv(st) && st.nextId < ID_LIMIT && r.Put?
    ensures Answered(stream, p, r, st, s, created) ==
            [0x0c, if 12 + |r.user| + |r.filename| + Min(|r.content|, 512) > 4096 then 0x03
                   else if !P.Known(st, s, r.sid) then 0x02
                   else if st.sessions[s].room.None? || r.user !in st.online then 0xff
                   else if !Allows(st, r.user, s) then 0x06 else 0x01]
  {
    I.Open(st);
    VerdictIsFine(st, s, View(r), created);
    B.PutView(r);
    if View(r).GotFile? {
      FileVerdictIs(st, s, r, created);
    }
    var verdict := E.VerdictFor(st, s, View(r), created);
    hide E.VerdictFor, B.Comes, Encode, View, B.ReplyTo, I.Inv, M.FileCheck;
    B.PutAnswer(stream, p, r, verdict);
  }

  lemma FileVerdictIs(st: ChatState, s: Session, r: Packed, created: Room)
    requires s in st.sessions && I.OnlineAgree(st) && r.Put? && View(r).GotFile?
    ensures var verdict := E.VerdictFor(st, s, View(r), created);
            && verdict.sessionOk == P.Known(st, s, r.sid)
            && (verdict.mayRelay <==>
                  P.Known(st, s, r.sid) && st.sessions[s].room.Some? && Allows(st, r.user, s))
            && (verdict.sessionOk && !verdict.mayRelay ==>
                  verdict.ret == if st.sessions[s].room.None? || r.user !in st.online then 0xff else 0x06)
  {
    hide Chunks, Flags;
  }
}
