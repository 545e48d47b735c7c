/** The parts put together: what the server state decides about a request is what the request is answered
    with, and a file goes from do_put through the handlers and two sockets to the target's listener. */
module EndToEnd {
  import opened ByteStrings
  import opened ChatTypes
  import opened SocketIO
  import M = ChatModel
  import W = Wire
  import F = ChatFraming
  import C = ChatClient
  import L = ChatListener

  function RetByte(ret: Retcode): Byte {
    match ret
    case Success => 0x01
    case SessionError => 0x02
    case Overflow => 0x03
    case Pending => 0x04
    case NotPending => 0x05
    case Unallowed => 0x06
    case Unauthorized => 0x07
    case Failure => 0xff
  }

  /** opcode_login as far as it decides: the credentials, and if they are good the second critical section.
      Other handlers may run between the two; st is the state that the second one finds, in which the
      session is logged out and has the strings of the request. */
  function LoginOutcome(st: ChatState, s: Session, u: Bytes, p: Bytes): Reply
    requires s in st.sessions
  {
    var read := M.LoginCreds(st, s, u, p, true);
    if read.ret != Success then read else M.LoginCommit(read.st, s)
  }

  /** What the handlers of ChatModel answer to a request that has been received, for those other than
      opcode_file_send that decide on the server state. */
  function Decided(st: ChatState, s: Session, got: W.Received, created: Room): Option<Retcode>
    requires s in st.sessions
  {
    match got
    case TooLong(op, _) => if op == W.LOGIN then Some(M.LoginCreds(st, s, [], [], false).ret) else None
    case Got(Text(op, sid, text)) =>
      if op == W.MSG_SEND then Some(M.MsgSend(st, s, sid, text).ret)
      else if op == W.JOIN then Some(M.Join(st, s, sid, text, created).ret)
      else if op == W.PROMOTE then Some(M.Promote(st, s, sid, text).ret)
      else if op == W.DISCONNECT then Some(M.Disconnect(st, s, sid, text).ret)
      else if op == W.DELETE then Some(M.Delete(st, s, sid, text).ret)
      else None
    case Got(Ask(flag, sid, user)) => Some(M.Request(st, s, sid, flag, user).ret)
    case Got(Answer(flag, choice, sid, user)) => Some(M.Respond(st, s, sid, flag, choice, user, created).ret)
    case Got(Listing(flag, sid)) => Some(M.List(st, s, sid, flag).ret)
    case Got(Bare(op, sid)) => if op == W.LOGOUT then Some(M.Logout(st, s, sid).ret) else None
    case Got(Login(user, password)) => Some(LoginOutcome(st, s, user, password).ret)
    case _ => None
  }

  function SessionIdOf(got: W.Received): nat {
    match got
    case Got(Text(_, sid, _)) => sid
    case Got(Ask(_, sid, _)) => sid
    case Got(Answer(_, _, sid, _)) => sid
    case Got(Bare(_, sid)) => sid
    case Got(Listing(_, sid)) => sid
    case TooLong(_, sid) => sid
    case _ => 0
  }

  /** The id that goes back with the answer to a login. */
  function NewIdOf(st: ChatState, s: Session, got: W.Received): nat
    requires s in st.sessions
  {
    match got
    case Got(Login(user, password)) =>
      var after := LoginOutcome(st, s, user, password).st;
      if s in after.sessions then after.sessions[s].id else 0
    case _ => 0
  }

  /** The verdict on a file request. */
  function FileVerdict(st: ChatState, s: Session, sid: nat, user: Bytes): (v: F.Verdict)
    requires s in st.sessions
    ensures v.newId < 0x1_0000_0000 && (v.mayRelay ==> v.sessionOk)
    ensures v.mayRelay <==> M.FileCheck(st, s, sid, user) == Success
  {
    var check := M.FileCheck(st, s, sid, user);
    F.Verdict(M.SessionValid(st, s, sid), check == Success, RetByte(check), 0)
  }

  /** The verdict on a request: the session check, the check of opcode_file_send, the handler's own return
      code, and the id of a login. */
  function VerdictFor(st: ChatState, s: Session, got: W.Received, created: Room): F.Verdict
    requires s in st.sessions
  {
    if got.GotFile? then FileVerdict(st, s, got.sid, got.user)
    else
      var decided := Decided(st, s, got, created);
      F.Verdict(M.SessionValid(st, s, SessionIdOf(got)), false,
                if decided.Some? then RetByte(decided.value) else F.SUCCESS, NewIdOf(st, s, got))
  }

  /** The return code that the framing puts into the answer is the one that the handler of ChatModel gives,
      for every request that is decided on the server state; for a file that may be relayed it is the one
      of FileDone; and ping and echo, which decide nothing, are answered by the session check. */
  lemma AnswersAgree(st: ChatState, s: Session, got: W.Received, created: Room, relayed: bool)
    requires s in st.sessions
    ensures var code := F.ReplyCode(got, VerdictFor(st, s, got, created), relayed);
            && (Decided(st, s, got, created).Some? ==> code == RetByte(Decided(st, s, got, created).value))
            && (got.GotFile? && M.FileCheck(st, s, got.sid, got.user) != Success ==>
                  code == RetByte(M.FileCheck(st, s, got.sid, got.user)))
            && (got.GotFile? && M.FileCheck(st, s, got.sid, got.user) == Success ==>
                  code == RetByte(M.FileDone(st, st.online[got.user], relayed).ret))
            && (got.Got? && (got.request.Bare? || got.request.Text?) && Decided(st, s, got, created).None? ==>
                  code == RetByte(if M.SessionValid(st, s, got.request.sid) then Success else SessionError))
  {
    hide M.MoveTo, M.RoomFor, M.Broadcast, M.UserLogout, M.ClientFree, M.DeleteRoom;
    hide M.FindRoom, M.Decide, M.PendingAt, M.WithTable;
    hide M.RoomNames, M.UserNames, LoginOutcome, NewIdOf;
  }

  lemma OutcomeExactly(st: ChatState, s: Session, user: Bytes, password: Bytes)
    requires s in st.sessions && st.sessions[s].id == 0
    ensures var reply := LoginOutcome(st, s, user, password);
            && s in reply.st.sessions
            && (reply.ret == Success <==> reply.st.sessions[s].id != 0)
            && (reply.st.sessions[s].id != 0 <==>
                  && ValidUsername(user) && ValidPassword(password) && st.nextId != 0
                  && (user in st.creds ==> st.creds[user] == password) && user !in st.online)
            && (reply.st.sessions[s].id != 0 ==> reply.st.sessions[s].id == st.nextId)
  {
    hide ValidUsername, ValidPassword, M.LoginCommit;
    var read := M.LoginCreds(st, s, user, password, true);
    if read.ret == Success {
      CommitExactly(read.st, s);
    }
  }

  lemma CommitExactly(st: ChatState, s: Session)
    requires s in st.sessions
    ensures var rec := st.sessions[s]; var reply := M.LoginCommit(st, s);
            && s in reply.st.sessions
            && (reply.ret == Success <==> reply.st.sessions[s].id != 0)
            && (reply.st.sessions[s].id != 0 <==>
                  && st.nextId != 0
                  && (rec.username in st.creds ==> st.creds[rec.username] == rec.password)
                  && rec.username !in st.online)
            && (reply.st.sessions[s].id != 0 ==> reply.st.sessions[s].id == st.nextId)
  {
  }

  /** The id in the answer to a login is the one that the session then has. It is 0 exactly when the login is
      not answered SUCCESS, and then nobody is logged in on that session; otherwise it is the counter's. */
  lemma LoginAnswer(st: ChatState, s: Session, user: Bytes, password: Bytes, created: Room)
    requires s in st.sessions && st.sessions[s].id == 0
    ensures var got := W.Got(W.Login(user, password)); var verdict := VerdictFor(st, s, got, created);
            var after := LoginOutcome(st, s, user, password).st;
            && s in after.sessions && verdict.newId == after.sessions[s].id
            && (F.ReplyCode(got, verdict, false) == F.SUCCESS <==> verdict.newId != 0)
            && (verdict.newId != 0 <==>
                  && ValidUsername(user) && ValidPassword(password) && st.nextId != 0
                  && (user in st.creds ==> st.creds[user] == password) && user !in st.online)
            && (verdict.newId != 0 ==> verdict.newId == st.nextId)
  {
    hide ValidUsername, ValidPassword, LoginOutcome;
    OutcomeExactly(st, s, user, password);
  }

  /** What the relay of a `put` that fits a packet sends is what ChatTransfers asks of a sender, flagged as its
      theorems about whole files ask for it, and it carries the name and the content of the file. */
  lemma PutIsGoodSender(stream: Bytes, p: nat, r: W.Packed)
    requires r.Put? && C.FitsPacket(r) && W.At(stream, p, W.Encode(r))
    ensures W.FrameEnd(stream, p).Some? && stream[p] == W.FILE_SEND && W.Parsed(stream, p).GotFile?
    ensures var ps := F.Relay(stream, p);
            && C.IsSent(ps) && C.IsTransfer(ps) && C.Whole(ps)
            && C.NameOf(ps) == r.filename && C.ContentOf(ps) == r.content
            && (C.GoodName(r) ==> C.Written([ps]) == [(C.Basename(r.filename), r.content)])
  {
    C.FirstChunkSize(r.content);
    hide W.Encode, W.FrameEnd, W.Parsed, F.RelayFine, F.Relay, W.At, C.IsSent, C.IsTransfer, C.NameOf, C.ContentOf;
    C.PutIsTransfer(stream, p, r);
    C.RelayIsSent(stream, p);
    assert [F.Relay(stream, p)][1..] == [];
  }

  // ---------------------------------------------------------------- a file from end to end

  /** Payloads that fit the size field, and their frames. */
  type Relayable = p: W.Payload | |p| < 0x1_0000 witness [0]

  function FileFrame(payload: Relayable): L.Sendable { L.Msg(F.SUCCESS, L.FILE_FLAG, payload) }

  function FileFrames(ps: seq<Relayable>): (ds: seq<L.Sendable>)
    ensures |ds| == |ps| && forall i :: 0 <= i < |ps| ==> ds[i] == FileFrame(ps[i])
  {
    seq(|ps|, i requires 0 <= i < |ps| => FileFrame(ps[i]))
  }

  lemma {:induction false} OnlyFileFrames(ps: seq<Relayable>, n: nat)
    requires n <= |ps|
    ensures L.FilePayloads(FileFrames(ps), n) == ps[..n] && L.ReadableUpTo(FileFrames(ps), n) == n
  {
    if n > 0 {
      OnlyFileFrames(ps, n - 1);
    }
  }

  lemma {:induction false} NoGoodbye(ps: seq<Relayable>, i: nat)
    requires i <= |ps|
    ensures L.ReadFrom(FileFrames(ps), i) == |ps|
    decreases |ps| - i
  {
    if i < |ps| {
      NoGoodbye(ps, i + 1);
    }
  }

  /** A listener that hears nothing but these payloads takes exactly them. */
  lemma HeardIsTaken(h: L.Hearing, ps: seq<Relayable>)
    requires h.box.alive
    ensures var ds := FileFrames(ps);
            L.HearAll(h, ds, L.ReadFrom(ds, 0)).box == C.TakeFiles(h.box, ps)
  {
    hide *;
    NoGoodbye(ps, 0);
    OnlyFileFrames(ps, |ps|);
    L.OnlyFilesMatter(h, FileFrames(ps), |ps|);
    AllOf(ps);
  }

  lemma AllOf<T>(s: seq<T>)
    ensures s[..|s|] == s
  {
  }

  /** The loop of file_relay on the target's socket: one MSG_FLAG_FILE frame per payload. */
  method SendPayloads(link: Socket, ps: seq<Relayable>) returns (ok: bool)
    requires link.sent == []
    modifies link`sent, link`interrupts
    ensures ok ==> link.sent == L.DownFrom(FileFrames(ps), 0)
  {
    hide L.DownBytes;
    ok := true;
    ghost var ds := FileFrames(ps);
    for i := 0 to |ps|
      invariant link.sent + L.DownFrom(ds, i) == L.DownFrom(ds, 0)
    {
      F.Regroup(link.sent, L.DownBytes(ds[i]), L.DownFrom(ds, i + 1));
      ok := L.MsgSend(link, L.FILE_FLAG, ps[i]);
      if !ok {
        return;
      }
    }
  }

  /** What a relay sends can be framed. */
  lemma RelayedIsRelayable(s: Bytes, p: nat, verdict: F.Verdict)
    requires W.FrameEnd(s, p).Some?
    ensures forall i :: 0 <= i < |F.Relayed(s, p, verdict)| ==> |F.Relayed(s, p, verdict)[i]| < 0x1_0000
  {
    if F.Relayed(s, p, verdict) != [] {
      GotFileOpcode(s, p);
      C.RelayIsSent(s, p);
    }
  }

  lemma GotFileOpcode(s: Bytes, p: nat)
    requires W.FrameEnd(s, p).Some? && W.Parsed(s, p).GotFile?
    ensures s[p] == W.FILE_SEND
  {
  }

  /** The verdict on what do_put packs, and what is written because of it. */
  lemma PutOutcome(box: C.Inbox, stream: Bytes, p: nat, r: W.Packed, st: ChatState, s: Session)
    requires r.Put? && W.At(stream, p, W.Encode(r)) && s in st.sessions && box.alive
    ensures W.FrameEnd(stream, p) == Some(p + |W.Encode(r)|) && W.Parsed(stream, p) == W.View(r) && p < |stream|
    ensures C.TakeFiles(box, F.Relayed(stream, p, FileVerdict(st, s, r.sid, r.user))).files
            == box.files + if M.FileCheck(st, s, r.sid, r.user) == Success && C.FitsPacket(r) && C.GoodName(r)
                           then [(C.Basename(r.filename), r.content)] else []
  {
    hide W.Encode, W.View, W.FrameEnd, W.Parsed, C.FitsPacket, C.GoodName, C.Basename, C.TakeFile, F.Relay, W.At;
    W.FrameOfEncode(stream, p, r);
    var verdict := FileVerdict(st, s, r.sid, r.user);
    if verdict.mayRelay {
      C.FileArrives(box, stream, p, r, verdict);
    } else {
      assert F.Relayed(stream, p, verdict) == [];
      C.TakeNoFiles(box);
    }
  }

  /** The return code of a `put` whose relay is not broken off. */
  ghost function PutCode(r: W.Packed, st: ChatState, s: Session): Byte
    requires r.Put? && s in st.sessions
  {
    if !C.FitsPacket(r) then F.OVERFLOW else RetByte(M.FileCheck(st, s, r.sid, r.user))
  }

  lemma PutAnswer(stream: Bytes, p: nat, r: W.Packed, st: ChatState, s: Session)
    requires r.Put? && W.At(stream, p, W.Encode(r)) && s in st.sessions
    ensures W.FrameEnd(stream, p).Some? && W.Parsed(stream, p) == W.View(r)
    ensures W.View(r).GotFile? <==> C.FitsPacket(r)
    ensures var all, verdict := W.Parsed(stream, p), FileVerdict(st, s, r.sid, r.user);
            && F.Echoed(all, verdict) == [] && !all.Unknown? && stream[p] == W.FILE_SEND
            && F.ReplyTail(stream[p], all, verdict) == []
            && F.ReplyCode(all, verdict, F.RelayFine(stream, p)) == PutCode(r, st, s)
  {
    hide W.Encode, W.FrameEnd, W.Parsed, F.RelayFine, W.At, F.Relay;
    W.FrameOfEncode(stream, p, r);
    C.FirstChunkSize(r.content);
    PutOpcode(stream, p, r);
    if W.View(r).GotFile? {
      C.PutIsTransfer(stream, p, r);
    }
  }

  lemma PutOpcode(stream: Bytes, p: nat, r: W.Packed)
    requires r.Put? && W.At(stream, p, W.Encode(r))
    ensures p < |stream| && stream[p] == W.FILE_SEND
  {
    C.PutBody(stream, p, r);
  }

  /** The sockets of all clients: one each, nothing sent on any yet. */
  ghost predicate Connected(st: ChatState, sockets: map<Session, Socket>)
    reads sockets.Values
  {
    && (forall t :: t in st.sessions ==> t in sockets)
    && (forall t, u | t in sockets && u in sockets :: sockets[t] == sockets[u] ==> t == u)
    && (forall t :: t in sockets ==> sockets[t].sent == [])
  }

  /** Nothing is sent to anybody but the target. */
  ghost predicate OnlyTo(target: Option<Session>, sockets: map<Session, Socket>)
    reads sockets.Values
  {
    forall t :: t in sockets && target != Some(t) ==> sockets[t].sent == []
  }

  /** The client that a file goes to, if the check allows it. */
  function TargetOf(st: ChatState, s: Session, sid: nat, user: Bytes): (t: Option<Session>)
    requires s in st.sessions
    ensures t.Some? <==> M.FileCheck(st, s, sid, user) == Success
    ensures t.Some? ==> M.SessionGet(st, user) == t && t.value in st.sessions
  {
    if M.FileCheck(st, s, sid, user) == Success then M.SessionGet(st, user) else None
  }

  /** A `put` from the command to the file. The sender packs it; the server takes the request off the
      sender's socket, in whatever pieces it comes, checks it against its state, relays it to the socket
      of the session that is online under the name, and to no other, and uses up the permission; and the
      listener of that session takes the frames off its own end. The answer says what the check says, or
      that the packet is too long. Unless a send to the target fails, what the target has written then is
      the sender's content under the base name, if and only if the check succeeds, names and first chunk
      fit a packet, and the name can be opened; nothing otherwise. */
  method PutFromEndToEnd(sid: nat, user: Bytes, filename: Bytes, content: Bytes, st: ChatState, s: Session,
                         interrupts: nat, sockets: map<Session, Socket>)
    returns (answer: Bytes, after: ChatState, delivered: bool, written: seq<(Bytes, Bytes)>)
    requires W.Packable(W.Put(sid, user, filename, content)) && s in st.sessions && Connected(st, sockets)
    modifies sockets.Values
    ensures answer == [W.FILE_SEND, PutCode(W.Put(sid, user, filename, content), st, s)]
    ensures OnlyTo(TargetOf(st, s, sid, user), sockets)
    ensures var target := TargetOf(st, s, sid, user);
            after == if target.Some? && C.FitsPacket(W.Put(sid, user, filename, content))
                     then M.WithSession(st, target.value, st.sessions[target.value].(allow := [])) else st
    ensures delivered ==>
              var r := W.Put(sid, user, filename, content);
              written == if M.FileCheck(st, s, sid, user) == Success && C.FitsPacket(r) && C.GoodName(r)
                         then [(C.Basename(filename), content)] else []
  {
    hide M.FileCheck, M.SessionGet, C.FitsPacket, C.GoodName, C.Basename, PutCode, C.TakeFiles, W.Packable;
    var got, sent;
    got, sent, answer := ServePut(sid, user, filename, content, st, s, interrupts);
    var target := TargetOf(st, s, sid, user);
    after, delivered, written := st, true, [];
    if target.Some? {
      delivered, written := RelayAndHear(sockets[target.value], sent, interrupts);
      if got.GotFile? {
        after := M.FileDone(st, target.value, true).st;
      }
    }
  }

  /** The sender's side and the server's: the answer, the payloads of the relay, and what they amount to. */
  method ServePut(sid: nat, user: Bytes, filename: Bytes, content: Bytes, st: ChatState, s: Session, interrupts: nat)
    returns (got: W.Received, sent: seq<Relayable>, answer: Bytes)
    requires W.Packable(W.Put(sid, user, filename, content)) && s in st.sessions
    ensures var r := W.Put(sid, user, filename, content);
            && answer == [W.FILE_SEND, PutCode(r, st, s)]
            && (got.GotFile? <==> C.FitsPacket(r))
            && C.TakeFiles(C.Inbox(None, [], [], true), sent).files
               == if M.FileCheck(st, s, sid, user) == Success && C.FitsPacket(r) && C.GoodName(r)
                  then [(C.Basename(filename), content)] else []
  {
    hide *;
    var request := C.DoPut(sid, user, filename, content);
    var sender := new Socket(request, true, interrupts);
    ghost var r: W.Packed := W.Put(sid, user, filename, content);
    WholeStream(request);
    PutOutcome(C.Inbox(None, [], [], true), request, 0, r, st, s);
    RelayedIsRelayable(request, 0, FileVerdict(st, s, sid, user));
    PutAnswer(request, 0, r, st, s);
    var payloads;
    got, payloads, answer := F.RunOnce(sender, FileVerdict(st, s, sid, user));
    KeptFile(W.View(r), FileVerdict(st, s, sid, user));
    sent := payloads;
  }

  lemma KeptFile(all: W.Received, verdict: F.Verdict)
    ensures F.Kept(all, verdict).GotFile? <==> all.GotFile?
  {
  }

  /** The relay's sends, and the listener at the other end. */
  method RelayAndHear(link: Socket, ps: seq<Relayable>, interrupts: nat)
    returns (delivered: bool, written: seq<(Bytes, Bytes)>)
    requires link.sent == []
    modifies link
    ensures delivered ==> written == C.TakeFiles(C.Inbox(None, [], [], true), ps).files
  {
    hide *;
    written := [];
    delivered := SendPayloads(link, ps);
    if delivered {
      HeardIsTaken(L.Hearing(0, None, C.Inbox(None, [], [], true)), ps);
      written := HearFile(link.sent, interrupts, FileFrames(ps));
    }
  }

  /** A fresh listener on a stream of frames. */
  method HearFile(stream: Bytes, interrupts: nat, ghost ds: seq<L.Sendable>) returns (written: seq<(Bytes, Bytes)>)
    requires stream == L.DownFrom(ds, 0)
    ensures written == L.HearAll(L.Hearing(0, None, C.Inbox(None, [], [], true)), ds, L.ReadFrom(ds, 0)).box.files
  {
    hide L.DownFrom, L.HearAll, L.ReadFrom;
    var sock := new Socket(stream, true, interrupts);
    var client := new L.Client(sock);
    client.Listen(ds);
    written := client.written;
  }

  lemma WholeStream(b: Bytes)
    ensures W.At(b, 0, b)
  {
  }
}
