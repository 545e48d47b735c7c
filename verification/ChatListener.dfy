/** The way back: answers and pushed messages as the server frames them, and the listener that reads
    them one after another. */
module ChatListener {
  import opened ByteStrings
  import opened Wire
  import opened SocketIO
  import opened ChatFraming
  import opened ChatClient
  import opened Utf8

  const JOIN_FLAG: Byte := 0x03
  const FILE_FLAG: Byte := 0x04

  /** What the server puts on a client's socket. */
  datatype Down =
    | Reply(op: Byte, ret: Byte)
    | EchoReply(ret: Byte, payload: Bytes)
    | LoginReply(ret: Byte, sid: nat)
    | Msg(ret: Byte, flag: Byte, payload: Bytes)

  predicate WellFormed(d: Down) {
    match d
    case Reply(op, _) => op != ECHO && op != LOGIN && op != MSG_RECV
    case EchoReply(_, payload) => Short(payload)
    case LoginReply(_, sid) => sid < 0x1_0000_0000
    case Msg(_, _, payload) => Short(payload)
  }

  type Sendable = d: Down | WellFormed(d) witness Reply(DEFAULT, 0)

  function DownBytes(d: Sendable): (b: Bytes)
    ensures b != []
  {
    match d
    case Reply(op, ret) => [op] + [ret]
    case EchoReply(ret, payload) => [ECHO] + ([ret] + EchoTail(payload))
    case LoginReply(ret, sid) => [LOGIN] + ([ret] + U32(sid))
    case Msg(ret, flag, payload) => [MSG_RECV] + ([ret] + ([flag] + (U16(|payload|) + payload)))
  }

  /** The frames byte by byte. */
  lemma FrameBytes(d: Sendable)
    ensures DownBytes(d) ==
            match d
            case Reply(op, ret) => [op, ret]
            case EchoReply(ret, payload) => [0x02, ret] + (U16(|payload|) + payload)
            case LoginReply(ret, sid) => [0x04, ret] + U32(sid)
            case Msg(ret, flag, payload) => [0x07, ret, flag] + (U16(|payload|) + payload)
  {
    hide U16, U32;
  }

  /** msg_send: the header and the payload in one sendall. */
  method MsgSend(sock: Socket, flag: Byte, payload: Bytes) returns (ok: bool)
    requires Short(payload)
    modifies sock`sent, sock`interrupts
    ensures ok ==> sock.sent == old(sock.sent) + DownBytes(Msg(SUCCESS, flag, payload))
  {
    var hdr: Bytes := [MSG_RECV, SUCCESS, flag] + U16(|payload|);
    assert hdr + payload == DownBytes(Msg(SUCCESS, flag, payload));
    ok := sock.SendAll(hdr + payload);
  }

  /** The answer to a request as a frame of the way back. */
  ghost function AnswerTo(s: Bytes, p: nat, verdict: Verdict): Sendable
    requires FrameEnd(s, p).Some? && verdict.newId < 0x1_0000_0000
  {
    var all := Parsed(s, p);
    var ret := ReplyCode(all, verdict, RelayFine(s, p));
    EchoIsShort(s, p, verdict);
    if s[p] == ECHO then EchoReply(ret, Echoed(all, verdict))
    else if s[p] == LOGIN then LoginReply(ret, if all.Got? then verdict.newId else 0)
    else Reply(if all.Unknown? then DEFAULT else s[p], ret)
  }

  /** The packet that chat_client_run sends back is one frame of the way back. */
  lemma AnswerIsFrame(s: Bytes, p: nat, verdict: Verdict)
    requires FrameEnd(s, p).Some? && verdict.newId < 0x1_0000_0000
    ensures var all := Parsed(s, p);
            && Short(Echoed(all, verdict))
            && DownBytes(AnswerTo(s, p, verdict)) ==
               [if all.Unknown? then DEFAULT else s[p]]
               + ([ReplyCode(all, verdict, RelayFine(s, p))] + ReplyTail(s[p], all, verdict))
  {
    EchoIsShort(s, p, verdict);
    hide ReplyCode, RelayFine, U16, U32, Echoed;
  }

  // ---------------------------------------------------------------- the listener

  /** The part of the client that the listener changes. */
  datatype Hearing = Hearing(sid: nat, room: Option<Bytes>, box: Inbox)

  /** The exception of a text that does not decode ends the listener. */
  function Deaf(h: Hearing): Hearing { h.(box := Ended(h.box)) }

  /** The frame carries no text that fails to decode. */
  predicate Readable(d: Down) {
    match d
    case EchoReply(ret, payload) => ret == SUCCESS ==> Decodes(payload)
    case Msg(ret, flag, payload) => ret == SUCCESS && flag != FILE_FLAG ==> Decodes(payload)
    case _ => true
  }

  /** One frame. Once the listener has ended nothing is read any more. */
  function Hear(h: Hearing, d: Down): Hearing {
    if !h.box.alive then h
    else if !Readable(d) then Deaf(h)
    else match d
      case Reply(op, ret) =>
        if op == JOIN && ret != SUCCESS then h.(room := None)
        else if op == LOGOUT && ret == SUCCESS then h.(sid := 0, room := None)
        else h
      case EchoReply(_, _) => h
      case LoginReply(ret, sid) => if ret == SUCCESS then h.(sid := sid) else h.(sid := 0, room := None)
      case Msg(ret, flag, payload) =>
        if ret == SUCCESS && flag == JOIN_FLAG then h.(room := if payload == [] then None else Some(payload))
        else if ret == SUCCESS && flag == FILE_FLAG then h.(box := TakeFile(h.box, payload))
        else h
  }

  /** The first n frames. */
  function HearAll(h: Hearing, ds: seq<Down>, n: nat): Hearing
    requires n <= |ds|
  {
    if n == 0 then h else Hear(HearAll(h, ds, n - 1), ds[n - 1])
  }

  predicate IsFile(d: Down) { d.Msg? && d.ret == SUCCESS && d.flag == FILE_FLAG }

  /** The answer to quit, at which the listener stops. */
  predicate IsGoodbye(d: Down) { d.Reply? && d.op == QUIT }

  /** How many of the frames from i on the listener reads: up to and including an answer to quit. */
  function ReadFrom(ds: seq<Down>, i: nat): (n: nat)
    requires i <= |ds|
    ensures i <= n <= |ds|
    decreases |ds| - i
  {
    if i == |ds| then i else if IsGoodbye(ds[i]) then i + 1 else ReadFrom(ds, i + 1)
  }

  /** The file payloads among the first n frames. */
  function FilePayloads(ds: seq<Down>, n: nat): seq<Bytes>
    requires n <= |ds|
  {
    if n == 0 then [] else FilePayloads(ds, n - 1) + if IsFile(ds[n - 1]) then [ds[n - 1].payload] else []
  }

  /** How many of the first n frames can be read before one cannot. */
  function ReadableUpTo(ds: seq<Down>, n: nat): (m: nat)
    requires n <= |ds|
    ensures m <= n && (m < n ==> !Readable(ds[m])) && forall i :: 0 <= i < m ==> Readable(ds[i])
  {
    if n == 0 then 0
    else
      var m := ReadableUpTo(ds, n - 1);
      if m == n - 1 && Readable(ds[n - 1]) then n else m
  }

  /** Frames of other kinds do not touch the file that is coming in; one that cannot be read ends
      everything. */
  lemma {:induction false} OnlyFilesMatter(h: Hearing, ds: seq<Down>, n: nat)
    requires n <= |ds| && h.box.alive
    ensures var heard, taken := HearAll(h, ds, n).box, TakeFiles(h.box, FilePayloads(ds, ReadableUpTo(ds, n)));
            && heard.files == taken.files
            && (heard.alive <==> ReadableUpTo(ds, n) == n && taken.alive)
            && (ReadableUpTo(ds, n) == n ==> heard == taken)
  {
    hide Hear, TakeFile, Readable, IsFile;
    if n > 0 {
      OnlyFilesMatter(h, ds, n - 1);
      HearBox(HearAll(h, ds, n - 1), ds[n - 1]);
      var m := ReadableUpTo(ds, n - 1);
      if m == n - 1 && IsFile(ds[n - 1]) {
        hide TakeFiles;
        FileIsReadable(ds[n - 1]);
        var before := FilePayloads(ds, n - 1);
        TakeFilesJoin(h.box, before, [ds[n - 1].payload]);
        TakeOne(TakeFiles(h.box, before), ds[n - 1].payload);
        TakeDead(TakeFiles(h.box, before), ds[n - 1].payload);
      } else if m == n - 1 {
        assert FilePayloads(ds, n) == FilePayloads(ds, m);
      }
    }
  }

  lemma FileIsReadable(d: Down)
    requires IsFile(d)
    ensures Readable(d) && d.Msg?
  {
  }

  /** What one frame does to the files. */
  lemma HearBox(h: Hearing, d: Down)
    ensures !h.box.alive ==> Hear(h, d) == h
    ensures h.box.alive && !Readable(d) ==> Hear(h, d).box == Ended(h.box)
    ensures h.box.alive && IsFile(d) ==> Hear(h, d).box == TakeFile(h.box, d.payload)
    ensures h.box.alive && Readable(d) && !IsFile(d) ==> Hear(h, d).box == h.box
  {
    hide Decodes;
  }

  lemma TakeOne(box: Inbox, payload: Bytes)
    ensures TakeFiles(box, [payload]) == TakeFile(box, payload)
  {
    assert [payload][1..] == [];
  }

  lemma TakeDead(box: Inbox, payload: Bytes)
    ensures !box.alive ==> TakeFile(box, payload) == box
  {
  }

  lemma {:induction false} FilePayloadsPrefix(ds: seq<Down>, m: nat, n: nat)
    requires m <= n <= |ds|
    ensures FilePayloads(ds, m) <= FilePayloads(ds, n)
    decreases n
  {
    if m < n {
      FilePayloadsPrefix(ds, m, n - 1);
    }
  }

  /** Any number of transfers, the last perhaps unfinished, interleaved with any other frames: the files
      written are those of the completed transfers, in order, each with its whole content, up to a
      transfer that ends the listener; a text that does not decode ends it too, and then they are a
      beginning of those. */
  lemma FilesWritten(h: Hearing, ds: seq<Down>, ts: seq<Transfer>)
    requires FilePayloads(ds, |ds|) == Concat(ts) && h.box.alive
    ensures HearAll(h, ds, |ds|).box.files <= h.box.files + Written(ts)
    ensures (forall d :: d in ds ==> Readable(d)) ==> HearAll(h, ds, |ds|).box.files == h.box.files + Written(ts)
    ensures HearAll(h, ds, |ds|).box.alive <==> (forall d :: d in ds ==> Readable(d)) && AllHarmless(ts)
  {
    Reassembly(h.box, ts);
    OnlyFilesMatter(h, ds, |ds|);
    var m := ReadableUpTo(ds, |ds|);
    AllReadable(ds);
    hide Readable, AllHarmless, Written, TakeFiles, Concat, HearAll, FilePayloads, ReadableUpTo;
    FilePayloadsPrefix(ds, m, |ds|);
    BeginningTaken(h.box, FilePayloads(ds, m), FilePayloads(ds, |ds|));
  }

  lemma AllReadable(ds: seq<Down>)
    ensures ReadableUpTo(ds, |ds|) == |ds| <==> forall d :: d in ds ==> Readable(d)
  {
    hide Readable;
    if ReadableUpTo(ds, |ds|) < |ds| {
      assert ds[ReadableUpTo(ds, |ds|)] in ds;
    }
  }

  /** Fewer payloads write fewer files. */
  lemma BeginningTaken(box: Inbox, a: seq<Bytes>, b: seq<Bytes>)
    requires a <= b
    ensures TakeFiles(box, a).files <= TakeFiles(box, b).files
  {
    hide *;
    assert b == a + b[|a|..];
    TakeFilesJoin(box, a, b[|a|..]);
    TakeFilesGrow(TakeFiles(box, a), b[|a|..]);
  }

  function DownFrom(ds: seq<Sendable>, i: nat): Bytes
    decreases |ds| - i
  {
    if i >= |ds| then [] else DownBytes(ds[i]) + DownFrom(ds, i + 1)
  }

  class Client {
    const sock: Socket
    var sessionId: nat
    var roomName: Option<Bytes>
    var fileRecvName: Option<Bytes>
    var fileRecvBuffer: Bytes
    var written: seq<(Bytes, Bytes)>
    var listening: bool

    constructor (sock: Socket)
      ensures this.sock == sock && State() == Hearing(0, None, Inbox(None, [], [], true))
    {
      this.sock := sock;
      sessionId, roomName := 0, None;
      fileRecvName, fileRecvBuffer, written, listening := None, [], [], true;
    }

    function State(): Hearing
      reads this
    {
      Hearing(sessionId, roomName, Inbox(fileRecvName, fileRecvBuffer, written, listening))
    }

    /** open(name, "wb"), write and close, or the exception of open. */
    method WriteFile(name: Bytes)
      modifies `written, `listening
      ensures written == if Openable(name) then old(written) + [(name, fileRecvBuffer)] else old(written)
      ensures listening == (old(listening) && Openable(name))
    {
      if name == [] || name == [DOT] || name == [DOT, DOT] || 0 in name {
        listening := false;
      } else {
        written := written + [(name, fileRecvBuffer)];
      }
    }

    /** The file branch of opcode_msg_recv. */
    method ReceiveFile(payload: Bytes)
      requires listening
      modifies `fileRecvName, `fileRecvBuffer, `written, `listening
      ensures State().box == TakeFile(old(State().box), payload)
    {
      if payload == [] || (IsFirst(payload[0]) && |payload| < 3) {
        listening := false;
        return;
      }
      var flags := payload[0];
      if IsFirst(flags) {
        var size := Be16(payload, 1);
        var cut := Min(3 + size, |payload|);
        if !Decodes(payload[3..cut]) {
          listening := false;
          return;
        }
        fileRecvName := Some(Basename(payload[3..cut]));
        fileRecvBuffer := payload[cut..];
      } else {
        fileRecvBuffer := fileRecvBuffer + payload[1..];
      }
      if IsLast(flags) {
        if fileRecvName.Some? {
          WriteFile(fileRecvName.value);
        }
        if listening {
          fileRecvName := None;
          fileRecvBuffer := [];
        }
      }
    }

    /** A header of some bytes of which the last two are the size of what follows, and that. */
    method RecvSized(head: nat) returns (hdr: Bytes, payload: Bytes)
      requires sock.healthy && 2 <= head && sock.pos + head <= |sock.stream|
      requires sock.pos + head + Be16(sock.stream, sock.pos + head - 2) <= |sock.stream|
      modifies sock`pos, sock`interrupts
      ensures var s, p := sock.stream, old(sock.pos);
              && |hdr| == head && (forall i :: 0 <= i < head ==> hdr[i] == s[p + i])
              && sock.pos == p + head + Be16(s, p + head - 2)
              && payload == s[p + head..sock.pos]
    {
      ghost var p := sock.pos;
      hide Be16;
      var ok;
      ok, hdr := sock.RecvAll(head);
      SizeOfSlice(sock.stream, p, p + head, head - 2);
      ok, payload := sock.RecvAll(Be16(hdr, head - 2));
    }

    /** opcode_msg_recv. */
    method OpcodeMsgRecv(ghost d: Sendable)
      requires sock.healthy && listening && d.Msg? && 1 <= sock.pos <= |sock.stream|
      requires At(sock.stream, sock.pos - 1, DownBytes(d))
      modifies this, sock`pos, sock`interrupts
      ensures sock.pos == old(sock.pos) - 1 + |DownBytes(d)| && State() == Hear(old(State()), d)
    {
      MsgFields(sock.stream, sock.pos - 1, d);
      hide DownBytes, At, Decodes, TakeFile, Be16;
      var hdr, payload := RecvSized(4);
      assert hdr[0] == d.ret && hdr[1] == d.flag && payload == d.payload;
      if hdr[0] == SUCCESS {
        if hdr[1] == FILE_FLAG {
          ReceiveFile(payload);
        } else if !Decodes(payload) {
          listening := false;
        } else if hdr[1] == JOIN_FLAG {
          roomName := if payload == [] then None else Some(payload);
        }
      }
    }

    /** opcode_echo_reply. */
    method OpcodeEchoReply(ghost d: Sendable)
      requires sock.healthy && listening && d.EchoReply? && 1 <= sock.pos <= |sock.stream|
      requires At(sock.stream, sock.pos - 1, DownBytes(d))
      modifies `listening, sock`pos, sock`interrupts
      ensures sock.pos == old(sock.pos) - 1 + |DownBytes(d)|
      ensures listening <==> Readable(d)
    {
      ReplyFields(sock.stream, sock.pos - 1, d);
      hide At, Decodes, DownBytes, Be16;
      var hdr, payload := RecvSized(3);
      assert hdr[0] == d.ret && payload == d.payload;
      if hdr[0] == SUCCESS && !Decodes(payload) {
        listening := false;
      }
    }

    /** The decoder of the answer to a login. */
    method OpcodeLoginReply(ghost d: Sendable)
      requires sock.healthy && d.LoginReply? && 1 <= sock.pos <= |sock.stream|
      requires At(sock.stream, sock.pos - 1, DownBytes(d))
      modifies `sessionId, `roomName, sock`pos, sock`interrupts
      ensures sock.pos == old(sock.pos) - 1 + |DownBytes(d)|
      ensures sessionId == if d.ret == SUCCESS then d.sid else 0
      ensures roomName == if d.ret == SUCCESS then old(roomName) else None
    {
      ReplyFields(sock.stream, sock.pos - 1, d);
      hide At, Decodes, DownBytes;
      var ok, data := sock.RecvAll(5);
      if data[0] == SUCCESS {
        sessionId := Be32(data, 1);
      } else {
        sessionId, roomName := 0, None;
      }
    }

    /** The decoders of the answers that are opcode and return code. */
    method OpcodePlainReply(op: Byte, ghost d: Sendable)
      requires sock.healthy && d.Reply? && op == d.op && 1 <= sock.pos <= |sock.stream|
      requires At(sock.stream, sock.pos - 1, DownBytes(d))
      modifies `sessionId, `roomName, sock`pos, sock`interrupts
      ensures sock.pos == old(sock.pos) - 1 + |DownBytes(d)|
      ensures sessionId == if op == LOGOUT && d.ret == SUCCESS then 0 else old(sessionId)
      ensures roomName == if (op == LOGOUT && d.ret == SUCCESS) || (op == JOIN && d.ret != SUCCESS) then None
                          else old(roomName)
    {
      ReplyFields(sock.stream, sock.pos - 1, d);
      hide At, Decodes, DownBytes;
      var ok, data := sock.RecvAll(1);
      if op == JOIN && data[0] != SUCCESS {
        roomName := None;
      } else if op == LOGOUT && data[0] == SUCCESS {
        sessionId, roomName := 0, None;
      }
    }

    /** The decoders of the answers. */
    method OpcodeReply(op: Byte, ghost d: Sendable)
      requires sock.healthy && listening && !d.Msg? && 1 <= sock.pos <= |sock.stream|
      requires At(sock.stream, sock.pos - 1, DownBytes(d)) && op == DownBytes(d)[0]
      modifies this, sock`pos, sock`interrupts
      ensures sock.pos == old(sock.pos) - 1 + |DownBytes(d)| && State() == Hear(old(State()), d)
    {
      OpcodeOf(d);
      hide At, Decodes, DownBytes;
      if op == ECHO {
        OpcodeEchoReply(d);
      } else if op == LOGIN {
        OpcodeLoginReply(d);
      } else {
        OpcodePlainReply(op, d);
      }
    }

    /** One turn of the listener. */
    method HearOne(ghost d: Sendable) returns (quit: bool)
      requires sock.healthy && listening && sock.pos <= |sock.stream| && At(sock.stream, sock.pos, DownBytes(d))
      modifies this, sock`pos, sock`interrupts
      ensures sock.pos == old(sock.pos) + |DownBytes(d)| && State() == Hear(old(State()), d)
      ensures quit <==> IsGoodbye(d)
    {
      FirstByte(sock.stream, sock.pos, d);
      hide Hear;
      var ok, first := sock.RecvAll(1);
      if first[0] == MSG_RECV {
        OpcodeMsgRecv(d);
      } else {
        OpcodeReply(first[0], d);
      }
      quit := first[0] == QUIT;
    }

    /** The listener over a stream of frames, up to an answer to quit: it ends in the state that the
        frames call for, and unless an exception ended it before, it has never lost its place. */
    method Listen(ghost ds: seq<Sendable>)
      requires sock.healthy && listening && sock.pos == 0 && sock.stream == DownFrom(ds, 0)
      modifies this, sock`pos, sock`interrupts
      ensures State() == HearAll(old(State()), ds, ReadFrom(ds, 0))
      ensures listening ==> sock.pos + |DownFrom(ds, ReadFrom(ds, 0))| == |sock.stream|
    {
      hide *;
      ghost var i := 0;
      ghost var start := State();
      var quit := false;
      BeginListening(sock.stream, start, ds);
      while listening && sock.pos < |sock.stream| && !quit
        invariant i <= |ds| && ReadFrom(ds, 0) == if quit then i else ReadFrom(ds, i)
        invariant sock.pos + |DownFrom(ds, i)| == |sock.stream| && At(sock.stream, sock.pos, DownFrom(ds, i))
        invariant HearAll(start, ds, i) == State()
        decreases |sock.stream| - sock.pos
      {
        FramesAhead(sock.stream, sock.pos, ds, i);
        HearStep(start, ds, i);
        ReadStep(ds, i);
        quit := HearOne(ds[i]);
        i := i + 1;
      }
      FramesAhead(sock.stream, sock.pos, ds, i);
      ReadStep(ds, i);
      StateListens();
      if !listening {
        HearNothing(start, ds, i, ReadFrom(ds, 0));
      }
    }

    lemma StateListens()
      ensures State().box.alive == listening
    {
    }
  }

  lemma BeginListening(s: Bytes, h: Hearing, ds: seq<Sendable>)
    requires s == DownFrom(ds, 0)
    ensures |DownFrom(ds, 0)| == |s| && At(s, 0, DownFrom(ds, 0)) && HearAll(h, ds, 0) == h
  {
    hide DownFrom;
  }

  /** The next frame, if there is one, and the frames behind it. */
  lemma FramesAhead(s: Bytes, p: nat, ds: seq<Sendable>, i: nat)
    requires i <= |ds| && p + |DownFrom(ds, i)| == |s| && At(s, p, DownFrom(ds, i))
    ensures i == |ds| <==> p == |s|
    ensures i < |ds| ==>
              var q := p + |DownBytes(ds[i])|;
              && At(s, p, DownBytes(ds[i]))
              && p < q && q + |DownFrom(ds, i + 1)| == |s| && At(s, q, DownFrom(ds, i + 1))
  {
    hide DownBytes, At;
    if i < |ds| {
      AtParts(s, p, DownBytes(ds[i]), DownFrom(ds, i + 1));
    }
  }

  lemma ReadStep(ds: seq<Down>, i: nat)
    requires i <= |ds|
    ensures i == |ds| ==> ReadFrom(ds, i) == i
    ensures i < |ds| ==> ReadFrom(ds, i) == if IsGoodbye(ds[i]) then i + 1 else ReadFrom(ds, i + 1)
  {
    hide IsGoodbye;
  }

  lemma HearStep(h: Hearing, ds: seq<Down>, i: nat)
    requires i < |ds|
    ensures HearAll(h, ds, i + 1) == Hear(HearAll(h, ds, i), ds[i])
  {
    hide Hear;
  }

  /** The frames after the end of the listener change nothing. */
  lemma {:induction false} HearNothing(h: Hearing, ds: seq<Down>, i: nat, n: nat)
    requires i <= n <= |ds| && !HearAll(h, ds, i).box.alive
    ensures HearAll(h, ds, n) == HearAll(h, ds, i)
    decreases n
  {
    if i < n {
      HearNothing(h, ds, i, n - 1);
    }
  }

  lemma FirstByte(s: Bytes, p: nat, d: Sendable)
    requires At(s, p, DownBytes(d))
    ensures p < |s| && s[p] == DownBytes(d)[0]
    ensures s[p] == MSG_RECV <==> d.Msg?
  {
    assert DownBytes(d)[0] == s[p + 0];
  }

  lemma SizeOfSlice(s: Bytes, from: nat, upto: nat, i: nat)
    requires i + 2 <= upto - from && upto <= |s|
    ensures Be16(s[from..upto], i) == Be16(s, from + i)
  {
  }

  lemma OpcodeOf(d: Sendable)
    requires !d.Msg?
    ensures DownBytes(d)[0] == if d.EchoReply? then ECHO else if d.LoginReply? then LOGIN else d.op
    ensures d.Reply? ==> d.op != ECHO && d.op != LOGIN
  {
  }

  lemma MsgFields(s: Bytes, p: nat, d: Sendable)
    requires d.Msg? && At(s, p, DownBytes(d))
    ensures |DownBytes(d)| == 5 + |d.payload| && p + 5 + |d.payload| <= |s|
    ensures s[p + 1] == d.ret && s[p + 2] == d.flag && Be16(s, p + 3) == |d.payload|
    ensures s[p + 5..p + 5 + |d.payload|] == d.payload
  {
    var tail := U16(|d.payload|) + d.payload;
    HeadFrame(s, p, MSG_RECV, d.ret, [d.flag] + tail);
    AtParts(s, p + 2, [d.flag], tail);
    AtParts(s, p + 3, U16(|d.payload|), d.payload);
    AtByte(s, p + 2, d.flag);
    AtU16(s, p + 3, |d.payload|);
    AtSlice(s, p + 5, d.payload);
  }

  lemma ReplyFields(s: Bytes, p: nat, d: Sendable)
    requires !d.Msg? && At(s, p, DownBytes(d))
    ensures p + |DownBytes(d)| <= |s| && |DownBytes(d)| >= 2 && s[p + 1] == d.ret
    ensures d.EchoReply? ==> |DownBytes(d)| == 4 + |d.payload| && Be16(s, p + 2) == |d.payload|
                             && s[p + 4..p + 4 + |d.payload|] == d.payload
    ensures d.LoginReply? ==> |DownBytes(d)| == 6 && Be32(s, p + 2) == d.sid
    ensures d.Reply? ==> |DownBytes(d)| == 2
  {
    match d {
      case Reply(op, ret) =>
        AtParts(s, p, [op], [ret]);
        AtByte(s, p + 1, ret);
      case EchoReply(ret, payload) =>
        HeadFrame(s, p, ECHO, ret, EchoTail(payload));
        AtParts(s, p + 2, U16(|payload|), payload);
        AtU16(s, p + 2, |payload|);
        AtSlice(s, p + 4, payload);
      case LoginReply(ret, sid) =>
        HeadFrame(s, p, LOGIN, ret, U32(sid));
        AtU32(s, p + 2, sid);
    }
  }
}
