/** The handlers' side of the request format: what each takes off the stream, whatever it answers. */
module ChatFraming {
  import opened ByteStrings
  import opened Wire
  import opened SocketIO

  /** What the server state decides about a request: the session check, the checks that follow it in
      opcode_file_send, and the return code of the answer. */
  datatype Verdict = Verdict(sessionOk: bool, mayRelay: bool, ret: Byte, newId: nat)

  const SUCCESS: Byte := 0x01
  const SESSION_ERROR: Byte := 0x02
  const OVERFLOW: Byte := 0x03
  const FAILURE: Byte := 0xff

  /** The opcode of a request that is not cut off has just been received. */
  ghost predicate OpcodeTaken(sock: Socket)
    reads sock
  {
    sock.healthy && 1 <= sock.pos <= |sock.stream| && FrameEnd(sock.stream, sock.pos - 1).Some?
  }

  // ---------------------------------------------------------------- what a relay sends on

  /** The payloads made of the chunks at p, up to one that is too long. */
  ghost function RelayRest(s: Bytes, p: nat): seq<Payload>
    decreases |s| - p
  {
    if p + 3 > |s| then [] else
    var q := p + 3 + Be16(s, p + 1);
    if q > |s| || q - p - 3 > FILE_CHUNK then []
    else [[s[p]] + s[p + 3..q]] + if IsLast(s[p]) then [] else RelayRest(s, q)
  }

  /** The chunks at p go on to the last, and none is too long to be relayed. */
  ghost predicate RelayWhole(s: Bytes, p: nat)
    decreases |s| - p
  {
    p + 3 <= |s| && Be16(s, p + 1) <= FILE_CHUNK && (IsLast(s[p]) || RelayWhole(s, p + 3 + Be16(s, p + 1)))
  }

  function FirstPayload(flags: Byte, filename: Bytes, first: Bytes): Payload
    requires Short(filename)
  {
    [flags] + U16(|filename|) + filename + first
  }

  /** The payloads of a relayed file whose first packet is at p. */
  ghost function Relay(s: Bytes, p: nat): seq<Payload>
    requires FrameEnd(s, p).Some? && s[p] == FILE_SEND && Parsed(s, p).GotFile?
  {
    var got := Parsed(s, p);
    var q := FileBody(s, p);
    [FirstPayload(got.flags, got.filename, got.first)] + if IsLast(got.flags) then [] else RelayRest(s, q)
  }

  /** Where the first packet of a file ends. */
  ghost function FileBody(s: Bytes, p: nat): (q: nat)
    requires p + 12 <= |s|
  {
    p + 12 + Be16(s, p + 2) + Be16(s, p + 4) + Be16(s, p + 6)
  }

  /** The file at p is relayed to its last chunk. */
  ghost predicate RelayFine(s: Bytes, p: nat)
    requires FrameEnd(s, p).Some?
  {
    s[p] == FILE_SEND && (IsLast(s[p + 1]) || RelayWhole(s, FileBody(s, p)))
  }

  /** The return code, given whether a relay went through. */
  function ReplyCode(all: Received, verdict: Verdict, relayed: bool): Byte {
    match all
    case Unknown => SUCCESS
    case TooLong(op, _) => if op == ECHO && !verdict.sessionOk then SESSION_ERROR else OVERFLOW
    case GotFile(_, _, _, _, _) =>
      if !verdict.sessionOk then SESSION_ERROR
      else if !verdict.mayRelay then verdict.ret
      else if relayed then SUCCESS else FAILURE
    case Got(r) =>
      if r.Quit? then SUCCESS
      else if r.Login? then verdict.ret
      else if !verdict.sessionOk then SESSION_ERROR
      else if r.Bare? || (r.Text? && r.op == ECHO) then SUCCESS
      else verdict.ret
  }

  // ---------------------------------------------------------------- file chunks

  /** drain_file_chunks. */
  method DrainFileChunks(sock: Socket)
    requires sock.healthy && sock.pos <= |sock.stream| && ChunksEnd(sock.stream, sock.pos).Some?
    modifies sock`pos, sock`interrupts
    ensures sock.pos == ChunksEnd(sock.stream, old(sock.pos)).value
  {
    var last := false;
    while !last
      invariant sock.pos <= |sock.stream|
      invariant !last ==> ChunksEnd(sock.stream, sock.pos) == old(ChunksEnd(sock.stream, sock.pos))
      invariant last ==> sock.pos == ChunksEnd(sock.stream, old(sock.pos)).value
      decreases !last, |sock.stream| - sock.pos
    {
      ghost var p := sock.pos;
      var ok, hdr := sock.RecvAll(3);
      ok := sock.Drain(Be16(hdr, 1), DRAIN_CHUNK);
      last := IsLast(hdr[0]);
    }
  }

  /** One turn of the loop of file_relay: the chunk is sent on, or thrown away once something failed. */
  method RelayChunk(sock: Socket, healthy: bool) returns (sent: seq<Payload>, ok: bool, last: bool)
    requires sock.healthy && sock.pos <= |sock.stream| && ChunksEnd(sock.stream, sock.pos).Some?
    modifies sock`pos, sock`interrupts
    ensures var s, p := sock.stream, old(sock.pos);
            var n := Be16(s, p + 1);
            && sock.pos == p + 3 + n <= |s|
            && last == IsLast(s[p])
            && ok == (healthy && n <= FILE_CHUNK)
            && sent == if ok then [[s[p]] + s[p + 3..p + 3 + n]] else []
  {
    sent, ok := [], healthy;
    var received, hdr := sock.RecvAll(3);
    var size := Be16(hdr, 1);
    if !healthy {
      received := sock.Drain(size, DRAIN_CHUNK);
    } else if size > FILE_CHUNK {
      received := sock.Drain(size, DRAIN_CHUNK);
      ok := false;
    } else {
      var data;
      received, data := sock.RecvAll(size);
      sent := [[hdr[0]] + data];
    }
    last := IsLast(hdr[0]);
  }

  /** The loop of file_relay over the chunks after the first. */
  method RelayChunks(sock: Socket) returns (sent: seq<Payload>, ok: bool)
    requires sock.healthy && sock.pos <= |sock.stream| && ChunksEnd(sock.stream, sock.pos).Some?
    modifies sock`pos, sock`interrupts
    ensures sock.pos == ChunksEnd(sock.stream, old(sock.pos)).value
    ensures sent == RelayRest(sock.stream, old(sock.pos))
    ensures ok <==> RelayWhole(sock.stream, old(sock.pos))
  {
    hide ChunksEnd, RelayRest, RelayWhole;
    sent, ok := [], true;
    var last := false;
    ghost var s := sock.stream;
    ghost var end, all, whole := ChunksEnd(s, sock.pos), RelayRest(s, sock.pos), RelayWhole(s, sock.pos);
    while !last
      invariant Midway(s, sock.pos, sent, ok, last, end, all, whole)
      decreases !last, |s| - sock.pos
    {
      ghost var p, before, healthy := sock.pos, sent, ok;
      var more;
      more, ok, last := RelayChunk(sock, ok);
      sent := sent + more;
      MidwayStep(s, p, before, healthy, end, all, whole, more);
    }
  }

  /** Between two chunks: what is still to come of the end, the payloads and the success of a relay. */
  ghost predicate Midway(s: Bytes, p: nat, sent: seq<Payload>, ok: bool, last: bool, end: Option<nat>,
                         all: seq<Payload>, whole: bool)
  {
    && p <= |s| && end.Some?
    && end == (if last then Some(p) else ChunksEnd(s, p))
    && all == sent + (if last || !ok then [] else RelayRest(s, p))
    && whole == (ok && (last || RelayWhole(s, p)))
  }

  lemma MidwayStep(s: Bytes, p: nat, sent: seq<Payload>, ok: bool, end: Option<nat>, all: seq<Payload>,
                   whole: bool, more: seq<Payload>)
    requires Midway(s, p, sent, ok, false, end, all, whole) && p + 3 <= |s|
    requires var n := Be16(s, p + 1);
             p + 3 + n <= |s| && more == if ok && n <= FILE_CHUNK then [[s[p]] + s[p + 3..p + 3 + n]] else []
    ensures var n := Be16(s, p + 1);
            Midway(s, p + 3 + n, sent + more, ok && n <= FILE_CHUNK, IsLast(s[p]), end, all, whole)
  {
    if ok && Be16(s, p + 1) <= FILE_CHUNK {
      var rest := if IsLast(s[p]) then [] else RelayRest(s, p + 3 + Be16(s, p + 1));
      RelayUnfold(s, p, more, rest);
      Regroup(sent, more, rest);
    }
  }

  lemma RelayUnfold(s: Bytes, p: nat, more: seq<Payload>, rest: seq<Payload>)
    requires ChunksEnd(s, p).Some? && Be16(s, p + 1) <= FILE_CHUNK
    requires more == [[s[p]] + s[p + 3..p + 3 + Be16(s, p + 1)]]
    requires rest == if IsLast(s[p]) then [] else RelayRest(s, p + 3 + Be16(s, p + 1))
    ensures RelayRest(s, p) == more + rest
  {
  }

  lemma Regroup<T>(a: seq<T>, b: seq<T>, c: seq<T>)
    ensures a + (b + c) == (a + b) + c
  {
  }

  /** file_relay: the first payload, then the chunks that follow it. */
  method FileRelay(sock: Socket, flags: Byte, filename: Bytes, first: Bytes) returns (sent: seq<Payload>, ok: bool)
    requires sock.healthy && Short(filename) && sock.pos <= |sock.stream|
    requires !IsLast(flags) ==> ChunksEnd(sock.stream, sock.pos).Some?
    modifies sock`pos, sock`interrupts
    ensures sock.pos == if IsLast(flags) then old(sock.pos) else ChunksEnd(sock.stream, old(sock.pos)).value
    ensures sent == [FirstPayload(flags, filename, first)]
                    + if IsLast(flags) then [] else RelayRest(sock.stream, old(sock.pos))
    ensures ok <==> IsLast(flags) || RelayWhole(sock.stream, old(sock.pos))
  {
    sent, ok := [FirstPayload(flags, filename, first)], true;
    if !IsLast(flags) {
      var rest;
      rest, ok := RelayChunks(sock);
      sent := sent + rest;
    }
  }

  /** The header of opcode_file_send. */
  method RecvFileHead(sock: Socket) returns (flags: Byte, u: nat, f: nat, d: nat, sid: nat)
    requires sock.healthy && 1 <= sock.pos && sock.pos + 11 <= |sock.stream|
    modifies sock`pos, sock`interrupts
    ensures var s, p := sock.stream, old(sock.pos) - 1;
            && sock.pos == p + 12
            && flags == s[p + 1] && u == Be16(s, p + 2) && f == Be16(s, p + 4) && d == Be16(s, p + 6)
            && sid == Be32(s, p + 8)
  {
    var ok, hdr := sock.RecvAll(11);
    flags, u, f, d, sid := hdr[0], Be16(hdr, 1), Be16(hdr, 3), Be16(hdr, 5), Be32(hdr, 7);
  }

  /** A file request ends with its first packet or with its last chunk. */
  lemma FileFrameEnd(s: Bytes, p: nat)
    requires FrameEnd(s, p).Some? && s[p] == FILE_SEND
    ensures p + 12 <= FileBody(s, p) <= |s|
    ensures FrameEnd(s, p) == if IsLast(s[p + 1]) then Some(FileBody(s, p)) else ChunksEnd(s, FileBody(s, p))
  {
  }

  /** The names and the first chunk of opcode_file_send, unless they are too long; then they are drained. */
  method RecvFileBody(sock: Socket, ghost p: nat, flags: Byte, u: nat, f: nat, d: nat, sid: nat) returns (got: Received)
    requires sock.healthy && FrameEnd(sock.stream, p).Some? && sock.stream[p] == FILE_SEND && sock.pos == p + 12
    requires var s := sock.stream;
             && flags == s[p + 1] && u == Be16(s, p + 2) && f == Be16(s, p + 4) && d == Be16(s, p + 6)
             && sid == Be32(s, p + 8)
    modifies sock`pos, sock`interrupts
    ensures sock.pos == FileBody(sock.stream, p) && got == Parsed(sock.stream, p)
  {
    var ok;
    if d > FILE_CHUNK || 12 + u + f + d > MAX_PACKET {
      ok := sock.Drain(u + f + d, DRAIN_CHUNK);
      return TooLong(FILE_SEND, sid);
    }
    var user, filename, first;
    ok, user := sock.RecvAll(u);
    ok, filename := sock.RecvAll(f);
    ok, first := sock.RecvAll(d);
    got := GotFile(flags, sid, user, filename, first);
  }

  /** opcode_file_send. */
  method OpFileSend(sock: Socket, verdict: Verdict) returns (got: Received, sent: seq<Payload>, ret: Byte)
    requires OpcodeTaken(sock) && sock.stream[sock.pos - 1] == FILE_SEND
    modifies sock`pos, sock`interrupts
    ensures sock.pos == FrameEnd(sock.stream, old(sock.pos) - 1).value
    ensures got == Parsed(sock.stream, old(sock.pos) - 1)
    ensures sent == if got.GotFile? && verdict.sessionOk && verdict.mayRelay
                    then Relay(sock.stream, old(sock.pos) - 1) else []
    ensures ret == ReplyCode(got, verdict, RelayFine(sock.stream, old(sock.pos) - 1))
  {
    ghost var p := sock.pos - 1;
    FileFrameEnd(sock.stream, p);
    var flags, u, f, d, sid := RecvFileHead(sock);
    got := RecvFileBody(sock, p, flags, u, f, d, sid);
    sent := [];
    if got.GotFile? && verdict.sessionOk && verdict.mayRelay {
      var ok;
      sent, ok := FileRelay(sock, flags, got.filename, got.first);
      ret := if ok then SUCCESS else FAILURE;
    } else {
      ret := if got.TooLong? then OVERFLOW else if verdict.sessionOk then verdict.ret else SESSION_ERROR;
      if !IsLast(flags) {
        DrainFileChunks(sock);
      }
    }
  }

  // ---------------------------------------------------------------- the other handlers

  /** What opcode_ping, opcode_logout and opcode_list receive. */
  method RecvBare(sock: Socket, op: Byte) returns (got: Received)
    requires OpcodeTaken(sock) && sock.stream[sock.pos - 1] == op && (IsBare(op) || op == LIST)
    modifies sock`pos, sock`interrupts
    ensures sock.pos == FrameEnd(sock.stream, old(sock.pos) - 1).value
    ensures got == Parsed(sock.stream, old(sock.pos) - 1)
  {
    var ok, hdr := sock.RecvAll(5);
    got := if op == LIST then Got(Listing(hdr[0], Be32(hdr, 1))) else Got(Bare(op, Be32(hdr, 1)));
  }

  /** What opcode_quit receives. */
  method RecvQuit(sock: Socket) returns (got: Received)
    requires OpcodeTaken(sock) && sock.stream[sock.pos - 1] == QUIT
    modifies sock`pos, sock`interrupts
    ensures sock.pos == FrameEnd(sock.stream, old(sock.pos) - 1).value
    ensures got == Parsed(sock.stream, old(sock.pos) - 1)
  {
    var ok, hdr := sock.RecvAll(1);
    got := Got(Quit);
  }

  /** What opcode_msg_send, opcode_join, opcode_request and the admin handlers receive: the text, unless
      the packet would be too long. */
  method RecvText(sock: Socket, op: Byte) returns (got: Received)
    requires OpcodeTaken(sock) && sock.stream[sock.pos - 1] == op && ((IsText(op) && op != ECHO) || op == REQUEST)
    modifies sock`pos, sock`interrupts
    ensures sock.pos == FrameEnd(sock.stream, old(sock.pos) - 1).value
    ensures got == Parsed(sock.stream, old(sock.pos) - 1)
  {
    var ok, hdr := sock.RecvAll(7);
    var size, sid := Be16(hdr, 1), Be32(hdr, 3);
    if 8 + size > MAX_PACKET {
      ok := sock.Drain(size, DRAIN_CHUNK);
      return TooLong(op, sid);
    }
    var text;
    ok, text := sock.RecvAll(size);
    got := if op == REQUEST then Got(Ask(hdr[0], sid, text)) else Got(Text(op, sid, text));
  }

  /** opcode_echo: an oversized payload and the payload of a bad session are both drained, and then
      what is left of the size is received. */
  method OpEcho(sock: Socket, verdict: Verdict) returns (got: Received, ret: Byte, echoed: Bytes)
    requires OpcodeTaken(sock) && sock.stream[sock.pos - 1] == ECHO
    modifies sock`pos, sock`interrupts
    ensures sock.pos == FrameEnd(sock.stream, old(sock.pos) - 1).value
    ensures var all := Parsed(sock.stream, old(sock.pos) - 1);
            && (all.TooLong? ==> got == all)
            && (all.Got? ==> got == if verdict.sessionOk then all else Got(all.request.(text := [])))
            && ret == (if !verdict.sessionOk then SESSION_ERROR else if all.TooLong? then OVERFLOW else SUCCESS)
            && echoed == if all.Got? && verdict.sessionOk then all.request.text else []
  {
    ret := SUCCESS;
    var ok, hdr := sock.RecvAll(7);
    var size, sid := Be16(hdr, 1), Be32(hdr, 3);
    var tooLong := 8 + size > MAX_PACKET;
    if tooLong {
      ret := OVERFLOW;
      ok := sock.Drain(size, DRAIN_CHUNK);
      size := 0;
    }
    if !verdict.sessionOk {
      ret := SESSION_ERROR;
      ok := sock.Drain(size, DRAIN_CHUNK);
      size := 0;
    }
    ok, echoed := sock.RecvAll(size);
    got := if tooLong then TooLong(ECHO, sid) else Got(Text(ECHO, sid, echoed));
  }

  /** What opcode_respond receives. */
  method RecvAnswer(sock: Socket) returns (got: Received)
    requires OpcodeTaken(sock) && sock.stream[sock.pos - 1] == RESPOND
    modifies sock`pos, sock`interrupts
    ensures sock.pos == FrameEnd(sock.stream, old(sock.pos) - 1).value
    ensures got == Parsed(sock.stream, old(sock.pos) - 1)
  {
    var ok, hdr := sock.RecvAll(8);
    var size, sid := Be16(hdr, 2), Be32(hdr, 4);
    if 9 + size > MAX_PACKET {
      ok := sock.Drain(size, DRAIN_CHUNK);
      return TooLong(RESPOND, sid);
    }
    var user;
    ok, user := sock.RecvAll(size);
    got := Got(Answer(hdr[0], hdr[1], sid, user));
  }

  /** login_recv_creds. */
  method RecvCreds(sock: Socket) returns (got: Received)
    requires OpcodeTaken(sock) && sock.stream[sock.pos - 1] == LOGIN
    modifies sock`pos, sock`interrupts
    ensures sock.pos == FrameEnd(sock.stream, old(sock.pos) - 1).value
    ensures got == Parsed(sock.stream, old(sock.pos) - 1)
  {
    var ok, hdr := sock.RecvAll(5);
    var u, w := Be16(hdr, 1), Be16(hdr, 3);
    if 6 + u + w > MAX_PACKET {
      ok := sock.Drain(u + w, DRAIN_CHUNK);
      return TooLong(LOGIN, 0);
    }
    var user, password;
    ok, user := sock.RecvAll(u);
    ok, password := sock.RecvAll(w);
    got := Got(Login(user, password));
  }

  // ---------------------------------------------------------------- one request, and any number of them

  /** What is left of a request after the session check of opcode_echo, which comes before the payload. */
  function Kept(all: Received, verdict: Verdict): Received {
    if all.Got? && all.request.Text? && all.request.op == ECHO && !verdict.sessionOk
    then Got(all.request.(text := [])) else all
  }

  function EchoTail(payload: Bytes): Bytes
    requires Short(payload)
  {
    U16(|payload|) + payload
  }

  /** The payload that goes back with an echo. */
  function Echoed(all: Received, verdict: Verdict): Bytes {
    if all.Got? && all.request.Text? && verdict.sessionOk then all.request.text else []
  }

  /** What follows opcode and return code in the answer. */
  function ReplyTail(op: Byte, all: Received, verdict: Verdict): Bytes
    requires verdict.newId < 0x1_0000_0000 && Short(Echoed(all, verdict))
  {
    if op == ECHO then EchoTail(Echoed(all, verdict))
    else if op == LOGIN then U32(if all.Got? then verdict.newId else 0)
    else []
  }

  /** What a file request makes the server send to the target. */
  ghost function Relayed(s: Bytes, p: nat, verdict: Verdict): seq<Payload>
    requires FrameEnd(s, p).Some?
  {
    if Parsed(s, p).GotFile? && verdict.sessionOk && verdict.mayRelay then Relay(s, p) else []
  }

  lemma EchoIsShort(s: Bytes, p: nat, verdict: Verdict)
    requires FrameEnd(s, p).Some?
    ensures Short(Echoed(Parsed(s, p), verdict))
  {
  }

  /** chat_client_run with dispatch_opcode. */
  method RunOnce(sock: Socket, verdict: Verdict) returns (got: Received, sent: seq<Payload>, reply: Bytes)
    requires sock.healthy && sock.pos < |sock.stream| && FrameEnd(sock.stream, sock.pos).Some?
    requires verdict.newId < 0x1_0000_0000
    modifies sock`pos, sock`interrupts
    ensures sock.pos == FrameEnd(sock.stream, old(sock.pos)).value
    ensures got == Kept(Parsed(sock.stream, old(sock.pos)), verdict)
    ensures sent == Relayed(sock.stream, old(sock.pos), verdict)
    ensures var s, p := sock.stream, old(sock.pos);
            var all := Parsed(s, p);
            && Short(Echoed(all, verdict))
            && reply == [if all.Unknown? then DEFAULT else s[p]]
                        + ([ReplyCode(all, verdict, RelayFine(s, p))] + ReplyTail(s[p], all, verdict))
  {
    ghost var all := Parsed(sock.stream, sock.pos);
    ghost var fine := RelayFine(sock.stream, sock.pos);
    EchoIsShort(sock.stream, sock.pos, verdict);
    sent := [];
    var ok, first := sock.RecvAll(1);
    var op := first[0];
    var ret: Byte;
    var tail: Bytes := [];
    if op == ECHO {
      var echoed;
      got, ret, echoed := OpEcho(sock, verdict);
      tail := EchoTail(echoed);
    } else if op == FILE_SEND {
      got, sent, ret := OpFileSend(sock, verdict);
    } else {
      got := RecvOther(sock, op);
      ret := ReplyCode(got, verdict, false);
      if op == LOGIN {
        tail := U32(if got.Got? then verdict.newId else 0);
      }
    }
    assert ret == ReplyCode(all, verdict, fine);
    reply := [if got.Unknown? then DEFAULT else op] + ([ret] + tail);
  }

  /** The rest of the opcode table. */
  method RecvOther(sock: Socket, op: Byte) returns (got: Received)
    requires OpcodeTaken(sock) && sock.stream[sock.pos - 1] == op && op != ECHO && op != FILE_SEND
    modifies sock`pos, sock`interrupts
    ensures sock.pos == FrameEnd(sock.stream, old(sock.pos) - 1).value
    ensures got == Parsed(sock.stream, old(sock.pos) - 1)
  {
    if op == QUIT {
      got := RecvQuit(sock);
    } else if IsBare(op) || op == LIST {
      got := RecvBare(sock, op);
    } else if IsText(op) || op == REQUEST {
      got := RecvText(sock, op);
    } else if op == RESPOND {
      got := RecvAnswer(sock);
    } else if op == LOGIN {
      got := RecvCreds(sock);
    } else {
      got := Unknown;
    }
  }

  /** The stream goes on at p with the requests from number i on. */
  ghost predicate Ahead(s: Bytes, p: nat, rs: seq<Packed>, i: nat)
  {
    p + |EncodeFrom(rs, i)| == |s| && At(s, p, EncodeFrom(rs, i))
  }

  /** The server has seen of r what it is meant to see. */
  ghost predicate SeenAs(got: Received, r: Packed, verdict: Verdict)
  {
    got == Kept(View(r), verdict)
  }

  datatype Side = StreamSide | LogSide

  ghost predicate ServedSide(side: Side, s: Bytes, p: nat, log: seq<Received>, rs: seq<Packed>, verdicts: seq<Verdict>)
    requires |log| <= |rs| == |verdicts|
  {
    match side
    case StreamSide => Ahead(s, p, rs, |log|)
    case LogSide => forall j :: 0 <= j < |log| ==> SeenAs(log[j], rs[j], verdicts[j])
  }

  /** The first requests have been seen as they were meant, and the stream goes on at p with the others. */
  ghost predicate Served(s: Bytes, p: nat, log: seq<Received>, rs: seq<Packed>, verdicts: seq<Verdict>)
    requires |log| <= |rs| == |verdicts|
  {
    forall side: Side :: ServedSide(side, s, p, log, rs, verdicts)
  }

  lemma OpenServed(s: Bytes, p: nat, log: seq<Received>, rs: seq<Packed>, verdicts: seq<Verdict>)
    requires |log| <= |rs| == |verdicts| && Served(s, p, log, rs, verdicts)
    ensures Ahead(s, p, rs, |log|)
    ensures forall j :: 0 <= j < |log| ==> SeenAs(log[j], rs[j], verdicts[j])
  {
    assert ServedSide(StreamSide, s, p, log, rs, verdicts) && ServedSide(LogSide, s, p, log, rs, verdicts);
  }

  lemma CloseServed(s: Bytes, p: nat, log: seq<Received>, rs: seq<Packed>, verdicts: seq<Verdict>)
    requires |log| <= |rs| == |verdicts| && Ahead(s, p, rs, |log|)
    requires forall j :: 0 <= j < |log| ==> SeenAs(log[j], rs[j], verdicts[j])
    ensures Served(s, p, log, rs, verdicts)
  {
  }

  /** Requests one after another: the server takes exactly the bytes of each off the stream, sees what
      each says, and is at the start of the next, whatever it answers. */
  method ServeAll(sock: Socket, ghost rs: seq<Packed>, verdicts: seq<Verdict>) returns (log: seq<Received>)
    requires forall j :: 0 <= j < |verdicts| ==> verdicts[j].newId < 0x1_0000_0000
    requires sock.healthy && |rs| == |verdicts| && sock.pos == 0 && sock.stream == EncodeFrom(rs, 0)
    modifies sock`pos, sock`interrupts
    ensures |log| == |rs| && Served(sock.stream, sock.pos, log, rs, verdicts)
    ensures sock.pos == |sock.stream|
  {
    log := [];
    CloseServed(sock.stream, 0, log, rs, verdicts);
    for i := 0 to |verdicts|
      invariant |log| == i && Served(sock.stream, sock.pos, log, rs, verdicts)
    {
      log := RunNext(sock, rs, log, verdicts);
    }
    OpenServed(sock.stream, sock.pos, log, rs, verdicts);
  }

  /** One turn of ServeAll. */
  method RunNext(sock: Socket, ghost rs: seq<Packed>, log: seq<Received>, verdicts: seq<Verdict>)
    returns (next: seq<Received>)
    requires |log| < |rs| == |verdicts| && verdicts[|log|].newId < 0x1_0000_0000
    requires sock.healthy && Served(sock.stream, sock.pos, log, rs, verdicts)
    modifies sock`pos, sock`interrupts
    ensures |next| == |log| + 1 && Served(sock.stream, sock.pos, next, rs, verdicts)
  {
    ghost var s, p := sock.stream, sock.pos;
    RequestAhead(s, p, log, rs, verdicts);
    var got := Receive(sock, verdicts[|log|]);
    next := log + [got];
    ServedStep(s, p, sock.pos, log, got, rs, verdicts);
  }

  /** RunOnce, as far as the requests are concerned. */
  method Receive(sock: Socket, verdict: Verdict) returns (got: Received)
    requires sock.healthy && sock.pos < |sock.stream| && FrameEnd(sock.stream, sock.pos).Some?
    requires verdict.newId < 0x1_0000_0000
    modifies sock`pos, sock`interrupts
    ensures FrameEnd(sock.stream, old(sock.pos)) == Some(sock.pos)
    ensures got == Kept(Parsed(sock.stream, old(sock.pos)), verdict)
  {
    var sent, reply;
    got, sent, reply := RunOnce(sock, verdict);
  }

  lemma RequestAhead(s: Bytes, p: nat, log: seq<Received>, rs: seq<Packed>, verdicts: seq<Verdict>)
    requires |log| < |rs| == |verdicts| && Served(s, p, log, rs, verdicts)
    ensures p < |s| && FrameEnd(s, p).Some?
  {
    OpenServed(s, p, log, rs, verdicts);
    NextRequest(s, p, rs, |log|);
  }

  lemma ServedStep(s: Bytes, p: nat, q: nat, log: seq<Received>, got: Received, rs: seq<Packed>, verdicts: seq<Verdict>)
    requires |log| < |rs| == |verdicts| && Served(s, p, log, rs, verdicts)
    requires FrameEnd(s, p) == Some(q) && got == Kept(Parsed(s, p), verdicts[|log|])
    ensures Served(s, q, log + [got], rs, verdicts)
  {
    hide *;
    OpenServed(s, p, log, rs, verdicts);
    SeenNext(s, p, q, got, rs, |log|, verdicts[|log|]);
    LogStep(log, got, rs, verdicts);
    CloseServed(s, q, log + [got], rs, verdicts);
  }

  lemma SeenNext(s: Bytes, p: nat, q: nat, got: Received, rs: seq<Packed>, i: nat, verdict: Verdict)
    requires i < |rs| && Ahead(s, p, rs, i)
    requires FrameEnd(s, p) == Some(q) && got == Kept(Parsed(s, p), verdict)
    ensures Ahead(s, q, rs, i + 1) && SeenAs(got, rs[i], verdict)
  {
    NextRequest(s, p, rs, i);
  }

  lemma LogStep(log: seq<Received>, got: Received, rs: seq<Packed>, verdicts: seq<Verdict>)
    requires |log| < |rs| == |verdicts| && SeenAs(got, rs[|log|], verdicts[|log|])
    requires forall j :: 0 <= j < |log| ==> SeenAs(log[j], rs[j], verdicts[j])
    ensures forall j :: 0 <= j < |log + [got]| ==> SeenAs((log + [got])[j], rs[j], verdicts[j])
  {
  }

  /** Reading the next request of a concatenation leaves the concatenation of the others. */
  lemma NextRequest(s: Bytes, p: nat, rs: seq<Packed>, i: nat)
    requires i < |rs| && Ahead(s, p, rs, i)
    ensures p < |s| && FrameEnd(s, p).Some? && Parsed(s, p) == View(rs[i])
    ensures Ahead(s, FrameEnd(s, p).value, rs, i + 1)
  {
    hide Encode, View, FrameEnd, Parsed;
    AtParts(s, p, Encode(rs[i]), EncodeFrom(rs, i + 1));
    FrameOfEncode(s, p, rs[i]);
  }
}
