/** The answers of the server byte by byte: for every request that a client can pack, and for opcodes that
    no client sends. */
module ChatReplies {
  import opened ByteStrings
  import opened Wire
  import opened SocketIO
  import opened ChatFraming
  import opened ChatClient

  /** What RunOnce sends back for the request at p. */
  ghost function ReplyTo(s: Bytes, p: nat, verdict: Verdict): Bytes
    requires FrameEnd(s, p).Some? && verdict.newId < 0x1_0000_0000
  {
    EchoIsShort(s, p, verdict);
    var all := Parsed(s, p);
    [if all.Unknown? then DEFAULT else s[p]]
    + ([ReplyCode(all, verdict, RelayFine(s, p))] + ReplyTail(s[p], all, verdict))
  }

  /** The request has come to the front of the stream. */
  ghost predicate Comes(s: Bytes, p: nat, r: Packed) { At(s, p, Encode(r)) }

  lemma ReadBack(s: Bytes, p: nat, r: Packed)
    requires Comes(s, p, r)
    ensures p < |s| && FrameEnd(s, p) == Some(p + |Encode(r)|) && Parsed(s, p) == View(r) && s[p] == Encode(r)[0]
  {
    FrameOfEncode(s, p, r);
    assert s[p + 0] == Encode(r)[0];
    hide Encode, View, FrameEnd, Parsed;
  }

  /** How long a request is: more than MAX_PACKET is too long. */
  lemma Lengths(r: Packed)
    ensures r.Text? ==> |Encode(r)| == 8 + |r.text| && Encode(r)[0] == r.op
    ensures r.Ask? ==> |Encode(r)| == 8 + |r.user| && Encode(r)[0] == 0x0a
    ensures r.Answer? ==> |Encode(r)| == 9 + |r.user| && Encode(r)[0] == 0x0b
    ensures r.Login? ==> |Encode(r)| == 6 + |r.user| + |r.password| && Encode(r)[0] == 0x04
    ensures r.Quit? ==> Encode(r)[0] == 0x03
    ensures r.Bare? ==> Encode(r)[0] == r.op && (r.op == 0x01 || r.op == 0x05)
    ensures r.Listing? ==> |Encode(r)| == 6 && Encode(r)[0] == 0x09
    ensures r.Put? ==> Encode(r)[0] == 0x0c
  {
  }

  /** A text, a request to a user or an answer to one that does not fit a packet is answered OVERFLOW,
      whoever sends it. */
  lemma TooLongIsOverflow(s: Bytes, p: nat, r: Packed, verdict: Verdict)
    requires Comes(s, p, r) && verdict.newId < 0x1_0000_0000
    requires (r.Text? && r.op != 0x02) || r.Ask? || r.Answer?
    requires |Encode(r)| > 4096
    ensures FrameEnd(s, p).Some? && ReplyTo(s, p, verdict) == [Encode(r)[0], 0x03]
  {
    ReadBack(s, p, r);
    Lengths(r);
    hide Comes, Encode, FrameEnd, Parsed, RelayFine;
  }

  /** Otherwise the session is checked first, and what the handler decides is the answer. */
  lemma FittingIsDecided(s: Bytes, p: nat, r: Packed, verdict: Verdict)
    requires Comes(s, p, r) && verdict.newId < 0x1_0000_0000
    requires (r.Text? && r.op != 0x02) || r.Ask? || r.Answer? || r.Listing?
    requires |Encode(r)| <= 4096
    ensures FrameEnd(s, p).Some?
    ensures ReplyTo(s, p, verdict) == [Encode(r)[0], if verdict.sessionOk then verdict.ret else 0x02]
  {
    ReadBack(s, p, r);
    Lengths(r);
    hide Comes, Encode, FrameEnd, Parsed, RelayFine;
  }

  lemma EchoParts(r: Packed, verdict: Verdict, relayed: bool)
    requires verdict.newId < 0x1_0000_0000 && r.Text? && r.op == 0x02
    ensures Short(Echoed(View(r), verdict))
    ensures ReplyCode(View(r), verdict, relayed) ==
            if !verdict.sessionOk then 0x02 else if 8 + |r.text| > 4096 then 0x03 else 0x01
    ensures ReplyTail(0x02, View(r), verdict) ==
            if !verdict.sessionOk || 8 + |r.text| > 4096 then U16(0) else U16(|r.text|) + r.text
  {
    assert U16(0) + [] == U16(0);
    hide U16;
  }

  /** An echo goes back whole, with its size, to whoever is logged in; a bad session comes before an echo that
      is too long, and in both cases the size is 0. */
  lemma EchoAnswer(s: Bytes, p: nat, r: Packed, verdict: Verdict)
    requires Comes(s, p, r) && verdict.newId < 0x1_0000_0000 && r.Text? && r.op == 0x02
    ensures FrameEnd(s, p).Some?
    ensures ReplyTo(s, p, verdict) ==
            if !verdict.sessionOk then [0x02, 0x02] + U16(0)
            else if |Encode(r)| > 4096 then [0x02, 0x03] + U16(0)
            else [0x02, 0x01] + (U16(|r.text|) + r.text)
  {
    ReadBack(s, p, r);
    Lengths(r);
    EchoParts(r, verdict, RelayFine(s, p));
    TwoBytes(0x02, ReplyCode(View(r), verdict, RelayFine(s, p)), ReplyTail(0x02, View(r), verdict));
    hide Comes, Encode, FrameEnd, Parsed, RelayFine, U16, ReplyTail, ReplyCode, View, Echoed;
    NotUnknown(r);
  }

  lemma NotUnknown(r: Packed)
    ensures !View(r).Unknown?
  {
  }

  lemma TwoBytes(op: Byte, code: Byte, tail: Bytes)
    ensures [op] + ([code] + tail) == [op, code] + tail
  {
  }

  /** Quit always succeeds; ping and logout are answered by the session check. */
  lemma BareAnswer(s: Bytes, p: nat, r: Packed, verdict: Verdict)
    requires Comes(s, p, r) && verdict.newId < 0x1_0000_0000 && (r.Quit? || r.Bare?)
    ensures FrameEnd(s, p).Some?
    ensures r.Quit? ==> ReplyTo(s, p, verdict) == [0x03, 0x01]
    ensures r.Bare? ==> ReplyTo(s, p, verdict) == [r.op, if verdict.sessionOk then 0x01 else 0x02]
  {
    ReadBack(s, p, r);
    Lengths(r);
    hide Comes, Encode, FrameEnd, Parsed, RelayFine;
  }

  /** A login is answered with the code and the id that user_login gives, or OVERFLOW and id 0. */
  lemma LoginAnswer(s: Bytes, p: nat, r: Packed, verdict: Verdict)
    requires Comes(s, p, r) && verdict.newId < 0x1_0000_0000 && r.Login?
    ensures FrameEnd(s, p).Some?
    ensures ReplyTo(s, p, verdict) ==
            if |Encode(r)| > 4096 then [0x04, 0x03] + U32(0) else [0x04, verdict.ret] + U32(verdict.newId)
  {
    ReadBack(s, p, r);
    Lengths(r);
    TwoBytes(0x04, ReplyCode(View(r), verdict, false), ReplyTail(0x04, View(r), verdict));
    hide Comes, Encode, FrameEnd, Parsed, RelayFine, U32;
  }

  lemma PutView(r: Packed)
    requires r.Put?
    ensures View(r) == TooLong(0x0c, r.sid) || View(r).GotFile?
    ensures View(r).GotFile? <==> 12 + |r.user| + |r.filename| + Min(|r.content|, 512) <= 4096
  {
    FirstChunkSize(r.content);
    hide Chunks, Flags;
  }

  /** A file is answered OVERFLOW when its first packet is too long, then by the session check, then by the
      checks of opcode_file_send; one that do_put packs and that may be relayed is relayed. */
  lemma PutAnswer(s: Bytes, p: nat, r: Packed, verdict: Verdict)
    requires Comes(s, p, r) && verdict.newId < 0x1_0000_0000 && r.Put?
    ensures FrameEnd(s, p).Some?
    ensures ReplyTo(s, p, verdict) ==
            [0x0c, if 12 + |r.user| + |r.filename| + Min(|r.content|, 512) > 4096 then 0x03
                   else if !verdict.sessionOk then 0x02
                   else if !verdict.mayRelay then verdict.ret
                   else 0x01]
  {
    hide Encode, FrameEnd, Parsed, View, RelayFine, Relay, IsTransfer, Completed, NameOf, ContentOf;
    ReadBack(s, p, r);
    Lengths(r);
    PutView(r);
    if View(r).GotFile? {
      PutIsTransfer(s, p, r);
    }
    hide Comes;
  }

  /** Every other opcode: only its own byte is taken, and the answer is that of opcode_default. */
  lemma UnknownAnswer(s: Bytes, p: nat, verdict: Verdict)
    requires p < |s| && verdict.newId < 0x1_0000_0000 && (s[p] == 0x00 || s[p] == 0x07 || s[p] > 0x0f)
    ensures FrameEnd(s, p) == Some(p + 1) && ReplyTo(s, p, verdict) == [0x00, 0x01]
  {
    hide RelayFine;
  }

  // ---------------------------------------------------------------- through the handlers

  /** The answer to a packed request, from what the client asks and what the server decides. */
  function Expected(r: Packed, verdict: Verdict): Bytes
    requires verdict.newId < 0x1_0000_0000
  {
    var n := |Encode(r)|;
    match r
    case Quit => [0x03, 0x01]
    case Bare(op, _) => [op, if verdict.sessionOk then 0x01 else 0x02]
    case Text(op, _, text) =>
      if op != 0x02 then [op, if n > 4096 then 0x03 else if verdict.sessionOk then verdict.ret else 0x02]
      else if !verdict.sessionOk then [0x02, 0x02] + U16(0)
      else if n > 4096 then [0x02, 0x03] + U16(0) else [0x02, 0x01] + (U16(|text|) + text)
    case Listing(_, _) => [0x09, if verdict.sessionOk then verdict.ret else 0x02]
    case Ask(_, _, _) => [0x0a, if n > 4096 then 0x03 else if verdict.sessionOk then verdict.ret else 0x02]
    case Answer(_, _, _, _) => [0x0b, if n > 4096 then 0x03 else if verdict.sessionOk then verdict.ret else 0x02]
    case Login(_, _) => if n > 4096 then [0x04, 0x03] + U32(0) else [0x04, verdict.ret] + U32(verdict.newId)
    case Put(_, user, filename, content) =>
      [0x0c, if 12 + |user| + |filename| + Min(|content|, 512) > 4096 then 0x03
             else if !verdict.sessionOk then 0x02 else if !verdict.mayRelay then verdict.ret else 0x01]
  }

  lemma ReplyIsExpected(s: Bytes, p: nat, r: Packed, verdict: Verdict)
    requires Comes(s, p, r) && verdict.newId < 0x1_0000_0000
    ensures FrameEnd(s, p).Some? && ReplyTo(s, p, verdict) == Expected(r, verdict)
  {
    Lengths(r);
    hide Comes, Encode, FrameEnd, ReplyTo, U16, U32;
    if r.Quit? || r.Bare? {
      BareAnswer(s, p, r, verdict);
    } else if r.Login? {
      LoginAnswer(s, p, r, verdict);
    } else if r.Put? {
      PutAnswer(s, p, r, verdict);
    } else if r.Text? && r.op == 0x02 {
      EchoAnswer(s, p, r, verdict);
    } else if |Encode(r)| > 4096 && !r.Listing? {
      TooLongIsOverflow(s, p, r, verdict);
    } else {
      FittingIsDecided(s, p, r, verdict);
    }
  }

  /** chat_client_run on a packed request, in whatever pieces it comes: the request and nothing behind it is
      taken off the socket, and the answer is the expected one. */
  method AnswerRequest(sock: Socket, verdict: Verdict, ghost r: Packed) returns (reply: Bytes)
    requires sock.healthy && Comes(sock.stream, sock.pos, r) && verdict.newId < 0x1_0000_0000
    modifies sock`pos, sock`interrupts
    ensures sock.pos == old(sock.pos) + |Encode(r)| && reply == Expected(r, verdict)
  {
    hide *;
    ReadBack(sock.stream, sock.pos, r);
    ReplyIsExpected(sock.stream, sock.pos, r, verdict);
    RunOnceReplies(sock.stream, sock.pos, verdict);
    var got, sent;
    got, sent, reply := RunOnce(sock, verdict);
  }

  lemma RunOnceReplies(s: Bytes, p: nat, verdict: Verdict)
    requires p < |s| && FrameEnd(s, p).Some? && verdict.newId < 0x1_0000_0000
    ensures Short(Echoed(Parsed(s, p), verdict))
    ensures ReplyTo(s, p, verdict)
            == [if Parsed(s, p).Unknown? then DEFAULT else s[p]]
               + ([ReplyCode(Parsed(s, p), verdict, RelayFine(s, p))] + ReplyTail(s[p], Parsed(s, p), verdict))
  {
    EchoIsShort(s, p, verdict);
    hide ReplyCode, ReplyTail, RelayFine, Parsed, Echoed, FrameEnd;
  }
}
