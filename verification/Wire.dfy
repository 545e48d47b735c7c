/** The request format: how the client's commands are packed, and where a request ends on a stream. */
module Wire {
  import opened ByteStrings

  const MAX_PACKET: nat := 4096
  const DRAIN_CHUNK: nat := 512
  const FILE_CHUNK: nat := 512

  const DEFAULT: Byte := 0x00
  const PING: Byte := 0x01
  const ECHO: Byte := 0x02
  const QUIT: Byte := 0x03
  const LOGIN: Byte := 0x04
  const LOGOUT: Byte := 0x05
  const MSG_SEND: Byte := 0x06
  const MSG_RECV: Byte := 0x07
  const JOIN: Byte := 0x08
  const LIST: Byte := 0x09
  const REQUEST: Byte := 0x0a
  const RESPOND: Byte := 0x0b
  const FILE_SEND: Byte := 0x0c
  const PROMOTE: Byte := 0x0d
  const DISCONNECT: Byte := 0x0e
  const DELETE: Byte := 0x0f

  const FIRST: Byte := 0x01
  const LAST: Byte := 0x02

  // ---------------------------------------------------------------- numbers in network byte order

  function U16(n: nat): (b: Bytes)
    requires n < 0x1_0000
    ensures |b| == 2
  {
    [n / 256, n % 256]
  }

  function U32(n: nat): (b: Bytes)
    requires n < 0x1_0000_0000
    ensures |b| == 4
  {
    U16(n / 0x1_0000) + U16(n % 0x1_0000)
  }

  function Be16(s: Bytes, i: nat): nat
    requires i + 2 <= |s|
  {
    s[i] as int * 256 + s[i + 1] as int
  }

  function Be32(s: Bytes, i: nat): nat
    requires i + 4 <= |s|
  {
    Be16(s, i) * 0x1_0000 + Be16(s, i + 2)
  }

  /** The text t stands on the stream from p on. */
  ghost predicate At(s: Bytes, p: nat, t: Bytes) { p + |t| <= |s| && forall k :: 0 <= k < |t| ==> s[p + k] == t[k] }

  lemma AtSlice(s: Bytes, p: nat, t: Bytes)
    requires At(s, p, t)
    ensures p + |t| <= |s| && s[p..p + |t|] == t
  {
  }

  lemma AtParts(s: Bytes, p: nat, a: Bytes, b: Bytes)
    ensures At(s, p, a + b) <==> At(s, p, a) && At(s, p + |a|, b)
  {
    if At(s, p, a + b) {
      forall k | 0 <= k < |b|
        ensures s[p + |a| + k] == b[k]
      {
        assert s[p + (|a| + k)] == (a + b)[|a| + k];
      }
      assert forall k :: 0 <= k < |a| ==> (a + b)[k] == a[k];
    }
    if At(s, p, a) && At(s, p + |a|, b) {
      forall k | 0 <= k < |a + b|
        ensures s[p + k] == (a + b)[k]
      {
        if k >= |a| {
          assert s[p + |a| + (k - |a|)] == b[k - |a|];
        }
      }
    }
  }

  lemma AtByte(s: Bytes, p: nat, c: Byte)
    requires At(s, p, [c])
    ensures s[p] == c
  {
    assert [c][0] == c;
  }

  lemma AtU16(s: Bytes, p: nat, n: nat)
    requires n < 0x1_0000 && At(s, p, U16(n))
    ensures Be16(s, p) == n
  {
    assert U16(n)[0] == n / 256 && U16(n)[1] == n % 256;
  }

  lemma AtU32(s: Bytes, p: nat, n: nat)
    requires n < 0x1_0000_0000 && At(s, p, U32(n))
    ensures Be32(s, p) == n
  {
    AtParts(s, p, U16(n / 0x1_0000), U16(n % 0x1_0000));
    AtU16(s, p, n / 0x1_0000);
    AtU16(s, p + 2, n % 0x1_0000);
  }

  // ---------------------------------------------------------------- the client's requests

  datatype Request =
    | Quit
    | Bare(op: Byte, sid: nat)
    | Listing(flag: Byte, sid: nat)
    | Text(op: Byte, sid: nat, text: Bytes)
    | Ask(flag: Byte, sid: nat, user: Bytes)
    | Answer(flag: Byte, choice: Byte, sid: nat, user: Bytes)
    | Login(user: Bytes, password: Bytes)
    | Put(sid: nat, user: Bytes, filename: Bytes, content: Bytes)

  predicate IsBare(op: Byte) { op == PING || op == LOGOUT }

  predicate IsText(op: Byte) {
    op == ECHO || op == MSG_SEND || op == JOIN || op == PROMOTE || op == DISCONNECT || op == DELETE
  }

  predicate Short(b: Bytes) { |b| < 0x1_0000 }

  /** What struct.pack accepts: every size fits 16 bits and the session id 32. */
  predicate Packable(r: Request) {
    match r
    case Quit => true
    case Bare(op, sid) => IsBare(op) && sid < 0x1_0000_0000
    case Listing(_, sid) => sid < 0x1_0000_0000
    case Text(op, sid, text) => IsText(op) && sid < 0x1_0000_0000 && Short(text)
    case Ask(_, sid, user) => sid < 0x1_0000_0000 && Short(user)
    case Answer(_, _, sid, user) => sid < 0x1_0000_0000 && Short(user)
    case Login(user, password) => Short(user) && Short(password)
    case Put(sid, user, filename, _) => sid < 0x1_0000_0000 && Short(user) && Short(filename)
  }

  type Packed = r: Request | Packable(r) witness Quit

  /** A piece of a file. */
  type Chunk = c: Bytes | |c| <= FILE_CHUNK

  /** What follows the header of a MSG_RECV packet that carries a piece of a file. */
  type Payload = b: Bytes | b != [] witness [0]

  /** The chunks of do_put: pieces of FILE_CHUNK bytes, and one empty piece for an empty file. */
  function Chunks(content: Bytes): (cs: seq<Chunk>)
    ensures cs != []
    decreases |content|
  {
    if |content| <= FILE_CHUNK then [content] else [content[..FILE_CHUNK]] + Chunks(content[FILE_CHUNK..])
  }

  function Flags(first: bool, last: bool): Byte { (if first then FIRST else 0) + (if last then LAST else 0) }

  predicate IsFirst(flags: Byte) { flags % 2 == 1 }

  predicate IsLast(flags: Byte) { flags / 2 % 2 == 1 }

  /** A chunk after the first: flags, size, data. */
  function ChunkPacket(flags: Byte, chunk: Bytes): (b: Bytes)
    requires Short(chunk)
    ensures |b| == 3 + |chunk|
  {
    [flags] + U16(|chunk|) + chunk
  }

  /** The packets of the chunks from number i on. */
  function ChunkPackets(cs: seq<Chunk>, i: nat): Bytes
    decreases |cs| - i
  {
    if i >= |cs| then [] else ChunkPacket(Flags(false, i + 1 == |cs|), cs[i]) + ChunkPackets(cs, i + 1)
  }

  function FirstPacket(flags: Byte, sid: nat, user: Bytes, filename: Bytes, chunk: Bytes): Bytes
    requires sid < 0x1_0000_0000 && Short(user) && Short(filename) && Short(chunk)
  {
    [FILE_SEND]
    + ([flags] + (U16(|user|) + (U16(|filename|) + (U16(|chunk|) + (U32(sid) + (user + (filename + chunk)))))))
  }

  function Encode(r: Packed): Bytes
  {
    match r
    case Quit => [QUIT] + [0]
    case Bare(op, sid) => [op] + ([0] + U32(sid))
    case Listing(flag, sid) => [LIST] + ([flag] + U32(sid))
    case Text(op, sid, text) => [op] + ([0] + (U16(|text|) + (U32(sid) + text)))
    case Ask(flag, sid, user) => [REQUEST] + ([flag] + (U16(|user|) + (U32(sid) + user)))
    case Answer(flag, choice, sid, user) =>
      [RESPOND] + ([flag] + ([choice] + (U16(|user|) + (U32(sid) + user))))
    case Login(user, password) => [LOGIN] + ([0] + (U16(|user|) + (U16(|password|) + (user + password))))
    case Put(sid, user, filename, content) =>
      var cs := Chunks(content);
      FirstPacket(Flags(true, |cs| == 1), sid, user, filename, cs[0]) + ChunkPackets(cs, 1)
  }

  // ---------------------------------------------------------------- where a request ends

  function Within(s: Bytes, q: nat): Option<nat> { if q <= |s| then Some(q) else None }

  /** The end of the file chunks that start at p: the one flagged LAST is the last. */
  function ChunksEnd(s: Bytes, p: nat): (e: Option<nat>)
    ensures e.Some? ==> p < e.value <= |s|
    decreases |s| - p
  {
    if p + 3 > |s| then None else
    var q := p + 3 + Be16(s, p + 1);
    if q > |s| then None else if IsLast(s[p]) then Some(q) else ChunksEnd(s, q)
  }

  /** The end of the request that starts at p, from the bytes alone; None when the stream is cut. */
  function FrameEnd(s: Bytes, p: nat): (e: Option<nat>)
    ensures e.Some? ==> p < e.value <= |s|
  {
    if p >= |s| then None else
    var op := s[p];
    if op == QUIT then Within(s, p + 2)
    else if IsBare(op) || op == LIST then Within(s, p + 6)
    else if IsText(op) || op == REQUEST then
      if p + 8 > |s| then None else Within(s, p + 8 + Be16(s, p + 2))
    else if op == RESPOND then
      if p + 9 > |s| then None else Within(s, p + 9 + Be16(s, p + 3))
    else if op == LOGIN then
      if p + 6 > |s| then None else Within(s, p + 6 + Be16(s, p + 2) + Be16(s, p + 4))
    else if op == FILE_SEND then
      if p + 12 > |s| then None else
      var q := p + 12 + Be16(s, p + 2) + Be16(s, p + 4) + Be16(s, p + 6);
      if q > |s| then None else if IsLast(s[p + 1]) then Some(q) else ChunksEnd(s, q)
    else Some(p + 1)
  }

  /** What a handler has in its hands once the request is off the stream. Of one that does not fit a packet
      that is the header, with the session id if there is one in it. */
  datatype Received =
    | Unknown
    | TooLong(op: Byte, sid: nat)
    | Got(request: Request)
    | GotFile(flags: Byte, sid: nat, user: Bytes, filename: Bytes, first: Bytes)

  function Parsed(s: Bytes, p: nat): Received
    requires FrameEnd(s, p).Some?
  {
    var op := s[p];
    if op == QUIT then Got(Quit)
    else if IsBare(op) then Got(Bare(op, Be32(s, p + 2)))
    else if op == LIST then Got(Listing(s[p + 1], Be32(s, p + 2)))
    else if IsText(op) || op == REQUEST then
      var n := Be16(s, p + 2);
      if 8 + n > MAX_PACKET then TooLong(op, Be32(s, p + 4))
      else if op == REQUEST then Got(Ask(s[p + 1], Be32(s, p + 4), s[p + 8..p + 8 + n]))
      else Got(Text(op, Be32(s, p + 4), s[p + 8..p + 8 + n]))
    else if op == RESPOND then
      var n := Be16(s, p + 3);
      if 9 + n > MAX_PACKET then TooLong(op, Be32(s, p + 5))
      else Got(Answer(s[p + 1], s[p + 2], Be32(s, p + 5), s[p + 9..p + 9 + n]))
    else if op == LOGIN then
      var u, n := Be16(s, p + 2), Be16(s, p + 4);
      if 6 + u + n > MAX_PACKET then TooLong(op, 0)
      else Got(Login(s[p + 6..p + 6 + u], s[p + 6 + u..p + 6 + u + n]))
    else if op == FILE_SEND then
      var u, f, d := Be16(s, p + 2), Be16(s, p + 4), Be16(s, p + 6);
      if d > FILE_CHUNK || 12 + u + f + d > MAX_PACKET then TooLong(op, Be32(s, p + 8))
      else GotFile(s[p + 1], Be32(s, p + 8), s[p + 12..p + 12 + u], s[p + 12 + u..p + 12 + u + f],
                   s[p + 12 + u + f..p + 12 + u + f + d])
    else Unknown
  }

  /** What the server is meant to see of a request: all of it, unless it does not fit a packet. */
  function View(r: Packed): Received
  {
    match r
    case Quit => Got(r)
    case Bare(_, _) => Got(r)
    case Listing(_, _) => Got(r)
    case Text(op, sid, text) => if 8 + |text| > MAX_PACKET then TooLong(op, sid) else Got(r)
    case Ask(_, sid, user) => if 8 + |user| > MAX_PACKET then TooLong(REQUEST, sid) else Got(r)
    case Answer(_, _, sid, user) => if 9 + |user| > MAX_PACKET then TooLong(RESPOND, sid) else Got(r)
    case Login(user, password) => if 6 + |user| + |password| > MAX_PACKET then TooLong(LOGIN, 0) else Got(r)
    case Put(sid, user, filename, content) =>
      var cs := Chunks(content);
      if 12 + |user| + |filename| + |cs[0]| > MAX_PACKET then TooLong(FILE_SEND, sid)
      else GotFile(Flags(true, |cs| == 1), sid, user, filename, cs[0])
  }

  lemma BareFrame(s: Bytes, p: nat, r: Packed)
    requires At(s, p, Encode(r)) && (r.Quit? || r.Bare? || r.Listing?)
    ensures FrameEnd(s, p) == Some(p + |Encode(r)|) && Parsed(s, p) == View(r)
  {
    match r {
      case Quit =>
        AtParts(s, p, [QUIT], [0]);
        AtByte(s, p, QUIT);
      case Bare(op, sid) =>
        HeadFrame(s, p, op, 0, U32(sid));
        AtU32(s, p + 2, sid);
      case Listing(flag, sid) =>
        HeadFrame(s, p, LIST, flag, U32(sid));
        AtU32(s, p + 2, sid);
    }
  }

  /** The first two bytes of a request, and what follows them. */
  lemma HeadFrame(s: Bytes, p: nat, op: Byte, second: Byte, rest: Bytes)
    requires At(s, p, [op] + ([second] + rest))
    ensures p + 2 + |rest| <= |s| && s[p] == op && s[p + 1] == second && At(s, p + 2, rest)
  {
    AtParts(s, p, [op], [second] + rest);
    AtParts(s, p + 1, [second], rest);
    AtByte(s, p, op);
    AtByte(s, p + 1, second);
  }

  /** A size, a session id and a text of that size. */
  lemma SizedText(s: Bytes, p: nat, sid: nat, text: Bytes)
    requires sid < 0x1_0000_0000 && Short(text) && At(s, p, U16(|text|) + (U32(sid) + text))
    ensures p + 6 + |text| <= |s| && Be16(s, p) == |text| && Be32(s, p + 2) == sid && s[p + 6..p + 6 + |text|] == text
  {

    AtParts(s, p, U16(|text|), U32(sid) + text);
    AtParts(s, p + 2, U32(sid), text);
    AtU16(s, p, |text|);
    AtU32(s, p + 2, sid);
    AtSlice(s, p + 6, text);
  }

  lemma TextFrame(s: Bytes, p: nat, r: Packed)
    requires At(s, p, Encode(r)) && (r.Text? || r.Ask?)
    ensures FrameEnd(s, p) == Some(p + |Encode(r)|) && Parsed(s, p) == View(r)
  {
    match r {
      case Text(op, sid, text) =>
        HeadFrame(s, p, op, 0, U16(|text|) + (U32(sid) + text));
        SizedText(s, p + 2, sid, text);
      case Ask(flag, sid, user) =>
        HeadFrame(s, p, REQUEST, flag, U16(|user|) + (U32(sid) + user));
        SizedText(s, p + 2, sid, user);
    }
  }

  lemma AnswerFrame(s: Bytes, p: nat, r: Packed)
    requires At(s, p, Encode(r)) && r.Answer?
    ensures FrameEnd(s, p) == Some(p + |Encode(r)|) && Parsed(s, p) == View(r)
  {
    var rest := U16(|r.user|) + (U32(r.sid) + r.user);
    HeadFrame(s, p, RESPOND, r.flag, [r.choice] + rest);
    AtParts(s, p + 2, [r.choice], rest);
    AtByte(s, p + 2, r.choice);
    SizedText(s, p + 3, r.sid, r.user);
  }

  lemma LoginFields(s: Bytes, p: nat, user: Bytes, password: Bytes)
    requires Short(user) && Short(password)
    requires At(s, p, [LOGIN] + ([0] + (U16(|user|) + (U16(|password|) + (user + password)))))
    ensures var u, w := |user|, |password|;
            && p + 6 + u + w <= |s| && s[p] == LOGIN && Be16(s, p + 2) == u && Be16(s, p + 4) == w
            && s[p + 6..p + 6 + u] == user && s[p + 6 + u..p + 6 + u + w] == password
  {
    hide At, U16;
    var u, w := |user|, |password|;
    HeadFrame(s, p, LOGIN, 0, U16(u) + (U16(w) + (user + password)));
    AtParts(s, p + 2, U16(u), U16(w) + (user + password));
    AtParts(s, p + 4, U16(w), user + password);
    AtParts(s, p + 6, user, password);
    AtU16(s, p + 2, u);
    AtU16(s, p + 4, w);
    AtSlice(s, p + 6, user);
    AtSlice(s, p + 6 + u, password);
  }

  lemma LoginEnd(s: Bytes, p: nat, u: nat, w: nat)
    requires p + 6 + u + w <= |s| && s[p] == LOGIN && Be16(s, p + 2) == u && Be16(s, p + 4) == w
    ensures FrameEnd(s, p) == Some(p + 6 + u + w)
    ensures Parsed(s, p) == if 6 + u + w > MAX_PACKET then TooLong(LOGIN, 0)
                            else Got(Login(s[p + 6..p + 6 + u], s[p + 6 + u..p + 6 + u + w]))
  {
  }

  lemma LoginFrame(s: Bytes, p: nat, r: Packed)
    requires At(s, p, Encode(r)) && r.Login?
    ensures FrameEnd(s, p) == Some(p + |Encode(r)|) && Parsed(s, p) == View(r)
  {
    hide At, FrameEnd, Parsed, Be16;
    LoginFields(s, p, r.user, r.password);
    LoginEnd(s, p, |r.user|, |r.password|);
  }

  /** The fields of the first packet of a file, as the server finds them. */
  ghost predicate FileHead(s: Bytes, p: nat, flags: Byte, sid: nat, user: Bytes, filename: Bytes, chunk: Bytes) {
    && p + 12 + |user| + |filename| + |chunk| <= |s|
    && s[p] == FILE_SEND && s[p + 1] == flags && Be32(s, p + 8) == sid
    && Be16(s, p + 2) == |user| && Be16(s, p + 4) == |filename| && Be16(s, p + 6) == |chunk|
    && At(s, p + 12, user) && At(s, p + 12 + |user|, filename) && At(s, p + 12 + |user| + |filename|, chunk)
  }

  /** Three sizes and a session id. */
  lemma FileSizes(s: Bytes, p: nat, u: nat, f: nat, d: nat, sid: nat, names: Bytes)
    requires u < 0x1_0000 && f < 0x1_0000 && d < 0x1_0000 && sid < 0x1_0000_0000
    requires At(s, p, U16(u) + (U16(f) + (U16(d) + (U32(sid) + names))))
    ensures p + 10 + |names| <= |s| && Be16(s, p) == u && Be16(s, p + 2) == f && Be16(s, p + 4) == d
    ensures Be32(s, p + 6) == sid && At(s, p + 10, names)
  {
    AtParts(s, p, U16(u), U16(f) + (U16(d) + (U32(sid) + names)));
    AtParts(s, p + 2, U16(f), U16(d) + (U32(sid) + names));
    AtParts(s, p + 4, U16(d), U32(sid) + names);
    AtParts(s, p + 6, U32(sid), names);
    AtU16(s, p, u);
    AtU16(s, p + 2, f);
    AtU16(s, p + 4, d);
    AtU32(s, p + 6, sid);
  }

  lemma FirstPacketFields(s: Bytes, p: nat, flags: Byte, sid: nat, user: Bytes, filename: Bytes, chunk: Bytes)
    requires sid < 0x1_0000_0000 && Short(user) && Short(filename) && Short(chunk)
    requires At(s, p, FirstPacket(flags, sid, user, filename, chunk))
    ensures |FirstPacket(flags, sid, user, filename, chunk)| == 12 + |user| + |filename| + |chunk|
    ensures FileHead(s, p, flags, sid, user, filename, chunk)
  {
    var names := user + (filename + chunk);
    HeadFrame(s, p, FILE_SEND, flags, U16(|user|) + (U16(|filename|) + (U16(|chunk|) + (U32(sid) + names))));
    FileSizes(s, p + 2, |user|, |filename|, |chunk|, sid, names);
    AtParts(s, p + 12, user, filename + chunk);
    AtParts(s, p + 12 + |user|, filename, chunk);
  }

  lemma FlagsRead(first: bool, last: bool)
    ensures IsFirst(Flags(first, last)) == first && IsLast(Flags(first, last)) == last
  {
  }

  /** The flags are the two lowest bits; the others are ignored. */
  lemma FlagBits(first: bool, last: bool, others: nat)
    requires others < 64
    ensures var flags := (if first then 1 else 0) + (if last then 2 else 0) + 4 * others;
            IsFirst(flags) == first && IsLast(flags) == last
  {
  }

  lemma ChunkPacketFields(s: Bytes, p: nat, flags: Byte, chunk: Bytes)
    requires Short(chunk) && At(s, p, ChunkPacket(flags, chunk))
    ensures p + 3 + |chunk| <= |s| && s[p] == flags && Be16(s, p + 1) == |chunk| && At(s, p + 3, chunk)
  {
    AtParts(s, p, [flags] + U16(|chunk|), chunk);
    AtParts(s, p, [flags], U16(|chunk|));
    AtByte(s, p, flags);
    AtU16(s, p + 1, |chunk|);
  }

  /** The packets of the later chunks end exactly where the chunk scan ends. */
  lemma {:induction false} ChunksFrame(s: Bytes, p: nat, cs: seq<Chunk>, i: nat)
    requires i < |cs| && At(s, p, ChunkPackets(cs, i))
    ensures ChunksEnd(s, p) == Some(p + |ChunkPackets(cs, i)|)
    decreases |cs| - i
  {
    var last := i + 1 == |cs|;
    AtParts(s, p, ChunkPacket(Flags(false, last), cs[i]), ChunkPackets(cs, i + 1));
    ChunkPacketFields(s, p, Flags(false, last), cs[i]);
    FlagsRead(false, last);
    if !last {
      ChunksFrame(s, p + 3 + |cs[i]|, cs, i + 1);
    }
  }

  lemma FileParsed(s: Bytes, p: nat, flags: Byte, sid: nat, user: Bytes, filename: Bytes, chunk: Bytes)
    requires FrameEnd(s, p).Some? && FileHead(s, p, flags, sid, user, filename, chunk)
    ensures Parsed(s, p) ==
            if |chunk| > FILE_CHUNK || 12 + |user| + |filename| + |chunk| > MAX_PACKET then TooLong(FILE_SEND, sid)
            else GotFile(flags, sid, user, filename, chunk)
  {
    AtSlice(s, p + 12, user);
    AtSlice(s, p + 12 + |user|, filename);
    AtSlice(s, p + 12 + |user| + |filename|, chunk);
  }

  /** A file ends with its first packet, or where the packets of the other chunks end. */
  lemma FileEnd(s: Bytes, p: nat, sid: nat, user: Bytes, filename: Bytes, cs: seq<Chunk>)
    requires cs != [] && FileHead(s, p, Flags(true, |cs| == 1), sid, user, filename, cs[0])
    requires At(s, p + 12 + |user| + |filename| + |cs[0]|, ChunkPackets(cs, 1))
    ensures FrameEnd(s, p) == Some(p + 12 + |user| + |filename| + |cs[0]| + |ChunkPackets(cs, 1)|)
  {
    FlagsRead(true, |cs| == 1);
    if |cs| > 1 {
      ChunksFrame(s, p + 12 + |user| + |filename| + |cs[0]|, cs, 1);
    }
  }

  lemma PutFrame(s: Bytes, p: nat, r: Packed)
    requires At(s, p, Encode(r)) && r.Put?
    ensures FrameEnd(s, p) == Some(p + |Encode(r)|) && Parsed(s, p) == View(r)
  {
    var cs := Chunks(r.content);
    var flags := Flags(true, |cs| == 1);
    AtParts(s, p, FirstPacket(flags, r.sid, r.user, r.filename, cs[0]), ChunkPackets(cs, 1));
    FirstPacketFields(s, p, flags, r.sid, r.user, r.filename, cs[0]);
    FileEnd(s, p, r.sid, r.user, r.filename, cs);
    FileParsed(s, p, flags, r.sid, r.user, r.filename, cs[0]);
  }

  /** A packed request is read back as it was meant, and it ends where its packing ends. */
  lemma FrameOfEncode(s: Bytes, p: nat, r: Packed)
    requires At(s, p, Encode(r))
    ensures FrameEnd(s, p) == Some(p + |Encode(r)|) && Parsed(s, p) == View(r)
  {
    match r {
      case Quit => BareFrame(s, p, r);
      case Bare(_, _) => BareFrame(s, p, r);
      case Listing(_, _) => BareFrame(s, p, r);
      case Text(_, _, _) => TextFrame(s, p, r);
      case Ask(_, _, _) => TextFrame(s, p, r);
      case Answer(_, _, _, _) => AnswerFrame(s, p, r);
      case Login(_, _) => LoginFrame(s, p, r);
      case Put(_, _, _, _) => PutFrame(s, p, r);
    }
  }

  /** The requests from number i on, one after another. */
  function EncodeFrom(rs: seq<Packed>, i: nat): Bytes
    decreases |rs| - i
  {
    if i >= |rs| then [] else Encode(rs[i]) + EncodeFrom(rs, i + 1)
  }
}
