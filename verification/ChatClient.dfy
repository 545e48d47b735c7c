/** The client: how do_put cuts a file up, and how opcode_msg_recv puts relayed files together again. */
module ChatClient {
  import opened ByteStrings
  import opened Wire
  import opened SocketIO
  import opened ChatFraming
  import opened Utf8

  // ---------------------------------------------------------------- do_put

  lemma {:induction false} ChunksSplit(content: Bytes, i: nat)
    requires i * FILE_CHUNK < |content| || (i == 0 && content == [])
    ensures i < |Chunks(content)|
    ensures i + 1 == |Chunks(content)| <==> (i + 1) * FILE_CHUNK >= |content|
    ensures Chunks(content)[i] == content[i * FILE_CHUNK..Min((i + 1) * FILE_CHUNK, |content|)]
    decreases |content|
  {
    if |content| > FILE_CHUNK {
      var rest := content[FILE_CHUNK..];
      ChunksTail(content);
      if i > 0 {
        ChunksSplit(rest, i - 1);
        SliceOfRest(content, FILE_CHUNK, (i - 1) * FILE_CHUNK, Min(i * FILE_CHUNK, |rest|));
      } else {
        ChunksSplit(rest, 0);
      }
    }
  }

  lemma ChunksTail(content: Bytes)
    requires |content| > FILE_CHUNK
    ensures var rest := Chunks(content[FILE_CHUNK..]);
            && |Chunks(content)| == 1 + |rest| && Chunks(content)[0] == content[..FILE_CHUNK]
            && forall i :: 0 < i < |Chunks(content)| ==> Chunks(content)[i] == rest[i - 1]
  {
  }

  lemma SliceOfRest(s: Bytes, k: nat, from: nat, upto: nat)
    requires k <= |s| && from <= upto <= |s| - k
    ensures s[k..][from..upto] == s[from + k..upto + k]
  {
  }

  /** The slices of the list comprehension of do_put. */
  method Slices(content: Bytes) returns (chunks: seq<Chunk>)
    ensures chunks == Chunks(content)
  {
    chunks := [];
    var i := 0;
    var bound := if |content| > 1 then |content| else 1;
    while i < bound
      invariant i == |chunks| * FILE_CHUNK
      invariant |chunks| <= |Chunks(content)| && chunks == Chunks(content)[..|chunks|]
      invariant |chunks| == |Chunks(content)| <==> i >= bound
      decreases bound - i
    {
      ChunksSplit(content, |chunks|);
      var chunk: Chunk := content[Min(i, |content|)..Min(i + FILE_CHUNK, |content|)];
      chunks := chunks + [chunk];
      i := i + FILE_CHUNK;
    }
  }

  /** do_put: one packet per chunk, joined. */
  method DoPut(sid: nat, user: Bytes, filename: Bytes, content: Bytes) returns (request: Bytes)
    requires Packable(Put(sid, user, filename, content))
    ensures request == Encode(Put(sid, user, filename, content))
  {
    var chunks := Slices(content);
    request := [];
    var n := |chunks|;
    ghost var first := FirstPacket(Flags(true, n == 1), sid, user, filename, chunks[0]);
    for i := 0 to n
      invariant i == 0 ==> request == []
      invariant i > 0 ==> request + ChunkPackets(chunks, i) == first + ChunkPackets(chunks, 1)
    {
      var flags := Flags(i == 0, i == n - 1);
      var chunk := chunks[i];
      if i == 0 {
        request := FirstPacket(flags, sid, user, filename, chunk);
      } else {
        Regroup(request, ChunkPacket(flags, chunk), ChunkPackets(chunks, i + 1));
        request := request + ChunkPacket(flags, chunk);
      }
    }
    assert request + ChunkPackets(chunks, n) == request;
  }

  // ---------------------------------------------------------------- the receiving side

  const SLASH: Byte := 47

  /** Where the part after the last slash begins. */
  function AfterSlash(path: Bytes): (i: nat)
    ensures i <= |path| && SLASH !in path[i..] && (i > 0 ==> path[i - 1] == SLASH)
  {
    if path == [] || path[|path| - 1] == SLASH then |path|
    else
      var front := path[..|path| - 1];
      var i := AfterSlash(front);
      assert path[i..] == front[i..] + [path[|path| - 1]];
      i
  }

  /** os.path.basename. */
  function Basename(path: Bytes): Bytes { path[AfterSlash(path)..] }

  const DOT: Byte := 46

  /** The names with which open(name, "wb") can succeed at all: not empty, not one of the two names that
      every directory gives to directories, and without a null byte. */
  predicate Openable(name: Bytes) { name != [] && name != [DOT] && name != [DOT, DOT] && 0 !in name }

  lemma OpenableExactly(name: Bytes)
    ensures Openable(name) <==> name !in [[], Ascii("."), Ascii("..")] && 0 !in name
  {
    assert Ascii(".") == [46] && Ascii("..") == [46, 46];
  }

  /** What the client knows of the file that is coming in, the files that it has written, and whether
      its listener is still running. */
  datatype Inbox = Inbox(name: Option<Bytes>, buffer: Bytes, files: seq<(Bytes, Bytes)>, alive: bool)

  /** An exception leaves the listener, whose thread ends. */
  function Ended(box: Inbox): Inbox { box.(alive := false) }

  /** The LAST payload writes the file, if the listener knows its name and the name can be opened. */
  function StoreFile(box: Inbox, flags: Byte): Inbox {
    if !IsLast(flags) then box
    else if box.name.None? then box.(buffer := [])
    else if Openable(box.name.value)
      then box.(name := None, buffer := [], files := box.files + [(box.name.value, box.buffer)])
    else Ended(box)
  }

  /** A MSG_FLAG_FILE payload arrives. A payload without its header, a name that does not decode and a
      name that cannot be opened raise. */
  function TakeFile(box: Inbox, payload: Bytes): Inbox {
    if !box.alive then box
    else if payload == [] || (IsFirst(payload[0]) && |payload| < 3) then Ended(box)
    else if IsFirst(payload[0]) then
      var cut := Min(3 + Be16(payload, 1), |payload|);
      if !Decodes(payload[3..cut]) then Ended(box)
      else StoreFile(box.(name := Some(Basename(payload[3..cut])), buffer := payload[cut..]), payload[0])
    else StoreFile(box.(buffer := box.buffer + payload[1..]), payload[0])
  }

  function TakeFiles(box: Inbox, payloads: seq<Bytes>): Inbox
    decreases |payloads|
  {
    if payloads == [] then box else TakeFiles(TakeFile(box, payloads[0]), payloads[1..])
  }

  lemma {:induction false} TakeFilesJoin(box: Inbox, a: seq<Bytes>, b: seq<Bytes>)
    ensures TakeFiles(box, a + b) == TakeFiles(TakeFiles(box, a), b)
    decreases |a|
  {
    if a == [] {
      assert a + b == b;
    } else {
      assert (a + b)[0] == a[0] && (a + b)[1..] == a[1..] + b;
      TakeFilesJoin(TakeFile(box, a[0]), a[1..], b);
    }
  }

  /** Nothing is taken after an exception. */
  lemma {:induction false} TakeNothing(box: Inbox, payloads: seq<Bytes>)
    requires !box.alive
    ensures TakeFiles(box, payloads) == box
    decreases |payloads|
  {
    if payloads != [] {
      TakeNothing(box, payloads[1..]);
    }
  }

  /** Files that have been written stay written. */
  lemma {:induction false} TakeFilesGrow(box: Inbox, payloads: seq<Bytes>)
    ensures box.files <= TakeFiles(box, payloads).files
    decreases |payloads|
  {
    if payloads != [] {
      TakeFilesGrow(TakeFile(box, payloads[0]), payloads[1..]);
    }
  }

  // ---------------------------------------------------------------- transfers

  /** The payloads of one transfer, or the beginning of one that was given up. */
  predicate IsTransfer(ps: seq<Payload>) {
    && ps != [] && |ps[0]| >= 3 && IsFirst(ps[0][0]) && 3 + Be16(ps[0], 1) <= |ps[0]|
    && (forall i :: 0 < i < |ps| ==> !IsFirst(ps[i][0]))
    && (forall i :: 0 <= i < |ps| - 1 ==> !IsLast(ps[i][0]))
  }

  const SMALLEST: Payload := [FIRST, 0, 0]

  type Transfer = ps: seq<Payload> | IsTransfer(ps) witness [SMALLEST]

  ghost predicate Completed(ps: Transfer) {
    IsLast(ps[|ps| - 1][0])
  }

  ghost function NameOf(ps: Transfer): Bytes {
    ps[0][3..3 + Be16(ps[0], 1)]
  }

  /** The data of all payloads, each without its first byte. */
  ghost function Bodies(ps: seq<Payload>): Bytes {
    if ps == [] then [] else ps[0][1..] + Bodies(ps[1..])
  }

  ghost function ContentOf(ps: Transfer): Bytes {
    ps[0][3 + Be16(ps[0], 1)..] + Bodies(ps[1..])
  }

  /** The listener survives the transfer: the name decodes, and a file that is to be written has a name
      that can be opened. */
  ghost predicate Harmless(ps: Transfer) {
    Decodes(NameOf(ps)) && (Completed(ps) ==> Openable(Basename(NameOf(ps))))
  }

  /** The later payloads of a transfer are appended; the one flagged LAST writes the file. */
  lemma {:induction false} TakeLater(box: Inbox, ps: seq<Payload>)
    requires box.alive
    requires forall i :: 0 <= i < |ps| ==> !IsFirst(ps[i][0])
    requires forall i :: 0 <= i < |ps| - 1 ==> !IsLast(ps[i][0])
    ensures TakeFiles(box, ps) ==
            if ps == [] then box
            else StoreFile(box.(buffer := box.buffer + Bodies(ps)), ps[|ps| - 1][0])
    decreases |ps|
  {
    if |ps| == 1 {
      assert ps[1..] == [] && Bodies(ps) == ps[0][1..];
    } else if |ps| > 1 {
      var next := box.(buffer := box.buffer + ps[0][1..]);
      assert TakeFile(box, ps[0]) == next;
      TakeLater(next, ps[1..]);
      assert (box.buffer + ps[0][1..]) + Bodies(ps[1..]) == box.buffer + Bodies(ps);
    }
  }

  /** A whole transfer writes its file, whatever was in the inbox before, unless its name ends the
      listener; one that was given up writes nothing. */
  lemma TakeTransfer(box: Inbox, ps: Transfer)
    requires box.alive
    ensures TakeFiles(box, ps).alive <==> Harmless(ps)
    ensures TakeFiles(box, ps).files
            == box.files + if Harmless(ps) && Completed(ps) then [(Basename(NameOf(ps)), ContentOf(ps))] else []
  {
    var cut := 3 + Be16(ps[0], 1);
    if !Decodes(NameOf(ps)) {
      assert TakeFile(box, ps[0]) == Ended(box);
      TakeNothing(Ended(box), ps[1..]);
    } else {
      var begun := box.(name := Some(Basename(NameOf(ps))), buffer := ps[0][cut..]);
      assert TakeFile(box, ps[0]) == StoreFile(begun, ps[0][0]);
      if |ps| == 1 {
        assert ContentOf(ps) == ps[0][cut..] && ps[1..] == [];
      } else {
        TakeLater(begun, ps[1..]);
        assert ps[1..][|ps| - 2] == ps[|ps| - 1];
      }
    }
  }

  /** A transfer put together from its first payload and the later ones. */
  lemma TransferParts(first: Payload, rest: seq<Payload>)
    requires |first| >= 3 && IsFirst(first[0]) && 3 + Be16(first, 1) <= |first| && (rest != [] ==> !IsLast(first[0]))
    requires forall i :: 0 <= i < |rest| ==> !IsFirst(rest[i][0])
    requires forall i :: 0 <= i < |rest| - 1 ==> !IsLast(rest[i][0])
    ensures IsTransfer([first] + rest)
  {
    var ps := [first] + rest;
    assert forall i :: 0 < i < |ps| ==> ps[i] == rest[i - 1];
  }

  lemma TransferFields(ps: Transfer, first: Payload, rest: seq<Payload>)
    requires ps[0] == first && ps[1..] == rest
    ensures NameOf(ps) == first[3..3 + Be16(first, 1)]
    ensures ContentOf(ps) == first[3 + Be16(first, 1)..] + Bodies(rest)
    ensures Completed(ps) <==> IsLast(if rest == [] then first[0] else rest[|rest| - 1][0])
  {
    assert |rest| == |ps| - 1;
    if rest != [] {
      assert rest[|rest| - 1] == ps[|ps| - 1];
    }
  }

  lemma Prepended(first: Payload, rest: seq<Payload>)
    ensures ([first] + rest)[0] == first && ([first] + rest)[1..] == rest
  {
  }

  /** The files of the completed transfers, up to one that ends the listener. */
  ghost function Written(ts: seq<Transfer>): seq<(Bytes, Bytes)> {
    if ts == [] || !Harmless(ts[0]) then []
    else (if Completed(ts[0]) then [(Basename(NameOf(ts[0])), ContentOf(ts[0]))] else []) + Written(ts[1..])
  }

  ghost predicate AllHarmless(ts: seq<Transfer>) { forall i :: 0 <= i < |ts| ==> Harmless(ts[i]) }

  ghost function Concat(ts: seq<Transfer>): seq<Payload> {
    if ts == [] then [] else ts[0] + Concat(ts[1..])
  }

  /** Transfers one after another: exactly the completed ones are written, each with its own content, up
      to the first that ends the listener. */
  lemma {:induction false} Reassembly(box: Inbox, ts: seq<Transfer>)
    requires box.alive
    ensures TakeFiles(box, Concat(ts)).files == box.files + Written(ts)
    ensures TakeFiles(box, Concat(ts)).alive <==> AllHarmless(ts)
    decreases |ts|
  {
    hide Harmless, Completed, NameOf, ContentOf, Basename, TakeFile, IsTransfer, AllHarmless;
    AllHarmlessStep(ts);
    if ts != [] {
      TakeTransfer(box, ts[0]);
      var next := TakeFiles(box, ts[0]);
      TakeFilesJoin(box, ts[0], Concat(ts[1..]));
      if Harmless(ts[0]) {
        Reassembly(next, ts[1..]);
      } else {
        TakeNothing(next, Concat(ts[1..]));
      }
    }
  }

  lemma AllHarmlessStep(ts: seq<Transfer>)
    ensures ts == [] ==> AllHarmless(ts)
    ensures ts != [] ==> (AllHarmless(ts) <==> Harmless(ts[0]) && AllHarmless(ts[1..]))
  {
    hide Harmless;
    if ts != [] {
      assert forall i :: 0 < i < |ts| ==> ts[i] == ts[1..][i - 1];
    }
  }

  // ---------------------------------------------------------------- what the server relays

  /** Payloads of one relay, none too long for a packet, of which only the last may be flagged LAST. */
  predicate LastAtEnd(ps: seq<Payload>) {
    && (forall i :: 0 <= i < |ps| ==> |ps[i]| <= MAX_PACKET)
    && (forall i :: 0 <= i < |ps| - 1 ==> !IsLast(ps[i][0]))
  }

  predicate EndsWithLast(ps: seq<Payload>) { ps != [] && IsLast(ps[|ps| - 1][0]) }

  /** What the relay of any file request sends, however its sender sets the flags. */
  predicate IsSent(ps: seq<Payload>) { ps != [] && LastAtEnd(ps) }

  type Sent = ps: seq<Payload> | IsSent(ps) witness [SMALLEST]

  predicate Whole(ps: Sent) { EndsWithLast(ps) }

  lemma PrependSent(first: Payload, rest: seq<Payload>)
    requires |first| <= MAX_PACKET && (rest != [] ==> !IsLast(first[0])) && LastAtEnd(rest)
    ensures LastAtEnd([first] + rest)
    ensures EndsWithLast([first] + rest) <==> if rest == [] then IsLast(first[0]) else EndsWithLast(rest)
  {
    hide IsLast;
    var ps := [first] + rest;
    assert forall i :: 0 < i < |ps| ==> ps[i] == rest[i - 1];
  }

  /** The first payload of RelayRest, if any, is made of the first chunk. */
  lemma RelayRestStep(s: Bytes, p: nat) returns (first: Payload, rest: seq<Payload>)
    requires ChunksEnd(s, p).Some?
    ensures p + 3 <= |s| && first[0] == s[p] && |first| == 1 + Be16(s, p + 1)
    ensures RelayRest(s, p) == if Be16(s, p + 1) > FILE_CHUNK then [] else [first] + rest
    ensures var q := p + 3 + Be16(s, p + 1);
            if IsLast(s[p]) then rest == [] && (RelayWhole(s, p) <==> Be16(s, p + 1) <= FILE_CHUNK)
            else && ChunksEnd(s, q).Some? && rest == RelayRest(s, q)
                 && (RelayWhole(s, p) <==> Be16(s, p + 1) <= FILE_CHUNK && RelayWhole(s, q))
  {
    hide IsLast;
    var q := p + 3 + Be16(s, p + 1);
    first := [s[p]] + s[p + 3..q];
    rest := if IsLast(s[p]) then [] else RelayRest(s, q);
  }

  lemma {:induction false} RelayRestSent(s: Bytes, p: nat)
    requires ChunksEnd(s, p).Some?
    ensures LastAtEnd(RelayRest(s, p)) && (RelayWhole(s, p) <==> EndsWithLast(RelayRest(s, p)))
    decreases |s| - p
  {
    hide IsLast, Be16, ChunksEnd, RelayRest, RelayWhole;
    var first, rest := RelayRestStep(s, p);
    if !IsLast(s[p]) {
      RelayRestSent(s, p + 3 + Be16(s, p + 1));
    }
    if Be16(s, p + 1) <= FILE_CHUNK {
      PrependSent(first, rest);
      EndsNowhere(rest);
    }
  }

  lemma EndsNowhere(ps: seq<Payload>)
    ensures ps == [] ==> LastAtEnd(ps) && !EndsWithLast(ps)
  {
  }

  /** A relay sends its payloads up to a chunk that is too long, and goes through exactly when the last of
      them is flagged LAST. */
  lemma RelayIsSent(s: Bytes, p: nat)
    requires FrameEnd(s, p).Some? && s[p] == FILE_SEND && Parsed(s, p).GotFile?
    ensures IsSent(Relay(s, p)) && (Whole(Relay(s, p)) <==> RelayFine(s, p))
  {
    var got := Parsed(s, p);
    hide ChunksEnd, RelayRest, RelayWhole, LastAtEnd, EndsWithLast, IsLast;
    FirstPayloadFields(got.flags, got.filename, got.first);
    var first := FirstPayload(got.flags, got.filename, got.first);
    EndsNowhere([]);
    if IsLast(got.flags) {
      PrependSent(first, []);
    } else {
      RelayRestSent(s, FileBody(s, p));
      EndsNowhere(RelayRest(s, FileBody(s, p)));
      PrependSent(first, RelayRest(s, FileBody(s, p)));
    }
  }

  /** No chunk after the first is flagged FIRST, as in every file that do_put packs. */
  ghost predicate Disciplined(s: Bytes, p: nat)
    decreases |s| - p
  {
    p + 3 <= |s| && !IsFirst(s[p]) && (IsLast(s[p]) || Disciplined(s, p + 3 + Be16(s, p + 1)))
  }

  predicate NoneFirst(ps: seq<Payload>) { forall i :: 0 <= i < |ps| ==> !IsFirst(ps[i][0]) }

  lemma NoneFirstMore(first: Payload, rest: seq<Payload>)
    requires !IsFirst(first[0]) && NoneFirst(rest)
    ensures NoneFirst([first] + rest)
  {
    hide IsFirst;
  }

  lemma DisciplinedStep(s: Bytes, p: nat)
    requires Disciplined(s, p)
    ensures p + 3 <= |s| && !IsFirst(s[p]) && (!IsLast(s[p]) ==> Disciplined(s, p + 3 + Be16(s, p + 1)))
  {
    hide IsFirst, IsLast, Be16;
  }

  lemma {:induction false} RelayRestLater(s: Bytes, p: nat)
    requires ChunksEnd(s, p).Some? && Disciplined(s, p)
    ensures NoneFirst(RelayRest(s, p))
    decreases |s| - p
  {
    hide IsFirst, IsLast, Be16, ChunksEnd, RelayRest, RelayWhole, Disciplined;
    var first, rest := RelayRestStep(s, p);
    DisciplinedStep(s, p);
    if !IsLast(s[p]) {
      RelayRestLater(s, p + 3 + Be16(s, p + 1));
    }
    NoneFirstMore(first, rest);
  }

  /** What a relay puts on the target's socket is one transfer, completed exactly when the relay did not
      meet a chunk that is too long. */
  lemma RelayIsTransfer(s: Bytes, p: nat)
    requires FrameEnd(s, p).Some? && s[p] == FILE_SEND && Parsed(s, p).GotFile? && IsFirst(s[p + 1])
    requires IsLast(s[p + 1]) || Disciplined(s, FileBody(s, p))
    ensures IsTransfer(Relay(s, p))
    ensures Completed(Relay(s, p)) <==> RelayFine(s, p)
    ensures NameOf(Relay(s, p)) == Parsed(s, p).filename
  {
    hide ChunksEnd, RelayRest, RelayWhole, Disciplined, Bodies, IsTransfer, Completed, NameOf, ContentOf;
    var got := Parsed(s, p);
    FirstPayloadFields(got.flags, got.filename, got.first);
    var rest := if IsLast(got.flags) then [] else RelayRest(s, FileBody(s, p));
    if !IsLast(got.flags) {
      RelayRestSent(s, FileBody(s, p));
      RelayRestLater(s, FileBody(s, p));
    }
    TransferParts(FirstPayload(got.flags, got.filename, got.first), rest);
    Prepended(FirstPayload(got.flags, got.filename, got.first), rest);
    TransferFields(Relay(s, p), FirstPayload(got.flags, got.filename, got.first), rest);
  }

  lemma FirstPayloadFields(flags: Byte, filename: Bytes, first: Bytes)
    requires Short(filename)
    ensures var b := FirstPayload(flags, filename, first);
            && |b| == 3 + |filename| + |first| && b[0] == flags && Be16(b, 1) == |filename|
            && b[3..3 + |filename|] == filename && b[3 + |filename|..] == first
  {
  }

  // ---------------------------------------------------------------- from do_put to the file

  /** The content that the chunks from number i on make up. */
  ghost function Join(cs: seq<Chunk>, i: nat): Bytes
    decreases |cs| - i
  {
    if i >= |cs| then [] else cs[i] + Join(cs, i + 1)
  }

  lemma {:induction false} JoinTail(c: Chunk, cs: seq<Chunk>, i: nat)
    ensures Join([c] + cs, i + 1) == Join(cs, i)
    decreases |cs| - i
  {
    if i < |cs| {
      assert ([c] + cs)[i + 1] == cs[i];
      JoinTail(c, cs, i + 1);
    }
  }

  lemma {:induction false} ChunksJoin(content: Bytes)
    ensures Join(Chunks(content), 0) == content
    decreases |content|
  {
    if |content| > FILE_CHUNK {
      var rest := content[FILE_CHUNK..];
      ChunksJoin(rest);
      JoinTail(content[..FILE_CHUNK], Chunks(rest), 0);
    }
  }

  /** One later chunk of do_put as the relay meets it. */
  lemma RelayOfChunk(s: Bytes, p: nat, last: bool, chunk: Chunk)
    requires At(s, p, ChunkPacket(Flags(false, last), chunk)) && ChunksEnd(s, p).Some?
    ensures var q := p + 3 + |chunk|;
            && (!last ==> ChunksEnd(s, q).Some?)
            && RelayRest(s, p) == [[Flags(false, last)] + chunk] + (if last then [] else RelayRest(s, q))
            && (RelayWhole(s, p) <==> last || RelayWhole(s, q))
            && (Disciplined(s, p) <==> last || Disciplined(s, q))
  {
    ChunkPacketFields(s, p, Flags(false, last), chunk);
    AtSlice(s, p + 3, chunk);
    FlagsRead(false, last);
  }

  lemma BodiesStep(flags: Byte, data: Bytes, rest: seq<Payload>)
    ensures Bodies([[flags] + data] + rest) == data + Bodies(rest)
    ensures rest == [] ==> Bodies(rest) == []
  {
    var first: Payload := [flags] + data;
    assert ([first] + rest)[1..] == rest && first[1..] == data;
  }

  /** The later chunks of do_put: none is too long, and the relayed data is theirs. */
  lemma {:induction false} RelayOfChunks(s: Bytes, p: nat, cs: seq<Chunk>, i: nat)
    requires i < |cs| && At(s, p, ChunkPackets(cs, i))
    ensures ChunksEnd(s, p).Some? && Disciplined(s, p) && RelayWhole(s, p)
    ensures Bodies(RelayRest(s, p)) == Join(cs, i)
    decreases |cs| - i
  {
    hide ChunksEnd, RelayRest, RelayWhole, Disciplined, Bodies, Flags;
    ChunksFrame(s, p, cs, i);
    var last := i + 1 == |cs|;
    var q := p + 3 + |cs[i]|;
    AtParts(s, p, ChunkPacket(Flags(false, last), cs[i]), ChunkPackets(cs, i + 1));
    RelayOfChunk(s, p, last, cs[i]);
    if !last {
      RelayOfChunks(s, q, cs, i + 1);
    }
    BodiesStep(Flags(false, last), cs[i], if last then [] else RelayRest(s, q));
  }

  /** The relay of what do_put packs is a completed transfer of its name and content. */
  lemma PutIsTransfer(s: Bytes, p: nat, r: Packed)
    requires r.Put? && View(r).GotFile? && At(s, p, Encode(r))
    ensures FrameEnd(s, p) == Some(p + |Encode(r)|) && Parsed(s, p) == View(r) && s[p] == FILE_SEND
    ensures IsTransfer(Relay(s, p)) && Completed(Relay(s, p)) && RelayFine(s, p)
    ensures NameOf(Relay(s, p)) == r.filename && ContentOf(Relay(s, p)) == r.content
  {
    FrameOfEncode(s, p, r);
    var cs := Chunks(r.content);
    PutBody(s, p, r);
    RelayIsTransfer(s, p);
    FirstPayloadFields(Flags(true, |cs| == 1), r.filename, cs[0]);
    ChunksJoin(r.content);
    var ps := Relay(s, p);
    if |cs| == 1 {
      assert ps[1..] == [];
    } else {
      RelayOfChunks(s, FileBody(s, p), cs, 1);
      assert ps[1..] == RelayRest(s, FileBody(s, p));
    }
  }

  lemma PutEncoding(r: Packed)
    requires r.Put?
    ensures var cs := Chunks(r.content);
            Encode(r) == FirstPacket(Flags(true, |cs| == 1), r.sid, r.user, r.filename, cs[0]) + ChunkPackets(cs, 1)
  {
    hide FirstPacket, ChunkPackets, Chunks, Flags;
  }

  lemma HeadBody(s: Bytes, p: nat, flags: Byte, sid: nat, user: Bytes, filename: Bytes, chunk: Bytes)
    requires FileHead(s, p, flags, sid, user, filename, chunk)
    ensures p + 12 <= |s| && FileBody(s, p) == p + 12 + |user| + |filename| + |chunk| <= |s|
    ensures s[p] == FILE_SEND && s[p + 1] == flags
  {
    hide At;
  }

  lemma PacketParts(s: Bytes, p: nat, flags: Byte, sid: nat, user: Bytes, filename: Bytes, chunk: Bytes, rest: Bytes)
    requires sid < 0x1_0000_0000 && Short(user) && Short(filename) && Short(chunk)
    requires At(s, p, FirstPacket(flags, sid, user, filename, chunk) + rest)
    ensures FileHead(s, p, flags, sid, user, filename, chunk)
    ensures At(s, p + 12 + |user| + |filename| + |chunk|, rest)
  {
    hide *;
    AtParts(s, p, FirstPacket(flags, sid, user, filename, chunk), rest);
    FirstPacketFields(s, p, flags, sid, user, filename, chunk);
  }

  /** Where the two parts of what do_put packs stand. */
  lemma FileParts(s: Bytes, p: nat, r: Packed)
    requires r.Put? && At(s, p, Encode(r))
    ensures var cs := Chunks(r.content);
            && FileHead(s, p, Flags(true, |cs| == 1), r.sid, r.user, r.filename, cs[0])
            && At(s, p + 12 + |r.user| + |r.filename| + |cs[0]|, ChunkPackets(cs, 1))
  {
    hide At, Encode, FirstPacket, ChunkPackets, Chunks, FileHead, Flags;
    var cs := Chunks(r.content);
    PutEncoding(r);
    PacketParts(s, p, Flags(true, |cs| == 1), r.sid, r.user, r.filename, cs[0], ChunkPackets(cs, 1));
  }

  /** The first packet of do_put, and the later ones behind it. */
  lemma PutBody(s: Bytes, p: nat, r: Packed)
    requires r.Put? && At(s, p, Encode(r))
    ensures var cs := Chunks(r.content);
            && p + 12 <= FileBody(s, p) <= |s| && s[p] == FILE_SEND && s[p + 1] == Flags(true, |cs| == 1)
            && IsFirst(s[p + 1]) && (IsLast(s[p + 1]) <==> |cs| == 1)
            && At(s, FileBody(s, p), ChunkPackets(cs, 1))
            && (|cs| > 1 ==> ChunksEnd(s, FileBody(s, p)).Some? && Disciplined(s, FileBody(s, p)))
  {
    hide *;
    var cs := Chunks(r.content);
    FileParts(s, p, r);
    HeadBody(s, p, Flags(true, |cs| == 1), r.sid, r.user, r.filename, cs[0]);
    FlagsRead(true, |cs| == 1);
    if |cs| > 1 {
      RelayOfChunks(s, FileBody(s, p), cs, 1);
    }
  }

  ghost predicate FitsPacket(r: Packed)
    requires r.Put?
  {
    12 + |r.user| + |r.filename| + Min(|r.content|, FILE_CHUNK) <= MAX_PACKET
  }

  /** The file can be written where it arrives. */
  ghost predicate GoodName(r: Packed)
    requires r.Put?
  {
    Decodes(r.filename) && Openable(Basename(r.filename))
  }

  /** The round trip. Of a file that the server may relay, the target writes exactly the bytes that the
      sender read, under the last part of its name, whatever the target had received before; and it
      does so if and only if names and first chunk fit one packet and the last part of the name is one
      that can be opened. A file that is relayed with any other name ends the target's listener. */
  lemma FileArrives(box: Inbox, s: Bytes, p: nat, r: Packed, verdict: Verdict)
    requires r.Put? && At(s, p, Encode(r)) && verdict.sessionOk && verdict.mayRelay && box.alive
    ensures FrameEnd(s, p).Some?
    ensures TakeFiles(box, Relayed(s, p, verdict)).files
            == box.files + if FitsPacket(r) && GoodName(r) then [(Basename(r.filename), r.content)] else []
    ensures TakeFiles(box, Relayed(s, p, verdict)).alive <==> (FitsPacket(r) ==> GoodName(r))
  {
    FirstChunkSize(r.content);
    if FitsPacket(r) {
      PutIsTransfer(s, p, r);
      TakeTransfer(box, Relay(s, p));
    } else {
      FrameOfEncode(s, p, r);
    }
  }

  lemma FirstChunkSize(content: Bytes)
    ensures |Chunks(content)[0]| == Min(|content|, FILE_CHUNK)
  {
  }

  /** A destination that ends with a slash, as in `put bob notes.txt out/`, fits a packet and is relayed,
      but nothing is written and the target's listener ends. */
  lemma NothingArrivesAtDirectory(box: Inbox, s: Bytes, p: nat, sid: nat, content: Bytes, verdict: Verdict)
    requires sid < 0x1_0000_0000 && box.alive && verdict.sessionOk && verdict.mayRelay
    requires At(s, p, Encode(Put(sid, Ascii("bob"), Ascii("out/"), content)))
    ensures FrameEnd(s, p).Some? && Relayed(s, p, verdict) != []
    ensures TakeFiles(box, Relayed(s, p, verdict)).files == box.files
    ensures !TakeFiles(box, Relayed(s, p, verdict)).alive
  {
    var r: Packed := Put(sid, Ascii("bob"), Ascii("out/"), content);
    assert r.filename[3] == SLASH;
    assert Basename(r.filename) == [];
    hide *;
    FileArrives(box, s, p, r, verdict);
    DirectoryName(r);
    if Relayed(s, p, verdict) == [] {
      TakeNoFiles(box);
    }
  }

  lemma TakeNoFiles(box: Inbox)
    ensures TakeFiles(box, []) == box
  {
  }

  lemma DirectoryName(r: Packed)
    requires r.Put? && Basename(r.filename) == [] && |r.user| + |r.filename| <= 3000
    ensures FitsPacket(r) && !GoodName(r)
  {
  }
}
