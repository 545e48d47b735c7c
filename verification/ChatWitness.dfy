/** Runs from the start of the server into the states of ChatLimits: two private rooms of one name, and
    entries in both request tables for a user in no room; and the run in which a permission outlives the
    user who gave it. */
module ChatWitness {
  import opened ByteStrings
  import opened ChatTypes
  import opened ChatModel
  import opened ChatInvariant
  import opened ChatHandlers
  import opened ChatRuns
  import opened ChatLimits
  import opened ChatPermissions

  lemma Chain(w: World, op: Op, rest: seq<Op>)
    requires Enabled(w, op) && Possible(Step(w, op), rest)
    ensures Possible(w, [op] + rest) && After(w, [op] + rest) == After(Step(w, op), rest)
  {
    hide Enabled, Step;
    assert ([op] + rest)[0] == op && ([op] + rest)[1..] == rest;
  }

  lemma NoSteps(w: World)
    ensures Possible(w, []) && After(w, []) == w
  {
  }

  // ---------------------------------------------------------------- a client logs in

  function LoginOps(s: Session, u: Bytes, p: Bytes): seq<Op> {
    [Connect(s)] + ([LoginBeginOp(s)] + ([LoginCredsOp(s, u, p, true)] + ([LoginCommitOp(s)] + [])))
  }

  /** w with a client that has connected and got as far as this in its login. */
  function WithClient(w: World, s: Session, rec: SessRec, phase: Phase): World {
    w.(st := w.st.(sessions := w.st.sessions[s := rec]), phase := w.phase[s := phase],
       accepts := w.accepts[s := 0], relays := w.relays[s := 0])
  }

  function WithLogin(w: World, s: Session, u: Bytes, p: Bytes): World {
    var rec := SessRec(u, p, w.st.nextId, None, []);
    w.(st := w.st.(sessions := w.st.sessions[s := rec], online := w.st.online[u := s], creds := w.st.creds[u := p],
                   nextId := (w.st.nextId + 1) % ID_LIMIT),
       phase := w.phase[s := Idle], accepts := w.accepts[s := 0], relays := w.relays[s := 0], granted := w.granted + 1)
  }

  lemma Begin(w: World, s: Session)
    requires s !in w.st.sessions
    ensures Enabled(w, Connect(s))
    ensures var w1 := WithClient(w, s, SessRec([], [], 0, None, []), Idle);
            && Step(w, Connect(s)) == w1 && Enabled(w1, LoginBeginOp(s))
            && Step(w1, LoginBeginOp(s)) == WithClient(w, s, SessRec([], [], 0, None, []), AwaitCreds)
  {
    var rec := SessRec([], [], 0, None, []);
    assert w.st.sessions[s := rec][s := rec] == w.st.sessions[s := rec];
    assert w.phase[s := Idle][s := AwaitCreds] == w.phase[s := AwaitCreds];
  }

  lemma Credentials(w: World, s: Session, u: Bytes, p: Bytes)
    requires ValidUsername(u) && ValidPassword(p)
    ensures var w1 := WithClient(w, s, SessRec([], [], 0, None, []), AwaitCreds);
            && Enabled(w1, LoginCredsOp(s, u, p, true))
            && Step(w1, LoginCredsOp(s, u, p, true)) == WithClient(w, s, SessRec(u, p, 0, None, []), HaveCreds)
  {
    hide ValidUsername, ValidPassword;
    var r0, r1 := SessRec([], [], 0, None, []), SessRec(u, p, 0, None, []);
    assert w.st.sessions[s := r0][s := r1] == w.st.sessions[s := r1];
    assert w.phase[s := AwaitCreds][s := HaveCreds] == w.phase[s := HaveCreds];
  }

  lemma Commit(w: World, s: Session, u: Bytes, p: Bytes)
    requires u !in w.st.creds && u !in w.st.online && w.st.nextId != 0
    ensures var w1 := WithClient(w, s, SessRec(u, p, 0, None, []), HaveCreds);
            && Enabled(w1, LoginCommitOp(s)) && Step(w1, LoginCommitOp(s)) == WithLogin(w, s, u, p)
  {
    var r0, r1 := SessRec(u, p, 0, None, []), SessRec(u, p, w.st.nextId, None, []);
    assert w.st.sessions[s := r0][s := r1] == w.st.sessions[s := r1];
    assert w.phase[s := HaveCreds][s := Idle] == w.phase[s := Idle];
  }

  lemma LogIn(w: World, s: Session, u: Bytes, p: Bytes)
    requires s !in w.st.sessions && ValidUsername(u) && ValidPassword(p)
    requires u !in w.st.creds && u !in w.st.online && w.st.nextId != 0
    ensures Possible(w, LoginOps(s, u, p)) && After(w, LoginOps(s, u, p)) == WithLogin(w, s, u, p)
  {
    hide *;
    var blank := SessRec([], [], 0, None, []);
    Begin(w, s);
    Credentials(w, s, u, p);
    Commit(w, s, u, p);
    NoSteps(WithLogin(w, s, u, p));
    Chain(WithClient(w, s, SessRec(u, p, 0, None, []), HaveCreds), LoginCommitOp(s), []);
    Chain(WithClient(w, s, blank, AwaitCreds), LoginCredsOp(s, u, p, true), [LoginCommitOp(s)] + []);
    Chain(WithClient(w, s, blank, Idle), LoginBeginOp(s), [LoginCredsOp(s, u, p, true)] + ([LoginCommitOp(s)] + []));
    Chain(w, Connect(s), [LoginBeginOp(s)] + ([LoginCredsOp(s, u, p, true)] + ([LoginCommitOp(s)] + [])));
    OpsOfLogin(s, u, p);
  }

  lemma OpsOfLogin(s: Session, u: Bytes, p: Bytes)
    ensures LoginOps(s, u, p) == [Connect(s)]
            + ([LoginBeginOp(s)] + ([LoginCredsOp(s, u, p, true)] + ([LoginCommitOp(s)] + [])))
  {
  }

  // ---------------------------------------------------------------- a logged-in client joins the first room

  /** w after s, in no room, has joined the room r. */
  function WithJoin(w: World, s: Session, r: Room): World
    requires s in w.st.sessions && r in w.st.rooms
  {
    var st, rec := w.st, w.st.sessions[s];
    w.(st := st.(sessions := st.sessions[s := rec.(room := Some(r))],
                 rooms := st.rooms[r := RoomRec(st.rooms[r].name, st.rooms[r].members + [s])],
                 pmReqs := st.pmReqs[rec.username := []], fileReqs := st.fileReqs[rec.username := []]),
       phase := w.phase[s := Idle])
  }

  lemma JoinFirst(w: World, s: Session, r: Room, created: Room)
    requires At(w, s, Idle) && w.st.sessions[s].id != 0 && w.st.sessions[s].room.None? && created !in w.st.rooms
    requires r in w.st.rooms && w.st.store != [] && w.st.store[0] == r && AllAlnum(w.st.rooms[r].name)
    ensures var op := JoinOp(s, w.st.sessions[s].id, w.st.rooms[r].name, created);
            Enabled(w, op) && Step(w, op) == WithJoin(w, s, r)
  {
    AlnumHasNoPlus(w.st.rooms[r].name);
    var rec := w.st.sessions[s];
    assert w.st.sessions[s := rec.(room := Some(r))] == w.st.sessions[s := rec][s := rec.(room := Some(r))];
  }

  // ---------------------------------------------------------------- alice and bobby

  const ALICE: Bytes := Ascii("alice")
  const BOBBY: Bytes := Ascii("bobby")
  const SECRET: Bytes := Ascii("secret123")
  const GENERAL: Bytes := Ascii("general")

  lemma Texts()
    ensures ValidUsername(ALICE) && ValidUsername(BOBBY) && ALICE != BOBBY
    ensures ALICE != Ascii("admin") && BOBBY != Ascii("admin")
    ensures ValidPassword(SECRET) && AllAlnum(GENERAL)
  {
    assert ALICE == [97, 108, 105, 99, 101];
    assert BOBBY == [98, 111, 98, 98, 121];
    assert Ascii("admin")[1] == 100;
    assert SECRET == [115, 101, 99, 114, 101, 116, 49, 50, 51];
    assert GENERAL == [103, 101, 110, 101, 114, 97, 108];
  }

  /** alice has logged in and is in the first room; bobby has logged in. */
  ghost function Arrived(w: World, general: Room, a: Session, b: Session): World
    requires Init(w, general)
  {
    WithLogin(WithJoin(WithLogin(w, a, ALICE, SECRET), a, general), b, BOBBY, SECRET)
  }

  function ArriveOps(a: Session, b: Session, spare: Room): seq<Op> {
    (LoginOps(a, ALICE, SECRET) + [JoinOp(a, 1, GENERAL, spare)]) + LoginOps(b, BOBBY, SECRET)
  }

  lemma OneStep(w: World, op: Op)
    requires Enabled(w, op)
    ensures Possible(w, [op]) && After(w, [op]) == Step(w, op)
  {
    NoSteps(Step(w, op));
    Chain(w, op, []);
    hide Enabled, Step;
    assert [op] + [] == [op];
  }

  /** What there is of w after alice's login and her join. */
  lemma AliceJoined(w: World, general: Room, a: Session, spare: Room)
    requires Init(w, general) && spare != general
    ensures a !in w.st.sessions && ALICE !in w.st.creds && ALICE !in w.st.online && w.st.nextId == 1
    ensures var w1 := WithLogin(w, a, ALICE, SECRET);
            && general in w1.st.rooms && a in w1.st.sessions
            && Enabled(w1, JoinOp(a, 1, GENERAL, spare))
            && Step(w1, JoinOp(a, 1, GENERAL, spare)) == WithJoin(w1, a, general)
  {
    Texts();
    hide ValidUsername, ValidPassword;
    JoinFirst(WithLogin(w, a, ALICE, SECRET), a, general, spare);
  }

  lemma BobbyMayCome(w: World, general: Room, a: Session, b: Session)
    requires Init(w, general) && a != b
    ensures var w2 := WithJoin(WithLogin(w, a, ALICE, SECRET), a, general);
            b !in w2.st.sessions && BOBBY !in w2.st.creds && BOBBY !in w2.st.online && w2.st.nextId == 2
  {
    Texts();
  }

  lemma Arrive(w: World, general: Room, a: Session, b: Session, spare: Room)
    requires Init(w, general) && a != b && spare != general
    ensures Possible(w, ArriveOps(a, b, spare)) && After(w, ArriveOps(a, b, spare)) == Arrived(w, general, a, b)
  {
    Texts();
    AliceJoined(w, general, a, spare);
    BobbyMayCome(w, general, a, b);
    hide Init, ValidUsername, ValidPassword, LoginOps, WithJoin, WithLogin, Enabled, Step, Possible, After;
    var w1 := WithLogin(w, a, ALICE, SECRET);
    var w2 := WithJoin(w1, a, general);
    LogIn(w, a, ALICE, SECRET);
    OneStep(w1, JoinOp(a, 1, GENERAL, spare));
    AfterBoth(w, LoginOps(a, ALICE, SECRET), [JoinOp(a, 1, GENERAL, spare)]);
    LogIn(w2, b, BOBBY, SECRET);
    AfterBoth(w, LoginOps(a, ALICE, SECRET) + [JoinOp(a, 1, GENERAL, spare)], LoginOps(b, BOBBY, SECRET));
  }

  // ---------------------------------------------------------------- entries without a room

  lemma AfterJoin(w: World, general: Room, a: Session)
    requires Init(w, general)
    ensures a !in w.st.sessions
    ensures var w1 := WithLogin(w, a, ALICE, SECRET);
            && a in w1.st.sessions && general in w1.st.rooms
            && (var w2 := WithJoin(w1, a, general);
                && w2.st.sessions == map[a := SessRec(ALICE, SECRET, 1, Some(general), [])]
                && w2.phase == map[a := Idle] && w2.st.online == map[ALICE := a]
                && w2.st.pmReqs == map[ALICE := []] && w2.st.fileReqs == map[ALICE := []]
                && w2.st.rooms.Keys == {general} && w2.st.store == [general] && w2.st.rooms[general].name == GENERAL
                && w2.st.nextId == 2 && w2.granted == 1)
  {
  }

  lemma AfterArrival(w: World, general: Room, a: Session, b: Session)
    requires Init(w, general) && a != b
    ensures var w1 := Arrived(w, general, a, b);
            && At(w1, a, Idle) && At(w1, b, Idle) && SessionValid(w1.st, a, 1) && SessionValid(w1.st, b, 2)
            && w1.st.sessions[a].username == ALICE && w1.st.sessions[b].username == BOBBY
            && w1.st.sessions[a].room == Some(general) && w1.st.sessions[b].room == None
            && w1.st.online[ALICE := a][BOBBY := b] == w1.st.online
            && w1.st.pmReqs == map[ALICE := []] && w1.st.fileReqs == map[ALICE := []]
            && w1.st.rooms.Keys == {general} && w1.st.store == [general] && w1.st.rooms[general].name == GENERAL
            && w1.granted == 2
  {
    Texts();
    AfterJoin(w, general, a);
    hide Init, WithJoin, ValidUsername, ValidPassword, AllAlnum, InitState;
  }

  /** alice asks bobby, who is in no room, for a private conversation and to take a file: bobby has an entry
      in both tables, in a reachable state. */
  lemma RoomlessEntries(w: World, general: Room, a: Session, b: Session, spare: Room)
    requires Init(w, general) && a != b && spare != general
    ensures var ops := ArriveOps(a, b, spare) + ([RequestOp(a, 1, 0, BOBBY)] + [RequestOp(a, 1, 1, BOBBY)]);
            && Possible(w, ops) && After(w, ops).granted < ID_LIMIT
            && BOBBY in After(w, ops).st.pmReqs && BOBBY in After(w, ops).st.fileReqs
            && !InRoom(After(w, ops).st, BOBBY)
  {
    Arrive(w, general, a, b, spare);
    AfterArrival(w, general, a, b);
    Texts();
    var w1 := Arrived(w, general, a, b);
    hide Init, Arrived, ArriveOps, ValidUsername, ValidPassword, AllAlnum, Possible, After, RequestText, Enabled, Step;
    var ask, offer := RequestOp(a, 1, 0, BOBBY), RequestOp(a, 1, 1, BOBBY);
    AskBobby(w1, a, b, ask);
    AskBobby(Step(w1, ask), a, b, offer);
    OneStep(w1, ask);
    OneStep(Step(w1, ask), offer);
    AfterBoth(w1, [ask], [offer]);
    AfterBoth(w, ArriveOps(a, b, spare), [ask] + [offer]);
  }

  /** alice is in a room, bobby in none, and alice may ask bobby. */
  ghost predicate Asking(w: World, a: Session, b: Session) {
    && At(w, a, Idle) && b in w.st.sessions && SessionValid(w.st, a, 1) && w.st.sessions[a].room.Some?
    && BOBBY in w.st.online && w.st.online[BOBBY] == b && w.st.sessions[b].username == BOBBY
    && w.st.sessions[b].room.None?
  }

  lemma AskBobby(w: World, a: Session, b: Session, op: Op)
    requires Asking(w, a, b) && op.RequestOp? && op.s == a && op.sid == 1 && op.username == BOBBY && op.flag < 2
    requires PendingAt(w.st, KindOf(op.flag).value, BOBBY).None?
    ensures Enabled(w, op)
    ensures var w' := Step(w, op);
            && Asking(w', a, b) && w'.granted == w.granted && !InRoom(w'.st, BOBBY)
            && w'.st.pmReqs == (if op.flag == 0 then w.st.pmReqs[BOBBY := w.st.sessions[a].username] else w.st.pmReqs)
            && w'.st.fileReqs == (if op.flag == 1
                                  then w.st.fileReqs[BOBBY := w.st.sessions[a].username] else w.st.fileReqs)
  {
    hide RequestText;
  }

  // ---------------------------------------------------------------- two rooms of one name

  /** Both are logged in and in rooms, and no private request is pending at either. */
  ghost predicate Seated(w: World, s: Session, u: Bytes, sid: nat) {
    && At(w, s, Idle) && SessionValid(w.st, s, sid) && w.st.sessions[s].username == u && w.st.sessions[s].room.Some?
    && u in w.st.online && w.st.online[u] == s && u in w.st.pmReqs && w.st.pmReqs[u] == []
  }

  ghost predicate Together(w: World, a: Session, b: Session) {
    a != b && Seated(w, a, ALICE, 1) && Seated(w, b, BOBBY, 2)
  }

  /** No file request is pending at alice. */
  ghost predicate NothingOffered(w: World) { ALICE in w.st.fileReqs && w.st.fileReqs[ALICE] == [] }

  function TalkOps(a: Session, b: Session, created: Room): seq<Op> {
    [RequestOp(a, 1, 0, BOBBY)] + [RespondOp(b, 2, 0, 0, ALICE, created)]
  }

  /** A move that succeeds empties the entries of the session that moves, and no others. */
  lemma MoveTables(st: ChatState, s: Session, r: Room)
    requires s in st.sessions && MoveTo(st, s, r).1
    ensures var (u, st') := (st.sessions[s].username, MoveTo(st, s, r).0);
            && u in st'.pmReqs && st'.pmReqs[u] == []
            && forall v :: v in st.pmReqs && v != u ==> v in st'.pmReqs && st'.pmReqs[v] == st.pmReqs[v]
  {
    hide MayEnter;
  }

  lemma PmAcceptTables(st: ChatState, requester: Session, responder: Session, created: Room)
    requires Inv(st) && requester in st.sessions && responder in st.sessions && created !in st.rooms
    requires st.sessions[requester].id != 0 && st.sessions[responder].id != 0
    ensures var a, b := st.sessions[requester].username, st.sessions[responder].username;
            var st' := PmAccept(st, requester, b, created).0;
            a in st'.pmReqs && st'.pmReqs[a] == [] && b in st'.pmReqs && st'.pmReqs[b] == []
  {
    hide PmAccept, MoveTo, PmRoomName, MayEnter, Inv;
    var a, b := st.sessions[requester].username, st.sessions[responder].username;
    var st0 := AddRoom(st, created, PmRoomName(a, b));
    PmRoomReady(st, requester, responder, created);
    MoveFrame(st0, requester, created);
    var st1 := MoveTo(st0, requester, created).0;
    PmAcceptMoves(st, requester, responder, created, st1);
    MoveFrame(st1, responder, created);
    MoveTables(st0, requester, created);
    MoveTables(st1, responder, created);
  }

  lemma Ask(w: World, a: Session, b: Session)
    requires Together(w, a, b) && WorldInv(w)
    ensures var op := RequestOp(a, 1, 0, BOBBY);
            && Enabled(w, op)
            && Step(w, op) == w.(st := w.st.(pmReqs := w.st.pmReqs[BOBBY := ALICE]), phase := w.phase[a := Idle])
            && WorldInv(Step(w, op)) && Asked(Step(w, op), a, b)
  {
    Texts();
    Granted(w);
    StepKeepsInv(w, RequestOp(a, 1, 0, BOBBY));
    hide RequestText, ValidUsername, ValidPassword, AllAlnum, WorldInv;
  }

  lemma Granted(w: World)
    requires WorldInv(w)
    ensures w.granted < ID_LIMIT && Inv(w.st)
  {
    OpenWorld(w);
  }

  /** alice has asked bobby. */
  ghost predicate Asked(w: World, a: Session, b: Session) {
    && a != b && At(w, a, Idle) && SessionValid(w.st, a, 1) && w.st.sessions[a].username == ALICE
    && ALICE in w.st.online && w.st.online[ALICE] == a
    && At(w, b, Idle) && SessionValid(w.st, b, 2) && w.st.sessions[b].username == BOBBY && w.st.sessions[b].room.Some?
    && BOBBY in w.st.online && w.st.online[BOBBY] == b && BOBBY in w.st.pmReqs && w.st.pmReqs[BOBBY] == ALICE
  }

  lemma AcceptWorks(w: World, a: Session, b: Session, created: Room)
    requires Inv(w.st) && Asked(w, a, b) && created !in w.st.rooms
    ensures OnlyRoomsOf(w.st, a, b, PmAccept(w.st, a, BOBBY, created).0)
    ensures PmAcceptWorks(w.st, b, ALICE, created)
  {
    hide Inv, IsMember, PmAccept, OnlyRoomsOf;
    PmAcceptKeepsInv(w.st, a, b, created);
  }

  lemma AcceptReply(w: World, a: Session, b: Session, created: Room)
    requires Inv(w.st) && Asked(w, a, b) && created !in w.st.rooms
    ensures var st' := PmAccept(w.st, a, BOBBY, created).0; var reply := Respond(w.st, b, 2, 0, 0, ALICE, created);
            reply.st == st'.(pmReqs := st'.pmReqs[BOBBY := []]) && reply.ret == Success && reply.keep
  {
    hide Inv, PmAccept, PmAcceptWorks, Respond, OnlineAgree, RoomsAgree;
    hide RoomUsers, UsersKnown, StoreGood, PrivateRooms, MayAnswer;
    Open(w.st);
    AcceptWorks(w, a, b, created);
    MayAnswerAlice(w, a, b);
    RespondPm(w.st, b, 2, 0, 0, ALICE, created);
  }

  lemma AcceptStep(w: World, a: Session, b: Session, created: Room)
    requires Inv(w.st) && Asked(w, a, b) && created !in w.st.rooms
    ensures var op, st' := RespondOp(b, 2, 0, 0, ALICE, created), PmAccept(w.st, a, BOBBY, created).0;
            && Enabled(w, op) && OnlyRoomsOf(w.st, a, b, st')
            && Step(w, op) == w.(st := st'.(pmReqs := st'.pmReqs[BOBBY := []]), phase := w.phase[b := Idle])
  {
    hide Inv, PmAccept, PmAcceptWorks, Respond, OnlyRoomsOf;
    AcceptWorks(w, a, b, created);
    AcceptReply(w, a, b, created);
  }

  lemma MayAnswerAlice(w: World, a: Session, b: Session)
    requires Asked(w, a, b)
    ensures MayAnswer(w.st, b, 2, 0, ALICE)
  {
    assert ALICE != [];
  }

  /** bobby accepts. */
  lemma Accept(w: World, a: Session, b: Session, created: Room)
    requires WorldInv(w) && Asked(w, a, b) && created !in w.st.rooms
    ensures var op := RespondOp(b, 2, 0, 0, ALICE, created);
            && Enabled(w, op) && WorldInv(Step(w, op)) && Step(w, op).granted == w.granted
            && Together(Step(w, op), a, b)
            && OneRoomMore(w.st, created, PmRoomName(ALICE, BOBBY), Step(w, op).st)
  {
    var op := RespondOp(b, 2, 0, 0, ALICE, created);
    hide WorldInv, Inv, PmAccept, Enabled, Step, PmRoomName, OneRoomMore, OnlyRoomsOf, MayEnter;
    Granted(w);
    AcceptStep(w, a, b, created);
    StepKeepsInv(w, op);
    PmAcceptTables(w.st, a, b, created);
    PmAcceptRooms(w.st, a, b, created);
    PmAcceptSeats(w.st, a, b, created);
    var st' := PmAccept(w.st, a, BOBBY, created).0;
    Seats(w, a, b, Step(w, op), st');
    RoomMoreWithTable(w.st, created, PmRoomName(ALICE, BOBBY), st', Step(w, op).st);
  }

  lemma RoomMoreWithTable(st: ChatState, created: Room, name: Bytes, st1: ChatState, st2: ChatState)
    requires OneRoomMore(st, created, name, st1) && st2.rooms == st1.rooms
    ensures OneRoomMore(st, created, name, st2)
  {
  }

  lemma PmAcceptSeats(st: ChatState, requester: Session, responder: Session, created: Room)
    requires Inv(st) && requester in st.sessions && responder in st.sessions && created !in st.rooms
    requires st.sessions[requester].id != 0 && st.sessions[responder].id != 0
    ensures var st' := PmAccept(st, requester, st.sessions[responder].username, created).0;
            && requester in st'.sessions && st'.sessions[requester].room.Some?
            && responder in st'.sessions && st'.sessions[responder].room.Some?
  {
    PmAcceptKeepsInv(st, requester, responder, created);
    var st' := PmAccept(st, requester, st.sessions[responder].username, created).0;
    Open(st');
    hide PmAccept, Inv;
  }

  lemma Seats(w: World, a: Session, b: Session, w': World, st': ChatState)
    requires Asked(w, a, b)
    requires OnlyRoomsOf(w.st, a, b, st') && st'.sessions[a].room.Some? && st'.sessions[b].room.Some?
    requires ALICE in st'.pmReqs && st'.pmReqs[ALICE] == [] && BOBBY in st'.pmReqs && st'.pmReqs[BOBBY] == []
    requires w'.st == st'.(pmReqs := st'.pmReqs[BOBBY := []]) && w'.phase == w.phase[b := Idle]
    ensures Together(w', a, b)
  {
  }

  lemma Talk(w: World, a: Session, b: Session, created: Room)
    requires Together(w, a, b) && WorldInv(w) && created !in w.st.rooms
    ensures Possible(w, TalkOps(a, b, created))
    ensures var w' := After(w, TalkOps(a, b, created));
            && Together(w', a, b) && WorldInv(w') && w'.granted == w.granted
            && OneRoomMore(w.st, created, PmRoomName(ALICE, BOBBY), w'.st)
  {
    var ask, accept := RequestOp(a, 1, 0, BOBBY), RespondOp(b, 2, 0, 0, ALICE, created);
    Texts();
    Ask(w, a, b);
    hide Enabled, Step, WorldInv, Possible, After, ValidUsername, ValidPassword, AllAlnum, PmRoomName;
    var w1 := Step(w, ask);
    Accept(w1, a, b, created);
    OneStep(w, ask);
    OneStep(w1, accept);
    AfterBoth(w, [ask], [accept]);
    SameRoomsMore(w.st, created, PmRoomName(ALICE, BOBBY), w1.st, Step(w1, accept).st);
  }

  lemma SameRoomsMore(st: ChatState, created: Room, name: Bytes, st1: ChatState, st2: ChatState)
    requires st1.rooms == st.rooms && OneRoomMore(st1, created, name, st2)
    ensures OneRoomMore(st, created, name, st2)
  {
  }

  function AllOps(a: Session, b: Session, spare: Room, first: Room, second: Room): seq<Op> {
    ((ArriveOps(a, b, spare) + [JoinOp(b, 2, GENERAL, spare)]) + TalkOps(a, b, first)) + TalkOps(a, b, second)
  }

  lemma Sit(w: World, general: Room, a: Session, b: Session, spare: Room)
    requires Init(w, general) && a != b && spare != general
    ensures var w1, op := Arrived(w, general, a, b), JoinOp(b, 2, GENERAL, spare);
            && Enabled(w1, op) && Together(Step(w1, op), a, b) && NothingOffered(Step(w1, op))
            && Step(w1, op).st.rooms.Keys == {general} && Step(w1, op).granted == 2
  {
    Texts();
    AfterArrival(w, general, a, b);
    hide Init, Arrived, ValidUsername, ValidPassword, AllAlnum, Enabled, Step, Together;
    JoinFirst(Arrived(w, general, a, b), b, general, spare);
    BothSeated(Arrived(w, general, a, b), general, a, b);
  }

  lemma BothSeated(w: World, general: Room, a: Session, b: Session)
    requires a != b && At(w, a, Idle) && At(w, b, Idle) && SessionValid(w.st, a, 1) && SessionValid(w.st, b, 2)
    requires w.st.sessions[a].username == ALICE && w.st.sessions[b].username == BOBBY && ALICE != BOBBY
    requires w.st.sessions[a].room == Some(general) && general in w.st.rooms
    requires w.st.online[ALICE := a][BOBBY := b] == w.st.online && w.st.pmReqs == map[ALICE := []]
    requires w.st.fileReqs == map[ALICE := []]
    ensures Together(WithJoin(w, b, general), a, b) && NothingOffered(WithJoin(w, b, general))
    ensures WithJoin(w, b, general).st.rooms.Keys == w.st.rooms.Keys && WithJoin(w, b, general).granted == w.granted
  {
  }

  /** alice and bobby talk in private twice, and there are two rooms of the same name: the names of rooms
      are not distinct in every reachable state. */
  lemma TwoRoomsOfOneName(w: World, general: Room, a: Session, b: Session, spare: Room, first: Room, second: Room)
    requires Init(w, general) && a != b && spare != general && first != general && second != general && first != second
    ensures var ops := AllOps(a, b, spare, first, second);
            && Possible(w, ops) && After(w, ops).granted < ID_LIMIT
            && first in After(w, ops).st.rooms && second in After(w, ops).st.rooms
            && After(w, ops).st.rooms[first].name == After(w, ops).st.rooms[second].name == PmRoomName(ALICE, BOBBY)
            && !NamesDistinct(After(w, ops).st)
  {
    hide *;
    Arrive(w, general, a, b, spare);
    Sit(w, general, a, b, spare);
    var w1 := Arrived(w, general, a, b);
    var join := JoinOp(b, 2, GENERAL, spare);
    OneStep(w1, join);
    AfterBoth(w, ArriveOps(a, b, spare), [join]);
    var sat := ArriveOps(a, b, spare) + [join];
    var w2 := After(w, sat);
    SatInOrder(w, sat, general);
    Talk(w2, a, b, first);
    AfterBoth(w, sat, TalkOps(a, b, first));
    var w3 := After(w2, TalkOps(a, b, first));
    RoomsOfOneMore(w2.st, first, PmRoomName(ALICE, BOBBY), w3.st);
    Talk(w3, a, b, second);
    AfterBoth(w, sat + TalkOps(a, b, first), TalkOps(a, b, second));
    TwoOfOneName(w3.st, first, second, PmRoomName(ALICE, BOBBY), After(w3, TalkOps(a, b, second)).st);
    OpsOfAll(a, b, spare, first, second);
    FewIds(After(w, AllOps(a, b, spare, first, second)));
  }

  lemma FewIds(w: World)
    requires w.granted == 2
    ensures w.granted < ID_LIMIT
  {
  }

  lemma SatInOrder(w: World, ops: seq<Op>, general: Room)
    requires Init(w, general) && Possible(w, ops) && After(w, ops).granted == 2
    ensures WorldInv(After(w, ops))
  {
    InitEstablishes(w, general);
    hide Init, Possible, After, WorldInv;
    RunKeepsInv(w, ops);
  }

  lemma RoomsOfOneMore(st: ChatState, created: Room, name: Bytes, st': ChatState)
    requires OneRoomMore(st, created, name, st')
    ensures st'.rooms.Keys == st.rooms.Keys + {created} && st'.rooms[created].name == name
  {
  }

  lemma TwoOfOneName(st: ChatState, first: Room, second: Room, name: Bytes, st': ChatState)
    requires first in st.rooms && st.rooms[first].name == name && first != second
    requires OneRoomMore(st, second, name, st')
    ensures first in st'.rooms && second in st'.rooms && st'.rooms[first].name == name && st'.rooms[second].name == name
    ensures !NamesDistinct(st')
  {
    assert first in st'.rooms.Keys && second in st'.rooms.Keys;
    assert st'.rooms[first].name == st'.rooms[second].name;
  }

  lemma OpsOfAll(a: Session, b: Session, spare: Room, first: Room, second: Room)
    ensures AllOps(a, b, spare, first, second)
            == ((ArriveOps(a, b, spare) + [JoinOp(b, 2, GENERAL, spare)]) + TalkOps(a, b, first))
              + TalkOps(a, b, second)
  {
  }

  // ---------------------------------------------------------------- a permission outlives its user

  const CAROL: Bytes := Ascii("carol")

  lemma CarolText()
    ensures ValidUsername(CAROL) && CAROL != ALICE && CAROL != BOBBY && CAROL != Ascii("admin")
  {
    Texts();
    assert CAROL == [99, 97, 114, 111, 108];
    assert ALICE[0] == 97 && BOBBY[0] == 98 && Ascii("admin")[0] == 97;
    hide ValidPassword, AllAlnum;
  }

  function SwitchOps(t: Session, sid: nat, u: Bytes, p: Bytes): seq<Op> {
    [LogoutOp(t, sid)] + ([LoginBeginOp(t)] + ([LoginCredsOp(t, u, p, true)] + [LoginCommitOp(t)]))
  }

  lemma LogOutStep(w: World, t: Session, sid: nat)
    requires At(w, t, Idle) && SessionValid(w.st, t, sid)
    ensures Enabled(w, LogoutOp(t, sid))
    ensures Step(w, LogoutOp(t, sid)) == w.(st := UserLogout(w.st, t), phase := w.phase[t := Idle])
  {
    hide UserLogout;
  }

  lemma BeginStep(w: World, t: Session)
    requires At(w, t, Idle) && t in LoginBegin(w.st, t).sessions
    ensures Enabled(w, LoginBeginOp(t)) && At(Step(w, LoginBeginOp(t)), t, AwaitCreds)
    ensures Step(w, LoginBeginOp(t)) == w.(st := LoginBegin(w.st, t), phase := w.phase[t := AwaitCreds])
  {
    hide LoginBegin;
  }

  lemma CredsStep(w: World, t: Session, u: Bytes, p: Bytes)
    requires At(w, t, AwaitCreds) && ValidUsername(u) && ValidPassword(p)
    ensures Enabled(w, LoginCredsOp(t, u, p, true)) && At(Step(w, LoginCredsOp(t, u, p, true)), t, HaveCreds)
    ensures Step(w, LoginCredsOp(t, u, p, true))
            == w.(st := LoginCreds(w.st, t, u, p, true).st, phase := w.phase[t := HaveCreds])
  {
    hide ValidUsername, ValidPassword;
  }

  lemma CommitStep(w: World, t: Session)
    requires At(w, t, HaveCreds)
    ensures Enabled(w, LoginCommitOp(t))
    ensures var w' := Step(w, LoginCommitOp(t));
            && w'.st == LoginCommit(w.st, t).st && w'.phase == w.phase[t := Idle]
            && w'.accepts == w.accepts && w'.granted <= w.granted + 1
  {
    hide UserLogin, Accepts;
  }

  lemma LogInSteps(w: World, t: Session, u: Bytes, p: Bytes)
    requires At(w, t, Idle) && ValidUsername(u) && ValidPassword(p) && t in LoginBegin(w.st, t).sessions
    ensures Enabled(w, LoginBeginOp(t))
    ensures var w1 := Step(w, LoginBeginOp(t));
            && Enabled(w1, LoginCredsOp(t, u, p, true))
            && (var w2 := Step(w1, LoginCredsOp(t, u, p, true));
                && Enabled(w2, LoginCommitOp(t))
                && (var w3 := Step(w2, LoginCommitOp(t));
                    && w3.st == LoginCommit(LoginCreds(LoginBegin(w.st, t), t, u, p, true).st, t).st
                    && w3.phase == w.phase[t := Idle] && w3.accepts == w.accepts && w3.granted <= w.granted + 1))
  {
    hide Enabled, Step, LoginBegin, LoginCreds, LoginCommit, ValidUsername, ValidPassword, At;
    BeginStep(w, t);
    var w1 := Step(w, LoginBeginOp(t));
    CredsStep(w1, t, u, p);
    CommitStep(Step(w1, LoginCredsOp(t, u, p, true)), t);
    assert w.phase[t := AwaitCreds][t := HaveCreds][t := Idle] == w.phase[t := Idle];
  }

  /** Another user logs in on the connection of t. */
  lemma SwitchUser(w: World, t: Session, sid: nat, u: Bytes, p: Bytes)
    requires Inv(w.st) && At(w, t, Idle) && SessionValid(w.st, t, sid) && ValidUsername(u) && ValidPassword(p)
    ensures Possible(w, SwitchOps(t, sid, u, p))
    ensures var w' := After(w, SwitchOps(t, sid, u, p));
            && w'.st == NextUser(w.st, t, u, p) && w'.phase == w.phase[t := Idle] && w'.accepts == w.accepts
            && w'.granted <= w.granted + 1
  {
    LogOutStep(w, t, sid);
    LogoutKeepsInv(w.st, t);
    LogoutTwice(w.st, t);
    hide Enabled, Step, Possible, After, UserLogout, LoginBegin;
    hide LoginCreds, LoginCommit, ValidUsername, ValidPassword, Inv;
    var w0 := Step(w, LogoutOp(t, sid));
    LogInSteps(w0, t, u, p);
    var w1 := Step(w0, LoginBeginOp(t));
    var w2 := Step(w1, LoginCredsOp(t, u, p, true));
    OneStep(w2, LoginCommitOp(t));
    Chain(w1, LoginCredsOp(t, u, p, true), [LoginCommitOp(t)]);
    Chain(w0, LoginBeginOp(t), [LoginCredsOp(t, u, p, true)] + [LoginCommitOp(t)]);
    Chain(w, LogoutOp(t, sid), [LoginBeginOp(t)] + ([LoginCredsOp(t, u, p, true)] + [LoginCommitOp(t)]));
    assert w.phase[t := Idle][t := Idle] == w.phase[t := Idle];
  }

  /** bobby asks alice to take a file, and alice accepts. */
  function OfferOps(a: Session, b: Session, spare: Room): seq<Op> {
    [RequestOp(b, 2, 1, ALICE)] + [RespondOp(a, 1, 1, 0, BOBBY, spare)]
  }

  /** bobby may send alice a file. */
  ghost predicate Allowed(w: World, a: Session, b: Session) {
    && a != b && At(w, a, Idle) && At(w, b, Idle) && SessionValid(w.st, a, 1) && SessionValid(w.st, b, 2)
    && w.st.sessions[b].room.Some? && w.st.sessions[b].username == BOBBY && w.st.sessions[a].allow == BOBBY
    && CAROL !in w.st.online && CAROL !in w.st.creds
  }

  lemma OfferStep(w: World, a: Session, b: Session)
    requires Together(w, a, b) && NothingOffered(w)
    ensures ALICE in w.st.fileReqs
    ensures var op := RequestOp(b, 2, 1, ALICE);
            && Enabled(w, op)
            && Step(w, op) == w.(st := w.st.(fileReqs := w.st.fileReqs[ALICE := BOBBY]), phase := w.phase[b := Idle])
            && Together(Step(w, op), a, b)
  {
    Texts();
    hide RequestText, ValidUsername, ValidPassword, AllAlnum;
  }

  lemma TakeStep(w: World, a: Session, b: Session, spare: Room)
    requires Together(w, a, b) && ALICE in w.st.fileReqs && w.st.fileReqs[ALICE] == BOBBY && spare !in w.st.rooms
    requires CAROL !in w.st.online && CAROL !in w.st.creds && a in w.accepts
    ensures var op := RespondOp(a, 1, 1, 0, BOBBY, spare);
            && Enabled(w, op) && Allowed(Step(w, op), a, b)
            && Step(w, op).granted == w.granted && Step(w, op).accepts == w.accepts[a := w.accepts[a] + 1]
  {
    Texts();
    hide ValidUsername, ValidPassword, AllAlnum, PmAccept;
  }

  lemma Offer(w: World, a: Session, b: Session, spare: Room)
    requires Together(w, a, b) && NothingOffered(w) && spare !in w.st.rooms
    requires CAROL !in w.st.online && CAROL !in w.st.creds && a in w.accepts
    ensures Possible(w, OfferOps(a, b, spare))
    ensures var w' := After(w, OfferOps(a, b, spare));
            && Allowed(w', a, b) && w'.granted == w.granted && w'.accepts == w.accepts[a := w.accepts[a] + 1]
  {
    hide *;
    OfferStep(w, a, b);
    var ask, take := RequestOp(b, 2, 1, ALICE), RespondOp(a, 1, 1, 0, BOBBY, spare);
    var w1 := Step(w, ask);
    TakeStep(w1, a, b, spare);
    OneStep(w, ask);
    OneStep(w1, take);
    AfterBoth(w, [ask], [take]);
    OfferOpsAre(a, b, spare);
  }

  lemma OfferOpsAre(a: Session, b: Session, spare: Room)
    ensures OfferOps(a, b, spare) == [RequestOp(b, 2, 1, ALICE)] + [RespondOp(a, 1, 1, 0, BOBBY, spare)]
  {
  }

  function CarolOps(a: Session, b: Session, spare: Room): seq<Op> {
    ((ArriveOps(a, b, spare) + [JoinOp(b, 2, GENERAL, spare)]) + OfferOps(a, b, spare)) + SwitchOps(a, 1, CAROL, SECRET)
  }

  lemma NoCarol(w: World, general: Room, a: Session, b: Session, spare: Room)
    requires Init(w, general) && a != b && spare != general
    requires Enabled(Arrived(w, general, a, b), JoinOp(b, 2, GENERAL, spare))
    ensures var w2 := Step(Arrived(w, general, a, b), JoinOp(b, 2, GENERAL, spare));
            CAROL !in w2.st.online && CAROL !in w2.st.creds && a in w2.accepts && w2.accepts[a] == 0
  {
    CarolText();
    Texts();
    AfterArrival(w, general, a, b);
    AfterJoin(w, general, a);
    var w1 := Arrived(w, general, a, b);
    JoinFirst(w1, b, general, spare);
    hide ValidUsername, ValidPassword, AllAlnum, Enabled, Step;
  }

  /** bobby may now send carol files, on the word of alice: alice accepted a file of his, logged out, and
      carol logged in on her connection. Carol herself has accepted nothing. */
  lemma CarolInheritsPermission(w: World, general: Room, a: Session, b: Session, spare: Room)
    requires Init(w, general) && a != b && spare != general
    ensures var ops := CarolOps(a, b, spare);
            && Possible(w, ops) && After(w, ops).granted < ID_LIMIT
            && (var st := After(w, ops).st;
                && a in st.sessions && st.sessions[a].username == CAROL && b in st.sessions
                && FileCheck(st, b, 2, CAROL) == Success)
            && a in After(w, ops).accepts && After(w, ops).accepts[a] == 1
  {
    hide *;
    Arrive(w, general, a, b, spare);
    Sit(w, general, a, b, spare);
    NoCarol(w, general, a, b, spare);
    var w1, join := Arrived(w, general, a, b), JoinOp(b, 2, GENERAL, spare);
    OneStep(w1, join);
    AfterBoth(w, ArriveOps(a, b, spare), [join]);
    var sat := ArriveOps(a, b, spare) + [join];
    var w2 := After(w, sat);
    SatInOrder(w, sat, general);
    Offer(w2, a, b, spare);
    AfterBoth(w, sat, OfferOps(a, b, spare));
    var w3 := After(w2, OfferOps(a, b, spare));
    OfferedInOrder(w, sat + OfferOps(a, b, spare), general);
    CarolMayBeSent(w3, a, b);
    AfterBoth(w, sat + OfferOps(a, b, spare), SwitchOps(a, 1, CAROL, SECRET));
    CarolOpsAre(a, b, spare);
    AtMostThree(After(w, CarolOps(a, b, spare)));
  }

  lemma OfferedInOrder(w: World, ops: seq<Op>, general: Room)
    requires Init(w, general) && Possible(w, ops) && After(w, ops).granted == 2
    ensures Inv(After(w, ops).st)
  {
    SatInOrder(w, ops, general);
    Granted(After(w, ops));
  }

  lemma CarolMayBeSent(w: World, a: Session, b: Session)
    requires Inv(w.st) && Allowed(w, a, b) && w.granted == 2
    ensures Possible(w, SwitchOps(a, 1, CAROL, SECRET))
    ensures var w' := After(w, SwitchOps(a, 1, CAROL, SECRET));
            && a in w'.st.sessions && w'.st.sessions[a].username == CAROL && b in w'.st.sessions
            && FileCheck(w'.st, b, 2, CAROL) == Success
            && w'.granted <= 3 && w'.accepts == w.accepts
  {
    CarolText();
    Texts();
    hide Inv, ValidUsername, ValidPassword, AllAlnum, Possible, After, NextUser, FileCheck, SwitchOps;
    SwitchUser(w, a, 1, CAROL, SECRET);
    NextUserState(w.st, a, CAROL, SECRET);
    PermissionOutlivesLogoutExactly(w.st, a, CAROL, SECRET, b, 2);
  }

  lemma CarolOpsAre(a: Session, b: Session, spare: Room)
    ensures CarolOps(a, b, spare)
            == ((ArriveOps(a, b, spare) + [JoinOp(b, 2, GENERAL, spare)]) + OfferOps(a, b, spare))
               + SwitchOps(a, 1, CAROL, SECRET)
  {
  }

  lemma AtMostThree(w: World)
    requires w.granted <= 3
    ensures w.granted < ID_LIMIT
  {
  }
}
