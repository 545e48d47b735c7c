/** The chat server's handlers as functions on the server state, one per critical section, with the
    branches and error answers of the C code. */
module ChatModel {
  import opened ByteStrings
  import opened ChatTypes

  /** sll_remove with the default comparison of the stored pointer: the first match goes. */
  function RemoveFirst(ms: seq<Session>, s: Session): seq<Session> {
    if ms == [] then []
    else if ms[0] == s then ms[1..]
    else [ms[0]] + RemoveFirst(ms[1..], s)
  }

  function WithSession(st: ChatState, s: Session, rec: SessRec): ChatState {
    st.(sessions := st.sessions[s := rec])
  }

  function WithMembers(st: ChatState, r: Room, members: seq<Session>): ChatState {
    if r in st.rooms then st.(rooms := st.rooms[r := st.rooms[r].(members := members)]) else st
  }

  function Members(st: ChatState, r: Room): seq<Session> {
    if r in st.rooms then st.rooms[r].members else []
  }

  // ---------------------------------------------------------------- chat_internal.c

  function UserLeave(st: ChatState, s: Session): ChatState
    requires s in st.sessions
  {
    var rec := st.sessions[s];
    if rec.room.None? then st
    else
      var r := rec.room.value;
      var left := WithMembers(st, r, RemoveFirst(Members(st, r), s));
      WithSession(left, s, rec.(room := None))
      .(pmReqs := st.pmReqs - {rec.username}, fileReqs := st.fileReqs - {rec.username})
  }

  predicate MayEnter(name: Bytes, username: Bytes) {
    var users := SplitAtPlus(name);
    users.Some? ==> username == users.value.0 || username == users.value.1
  }

  /** user_join after p_room was set: the flag tells whether the room accepted the session. */
  function UserJoin(st: ChatState, s: Session): (ChatState, bool)
    requires s in st.sessions && st.sessions[s].room.Some?
  {
    var rec := st.sessions[s];
    var r := rec.room.value;
    if r in st.rooms && !MayEnter(st.rooms[r].name, rec.username) then (st, false)
    else
      var joined := WithMembers(st, r, Members(st, r) + [s]);
      (joined.(pmReqs := st.pmReqs[rec.username := []], fileReqs := st.fileReqs[rec.username := []]), true)
  }

  function UserLogout(st: ChatState, s: Session): ChatState
    requires s in st.sessions
  {
    var left := UserLeave(st, s);
    var rec := left.sessions[s];
    var gone := if rec.username != [] && rec.id != 0 then left.(online := left.online - {rec.username}) else left;
    WithSession(gone, s, rec.(username := [], password := [], id := 0))
  }

  /** The second half of a login: the new state and the session id, 0 for a refusal. */
  function UserLogin(st: ChatState, s: Session): (ChatState, nat)
    requires s in st.sessions
  {
    var rec := st.sessions[s];
    if rec.username in st.creds && st.creds[rec.username] != rec.password then (st, 0)
    else
      var known := if rec.username in st.creds then st
                   else st.(creds := st.creds[rec.username := rec.password]);
      if rec.username in st.online then (known, 0)
      else (known.(online := st.online[rec.username := s], nextId := (st.nextId + 1) % ID_LIMIT), st.nextId)
  }

  function SessionGet(st: ChatState, username: Bytes): Option<Session> {
    if username in st.online then Some(st.online[username]) else None
  }

  // ---------------------------------------------------------------- helpers of the handlers

  predicate SessionValid(st: ChatState, s: Session, sid: nat)
    requires s in st.sessions
  {
    st.sessions[s].id != 0 && sid == st.sessions[s].id
  }

  function Refused(st: ChatState, ret: Retcode): Reply { Reply(st, ret, [], true) }

  /** Both paths of opcode_login end by storing the id in the session. */
  function SetId(st: ChatState, s: Session, id: nat): ChatState
    requires s in st.sessions
  {
    WithSession(st, s, st.sessions[s].(id := id))
  }

  /** msg_send_room: the sessions a broadcast reaches, after the skip filter. */
  function Reached(st: ChatState, r: Room, ms: seq<Session>): seq<Session> {
    if ms == [] then []
    else
      var rest := Reached(st, r, ms[1..]);
      if ms[0] !in st.sessions || st.sessions[ms[0]].id == 0 || st.sessions[ms[0]].username == []
         || st.sessions[ms[0]].room != Some(r)
      then rest else [ms[0]] + rest
  }

  function Frames(to: seq<Session>, flag: MsgFlag, payload: Bytes): seq<Frame> {
    seq(|to|, i requires 0 <= i < |to| => Frame(to[i], flag, payload))
  }

  function Broadcast(st: ChatState, r: Room, flag: MsgFlag, payload: Bytes): seq<Frame> {
    Frames(Reached(st, r, Members(st, r)), flag, payload)
  }

  /** sll_get and sll_remove on the room store with compare_room: the first room of that name. */
  function FindRoom(st: ChatState, store: seq<Room>, name: Bytes): Option<Room> {
    if store == [] then None
    else if store[0] in st.rooms && st.rooms[store[0]].name == name then Some(store[0])
    else FindRoom(st, store[1..], name)
  }

  function DropRoom(store: seq<Room>, r: Room): seq<Room> {
    if store == [] then [] else if store[0] == r then store[1..] else [store[0]] + DropRoom(store[1..], r)
  }

  function AddRoom(st: ChatState, r: Room, name: Bytes): ChatState {
    st.(rooms := st.rooms[r := RoomRec(name, [])], store := st.store + [r])
  }

  /** user_leave, then p_room set, then user_join: every change of room in the server. */
  function MoveTo(st: ChatState, s: Session, r: Room): (ChatState, bool)
    requires s in st.sessions
  {
    var left := UserLeave(st, s);
    UserJoin(WithSession(left, s, left.sessions[s].(room := Some(r))), s)
  }

  // ---------------------------------------------------------------- chat_auth.c

  function LoginBegin(st: ChatState, s: Session): ChatState
    requires s in st.sessions
  {
    UserLogout(st, s)
  }

  /** login_recv_creds: the sizes are stored even when the request does not fit the packet. */
  function LoginCreds(st: ChatState, s: Session, u: Bytes, p: Bytes, fits: bool): Reply
    requires s in st.sessions
  {
    var read := WithSession(st, s, st.sessions[s].(username := u, password := p));
    if !fits then Reply(SetId(read, s, 0), Overflow, [], true)
    else if !(ValidUsername(u) && ValidPassword(p)) then Reply(SetId(read, s, 0), Failure, [], true)
    else Reply(read, Success, [], true)
  }

  function LoginCommit(st: ChatState, s: Session): Reply
    requires s in st.sessions
  {
    var (st', id) := UserLogin(st, s);
    Reply(SetId(st', s, id), if id == 0 then Failure else Success, [], true)
  }

  function Logout(st: ChatState, s: Session, sid: nat): Reply
    requires s in st.sessions
  {
    if !SessionValid(st, s, sid) then Refused(st, SessionError)
    else Reply(UserLogout(st, s), Success, [], true)
  }

  // ---------------------------------------------------------------- chat_msg.c, chat_room.c

  function MsgSend(st: ChatState, s: Session, sid: nat, msg: Bytes): Reply
    requires s in st.sessions
  {
    if !SessionValid(st, s, sid) then Refused(st, SessionError)
    else if st.sessions[s].room.None? then Refused(st, Failure)
    else Reply(st, Success, Broadcast(st, st.sessions[s].room.value, MSG, msg), true)
  }

  /** One LIST packet per room of the store, in order. */
  function RoomNames(st: ChatState, s: Session, store: seq<Room>): seq<Frame> {
    if store == [] then []
    else
      var first := if store[0] in st.rooms then [Frame(s, LIST, st.rooms[store[0]].name)] else [];
      first + RoomNames(st, s, store[1..])
  }

  /** One LIST packet per member, in order. */
  function UserNames(st: ChatState, s: Session, ms: seq<Session>): seq<Frame> {
    if ms == [] then []
    else
      var first := if ms[0] in st.sessions then [Frame(s, LIST, st.sessions[ms[0]].username)] else [];
      first + UserNames(st, s, ms[1..])
  }

  /** LIST_FLAG_ROOM is 0, LIST_FLAG_USER is 1, anything else is an error. */
  function List(st: ChatState, s: Session, sid: nat, flag: Byte): Reply
    requires s in st.sessions
  {
    if !SessionValid(st, s, sid) then Refused(st, SessionError)
    else if flag == 0 then Reply(st, Success, RoomNames(st, s, st.store), true)
    else if flag == 1 && st.sessions[s].room.Some? then
      Reply(st, Success, UserNames(st, s, Members(st, st.sessions[s].room.value)), true)
    else Refused(st, Failure)
  }

  /** The room opcode_join enters: the first of that name, or the one room_create allocates. */
  function RoomFor(st: ChatState, name: Bytes, created: Room): (ChatState, Room) {
    var found := FindRoom(st, st.store, name);
    if found.Some? then (st, found.value) else (AddRoom(st, created, name), created)
  }

  /** created is the object room_create allocates when no room has the name. */
  function Join(st: ChatState, s: Session, sid: nat, name: Bytes, created: Room): Reply
    requires s in st.sessions
  {
    if !SessionValid(st, s, sid) then Refused(st, SessionError)
    else if !AllAlnum(name) then Refused(st, Failure)
    else
      var (st1, r) := RoomFor(st, name, created);
      var (st2, ok) := MoveTo(st1, s, r);
      Reply(st2, if ok then Success else Failure, [], ok)
  }

  // ---------------------------------------------------------------- chat_transfer.c

  datatype ReqKind = PmKind | FileKind

  /** REQ_FLAG_TYPE_PM is 0, REQ_FLAG_TYPE_FILE is 1, anything else is an error. */
  function KindOf(flag: Byte): Option<ReqKind> {
    if flag == 0 then Some(PmKind) else if flag == 1 then Some(FileKind) else None
  }

  function Table(st: ChatState, kind: ReqKind): map<Bytes, Bytes> {
    if kind.PmKind? then st.pmReqs else st.fileReqs
  }

  function WithTable(st: ChatState, kind: ReqKind, table: map<Bytes, Bytes>): ChatState {
    if kind.PmKind? then st.(pmReqs := table) else st.(fileReqs := table)
  }

  /** The username whose request is pending at username, if any: an empty value is no request. */
  function PendingAt(st: ChatState, kind: ReqKind, username: Bytes): Option<Bytes> {
    var table := Table(st, kind);
    if username in table && table[username] != [] then Some(table[username]) else None
  }

  function RequestText(kind: ReqKind, from: Bytes): Bytes {
    (if kind.PmKind? then Ascii("PM request received from ")
     else Ascii("File transfer request received from ")) + from
  }

  function DeclineText(kind: ReqKind, who: Bytes): Bytes {
    (if kind.PmKind? then Ascii("PM request declined by ")
     else Ascii("File transfer request declined by ")) + who
  }

  function Request(st: ChatState, s: Session, sid: nat, flag: Byte, username: Bytes): Reply
    requires s in st.sessions
  {
    if !SessionValid(st, s, sid) then Refused(st, SessionError)
    else if st.sessions[s].room.None? then Refused(st, Failure)
    else
      var target := SessionGet(st, username);
      if target.None? || target.value !in st.sessions then Refused(st, Failure)
      else if KindOf(flag).None? then Reply(st, Failure, [], false)
      else
        var kind, name := KindOf(flag).value, st.sessions[target.value].username;
        var from := st.sessions[s].username;
        if PendingAt(st, kind, name).Some? then Refused(st, Pending)
        else Reply(WithTable(st, kind, Table(st, kind)[name := from]), Success,
                   [Frame(target.value, NOTIF, RequestText(kind, from))], true)
  }

  /** The name respond_pm_accept builds: memcmp on the common length decides the order. */
  function PmRoomName(requester: Bytes, responder: Bytes): Bytes {
    if MemCmp(requester, responder, Min(|requester|, |responder|)) > 0
    then JoinWithPlus(responder, requester)
    else JoinWithPlus(requester, responder)
  }

  /** The second half of respond_pm_accept: fetch the responder's session and move it too. */
  function PmSecond(st: ChatState, responder: Bytes, room: Room, name: Bytes): (ChatState, seq<Frame>, bool) {
    var target := SessionGet(st, responder);
    if target.None? || target.value !in st.sessions then (st, [], false)
    else (MoveTo(st, target.value, room).0, [Frame(target.value, JOIN, name)], true)
  }

  /** respond_pm_accept: create the room, move the requester, then the responder. */
  function PmAccept(st: ChatState, requester: Session, responder: Bytes, created: Room): (ChatState, seq<Frame>, bool)
    requires requester in st.sessions
  {
    var name := PmRoomName(st.sessions[requester].username, responder);
    var st1 := MoveTo(AddRoom(st, created, name), requester, created).0;
    var (st2, out, ok) := PmSecond(st1, responder, created, name);
    (st2, [Frame(requester, JOIN, name)] + out, ok)
  }

  /** set_response on a request that is pending at s and names target. */
  function Decide(st: ChatState, s: Session, target: Session, kind: ReqKind, choice: Byte, created: Room): Reply
    requires s in st.sessions && target in st.sessions
  {
    var me, from := st.sessions[s].username, st.sessions[target].username;
    if choice == 1 then
      Reply(WithTable(st, kind, Table(st, kind)[me := []]), Success,
            Frames([s, target], NOTIF, DeclineText(kind, me)), true)
    else if kind.PmKind? then
      var (st1, out, ok) := PmAccept(st, target, me, created);
      if !ok then Reply(st1, Failure, out, false)
      else Reply(st1.(pmReqs := st1.pmReqs[me := []]), Success, out, true)
    else
      var allowed := WithSession(st, s, st.sessions[s].(allow := from));
      Reply(allowed.(fileReqs := allowed.fileReqs[me := []]), Success, [], true)
  }

  function Respond(st: ChatState, s: Session, sid: nat, flag: Byte, choice: Byte, username: Bytes, created: Room): Reply
    requires s in st.sessions
  {
    if !SessionValid(st, s, sid) then Refused(st, SessionError)
    else if st.sessions[s].room.None? then Refused(st, Failure)
    else
      var target := SessionGet(st, username);
      if target.None? || target.value !in st.sessions then Refused(st, Failure)
      else if KindOf(flag).None? then Reply(st, Failure, [], false)
      else
        var kind := KindOf(flag).value;
        if PendingAt(st, kind, st.sessions[s].username) != Some(st.sessions[target.value].username)
        then Refused(st, NotPending)
        else Decide(st, s, target.value, kind, choice, created)
  }

  /** opcode_file_send up to the relay: Success means that the relay to the target starts. */
  function FileCheck(st: ChatState, s: Session, sid: nat, username: Bytes): Retcode
    requires s in st.sessions
  {
    if !SessionValid(st, s, sid) then SessionError
    else if st.sessions[s].room.None? then Failure
    else
      var target := SessionGet(st, username);
      if target.None? || target.value !in st.sessions then Failure
      else if st.sessions[target.value].allow != st.sessions[s].username then Unallowed
      else Success
  }

  /** opcode_file_send after the relay: a successful one uses up the target's permission. */
  function FileDone(st: ChatState, target: Session, relayed: bool): Reply
    requires target in st.sessions
  {
    if relayed then Reply(WithSession(st, target, st.sessions[target].(allow := [])), Success, [], true)
    else Reply(st, Failure, [], false)
  }

  // ---------------------------------------------------------------- chat_admin.c

  predicate IsAdmin(st: ChatState, s: Session)
    requires s in st.sessions
  {
    st.sessions[s].username in st.admins
  }

  function Promote(st: ChatState, s: Session, sid: nat, username: Bytes): Reply
    requires s in st.sessions
  {
    if !SessionValid(st, s, sid) then Refused(st, SessionError)
    else if !IsAdmin(st, s) then Refused(st, Unauthorized)
    else if username in st.admins then Refused(st, Failure)
    else
      var target := SessionGet(st, username);
      Reply(st.(admins := st.admins + {username}), Success,
            if target.Some? then [Frame(target.value, NOTIF, Ascii("You are now an admin"))] else [], true)
  }

  /** The session that an opcode_disconnect would log out, if it gets that far. */
  function DisconnectTarget(st: ChatState, s: Session, sid: nat, username: Bytes): Option<Session>
    requires s in st.sessions
  {
    if !SessionValid(st, s, sid) || !IsAdmin(st, s) then None
    else
      var target := SessionGet(st, username);
      if target.Some? && target.value in st.sessions then target else None
  }

  function RemoveSession(st: ChatState, s: Session): ChatState { st.(sessions := st.sessions - {s}) }

  /** chat_client_free. */
  function ClientFree(st: ChatState, s: Session): ChatState
    requires s in st.sessions
  {
    RemoveSession(UserLogout(st, s), s)
  }

  function Disconnect(st: ChatState, s: Session, sid: nat, username: Bytes): Reply
    requires s in st.sessions
  {
    var target := DisconnectTarget(st, s, sid, username);
    if !SessionValid(st, s, sid) then Refused(st, SessionError)
    else if !IsAdmin(st, s) then Refused(st, Unauthorized)
    else if target.None? then Refused(st, Failure)
    else
      var out := [Frame(target.value, NOTIF, Ascii("Disconnected by an admin"))];
      var gone := UserLogout(st, target.value);
      if target.value == s then Reply(gone, Success, out, false)
      else Reply(ClientFree(gone, target.value), Success, out, true)
  }

  /** The loop of opcode_delete over the members, in list order. */
  function LeaveAll(st: ChatState, ms: seq<Session>): ChatState
    decreases |ms|
  {
    if ms == [] then st
    else LeaveAll(if ms[0] in st.sessions then UserLeave(st, ms[0]) else st, ms[1..])
  }

  /** Empty the first room of the name, then remove and destroy the first room of the name. */
  function DeleteRoom(st: ChatState, r: Room, name: Bytes): ChatState {
    var emptied := LeaveAll(st, Members(st, r));
    var victim := FindRoom(emptied, emptied.store, name);
    if victim.None? then emptied
    else emptied.(rooms := emptied.rooms - {victim.value}, store := DropRoom(emptied.store, victim.value))
  }

  function Delete(st: ChatState, s: Session, sid: nat, name: Bytes): Reply
    requires s in st.sessions
  {
    if !SessionValid(st, s, sid) then Refused(st, SessionError)
    else if !IsAdmin(st, s) then Refused(st, Unauthorized)
    else
      var found := FindRoom(st, st.store, name);
      if found.None? then Refused(st, Failure)
      else Reply(DeleteRoom(st, found.value, name), Success,
                 Broadcast(st, found.value, NOTIF, Ascii("Current room deleted by admin"))
                 + Broadcast(st, found.value, JOIN, []), true)
  }

  // ---------------------------------------------------------------- start

  /** appdata_create: the seeded credentials, administrator and room. */
  predicate InitState(st: ChatState, general: Room) {
    && st.sessions == map[] && st.online == map[] && st.pmReqs == map[] && st.fileReqs == map[]
    && st.creds == map[Ascii("admin") := Ascii("password")]
    && st.admins == {Ascii("admin")}
    && st.rooms == map[general := RoomRec(Ascii("general"), [])]
    && st.store == [general]
    && st.nextId == 1
  }

  /** chat_client_init. */
  function ClientInit(st: ChatState, s: Session): ChatState {
    WithSession(st, s, SessRec([], [], 0, None, []))
  }
}
