/** The entities of the chat server: sessions and rooms as the objects the handlers update in place,
    and the immutable picture of the whole server state that the specification works on. */
module ChatTypes {
  import opened ByteStrings

  const PLUS: Byte := 43

  const ID_LIMIT: nat := 0x1_0000_0000

  /** session_t. A size field and its buffer are one byte string. */
  class Session {
    var username: Bytes
    var password: Bytes
    var sessionId: nat
    var room: Room?
    var userAllow: Bytes

    constructor ()
      ensures username == [] && password == [] && sessionId == 0 && room == null && userAllow == []
    {
      username, password, sessionId, room, userAllow := [], [], 0, null, [];
    }
  }

  /** room_t. The two users of a private room are split out of the name when it is created. */
  class Room {
    const name: Bytes
    const users: Option<(Bytes, Bytes)>
    var members: seq<Session>

    constructor (name: Bytes)
      ensures this.name == name && users == SplitAtPlus(name) && members == []
    {
      this.name := name;
      this.users := SplitAtPlus(name);
      members := [];
    }
  }

  /** memchr: the position of the first c, or the length when there is none. */
  function IndexOf(name: Bytes, c: Byte): (i: nat)
    ensures i <= |name| && c !in name[..i] && (i < |name| ==> name[i] == c)
  {
    if name == [] || name[0] == c then 0
    else
      var i := 1 + IndexOf(name[1..], c);
      assert name[..i] == [name[0]] + name[1..][..i - 1];
      i
  }

  /** The name parser of room_create: the texts before and after the first plus sign. */
  function SplitAtPlus(name: Bytes): Option<(Bytes, Bytes)> {
    var i := IndexOf(name, PLUS);
    if i == |name| then None else Some((name[..i], name[i + 1..]))
  }

  function JoinWithPlus(user1: Bytes, user2: Bytes): Bytes { user1 + [PLUS] + user2 }

  /** Splitting recovers exactly the two names that were joined. */
  lemma SplitRecoversUsers(user1: Bytes, user2: Bytes)
    requires PLUS !in user1
    ensures SplitAtPlus(JoinWithPlus(user1, user2)) == Some((user1, user2))
  {
    var name := JoinWithPlus(user1, user2);
    var i := IndexOf(name, PLUS);
    assert name[|user1|] == PLUS;
    assert forall j :: 0 <= j < |user1| ==> name[j] == user1[j];
    forall j | 0 <= j < i
      ensures name[j] != PLUS
    {
      assert name[j] == name[..i][j];
    }
    assert name[..|user1|] == user1 && name[|user1| + 1..] == user2;
  }

  lemma SplitOnlyWithPlus(name: Bytes)
    ensures SplitAtPlus(name).None? <==> PLUS !in name
  {
    var i := IndexOf(name, PLUS);
    if i == |name| {
      assert name[..i] == name;
    }
  }

  predicate IsAlnum(c: Byte) { 48 <= c <= 57 || 65 <= c <= 90 || 97 <= c <= 122 }

  predicate IsPrintNoSpace(c: Byte) { 33 <= c <= 126 }

  predicate AllAlnum(name: Bytes) { forall i :: 0 <= i < |name| ==> IsAlnum(name[i]) }

  predicate ValidUsername(u: Bytes) {
    3 <= |u| <= 16 && forall i :: 0 <= i < |u| ==> IsAlnum(u[i]) || u[i] == 95
  }

  predicate ValidPassword(p: Bytes) {
    8 <= |p| <= 128 && forall i :: 0 <= i < |p| ==> IsPrintNoSpace(p[i])
  }

  /** isalnum, and isprint without the space, in the C locale, by character. */
  lemma CharacterClasses(c: char)
    requires c < 256 as char
    ensures IsAlnum(c as int) <==> '0' <= c <= '9' || 'A' <= c <= 'Z' || 'a' <= c <= 'z'
    ensures IsPrintNoSpace(c as int) <==> '!' <= c <= '~'
  {
  }

  // ---------------------------------------------------------------- the state as a value

  datatype SessRec = SessRec(username: Bytes, password: Bytes, id: nat, room: Option<Room>, allow: Bytes)

  datatype RoomRec = RoomRec(name: Bytes, members: seq<Session>)

  /** Everything reachable from appdata_t, and every live session_t. Sessions and rooms appear as
      keys: only their identity is used, their fields are in the records. */
  datatype ChatState = ChatState(
    sessions: map<Session, SessRec>,
    rooms: map<Room, RoomRec>,
    store: seq<Room>,
    creds: map<Bytes, Bytes>,
    admins: set<Bytes>,
    online: map<Bytes, Session>,
    pmReqs: map<Bytes, Bytes>,
    fileReqs: map<Bytes, Bytes>,
    nextId: nat)

  datatype MsgFlag = MSG | NOTIF | LIST | JOIN | FILE

  /** One MSG_RECV packet put on the socket of a session. */
  datatype Frame = Frame(to: Session, flag: MsgFlag, payload: Bytes)

  datatype Retcode =
    | Success | SessionError | Overflow | Pending | NotPending | Unallowed | Unauthorized | Failure

  /** What a handler leaves behind. Unless keep holds, its status makes the server drop the client. */
  datatype Reply = Reply(st: ChatState, ret: Retcode, out: seq<Frame>, keep: bool)
}
