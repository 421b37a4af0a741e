/** Values shared by the signalling relay and the REST handlers: identifiers,
    the per-room stream status, the per-user role record, the state of one
    WebSocket connection, the messages the relay sends, HTTP replies, and
    JavaScript's `Set` modelled as a sequence without duplicates. */
module Types {

  type RoomId = string
  type UserId = string
  /** The socket id `ws.id`; it also stands for the identity of the socket object. */
  type ConnId = string
  /** A parsed JSON message: its top-level fields, each with a string value. */
  type Message = map<string, string>

  const Broadcaster: string := "broadcaster"
  const Viewer: string := "viewer"
  const DefaultRoom: RoomId := "default"

  datatype Option<T> = None | Some(value: T)

  /** JavaScript truthiness of an optional string field: present and not "". */
  predicate Truthy(v: Option<string>) {
    v.Some? && v.value != ""
  }

  /** `v || fallback` */
  function OrElse(v: Option<string>, fallback: string): string {
    if Truthy(v) then v.value else fallback
  }

  /** A destructuring default `{ x = fallback }`: applies only when the field is absent. */
  function Destructured(v: Option<string>, fallback: string): string {
    if v.Some? then v.value else fallback
  }

  function Field(m: Message, key: string): Option<string> {
    if key in m then Some(m[key]) else None
  }

  predicate ValidRole(role: string) {
    role == Broadcaster || role == Viewer
  }

  /** `streamStatus` entry of a room. Counts are JavaScript numbers, hence `int`. */
  datatype Status = Status(isActive: bool, broadcasterCount: int, viewerCount: int)

  const Idle: Status := Status(false, 0, 0)

  /** `userRoles` entry of a user; `socketId` is null for a user assigned over REST. */
  datatype UserRecord = UserRecord(
    role: string,
    room: RoomId,
    socketId: Option<ConnId>,
    joinedAt: string,
    updatedAt: Option<string>)

  /** The fields the server keeps on a WebSocket (`ws.room`, `ws.role`,
      `ws.userId`) and whether its `readyState` is OPEN. A socket stops being
      OPEN exactly when its close handler runs: the CLOSING state before the
      'close' event is not modelled. */
  datatype Conn = Conn(room: Option<RoomId>, role: string, userId: Option<UserId>, open: bool)

  /** Messages the relay sends. */
  datatype Outgoing =
    | RoleConfirmed(userId: UserId, role: string, room: RoomId)
    | NewPeer(id: ConnId, peerUserId: UserId)
    | Relayed(fields: Message)

  /** One call of `send(ws, data)`. */
  datatype Sent = Sent(to: ConnId, msg: Outgoing)

  function Recipients(sends: seq<Sent>): set<ConnId> {
    set x | x in sends :: x.to
  }

  /** Reasons for a non-200 HTTP reply. */
  datatype ApiError =
    | MissingField              // 400 'userId and role are required'
    | InvalidRole               // 400 'Role must be either "broadcaster" or "viewer"'
    | NotFound                  // 404
    | MethodNotAllowed          // 405
    | Conflict(existing: UserRecord)  // 409, carrying the existing record
    | Internal                  // 500

  datatype Reply<T> = Ok(value: T) | Preflight | Err(error: ApiError)

  /** An HTTP request to a standalone handler: its method and its parsed JSON
      body, `None` when there is no body to destructure. */
  datatype Request<B> = Request(verb: string, body: Option<B>)

  function HttpStatus<T>(reply: Reply<T>): (code: int)
    ensures code == 200 <==> !reply.Err?
    ensures reply.Err? && (reply.error.MissingField? || reply.error.InvalidRole?) <==> code == 400
  {
    match reply
    case Ok(_) => 200
    case Preflight => 200
    case Err(e) =>
      match e
      case MissingField => 400
      case InvalidRole => 400
      case NotFound => 404
      case MethodNotAllowed => 405
      case Conflict(_) => 409
      case Internal => 500
  }

  // JavaScript `Set` as an insertion-ordered sequence without duplicates.

  ghost predicate NoDup<T>(s: seq<T>) {
    forall i, j :: 0 <= i < j < |s| ==> s[i] != s[j]
  }

  /** `set.add(x)`: appends x unless it is already present. */
  function Insert<T(==, !new)>(s: seq<T>, x: T): (r: seq<T>)
    ensures forall y :: y in r <==> y in s || y == x
    ensures NoDup(s) ==> NoDup(r)
    ensures x !in s ==> r == s + [x]
    ensures x in s ==> r == s
  {
    if x in s then s else s + [x]
  }

  /** `set.delete(x)`: keeps every other element, in order. */
  function Delete<T(==, !new)>(s: seq<T>, x: T): (r: seq<T>)
    ensures forall y :: y in r <==> y in s && y != x
    ensures NoDup(s) ==> NoDup(r)
    ensures x !in s ==> r == s
    ensures NoDup(s) ==> forall k :: 0 <= k < |s| && s[k] == x ==> r == s[..k] + s[k + 1..]
    ensures |r| <= |s|
  {
    if |s| == 0 then []
    else
      var rest := Delete(s[1..], x);
      if s[0] == x then
        DropHead(s, rest);
        rest
      else
        KeepHead(s, x, rest);
        [s[0]] + rest
  }

  /** What `Delete` promises of `r`, given that x is the element removed from `s`. */
  ghost predicate Deleted<T(!new)>(s: seq<T>, x: T, r: seq<T>) {
    && (forall y :: y in r <==> y in s && y != x)
    && (NoDup(s) ==> NoDup(r))
    && (x !in s ==> r == s)
    && (NoDup(s) ==> forall k :: 0 <= k < |s| && s[k] == x ==> r == s[..k] + s[k + 1..])
    && |r| <= |s|
  }

  lemma TailNoDup<T>(s: seq<T>)
    requires |s| > 0
    ensures NoDup(s) ==> NoDup(s[1..]) && s[0] !in s[1..]
  {
    if NoDup(s) {
      forall i, j | 0 <= i < j < |s[1..]| ensures s[1..][i] != s[1..][j] {
        assert s[1..][i] == s[i + 1] && s[1..][j] == s[j + 1];
      }
    }
  }

  /** Deleting the head: the result is what deleting it from the tail gave. */
  lemma DropHead<T(!new)>(s: seq<T>, rest: seq<T>)
    requires |s| > 0 && Deleted(s[1..], s[0], rest)
    ensures Deleted(s, s[0], rest)
  {
    var x := s[0];
    assert x in s;
    forall y ensures y in rest <==> y in s && y != x {
      assert y in s <==> y == x || y in s[1..];
    }
    if NoDup(s) {
      TailNoDup(s);
      forall k | 0 <= k < |s| && s[k] == x ensures rest == s[..k] + s[k + 1..] {
        assert k == 0;
        assert s[..0] + s[1..] == s[1..];
      }
    }
  }

  /** Keeping the head: the result is the head before what deleting from the tail gave. */
  lemma KeepHead<T(!new)>(s: seq<T>, x: T, rest: seq<T>)
    requires |s| > 0 && s[0] != x && Deleted(s[1..], x, rest)
    ensures Deleted(s, x, [s[0]] + rest)
  {
    var r := [s[0]] + rest;
    forall y ensures y in r <==> y in s && y != x {
      assert y in s <==> y == s[0] || y in s[1..];
    }
    if x !in s {
      assert x !in s[1..];
      assert s == [s[0]] + s[1..];
    }
    if NoDup(s) {
      TailNoDup(s);
      ConsNoDup(s[0], rest);
      forall k | 0 <= k < |s| && s[k] == x ensures r == s[..k] + s[k + 1..] {
        assert s[1..][k - 1] == x;
        assert s[..k] == [s[0]] + s[1..][..k - 1];
        assert s[k + 1..] == s[1..][k..];
      }
    }
  }

  lemma ConsNoDup<T>(a: T, rest: seq<T>)
    requires a !in rest && NoDup(rest)
    ensures NoDup([a] + rest)
  {
    var s := [a] + rest;
    forall i, j | 0 <= i < j < |s| ensures s[i] != s[j] {
      assert s[j] == rest[j - 1];
      if i > 0 { assert s[i] == rest[i - 1]; }
    }
  }
}
