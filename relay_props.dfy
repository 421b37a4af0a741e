/** What the relay's steps promise: the effect of a join, a relayed message
    and a close, and the counter invariants over any sequence of events. */
module RelayProps {
  import opened Types
  import opened Relay
  import Registry

  /** One handler run of server.js. */
  datatype Event =
    | Connect(c: ConnId)
    | Incoming(c: ConnId, msg: Option<Message>, generated: UserId, now: string)
    | Disconnect(c: ConnId)
    | AssignRoleCall(body: Registry.AssignBody, now: string)
    | ChangeRoleCall(userId: UserId, role: Option<string>, now: string)
    | DeleteUserCall(userId: UserId)
    | StartLiveCall(room: Option<string>)
    | StopLiveCall(room: Option<string>)

  /** A socket is accepted under a fresh id; messages and the close event
      arrive only on an open socket. */
  predicate Enabled(s: State, e: Event) {
    match e
    case Connect(c) => c !in s.conns
    case Incoming(c, _, _, _) => c in s.conns && s.conns[c].open
    case Disconnect(c) => c in s.conns && s.conns[c].open
    case _ => true
  }

  function Apply(s: State, e: Event): (t: State)
    requires Inv(s) && Enabled(s, e)
    ensures Inv(t)
  {
    match e
    case Connect(c) => Accept(s, c)
    case Incoming(c, msg, generated, now) => Receive(s, c, msg, generated, now)
    case Disconnect(c) => Close(s, c)
    case AssignRoleCall(body, now) => AssignRole(s, body, now).state
    case ChangeRoleCall(userId, role, now) => ChangeRole(s, userId, role, now).state
    case DeleteUserCall(userId) => DeleteUser(s, userId).state
    case StartLiveCall(room) => StartLive(s, room).state
    case StopLiveCall(room) => StopLive(s, room).state
  }

  /** Every event of es is enabled when it happens. */
  ghost predicate Trace(s: State, es: seq<Event>)
    requires Inv(s)
    decreases |es|
  {
    |es| == 0 || (Enabled(s, es[0]) && Trace(Apply(s, es[0]), es[1..]))
  }

  function Run(s: State, es: seq<Event>): (t: State)
    requires Inv(s) && Trace(s, es)
    ensures Inv(t)
    decreases |es|
  {
    if |es| == 0 then s else Run(Apply(s, es[0]), es[1..])
  }

  // ---------------------------------------------------------------------
  // Counters: never negative, and live exactly when a broadcaster is counted

  ghost predicate NonNegative(s: State) {
    AllNonNegative(s.streamStatus)
  }

  ghost predicate LiveFlagExact(s: State) {
    LiveExact(s.streamStatus)
  }

  ghost predicate AllNonNegative(m: map<RoomId, Status>) {
    forall r :: r in m ==> m[r].broadcasterCount >= 0 && m[r].viewerCount >= 0
  }

  ghost predicate LiveExact(m: map<RoomId, Status>) {
    forall r :: r in m ==> (m[r].isActive <==> m[r].broadcasterCount > 0)
  }

  ghost predicate CountersSound(st: Status) {
    st.broadcasterCount >= 0 && st.viewerCount >= 0 && (st.isActive <==> st.broadcasterCount > 0)
  }

  /** A join's increment and a close's clamped decrement keep a status sound. */
  lemma BumpDropSound(st: Status, role: string)
    requires CountersSound(st)
    ensures CountersSound(Bump(st, role)) && CountersSound(Drop(st, role))
  {
  }

  predicate IsLiveCall(e: Event) {
    e.StartLiveCall? || e.StopLiveCall?
  }

  ghost predicate AllSound(m: map<RoomId, Status>) {
    forall r :: r in m ==> CountersSound(m[r])
  }

  /** What a join does to `streamStatus`: the joined room, created zeroed if
      it had no socket set, gets the join's increment; nothing else changes. */
  lemma JoinStatus(s: State, c: ConnId, m: Message, generated: UserId, now: string)
    requires Inv(s) && c in s.conns
    ensures var room := JoinRoom(m);
            var base := if room in s.rooms then s.streamStatus[room] else Idle;
            Join(s, c, m, generated, now).streamStatus == s.streamStatus[room := Bump(base, JoinRole(m))]
  {
  }

  /** What a join does to the socket sets: c is added to its room's set,
      created empty if the room had none. */
  lemma JoinRooms(s: State, c: ConnId, m: Message, generated: UserId, now: string)
    requires Inv(s) && c in s.conns
    ensures var room := JoinRoom(m);
            Join(s, c, m, generated, now).rooms == s.rooms[room := Insert(if room in s.rooms then s.rooms[room] else [], c)]
  {
  }

  /** What a join does to the user sets: the user id is added to its room's
      set, created empty if the room had no socket set. */
  lemma JoinUsers(s: State, c: ConnId, m: Message, generated: UserId, now: string)
    requires Inv(s) && c in s.conns
    ensures var room := JoinRoom(m);
            Join(s, c, m, generated, now).roomUsers ==
              s.roomUsers[room := Insert(if room in s.rooms then s.roomUsers[room] else [], JoinUser(m, generated))]
  {
  }

  /** What a close does to `streamStatus`: the decrement of the socket's room,
      if the socket had joined one. */
  lemma CloseStatus(s: State, c: ConnId)
    requires Inv(s) && c in s.conns
    ensures var conn := s.conns[c];
            Close(s, c).streamStatus ==
              if Truthy(conn.room) && Truthy(conn.userId) && conn.room.value in s.rooms
              then s.streamStatus[conn.room.value := Drop(s.streamStatus[conn.room.value], conn.role)]
              else s.streamStatus
  {
  }

  /** What a close does to the socket sets: c leaves its room's set, if it
      had joined one. */
  lemma CloseRooms(s: State, c: ConnId)
    requires Inv(s) && c in s.conns
    ensures var conn := s.conns[c];
            Close(s, c).rooms ==
              if Truthy(conn.room) && Truthy(conn.userId) && conn.room.value in s.rooms
              then s.rooms[conn.room.value := Delete(s.rooms[conn.room.value], c)]
              else s.rooms
  {
  }

  /** A join's increment on one room keeps every status sound. */
  lemma BumpKeepsCounters(m: map<RoomId, Status>, room: RoomId, base: Status, role: string)
    requires AllNonNegative(m) && base.broadcasterCount >= 0 && base.viewerCount >= 0
    ensures AllNonNegative(m[room := Bump(base, role)])
    ensures AllSound(m) && CountersSound(base) ==> AllSound(m[room := Bump(base, role)])
  {
  }

  lemma JoinKeepsCounters(s: State, c: ConnId, m: Message, generated: UserId, now: string)
    requires Inv(s) && c in s.conns && AllNonNegative(s.streamStatus)
    ensures AllNonNegative(Join(s, c, m, generated, now).streamStatus)
    ensures AllSound(s.streamStatus) ==> AllSound(Join(s, c, m, generated, now).streamStatus)
  {
    var room := JoinRoom(m);
    var base := if room in s.rooms then s.streamStatus[room] else Idle;
    JoinStatus(s, c, m, generated, now);
    BumpKeepsCounters(s.streamStatus, room, base, JoinRole(m));
  }

  lemma CloseKeepsCounters(s: State, c: ConnId)
    requires Inv(s) && c in s.conns && AllNonNegative(s.streamStatus)
    ensures AllNonNegative(Close(s, c).streamStatus)
    ensures AllSound(s.streamStatus) ==> AllSound(Close(s, c).streamStatus)
  {
    var conn := s.conns[c];
    CloseStatus(s, c);
    if Truthy(conn.room) && Truthy(conn.userId) && conn.room.value in s.rooms && AllSound(s.streamStatus) {
      BumpDropSound(s.streamStatus[conn.room.value], conn.role);
    }
  }

  /** One step keeps the counts non-negative; every step except start-live
      and stop-live also keeps the live flag equal to "a broadcaster is counted". */
  lemma StepKeepsCounters(s: State, e: Event)
    requires Inv(s) && Enabled(s, e) && NonNegative(s)
    ensures NonNegative(Apply(s, e))
    ensures LiveFlagExact(s) && !IsLiveCall(e) ==> LiveFlagExact(Apply(s, e))
  {
    assert LiveExact(s.streamStatus) ==> AllSound(s.streamStatus);
    match e {
      case Incoming(c, msg, generated, now) =>
        if msg.Some? && IsJoin(msg.value) {
          JoinKeepsCounters(s, c, msg.value, generated, now);
        } else {
          assert Apply(s, e).streamStatus == s.streamStatus;
        }
      case Disconnect(c) =>
        CloseKeepsCounters(s, c);
      case StartLiveCall(room) =>
        assert AllNonNegative(StartLive(s, room).state.streamStatus);
      case StopLiveCall(room) =>
        assert AllNonNegative(StopLive(s, room).state.streamStatus);
      case Connect(c) =>
        assert Apply(s, e).streamStatus == s.streamStatus;
      case AssignRoleCall(body, now) =>
        assert Apply(s, e).streamStatus == s.streamStatus;
      case ChangeRoleCall(userId, role, now) =>
        assert Apply(s, e).streamStatus == s.streamStatus;
      case DeleteUserCall(userId) =>
        assert Apply(s, e).streamStatus == s.streamStatus;
    }
  }

  predicate NoLiveCalls(es: seq<Event>) {
    forall i :: 0 <= i < |es| ==> !IsLiveCall(es[i])
  }

  /** Over any run of the handlers the counts stay non-negative; over a run
      without start-live and stop-live calls the live flag stays exactly
      "broadcaster count > 0". */
  lemma {:induction false} CountersHoldOnTrace(s: State, es: seq<Event>)
    requires Inv(s) && Trace(s, es) && NonNegative(s)
    ensures NonNegative(Run(s, es))
    ensures LiveFlagExact(s) && NoLiveCalls(es) ==> LiveFlagExact(Run(s, es))
    decreases |es|
  {
    if |es| > 0 {
      StepKeepsCounters(s, es[0]);
      var t := Apply(s, es[0]);
      if LiveFlagExact(s) && NoLiveCalls(es) {
        assert !IsLiveCall(es[0]);
        assert NoLiveCalls(es[1..]) by {
          forall i | 0 <= i < |es[1..]| ensures !IsLiveCall(es[1..][i]) {
            assert es[1..][i] == es[i + 1];
          }
        }
      }
      CountersHoldOnTrace(t, es[1..]);
    }
  }

  /** The empty server satisfies both counter invariants. */
  lemma EmptyCountersHold()
    ensures Inv(Empty) && NonNegative(Empty) && LiveFlagExact(Empty)
  {
  }

  /** Start-live on a room nobody joined makes it live with no broadcaster. */
  lemma StartLiveBreaksLiveFlag()
    ensures var t := StartLive(Empty, None).state;
            DefaultRoom in t.streamStatus
            && t.streamStatus[DefaultRoom].isActive
            && t.streamStatus[DefaultRoom].broadcasterCount == 0
            && !LiveFlagExact(t)
  {
    var t := StartLive(Empty, None).state;
    assert t.streamStatus[DefaultRoom] == Status(true, 0, 0);
  }

  /** Stop-live right after a broadcaster's join clears the live flag while
      the broadcaster is still counted. */
  lemma StopLiveBreaksLiveFlag(s: State, c: ConnId, m: Message, generated: UserId, now: string)
    requires Inv(s) && c in s.conns && NonNegative(s) && JoinRole(m) == Broadcaster
    ensures var room := JoinRoom(m);
            var t := StopLive(Join(s, c, m, generated, now), Some(room)).state;
            && room in t.streamStatus
            && !t.streamStatus[room].isActive
            && t.streamStatus[room].broadcasterCount >= 1
            && !LiveFlagExact(t)
  {
    var room := JoinRoom(m);
    var j := Join(s, c, m, generated, now);
    JoinStatus(s, c, m, generated, now);
    assert j.streamStatus[room].broadcasterCount >= 1;
    var t := StopLive(j, Some(room)).state;
    assert t.streamStatus == Registry.StopLive(j.streamStatus, Some(room)).statuses;
  }

  /** Delete-user frees the id: an assign-role for it with a valid role then
      succeeds, where it answered 409 before the delete. */
  lemma DeleteFreesUserId(s: State, userId: UserId, role: string, room: Option<string>, now: string)
    requires Inv(s) && userId in s.userRoles && userId != "" && ValidRole(role)
    ensures var body := Registry.AssignBody(Some(userId), Some(role), room);
            && AssignRole(s, body, now).reply == Err(Conflict(s.userRoles[userId]))
            && DeleteUser(s, userId).reply.Ok?
            && AssignRole(DeleteUser(s, userId).state, body, now).reply.Ok?
  {
  }
}
