/** The signalling relay of server.js as a state machine over the server's
    process-wide maps. Each event (a socket accepted, a message received, a
    socket closed, a REST call) is one atomic step, because Node runs each
    handler to completion. */
module Relay {
  import opened Types
  import Registry

  /** Everything the relay's handlers read or write. */
  datatype State = State(
    rooms: map<RoomId, seq<ConnId>>,          // room -> Set of sockets
    streamStatus: map<RoomId, Status>,
    userRoles: map<UserId, UserRecord>,
    roomUsers: map<RoomId, seq<UserId>>,      // room -> Set of user ids
    conns: map<ConnId, Conn>,                 // the fields kept on each socket
    outbox: seq<Sent>)                        // every send, in order

  const Empty: State := State(map[], map[], map[], map[], map[], [])

  /** What holds of every state the handlers reach: `rooms`, `streamStatus`
      and `roomUsers` gain a room together on a join (start-live may add a
      status alone), the sets hold no duplicates, room members are known
      sockets, and a socket's room has a socket set. */
  ghost predicate Inv(s: State) {
    && s.rooms.Keys == s.roomUsers.Keys
    && s.rooms.Keys <= s.streamStatus.Keys
    && (forall r :: r in s.rooms ==> NoDup(s.rooms[r]) && NoDup(s.roomUsers[r]))
    && (forall r, c :: r in s.rooms && c in s.rooms[r] ==> c in s.conns)
    && (forall c :: c in s.conns && s.conns[c].room.Some? ==> s.conns[c].room.value in s.rooms)
  }

  /** Whether a message is a join: `data.type === "join"`. */
  predicate IsJoin(m: Message) {
    "type" in m && m["type"] == "join"
  }

  /** Counter update of a join: a broadcaster raises the broadcaster count
      and sets the live flag, any other role raises the viewer count. */
  function Bump(st: Status, role: string): (r: Status)
    ensures role == Broadcaster ==>
              r == Status(true, st.broadcasterCount + 1, st.viewerCount)
    ensures role != Broadcaster ==>
              r == Status(st.isActive, st.broadcasterCount, st.viewerCount + 1)
  {
    if role == Broadcaster then st.(broadcasterCount := st.broadcasterCount + 1, isActive := true)
    else st.(viewerCount := st.viewerCount + 1)
  }

  /** Counter update of a close: the matching count drops by one, clamped at
      0, and the live flag clears when the broadcaster count is then 0. */
  function Drop(st: Status, role: string): (r: Status)
    ensures role == Broadcaster ==>
              && r.broadcasterCount == (if st.broadcasterCount >= 1 then st.broadcasterCount - 1 else 0)
              && r.viewerCount == st.viewerCount
              && r.isActive == (st.isActive && r.broadcasterCount != 0)
    ensures role != Broadcaster ==>
              r == Status(st.isActive, st.broadcasterCount, if st.viewerCount >= 1 then st.viewerCount - 1 else 0)
  {
    if role == Broadcaster then
      var n := Max(0, st.broadcasterCount - 1);
      st.(broadcasterCount := n, isActive := if n == 0 then false else st.isActive)
    else st.(viewerCount := Max(0, st.viewerCount - 1))
  }

  function Max(a: int, b: int): int {
    if a >= b then a else b
  }

  /** No socket is sent two copies. */
  ghost predicate OnePerRecipient(r: seq<Sent>) {
    forall i, j :: 0 <= i < j < |r| ==> r[i].to != r[j].to
  }

  /** The `new-peer` notices of a viewer's join: one per member of the room
      whose role is broadcaster, in the room's order. */
  function NewPeerSends(members: seq<ConnId>, conns: map<ConnId, Conn>, joiner: ConnId, userId: UserId): (r: seq<Sent>)
    requires forall c :: c in members ==> c in conns
    ensures forall x :: x in r ==> x.to in members && conns[x.to].role == Broadcaster && x.msg == NewPeer(joiner, userId)
    ensures forall c :: c in members && conns[c].role == Broadcaster ==> c in Recipients(r)
    ensures NoDup(members) ==> OnePerRecipient(r)
  {
    if |members| == 0 then []
    else
      var init := members[..|members| - 1];
      var last := members[|members| - 1];
      var before := NewPeerSends(init, conns, joiner, userId);
      var step := if conns[last].role == Broadcaster then [Sent(last, NewPeer(joiner, userId))] else [];
      SplitLast(members);
      AppendOne(before, step, init, last);
      before + step
  }

  /** The relayed copies of a signalling message: one `copy` per OPEN member
      of the room other than the sender. */
  function ForwardSends(members: seq<ConnId>, conns: map<ConnId, Conn>, sender: ConnId, copy: Outgoing): (r: seq<Sent>)
    requires forall c :: c in members ==> c in conns
    ensures forall x :: x in r ==> x.to in members && x.to != sender && conns[x.to].open && x.msg == copy
    ensures forall c :: c in members && c != sender && conns[c].open ==> c in Recipients(r)
    ensures NoDup(members) ==> OnePerRecipient(r)
  {
    if |members| == 0 then []
    else
      var init := members[..|members| - 1];
      var last := members[|members| - 1];
      var before := ForwardSends(init, conns, sender, copy);
      var step := if last != sender && conns[last].open then [Sent(last, copy)] else [];
      SplitLast(members);
      AppendOne(before, step, init, last);
      before + step
  }

  /** One more member of the room, in order, adds at most its own notice. */
  lemma NewPeerSendsStep(members: seq<ConnId>, conns: map<ConnId, Conn>, joiner: ConnId, userId: UserId, i: nat)
    requires i < |members| && forall c :: c in members ==> c in conns
    ensures NewPeerSends(members[..i + 1], conns, joiner, userId) ==
              NewPeerSends(members[..i], conns, joiner, userId) +
              (if conns[members[i]].role == Broadcaster then [Sent(members[i], NewPeer(joiner, userId))] else [])
  {
    assert members[..i + 1][..i] == members[..i];
  }

  /** One more member of the room, in order, adds at most its own copy. */
  lemma ForwardSendsStep(members: seq<ConnId>, conns: map<ConnId, Conn>, sender: ConnId, copy: Outgoing, i: nat)
    requires i < |members| && forall c :: c in members ==> c in conns
    ensures ForwardSends(members[..i + 1], conns, sender, copy) ==
              ForwardSends(members[..i], conns, sender, copy) +
              (if members[i] != sender && conns[members[i]].open then [Sent(members[i], copy)] else [])
  {
    assert members[..i + 1][..i] == members[..i];
  }

  lemma SplitLast(members: seq<ConnId>)
    requires |members| > 0
    ensures var init := members[..|members| - 1];
            && members == init + [members[|members| - 1]]
            && (forall c :: c in members <==> c in init || c == members[|members| - 1])
            && (NoDup(members) ==> members[|members| - 1] !in init && NoDup(init))
  {
    var init := members[..|members| - 1];
    assert members == init + [members[|members| - 1]];
    if NoDup(members) {
      assert forall i :: 0 <= i < |init| ==> init[i] == members[i];
    }
  }

  lemma AppendOne(before: seq<Sent>, step: seq<Sent>, init: seq<ConnId>, last: ConnId)
    requires |step| <= 1 && (forall x :: x in step ==> x.to == last)
    requires forall x :: x in before ==> x.to in init
    ensures Recipients(before + step) == Recipients(before) + Recipients(step)
    ensures last !in init && OnePerRecipient(before) ==> OnePerRecipient(before + step)
  {
    assert forall x :: x in before + step <==> x in before || x in step;
    if last !in init && OnePerRecipient(before) {
      var r := before + step;
      forall i, j | 0 <= i < j < |r| ensures r[i].to != r[j].to {
        if j >= |before| {
          assert r[j] in step;
          assert r[i] in before;
        }
      }
    }
  }

  /** A socket accepted: no room, role "viewer", no user id, OPEN. */
  function Accept(s: State, c: ConnId): (t: State)
    requires Inv(s) && c !in s.conns
    ensures Inv(t)
    ensures t.conns == s.conns[c := Conn(None, Viewer, None, true)]
    ensures t == s.(conns := t.conns)
  {
    s.(conns := s.conns[c := Conn(None, Viewer, None, true)])
  }

  /** The room, role and user id a join resolves to. */
  function JoinRoom(m: Message): RoomId { OrElse(Field(m, "room"), DefaultRoom) }
  function JoinRole(m: Message): string { OrElse(Field(m, "role"), Viewer) }
  function JoinUser(m: Message, generated: UserId): UserId { OrElse(Field(m, "userId"), generated) }

  /** The bookkeeping of a join of socket c to `room` as `uid` with `role`:
      a room without a socket set gets a fresh set, user set and zeroed
      status (even when start-live already created a status for it); the
      socket and the user id are added to them; the user's record is
      overwritten; the room's counters are raised. */
  function Enter(s: State, c: ConnId, room: RoomId, role: string, uid: UserId, now: string): (t: State)
    requires Inv(s) && c in s.conns
    ensures room in t.rooms && (forall x :: x in t.rooms[room] ==> x in t.conns) && t.outbox == s.outbox
  {
    var created := room !in s.rooms;
    State(
      s.rooms[room := Insert(if created then [] else s.rooms[room], c)],
      s.streamStatus[room := Bump(if created then Idle else s.streamStatus[room], role)],
      s.userRoles[uid := UserRecord(role, room, Some(c), now, None)],
      s.roomUsers[room := Insert(if created then [] else s.roomUsers[room], uid)],
      s.conns[c := s.conns[c].(room := Some(room), role := role, userId := Some(uid))],
      s.outbox)
  }

  /** A join message on socket c: the bookkeeping, then the role confirmation
      to c, then for a viewer the new-peer notices. */
  function Join(s: State, c: ConnId, m: Message, generated: UserId, now: string): State
    requires Inv(s) && c in s.conns
  {
    var room := JoinRoom(m);
    var role := JoinRole(m);
    var uid := JoinUser(m, generated);
    var t := Enter(s, c, room, role, uid, now);
    var notices := if role == Viewer then NewPeerSends(t.rooms[room], t.conns, c, uid) else [];
    t.(outbox := t.outbox + [Sent(c, RoleConfirmed(uid, role, room))] + notices)
  }

  /** Enter's result written out field by field, for proofs that follow the
      handler's own statements. */
  lemma EnterIs(s: State, c: ConnId, room: RoomId, role: string, uid: UserId, now: string)
    requires Inv(s) && c in s.conns
    ensures var created := room !in s.rooms;
            Enter(s, c, room, role, uid, now) ==
              State(s.rooms[room := Insert(if created then [] else s.rooms[room], c)],
                    s.streamStatus[room := Bump(if created then Idle else s.streamStatus[room], role)],
                    s.userRoles[uid := UserRecord(role, room, Some(c), now, None)],
                    s.roomUsers[room := Insert(if created then [] else s.roomUsers[room], uid)],
                    s.conns[c := s.conns[c].(room := Some(room), role := role, userId := Some(uid))],
                    s.outbox)
  {
  }

  /** A join keeps the invariant. */
  lemma JoinKeepsInv(s: State, c: ConnId, m: Message, generated: UserId, now: string)
    requires Inv(s) && c in s.conns
    ensures Inv(Join(s, c, m, generated, now))
  {
    var room := JoinRoom(m);
    var uid := JoinUser(m, generated);
    var created := room !in s.rooms;
    var t := Enter(s, c, room, JoinRole(m), uid, now);
    PlaceKeepsInv(s, c, room, t.conns, t.rooms[room], t.roomUsers[room], t.streamStatus, t.userRoles, t.outbox);
    assert t == State(s.rooms[room := t.rooms[room]], t.streamStatus, t.userRoles, s.roomUsers[room := t.roomUsers[room]], t.conns, t.outbox);
    var j := Join(s, c, m, generated, now);
    assert j == t.(outbox := j.outbox);
  }

  /** Placing socket c in a room whose socket and user sets are still free of
      duplicates keeps the invariant, whatever the records and the outbox. */
  lemma PlaceKeepsInv(s: State, c: ConnId, room: RoomId, conns: map<ConnId, Conn>,
                      members: seq<ConnId>, users: seq<UserId>, statuses: map<RoomId, Status>,
                      records: map<UserId, UserRecord>, outbox: seq<Sent>)
    requires Inv(s) && c in conns && conns.Keys == s.conns.Keys && conns[c].room == Some(room)
    requires forall x :: x in conns && x != c ==> conns[x] == s.conns[x]
    requires NoDup(members) && NoDup(users) && (forall x :: x in members ==> x in conns)
    requires statuses.Keys == s.streamStatus.Keys + {room}
    ensures Inv(State(s.rooms[room := members], statuses, records, s.roomUsers[room := users], conns, outbox))
  {
  }

  /** Any other message on socket c: relayed to the room if c has joined one,
      as the original fields with `from` set to c's socket id. */
  function Forward(s: State, c: ConnId, m: Message): (t: State)
    requires Inv(s) && c in s.conns
    ensures Inv(t)
    ensures t == s.(outbox := t.outbox)
  {
    var room := s.conns[c].room;
    if Truthy(room) then
      var members := if room.value in s.rooms then s.rooms[room.value] else [];
      s.(outbox := s.outbox + ForwardSends(members, s.conns, c, Relayed(m["from" := c])))
    else s
  }

  /** A message event on an open socket; `None` is a message that does not parse. */
  function Receive(s: State, c: ConnId, msg: Option<Message>, generated: UserId, now: string): (t: State)
    requires Inv(s) && c in s.conns
    ensures Inv(t)
  {
    match msg
    case None => s
    case Some(m) =>
      if IsJoin(m) then JoinKeepsInv(s, c, m, generated, now); Join(s, c, m, generated, now)
      else Forward(s, c, m)
  }

  /** The close event of socket c. */
  function Close(s: State, c: ConnId): (t: State)
    requires Inv(s) && c in s.conns
    ensures Inv(t)
  {
    var conn := s.conns[c];
    var conns := s.conns[c := conn.(open := false)];
    if Truthy(conn.room) && Truthy(conn.userId) && conn.room.value in s.rooms then
      var r := conn.room.value;
      var u := conn.userId.value;
      State(
        s.rooms[r := Delete(s.rooms[r], c)],
        if r in s.streamStatus then s.streamStatus[r := Drop(s.streamStatus[r], conn.role)] else s.streamStatus,
        s.userRoles - {u},
        if r in s.roomUsers then s.roomUsers[r := Delete(s.roomUsers[r], u)] else s.roomUsers,
        conns,
        s.outbox)
    else s.(conns := conns)
  }

  /** A REST handler's new state and reply. */
  datatype Handled<T> = Handled(state: State, reply: Reply<T>)

  function AssignRole(s: State, body: Registry.AssignBody, now: string): (h: Handled<Registry.Assigned>)
    requires Inv(s)
    ensures Inv(h.state)
    ensures h.state == s.(userRoles := h.state.userRoles)
  {
    var o := Registry.AssignRole(s.userRoles, body, now);
    Handled(s.(userRoles := o.users), o.reply)
  }

  function ChangeRole(s: State, userId: UserId, role: Option<string>, now: string): (h: Handled<Registry.RoleChanged>)
    requires Inv(s)
    ensures Inv(h.state)
    ensures h.state == s.(userRoles := h.state.userRoles)
  {
    var o := Registry.ChangeRole(s.userRoles, userId, role, now);
    Handled(s.(userRoles := o.users), o.reply)
  }

  /** The `removedUser` of a successful delete. */
  datatype Removed = Removed(userId: UserId, user: UserRecord)

  /** Delete-user: 404 for an unknown id; otherwise the id leaves `userRoles`
      and the user set of its recorded room; sockets and counters stay. */
  function DeleteUser(s: State, userId: UserId): (h: Handled<Removed>)
    requires Inv(s)
    ensures Inv(h.state)
    ensures h.reply == Err(NotFound) <==> userId !in s.userRoles
    ensures h.reply.Err? ==> h.state == s
    ensures h.reply.Ok? ==>
              var room := s.userRoles[userId].room;
              && h.reply.value == Removed(userId, s.userRoles[userId])
              && h.state.userRoles == s.userRoles - {userId}
              && h.state.roomUsers.Keys == s.roomUsers.Keys
              && (room in s.roomUsers ==>
                    forall u :: u in h.state.roomUsers[room] <==> u in s.roomUsers[room] && u != userId)
              && (forall q :: q in s.roomUsers && q != room ==> h.state.roomUsers[q] == s.roomUsers[q])
              && h.state.rooms == s.rooms && h.state.streamStatus == s.streamStatus
              && h.state.conns == s.conns && h.state.outbox == s.outbox
    ensures h.reply.Ok? || h.reply.Err?
  {
    if userId !in s.userRoles then Handled(s, Err(NotFound))
    else
      var user := s.userRoles[userId];
      var roomUsers := if user.room in s.roomUsers then s.roomUsers[user.room := Delete(s.roomUsers[user.room], userId)] else s.roomUsers;
      Handled(s.(roomUsers := roomUsers, userRoles := s.userRoles - {userId}), Ok(Removed(userId, user)))
  }

  function StartLive(s: State, room: Option<string>): (h: Handled<Registry.LiveReply>)
    requires Inv(s)
    ensures Inv(h.state)
    ensures h.state == s.(streamStatus := h.state.streamStatus)
  {
    var o := Registry.StartLive(s.streamStatus, room);
    Handled(s.(streamStatus := o.statuses), o.reply)
  }

  function StopLive(s: State, room: Option<string>): (h: Handled<Registry.LiveReply>)
    requires Inv(s)
    ensures Inv(h.state)
    ensures h.state == s.(streamStatus := h.state.streamStatus)
  {
    var o := Registry.StopLive(s.streamStatus, room);
    Handled(s.(streamStatus := o.statuses), o.reply)
  }
}
