/** The server object of server.js: the four process-wide maps, the fields
    kept on each socket and the sends made so far, updated in place by the
    WebSocket handlers and the REST handlers that write. Each handler is
    proved to leave the state that the matching step of Relay computes. */
module Server {
  import opened Types
  import Relay
  import Registry

  class SignalServer {
    var rooms: map<RoomId, seq<ConnId>>
    var streamStatus: map<RoomId, Status>
    var userRoles: map<UserId, UserRecord>
    var roomUsers: map<RoomId, seq<UserId>>
    var conns: map<ConnId, Conn>
    var outbox: seq<Sent>

    function State(): Relay.State
      reads this
    {
      Relay.State(rooms, streamStatus, userRoles, roomUsers, conns, outbox)
    }

    ghost predicate Valid()
      reads this
    {
      Relay.Inv(State())
    }

    constructor()
      ensures State() == Relay.Empty && Valid()
    {
      rooms, streamStatus, userRoles, roomUsers := map[], map[], map[], map[];
      conns, outbox := map[], [];
    }

    /** A new socket: no room, role "viewer", no user id. */
    method Connect(c: ConnId)
      requires Valid() && c !in conns
      modifies this
      ensures State() == Relay.Accept(old(State()), c) && Valid()
    {
      conns := conns[c := Conn(None, Viewer, None, true)];
    }

    /** The `message` handler; `None` is a message that does not parse. */
    method OnMessage(c: ConnId, msg: Option<Message>, generated: UserId, now: string)
      requires Valid() && c in conns
      modifies this
      ensures State() == Relay.Receive(old(State()), c, msg, generated, now) && Valid()
    {
      if msg.None? {
        return;
      }
      var m := msg.value;
      if Relay.IsJoin(m) {
        Join(c, m, generated, now);
      } else {
        Forward(c, m);
      }
    }

    /** A join message: the bookkeeping, the role confirmation to the joiner,
        then for a viewer the new-peer notices to the room's broadcasters. */
    method Join(c: ConnId, m: Message, generated: UserId, now: string)
      requires Valid() && c in conns
      modifies this
      ensures State() == Relay.Join(old(State()), c, m, generated, now)
    {
      ghost var s := State();
      var room := Relay.JoinRoom(m);
      var role := Relay.JoinRole(m);
      var uid := Relay.JoinUser(m, generated);
      Place(c, room, role, uid, now);
      Relay.EnterIs(s, c, room, role, uid, now);
      outbox := outbox + [Sent(c, RoleConfirmed(uid, role, room))];
      if role == Viewer {
        var notices := NewPeerNotices(rooms[room], conns, c, uid);
        outbox := outbox + notices;
      }
    }

    /** The bookkeeping of a join, in the order of server.js: the socket's
        fields, the room's sets and status when it has none, the socket,
        the user's record, the user id, the counters. */
    method Place(c: ConnId, room: RoomId, role: string, uid: UserId, now: string)
      requires Valid() && c in conns
      modifies this
      ensures var created := room !in old(rooms);
              && rooms == old(rooms)[room := Insert(if created then [] else old(rooms)[room], c)]
              && roomUsers == old(roomUsers)[room := Insert(if created then [] else old(roomUsers)[room], uid)]
              && streamStatus == old(streamStatus)[room := Relay.Bump(if created then Idle else old(streamStatus)[room], role)]
      ensures userRoles == old(userRoles)[uid := UserRecord(role, room, Some(c), now, None)]
      ensures conns == old(conns)[c := old(conns)[c].(room := Some(room), role := role, userId := Some(uid))]
      ensures outbox == old(outbox)
    {
      conns := conns[c := conns[c].(room := Some(room), role := role, userId := Some(uid))];
      if room !in rooms {
        OpenRoom(room);
      }
      Enroll(room, c, uid, UserRecord(role, room, Some(c), now, None));
      Count(room, role);
    }

    /** `rooms.get(room).add(ws)`, the user's record, `roomUsers.get(room).add(userId)`. */
    method Enroll(room: RoomId, c: ConnId, uid: UserId, record: UserRecord)
      requires room in rooms && room in roomUsers
      modifies this
      ensures rooms == old(rooms)[room := Insert(old(rooms)[room], c)]
      ensures userRoles == old(userRoles)[uid := record]
      ensures roomUsers == old(roomUsers)[room := Insert(old(roomUsers)[room], uid)]
      ensures streamStatus == old(streamStatus) && conns == old(conns) && outbox == old(outbox)
    {
      rooms := rooms[room := Insert(rooms[room], c)];
      userRoles := userRoles[uid := record];
      roomUsers := roomUsers[room := Insert(roomUsers[room], uid)];
    }

    /** A join's counter update: a broadcaster raises the broadcaster count
        and makes the room live, any other role raises the viewer count. */
    method Count(room: RoomId, role: string)
      requires room in streamStatus
      modifies this
      ensures streamStatus == old(streamStatus)[room := Relay.Bump(old(streamStatus)[room], role)]
      ensures rooms == old(rooms) && conns == old(conns) && userRoles == old(userRoles)
      ensures roomUsers == old(roomUsers) && outbox == old(outbox)
    {
      var status := streamStatus[room];
      if role == Broadcaster {
        status := status.(broadcasterCount := status.broadcasterCount + 1, isActive := true);
      } else {
        status := status.(viewerCount := status.viewerCount + 1);
      }
      streamStatus := streamStatus[room := status];
    }

    /** A room without a socket set gets an empty one, an empty user set and
        a zeroed status, replacing any status start-live created. */
    method OpenRoom(room: RoomId)
      modifies this
      ensures rooms == old(rooms)[room := []]
      ensures streamStatus == old(streamStatus)[room := Idle]
      ensures roomUsers == old(roomUsers)[room := []]
      ensures conns == old(conns) && userRoles == old(userRoles) && outbox == old(outbox)
    {
      rooms := rooms[room := []];
      streamStatus := streamStatus[room := Idle];
      roomUsers := roomUsers[room := []];
    }

    method Forward(c: ConnId, m: Message)
      requires Valid() && c in conns
      modifies this
      ensures State() == Relay.Forward(old(State()), c, m) && Valid()
    {
      var room := conns[c].room;
      if !Truthy(room) {
        return;
      }
      var members := if room.value in rooms then rooms[room.value] else [];
      assert forall x :: x in members ==> x in conns;
      var copies := RelayedCopies(members, conns, c, Relayed(m["from" := c]));
      outbox := outbox + copies;
    }

    /** The `close` handler. */
    method OnClose(c: ConnId)
      requires Valid() && c in conns
      modifies this
      ensures State() == Relay.Close(old(State()), c) && Valid()
    {
      var conn := conns[c];
      conns := conns[c := conn.(open := false)];
      if Truthy(conn.room) && Truthy(conn.userId) {
        var r := conn.room.value;
        var u := conn.userId.value;
        if r in rooms {
          rooms := rooms[r := Delete(rooms[r], c)];
          userRoles := userRoles - {u};
          if r in roomUsers {
            roomUsers := roomUsers[r := Delete(roomUsers[r], u)];
          }
          if r in streamStatus {
            Uncount(r, conn.role);
          }
        }
      }
    }

    /** A close's counter update: the count of the socket's role drops by
        one, clamped at 0, and the room stops being live when no broadcaster
        is left. */
    method Uncount(room: RoomId, role: string)
      requires room in streamStatus
      modifies this
      ensures streamStatus == old(streamStatus)[room := Relay.Drop(old(streamStatus)[room], role)]
      ensures rooms == old(rooms) && conns == old(conns) && userRoles == old(userRoles)
      ensures roomUsers == old(roomUsers) && outbox == old(outbox)
    {
      var status := streamStatus[room];
      if role == Broadcaster {
        status := status.(broadcasterCount := Relay.Max(0, status.broadcasterCount - 1));
        if status.broadcasterCount == 0 {
          status := status.(isActive := false);
        }
      } else {
        status := status.(viewerCount := Relay.Max(0, status.viewerCount - 1));
      }
      streamStatus := streamStatus[room := status];
    }

    /** POST /api/assign-role */
    method AssignRole(body: Registry.AssignBody, now: string) returns (reply: Reply<Registry.Assigned>)
      requires Valid()
      modifies this
      ensures Relay.Handled(State(), reply) == Relay.AssignRole(old(State()), body, now) && Valid()
    {
      if !Truthy(body.userId) || !Truthy(body.role) {
        return Err(MissingField);
      }
      var userId, role := body.userId.value, body.role.value;
      if !ValidRole(role) {
        return Err(InvalidRole);
      }
      if userId in userRoles {
        return Err(Conflict(userRoles[userId]));
      }
      var room := Destructured(body.room, DefaultRoom);
      userRoles := userRoles[userId := UserRecord(role, room, None, now, None)];
      reply := Ok(Registry.Assigned(userId, role, room, now));
    }

    /** PUT /api/user/:userId/role */
    method ChangeRole(userId: UserId, role: Option<string>, now: string) returns (reply: Reply<Registry.RoleChanged>)
      requires Valid()
      modifies this
      ensures Relay.Handled(State(), reply) == Relay.ChangeRole(old(State()), userId, role, now) && Valid()
    {
      if !Truthy(role) || !ValidRole(role.value) {
        return Err(InvalidRole);
      }
      if userId !in userRoles {
        return Err(NotFound);
      }
      var user := userRoles[userId];
      var oldRole := user.role;
      user := user.(role := role.value, updatedAt := Some(now));
      userRoles := userRoles[userId := user];
      reply := Ok(Registry.RoleChanged(userId, oldRole, user));
    }

    /** DELETE /api/user/:userId */
    method DeleteUser(userId: UserId) returns (reply: Reply<Relay.Removed>)
      requires Valid()
      modifies this
      ensures Relay.Handled(State(), reply) == Relay.DeleteUser(old(State()), userId) && Valid()
    {
      if userId !in userRoles {
        return Err(NotFound);
      }
      var user := userRoles[userId];
      if user.room in roomUsers {
        roomUsers := roomUsers[user.room := Delete(roomUsers[user.room], userId)];
      }
      userRoles := userRoles - {userId};
      reply := Ok(Relay.Removed(userId, user));
    }

    /** POST /api/start-live */
    method StartLive(room: Option<string>) returns (reply: Reply<Registry.LiveReply>)
      requires Valid()
      modifies this
      ensures Relay.Handled(State(), reply) == Relay.StartLive(old(State()), room) && Valid()
    {
      var r := Destructured(room, DefaultRoom);
      if r !in streamStatus {
        streamStatus := streamStatus[r := Idle];
      }
      var status := streamStatus[r].(isActive := true);
      streamStatus := streamStatus[r := status];
      reply := Ok(Registry.LiveReply(r, status));
    }

    /** POST /api/stop-live */
    method StopLive(room: Option<string>) returns (reply: Reply<Registry.LiveReply>)
      requires Valid()
      modifies this
      ensures Relay.Handled(State(), reply) == Relay.StopLive(old(State()), room) && Valid()
    {
      var r := Destructured(room, DefaultRoom);
      if r in streamStatus {
        var status := streamStatus[r].(isActive := false);
        streamStatus := streamStatus[r := status];
        reply := Ok(Registry.LiveReply(r, status));
      } else {
        reply := Err(NotFound);
      }
    }
  }

  /** The new-peer notices of a viewer's join, one `send` per broadcaster in
      the room's socket set, in the set's order. */
  method NewPeerNotices(members: seq<ConnId>, conns: map<ConnId, Conn>, joiner: ConnId, uid: UserId) returns (sends: seq<Sent>)
    requires forall x :: x in members ==> x in conns
    ensures sends == Relay.NewPeerSends(members, conns, joiner, uid)
  {
    sends := [];
    var i := 0;
    while i < |members|
      invariant 0 <= i <= |members|
      invariant sends == Relay.NewPeerSends(members[..i], conns, joiner, uid)
    {
      Relay.NewPeerSendsStep(members, conns, joiner, uid, i);
      if conns[members[i]].role == Broadcaster {
        sends := sends + [Sent(members[i], NewPeer(joiner, uid))];
      }
      i := i + 1;
    }
    assert members[..i] == members;
  }

  /** The copies of a signalling message, one `send` per OPEN member of the
      room other than the sender, in the set's order; `copy` is the message
      with `from` set to the sender, built once as `{ ...data, from: ws.id }`
      builds the same value for every member. */
  method RelayedCopies(members: seq<ConnId>, conns: map<ConnId, Conn>, sender: ConnId, copy: Outgoing) returns (sends: seq<Sent>)
    requires forall x :: x in members ==> x in conns
    ensures sends == Relay.ForwardSends(members, conns, sender, copy)
  {
    sends := [];
    var i := 0;
    while i < |members|
      invariant 0 <= i <= |members|
      invariant sends == Relay.ForwardSends(members[..i], conns, sender, copy)
    {
      Relay.ForwardSendsStep(members, conns, sender, copy, i);
      var client := members[i];
      if client != sender && conns[client].open {
        sends := sends + [Sent(client, copy)];
      }
      i := i + 1;
    }
    assert members[..i] == members;
  }
}
