/** What one WebSocket event does to the relay's state and what it sends:
    the join (defaults, lazily created room, overwritten record, role
    confirmation, new-peer notices), the relayed signalling message, and the
    close; and two runs that show the counters drifting from the sockets. */
module RelayEffects {
  import opened Types
  import opened Relay
  import RelayProps

  /** The broadcasters among a room's sockets. */
  ghost function BroadcastersIn(members: seq<ConnId>, conns: map<ConnId, Conn>): set<ConnId>
    requires forall x :: x in members ==> x in conns
  {
    set x | x in members && conns[x].role == Broadcaster
  }

  /** The sockets a signalling message from c is relayed to: the OPEN members
      of c's room other than c itself, and nobody before c has joined a room. */
  ghost function Audience(s: State, c: ConnId): set<ConnId>
    requires Inv(s) && c in s.conns
  {
    var room := s.conns[c].room;
    if Truthy(room) && room.value in s.rooms
    then set x | x in s.rooms[room.value] && x != c && s.conns[x].open
    else {}
  }

  /** A join resolves a missing or empty room to "default", a missing or empty
      role to "viewer" and a missing or empty user id to the generated one,
      keeps them on the socket, and overwrites the user's record with one
      carrying this socket and the join time. */
  lemma JoinRecords(s: State, c: ConnId, m: Message, generated: UserId, now: string)
    requires Inv(s) && c in s.conns
    ensures var t := Join(s, c, m, generated, now);
            var room := JoinRoom(m);
            var role := JoinRole(m);
            var uid := JoinUser(m, generated);
            && room == (if "room" in m && m["room"] != "" then m["room"] else DefaultRoom)
            && role == (if "role" in m && m["role"] != "" then m["role"] else Viewer)
            && uid == (if "userId" in m && m["userId"] != "" then m["userId"] else generated)
            && t.conns == s.conns[c := s.conns[c].(room := Some(room), role := role, userId := Some(uid))]
            && t.userRoles == s.userRoles[uid := UserRecord(role, room, Some(c), now, None)]
  {
  }

  /** A join creates the room's socket set when it has none, adds the socket
      to it, and leaves every other room's socket set as it was. */
  lemma JoinSockets(s: State, c: ConnId, m: Message, generated: UserId, now: string)
    requires Inv(s) && c in s.conns
    ensures var t := Join(s, c, m, generated, now);
            var room := JoinRoom(m);
            && t.rooms.Keys == s.rooms.Keys + {room}
            && (forall x :: x in t.rooms[room] <==> x == c || (room in s.rooms && x in s.rooms[room]))
            && (forall q :: q in s.rooms && q != room ==> t.rooms[q] == s.rooms[q])
  {
    RelayProps.JoinRooms(s, c, m, generated, now);
    AddToSet(s.rooms, JoinRoom(m), c);
  }

  /** A join creates the room's user set alongside its socket set, adds the
      resolved user id to it, and leaves every other room's user set as it was. */
  lemma JoinUserSet(s: State, c: ConnId, m: Message, generated: UserId, now: string)
    requires Inv(s) && c in s.conns
    ensures var t := Join(s, c, m, generated, now);
            var room := JoinRoom(m);
            var uid := JoinUser(m, generated);
            && t.roomUsers.Keys == s.rooms.Keys + {room}
            && (forall u :: u in t.roomUsers[room] <==> u == uid || (room in s.rooms && u in s.roomUsers[room]))
            && (forall q :: q in s.roomUsers && q != room ==> t.roomUsers[q] == s.roomUsers[q])
  {
    var room := JoinRoom(m);
    RelayProps.JoinUsers(s, c, m, generated, now);
    AddToUserSet(s.rooms, s.roomUsers, room, JoinUser(m, generated));
  }

  /** The same for the user sets, which have the socket sets' keys. */
  lemma AddToUserSet(rooms: map<RoomId, seq<ConnId>>, sets: map<RoomId, seq<UserId>>, room: RoomId, x: UserId)
    requires rooms.Keys == sets.Keys
    ensures var t := sets[room := Insert(if room in rooms then sets[room] else [], x)];
            && t.Keys == rooms.Keys + {room}
            && (forall y :: y in t[room] <==> y == x || (room in rooms && y in sets[room]))
            && (forall q :: q in sets && q != room ==> t[q] == sets[q])
  {
  }

  /** `map.get(room).add(x)` after creating the room's set if it was missing. */
  lemma AddToSet<T(!new)>(sets: map<RoomId, seq<T>>, room: RoomId, x: T)
    ensures var t := sets[room := Insert(if room in sets then sets[room] else [], x)];
            && t.Keys == sets.Keys + {room}
            && (forall y :: y in t[room] <==> y == x || (room in sets && y in sets[room]))
            && (forall q :: q in sets && q != room ==> t[q] == sets[q])
  {
  }

  /** A join sends the joiner one role confirmation with the resolved user id,
      role and room and then, for a viewer only, one new-peer notice to each
      broadcaster in the room, never to the joiner itself; earlier sends stay. */
  lemma JoinReplies(s: State, c: ConnId, m: Message, generated: UserId, now: string)
    requires Inv(s) && c in s.conns
    ensures var t := Join(s, c, m, generated, now);
            var room := JoinRoom(m);
            var role := JoinRole(m);
            var uid := JoinUser(m, generated);
            && |t.outbox| > |s.outbox|
            && t.outbox[..|s.outbox|] == s.outbox
            && t.outbox[|s.outbox|] == Sent(c, RoleConfirmed(uid, role, room))
            && var notices := t.outbox[|s.outbox| + 1..];
               && (forall x :: x in notices ==> x.msg == NewPeer(c, uid))
               && Recipients(notices) == (if role == Viewer then BroadcastersIn(t.rooms[room], t.conns) else {})
               && c !in Recipients(notices)
               && OnePerRecipient(notices)
  {
    var t := Join(s, c, m, generated, now);
    var room := JoinRoom(m);
    var role := JoinRole(m);
    var uid := JoinUser(m, generated);
    var members := t.rooms[room];
    var notices := t.outbox[|s.outbox| + 1..];
    assert t.outbox == s.outbox + [Sent(c, RoleConfirmed(uid, role, room))] + notices;
    if role == Viewer {
      assert notices == NewPeerSends(members, t.conns, c, uid);
      assert Recipients(notices) == BroadcastersIn(members, t.conns) by {
        forall x | x in Recipients(notices) ensures x in BroadcastersIn(members, t.conns) {
          var y :| y in notices && y.to == x;
        }
      }
    } else {
      assert notices == [];
    }
  }

  /** Any message other than a join changes only the outbox: each OPEN member
      of the sender's room other than the sender gets exactly one copy, which
      keeps every field of the message except `from`, set to the sender's
      socket id whatever the client put there. A socket that has not joined a
      room relays nothing, and a message that does not parse is dropped. */
  lemma ForwardRelays(s: State, c: ConnId, m: Message, generated: UserId, now: string)
    requires Inv(s) && c in s.conns && !IsJoin(m)
    ensures Receive(s, c, None, generated, now) == s
    ensures var t := Receive(s, c, Some(m), generated, now);
            && |t.outbox| >= |s.outbox|
            && var sent := t.outbox[|s.outbox|..];
               && t == s.(outbox := s.outbox + sent)
               && (!Truthy(s.conns[c].room) ==> sent == [])
               && Recipients(sent) == Audience(s, c)
               && OnePerRecipient(sent)
               && (forall x :: x in sent ==>
                     && x.msg.Relayed?
                     && x.msg.fields.Keys == m.Keys + {"from"}
                     && x.msg.fields["from"] == c
                     && (forall k :: k in m && k != "from" ==> x.msg.fields[k] == m[k]))
  {
    var t := Receive(s, c, Some(m), generated, now);
    assert t == Forward(s, c, m);
    var room := s.conns[c].room;
    if Truthy(room) {
      var members := if room.value in s.rooms then s.rooms[room.value] else [];
      var sent := ForwardSends(members, s.conns, c, Relayed(m["from" := c]));
      assert t.outbox == s.outbox + sent;
      assert t.outbox[|s.outbox|..] == sent;
      assert Recipients(sent) == Audience(s, c) by {
        forall x | x in Recipients(sent) ensures x in Audience(s, c) {
          var y :| y in sent && y.to == x;
        }
      }
    } else {
      assert t.outbox[|s.outbox|..] == [];
    }
  }

  /** A close marks the socket CLOSED and sends nothing. A socket that never
      joined (no room or no user id) changes nothing else. A joined socket
      leaves its room's socket set, its user id leaves `userRoles` and the
      room's user set, and the room's count for its role drops; other rooms
      and the room itself (an emptied set stays) keep their entries. */
  lemma CloseEffects(s: State, c: ConnId)
    requires Inv(s) && c in s.conns
    ensures var t := Close(s, c);
            var conn := s.conns[c];
            && t.conns == s.conns[c := conn.(open := false)]
            && t.outbox == s.outbox
            && (!(Truthy(conn.room) && Truthy(conn.userId)) ==> t == s.(conns := t.conns))
            && (Truthy(conn.room) && Truthy(conn.userId) ==>
                  var r := conn.room.value;
                  var u := conn.userId.value;
                  && t.rooms.Keys == s.rooms.Keys
                  && r in s.rooms
                  && (forall x :: x in t.rooms[r] <==> x in s.rooms[r] && x != c)
                  && t.userRoles == s.userRoles - {u}
                  && (forall v :: v in t.roomUsers[r] <==> v in s.roomUsers[r] && v != u)
                  && t.streamStatus == s.streamStatus[r := Drop(s.streamStatus[r], conn.role)]
                  && (forall q :: q in s.rooms && q != r ==> t.rooms[q] == s.rooms[q] && t.roomUsers[q] == s.roomUsers[q]))
  {
  }

  /** A socket that joins the same new room twice as a broadcaster is added
      to the room's set once but counted twice, so after it closes the room
      has no socket left yet still reads as live with one broadcaster. */
  lemma RepeatJoinDrifts(s: State, c: ConnId, m: Message, g1: UserId, g2: UserId, t1: string, t2: string)
    requires Inv(s) && c in s.conns && IsJoin(m)
    requires JoinRole(m) == Broadcaster && JoinRoom(m) !in s.rooms
    requires g1 != "" && g2 != ""
    ensures var room := JoinRoom(m);
            var s1 := Receive(s, c, Some(m), g1, t1);
            var s2 := Receive(s1, c, Some(m), g2, t2);
            var s3 := Close(s2, c);
            && room in s3.rooms && s3.rooms[room] == []
            && room in s3.streamStatus && s3.streamStatus[room] == Status(true, 1, 0)
  {
    var s1 := Receive(s, c, Some(m), g1, t1);
    assert s1 == Join(s, c, m, g1, t1);
    FirstBroadcasterJoin(s, c, m, g1, t1);
    var s2 := Receive(s1, c, Some(m), g2, t2);
    assert s2 == Join(s1, c, m, g2, t2);
    SecondBroadcasterJoin(s1, c, m, g2, t2);
    LastBroadcasterCloses(s2, c, JoinRoom(m));
  }

  /** The first broadcaster join of a new room leaves the joiner alone in it
      with a live status counting one broadcaster. */
  lemma FirstBroadcasterJoin(s: State, c: ConnId, m: Message, generated: UserId, now: string)
    requires Inv(s) && c in s.conns
    requires JoinRole(m) == Broadcaster && JoinRoom(m) !in s.rooms
    ensures var t := Join(s, c, m, generated, now);
            var room := JoinRoom(m);
            && room in t.rooms && t.rooms[room] == [c]
            && room in t.streamStatus && t.streamStatus[room] == Status(true, 1, 0)
  {
    RelayProps.JoinRooms(s, c, m, generated, now);
    RelayProps.JoinStatus(s, c, m, generated, now);
  }

  /** The same socket joining again as a broadcaster is not added twice but
      is counted again; the socket keeps the room, the role and a user id. */
  lemma SecondBroadcasterJoin(s: State, c: ConnId, m: Message, generated: UserId, now: string)
    requires Inv(s) && c in s.conns
    requires JoinRole(m) == Broadcaster && generated != ""
    requires JoinRoom(m) in s.rooms && s.rooms[JoinRoom(m)] == [c]
    requires s.streamStatus[JoinRoom(m)] == Status(true, 1, 0)
    ensures var t := Join(s, c, m, generated, now);
            var room := JoinRoom(m);
            && room in t.rooms && t.rooms[room] == [c]
            && room in t.streamStatus && t.streamStatus[room] == Status(true, 2, 0)
            && c in t.conns && t.conns[c].room == Some(room) && t.conns[c].role == Broadcaster
            && t.conns[c].userId.Some? && t.conns[c].userId.value != ""
  {
    RelayProps.JoinRooms(s, c, m, generated, now);
    RelayProps.JoinStatus(s, c, m, generated, now);
    JoinRecords(s, c, m, generated, now);
  }

  /** A broadcaster counted twice that closes as the room's only socket
      leaves the room empty and still live with one broadcaster. */
  lemma LastBroadcasterCloses(s: State, c: ConnId, room: RoomId)
    requires Inv(s) && c in s.conns
    requires room != "" && s.conns[c].room == Some(room) && s.conns[c].role == Broadcaster
    requires s.conns[c].userId.Some? && s.conns[c].userId.value != ""
    requires room in s.rooms && s.rooms[room] == [c]
    requires s.streamStatus[room] == Status(true, 2, 0)
    ensures var t := Close(s, c);
            && room in t.rooms && t.rooms[room] == []
            && room in t.streamStatus && t.streamStatus[room] == Status(true, 1, 0)
  {
    RelayProps.CloseStatus(s, c);
    RelayProps.CloseRooms(s, c);
    assert Delete([c], c) == [];
  }

  /** A socket that joins the same new room twice as a viewer is likewise
      counted twice; after it closes the room has no socket left, is not
      live, and still counts one viewer. */
  lemma ViewerRepeatJoinDrifts(s: State, c: ConnId, m: Message, g1: UserId, g2: UserId, t1: string, t2: string)
    requires Inv(s) && c in s.conns && IsJoin(m)
    requires JoinRole(m) == Viewer && JoinRoom(m) !in s.rooms
    requires g1 != "" && g2 != ""
    ensures var room := JoinRoom(m);
            var s1 := Receive(s, c, Some(m), g1, t1);
            var s2 := Receive(s1, c, Some(m), g2, t2);
            var s3 := Close(s2, c);
            && room in s3.rooms && s3.rooms[room] == []
            && room in s3.streamStatus && s3.streamStatus[room] == Status(false, 0, 1)
  {
    var s1 := Receive(s, c, Some(m), g1, t1);
    assert s1 == Join(s, c, m, g1, t1);
    FirstViewerJoin(s, c, m, g1, t1);
    var s2 := Receive(s1, c, Some(m), g2, t2);
    assert s2 == Join(s1, c, m, g2, t2);
    SecondViewerJoin(s1, c, m, g2, t2);
    LastViewerCloses(s2, c, JoinRoom(m));
  }

  /** The first viewer join of a new room leaves the joiner alone in it with
      a status that is not live and counts one viewer. */
  lemma FirstViewerJoin(s: State, c: ConnId, m: Message, generated: UserId, now: string)
    requires Inv(s) && c in s.conns
    requires JoinRole(m) == Viewer && JoinRoom(m) !in s.rooms
    ensures var t := Join(s, c, m, generated, now);
            var room := JoinRoom(m);
            && room in t.rooms && t.rooms[room] == [c]
            && room in t.streamStatus && t.streamStatus[room] == Status(false, 0, 1)
  {
    RelayProps.JoinRooms(s, c, m, generated, now);
    RelayProps.JoinStatus(s, c, m, generated, now);
  }

  /** The same socket joining again as a viewer is not added twice but is
      counted again; the socket keeps the room, the role and a user id. */
  lemma SecondViewerJoin(s: State, c: ConnId, m: Message, generated: UserId, now: string)
    requires Inv(s) && c in s.conns
    requires JoinRole(m) == Viewer && generated != ""
    requires JoinRoom(m) in s.rooms && s.rooms[JoinRoom(m)] == [c]
    requires s.streamStatus[JoinRoom(m)] == Status(false, 0, 1)
    ensures var t := Join(s, c, m, generated, now);
            var room := JoinRoom(m);
            && room in t.rooms && t.rooms[room] == [c]
            && room in t.streamStatus && t.streamStatus[room] == Status(false, 0, 2)
            && c in t.conns && t.conns[c].room == Some(room) && t.conns[c].role == Viewer
            && t.conns[c].userId.Some? && t.conns[c].userId.value != ""
  {
    RelayProps.JoinRooms(s, c, m, generated, now);
    RelayProps.JoinStatus(s, c, m, generated, now);
    JoinRecords(s, c, m, generated, now);
  }

  /** A viewer counted twice that closes as the room's only socket leaves the
      room empty, not live, and still counting one viewer. */
  lemma LastViewerCloses(s: State, c: ConnId, room: RoomId)
    requires Inv(s) && c in s.conns
    requires room != "" && s.conns[c].room == Some(room) && s.conns[c].role == Viewer
    requires s.conns[c].userId.Some? && s.conns[c].userId.value != ""
    requires room in s.rooms && s.rooms[room] == [c]
    requires s.streamStatus[room] == Status(false, 0, 2)
    ensures var t := Close(s, c);
            && room in t.rooms && t.rooms[room] == []
            && room in t.streamStatus && t.streamStatus[room] == Status(false, 0, 1)
  {
    RelayProps.CloseStatus(s, c);
    RelayProps.CloseRooms(s, c);
    assert Delete([c], c) == [];
  }
}
