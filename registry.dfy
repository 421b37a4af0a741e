/** The rules that the REST handlers apply to one registry map at a time:
    assign-role and change-role on `userRoles`, start-live and stop-live on
    `streamStatus`. server.js and the standalone handlers under api/ apply the
    same assign-role and start-live rules, each to its own map. */
module Registry {
  import opened Types

  /** The JSON body of an assign-role request. */
  datatype AssignBody = AssignBody(userId: Option<string>, role: Option<string>, room: Option<string>)

  /** The `user` object of a successful assign-role reply. */
  datatype Assigned = Assigned(userId: UserId, role: string, room: RoomId, assignedAt: string)

  datatype AssignOutcome = AssignOutcome(users: map<UserId, UserRecord>, reply: Reply<Assigned>)

  /** Assign-role: the missing-field check, then the role check, then the
      conflict check, then the insertion of a record without a socket. */
  function AssignRole(users: map<UserId, UserRecord>, body: AssignBody, now: string): (o: AssignOutcome)
    ensures o.reply.Ok? || o.reply.Err?
    // validation order: a missing field is reported before a bad role, a bad role before a conflict
    ensures o.reply == Err(MissingField) <==> !Truthy(body.userId) || !Truthy(body.role)
    ensures o.reply == Err(InvalidRole) <==>
              Truthy(body.userId) && Truthy(body.role) && !ValidRole(body.role.value)
    ensures o.reply.Err? && o.reply.error.Conflict? <==>
              Truthy(body.userId) && Truthy(body.role) && ValidRole(body.role.value) && body.userId.value in users
    ensures o.reply.Err? && o.reply.error.Conflict? ==> o.reply.error.existing == users[body.userId.value]
    // a failed request leaves the registry as it was
    ensures o.reply.Err? ==> o.users == users
    // a success adds exactly one key and touches no other
    ensures o.reply.Ok? ==>
              var id := body.userId.value;
              && id !in users
              && o.users.Keys == users.Keys + {id}
              && (forall u :: u in users ==> o.users[u] == users[u])
              && o.users[id] == UserRecord(body.role.value, Destructured(body.room, DefaultRoom), None, now, None)
              && o.reply.value == Assigned(id, body.role.value, o.users[id].room, now)
  {
    if !Truthy(body.userId) || !Truthy(body.role) then AssignOutcome(users, Err(MissingField))
    else if !ValidRole(body.role.value) then AssignOutcome(users, Err(InvalidRole))
    else if body.userId.value in users then AssignOutcome(users, Err(Conflict(users[body.userId.value])))
    else
      var room := Destructured(body.room, DefaultRoom);
      AssignOutcome(users[body.userId.value := UserRecord(body.role.value, room, None, now, None)],
                    Ok(Assigned(body.userId.value, body.role.value, room, now)))
  }

  /** A second assign-role for a user id that the first one registered fails,
      whatever role and room it asks for: with 409 and the first record when
      its role is valid, with 400 otherwise. The registry keeps the first record. */
  lemma SecondAssignFails(users: map<UserId, UserRecord>, first: AssignBody, second: AssignBody, t1: string, t2: string)
    requires AssignRole(users, first, t1).reply.Ok?
    requires second.userId == first.userId
    ensures var o1 := AssignRole(users, first, t1);
            var o2 := AssignRole(o1.users, second, t2);
            && o2.reply.Err?
            && o2.users == o1.users
            && (Truthy(second.role) && ValidRole(second.role.value) ==>
                  o2.reply == Err(Conflict(UserRecord(first.role.value, Destructured(first.room, DefaultRoom), None, t1, None))))
  {
    var o1 := AssignRole(users, first, t1);
    assert first.userId.value in o1.users;
  }

  datatype RoleChanged = RoleChanged(userId: UserId, oldRole: string, user: UserRecord)

  datatype ChangeOutcome = ChangeOutcome(users: map<UserId, UserRecord>, reply: Reply<RoleChanged>)

  /** Change-role: the role check (400) comes before the existence check (404);
      a success rewrites only `role` and `updatedAt` of that one record. */
  function ChangeRole(users: map<UserId, UserRecord>, userId: UserId, role: Option<string>, now: string): (o: ChangeOutcome)
    ensures o.reply.Ok? || o.reply.Err?
    ensures o.reply == Err(InvalidRole) <==> !Truthy(role) || !ValidRole(role.value)
    ensures o.reply == Err(NotFound) <==> Truthy(role) && ValidRole(role.value) && userId !in users
    ensures o.reply.Err? ==> o.users == users
    ensures o.reply.Ok? ==>
              && userId in users
              && o.users.Keys == users.Keys
              && (forall u :: u in users && u != userId ==> o.users[u] == users[u])
              && o.users[userId].role == role.value
              && o.users[userId].updatedAt == Some(now)
              && o.users[userId].room == users[userId].room
              && o.users[userId].socketId == users[userId].socketId
              && o.users[userId].joinedAt == users[userId].joinedAt
              && o.reply.value == RoleChanged(userId, users[userId].role, o.users[userId])
  {
    if !Truthy(role) || !ValidRole(role.value) then ChangeOutcome(users, Err(InvalidRole))
    else if userId !in users then ChangeOutcome(users, Err(NotFound))
    else
      var user := users[userId].(role := role.value, updatedAt := Some(now));
      ChangeOutcome(users[userId := user], Ok(RoleChanged(userId, users[userId].role, user)))
  }

  /** The `room` and `status` fields of a start-live or stop-live reply. */
  datatype LiveReply = LiveReply(room: RoomId, status: Status)

  datatype LiveOutcome = LiveOutcome(statuses: map<RoomId, Status>, reply: Reply<LiveReply>)

  /** Start-live: creates a zeroed status for an unseen room, then sets `isActive`. */
  function StartLive(statuses: map<RoomId, Status>, room: Option<string>): (o: LiveOutcome)
    ensures var r := Destructured(room, DefaultRoom);
            && o.statuses.Keys == statuses.Keys + {r}
            && o.statuses[r].isActive
            && o.statuses[r].broadcasterCount == (if r in statuses then statuses[r].broadcasterCount else 0)
            && o.statuses[r].viewerCount == (if r in statuses then statuses[r].viewerCount else 0)
            && (forall q :: q in statuses && q != r ==> o.statuses[q] == statuses[q])
            && o.reply == Ok(LiveReply(r, o.statuses[r]))
  {
    var r := Destructured(room, DefaultRoom);
    var before := if r in statuses then statuses[r] else Idle;
    var after := before.(isActive := true);
    LiveOutcome(statuses[r := after], Ok(LiveReply(r, after)))
  }

  /** Repeating start-live on a room changes nothing more. */
  lemma StartLiveIdempotent(statuses: map<RoomId, Status>, room: Option<string>)
    ensures var once := StartLive(statuses, room);
            StartLive(once.statuses, room) == once
  {
  }

  /** Stop-live: 404 for a room without a status; otherwise clears `isActive` only. */
  function StopLive(statuses: map<RoomId, Status>, room: Option<string>): (o: LiveOutcome)
    ensures var r := Destructured(room, DefaultRoom);
            && (o.reply == Err(NotFound) <==> r !in statuses)
            && (o.reply.Err? ==> o.statuses == statuses)
            && (o.reply.Ok? ==>
                  && o.statuses.Keys == statuses.Keys
                  && (forall q :: q in statuses && q != r ==> o.statuses[q] == statuses[q])
                  && o.statuses[r] == statuses[r].(isActive := false)
                  && o.reply.value == LiveReply(r, o.statuses[r]))
            && (o.reply.Ok? || o.reply.Err?)
  {
    var r := Destructured(room, DefaultRoom);
    if r in statuses then
      var after := statuses[r].(isActive := false);
      LiveOutcome(statuses[r := after], Ok(LiveReply(r, after)))
    else LiveOutcome(statuses, Err(NotFound))
  }
}
