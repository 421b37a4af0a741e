/** The read-only REST handlers of server.js: the status of one room, the
    list of rooms, the live flag of one room, one user, the users of one
    room and all users. Each reads the relay's maps and changes nothing. */
module Queries {
  import opened Types
  import opened Relay
  import Registry

  // ---------------------------------------------------------------------
  // GET /api/status?room=

  datatype RoomStatus = RoomStatus(room: RoomId, status: Status)

  /** The room defaults to "default" when the query parameter is missing or
      empty; a room without a status reads as idle with zero counts. */
  function StatusOf(s: State, room: Option<string>): (r: RoomStatus)
    ensures !Truthy(room) ==> r.room == DefaultRoom
    ensures Truthy(room) ==> r.room == room.value
    ensures r.room in s.streamStatus ==> r.status == s.streamStatus[r.room]
    ensures r.room !in s.streamStatus ==> r.status == Idle
  {
    var name := OrElse(room, DefaultRoom);
    RoomStatus(name, if name in s.streamStatus then s.streamStatus[name] else Idle)
  }

  /** After start-live the status query reports the room live with the counts
      it had (zero for a room nobody had joined); after stop-live, not live. */
  lemma StatusAfterLiveCalls(s: State, room: RoomId)
    requires Inv(s) && room != ""
    ensures var st := StatusOf(StartLive(s, Some(room)).state, Some(room)).status;
            && st.isActive
            && st.broadcasterCount == StatusOf(s, Some(room)).status.broadcasterCount
            && st.viewerCount == StatusOf(s, Some(room)).status.viewerCount
    ensures !StatusOf(StopLive(s, Some(room)).state, Some(room)).status.isActive
  {
    var t := StartLive(s, Some(room)).state;
    assert t.streamStatus == Registry.StartLive(s.streamStatus, Some(room)).statuses;
    var u := StopLive(s, Some(room)).state;
    assert u.streamStatus == Registry.StopLive(s.streamStatus, Some(room)).statuses;
  }

  // ---------------------------------------------------------------------
  // GET /api/rooms

  /** Every room with a status, with its counts and live flag. */
  datatype RoomList = RoomList(rooms: map<RoomId, Status>, totalRooms: nat)

  function Rooms(s: State): (r: RoomList)
    ensures r.rooms == s.streamStatus
    ensures r.totalRooms == |s.streamStatus|
  {
    RoomList(s.streamStatus, |s.streamStatus|)
  }

  /** Start-live on a room without a status adds one room to the list, even
      though no socket ever joined it; on a listed room the count stays. */
  lemma StartLiveListsRoom(s: State, room: RoomId)
    requires Inv(s)
    ensures var after := Rooms(StartLive(s, Some(room)).state);
            && room in after.rooms
            && after.totalRooms == Rooms(s).totalRooms + (if room in s.streamStatus then 0 else 1)
  {
    var t := StartLive(s, Some(room)).state;
    assert t.streamStatus.Keys == s.streamStatus.Keys + {room};
    if room !in s.streamStatus {
      assert |s.streamStatus.Keys + {room}| == |s.streamStatus.Keys| + 1;
    } else {
      assert s.streamStatus.Keys + {room} == s.streamStatus.Keys;
    }
  }

  // ---------------------------------------------------------------------
  // GET /api/live/:room

  datatype LiveInfo = LiveInfo(room: RoomId, isLive: bool, broadcasterCount: int, viewerCount: int)

  /** 404 exactly for a room without a status; otherwise its flag and counts. */
  function Live(s: State, room: RoomId): (r: Reply<LiveInfo>)
    ensures r.Ok? || r.Err?
    ensures r == Err(NotFound) <==> room !in s.streamStatus
    ensures r.Ok? ==>
              var st := s.streamStatus[room];
              r.value == LiveInfo(room, st.isActive, st.broadcasterCount, st.viewerCount)
  {
    if room in s.streamStatus then
      var st := s.streamStatus[room];
      Ok(LiveInfo(room, st.isActive, st.broadcasterCount, st.viewerCount))
    else Err(NotFound)
  }

  // ---------------------------------------------------------------------
  // GET /api/user/:userId

  datatype UserInfo = UserInfo(userId: UserId, user: UserRecord)

  /** 404 exactly for an id without a record; otherwise the id and its record. */
  function GetUser(s: State, userId: UserId): (r: Reply<UserInfo>)
    ensures r.Ok? || r.Err?
    ensures r == Err(NotFound) <==> userId !in s.userRoles
    ensures r.Ok? ==> r.value == UserInfo(userId, s.userRoles[userId])
  {
    if userId in s.userRoles then Ok(UserInfo(userId, s.userRoles[userId])) else Err(NotFound)
  }

  /** Get-user reads back what assign-role wrote: after a successful
      assign-role the id's record holds the assigned role and room, no
      socket, and the assignment time. */
  lemma GetUserAfterAssign(s: State, body: Registry.AssignBody, now: string)
    requires Inv(s)
    ensures var h := AssignRole(s, body, now);
            h.reply.Ok? ==>
              var a := h.reply.value;
              GetUser(h.state, a.userId) == Ok(UserInfo(a.userId, UserRecord(a.role, a.room, None, now, None)))
  { }

  /** After a successful delete-user the id is unknown to get-user. */
  lemma GetUserAfterDelete(s: State, userId: UserId)
    requires Inv(s)
    ensures DeleteUser(s, userId).reply.Ok? ==> GetUser(DeleteUser(s, userId).state, userId) == Err(NotFound)
  { }

  // ---------------------------------------------------------------------
  // GET /api/room/:room/users

  /** One entry of a room's user list: the id and its record, if any. The
      record can be missing (its socket closed under a shared id, or it was
      deleted) and can name another room (the id later joined elsewhere). */
  datatype Listed = Listed(userId: UserId, user: Option<UserRecord>)

  datatype RoomUsersList = RoomUsersList(room: RoomId, users: seq<Listed>, totalUsers: nat, broadcasters: nat, viewers: nat)

  /** The room's user ids, in the set's order, each with its record. */
  function ListUsers(ids: seq<UserId>, records: map<UserId, UserRecord>): (r: seq<Listed>)
    ensures |r| == |ids|
    ensures forall i :: 0 <= i < |ids| ==> r[i].userId == ids[i]
    ensures forall i :: 0 <= i < |ids| ==> (r[i].user.Some? <==> ids[i] in records)
    ensures forall i :: 0 <= i < |ids| && ids[i] in records ==> r[i].user == Some(records[ids[i]])
  {
    if |ids| == 0 then []
    else [Listed(ids[0], if ids[0] in records then Some(records[ids[0]]) else None)] + ListUsers(ids[1..], records)
  }

  /** An entry that `u.role === role` keeps: one with a record of that role. */
  predicate HasRole(e: Listed, role: string) {
    e.user.Some? && e.user.value.role == role
  }

  /** The positions of the entries the filter keeps. */
  ghost function KeptAt(users: seq<Listed>, role: string): set<int> {
    set i | 0 <= i < |users| && HasRole(users[i], role)
  }

  /** `users.filter(u => u.role === role).length`: the number of entries with
      a record of that role. */
  function CountRole(users: seq<Listed>, role: string): (n: nat)
    ensures n == |KeptAt(users, role)|
    ensures n <= |users|
    ensures n == |users| <==> forall i :: 0 <= i < |users| ==> HasRole(users[i], role)
  {
    if |users| == 0 then
      assert KeptAt(users, role) == {};
      0
    else
      var last := |users| - 1;
      KeptAtSnoc(users, role);
      CountRole(users[..last], role) + (if HasRole(users[last], role) then 1 else 0)
  }

  /** The kept positions of a sequence are those of all but its last entry,
      plus the last position when that entry is kept. */
  lemma KeptAtSnoc(users: seq<Listed>, role: string)
    requires |users| > 0
    ensures var last := |users| - 1;
            && last !in KeptAt(users[..last], role)
            && KeptAt(users, role) == KeptAt(users[..last], role) + (if HasRole(users[last], role) then {last} else {})
  {
    var last := |users| - 1;
    forall i | 0 <= i < last ensures users[..last][i] == users[i] { }
  }

  /** No entry is counted both as a broadcaster and as a viewer, so the two
      filter counts add up to at most the number of entries. */
  lemma {:induction false} RoleCountsBounded(users: seq<Listed>)
    ensures CountRole(users, Broadcaster) + CountRole(users, Viewer) <= |users|
  {
    if |users| > 0 {
      RoleCountsBounded(users[..|users| - 1]);
    }
  }

  /** 404 exactly when the room has no user set; otherwise the set's users in
      order with their records, and the totals. */
  function RoomUsers(s: State, room: RoomId): (r: Reply<RoomUsersList>)
    ensures r.Ok? || r.Err?
    ensures r == Err(NotFound) <==> room !in s.roomUsers
    ensures r.Ok? ==>
              && r.value.room == room
              && |r.value.users| == |s.roomUsers[room]| == r.value.totalUsers
              && (forall i :: 0 <= i < r.value.totalUsers ==> r.value.users[i].userId == s.roomUsers[room][i])
              && r.value.users == ListUsers(s.roomUsers[room], s.userRoles)
              && r.value.broadcasters == CountRole(r.value.users, Broadcaster)
              && r.value.viewers == CountRole(r.value.users, Viewer)
              && r.value.broadcasters + r.value.viewers <= r.value.totalUsers
  {
    if room in s.roomUsers then
      var users := ListUsers(s.roomUsers[room], s.userRoles);
      RoleCountsBounded(users);
      Ok(RoomUsersList(room, users, |users|, CountRole(users, Broadcaster), CountRole(users, Viewer)))
    else Err(NotFound)
  }

  /** Start-live creates a status but no user set: right after it, a room that
      no socket joined is live in the status and live queries and still
      unknown to the room-users query. */
  lemma StartLiveLeavesRoomUnknown(s: State, room: RoomId)
    requires Inv(s) && room !in s.rooms
    ensures var t := StartLive(s, Some(room)).state;
            && Live(t, room).Ok? && Live(t, room).value.isLive
            && RoomUsers(t, room) == Err(NotFound)
  {
    var t := StartLive(s, Some(room)).state;
    assert t.streamStatus == Registry.StartLive(s.streamStatus, Some(room)).statuses;
  }

  // ---------------------------------------------------------------------
  // GET /api/users

  datatype UserList = UserList(users: map<UserId, UserRecord>, totalUsers: nat, broadcasters: nat, viewers: nat)

  ghost function WithRole(records: map<UserId, UserRecord>, role: string): set<UserId> {
    set u | u in records && records[u].role == role
  }

  /** Every record, with the number of records and of broadcaster and
      viewer records. */
  function AllUsers(s: State): (r: UserList)
    ensures r.users == s.userRoles
    ensures r.totalUsers == |s.userRoles|
    ensures r.broadcasters == |WithRole(s.userRoles, Broadcaster)|
    ensures r.viewers == |WithRole(s.userRoles, Viewer)|
    ensures r.broadcasters + r.viewers <= r.totalUsers
  {
    var broadcasters := set u | u in s.userRoles && s.userRoles[u].role == Broadcaster;
    var viewers := set u | u in s.userRoles && s.userRoles[u].role == Viewer;
    RolesPartition(s.userRoles);
    UserList(s.userRoles, |s.userRoles|, |broadcasters|, |viewers|)
  }

  /** The broadcaster and viewer records are disjoint sets of ids, so they
      count no more ids than there are records. */
  lemma RolesPartition(records: map<UserId, UserRecord>)
    ensures |WithRole(records, Broadcaster)| + |WithRole(records, Viewer)| <= |records|
  {
    var b := WithRole(records, Broadcaster);
    var v := WithRole(records, Viewer);
    assert b * v == {};
    assert b + v <= records.Keys;
    SubsetSize(b + v, records.Keys);
  }

  lemma {:induction false} SubsetSize<T>(a: set<T>, b: set<T>)
    requires a <= b
    ensures |a| <= |b|
    decreases b
  {
    if a != {} {
      var x :| x in a;
      SubsetSize(a - {x}, b - {x});
    }
  }
}
