/** The room counters against the room's socket set. When every socket joins
    at most once (and with a non-empty user id), each room's broadcaster and
    viewer counts equal the number of broadcaster and non-broadcaster sockets
    in its set, and the set holds exactly the open sockets (those whose
    close handler has not run) that joined the room. A socket that joins twice breaks this: see RepeatJoinDrifts. */
module Membership {
  import opened Types
  import opened Relay
  import opened RelayProps

  /** Whether socket c counts as a broadcaster (or, with `broadcaster` false, as a viewer). */
  predicate Counted(conns: map<ConnId, Conn>, c: ConnId, broadcaster: bool) {
    c in conns && (conns[c].role == Broadcaster) == broadcaster
  }

  /** How many members count as broadcasters (or viewers). */
  function Tally(members: seq<ConnId>, conns: map<ConnId, Conn>, broadcaster: bool): (n: nat)
    ensures n <= |members|
  {
    if |members| == 0 then 0
    else (if Counted(conns, members[0], broadcaster) then 1 else 0) + Tally(members[1..], conns, broadcaster)
  }

  lemma {:induction false} TallyAppend(members: seq<ConnId>, c: ConnId, conns: map<ConnId, Conn>, broadcaster: bool)
    ensures Tally(members + [c], conns, broadcaster) ==
            Tally(members, conns, broadcaster) + (if Counted(conns, c, broadcaster) then 1 else 0)
    decreases |members|
  {
    if |members| > 0 {
      assert (members + [c])[1..] == members[1..] + [c];
      TallyAppend(members[1..], c, conns, broadcaster);
    }
  }

  /** Removing a member from a set without duplicates takes it out of the tally. */
  lemma {:induction false} TallyDelete(members: seq<ConnId>, c: ConnId, conns: map<ConnId, Conn>, broadcaster: bool)
    requires NoDup(members) && c in members
    ensures Tally(Delete(members, c), conns, broadcaster) ==
            Tally(members, conns, broadcaster) - (if Counted(conns, c, broadcaster) then 1 else 0)
    decreases |members|
  {
    assert NoDup(members[1..]) by {
      forall i, j | 0 <= i < j < |members[1..]| ensures members[1..][i] != members[1..][j] {
        assert members[1..][i] == members[i + 1] && members[1..][j] == members[j + 1];
      }
    }
    if members[0] == c {
      assert c !in members[1..];
      assert Delete(members[1..], c) == members[1..];
    } else {
      TallyDelete(members[1..], c, conns, broadcaster);
    }
  }

  /** The tally reads only the members' own roles. */
  lemma {:induction false} TallyFrame(members: seq<ConnId>, conns: map<ConnId, Conn>, conns': map<ConnId, Conn>, broadcaster: bool)
    requires forall x :: x in members ==> Counted(conns, x, broadcaster) == Counted(conns', x, broadcaster)
    ensures Tally(members, conns, broadcaster) == Tally(members, conns', broadcaster)
    decreases |members|
  {
    if |members| > 0 {
      assert forall x :: x in members[1..] ==> x in members;
      TallyFrame(members[1..], conns, conns', broadcaster);
    }
  }

  /** The socket sets agree with the sockets' own fields: a member is an open
      socket (its close handler has not run) that joined this room, and an
      open socket that joined a room (with a non-empty user id) is a member
      of it. */
  ghost predicate PlacedIn(rooms: map<RoomId, seq<ConnId>>, conns: map<ConnId, Conn>) {
    && (forall r, c :: r in rooms && c in rooms[r] ==>
          c in conns && conns[c].open && conns[c].room == Some(r))
    && (forall c :: c in conns && conns[c].open && conns[c].room.Some? ==>
          && Truthy(conns[c].room) && Truthy(conns[c].userId)
          && conns[c].room.value in rooms && c in rooms[conns[c].room.value])
  }

  /** Each room's counters equal the tallies of its socket set. */
  ghost predicate CountsIn(rooms: map<RoomId, seq<ConnId>>, statuses: map<RoomId, Status>, conns: map<ConnId, Conn>) {
    forall r :: r in rooms ==>
      && r in statuses
      && statuses[r].broadcasterCount == Tally(rooms[r], conns, true)
      && statuses[r].viewerCount == Tally(rooms[r], conns, false)
  }

  ghost predicate Placed(s: State) {
    PlacedIn(s.rooms, s.conns)
  }

  ghost predicate CountsMatch(s: State) {
    CountsIn(s.rooms, s.streamStatus, s.conns)
  }

  /** An event that keeps sockets to one join each: a join only on a socket
      that has not joined before, and resolving to a non-empty user id. */
  predicate SingleJoin(s: State, e: Event) {
    e.Incoming? && e.c in s.conns && e.msg.Some? && IsJoin(e.msg.value) ==>
      s.conns[e.c].room.None? && JoinUser(e.msg.value, e.generated) != ""
  }

  ghost predicate SingleJoins(s: State, es: seq<Event>)
    requires Inv(s) && Trace(s, es)
    decreases |es|
  {
    |es| == 0 || (SingleJoin(s, es[0]) && SingleJoins(Apply(s, es[0]), es[1..]))
  }

  /** Changing one socket that is in no set leaves every tally as it was. */
  lemma OutsiderFrame(rooms: map<RoomId, seq<ConnId>>, conns: map<ConnId, Conn>, c: ConnId, conn: Conn, r: RoomId)
    requires r in rooms && c !in rooms[r]
    ensures Tally(rooms[r], conns[c := conn], true) == Tally(rooms[r], conns, true)
    ensures Tally(rooms[r], conns[c := conn], false) == Tally(rooms[r], conns, false)
  {
    TallyFrame(rooms[r], conns, conns[c := conn], true);
    TallyFrame(rooms[r], conns, conns[c := conn], false);
  }

  lemma AcceptKeepsCounts(s: State, c: ConnId)
    requires Inv(s) && c !in s.conns && Placed(s) && CountsMatch(s)
    ensures Placed(Accept(s, c)) && CountsMatch(Accept(s, c))
  {
    AcceptCore(s.rooms, s.streamStatus, s.conns, c);
  }

  /** A new socket is in no set and has joined no room. */
  lemma AcceptCore(rooms: map<RoomId, seq<ConnId>>, statuses: map<RoomId, Status>, conns: map<ConnId, Conn>, c: ConnId)
    requires c !in conns && PlacedIn(rooms, conns) && CountsIn(rooms, statuses, conns)
    ensures var conns' := conns[c := Conn(None, Viewer, None, true)];
            PlacedIn(rooms, conns') && CountsIn(rooms, statuses, conns')
  {
    forall r | r in rooms
      ensures Tally(rooms[r], conns[c := Conn(None, Viewer, None, true)], true) == Tally(rooms[r], conns, true)
      ensures Tally(rooms[r], conns[c := Conn(None, Viewer, None, true)], false) == Tally(rooms[r], conns, false)
    {
      OutsiderFrame(rooms, conns, c, Conn(None, Viewer, None, true), r);
    }
  }

  /** A first join adds the socket to one set and its role to that room's counts. */
  lemma JoinCore(rooms: map<RoomId, seq<ConnId>>, statuses: map<RoomId, Status>, conns: map<ConnId, Conn>,
                 c: ConnId, room: RoomId, role: string, uid: UserId)
    requires c in conns && conns[c].open && conns[c].room.None? && room != "" && uid != ""
    requires PlacedIn(rooms, conns) && CountsIn(rooms, statuses, conns)
    ensures var base := if room in rooms then rooms[room] else [];
            var before := if room in rooms then statuses[room] else Idle;
            var conns' := conns[c := conns[c].(room := Some(room), role := role, userId := Some(uid))];
            var rooms' := rooms[room := Insert(base, c)];
            PlacedIn(rooms', conns') && CountsIn(rooms', statuses[room := Bump(before, role)], conns')
  {
    JoinPlaced(rooms, conns, c, room, role, uid);
    JoinCounts(rooms, statuses, conns, c, room, role, uid);
  }

  lemma JoinPlaced(rooms: map<RoomId, seq<ConnId>>, conns: map<ConnId, Conn>,
                   c: ConnId, room: RoomId, role: string, uid: UserId)
    requires c in conns && conns[c].open && conns[c].room.None? && room != "" && uid != ""
    requires PlacedIn(rooms, conns)
    ensures var base := if room in rooms then rooms[room] else [];
            PlacedIn(rooms[room := Insert(base, c)],
                     conns[c := conns[c].(room := Some(room), role := role, userId := Some(uid))])
  {
  }

  lemma JoinCounts(rooms: map<RoomId, seq<ConnId>>, statuses: map<RoomId, Status>, conns: map<ConnId, Conn>,
                   c: ConnId, room: RoomId, role: string, uid: UserId)
    requires c in conns && conns[c].room.None?
    requires PlacedIn(rooms, conns) && CountsIn(rooms, statuses, conns)
    ensures var base := if room in rooms then rooms[room] else [];
            var before := if room in rooms then statuses[room] else Idle;
            CountsIn(rooms[room := Insert(base, c)], statuses[room := Bump(before, role)],
                     conns[c := conns[c].(room := Some(room), role := role, userId := Some(uid))])
  {
    var base := if room in rooms then rooms[room] else [];
    var before := if room in rooms then statuses[room] else Idle;
    var conn := conns[c].(room := Some(room), role := role, userId := Some(uid));
    var conns' := conns[c := conn];
    assert c !in base;
    var rooms' := rooms[room := base + [c]];
    var statuses' := statuses[room := Bump(before, role)];
    forall r | r in rooms'
      ensures r in statuses'
      ensures statuses'[r].broadcasterCount == Tally(rooms'[r], conns', true)
      ensures statuses'[r].viewerCount == Tally(rooms'[r], conns', false)
    {
      if r == room {
        TallyFrame(base, conns, conns', true);
        TallyFrame(base, conns, conns', false);
        TallyAppend(base, c, conns', true);
        TallyAppend(base, c, conns', false);
      } else {
        OutsiderFrame(rooms, conns, c, conn, r);
      }
    }
  }

  /** A close takes the socket out of its set and its role out of the counts. */
  lemma CloseCore(rooms: map<RoomId, seq<ConnId>>, statuses: map<RoomId, Status>, conns: map<ConnId, Conn>, c: ConnId)
    requires c in conns && conns[c].open && conns[c].room.Some?
    requires forall r :: r in rooms ==> NoDup(rooms[r])
    requires PlacedIn(rooms, conns) && CountsIn(rooms, statuses, conns)
    ensures var r := conns[c].room.value;
            && r in rooms && r in statuses
            && var conns' := conns[c := conns[c].(open := false)];
               var rooms' := rooms[r := Delete(rooms[r], c)];
               PlacedIn(rooms', conns') && CountsIn(rooms', statuses[r := Drop(statuses[r], conns[c].role)], conns')
  {
    ClosePlaced(rooms, conns, c);
    CloseCounts(rooms, statuses, conns, c);
  }

  lemma ClosePlaced(rooms: map<RoomId, seq<ConnId>>, conns: map<ConnId, Conn>, c: ConnId)
    requires c in conns && conns[c].open && conns[c].room.Some?
    requires PlacedIn(rooms, conns)
    ensures var r := conns[c].room.value;
            && r in rooms
            && PlacedIn(rooms[r := Delete(rooms[r], c)], conns[c := conns[c].(open := false)])
  {
  }

  lemma CloseCounts(rooms: map<RoomId, seq<ConnId>>, statuses: map<RoomId, Status>, conns: map<ConnId, Conn>, c: ConnId)
    requires c in conns && conns[c].open && conns[c].room.Some?
    requires forall r :: r in rooms ==> NoDup(rooms[r])
    requires PlacedIn(rooms, conns) && CountsIn(rooms, statuses, conns)
    ensures var r := conns[c].room.value;
            && r in rooms && r in statuses
            && CountsIn(rooms[r := Delete(rooms[r], c)], statuses[r := Drop(statuses[r], conns[c].role)],
                        conns[c := conns[c].(open := false)])
  {
    var r := conns[c].room.value;
    var conn := conns[c].(open := false);
    var conns' := conns[c := conn];
    var rooms' := rooms[r := Delete(rooms[r], c)];
    var statuses' := statuses[r := Drop(statuses[r], conns[c].role)];
    assert c in rooms[r];
    forall q | q in rooms'
      ensures q in statuses'
      ensures statuses'[q].broadcasterCount == Tally(rooms'[q], conns', true)
      ensures statuses'[q].viewerCount == Tally(rooms'[q], conns', false)
    {
      if q == r {
        TallyFrame(Delete(rooms[r], c), conns, conns', true);
        TallyFrame(Delete(rooms[r], c), conns, conns', false);
        TallyDelete(rooms[r], c, conns, true);
        TallyDelete(rooms[r], c, conns, false);
      } else {
        OutsiderFrame(rooms, conns, c, conn, q);
      }
    }
  }

  /** A close of a socket that never joined only marks it closed. */
  lemma CloseUnjoinedCore(rooms: map<RoomId, seq<ConnId>>, statuses: map<RoomId, Status>, conns: map<ConnId, Conn>, c: ConnId)
    requires c in conns && conns[c].room.None?
    requires PlacedIn(rooms, conns) && CountsIn(rooms, statuses, conns)
    ensures var conns' := conns[c := conns[c].(open := false)];
            PlacedIn(rooms, conns') && CountsIn(rooms, statuses, conns')
  {
    var conn := conns[c].(open := false);
    forall q | q in rooms
      ensures Tally(rooms[q], conns[c := conn], true) == Tally(rooms[q], conns, true)
      ensures Tally(rooms[q], conns[c := conn], false) == Tally(rooms[q], conns, false)
    {
      OutsiderFrame(rooms, conns, c, conn, q);
    }
  }

  lemma JoinShape(s: State, c: ConnId, m: Message, generated: UserId, now: string)
    requires Inv(s) && c in s.conns
    ensures var t := Join(s, c, m, generated, now);
            var room := JoinRoom(m);
            && room != ""
            && t.rooms == s.rooms[room := Insert(if room in s.rooms then s.rooms[room] else [], c)]
            && t.conns == s.conns[c := s.conns[c].(room := Some(room), role := JoinRole(m), userId := Some(JoinUser(m, generated)))]
            && t.streamStatus == s.streamStatus[room := Bump(if room in s.rooms then s.streamStatus[room] else Idle, JoinRole(m))]
  {
    JoinRooms(s, c, m, generated, now);
    JoinStatus(s, c, m, generated, now);
  }

  lemma CloseShape(s: State, c: ConnId)
    requires Inv(s) && c in s.conns
    ensures var t := Close(s, c);
            var conn := s.conns[c];
            && t.conns == s.conns[c := conn.(open := false)]
            && (Truthy(conn.room) && Truthy(conn.userId) && conn.room.value in s.rooms ==>
                  && t.rooms == s.rooms[conn.room.value := Delete(s.rooms[conn.room.value], c)]
                  && t.streamStatus == s.streamStatus[conn.room.value := Drop(s.streamStatus[conn.room.value], conn.role)])
            && (!(Truthy(conn.room) && Truthy(conn.userId) && conn.room.value in s.rooms) ==>
                  t.rooms == s.rooms && t.streamStatus == s.streamStatus)
  {
  }

  lemma JoinKeepsCounts(s: State, c: ConnId, m: Message, generated: UserId, now: string)
    requires Inv(s) && c in s.conns && s.conns[c].open && s.conns[c].room.None?
    requires JoinUser(m, generated) != ""
    requires Placed(s) && CountsMatch(s)
    ensures Placed(Join(s, c, m, generated, now)) && CountsMatch(Join(s, c, m, generated, now))
  {
    JoinShape(s, c, m, generated, now);
    JoinCore(s.rooms, s.streamStatus, s.conns, c, JoinRoom(m), JoinRole(m), JoinUser(m, generated));
  }

  lemma CloseKeepsCounts(s: State, c: ConnId)
    requires Inv(s) && c in s.conns && s.conns[c].open
    requires Placed(s) && CountsMatch(s)
    ensures Placed(Close(s, c)) && CountsMatch(Close(s, c))
  {
    CloseShape(s, c);
    if s.conns[c].room.Some? {
      CloseCore(s.rooms, s.streamStatus, s.conns, c);
    } else {
      CloseUnjoinedCore(s.rooms, s.streamStatus, s.conns, c);
    }
  }

  lemma StepKeepsCounts(s: State, e: Event)
    requires Inv(s) && Enabled(s, e) && SingleJoin(s, e)
    requires Placed(s) && CountsMatch(s)
    ensures Placed(Apply(s, e)) && CountsMatch(Apply(s, e))
  {
    match e {
      case Connect(c) => AcceptKeepsCounts(s, c);
      case Incoming(c, msg, generated, now) =>
        if msg.Some? && IsJoin(msg.value) {
          JoinKeepsCounts(s, c, msg.value, generated, now);
        }
      case Disconnect(c) => CloseKeepsCounts(s, c);
      case AssignRoleCall(body, now) =>
      case ChangeRoleCall(userId, role, now) =>
      case DeleteUserCall(userId) =>
      case StartLiveCall(room) =>
      case StopLiveCall(room) =>
    }
  }

  /** Over any run in which every socket joins at most once, with a non-empty
      user id, each room's counts equal the tallies of its socket set, and the
      set holds exactly the open sockets that joined the room. Start-live and
      stop-live do not disturb this: they write only the live flag. */
  lemma {:induction false} CountsTrackMembers(s: State, es: seq<Event>)
    requires Inv(s) && Trace(s, es) && SingleJoins(s, es)
    requires Placed(s) && CountsMatch(s)
    ensures Placed(Run(s, es)) && CountsMatch(Run(s, es))
    decreases |es|
  {
    if |es| > 0 {
      StepKeepsCounts(s, es[0]);
      CountsTrackMembers(Apply(s, es[0]), es[1..]);
    }
  }
}
