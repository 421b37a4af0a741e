# Live-streaming signalling relay in Dafny

A model of the in-memory core of a small WebRTC live-streaming server. The
server is a Node program. A WebSocket relay lets a broadcaster and its
viewers find each other and exchange offers, answers and ICE candidates. A
set of REST routes reads and writes the same bookkeeping:

- stream status per room;
- user roles;
- the users of each room.

Two standalone serverless handlers repeat the assign-role and start-live
rules on maps of their own.

Node runs each handler to completion, so every event is one atomic step.
The model has two layers:

- **`Relay` (relay.dfy)** is the pure specification.
  - A value `State` holds the four process-wide maps of server.js:
    - `rooms`: room to its set of sockets;
    - `streamStatus`;
    - `userRoles`;
    - `roomUsers`: room to its set of user ids.
  - It also holds the fields the server keeps on each socket (`conns`) and an `outbox` of every `send`.
  - There is one function per event: `Accept`, `Receive` (join or relayed message), `Close`, and the writing REST routes.
  - A JavaScript `Set` is a sequence without duplicates in insertion order.
  - A message that does not parse is `None`.
  - Timestamps and random ids are parameters.
- **`Server` (server.dfy)** is the server as written: class `SignalServer` with those maps as fields.
  - Its handler methods update the fields step by step in the order of the source.
  - They send inside loops over the room's set.
  - Each method is proved to leave exactly the state the matching `Relay` function computes.
- **`Registry` (registry.dfy)** holds the assign-role, change-role, start-live and stop-live rules on a single map.
  - The server's routes and the standalone handlers (`AssignRoleApi`, `StartLiveApi`, each a class over its own map) share these rules.
- **`Queries` (queries.dfy)** holds the read-only routes.
- **`RelayProps`, `RelayEffects` and `Membership`** state what the steps promise.

The lemmas also pin down behaviour that the code has and that a reader may
not expect:

- A broadcaster that joins the same new room twice is added to its set
  once but counted twice. After it closes, the room has no socket yet reads
  as live with one broadcaster (`RepeatJoinDrifts`). A viewer doing the same
  leaves a room that is not live but still counts one viewer
  (`ViewerRepeatJoinDrifts`).
- Start-live creates a status for a room that no socket joined. Such a room
  is live and listed, but the room-users route still answers 404
  (`StartLiveLeavesRoomUnknown`). The first join to that room resets the
  status to zero.
- Start-live and stop-live are the only steps that break "live exactly when
  a broadcaster is counted" (`CountersHoldOnTrace`, `StartLiveBreaksLiveFlag`,
  `StopLiveBreaksLiveFlag`).
- The counts are proved to equal the tallies of each room's socket set on
  runs where every socket joins at most once (`CountsTrackMembers`).
  `RepeatJoinDrifts` shows a repeat join after which they do not.
- A close removes the user id's record even when another socket later
  joined under the same id. A user record can therefore be missing from
  the room-users listing, or it can name another room.

## Model

| member | source | states |
|---|---|---|
| Types.HttpStatus | api/assign-role.js:10-51 | 200 exactly for a success or the OPTIONS preflight; 400 exactly for a missing field or an invalid role |
| Types.Insert | server.js:50 | `Set.add`: members are the old ones plus x, no duplicates are introduced, a new element goes last, and an element already present leaves the sequence as it was |
| Types.Delete | server.js:105 | `Set.delete`: members are the old ones except x, no duplicates are introduced, deleting an absent element changes nothing, and on a duplicate-free sequence x is cut out of its position with the rest kept in order |
| Registry.AssignRole | server.js:236-285 | 400 iff userId or role is missing or empty; then 400 iff the role is not broadcaster/viewer; then 409 iff the id exists, carrying that record; any error leaves the map unchanged; success adds exactly one key with the role, the room (default "default"), no socket and the time, and changes no other key |
| Registry.SecondAssignFails | api/assign-role.js:43-59 | after a successful assign, a second one for the same id always fails and leaves the map unchanged; with a valid role it is a 409 reporting the first record |
| Registry.ChangeRole | server.js:340-374 | 400 iff the role is missing or invalid; then 404 iff the user is unknown; errors leave the map unchanged; success rewrites only `role` and `updatedAt` of that record and reports the old role |
| Registry.StartLive | server.js:171-188 | the room (default "default") has a status afterwards; it is live with its previous counts, or zero for a new room; no other room changes; the reply carries the new status |
| Registry.StartLiveIdempotent | api/start-live.js:26-31 | a second start-live on the same room leaves the same map and the same reply |
| Registry.StopLive | server.js:190-211 | 404 iff the room has no status, with the map unchanged; otherwise only that room's `isActive` becomes false |
| Relay.Bump | server.js:62-68 | a broadcaster join raises the broadcaster count and makes the room live; any other role raises the viewer count |
| Relay.Drop | server.js:115-125 | a close lowers the count of its role by one, clamped at 0; the room stops being live when the broadcaster count reaches 0 |
| Relay.NewPeerSends | server.js:79-86 | every notice goes to a broadcaster member and names the joiner; every broadcaster member gets one; when the set has no duplicates, nobody gets two |
| Relay.ForwardSends | server.js:91-97 | every copy goes to an OPEN member other than the sender; every such member gets one; when the set has no duplicates, nobody gets two |
| Relay.Accept | server.js:30-34 | a new socket has no room, role "viewer", no user id and is OPEN; nothing else changes; the invariant holds |
| Relay.Enter | server.js:41-68 | after a join's bookkeeping the room has a socket set whose members are all known sockets; nothing is sent |
| Relay.JoinKeepsInv | server.js:40-88 | a join keeps the state invariant: the maps gain rooms together, the sets hold no duplicates, members are known sockets |
| Relay.Forward | server.js:91-98 | a relayed message changes only the outbox and keeps the invariant |
| Relay.Receive | server.js:36-99 | every message event keeps the invariant |
| Relay.Close | server.js:101-128 | a close keeps the invariant |
| Relay.AssignRole | server.js:236-285 | the route changes only `userRoles` and keeps the invariant |
| Relay.ChangeRole | server.js:340-374 | the route changes only `userRoles`: sockets, sets and counters are untouched |
| Relay.DeleteUser | server.js:376-406 | 404 iff the id has no record, with nothing changed; otherwise the record is removed and reported, the id leaves its recorded room's user set, and sockets, socket sets and counters stay |
| Relay.StartLive | server.js:171-188 | the route changes only `streamStatus` and keeps the invariant |
| Relay.StopLive | server.js:190-211 | the route changes only `streamStatus` and keeps the invariant |
| RelayProps.Apply | server.js:30-406 | any enabled event keeps the invariant |
| RelayProps.BumpDropSound | server.js:62-125 | a join's increment and a close's clamped decrement keep the counts non-negative and "live iff a broadcaster is counted" |
| RelayProps.JoinStatus | server.js:45-68 | a join sets its room's status to the increment of the old status, or of a zeroed one when the room had no socket set; no other room changes |
| RelayProps.JoinRooms | server.js:45-50 | a join adds the socket to its room's set, created empty when missing |
| RelayProps.JoinUsers | server.js:45-59 | a join adds the user id to its room's user set, created with the socket set |
| RelayProps.CloseStatus | server.js:114-125 | a close of a joined socket applies the clamped decrement to its room; otherwise the statuses stay |
| RelayProps.CloseRooms | server.js:102-105 | a close of a joined socket removes it from its room's set; otherwise the sets stay |
| RelayProps.BumpKeepsCounters | server.js:62-68 | an increment on one room keeps every count non-negative and every status sound |
| RelayProps.JoinKeepsCounters | server.js:62-68 | a join keeps the counts non-negative and "live iff broadcaster count > 0" |
| RelayProps.CloseKeepsCounters | server.js:115-125 | a close keeps the counts non-negative and "live iff broadcaster count > 0" |
| RelayProps.StepKeepsCounters | server.js:30-211 | every step keeps the counts non-negative; every step except start-live and stop-live keeps "live iff broadcaster count > 0" |
| RelayProps.CountersHoldOnTrace | server.js:30-211 | over any run the counts stay non-negative; over a run without start-live or stop-live the live flag stays exactly "broadcaster count > 0" |
| RelayProps.EmptyCountersHold | server.js:21-24 | the empty server satisfies the invariant and both counter properties |
| RelayProps.StartLiveBreaksLiveFlag | server.js:171-179 | start-live on an unseen room makes it live with no broadcaster |
| RelayProps.StopLiveBreaksLiveFlag | server.js:190-195 | stop-live right after a broadcaster's join clears the flag while the broadcaster is still counted |
| RelayProps.DeleteFreesUserId | server.js:376-395 | an assign for an existing id is a 409; after deleting the id, the same assign succeeds |
| RelayEffects.JoinRecords | server.js:41-58 | room, role and user id default to "default", "viewer" and the generated id when missing or empty; the socket keeps them; the user's record is overwritten with this socket and the join time |
| RelayEffects.JoinSockets | server.js:45-50 | a join creates the room's socket set when missing; afterwards the set holds exactly the old members and the joiner; other rooms are unchanged |
| RelayEffects.JoinUserSet | server.js:45-59 | a join creates the room's user set with the socket set; afterwards it holds exactly the old ids and the joiner's id; other rooms are unchanged |
| RelayEffects.JoinReplies | server.js:70-86 | earlier sends stay; the joiner gets exactly one role confirmation with the resolved id, role and room; a viewer's join then notifies exactly the room's broadcasters, each once and never the joiner; other roles notify nobody |
| RelayEffects.ForwardRelays | server.js:36-98 | an unparsable message changes nothing; otherwise only the outbox changes; a socket without a room sends nothing; exactly the OPEN members other than the sender get one copy each; each copy has the message's keys plus `from`, and `from` is the sender's id whatever the client sent |
| RelayEffects.CloseEffects | server.js:101-128 | the socket is marked closed and nothing is sent; a socket that never joined changes nothing else; a joined socket leaves its set, its user id leaves `userRoles` and the room's user set, and the room's count drops; other rooms stay, and an emptied set stays |
| RelayEffects.RepeatJoinDrifts | server.js:45-125 | a broadcaster that joins a new room twice and then closes leaves the room with no socket, yet live with one broadcaster |
| RelayEffects.FirstBroadcasterJoin | server.js:45-68 | the first broadcaster join of a new room leaves the joiner alone in it, live with one broadcaster |
| RelayEffects.SecondBroadcasterJoin | server.js:45-68 | the same socket joining again is not added twice but is counted again |
| RelayEffects.LastBroadcasterCloses | server.js:101-125 | a broadcaster counted twice that closes as the only member leaves the room empty and still live with one broadcaster |
| RelayEffects.ViewerRepeatJoinDrifts | server.js:45-125 | a viewer that joins a new room twice and then closes leaves the room with no socket, not live, yet counting one viewer |
| RelayEffects.FirstViewerJoin | server.js:45-68 | the first viewer join of a new room leaves the joiner alone in it, not live, with one viewer |
| RelayEffects.SecondViewerJoin | server.js:45-68 | the same socket joining again as a viewer is not added twice but is counted again |
| RelayEffects.LastViewerCloses | server.js:101-125 | a viewer counted twice that closes as the only member leaves the room empty, not live, and still counting one viewer |
| Membership.AcceptKeepsCounts | server.js:30-34 | a new socket keeps socket sets and counts in agreement |
| Membership.JoinKeepsCounts | server.js:45-68 | a first join keeps every room's counts equal to the broadcaster and viewer tallies of its set |
| Membership.CloseKeepsCounts | server.js:101-125 | a close keeps every room's counts equal to the tallies of its set |
| Membership.StepKeepsCounts | server.js:30-128 | every step keeps the sets and counts in agreement, provided a join comes on a socket that has not joined before and resolves a non-empty user id |
| Membership.CountsTrackMembers | server.js:30-128 | on runs where every socket joins at most once and with a non-empty user id, each room's set holds exactly the open sockets that joined it, and its counts equal the broadcaster and viewer tallies |
| Queries.StatusOf | server.js:147-156 | the room defaults to "default" when missing or empty; a room without a status reads as idle with zero counts |
| Queries.StatusAfterLiveCalls | server.js:171-211 | the status route shows a room live after start-live, with its counts unchanged, and not live after stop-live |
| Queries.Rooms | server.js:158-169 | every status is listed and `totalRooms` counts them |
| Queries.StartLiveListsRoom | server.js:171-176 | start-live on an unlisted room adds exactly one room to the listing |
| Queries.Live | server.js:213-233 | 404 iff the room has no status; otherwise its flag and counts |
| Queries.GetUser | server.js:287-307 | 404 iff the id has no record; otherwise the id and the record |
| Queries.GetUserAfterAssign | server.js:287-307 | after a successful assign-role, get-user answers the id with the assigned role and room, no socket, and the assignment time |
| Queries.GetUserAfterDelete | server.js:287-307 | after a successful delete-user, get-user answers 404 for that id |
| Queries.ListUsers | server.js:314-320 | one entry per id of the set, in order, with the id's record when it has one |
| Queries.CountRole | server.js:327-328 | the filter count is the number of positions whose entry has a record of that role; it is at most the number of entries, and equals it iff every entry has such a record |
| Queries.RoleCountsBounded | server.js:326-328 | broadcasters + viewers ≤ the number of listed users |
| Queries.RoomUsers | server.js:309-338 | 404 iff the room has no user set; otherwise the set's ids in order, each with its record as `ListUsers` gives it, `totalUsers` is their number, `broadcasters` and `viewers` are the `CountRole` filter counts of those entries, and broadcasters + viewers ≤ totalUsers |
| Queries.StartLiveLeavesRoomUnknown | server.js:309-338 | after start-live on a room no socket joined, the room is live yet the room-users route answers 404 |
| Queries.AllUsers | server.js:408-422 | every record is listed; the counts are the numbers of broadcaster and viewer records, which add up to at most the total |
| Queries.RolesPartition | server.js:417-419 | broadcaster and viewer records are disjoint, so their numbers add up to at most the number of records |
| Server.SignalServer.constructor | server.js:21-24 | the four maps start empty and no socket exists |
| Server.SignalServer.Connect | server.js:30-34 | the socket's initial fields as `Relay.Accept` |
| Server.SignalServer.OnMessage | server.js:36-99 | the message handler leaves the state `Relay.Receive` computes and keeps the invariant |
| Server.SignalServer.Join | server.js:40-88 | the join branch leaves the state `Relay.Join` computes, including the confirmation and the notices in order |
| Server.SignalServer.Place | server.js:41-68 | the join's bookkeeping: each map becomes the join's update of the old one |
| Server.SignalServer.Enroll | server.js:50-59 | adds the socket and the user id to the room's sets and writes the record; nothing else changes |
| Server.SignalServer.Count | server.js:62-68 | the room's status becomes `Bump` of the old one; nothing else changes |
| Server.SignalServer.OpenRoom | server.js:45-49 | the room gets an empty socket set, an empty user set and a zeroed status |
| Server.SignalServer.Forward | server.js:91-98 | the relay branch leaves the state `Relay.Forward` computes and keeps the invariant |
| Server.SignalServer.OnClose | server.js:101-128 | the close handler leaves the state `Relay.Close` computes and keeps the invariant |
| Server.SignalServer.Uncount | server.js:115-125 | the room's status becomes `Drop` of the old one; nothing else changes |
| Server.SignalServer.AssignRole | server.js:236-285 | new state and reply are those of `Relay.AssignRole`; the invariant holds |
| Server.SignalServer.ChangeRole | server.js:340-374 | new state and reply are those of `Relay.ChangeRole`; the invariant holds |
| Server.SignalServer.DeleteUser | server.js:376-406 | new state and reply are those of `Relay.DeleteUser`; the invariant holds |
| Server.SignalServer.StartLive | server.js:171-188 | new state and reply are those of `Relay.StartLive`; the invariant holds |
| Server.SignalServer.StopLive | server.js:190-211 | new state and reply are those of `Relay.StopLive`; the invariant holds |
| Server.NewPeerNotices | server.js:79-86 | the loop over the room's set sends exactly `Relay.NewPeerSends` |
| Server.RelayedCopies | server.js:91-97 | the loop over the room's set sends exactly `Relay.ForwardSends` |
| AssignRoleApi.AssignRoleHandler.constructor | api/assign-role.js:2 | the handler's own map starts empty |
| AssignRoleApi.AssignRoleHandler.Handle | api/assign-role.js:10-59 | OPTIONS answers 200 and any method but POST answers 405, both with the map unchanged; a POST without a body answers 500 with the map unchanged; otherwise the reply and the new map are those of `Registry.AssignRole`; `HttpStatus` of the reply is 200, 405 and 500 on the three gated paths |
| StartLiveApi.StartLiveHandler.constructor | api/start-live.js:2 | the handler's own map starts empty |
| StartLiveApi.StartLiveHandler.Handle | api/start-live.js:10-31 | OPTIONS answers 200 and any method but POST answers 405, both with the map unchanged; a POST without a body answers 500 with the map unchanged; otherwise the reply and the new map are those of `Registry.StartLive`; `HttpStatus` of the reply is 200, 405 and 500 on the three gated paths |

## Left out

- The Socket.IO chat relay (server.js:131-144): it keeps no state and forwards each message to every client.
- TLS, Express, static files and `listen` (server.js:1-19, 434), and the health route (server.js:424-432): I/O plumbing with nothing to check.
- public/client.js: browser code built on the DOM, media capture and `RTCPeerConnection`.
- api/status.js, api/rooms.js, api/users.js, api/index.js, api/user/[userId].js, api/user/[userId]/role.js, api/room/[room]/users.js and api/live/[room].js are not part of this model. They read module-local maps that nothing in their own module writes, or they repeat the server.js routes modelled in `Queries` and `Registry`.
- JSON parsing and serialisation: a message is a map from field names to string values, and a message that does not parse is `None`. JSON values that are not strings, and bodies that are not objects, are not modelled. Only a WebSocket message that parses to `null` makes `data.type` throw at server.js:40, and nothing catches it. A number, boolean or string is not a join; from a joined socket it is relayed as `{ ...data, from }` (server.js:91-97). The model has neither kind of message.
- Time and randomness: `new Date().toISOString()` and `Math.random` ids are parameters. The time stamp and message text of each reply are not modelled. One `now` stands for both `new Date()` calls of an assign-role (the record's `joinedAt` and the reply's `assignedAt`, server.js:271 and 281, api/assign-role.js:58 and 68), which in the source can differ. Socket ids are assumed fresh when a socket connects (`Relay.Accept` requires it), so id collisions are not modelled.
- `send`'s swallowed exceptions (server.js:26-28): every send is recorded in the outbox as made.
- The CLOSING state of a socket: in the model a socket's `readyState` leaves OPEN exactly when its close handler runs. Between a socket starting to close and its 'close' event, server.js:94 already skips it, while `Relay.ForwardSends` and `RelayEffects.Audience` still relay to it. The "open sockets" of `Membership.PlacedIn` and `Membership.CountsTrackMembers` are the sockets whose close handler has not run.
- Listing order of the users and rooms routes: the model returns the maps themselves, so the insertion order of `Array.from(map.entries())` is not modelled. The room-users route keeps its set's order.
- Express body parsing: the server routes always receive an object, so `req.body` is the parsed fields. In the standalone handlers a missing body is the only modelled cause of the 500 reply.
- Relay.Join: carries no contract of its own. The invariant is the separate lemma `Relay.JoinKeepsInv`, which `Relay.Receive` uses. What a join does is stated in `RelayEffects` and `RelayProps`.
