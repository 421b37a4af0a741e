/** The standalone assign-role handler under api/: the same rules as the
    server's assign-role route, applied to a map of its own, behind a gate on
    the HTTP method. */
module AssignRoleApi {
  import opened Types
  import Registry

  class AssignRoleHandler {
    /** The module's own `userRoles` map, shared by nothing else. */
    var userRoles: map<UserId, UserRecord>

    constructor()
      ensures userRoles == map[]
    {
      userRoles := map[];
    }

    /** OPTIONS is answered with an empty 200 and any other method but POST
        with 405, neither touching the map; a POST without a body fails while
        being destructured (500); otherwise the assign-role rules apply. */
    method Handle(req: Request<Registry.AssignBody>, now: string) returns (reply: Reply<Registry.Assigned>)
      modifies this
      ensures req.verb == "OPTIONS" ==> reply == Preflight && userRoles == old(userRoles)
      ensures req.verb != "OPTIONS" && req.verb != "POST" ==>
                reply == Err(MethodNotAllowed) && userRoles == old(userRoles)
      ensures req.verb == "POST" && req.body.None? ==> reply == Err(Internal) && userRoles == old(userRoles)
      // the status codes of the gated paths
      ensures req.verb == "OPTIONS" ==> HttpStatus(reply) == 200
      ensures req.verb != "OPTIONS" && req.verb != "POST" ==> HttpStatus(reply) == 405
      ensures req.verb == "POST" && req.body.None? ==> HttpStatus(reply) == 500
      ensures req.verb == "POST" && req.body.Some? ==>
                Registry.AssignOutcome(userRoles, reply) == Registry.AssignRole(old(userRoles), req.body.value, now)
    {
      if req.verb == "OPTIONS" {
        return Preflight;
      }
      if req.verb != "POST" {
        return Err(MethodNotAllowed);
      }
      if req.body.None? {
        return Err(Internal);
      }
      var body := req.body.value;
      if !Truthy(body.userId) || !Truthy(body.role) {
        return Err(MissingField);
      }
      var userId, role := body.userId.value, body.role.value;
      if !ValidRole(role) {
        return Err(InvalidRole);
      }
      if userId in userRoles {
        return Err(Conflict(userRoles[userId]));
      }
      var room := Destructured(body.room, DefaultRoom);
      userRoles := userRoles[userId := UserRecord(role, room, None, now, None)];
      reply := Ok(Registry.Assigned(userId, role, room, now));
    }
  }
}
