/** The standalone start-live handler under api/: the server's start-live
    rule on a status map of its own, behind a gate on the HTTP method. */
module StartLiveApi {
  import opened Types
  import Registry

  class StartLiveHandler {
    /** The module's own `streamStatus` map, shared by nothing else. */
    var streamStatus: map<RoomId, Status>

    constructor()
      ensures streamStatus == map[]
    {
      streamStatus := map[];
    }

    /** OPTIONS is answered with an empty 200 and any other method but POST
        with 405, neither touching the map; a POST without a body fails while
        being destructured (500); otherwise the room, "default" when absent,
        gets a zeroed status if it has none and is marked live. */
    method Handle(req: Request<Option<string>>) returns (reply: Reply<Registry.LiveReply>)
      modifies this
      ensures req.verb == "OPTIONS" ==> reply == Preflight && streamStatus == old(streamStatus)
      ensures req.verb != "OPTIONS" && req.verb != "POST" ==>
                reply == Err(MethodNotAllowed) && streamStatus == old(streamStatus)
      ensures req.verb == "POST" && req.body.None? ==> reply == Err(Internal) && streamStatus == old(streamStatus)
      // the status codes of the gated paths
      ensures req.verb == "OPTIONS" ==> HttpStatus(reply) == 200
      ensures req.verb != "OPTIONS" && req.verb != "POST" ==> HttpStatus(reply) == 405
      ensures req.verb == "POST" && req.body.None? ==> HttpStatus(reply) == 500
      ensures req.verb == "POST" && req.body.Some? ==>
                Registry.LiveOutcome(streamStatus, reply) == Registry.StartLive(old(streamStatus), req.body.value)
    {
      if req.verb == "OPTIONS" {
        return Preflight;
      }
      if req.verb != "POST" {
        return Err(MethodNotAllowed);
      }
      if req.body.None? {
        return Err(Internal);
      }
      var room := Destructured(req.body.value, DefaultRoom);
      if room !in streamStatus {
        streamStatus := streamStatus[room := Idle];
      }
      var status := streamStatus[room].(isActive := true);
      streamStatus := streamStatus[room := status];
      reply := Ok(Registry.LiveReply(room, status));
    }
  }
}
