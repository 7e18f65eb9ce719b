/** What the switch and number entities share: availability, which asks the client
    whether it is healthy and so may mark it stale. */
module Entity {
  import opened Base
  import Integration

  /** `available` on a link, if there is a client: healthy and the last refresh succeeded;
      without a client, whether the last refresh succeeded. The link after the check is the
      second component. */
  function AvailableOn(client: Option<Integration.Link>, now: real, lastUpdateSuccess: bool)
    : (r: (bool, Option<Integration.Link>))
    ensures client.None? ==> r == (lastUpdateSuccess, None)
    ensures r.0 ==> lastUpdateSuccess
    ensures client.Some? ==> r.1.Some? && r.1.value == Integration.HealthCheck(client.value, now).1
    ensures client.Some? && r.0 ==>
              client.value.state == Integration.Connected
              && now - client.value.lastMessageTime <= Integration.StaleThreshold
  {
    match client
    case None => (lastUpdateSuccess, None)
    case Some(l) =>
      var h := Integration.HealthCheck(l, now);
      (h.0 && lastUpdateSuccess, Some(h.1))
  }

  /** A stale or disconnected client keeps the entity unavailable, whatever the refresh did. */
  lemma UnhealthyUnavailable(l: Integration.Link, now: real, lastUpdateSuccess: bool)
    requires l.state != Integration.Connected
    ensures AvailableOn(Some(l), now, lastUpdateSuccess) == (false, Some(l))
  {
  }

  /** `available` on the coordinator's client, at time `now`. */
  method Available(c: Integration.Coordinator, now: real, lastUpdateSuccess: bool)
    returns (available: bool)
    modifies c.wsClient
    ensures c.wsClient == old(c.wsClient)
    ensures c.wsClient == null ==> available == lastUpdateSuccess
    ensures c.wsClient != null ==>
              && (available, Some(c.wsClient.Fields()))
                 == AvailableOn(Some(old(c.wsClient.Fields())), now, lastUpdateSuccess)
              && c.wsClient.outbox == old(c.wsClient.outbox)
  {
    if c.wsClient == null {
      return lastUpdateSuccess;
    }
    var healthy := c.wsClient.IsHealthy(now);
    available := healthy && lastUpdateSuccess;
  }
}
