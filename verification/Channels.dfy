/** Bounded subscriber channels, as the bus uses them (crossbeam's `try_send` and `send`). */
module Channels {
  import opened EventStore

  /** Everything a channel ever took, in order; the first `taken` of it has been received. */
  datatype Channel = Channel(accepted: seq<Event>, taken: nat, capacity: nat, connected: bool) {
    predicate HasRoom() {
      |accepted| < taken + capacity
    }
  }

  type Channels = map<nat, Channel>

  /** No channel holds more than its capacity. */
  ghost predicate WithinCapacity(channels: Channels) {
    forall id :: id in channels ==> |channels[id].accepted| <= channels[id].taken + channels[id].capacity
  }

  datatype SendOutcome = Sent | Full | Disconnected

  function TrySend(channels: Channels, id: nat): SendOutcome {
    if id !in channels || !channels[id].connected then Disconnected
    else if channels[id].HasRoom() then Sent
    else Full
  }

  function AfterSend(channels: Channels, id: nat, event: Event): Channels
    requires id in channels
  {
    channels[id := channels[id].(accepted := channels[id].accepted + [event])]
  }
}
