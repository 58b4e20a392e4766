/** The slice of the decoded application state that the collector reads:
    `state.servers.servers`, a map from server id to a server record of which only the
    display name and the rank are used. The other fields of the JSON schema are
    declared by the collector but never read, so they are not part of this model. */
module Schema {

  /** Go's `int`, assumed 64 bits wide here. On a 32-bit build a rank outside 32 bits
      fails to decode, which the uninterpreted decoder already allows for. */
  newtype int64 = x: int | -0x8000_0000_0000_0000 <= x < 0x8000_0000_0000_0000

  /** One server listing (`gtServer`), reduced to `name` and `rank`. */
  datatype Server = Server(name: string, rank: int64)

  /** The decoded state (`gameTrackerState`), reduced to `State.Servers.Servers`. */
  datatype State = State(servers: map<string, Server>)

  /** Go's zero value of `gameTrackerState`: its server map is nil, which ranges
      over no entries, so it is the empty map here. */
  const ZeroState: State := State(map[])
}
