/** The entities of the control plane (internal/control/types.go) and its replicated state. */
module Cluster {
  /** Nanoseconds since Go's zero time; 0 is the time for which IsZero holds. */
  type Time = int

  const SECOND := 1_000_000_000
  const MINUTE := 60 * SECOND
  const ONLINE_WINDOW := 90 * SECOND
  const STALE_AFTER := 2 * MINUTE

  datatype NodeStatus = Online | Offline | Draining
  datatype ClientStatus = Connected | Disconnected
  datatype ProxyStatus = Open | Closed
  datatype MigrationState = Idle | Pending | Manual

  datatype NetworkStatus = NetworkStatus(
    latencyMs: int, downloadBps: int, uploadBps: int, rxBps: int, txBps: int, bandwidthBps: int,
    score: int, measuredAt: Time, stale: bool)

  const NO_NETWORK := NetworkStatus(0, 0, 0, 0, 0, 0, 0, 0, false)

  /** `proxies` counts the per-proxy counters that come with a report. */
  datatype TrafficCounters = TrafficCounters(totalIn: int, totalOut: int, connections: int, proxies: nat, measuredAt: Time)

  const NO_TRAFFIC := TrafficCounters(0, 0, 0, 0, 0)

  datatype TrafficSample = TrafficSample(
    nodeId: string, at: Time, totalIn: int, totalOut: int, deltaIn: int, deltaOut: int, connections: int)

  datatype ServerNode = ServerNode(
    id: string, name: string, publicAddr: string, controlUrl: string, bindPort: int,
    status: NodeStatus, nodeToken: string, clientCount: int, proxyCount: int,
    network: NetworkStatus, traffic: TrafficCounters, joinedAt: Time, lastSeenAt: Time, updatedAt: Time)

  datatype Client = Client(
    id: string, user: string, status: ClientStatus, nodeId: string,
    preferredNodeId: string, migrationState: MigrationState, migrationReason: string, migrationUpdatedAt: Time,
    remoteAddr: string, proxyCount: int, firstSeenAt: Time, lastSeenAt: Time, updatedAt: Time)

  datatype Proxy = Proxy(
    id: string, name: string, kind: string, clientId: string, user: string, nodeId: string,
    status: ProxyStatus, remotePort: int, createdAt: Time, updatedAt: Time)

  datatype JoinToken = JoinToken(token: string, usesLeft: int, expiresAt: Time, createdAt: Time, usedBy: seq<string>)

  datatype Event = Event(id: string, kind: string, nodeId: string, clientId: string, proxyId: string, createdAt: Time)

  datatype Config = Config(authToken: string, autoMigration: bool, scoreGap: int, publicUrl: string)

  /** What a replica holds, except for its event log and its list of peers. */
  datatype State = State(
    config: Config, nodes: map<string, ServerNode>, clients: map<string, Client>, proxies: map<string, Proxy>,
    tokens: map<string, JoinToken>, samples: seq<TrafficSample>)

  datatype Error =
    | NodeNotFound | ClientNotFound | NodeTokenRequired | NodeTokenMismatch | NoAvailableNode
    | InvalidJoinRequest | InvalidToken | TokenExpired | TokenUsed | UnsupportedMode | NegativeGap

  /** Every entry is stored under its own, non-empty identifier. */
  ghost predicate NodesKeyed(nodes: map<string, ServerNode>) {
    forall id <- nodes :: id != "" && nodes[id].id == id
  }

  ghost predicate ClientsKeyed(clients: map<string, Client>) {
    forall id <- clients :: id != "" && clients[id].id == id
  }

  ghost predicate ProxiesKeyed(proxies: map<string, Proxy>) {
    forall id <- proxies :: id != "" && proxies[id].id == id
  }

  ghost predicate KeyedById(st: State) {
    NodesKeyed(st.nodes) && ClientsKeyed(st.clients) && ProxiesKeyed(st.proxies)
  }

  const EMPTY := State(Config("change-me", true, 15, ""), map[], map[], map[], map[], [])
}
