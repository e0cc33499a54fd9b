// Domain types of the connection telemetry: what the watcher observes, what the
// writer queues and what the store persists.
module Telemetry {
  import opened Wrappers

  datatype Network = Tcp | Udp | Quic | UnknownNetwork

  // An observed connection. Hosts and source addresses are the normalised texts.
  // A missing observation time falls back to the time of the store call.
  datatype Feature = Feature(
    connectionId: string,
    sourceIP: string,
    host: string,
    network: Network,
    observedAt: Option<int>)

  datatype EventKind = Observed | Closed | Unsupported

  datatype Event = Event(kind: EventKind, feature: Feature)

  // A device-application: one application host seen from one device over one network.
  // Device, application and device-application identifiers are hashes of exactly these
  // texts, so under injective hashing the texts themselves serve as identifiers.
  datatype FlowKey = FlowKey(device: string, app: string, network: Network)

  function KeyOf(f: Feature): FlowKey {
    FlowKey(f.sourceIP, f.host, f.network)
  }

  function IdOf(e: Event): string {
    e.feature.connectionId
  }

  // The store refuses an observation without connection id, source or host, and any
  // event of an unknown kind. Closing with an empty id is a silent no-op.
  predicate Acceptable(e: Event) {
    match e.kind
    case Observed => e.feature.connectionId != "" && e.feature.sourceIP != "" && e.feature.host != ""
    case Closed => true
    case Unsupported => false
  }

  predicate AllAcceptable(events: seq<Event>) {
    forall i :: 0 <= i < |events| ==> Acceptable(events[i])
  }
}
