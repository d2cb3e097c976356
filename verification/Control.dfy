/** The registry of connected tunnels and the events it emits. */
module ControlPlane {
  import opened Prelude
  import opened Routing

  datatype TunnelInfo = TunnelInfo(client: string, peer: string, hostnames: seq<string>)

  datatype Event =
    | TunnelUp(client: string, peer: string, hostnames: seq<string>)
    | TunnelDown(client: string, peer: string)

  type Registry = map<ConnId, TunnelInfo>

  function UpOf(info: TunnelInfo): Event {
    TunnelUp(info.client, info.peer, info.hostnames)
  }

  function DownOf(info: TunnelInfo): Event {
    TunnelDown(info.client, info.peer)
  }

  /** What `unregister` emits. */
  function UnregisterEvents(r: Registry, id: ConnId): seq<Event> {
    if id in r then [DownOf(r[id])] else []
  }

  class Control {
    var tunnels: Registry
    var events: seq<Event>

    constructor ()
      ensures tunnels == map[] && events == []
    {
      tunnels, events := map[], [];
    }

    method Register(id: ConnId, info: TunnelInfo)
      modifies this
      ensures tunnels == old(tunnels)[id := info]
      ensures events == old(events) + [UpOf(info)]
    {
      var event := TunnelUp(info.client, info.peer, info.hostnames);
      tunnels := tunnels[id := info];
      events := events + [event];
    }

    method Unregister(id: ConnId)
      modifies this
      ensures tunnels == old(tunnels) - {id}
      ensures events == old(events) + UnregisterEvents(old(tunnels), id)
    {
      var removed: Option<TunnelInfo> := if id in tunnels then Some(tunnels[id]) else None;
      tunnels := tunnels - {id};
      if removed.Some? {
        events := events + [TunnelDown(removed.value.client, removed.value.peer)];
      }
    }
  }
}
