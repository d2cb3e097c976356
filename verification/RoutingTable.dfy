/** The routing table that all connection handlers share. Each method is one
    critical section of its lock. */
module Tables {
  import opened Prelude
  import opened Hosts
  import opened Config
  import opened Backend
  import opened Routing
  import opened RoundRobin
  import opened Resolution

  class RoutingTable {
    var inner: Table
    const local: map<string, LocalUpstream>
    const tunnelHosts: set<string>
    var terminated: set<string>
    const offload: set<string>

    ghost function Contents(): View
      reads this
    {
      View(inner, local, tunnelHosts, terminated, offload)
    }

    constructor FromConfig(hostnames: seq<HostnameEntry>, upstreams: seq<UpstreamEntry>)
      ensures Contents() == Resolution.FromConfig(hostnames, upstreams)
    {
      var locals := CollectUpstreams(upstreams);
      var terminating := CollectHosts(hostnames, upstreams, {Terminated, TlsOffload});
      var offloading := CollectHosts(hostnames, upstreams, {TlsOffload});
      var named: set<string> := {};
      for k := 0 to |hostnames|
        invariant named == set i | 0 <= i < k :: Lower(hostnames[i].host)
      {
        named := named + {Lower(hostnames[k].host)};
      }
      inner, local, tunnelHosts := map[], locals, named;
      terminated, offload := terminating, offloading;
      assert named == set h | h in hostnames :: Lower(h.host);
    }

    /** The upstream map; an entry without a target is skipped. */
    static method CollectUpstreams(upstreams: seq<UpstreamEntry>) returns (local: map<string, LocalUpstream>)
      ensures local == LocalOf(upstreams)
    {
      local := map[];
      for k := 0 to |upstreams|
        invariant local == LocalOf(upstreams[..k])
      {
        assert upstreams[..k + 1][..k] == upstreams[..k];
        var u := upstreams[k];
        if u.localSocket.Some? {
          local := local[Lower(u.host) := LocalUpstream(Unix(u.localSocket.value), u.mode)];
        } else if u.localAddr.Some? {
          local := local[Lower(u.host) := LocalUpstream(Tcp(u.localAddr.value), u.mode)];
        }
      }
      assert upstreams[..|upstreams|] == upstreams;
    }

    /** The lowercase hosts of all entries in one of the modes: hostnames, then upstreams. */
    static method CollectHosts(
      hostnames: seq<HostnameEntry>, upstreams: seq<UpstreamEntry>, modes: set<TlsMode>)
      returns (hosts: set<string>)
      ensures hosts == (set h | h in hostnames && h.mode in modes :: Lower(h.host))
                       + (set u | u in upstreams && u.mode in modes :: Lower(u.host))
    {
      hosts := {};
      for k := 0 to |hostnames|
        invariant hosts == set h | h in hostnames[..k] && h.mode in modes :: Lower(h.host)
      {
        assert hostnames[..k + 1] == hostnames[..k] + [hostnames[k]];
        if hostnames[k].mode in modes {
          hosts := hosts + {Lower(hostnames[k].host)};
        }
      }
      assert hostnames[..|hostnames|] == hostnames;
      ghost var named := hosts;
      for k := 0 to |upstreams|
        invariant hosts == named + set u | u in upstreams[..k] && u.mode in modes :: Lower(u.host)
      {
        assert upstreams[..k + 1] == upstreams[..k] + [upstreams[k]];
        if upstreams[k].mode in modes {
          hosts := hosts + {Lower(upstreams[k].host)};
        }
      }
      assert upstreams[..|upstreams|] == upstreams;
    }

    method SetTerminated(full: seq<string>)
      modifies this`terminated
      ensures Contents() == Resolution.SetTerminated(old(Contents()), full)
    {
      terminated := set s | s in full :: Lower(s);
    }

    method Install(hosts: seq<GrantedHost>, client: string, balance: Balance, id: ConnId)
      returns (displaced: seq<ConnId>)
      modifies this`inner
      ensures Installed(inner, displaced) == Routing.Install(old(inner), hosts, client, balance, id)
    {
      displaced := [];
      if hosts == [] {
        return;
      }
      for k := 0 to |hosts|
        invariant Installed(inner, displaced) == Routing.Install(old(inner), hosts[..k], client, balance, id)
      {
        var g := hosts[k];
        ghost var before := displaced;
        var entry := EntryOf(inner, g, client);
        ghost var start := entry;
        if entry.client != client {
          displaced := displaced + entry.conns;
          entry := entry.(conns := [], client := client);
        }
        entry := entry.(mode := g.mode);
        match balance {
          case LastWriteWins =>
            var others := Drain(entry.conns, id);
            displaced := displaced + others;
            entry := entry.(conns := [id]);
          case RoundRobin =>
            if id !in entry.conns {
              entry := entry.(conns := entry.conns + [id]);
            }
        }
        assert EntryInstalled(entry, displaced[|before|..]) == InstallEntry(start, g.mode, client, balance, id);
        assert displaced == before + displaced[|before|..];
        inner := inner[g.host := entry];
        assert hosts[..k + 1][..k] == hosts[..k];
      }
      assert hosts[..|hosts|] == hosts;
    }

    /** Empties the list, keeping for the caller the connections other than `id`. */
    static method Drain(conns: seq<ConnId>, id: ConnId) returns (others: seq<ConnId>)
      ensures others == Without(conns, id)
    {
      others := [];
      for k := 0 to |conns|
        invariant others == Without(conns[..k], id)
      {
        assert conns[..k + 1][..k] == conns[..k];
        if conns[k] != id {
          others := others + [conns[k]];
        }
      }
      assert conns[..|conns|] == conns;
    }

    method RemoveConn(id: ConnId)
      modifies this`inner
      ensures inner == Routing.RemoveConn(old(inner), id)
    {
      var todo := inner.Keys;
      var kept: Table := map[];
      while todo != {}
        invariant inner == old(inner) && todo <= inner.Keys
        invariant kept == Routing.RemoveConn(Outside(inner, todo), id)
        decreases |todo|
      {
        var h :| h in todo;
        var conns := Drain(inner[h].conns, id);
        RemoveConnGrows(inner, todo, h, id);
        if conns != [] {
          kept := kept[h := inner[h].(conns := conns)];
        }
        todo := todo - {h};
      }
      assert Outside(inner, todo) == inner;
      inner := kept;
    }

    /** Drops the hosts of a client; each of its connections comes back once. */
    method Kick(client: string) returns (conns: seq<ConnId>)
      modifies this`inner
      ensures inner == Routing.Kick(old(inner), client)
      ensures Distinct(conns)
      ensures (set c | c in conns) == ConnsOf(old(inner), client)
    {
      conns := [];
      var seen: set<ConnId> := {};
      var todo := inner.Keys;
      var kept: Table := map[];
      while todo != {}
        invariant inner == old(inner) && todo <= inner.Keys
        invariant kept == map h | h in inner && h !in todo && inner[h].client != client :: inner[h]
        invariant Distinct(conns) && seen == set c | c in conns
        invariant seen == set h, c | h in inner && h !in todo && inner[h].client == client && c in inner[h].conns :: c
        decreases |todo|
      {
        var h :| h in todo;
        ghost var before := seen;
        if inner[h].client == client {
          conns, seen := AddUnseen(conns, seen, inner[h].conns);
        } else {
          kept := kept[h := inner[h]];
        }
        todo := todo - {h};
      }
      inner := kept;
    }

    static method AddUnseen(conns: seq<ConnId>, seen: set<ConnId>, more: seq<ConnId>)
      returns (conns': seq<ConnId>, seen': set<ConnId>)
      requires Distinct(conns) && seen == set c | c in conns
      ensures Distinct(conns') && seen' == set c | c in conns'
      ensures seen' == seen + set c | c in more
    {
      conns', seen' := conns, seen;
      for k := 0 to |more|
        invariant Distinct(conns') && seen' == set c | c in conns'
        invariant seen' == seen + set c | c in more[..k]
      {
        assert more[..k + 1] == more[..k] + [more[k]];
        if more[k] !in seen' {
          conns' := conns' + [more[k]];
          seen' := seen' + {more[k]};
        }
      }
      assert more[..|more|] == more;
    }

    /** The upstream of a host: its own, or that of the first wildcard unless some
        exact entry names the host. */
    method FindUpstream(host: string) returns (up: Option<LocalUpstream>)
      ensures up == UpstreamFor(Contents(), host)
    {
      var lower := Lower(host);
      if lower in local {
        return Some(local[lower]);
      }
      if lower in tunnelHosts || lower in terminated || lower in inner {
        return None;
      }
      var patterns := HostPatterns(lower);
      for k := 1 to |patterns|
        invariant FirstKey(patterns[k..], local.Keys) == FirstKey(patterns[1..], local.Keys)
      {
        assert patterns[k..][1..] == patterns[k + 1..];
        if patterns[k] in local {
          return Some(local[patterns[k]]);
        }
      }
      return None;
    }

    method Lookup(host: string, closed: set<ConnId>) returns (route: Option<Route>)
      modifies this`inner
      ensures route == LookupRoute(old(Contents()), host, closed)
      ensures inner == LookupTable(old(Contents()), host, closed)
    {
      var up := FindUpstream(host);
      if up.Some? {
        return Some(Local(up.value.target));
      }
      if host !in inner {
        return None;
      }
      var n := |inner[host].conns|;
      if n == 0 {
        assert inner == inner[host := inner[host]];
        return None;
      }
      ghost var e := inner[host];
      assert inner == inner[host := inner[host]];
      for k := 0 to n
        invariant host in inner && inner[host] == e.(cursor := inner[host].cursor)
        invariant inner == old(inner)[host := inner[host]]
        invariant Probe(e.conns, closed, inner[host].cursor, n - k) == Pick(e.conns, closed, e.cursor)
      {
        var i := inner[host].cursor % n;
        inner := inner[host := inner[host].(cursor := Advance(inner[host].cursor))];
        if inner[host].conns[i] !in closed {
          return Some(Tunnel(inner[host].client, inner[host].mode, inner[host].conns[i]));
        }
      }
      return None;
    }
  }
}
