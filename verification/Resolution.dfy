/** Which entry owns a host: the upstream of a name, the TLS mode, and how the
    separate questions about one host agree with each other. */
module Resolution {
  import opened Prelude
  import opened Hosts
  import opened Config
  import opened Routing
  import opened RoundRobin

  datatype Target = Tcp(addr: string) | Unix(path: string)

  datatype LocalUpstream = LocalUpstream(target: Target, mode: TlsMode)

  /** The contents of a routing table at one moment. */
  datatype View = View(
    inner: Table, local: map<string, LocalUpstream>, tunnelHosts: set<string>,
    terminated: set<string>, offload: set<string>)

  function TargetOf(u: UpstreamEntry): Option<Target> {
    match (u.localSocket, u.localAddr)
    case (Some(path), _) => Some(Unix(path))
    case (None, Some(addr)) => Some(Tcp(addr))
    case (None, None) => None
  }

  /** The upstream map: keys in lowercase, a later entry replaces an earlier one. */
  function LocalOf(us: seq<UpstreamEntry>): map<string, LocalUpstream> {
    if us == [] then map[]
    else
      var before, u := LocalOf(us[..|us| - 1]), us[|us| - 1];
      match TargetOf(u)
      case Some(target) => before[Lower(u.host) := LocalUpstream(target, u.mode)]
      case None => before
  }

  function FromConfig(hostnames: seq<HostnameEntry>, upstreams: seq<UpstreamEntry>): View {
    View(
      map[],
      LocalOf(upstreams),
      (set h | h in hostnames :: Lower(h.host)),
      (set h | h in hostnames && Terminates(h.mode) :: Lower(h.host)) +
      (set u | u in upstreams && Terminates(u.mode) :: Lower(u.host)),
      (set h | h in hostnames && h.mode == TlsOffload :: Lower(h.host)) +
      (set u | u in upstreams && u.mode == TlsOffload :: Lower(u.host)))
  }

  /** An exact entry other than an upstream names this lowercase host. */
  predicate Named(v: View, host: string) {
    host in v.tunnelHosts || host in v.terminated || host in v.inner
  }

  function WildcardUpstream(v: View, host: string): Option<LocalUpstream> {
    if host in v.local || Named(v, host) then None
    else
      match FirstKey(HostPatterns(host)[1..], v.local.Keys)
      case Some(p) => if p in v.local then Some(v.local[p]) else None
      case None => None
  }

  function UpstreamFor(v: View, host: string): Option<LocalUpstream> {
    var lower := Lower(host);
    if lower in v.local then Some(v.local[lower]) else WildcardUpstream(v, lower)
  }

  predicate IsTerminated(v: View, host: string) {
    var lower := Lower(host);
    lower in v.terminated ||
    var up := WildcardUpstream(v, lower);
    up.Some? && Terminates(up.value.mode)
  }

  predicate IsOffload(v: View, host: string) {
    var lower := Lower(host);
    lower in v.offload ||
    var up := WildcardUpstream(v, lower);
    up.Some? && up.value.mode == TlsOffload
  }

  predicate RoutesToUpstream(v: View, host: string) {
    var lower := Lower(host);
    lower in v.local || WildcardUpstream(v, lower).Some?
  }

  function SetTerminated(v: View, full: seq<string>): View {
    v.(terminated := set s | s in full :: Lower(s))
  }

  datatype Route = Tunnel(client: string, mode: TlsMode, conn: ConnId) | Local(target: Target)

  /** `lookup`: an upstream first, else the next open connection of the host as given. */
  function LookupRoute(v: View, host: string, closed: set<ConnId>): Option<Route> {
    match UpstreamFor(v, host)
    case Some(up) => Some(Local(up.target))
    case None =>
      if host !in v.inner then None
      else
        var e := v.inner[host];
        match Choice(e, closed)
        case Some(conn) => Some(Tunnel(e.client, e.mode, conn))
        case None => None
  }

  /** The table after that lookup: at most the cursor of the host moved. */
  function LookupTable(v: View, host: string, closed: set<ConnId>): Table {
    if UpstreamFor(v, host).Some? || host !in v.inner then v.inner
    else
      var e := v.inner[host];
      v.inner[host := e.(cursor := Pick(e.conns, closed, e.cursor).cursor)]
  }

  // ------------------------------------------- the most specific entry wins

  /** The entries that can own a lowercase host: every upstream pattern, and the
      host itself when a tunnel or a provisioned hostname names it. */
  function Owners(v: View, host: string): set<string> {
    v.local.Keys + if Named(v, host) then {host} else {}
  }

  lemma FirstKeyTail(host: string, keys: set<string>)
    requires host !in keys
    ensures FirstKey(HostPatterns(host)[1..], keys) == FirstKey(HostPatterns(host), keys)
  {
  }

  /** A host goes to an upstream exactly when the most specific of all entries
      that match it is an upstream entry, and then to that upstream. */
  lemma UpstreamIsMostSpecific(v: View, host: string, up: LocalUpstream)
    ensures UpstreamFor(v, host) == Some(up)
            <==> exists p :: MostSpecific(Owners(v, Lower(host)), Lower(host), p)
                             && p in v.local && v.local[p] == up
  {
    var lower := Lower(host);
    var owners := Owners(v, lower);
    FirstKeyIsMostSpecific(lower, owners);
    if lower in owners {
      assert MostSpecific(owners, lower, lower);
      forall p | MostSpecific(owners, lower, p) ensures p == lower {
        MostSpecificUnique(owners, lower, p, lower);
      }
    } else {
      assert owners == v.local.Keys;
      FirstKeyTail(lower, owners);
      match FirstKey(HostPatterns(lower), owners) {
        case Some(q) =>
          forall p | MostSpecific(owners, lower, p) ensures p == q {
            MostSpecificUnique(owners, lower, p, q);
          }
        case None =>
      }
    }
  }

  /** The host is served by a wildcard: the most specific of all entries that match
      it is an upstream pattern other than the host itself. */
  ghost predicate WildcardServes(v: View, host: string, up: LocalUpstream) {
    exists p :: MostSpecific(Owners(v, Lower(host)), Lower(host), p)
                && p != Lower(host) && p in v.local && v.local[p] == up
  }

  lemma WildcardUpstreamExactly(v: View, host: string, up: LocalUpstream)
    ensures WildcardUpstream(v, Lower(host)) == Some(up) <==> WildcardServes(v, host, up)
  {
    var lower := Lower(host);
    var owners := Owners(v, lower);
    UpstreamIsMostSpecific(v, host, up);
    if lower in owners {
      assert MostSpecific(owners, lower, lower);
      forall p | MostSpecific(owners, lower, p) ensures p == lower {
        MostSpecificUnique(owners, lower, p, lower);
      }
    }
  }

  /** The server terminates TLS for a host exactly if some spelling of it is in the
      terminated set, or a wildcard upstream in a terminating mode serves it. */
  lemma IsTerminatedExactly(v: View, host: string)
    ensures IsTerminated(v, host)
            <==> || Lower(host) in v.terminated
                 || exists up :: WildcardServes(v, host, up) && (up.mode == Terminated || up.mode == TlsOffload)
  {
    forall up ensures WildcardUpstream(v, Lower(host)) == Some(up) <==> WildcardServes(v, host, up) {
      WildcardUpstreamExactly(v, host, up);
    }
    if WildcardUpstream(v, Lower(host)).Some? {
      assert WildcardServes(v, host, WildcardUpstream(v, Lower(host)).value);
    }
  }

  lemma IsOffloadExactly(v: View, host: string)
    ensures IsOffload(v, host)
            <==> Lower(host) in v.offload || exists up :: WildcardServes(v, host, up) && up.mode == TlsOffload
  {
    forall up ensures WildcardUpstream(v, Lower(host)) == Some(up) <==> WildcardServes(v, host, up) {
      WildcardUpstreamExactly(v, host, up);
    }
    if WildcardUpstream(v, Lower(host)).Some? {
      assert WildcardServes(v, host, WildcardUpstream(v, Lower(host)).value);
    }
  }

  /** Provisioning replaces the terminated set by the names given, in lowercase, and
      changes nothing else; each of these names is then terminated in every spelling. */
  lemma SetTerminatedExactly(v: View, full: seq<string>, host: string)
    ensures var after := SetTerminated(v, full);
            && after.(terminated := v.terminated) == v
            && (host in after.terminated <==> exists s :: s in full && Lower(s) == host)
            && ((exists s :: s in full && Lower(s) == Lower(host)) ==> IsTerminated(after, host))
  {
  }

  /** An upstream with a socket goes to that socket, one with an address to that address. */
  lemma TargetExactly(u: UpstreamEntry, where: string)
    requires OneTarget(u)
    ensures TargetOf(u) == Some(Unix(where)) <==> u.localSocket == Some(where)
    ensures TargetOf(u) == Some(Tcp(where)) <==> u.localAddr == Some(where)
  {
  }

  /** What a lookup answers: the target of the upstream, or without an upstream the
      connection chosen for the host with its client and its mode. */
  lemma LookupRouteExactly(v: View, host: string, closed: set<ConnId>, route: Route)
    ensures LookupRoute(v, host, closed) == Some(route)
            <==> match route
                 case Local(target) => exists up :: UpstreamFor(v, host) == Some(up) && up.target == target
                 case Tunnel(client, mode, conn) =>
                   && UpstreamFor(v, host).None? && host in v.inner
                   && v.inner[host].client == client && v.inner[host].mode == mode
                   && Choice(v.inner[host], closed) == Some(conn)
  {
  }

  lemma RoutesToUpstreamIsLocal(v: View, host: string, closed: set<ConnId>)
    ensures RoutesToUpstream(v, host) <==> UpstreamFor(v, host).Some?
    ensures RoutesToUpstream(v, host)
            <==> LookupRoute(v, host, closed).Some? && LookupRoute(v, host, closed).value.Local?
  {
  }

  // ----------------------------------------------------- letter case of a host

  /** Lookups of the two hosts give the same answers. */
  predicate SameService(d: HostRoutes, e: HostRoutes) {
    d.client == e.client && d.mode == e.mode && Order(d) == Order(e)
  }

  lemma OpenTunnelIsFound(e: HostRoutes)
    requires e.conns != []
    ensures Choice(e, {}).Some?
  {
  }

  /** A lookup gives the same route for a host and for its lowercase form, whatever
      connections are closed, exactly when an upstream takes the host, or it is
      lowercase already, or neither form has a tunnel, or both have and give the
      same connections of the same client in the same order. */
  lemma CaseMattersForTunnelsExactly(v: View, host: string)
    requires WellFormed(v.inner)
    ensures (forall closed: set<ConnId> :: LookupRoute(v, host, closed) == LookupRoute(v, Lower(host), closed))
            <==> || UpstreamFor(v, host).Some?
                 || IsLower(host)
                 || (host !in v.inner && Lower(host) !in v.inner)
                 || (host in v.inner && Lower(host) in v.inner && SameService(v.inner[host], v.inner[Lower(host)]))
  {
    LowerIdempotent(host);
    var lower := Lower(host);
    if UpstreamFor(v, host).None? {
      if host in v.inner {
        OpenTunnelIsFound(v.inner[host]);
      }
      if lower in v.inner {
        OpenTunnelIsFound(v.inner[lower]);
      }
      if host in v.inner && lower in v.inner {
        SameRoutesExactly(v, host, lower);
      } else if host in v.inner || lower in v.inner {
        assert LookupRoute(v, host, {}) != LookupRoute(v, lower, {});
      }
    }
  }

  lemma SameRoutesExactly(v: View, g: string, h: string)
    requires WellFormed(v.inner) && g in v.inner && h in v.inner
    requires UpstreamFor(v, g).None? && UpstreamFor(v, h).None?
    ensures (forall closed: set<ConnId> :: LookupRoute(v, g, closed) == LookupRoute(v, h, closed))
            <==> SameService(v.inner[g], v.inner[h])
  {
    var d, e := v.inner[g], v.inner[h];
    SameChoicesExactly(d, e);
    OpenTunnelIsFound(d);
    if forall closed: set<ConnId> :: LookupRoute(v, g, closed) == LookupRoute(v, h, closed) {
      assert LookupRoute(v, g, {}) == LookupRoute(v, h, {});
      forall closed: set<ConnId> ensures Choice(d, closed) == Choice(e, closed) {
        assert LookupRoute(v, g, closed) == LookupRoute(v, h, closed);
      }
    }
  }
}
