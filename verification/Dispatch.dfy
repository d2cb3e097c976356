/** What the public listener does with a connection once its SNI is known. */
module Dispatch {
  import opened Prelude
  import opened Config
  import opened Routing
  import opened RoundRobin
  import opened Resolution
  import opened Modes
  import B = Backend
  import T = Tunnels
  import TunnelSafety
  import Reach
  import opened Hosts
  import StaticMode

  /** The application protocol a terminated handshake settled on. */
  datatype Alpn = AcmeTls | H2 | Http11 | NoAlpn

  /** How the bytes reach the backend: as they came, or decrypted. */
  datatype Wire = RawTls | Plaintext

  datatype Action =
    | AnswerChallenge
    | RefuseNoClientCert
    | ProxyH2
    | ProxyH1
    | PipeTunnel(wire: Wire, client: string, header: TlsMode, conn: ConnId)
    | PipeLocal(wire: Wire, target: Target)
    | Serve502
    | Drop

  /** The part of `handle_public` after the SNI: `certMissing` says that a client
      certificate is required and the client sent none. */
  function Decide(v: View, sni: string, alpn: Alpn, certMissing: bool, closed: set<ConnId>): Action {
    if IsTerminated(v, sni) then
      if alpn == AcmeTls then AnswerChallenge
      else if certMissing then RefuseNoClientCert
      else
        var offload := IsOffload(v, sni);
        var h1 := alpn == Http11 || (alpn == NoAlpn && RoutesToUpstream(v, sni));
        if !offload && alpn == H2 then ProxyH2
        else if !offload && h1 then ProxyH1
        else
          match LookupRoute(v, sni, closed)
          case Some(Tunnel(client, mode, conn)) => PipeTunnel(Plaintext, client, mode, conn)
          case Some(Local(target)) => PipeLocal(Plaintext, target)
          case None => if offload then Drop else Serve502
    else
      match LookupRoute(v, sni, closed)
      case Some(Tunnel(client, mode, conn)) => PipeTunnel(RawTls, client, mode, conn)
      case Some(Local(target)) => PipeLocal(RawTls, target)
      case None => Drop
  }

  /** The TLS session is done and the client may go on: no challenge, and a client
      certificate where one is required. */
  predicate Proceeds(v: View, sni: string, alpn: Alpn, certMissing: bool) {
    IsTerminated(v, sni) && alpn != AcmeTls && !certMissing
  }

  /** When the listener answers a challenge, refuses, proxies, gives up or drops. */
  lemma ActionsExactly(v: View, sni: string, alpn: Alpn, certMissing: bool, closed: set<ConnId>)
    ensures var a, route := Decide(v, sni, alpn, certMissing, closed), LookupRoute(v, sni, closed);
            var http := Proceeds(v, sni, alpn, certMissing) && !IsOffload(v, sni);
            && (a == AnswerChallenge <==> IsTerminated(v, sni) && alpn == AcmeTls)
            && (a == RefuseNoClientCert <==> IsTerminated(v, sni) && alpn != AcmeTls && certMissing)
            && (a == ProxyH2 <==> http && alpn == H2)
            && (a == ProxyH1 <==> http && (alpn == Http11 || (alpn == NoAlpn && UpstreamFor(v, sni).Some?)))
            && (a == Serve502 <==> http && alpn == NoAlpn && route == None)
            && (a == Drop <==> route == None && (!IsTerminated(v, sni)
                                                 || (Proceeds(v, sni, alpn, certMissing) && IsOffload(v, sni))))
  {
    RoutesToUpstreamIsLocal(v, sni, closed);
  }

  /** When the listener pipes, where to, and in which form. */
  lemma PipesExactly(v: View, sni: string, alpn: Alpn, certMissing: bool, closed: set<ConnId>, wire: Wire)
    ensures var a, route := Decide(v, sni, alpn, certMissing, closed), LookupRoute(v, sni, closed);
            var piped := if wire == RawTls then !IsTerminated(v, sni)
                         else Proceeds(v, sni, alpn, certMissing) && (IsOffload(v, sni) || alpn == NoAlpn);
            && (forall client, mode, conn ::
                  a == PipeTunnel(wire, client, mode, conn) <==> piped && route == Some(Tunnel(client, mode, conn)))
            && (forall target ::
                  a == PipeLocal(wire, target)
                  <==> piped && route == Some(Local(target)) && (wire == Plaintext ==> IsOffload(v, sni)))
  {
    RoutesToUpstreamIsLocal(v, sni, closed);
  }

  /** Without the client certificate that is required nothing that was decrypted is
      handed on, to no backend and by no proxy. */
  lemma NothingDecryptedWithoutCert(v: View, sni: string, alpn: Alpn, closed: set<ConnId>)
    ensures var a := Decide(v, sni, alpn, true, closed);
            !a.ProxyH1? && !a.ProxyH2? && (a.PipeTunnel? || a.PipeLocal? ==> a.wire == RawTls)
  {
  }

  predicate ServesHttpLocally(v: View, sni: string) {
    IsTerminated(v, sni) && !IsOffload(v, sni) && RoutesToUpstream(v, sni)
  }

  /** In any table state, a terminated host that is not offload and has a local
      upstream goes through the HTTP proxy whatever protocol was settled on, so
      decrypted bytes are piped to a local upstream only for an offload host. */
  lemma LocalUpstreamsAreProxied(v: View, sni: string, alpn: Alpn, certMissing: bool, closed: set<ConnId>)
    ensures var a := Decide(v, sni, alpn, certMissing, closed);
            && (ServesHttpLocally(v, sni) && alpn != AcmeTls && !certMissing
                ==> a == if alpn == H2 then ProxyH2 else ProxyH1)
            && (a.PipeLocal? && a.wire == Plaintext ==> IsOffload(v, sni))
  {
    RoutesToUpstreamIsLocal(v, sni, closed);
  }

  /** The TLS mode the server applied to the bytes it hands on. */
  function Applied(v: View, sni: string, wire: Wire): TlsMode {
    match wire
    case RawTls => Passthrough
    case Plaintext => if IsOffload(v, sni) then TlsOffload else Terminated
  }

  /** The header the backend gets, also with a request that is proxied, carries
      the mode the server applied. */
  ghost predicate HeaderIsRight(v: View, sni: string, a: Action, closed: set<ConnId>) {
    match a
    case PipeTunnel(wire, _, header, _) => header == Applied(v, sni, wire)
    case ProxyH2 => ProxiedHeaderIsRight(v, sni, closed)
    case ProxyH1 => ProxiedHeaderIsRight(v, sni, closed)
    case _ => true
  }

  ghost predicate ProxiedHeaderIsRight(v: View, sni: string, closed: set<ConnId>) {
    match LookupRoute(v, sni, closed)
    case Some(Tunnel(_, mode, _)) => mode == Applied(v, sni, Plaintext)
    case _ => true
  }

  ghost predicate HeadersAreRight(v: View) {
    forall sni, alpn, certMissing, closed: set<ConnId> ::
      HeaderIsRight(v, sni, Decide(v, sni, alpn, certMissing, closed), closed)
  }

  /** What the listener does with a lowercase host that no wildcard serves. */
  function ListenerMode(v: View, key: string): TlsMode {
    if key !in v.terminated then Passthrough
    else if key in v.offload then TlsOffload
    else Terminated
  }

  /** Every host that its tunnels serve was granted with the mode of the listener. */
  ghost predicate GrantsMatchListener(v: View) {
    forall h :: h in v.inner && UpstreamFor(v, h).None? ==> v.inner[h].mode == ListenerMode(v, Lower(h))
  }

  lemma MatchingGrantsHeadRight(
    v: View, sni: string, alpn: Alpn, certMissing: bool, closed: set<ConnId>)
    requires GrantsMatchListener(v)
    ensures HeaderIsRight(v, sni, Decide(v, sni, alpn, certMissing, closed), closed)
  {
    RoutesToUpstreamIsLocal(v, sni, closed);
  }

  lemma RightHeadersMatch(v: View, h: string)
    requires WellFormed(v.inner) && h in v.inner && UpstreamFor(v, h).None?
    requires HeaderIsRight(v, h, Decide(v, h, NoAlpn, false, {}), {})
    ensures v.inner[h].mode == ListenerMode(v, Lower(h))
  {
    OpenTunnelIsFound(v.inner[h]);
    RoutesToUpstreamIsLocal(v, h, {});
  }

  /** In any well-formed table, whatever the backend granted and whatever was
      provisioned: the header is right for every SNI, every protocol the handshake
      can settle on and every set of closed connections, exactly when each host
      that its tunnels serve was granted with the mode of the listener. */
  lemma HeadersAreRightExactly(v: View)
    requires WellFormed(v.inner)
    ensures HeadersAreRight(v) <==> GrantsMatchListener(v)
  {
    if GrantsMatchListener(v) {
      forall sni, alpn, certMissing, closed: set<ConnId>
        ensures HeaderIsRight(v, sni, Decide(v, sni, alpn, certMissing, closed), closed)
      {
        MatchingGrantsHeadRight(v, sni, alpn, certMissing, closed);
      }
    }
    if HeadersAreRight(v) {
      forall h | h in v.inner && UpstreamFor(v, h).None? ensures v.inner[h].mode == ListenerMode(v, Lower(h)) {
        assert HeaderIsRight(v, h, Decide(v, h, NoAlpn, false, {}), {});
        RightHeadersMatch(v, h);
      }
    }
  }

  /** The tables of all runs, with any backend, are well-formed. */
  lemma HeadersAreRightAtExactly(p: T.Policy, run: seq<T.State>, k: nat)
    requires T.IsRun(p, run) && k < |run|
    ensures HeadersAreRight(run[k].view) <==> GrantsMatchListener(run[k].view)
  {
    TunnelSafety.RunKeeps(p, run, k);
    HeadersAreRightExactly(run[k].view);
  }

  /** The failing case: a backend grants `a.x` as terminated, but nobody provisioned
      it. Its bytes are piped as they came under a header that says "terminated". */
  lemma UnprovisionedGrantMisleads() returns (run: seq<T.State>)
    ensures T.IsRun(T.AnyBackend, run)
    ensures var v, closed := Reach.Last(run).view, Reach.Last(run).closed;
            && Decide(v, "a.x", NoAlpn, false, closed) == PipeTunnel(RawTls, "a", Terminated, 0)
            && !HeadersAreRight(v)
  {
    var v := FromConfig([], []);
    var g := B.Grant("a", RoundRobin, [B.GrantedHost("a.x", Terminated)]);
    run := Reach.Connect(T.AnyBackend, v, seq(32, i => 0), g);
    FirstInstall(g.hosts[0]);
    var e := HostRoutes("a", Terminated, [0], 0);
    var after := Reach.Last(run).view;
    assert after == v.(inner := map["a.x" := e]);
    assert Probe(e.conns, {}, 0, 1).found == Some(0);
    assert !HeaderIsRight(after, "a.x", Decide(after, "a.x", NoAlpn, false, {}), {});
  }

  lemma FirstInstall(g: B.GrantedHost)
    ensures Install(map[], [g], "a", RoundRobin, 0).table == map[g.host := HostRoutes("a", g.mode, [0], 0)]
  {
    var t: Table := map[];
    assert [g][..0] == [];
    assert Install(t, [g][..0], "a", RoundRobin, 0) == Installed(t, []);
    assert [] + [0] == [0 as ConnId];
    assert InstallOne(t, g, "a", RoundRobin, 0).table == map[g.host := HostRoutes("a", g.mode, [0], 0)];
  }

  /** In a static table of an unambiguous config the data header carries the mode
      the server applied, for every SNI. */
  lemma HeaderTellsWhatWasDone(cfg: ServerConfig, v: View)
    requires Valid(cfg) && Unambiguous(cfg) && StaticView(cfg, v)
    ensures HeadersAreRight(v)
  {
    forall h | h in v.inner && UpstreamFor(v, h).None? ensures v.inner[h].mode == ListenerMode(v, Lower(h)) {
      UnambiguousAgrees(cfg, v, h);
    }
    forall sni, alpn, certMissing, closed: set<ConnId>
      ensures HeaderIsRight(v, sni, Decide(v, sni, alpn, certMissing, closed), closed)
    {
      MatchingGrantsHeadRight(v, sni, alpn, certMissing, closed);
    }
  }

  /** A host in passthrough mode is never decrypted: whatever the peer offers,
      its bytes are piped as they came or the connection is dropped. */
  lemma PassthroughIsNeverDecrypted(
    cfg: ServerConfig, v: View, sni: string, alpn: Alpn, certMissing: bool, closed: set<ConnId>)
    requires Valid(cfg) && Unambiguous(cfg) && StaticView(cfg, v)
    requires RoutedMode(v, sni) == Some(Passthrough)
    ensures var a := Decide(v, sni, alpn, certMissing, closed);
            a == Drop || ((a.PipeTunnel? || a.PipeLocal?) && a.wire == RawTls)
  {
    UnambiguousAgrees(cfg, v, sni);
  }

  /** The same for every moment of every run with a validated config, while the
      terminated set is that of the config. */
  lemma HeadersAreRightInEveryRun(cfg: ServerConfig, run: seq<T.State>, k: nat)
    requires Valid(cfg) && Unambiguous(cfg) && T.IsRun(T.StaticBackend(cfg), run) && k < |run|
    requires Unprovisioned(cfg, run[k].view)
    ensures HeadersAreRight(run[k].view)
  {
    StaticMode.StaticRunKeeps(cfg, run, k);
    HeaderTellsWhatWasDone(cfg, run[k].view);
  }
}
