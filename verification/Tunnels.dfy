/** The tunnel server as a state machine. Many connection handlers share one
    routing table and one registry; the steps of different handlers, revocations,
    peers that close and public lookups interleave freely. */
module Tunnels {
  import opened Prelude
  import opened Config
  import B = Backend
  import R = Routing
  import opened Resolution
  import opened ControlPlane

  type ConnId = R.ConnId
  type Grant = B.Grant

  /** Where one connection handler is. A phase that follows `Admitted` carries
      the grant of the backend. */
  datatype Phase =
    | AwaitStream
    | AwaitHello
    | AwaitAdmit(token: Token)
    | Admitted(grant: Grant)
    | Installing(grant: Grant)
    | Closing(grant: Grant, displaced: seq<ConnId>)
    | Welcoming(grant: Grant)
    | Undoing(grant: Grant)
    | Registering(grant: Grant)
    | Holding(grant: Grant)
    | Removing(grant: Grant)
    | Unregistering(grant: Grant)
    | Rejecting
    | Done

  /** A handler with the events that its connection has caused so far. */
  datatype Handler = Handler(peer: string, phase: Phase, events: seq<Event>)

  /** `closed` holds the connections with a close reason; `revoked` those that a
      revocation took out of the table and has yet to close. */
  datatype State = State(
    view: View, tunnels: Registry, closed: set<ConnId>, revoked: set<ConnId>,
    handlers: map<ConnId, Handler>, cancelled: bool)

  /** The policy: any answers at all, or those of the config file. */
  datatype Policy = AnyBackend | StaticBackend(cfg: ServerConfig)

  ghost predicate MayGrant(p: Policy, token: Token, g: Grant) {
    p.StaticBackend? ==> B.StaticallyAdmits(p.cfg, token, Some(g))
  }

  datatype Step =
    | Accept(id: ConnId, peer: string)
    | StreamOpened(id: ConnId)
    | StreamFailed(id: ConnId)
    | StreamTimeout(id: ConnId)
    | HelloRead(id: ConnId, token: Token)
    | HelloRefused(id: ConnId)
    | HelloEof(id: ConnId)
    | BackendGrants(id: ConnId, grant: Grant)
    | BackendRefuses(id: ConnId)
    | CheckOpen(id: ConnId)
    | Install(id: ConnId)
    | CloseDisplaced(id: ConnId)
    | AllDisplacedClosed(id: ConnId)
    | WelcomeSent(id: ConnId)
    | WelcomeFailed(id: ConnId)
    | Undo(id: ConnId)
    | Register(id: ConnId)
    | PeerGone(id: ConnId)
    | ShutDown(id: ConnId)
    | Remove(id: ConnId)
    | Unregister(id: ConnId)
    | RejectClosed(id: ConnId)
    | PeerCloses(id: ConnId)
    | Cancel
    | Kick(client: string)
    | CloseRevoked(id: ConnId)
    | ReplaceTerminated(full: seq<string>)
    | Lookup(host: string)

  function InfoOf(g: Grant, peer: string): TunnelInfo {
    TunnelInfo(g.client, peer, seq(|g.hosts|, i requires 0 <= i < |g.hosts| => g.hosts[i].host))
  }

  /** The connections this handler still has to close. */
  function Displaced(p: Phase): seq<ConnId> {
    if p.Closing? then p.displaced else []
  }

  /** Someone holds a handle of this connection in order to close it. */
  ghost predicate PendingClose(s: State, c: ConnId) {
    c in s.revoked || exists d :: d in s.handlers && c in Displaced(s.handlers[d].phase)
  }

  ghost predicate InPhase(s: State, id: ConnId, p: Phase) {
    id in s.handlers && s.handlers[id].phase == p
  }

  ghost predicate Enabled(p: Policy, s: State, step: Step) {
    match step
    case Accept(id, peer) =>
      // a stable id is reused only when no handle of the old connection is left
      (id in s.handlers ==> s.handlers[id].phase.Done?) && !PendingClose(s, id)
    case StreamOpened(id) => InPhase(s, id, AwaitStream)
    case StreamFailed(id) => InPhase(s, id, AwaitStream)
    case StreamTimeout(id) => InPhase(s, id, AwaitStream)
    case HelloRead(id, token) => InPhase(s, id, AwaitHello)
    case HelloRefused(id) => InPhase(s, id, AwaitHello)
    case HelloEof(id) => InPhase(s, id, AwaitHello)
    case BackendGrants(id, g) =>
      id in s.handlers && s.handlers[id].phase.AwaitAdmit? && MayGrant(p, s.handlers[id].phase.token, g)
    case BackendRefuses(id) => id in s.handlers && s.handlers[id].phase.AwaitAdmit?
    case CheckOpen(id) => id in s.handlers && s.handlers[id].phase.Admitted?
    case Install(id) => id in s.handlers && s.handlers[id].phase.Installing?
    case CloseDisplaced(id) => id in s.handlers && Displaced(s.handlers[id].phase) != []
    case AllDisplacedClosed(id) =>
      id in s.handlers && s.handlers[id].phase.Closing? && s.handlers[id].phase.displaced == []
    case WelcomeSent(id) => id in s.handlers && s.handlers[id].phase.Welcoming?
    case WelcomeFailed(id) => id in s.handlers && s.handlers[id].phase.Welcoming?
    case Undo(id) => id in s.handlers && s.handlers[id].phase.Undoing?
    case Register(id) => id in s.handlers && s.handlers[id].phase.Registering?
    case PeerGone(id) => id in s.handlers && s.handlers[id].phase.Holding? && id in s.closed
    case ShutDown(id) => id in s.handlers && s.handlers[id].phase.Holding? && s.cancelled
    case Remove(id) => id in s.handlers && s.handlers[id].phase.Removing?
    case Unregister(id) => id in s.handlers && s.handlers[id].phase.Unregistering?
    case RejectClosed(id) => InPhase(s, id, Rejecting)
    case PeerCloses(id) => id in s.handlers
    case Cancel => true
    case Kick(client) => true
    case CloseRevoked(id) => id in s.revoked
    case ReplaceTerminated(full) => true
    case Lookup(host) => true
  }

  function At(s: State, id: ConnId, phase: Phase): State
    requires id in s.handlers
  {
    s.(handlers := s.handlers[id := s.handlers[id].(phase := phase)])
  }

  function Close(s: State, id: ConnId): State {
    s.(closed := s.closed + {id})
  }

  function WithTable(s: State, t: R.Table): State {
    s.(view := s.view.(inner := t))
  }

  ghost function Apply(p: Policy, s: State, step: Step): State
    requires Enabled(p, s, step)
  {
    match step
    case Accept(id, peer) =>
      s.(handlers := s.handlers[id := Handler(peer, AwaitStream, [])], closed := s.closed - {id})
    case StreamOpened(id) => At(s, id, AwaitHello)
    case StreamFailed(id) => At(s, id, Done)
    case StreamTimeout(id) => Close(At(s, id, Done), id)
    case HelloRead(id, token) => At(s, id, AwaitAdmit(token))
    case HelloRefused(id) => At(s, id, Rejecting)
    case HelloEof(id) => At(s, id, Done)
    case BackendGrants(id, g) => At(s, id, Admitted(g))
    case BackendRefuses(id) => At(s, id, Rejecting)
    case CheckOpen(id) =>
      if id in s.closed then At(s, id, Done) else At(s, id, Installing(s.handlers[id].phase.grant))
    case Install(id) =>
      var g := s.handlers[id].phase.grant;
      var r := R.Install(s.view.inner, g.hosts, g.client, g.balance, id);
      At(WithTable(s, r.table), id, Closing(g, r.displaced))
    case CloseDisplaced(id) =>
      var ph := s.handlers[id].phase;
      Close(At(s, id, Closing(ph.grant, ph.displaced[1..])), ph.displaced[0])
    case AllDisplacedClosed(id) => At(s, id, Welcoming(s.handlers[id].phase.grant))
    case WelcomeSent(id) => At(s, id, Registering(s.handlers[id].phase.grant))
    case WelcomeFailed(id) => At(s, id, Undoing(s.handlers[id].phase.grant))
    case Undo(id) => At(WithTable(s, R.RemoveConn(s.view.inner, id)), id, Done)
    case Register(id) =>
      var h := s.handlers[id];
      var info := InfoOf(h.phase.grant, h.peer);
      s.(tunnels := s.tunnels[id := info],
         handlers := s.handlers[id := Handler(h.peer, Holding(h.phase.grant), h.events + [UpOf(info)])])
    case PeerGone(id) => At(s, id, Removing(s.handlers[id].phase.grant))
    case ShutDown(id) => Close(At(s, id, Removing(s.handlers[id].phase.grant)), id)
    case Remove(id) =>
      At(WithTable(s, R.RemoveConn(s.view.inner, id)), id, Unregistering(s.handlers[id].phase.grant))
    case Unregister(id) =>
      var h := s.handlers[id];
      s.(tunnels := s.tunnels - {id},
         handlers := s.handlers[id := Handler(h.peer, Done, h.events + UnregisterEvents(s.tunnels, id))])
    case RejectClosed(id) => Close(At(s, id, Done), id)
    case PeerCloses(id) => Close(s, id)
    case Cancel => s.(cancelled := true)
    case Kick(client) =>
      WithTable(s, R.Kick(s.view.inner, client)).(revoked := s.revoked + R.ConnsOf(s.view.inner, client))
    case CloseRevoked(id) => Close(s, id).(revoked := s.revoked - {id})
    case ReplaceTerminated(full) => s.(view := SetTerminated(s.view, full))
    case Lookup(host) => WithTable(s, LookupTable(s.view, host, s.closed))
  }

  /** A server that has just started: no tunnels, no connections. */
  ghost predicate Init(p: Policy, s: State) {
    && s.view.inner == map[] && s.tunnels == map[] && s.closed == {} && s.revoked == {}
    && s.handlers == map[] && !s.cancelled
    && (p.StaticBackend? ==> s.view == FromConfig(p.cfg.hostnames, p.cfg.upstreams))
  }

  ghost predicate Next(p: Policy, s: State, s': State) {
    exists step :: Enabled(p, s, step) && s' == Apply(p, s, step)
  }

  /** A finite run: the states it goes through. */
  ghost predicate IsRun(p: Policy, run: seq<State>) {
    && run != [] && Init(p, run[0])
    && forall k :: 0 <= k < |run| - 1 ==> Next(p, run[k], run[k + 1])
  }
}
