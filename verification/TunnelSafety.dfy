/** What every run of the tunnel server keeps, for any backend. */
module TunnelSafety {
  import opened Prelude
  import opened Hosts
  import opened Config
  import B = Backend
  import R = Routing
  import opened Resolution
  import opened ControlPlane
  import opened Tunnels

  /** The grant whose routes this handler has installed and not yet removed. */
  function RoutedGrant(p: Phase): Option<Grant> {
    match p
    case Closing(g, _) => Some(g)
    case Welcoming(g) => Some(g)
    case Undoing(g) => Some(g)
    case Registering(g) => Some(g)
    case Holding(g) => Some(g)
    case Removing(g) => Some(g)
    case _ => None
  }

  /** The grant under which this handler's tunnel is registered. */
  function RegisteredGrant(p: Phase): Option<Grant> {
    match p
    case Holding(g) => Some(g)
    case Removing(g) => Some(g)
    case Unregistering(g) => Some(g)
    case _ => None
  }

  /** Some handler is running connection `c` with routes from grant `g`. */
  ghost predicate RunsWith(s: State, c: ConnId, g: Grant) {
    c in s.handlers && RoutedGrant(s.handlers[c].phase) == Some(g)
  }

  /** A host lists only connections whose handlers installed it: the client of
      the entry is the client of the grant, and the grant names the host. */
  ghost predicate ListedRightly(s: State, h: string, c: ConnId) {
    exists g :: RunsWith(s, c, g) && h in s.view.inner && g.client == s.view.inner[h].client && h in B.HostSet(g.hosts)
  }

  ghost predicate TableOk(s: State) {
    && R.WellFormed(s.view.inner)
    && forall h, c :: R.Lists(s.view.inner, h, c) ==> ListedRightly(s, h, c)
  }

  /** The connection is listed under the host, or it is closed or about to be. */
  ghost predicate ServedOrClosing(s: State, id: ConnId, h: string) {
    R.Lists(s.view.inner, h, id) || id in s.closed || PendingClose(s, id)
  }

  /** No live tunnel is forgotten: it serves every host that it was granted. */
  ghost predicate NoOrphan(s: State) {
    forall id, g, h :: RunsWith(s, id, g) && h in B.HostSet(g.hosts) ==> ServedOrClosing(s, id, h)
  }

  ghost predicate UpThenDown(events: seq<Event>, peer: string) {
    && |events| == 2 && events[0].TunnelUp? && events[0].peer == peer
    && events[1] == TunnelDown(events[0].client, peer)
  }

  /** No event, one `TunnelUp` while registered, or a `TunnelUp` and its `TunnelDown`. */
  ghost predicate HistoryOk(h: Handler) {
    match RegisteredGrant(h.phase)
    case Some(g) => h.events == [UpOf(InfoOf(g, h.peer))]
    case None => h.events == [] || (h.phase.Done? && UpThenDown(h.events, h.peer))
  }

  /** The registry entry of a connection: there while it is registered, with its metadata. */
  ghost predicate EntryOk(tunnels: Registry, id: ConnId, h: Handler) {
    match RegisteredGrant(h.phase)
    case Some(g) => id in tunnels && tunnels[id] == InfoOf(g, h.peer)
    case None => id !in tunnels
  }

  /** The registry and the events agree with where each handler is. */
  ghost predicate BooksOk(tunnels: Registry, handlers: map<ConnId, Handler>) {
    && tunnels.Keys <= handlers.Keys
    && forall id :: id in handlers ==> EntryOk(tunnels, id, handlers[id]) && HistoryOk(handlers[id])
  }

  ghost predicate RoutesOk(s: State) {
    TableOk(s) && NoOrphan(s)
  }

  ghost predicate Inv(s: State) {
    RoutesOk(s) && BooksOk(s.tunnels, s.handlers)
  }

  // ------------------------------------------------- single steps: the routes

  /** From `s` to `s'` no connection is newly listed or newly routed, and one
      that leaves a list, a pending close or the closed set is accounted for. */
  ghost predicate Shrinks(s: State, s': State) {
    && R.WellFormed(s'.view.inner)
    && (forall h, c :: R.Lists(s'.view.inner, h, c) ==>
          R.Lists(s.view.inner, h, c) && s'.view.inner[h].client == s.view.inner[h].client)
    && (forall h, c, g :: R.Lists(s'.view.inner, h, c) && RunsWith(s, c, g) ==> RunsWith(s', c, g))
    && (forall c, g :: RunsWith(s', c, g) ==> RunsWith(s, c, g) && Keeps(s, s', c))
  }

  ghost predicate Keeps(s: State, s': State, c: ConnId) {
    && (forall h :: R.Lists(s.view.inner, h, c) ==> ServedOrClosing(s', c, h))
    && (c in s.closed ==> c in s'.closed)
    && (c in s.revoked ==> c in s'.revoked || c in s'.closed)
    && (forall d :: d in s.handlers && c in Displaced(s.handlers[d].phase) ==>
          c in s'.closed || (d in s'.handlers && c in Displaced(s'.handlers[d].phase)))
  }

  lemma ShrinkKeeps(s: State, s': State)
    requires RoutesOk(s) && Shrinks(s, s')
    ensures RoutesOk(s')
  {
    forall h, c | R.Lists(s'.view.inner, h, c) ensures ListedRightly(s', h, c) {
      assert R.Lists(s.view.inner, h, c) && ListedRightly(s, h, c);
      var g :| RunsWith(s, c, g) && g.client == s.view.inner[h].client && h in B.HostSet(g.hosts);
      assert RunsWith(s', c, g);
    }
    forall c, g, h | RunsWith(s', c, g) && h in B.HostSet(g.hosts) ensures ServedOrClosing(s', c, h) {
      assert RunsWith(s, c, g) && ServedOrClosing(s, c, h) && Keeps(s, s', c);
    }
  }

  /** A handler moves on without touching the table. */
  lemma MoveKeepsRoutes(s: State, id: ConnId, h': Handler, closing: set<ConnId>)
    requires RoutesOk(s) && id in s.handlers
    requires RoutedGrant(h'.phase) == RoutedGrant(s.handlers[id].phase)
    requires forall c :: c in Displaced(s.handlers[id].phase) ==> c in Displaced(h'.phase) || c in closing
    ensures RoutesOk(s.(handlers := s.handlers[id := h'], closed := s.closed + closing))
    ensures closing == {} ==> RoutesOk(s.(handlers := s.handlers[id := h']))
  {
    ShrinkKeeps(s, s.(handlers := s.handlers[id := h'], closed := s.closed + closing));
    assert closing == {} ==> s.closed + closing == s.closed;
  }

  lemma AcceptKeepsRoutes(s: State, id: ConnId, peer: string)
    requires RoutesOk(s) && (id in s.handlers ==> s.handlers[id].phase.Done?) && !PendingClose(s, id)
    ensures RoutesOk(s.(handlers := s.handlers[id := Handler(peer, AwaitStream, [])], closed := s.closed - {id}))
  {
    UnroutedIsUnlisted(s, id);
    ShrinkKeeps(s, s.(handlers := s.handlers[id := Handler(peer, AwaitStream, [])], closed := s.closed - {id}));
  }

  /** A connection that has no routes yet is listed nowhere. */
  lemma UnroutedIsUnlisted(s: State, id: ConnId)
    requires TableOk(s) && (id in s.handlers ==> RoutedGrant(s.handlers[id].phase).None?)
    ensures forall h :: !R.Lists(s.view.inner, h, id)
  {
    assert forall h :: R.Lists(s.view.inner, h, id) ==> ListedRightly(s, h, id);
  }

  ghost function InstallStep(s: State, id: ConnId): State
    requires id in s.handlers && s.handlers[id].phase.Installing?
  {
    var g := s.handlers[id].phase.grant;
    var r := R.Install(s.view.inner, g.hosts, g.client, g.balance, id);
    At(WithTable(s, r.table), id, Closing(g, r.displaced))
  }

  lemma InstallKeepsRuns(s: State, id: ConnId, c: ConnId, g: Grant)
    requires id in s.handlers && s.handlers[id].phase.Installing?
    ensures RunsWith(InstallStep(s, id), c, g)
            <==> (if c == id then g == s.handlers[id].phase.grant else RunsWith(s, c, g))
  {
  }

  lemma InstallKeepsTable(s: State, id: ConnId)
    requires TableOk(s) && id in s.handlers && s.handlers[id].phase.Installing?
    ensures TableOk(InstallStep(s, id))
  {
    var s', g, t := InstallStep(s, id), s.handlers[id].phase.grant, s.view.inner;
    var t' := s'.view.inner;
    UnroutedIsUnlisted(s, id);
    R.InstallKeepsForm(t, g.hosts, g.client, g.balance, id);
    R.InstallShape(t, g.hosts, g.client, g.balance, id);
    forall h, c | R.Lists(t', h, c) ensures ListedRightly(s', h, c) {
      if h in B.HostSet(g.hosts) {
        assert R.BelongsTo(t, h, g.client, id, t');
      } else {
        assert R.KeepsOthers(t, B.HostSet(g.hosts), t');
      }
      if c == id && h in B.HostSet(g.hosts) {
        assert RunsWith(s', id, g);
      } else {
        assert R.Lists(t, h, c) && ListedRightly(s, h, c);
        var d :| RunsWith(s, c, d) && d.client == t[h].client && h in B.HostSet(d.hosts);
        assert RunsWith(s', c, d);
      }
    }
  }

  lemma InstallKeepsNoOrphan(s: State, id: ConnId)
    requires RoutesOk(s) && id in s.handlers && s.handlers[id].phase.Installing?
    ensures NoOrphan(InstallStep(s, id))
  {
    var s', g, t := InstallStep(s, id), s.handlers[id].phase.grant, s.view.inner;
    UnroutedIsUnlisted(s, id);
    var r := R.Install(t, g.hosts, g.client, g.balance, id);
    R.InstallKeepsForm(t, g.hosts, g.client, g.balance, id);
    R.InstallAccounts(t, g.hosts, g.client, g.balance, id);
    forall c | c in r.displaced ensures PendingClose(s', c) {
      assert c in Displaced(s'.handlers[id].phase);
    }
    forall c | PendingClose(s, c) ensures PendingClose(s', c) {
      if c !in s.revoked {
        var d :| d in s.handlers && c in Displaced(s.handlers[d].phase);
        assert d in s'.handlers && c in Displaced(s'.handlers[d].phase);
      }
    }
    forall c, d, h | RunsWith(s', c, d) && h in B.HostSet(d.hosts) ensures ServedOrClosing(s', c, h) {
      InstallKeepsRuns(s, id, c, d);
      if c != id {
        assert ServedOrClosing(s, c, h);
        assert R.Lists(t, h, c) ==> R.Lists(r.table, h, c) || c in r.displaced;
      } else {
        R.InstallListsNew(t, g.hosts, g.client, g.balance, id, h);
      }
    }
  }

  /** A handler takes its own connection out of the table. */
  lemma RemoveKeepsRoutes(s: State, id: ConnId, phase: Phase)
    requires RoutesOk(s) && id in s.handlers && !s.handlers[id].phase.Closing? && RoutedGrant(phase).None?
    ensures RoutesOk(At(WithTable(s, R.RemoveConn(s.view.inner, id)), id, phase))
  {
    R.RemoveConnEffect(s.view.inner, id);
    ShrinkKeeps(s, At(WithTable(s, R.RemoveConn(s.view.inner, id)), id, phase));
  }

  lemma KickKeepsRoutes(s: State, client: string)
    requires RoutesOk(s)
    ensures RoutesOk(Apply(AnyBackend, s, Kick(client)))
  {
    var s' := Apply(AnyBackend, s, Kick(client));
    forall h, c | R.Lists(s.view.inner, h, c) ensures ServedOrClosing(s', c, h) {
      if s.view.inner[h].client == client {
        assert c in R.ConnsOf(s.view.inner, client);
      }
    }
    ShrinkKeeps(s, s');
  }

  /** Closing a connection, or the end of a revocation of it. */
  lemma CloseKeepsRoutes(s: State, id: ConnId, revoked: set<ConnId>)
    requires RoutesOk(s) && s.revoked - {id} <= revoked <= s.revoked
    ensures RoutesOk(Close(s, id).(revoked := revoked))
  {
    ShrinkKeeps(s, Close(s, id).(revoked := revoked));
  }

  /** Only cursors of the table move, and the provisioned set at will. */
  lemma ViewKeepsRoutes(s: State, s': State)
    requires RoutesOk(s)
    requires s' == s.(view := s'.view, cancelled := s'.cancelled, tunnels := s'.tunnels)
    requires s'.view.inner.Keys == s.view.inner.Keys
    requires forall h :: h in s.view.inner ==>
               s'.view.inner[h] == s.view.inner[h].(cursor := s'.view.inner[h].cursor)
    ensures RoutesOk(s')
  {
    ShrinkKeeps(s, s');
  }

  // ------------------------------------------------------- kinds of steps

  /** The steps before a grant is acted on. */
  predicate IsHandshake(step: Step) {
    step.StreamOpened? || step.StreamFailed? || step.StreamTimeout? || step.HelloRead? ||
    step.HelloRefused? || step.HelloEof? || step.BackendGrants? || step.BackendRefuses? || step.CheckOpen?
  }

  /** The steps of an admitted tunnel that only move its handler on. */
  predicate IsProgress(step: Step) {
    step.CloseDisplaced? || step.AllDisplacedClosed? || step.WelcomeSent? || step.WelcomeFailed? ||
    step.PeerGone? || step.ShutDown? || step.RejectClosed?
  }

  /** The steps of the surroundings: peers, shutdown, revocation, provisioning, lookups. */
  predicate IsAmbient(step: Step) {
    step.PeerCloses? || step.Cancel? || step.Kick? || step.CloseRevoked? || step.ReplaceTerminated? || step.Lookup?
  }

  /** A quiet step: one handler moves on, and perhaps a connection is closed. */
  predicate IsQuiet(step: Step) {
    IsHandshake(step) || IsProgress(step)
  }

  /** The handler of a quiet step afterwards, and the connections it closed. */
  ghost function QuietPhase(s: State, step: Step): Phase
    requires IsQuiet(step) && Enabled(AnyBackend, s, step)
  {
    Apply(AnyBackend, s, step).handlers[step.id].phase
  }

  ghost function QuietCloses(s: State, step: Step): set<ConnId>
    requires IsQuiet(step) && Enabled(AnyBackend, s, step)
  {
    match step
    case CloseDisplaced(id) => {s.handlers[id].phase.displaced[0]}
    case StreamTimeout(id) => {id}
    case ShutDown(id) => {id}
    case RejectClosed(id) => {id}
    case _ => {}
  }

  ghost predicate OnlyMovesOn(p: Policy, s: State, step: Step)
    requires IsQuiet(step) && Enabled(p, s, step)
  {
    && Enabled(AnyBackend, s, step) && step.id in s.handlers
    && Apply(p, s, step) == At(s, step.id, QuietPhase(s, step)).(closed := s.closed + QuietCloses(s, step))
  }

  lemma HandshakeMovesOn(p: Policy, s: State, step: Step)
    requires IsHandshake(step) && Enabled(p, s, step)
    ensures OnlyMovesOn(p, s, step)
  {
    assert s.closed + {} == s.closed;
  }

  lemma ProgressMovesOn(p: Policy, s: State, step: Step)
    requires IsProgress(step) && Enabled(p, s, step)
    ensures OnlyMovesOn(p, s, step)
  {
    assert s.closed + {} == s.closed;
  }

  lemma QuietEffect(p: Policy, s: State, step: Step)
    requires IsQuiet(step) && Enabled(p, s, step)
    ensures OnlyMovesOn(p, s, step)
  {
    if IsHandshake(step) {
      HandshakeMovesOn(p, s, step);
    } else {
      ProgressMovesOn(p, s, step);
    }
  }

  /** A quiet step changes neither the routed nor the registered grant, and a
      displaced connection leaves the list of its closer only by being closed. */
  lemma QuietKeepsGrants(s: State, step: Step)
    requires IsQuiet(step) && Enabled(AnyBackend, s, step) && step.id in s.handlers
    ensures var before, after := s.handlers[step.id].phase, QuietPhase(s, step);
            && !before.Done?
            && RoutedGrant(after) == RoutedGrant(before) && RegisteredGrant(after) == RegisteredGrant(before)
            && forall c :: c in Displaced(before) ==> c in Displaced(after) || c in QuietCloses(s, step)
  {
    if IsHandshake(step) {
    } else {
    }
  }

  // ------------------------------------------------------------- every step

  lemma AmbientKeepsRoutes(p: Policy, s: State, step: Step)
    requires RoutesOk(s) && Enabled(p, s, step) && IsAmbient(step)
    ensures RoutesOk(Apply(p, s, step))
  {
    match step {
      case PeerCloses(id) => CloseKeepsRoutes(s, id, s.revoked);
      case Cancel => ViewKeepsRoutes(s, s.(cancelled := true));
      case Kick(client) => KickKeepsRoutes(s, client);
      case CloseRevoked(id) => CloseKeepsRoutes(s, id, s.revoked - {id});
      case ReplaceTerminated(full) => ViewKeepsRoutes(s, s.(view := SetTerminated(s.view, full)));
      case Lookup(host) => ViewKeepsRoutes(s, WithTable(s, LookupTable(s.view, host, s.closed)));
    }
  }

  /** Register and unregister do not concern the routes. */
  lemma BookStepKeepsRoutes(p: Policy, s: State, step: Step)
    requires RoutesOk(s) && Enabled(p, s, step) && (step.Register? || step.Unregister?)
    ensures RoutesOk(Apply(p, s, step))
  {
    var s' := Apply(p, s, step);
    MoveKeepsRoutes(s, step.id, s'.handlers[step.id], {});
    ViewKeepsRoutes(s.(handlers := s'.handlers), s');
  }

  /** Every step keeps the routes in order. */
  lemma StepKeepsRoutes(p: Policy, s: State, step: Step)
    requires RoutesOk(s) && Enabled(p, s, step)
    ensures RoutesOk(Apply(p, s, step))
  {
    if IsQuiet(step) {
      QuietEffect(p, s, step);
      QuietKeepsGrants(s, step);
      MoveKeepsRoutes(s, step.id, s.handlers[step.id].(phase := QuietPhase(s, step)), QuietCloses(s, step));
    } else if IsAmbient(step) {
      AmbientKeepsRoutes(p, s, step);
    } else {
      match step {
        case Accept(id, peer) => AcceptKeepsRoutes(s, id, peer);
        case Install(id) => InstallKeepsTable(s, id); InstallKeepsNoOrphan(s, id);
        case Undo(id) => RemoveKeepsRoutes(s, id, Done);
        case Remove(id) => RemoveKeepsRoutes(s, id, Unregistering(s.handlers[id].phase.grant));
        case Register(id) => BookStepKeepsRoutes(p, s, step);
        case Unregister(id) => BookStepKeepsRoutes(p, s, step);
      }
    }
  }

  /** One handler and at most its own registry entry change. */
  lemma BooksMove(tunnels: Registry, handlers: map<ConnId, Handler>, id: ConnId, h': Handler, tunnels': Registry)
    requires BooksOk(tunnels, handlers)
    requires EntryOk(tunnels', id, h') && HistoryOk(h')
    requires forall other :: other != id ==> (other in tunnels' <==> other in tunnels)
    requires forall other :: other != id && other in tunnels ==> tunnels'[other] == tunnels[other]
    ensures BooksOk(tunnels', handlers[id := h'])
  {
    forall other | other in handlers && other != id ensures EntryOk(tunnels', other, handlers[other]) {
      assert EntryOk(tunnels, other, handlers[other]);
    }
  }

  lemma RegisterKeepsBooks(p: Policy, s: State, id: ConnId)
    requires BooksOk(s.tunnels, s.handlers) && Enabled(p, s, Register(id))
    ensures var s' := Apply(p, s, Register(id)); BooksOk(s'.tunnels, s'.handlers)
  {
    var s' := Apply(p, s, Register(id));
    assert HistoryOk(s.handlers[id]) && s.handlers[id].events == [];
    BooksMove(s.tunnels, s.handlers, id, s'.handlers[id], s'.tunnels);
  }

  lemma UnregisterKeepsBooks(p: Policy, s: State, id: ConnId)
    requires BooksOk(s.tunnels, s.handlers) && Enabled(p, s, Unregister(id))
    ensures var s' := Apply(p, s, Unregister(id)); BooksOk(s'.tunnels, s'.handlers)
  {
    var s', h := Apply(p, s, Unregister(id)), s.handlers[id];
    assert HistoryOk(h) && EntryOk(s.tunnels, id, h);
    assert UpThenDown(s'.handlers[id].events, h.peer);
    BooksMove(s.tunnels, s.handlers, id, s'.handlers[id], s'.tunnels);
  }

  lemma AcceptKeepsBooks(s: State, id: ConnId, peer: string)
    requires BooksOk(s.tunnels, s.handlers) && (id in s.handlers ==> s.handlers[id].phase.Done?)
    ensures BooksOk(s.tunnels, s.handlers[id := Handler(peer, AwaitStream, [])])
  {
    assert id in s.handlers ==> EntryOk(s.tunnels, id, s.handlers[id]);
    BooksMove(s.tunnels, s.handlers, id, Handler(peer, AwaitStream, []), s.tunnels);
  }

  /** A handler moves to a phase with the same registered grant. */
  lemma PhaseKeepsBooks(s: State, id: ConnId, phase: Phase)
    requires BooksOk(s.tunnels, s.handlers) && id in s.handlers && !s.handlers[id].phase.Done?
    requires RegisteredGrant(phase) == RegisteredGrant(s.handlers[id].phase)
    ensures BooksOk(s.tunnels, s.handlers[id := s.handlers[id].(phase := phase)])
  {
    assert EntryOk(s.tunnels, id, s.handlers[id]) && HistoryOk(s.handlers[id]);
    BooksMove(s.tunnels, s.handlers, id, s.handlers[id].(phase := phase), s.tunnels);
  }

  lemma AmbientLeavesHandlers(p: Policy, s: State, step: Step)
    requires Enabled(p, s, step) && IsAmbient(step)
    ensures Apply(p, s, step).handlers == s.handlers && Apply(p, s, step).tunnels == s.tunnels
  {
  }

  /** Every step keeps the registry and the event histories in order. */
  lemma StepKeepsBooks(p: Policy, s: State, step: Step)
    requires BooksOk(s.tunnels, s.handlers) && Enabled(p, s, step)
    ensures var s' := Apply(p, s, step); BooksOk(s'.tunnels, s'.handlers)
  {
    if IsQuiet(step) {
      QuietEffect(p, s, step);
      QuietKeepsGrants(s, step);
      PhaseKeepsBooks(s, step.id, QuietPhase(s, step));
    } else if IsAmbient(step) {
      AmbientLeavesHandlers(p, s, step);
    } else {
      match step {
        case Accept(id, peer) => AcceptKeepsBooks(s, id, peer);
        case Install(id) => PhaseKeepsBooks(s, id, Apply(p, s, step).handlers[id].phase);
        case Undo(id) => PhaseKeepsBooks(s, id, Done);
        case Remove(id) => PhaseKeepsBooks(s, id, Unregistering(s.handlers[id].phase.grant));
        case Register(id) => RegisterKeepsBooks(p, s, id);
        case Unregister(id) => UnregisterKeepsBooks(p, s, id);
      }
    }
  }

  /** Every step of every handler and of the surroundings keeps the invariant. */
  lemma StepKeeps(p: Policy, s: State, step: Step)
    requires Inv(s) && Enabled(p, s, step)
    ensures Inv(Apply(p, s, step))
  {
    StepKeepsRoutes(p, s, step);
    StepKeepsBooks(p, s, step);
  }

  /** For any backend, in every state of every run: the invariant holds. */
  lemma {:induction false} RunKeeps(p: Policy, run: seq<State>, k: nat)
    requires IsRun(p, run) && k < |run|
    ensures Inv(run[k])
  {
    if k > 0 {
      RunKeeps(p, run, k - 1);
      assert Next(p, run[k - 1], run[k - 1 + 1]);
      var step :| Enabled(p, run[k - 1], step) && run[k] == Apply(p, run[k - 1], step);
      StepKeeps(p, run[k - 1], step);
    }
  }

  // --------------------------------------------------- what the runs promise

  /** The table lists only connections with a running handler that was admitted
      under the client of the entry with a grant naming the host; no host is
      empty and none lists a connection twice. */
  lemma ListedConnectionsAreAdmitted(p: Policy, run: seq<State>, k: nat, h: string)
    requires IsRun(p, run) && k < |run| && h in run[k].view.inner
    ensures var e := run[k].view.inner[h];
            && e.conns != [] && Distinct(e.conns)
            && forall c :: c in e.conns ==>
                 exists g :: RunsWith(run[k], c, g) && g.client == e.client && h in B.HostSet(g.hosts)
  {
    RunKeeps(p, run, k);
    var e := run[k].view.inner[h];
    forall c | c in e.conns
      ensures exists g :: RunsWith(run[k], c, g) && g.client == e.client && h in B.HostSet(g.hosts)
    {
      assert R.Lists(run[k].view.inner, h, c);
      assert ListedRightly(run[k], h, c);
    }
  }

  /** A connection whose handler is rejecting it or has finished is under no
      host and not in the registry. */
  lemma FinishedConnectionsAreGone(p: Policy, run: seq<State>, k: nat, c: ConnId)
    requires IsRun(p, run) && k < |run|
    requires c in run[k].handlers && (run[k].handlers[c].phase.Done? || run[k].handlers[c].phase.Rejecting?)
    ensures c !in run[k].tunnels
    ensures forall h :: !R.Lists(run[k].view.inner, h, c)
  {
    RunKeeps(p, run, k);
    assert EntryOk(run[k].tunnels, c, run[k].handlers[c]);
    UnroutedIsUnlisted(run[k], c);
  }

  /** From the install to the removal of its routes, so in particular when the
      Welcome is sent and while the tunnel is held, a connection is listed under
      every host of its grant, unless it is closed or someone is about to close it. */
  lemma WelcomedTunnelsAreServed(p: Policy, run: seq<State>, k: nat, id: ConnId, g: Grant, h: string)
    requires IsRun(p, run) && k < |run| && RunsWith(run[k], id, g) && h in B.HostSet(g.hosts)
    ensures R.Lists(run[k].view.inner, h, id) || id in run[k].closed || PendingClose(run[k], id)
  {
    RunKeeps(p, run, k);
    assert ServedOrClosing(run[k], id, h);
  }

  /** A lookup in any state of any run that finds a tunnel finds an open
      connection, held by a running handler that was admitted under the reported
      client with a grant naming the very host that was asked for. */
  lemma LookupsFindAdmittedTunnels(
    p: Policy, run: seq<State>, k: nat, host: string, client: string, mode: TlsMode, conn: ConnId)
    requires IsRun(p, run) && k < |run|
    requires LookupRoute(run[k].view, host, run[k].closed) == Some(Tunnel(client, mode, conn))
    ensures conn !in run[k].closed
    ensures exists g :: RunsWith(run[k], conn, g) && g.client == client && host in B.HostSet(g.hosts)
  {
    ListedConnectionsAreAdmitted(p, run, k, host);
    assert conn in run[k].view.inner[host].conns;
  }

  /** What the config fixed for good. */
  predicate SameConfigPart(v: View, v': View) {
    v'.local == v.local && v'.tunnelHosts == v.tunnelHosts && v'.offload == v.offload
  }

  lemma StepKeepsConfigPart(p: Policy, s: State, step: Step)
    requires Enabled(p, s, step)
    ensures SameConfigPart(s.view, Apply(p, s, step).view)
  {
    if IsQuiet(step) {
      QuietEffect(p, s, step);
    }
  }

  lemma {:induction false} RunKeepsConfigPart(p: Policy, run: seq<State>, k: nat)
    requires IsRun(p, run) && k < |run|
    ensures SameConfigPart(run[0].view, run[k].view)
  {
    if k > 0 {
      RunKeepsConfigPart(p, run, k - 1);
      assert Next(p, run[k - 1], run[k - 1 + 1]);
      var step :| Enabled(p, run[k - 1], step) && run[k] == Apply(p, run[k - 1], step);
      StepKeepsConfigPart(p, run[k - 1], step);
    }
  }

  /** Whatever a backend grants, in every state of every run: a host that the
      config gives to an upstream of its own goes there, never to a tunnel. */
  lemma UpstreamsAreNotTakenOver(p: Policy, run: seq<State>, k: nat, host: string)
    requires IsRun(p, run) && k < |run| && Lower(host) in run[0].view.local
    ensures LookupRoute(run[k].view, host, run[k].closed)
            == Some(Local(run[0].view.local[Lower(host)].target))
  {
    RunKeepsConfigPart(p, run, k);
  }

  /** A connection is never listed under two clients. */
  lemma OneClientPerConnection(s: State, c: ConnId, client: string)
    requires Inv(s) && c in R.ConnsOf(s.view.inner, client)
    ensures R.OnlyUnder(s.view.inner, c, client)
  {
    var h :| h in s.view.inner && s.view.inner[h].client == client && c in s.view.inner[h].conns;
    assert R.Lists(s.view.inner, h, c) && ListedRightly(s, h, c);
    forall h' | R.Lists(s.view.inner, h', c) ensures s.view.inner[h'].client == client {
      assert ListedRightly(s, h', c);
    }
  }

  /** Revoking a client in any state of any run takes every connection listed
      for it out of the whole table, and hands each of them over to be closed. */
  lemma KickIsComplete(p: Policy, run: seq<State>, k: nat, client: string, c: ConnId)
    requires IsRun(p, run) && k < |run| && c in R.ConnsOf(run[k].view.inner, client)
    ensures var s' := Apply(p, run[k], Kick(client));
            (forall h :: !R.Lists(s'.view.inner, h, c)) && PendingClose(s', c)
  {
    RunKeeps(p, run, k);
    OneClientPerConnection(run[k], c, client);
    R.KickLeavesNone(run[k].view.inner, client, c);
  }

  /** The events of a connection are nothing, one Up, or one Up and then its
      Down, and the registry holds exactly those with an Up and no Down. */
  lemma EventHistories(p: Policy, run: seq<State>, k: nat, id: ConnId)
    requires IsRun(p, run) && k < |run|
    ensures id in run[k].tunnels ==> id in run[k].handlers
    ensures id in run[k].handlers ==>
              var s, h := run[k], run[k].handlers[id];
              if id in s.tunnels then h.events == [UpOf(s.tunnels[id])] && s.tunnels[id].peer == h.peer
              else h.events == [] || UpThenDown(h.events, h.peer)
  {
    RunKeeps(p, run, k);
    if id in run[k].handlers {
      assert HistoryOk(run[k].handlers[id]) && EntryOk(run[k].tunnels, id, run[k].handlers[id]);
    }
  }

  // ------------------------------------------------------------------ endings

  /** How many phases a handler has left. */
  function Level(p: Phase): nat {
    match p
    case AwaitStream => 11
    case AwaitHello => 10
    case AwaitAdmit(_) => 9
    case Admitted(_) => 8
    case Installing(_) => 7
    case Closing(_, _) => 6
    case Welcoming(_) => 5
    case Undoing(_) => 4
    case Registering(_) => 4
    case Holding(_) => 3
    case Removing(_) => 2
    case Unregistering(_) => 1
    case Rejecting => 1
    case Done => 0
  }

  /** The work a handler has left: phases to go and connections to close. */
  function Work(p: Phase): nat {
    Level(p) + |Displaced(p)|
  }

  predicate IsHandlerStep(step: Step, id: ConnId) {
    !IsAmbient(step) && !step.Accept? && step.id == id
  }

  /** An own step of a handler takes work off it; only an install adds some, the
      connections it displaced, and a handler that has installed does not again. */
  ghost predicate LessToDo(step: Step, before: Phase, after: Phase) {
    && Work(after) < Work(before) + (if step.Install? then |Displaced(after)| else 0)
    && Level(after) <= Level(before)
    && (step.Install? ==> Level(before) == 7 && Level(after) == 6)
  }

  lemma HandshakeEnds(p: Policy, s: State, step: Step)
    requires Enabled(p, s, step) && IsHandshake(step)
    ensures LessToDo(step, s.handlers[step.id].phase, Apply(p, s, step).handlers[step.id].phase)
  {
  }

  lemma ProgressEnds(p: Policy, s: State, step: Step)
    requires Enabled(p, s, step) && IsProgress(step)
    ensures LessToDo(step, s.handlers[step.id].phase, Apply(p, s, step).handlers[step.id].phase)
  {
  }

  lemma OwnStepEnds(p: Policy, s: State, step: Step)
    requires Enabled(p, s, step) && !IsAmbient(step) && !step.Accept?
    ensures LessToDo(step, s.handlers[step.id].phase, Apply(p, s, step).handlers[step.id].phase)
  {
    if IsHandshake(step) {
      HandshakeEnds(p, s, step);
    } else if IsProgress(step) {
      ProgressEnds(p, s, step);
    }
  }

  lemma OwnStepIsLocal(p: Policy, s: State, step: Step, id: ConnId)
    requires Enabled(p, s, step) && !IsAmbient(step) && step.id != id
    ensures id in Apply(p, s, step).handlers <==> id in s.handlers
    ensures id in s.handlers ==> Apply(p, s, step).handlers[id] == s.handlers[id]
  {
    if IsHandshake(step) {
    } else if IsProgress(step) {
    } else {
    }
  }

  /** What a step means for one handler: an own step takes work off it, and no
      other step touches it. */
  ghost predicate HandlerMoves(s: State, step: Step, s': State, id: ConnId) {
    id in s.handlers && !(step.Accept? && step.id == id) ==>
      && id in s'.handlers
      && if IsHandlerStep(step, id) then LessToDo(step, s.handlers[id].phase, s'.handlers[id].phase)
         else s'.handlers[id] == s.handlers[id]
  }

  lemma StepMovesHandler(p: Policy, s: State, step: Step, id: ConnId)
    requires Enabled(p, s, step)
    ensures HandlerMoves(s, step, Apply(p, s, step), id)
  {
    if id in s.handlers && !(step.Accept? && step.id == id) {
      if IsHandlerStep(step, id) {
        OwnStepEnds(p, s, step);
      } else if IsAmbient(step) {
        AmbientLeavesHandlers(p, s, step);
      } else {
        OwnStepIsLocal(p, s, step, id);
      }
    }
  }

  ghost predicate Took(p: Policy, s: State, step: Step, s': State) {
    Enabled(p, s, step) && s' == Apply(p, s, step)
  }

  /** A run together with the steps it took. */
  ghost predicate IsTrace(p: Policy, run: seq<State>, steps: seq<Step>) {
    && IsRun(p, run) && |run| == |steps| + 1
    && forall k :: 0 <= k < |steps| ==> Took(p, run[k], steps[k], run[k + 1])
  }

  ghost function StepBetween(p: Policy, s: State, s': State): (step: Step)
    requires Next(p, s, s')
    ensures Took(p, s, step, s')
  {
    var step :| Enabled(p, s, step) && s' == Apply(p, s, step);
    step
  }

  /** Every run has its steps. */
  lemma RunHasTrace(p: Policy, run: seq<State>) returns (steps: seq<Step>)
    requires IsRun(p, run)
    ensures IsTrace(p, run, steps)
  {
    steps := seq(|run| - 1, k requires 0 <= k < |run| - 1 && Next(p, run[k], run[k + 1]) =>
      StepBetween(p, run[k], run[k + 1]));
  }

  lemma TraceMovesHandler(p: Policy, run: seq<State>, steps: seq<Step>, id: ConnId, k: nat)
    requires IsTrace(p, run, steps) && k < |steps|
    ensures HandlerMoves(run[k], steps[k], run[k + 1], id)
  {
    assert Took(p, run[k], steps[k], run[k + 1]);
    StepMovesHandler(p, run[k], steps[k], id);
  }

  /** How many of the steps from `a` to `b` are own steps of this handler. */
  ghost function OwnSteps(steps: seq<Step>, id: ConnId, a: nat, b: nat): nat
    requires b <= |steps|
  {
    if b <= a then 0 else OwnSteps(steps, id, a, b - 1) + if IsHandlerStep(steps[b - 1], id) then 1 else 0
  }

  ghost function Installs(steps: seq<Step>, id: ConnId, a: nat, b: nat): nat
    requires b <= |steps|
  {
    if b <= a then 0 else Installs(steps, id, a, b - 1) + if steps[b - 1] == Install(id) then 1 else 0
  }

  /** How many connections the installs of this handler displaced. */
  ghost function Evicted(run: seq<State>, steps: seq<Step>, id: ConnId, a: nat, b: nat): nat
    requires b <= |steps| < |run|
  {
    if b <= a then 0
    else
      Evicted(run, steps, id, a, b - 1) +
      if steps[b - 1] == Install(id) && id in run[b].handlers then |Displaced(run[b].handlers[id].phase)| else 0
  }

  function MayInstall(p: Phase): nat {
    if Level(p) >= 7 then 1 else 0
  }

  lemma {:induction false} WorkIsSpent(run: seq<State>, steps: seq<Step>, id: ConnId, a: nat, b: nat)
    requires a <= b <= |steps| < |run| && id in run[a].handlers
    requires forall k :: a <= k < b ==> HandlerMoves(run[k], steps[k], run[k + 1], id)
    requires forall k :: a <= k < b ==> !(steps[k].Accept? && steps[k].id == id)
    ensures id in run[b].handlers
    ensures var before, after := run[a].handlers[id].phase, run[b].handlers[id].phase;
            && OwnSteps(steps, id, a, b) + Work(after) <= Work(before) + Evicted(run, steps, id, a, b)
            && Installs(steps, id, a, b) + MayInstall(after) <= MayInstall(before)
    decreases b
  {
    if a < b {
      WorkIsSpent(run, steps, id, a, b - 1);
      assert HandlerMoves(run[b - 1], steps[b - 1], run[b - 1 + 1], id);
    }
  }

  /** No handler runs forever: in any stretch of any run that starts with the
      acceptance of a connection and ends before its id is reused, its handler
      installs at most once and takes at most eleven steps, plus one for every
      connection that its install displaced. */
  lemma HandlersEnd(p: Policy, run: seq<State>, steps: seq<Step>, id: ConnId, a: nat, b: nat)
    requires IsTrace(p, run, steps) && a <= b <= |steps|
    requires id in run[a].handlers && run[a].handlers[id].phase == AwaitStream
    requires forall k :: a <= k < b ==> !(steps[k].Accept? && steps[k].id == id)
    ensures Installs(steps, id, a, b) <= 1
    ensures OwnSteps(steps, id, a, b) <= 11 + Evicted(run, steps, id, a, b)
  {
    forall k | a <= k < b ensures HandlerMoves(run[k], steps[k], run[k + 1], id) {
      TraceMovesHandler(p, run, steps, id, k);
    }
    WorkIsSpent(run, steps, id, a, b);
  }

  lemma HostsHaveHandlers(s: State)
    requires TableOk(s)
    ensures forall h :: h in s.view.inner ==>
              exists c :: c in s.handlers && RoutedGrant(s.handlers[c].phase).Some?
  {
    forall h | h in s.view.inner ensures exists c :: c in s.handlers && RoutedGrant(s.handlers[c].phase).Some? {
      var c := s.view.inner[h].conns[0];
      assert R.Lists(s.view.inner, h, c) && ListedRightly(s, h, c);
    }
  }

  /** After a shutdown request, a server in which no handler can move any more
      has an empty table and an empty registry. */
  lemma ShutdownDrains(p: Policy, run: seq<State>, k: nat)
    requires IsRun(p, run) && k < |run| && run[k].cancelled
    requires forall step, id :: IsHandlerStep(step, id) ==> !Enabled(p, run[k], step)
    ensures run[k].view.inner == map[] && run[k].tunnels == map[]
  {
    var s := run[k];
    RunKeeps(p, run, k);
    forall id | id in s.handlers ensures s.handlers[id].phase.Done? {
      if !s.handlers[id].phase.Done? {
        var step := SomeStep(p, s, id);
        assert false;
      }
    }
    HostsHaveHandlers(s);
  }

  /** A handler that has not finished can move, if need be because of the shutdown. */
  lemma SomeStep(p: Policy, s: State, id: ConnId) returns (step: Step)
    requires id in s.handlers && !s.handlers[id].phase.Done? && s.cancelled
    ensures IsHandlerStep(step, id) && Enabled(p, s, step)
  {
    match s.handlers[id].phase {
      case AwaitStream => step := StreamTimeout(id);
      case AwaitHello => step := HelloRefused(id);
      case AwaitAdmit(_) => step := BackendRefuses(id);
      case Admitted(_) => step := CheckOpen(id);
      case Installing(_) => step := Install(id);
      case Closing(_, displaced) =>
        step := if displaced == [] then AllDisplacedClosed(id) else CloseDisplaced(id);
      case Welcoming(_) => step := WelcomeFailed(id);
      case Undoing(_) => step := Undo(id);
      case Registering(_) => step := Register(id);
      case Holding(_) => step := ShutDown(id);
      case Removing(_) => step := Remove(id);
      case Unregistering(_) => step := Unregister(id);
      case Rejecting => step := RejectClosed(id);
    }
  }

  lemma MoveWithoutShutdown(p: Policy, s: State, id: ConnId) returns (step: Step)
    requires id in s.handlers && !s.handlers[id].phase.Done? && !s.handlers[id].phase.Holding?
    ensures IsHandlerStep(step, id) && Enabled(p, s, step)
  {
    step := SomeStep(p, s.(cancelled := true), id);
  }

  lemma HeldMovesExactly(p: Policy, s: State, step: Step, id: ConnId)
    requires id in s.handlers && s.handlers[id].phase.Holding? && IsHandlerStep(step, id)
    ensures Enabled(p, s, step) <==> (step.PeerGone? && id in s.closed) || (step.ShutDown? && s.cancelled)
  {
  }

  /** A handler never waits for another: it can move in every state until it has
      ended, except that a held tunnel waits for its peer to go or for a shutdown. */
  lemma HandlersMoveExactly(p: Policy, s: State, id: ConnId)
    requires id in s.handlers
    ensures (exists step :: IsHandlerStep(step, id) && Enabled(p, s, step))
            <==> !s.handlers[id].phase.Done? && (s.handlers[id].phase.Holding? ==> id in s.closed || s.cancelled)
  {
    if s.handlers[id].phase.Holding? {
      forall step | IsHandlerStep(step, id)
        ensures Enabled(p, s, step) <==> (step.PeerGone? && id in s.closed) || (step.ShutDown? && s.cancelled)
      {
        HeldMovesExactly(p, s, step, id);
      }
      assert IsHandlerStep(PeerGone(id), id) && IsHandlerStep(ShutDown(id), id);
    } else if !s.handlers[id].phase.Done? {
      var step := MoveWithoutShutdown(p, s, id);
    } else {
      forall step | IsHandlerStep(step, id) ensures !Enabled(p, s, step) {
        DoneDoesNotMove(p, s, step, id);
      }
    }
  }

  lemma DoneDoesNotMove(p: Policy, s: State, step: Step, id: ConnId)
    requires id in s.handlers && s.handlers[id].phase.Done? && IsHandlerStep(step, id)
    ensures !Enabled(p, s, step)
  {
  }
}
