/** The check for a closed connection before an install, and what can happen
    between the two. */
module LateInstall {
  import opened Prelude
  import opened Config
  import B = Backend
  import R = Routing
  import opened RoundRobin
  import opened Resolution
  import opened Tunnels
  import opened TunnelSafety
  import opened Reach
  import opened StaticMode

  /** The connection has not been installed yet. */
  predicate Early(p: Phase) {
    Level(p) >= 7
  }

  /** Nobody is about to close a connection that has not been installed. */
  ghost predicate NoEarlyPending(s: State) {
    forall id :: id in s.handlers && Early(s.handlers[id].phase) ==> !PendingClose(s, id)
  }

  ghost predicate Listed(s: State, c: ConnId) {
    exists h :: R.Lists(s.view.inner, h, c)
  }

  lemma ListedIsNotEarly(s: State, c: ConnId)
    requires TableOk(s) && Listed(s, c)
    ensures c in s.handlers && !Early(s.handlers[c].phase) && !s.handlers[c].phase.Done?
  {
    var h :| R.Lists(s.view.inner, h, c);
    assert ListedRightly(s, h, c);
  }

  lemma QuietDisplacesNone(s: State, step: Step)
    requires IsQuiet(step) && Enabled(AnyBackend, s, step) && step.id in s.handlers
    ensures forall c :: c in Displaced(QuietPhase(s, step)) ==> c in Displaced(s.handlers[step.id].phase)
  {
    if IsHandshake(step) {
    } else {
    }
  }

  lemma InstallDisplacesListed(s: State, id: ConnId, c: ConnId)
    requires TableOk(s) && id in s.handlers && s.handlers[id].phase.Installing?
    requires c in Displaced(InstallStep(s, id).handlers[id].phase)
    ensures Listed(s, c)
  {
    var g, t := s.handlers[id].phase.grant, s.view.inner;
    UnroutedIsUnlisted(s, id);
    R.InstallKeepsForm(t, g.hosts, g.client, g.balance, id);
    R.InstallAccounts(t, g.hosts, g.client, g.balance, id);
    assert R.FromGranted(t, B.HostSet(g.hosts), c);
  }

  /** A step that changes one handler, without new connections to close. */
  lemma MoveMarksNone(s: State, s': State, id: ConnId, c: ConnId)
    requires s'.revoked <= s.revoked && id in s'.handlers
    requires s'.handlers == s.handlers[id := s'.handlers[id]]
    requires c in Displaced(s'.handlers[id].phase) ==> id in s.handlers && c in Displaced(s.handlers[id].phase)
    requires PendingClose(s', c)
    ensures PendingClose(s, c)
  {
    if c !in s'.revoked {
      var d :| d in s'.handlers && c in Displaced(s'.handlers[d].phase);
      assert d in s.handlers && c in Displaced(s.handlers[d].phase);
    }
  }

  lemma InstallMarksListed(s: State, id: ConnId, c: ConnId)
    requires TableOk(s) && id in s.handlers && s.handlers[id].phase.Installing?
    requires PendingClose(InstallStep(s, id), c)
    ensures PendingClose(s, c) || Listed(s, c)
  {
    var s' := InstallStep(s, id);
    if c in Displaced(s'.handlers[id].phase) {
      InstallDisplacesListed(s, id, c);
    } else {
      MoveMarksNone(s, s', id, c);
    }
  }

  lemma AmbientMarksListed(p: Policy, s: State, step: Step, c: ConnId)
    requires Enabled(p, s, step) && IsAmbient(step) && PendingClose(Apply(p, s, step), c)
    ensures PendingClose(s, c) || Listed(s, c)
  {
    AmbientLeavesHandlers(p, s, step);
    if step.Kick? && c in R.ConnsOf(s.view.inner, step.client) {
      var h :| h in s.view.inner && s.view.inner[h].client == step.client && c in s.view.inner[h].conns;
      assert R.Lists(s.view.inner, h, c);
    }
  }

  /** Only a connection that is listed becomes one to be closed. */
  lemma StepMarksListed(p: Policy, s: State, step: Step, c: ConnId)
    requires TableOk(s) && Enabled(p, s, step) && PendingClose(Apply(p, s, step), c)
    ensures PendingClose(s, c) || Listed(s, c)
  {
    if IsQuiet(step) {
      QuietEffect(p, s, step);
      QuietDisplacesNone(s, step);
      MoveMarksNone(s, Apply(p, s, step), step.id, c);
    } else if IsAmbient(step) {
      AmbientMarksListed(p, s, step, c);
    } else if step.Install? {
      InstallMarksListed(s, step.id, c);
    } else {
      MoveMarksNone(s, Apply(p, s, step), step.id, c);
    }
  }

  lemma StepKeepsEarly(p: Policy, s: State, step: Step)
    requires TableOk(s) && NoEarlyPending(s) && Enabled(p, s, step)
    ensures NoEarlyPending(Apply(p, s, step))
  {
    var s' := Apply(p, s, step);
    forall c | c in s'.handlers && Early(s'.handlers[c].phase) ensures !PendingClose(s', c) {
      if PendingClose(s', c) {
        StepMarksListed(p, s, step, c);
        EarlyBefore(p, s, step, c);
        assert false;
      }
    }
  }

  lemma EarlyBefore(p: Policy, s: State, step: Step, c: ConnId)
    requires TableOk(s) && NoEarlyPending(s) && Enabled(p, s, step)
    requires c in Apply(p, s, step).handlers && Early(Apply(p, s, step).handlers[c].phase)
    ensures !PendingClose(s, c) && !Listed(s, c)
  {
    if Listed(s, c) {
      ListedIsNotEarly(s, c);
    }
    if !(step.Accept? && step.id == c) {
      if IsAmbient(step) {
        AmbientLeavesHandlers(p, s, step);
      } else if step.id != c {
        OwnStepIsLocal(p, s, step, c);
      }
      StepMovesHandler(p, s, step, c);
    }
  }

  lemma NextKeepsEarly(p: Policy, s: State, s': State)
    requires TableOk(s) && NoEarlyPending(s) && Next(p, s, s')
    ensures NoEarlyPending(s')
  {
    var step := StepBetween(p, s, s');
    StepKeepsEarly(p, s, step);
  }

  lemma {:induction false} RunKeepsEarly(p: Policy, run: seq<State>, k: nat)
    requires IsRun(p, run) && k < |run|
    ensures NoEarlyPending(run[k])
  {
    if k > 0 {
      RunKeepsEarly(p, run, k - 1);
      RunKeeps(p, run, k - 1);
      assert Next(p, run[k - 1], run[k - 1 + 1]);
      NextKeepsEarly(p, run[k - 1], run[k]);
    }
  }

  // ------------------------------------------------- between check and install

  ghost predicate IsInstalling(s: State, id: ConnId) {
    id in s.handlers && s.handlers[id].phase.Installing?
  }

  lemma QuietClosesOthers(s: State, step: Step, id: ConnId)
    requires IsQuiet(step) && Enabled(AnyBackend, s, step) && step.id in s.handlers
    requires !PendingClose(s, id) && (step.id == id ==> QuietPhase(s, step).Installing?)
    ensures id !in QuietCloses(s, step)
  {
    if step.CloseDisplaced? {
      assert s.handlers[step.id].phase.displaced[0] in Displaced(s.handlers[step.id].phase);
    }
  }

  /** Only its peer closes a connection that waits to be installed. */
  lemma OnlyThePeerCloses(p: Policy, s: State, step: Step, id: ConnId)
    requires Enabled(p, s, step) && IsInstalling(s, id) && IsInstalling(Apply(p, s, step), id)
    requires !PendingClose(s, id) && !(step.Accept? && step.id == id)
    ensures id in Apply(p, s, step).closed <==> id in s.closed || step == PeerCloses(id)
  {
    if IsQuiet(step) {
      QuietEffect(p, s, step);
      QuietClosesOthers(s, step, id);
    }
  }

  ghost predicate PeerClosedIn(steps: seq<Step>, id: ConnId, a: nat, b: nat) {
    exists m :: a <= m < b <= |steps| && steps[m] == PeerCloses(id)
  }

  /** The step closes the connection exactly if the peer does. */
  ghost predicate ClosesByPeer(s: State, step: Step, s': State, id: ConnId) {
    id in s'.closed <==> id in s.closed || step == PeerCloses(id)
  }

  lemma TraceClosesByPeer(p: Policy, run: seq<State>, steps: seq<Step>, id: ConnId, k: nat)
    requires IsTrace(p, run, steps) && k < |steps|
    requires IsInstalling(run[k], id) && IsInstalling(run[k + 1], id) && !(steps[k].Accept? && steps[k].id == id)
    ensures ClosesByPeer(run[k], steps[k], run[k + 1], id)
  {
    RunKeepsEarly(p, run, k);
    assert Took(p, run[k], steps[k], run[k + 1]);
    OnlyThePeerCloses(p, run[k], steps[k], id);
  }

  lemma {:induction false} ClosedByPeerExactly(run: seq<State>, steps: seq<Step>, id: ConnId, a: nat, b: nat)
    requires a <= b <= |steps| < |run| && id !in run[a].closed
    requires forall k :: a <= k < b ==> ClosesByPeer(run[k], steps[k], run[k + 1], id)
    ensures id in run[b].closed <==> PeerClosedIn(steps, id, a, b)
    decreases b
  {
    if a < b {
      ClosedByPeerExactly(run, steps, id, a, b - 1);
      assert ClosesByPeer(run[b - 1], steps[b - 1], run[b - 1 + 1], id);
      PeerClosedStep(steps, id, a, b);
    }
  }

  lemma PeerClosedStep(steps: seq<Step>, id: ConnId, a: nat, b: nat)
    requires a < b <= |steps|
    ensures PeerClosedIn(steps, id, a, b) <==> PeerClosedIn(steps, id, a, b - 1) || steps[b - 1] == PeerCloses(id)
  {
    if PeerClosedIn(steps, id, a, b) {
      var m :| a <= m < b <= |steps| && steps[m] == PeerCloses(id);
      assert m == b - 1 || PeerClosedIn(steps, id, a, b - 1);
    }
    if PeerClosedIn(steps, id, a, b - 1) {
      var m :| a <= m < b - 1 && steps[m] == PeerCloses(id);
      assert a <= m < b <= |steps| && steps[m] == PeerCloses(id);
    }
  }

  /** Phases only go down while the id is not reused. */
  lemma {:induction false} LevelFalls(run: seq<State>, steps: seq<Step>, id: ConnId, a: nat, b: nat)
    requires a <= b <= |steps| < |run| && id in run[a].handlers
    requires forall k :: a <= k < b ==> HandlerMoves(run[k], steps[k], run[k + 1], id)
    requires forall k :: a <= k < b ==> !(steps[k].Accept? && steps[k].id == id)
    ensures id in run[b].handlers && Level(run[b].handlers[id].phase) <= Level(run[a].handlers[id].phase)
    decreases b
  {
    if a < b {
      LevelFalls(run, steps, id, a, b - 1);
      assert HandlerMoves(run[b - 1], steps[b - 1], run[b - 1 + 1], id);
    }
  }

  lemma CheckPasses(p: Policy, s: State, id: ConnId)
    requires Enabled(p, s, CheckOpen(id))
    ensures var s' := Apply(p, s, CheckOpen(id));
            && s'.closed == s.closed && id in s'.handlers
            && (if id in s.closed then s'.handlers[id].phase == Done else s'.handlers[id].phase.Installing?)
  {
  }

  lemma LevelSeven(p: Phase)
    ensures Level(p) == 7 <==> p.Installing?
  {
  }

  lemma InstallingThroughout(run: seq<State>, steps: seq<Step>, id: ConnId, a: nat, b: nat)
    requires a <= b <= |steps| < |run| && id in run[a].handlers
    requires Level(run[a].handlers[id].phase) <= 7 && IsInstalling(run[b], id)
    requires forall k :: a <= k < b ==> HandlerMoves(run[k], steps[k], run[k + 1], id)
    requires forall k :: a <= k < b ==> !(steps[k].Accept? && steps[k].id == id)
    ensures forall k :: a <= k <= b ==> IsInstalling(run[k], id)
  {
    forall k | a <= k <= b ensures IsInstalling(run[k], id) {
      LevelFalls(run, steps, id, a, k);
      LevelFalls(run, steps, id, k, b);
      LevelSeven(run[k].handlers[id].phase);
    }
  }

  lemma WaitsThroughout(p: Policy, run: seq<State>, steps: seq<Step>, id: ConnId, c: nat, j: nat)
    requires IsTrace(p, run, steps) && c < j < |steps|
    requires steps[c] == CheckOpen(id) && steps[j] == Install(id)
    requires forall k :: c < k < j ==> !(steps[k].Accept? && steps[k].id == id)
    ensures id !in run[c].closed && id !in run[c + 1].closed
    ensures forall k :: c < k <= j ==> IsInstalling(run[k], id)
  {
    assert Took(p, run[c], steps[c], run[c + 1]) && Took(p, run[j], steps[j], run[j + 1]);
    CheckPasses(p, run[c], id);
    assert IsInstalling(run[j], id);
    forall k | c + 1 <= k < j ensures HandlerMoves(run[k], steps[k], run[k + 1], id) {
      TraceMovesHandler(p, run, steps, id, k);
    }
    InstallingThroughout(run, steps, id, c + 1, j);
    assert IsInstalling(run[c + 1], id);
  }

  /** The check keeps a connection that is already closed from being installed. The
      install is a later step: a closed connection is installed exactly when its
      peer closed it between the two, and nobody else can have closed it. */
  lemma LateInstallExactly(p: Policy, run: seq<State>, steps: seq<Step>, id: ConnId, c: nat, j: nat)
    requires IsTrace(p, run, steps) && c < j < |steps|
    requires steps[c] == CheckOpen(id) && steps[j] == Install(id)
    requires forall k :: c < k < j ==> !(steps[k].Accept? && steps[k].id == id)
    ensures id !in run[c].closed
    ensures id in run[j].closed <==> PeerClosedIn(steps, id, c + 1, j)
  {
    WaitsThroughout(p, run, steps, id, c, j);
    forall k | c + 1 <= k < j ensures ClosesByPeer(run[k], steps[k], run[k + 1], id) {
      assert IsInstalling(run[k], id) && IsInstalling(run[k + 1], id);
      TraceClosesByPeer(p, run, steps, id, k);
    }
    ClosedByPeerExactly(run, steps, id, c + 1, j);
  }

  // ---------------------------------------------------------- the failing case

  lemma GrantInstalls(t: R.Table, g: Grant, id: ConnId)
    requires g == B.Grant("a", LastWriteWins, [B.GrantedHost("app.x", Terminated)])
    requires t == map[] || t == map["app.x" := R.HostRoutes("a", Terminated, [0], 0)]
    requires t != map[] ==> id != 0
    ensures R.Install(t, g.hosts, g.client, g.balance, id)
            == R.Installed(map["app.x" := R.HostRoutes("a", Terminated, [id], 0)], if t == map[] then [] else [0])
  {
    assert g.hosts[..0] == [];
    assert R.Install(t, g.hosts[..0], "a", LastWriteWins, id) == R.Installed(t, []);
    var conns: seq<ConnId> := [0];
    assert conns[..0] == [] && Without(conns[..0], id) == [];
    assert id != 0 ==> Without(conns, id) == [] + [0];
  }

  lemma OneHostGrant(balance: Balance) returns (g: Grant)
    ensures g == B.Grant("a", balance, [B.GrantedHost("app.x", Terminated)])
    ensures MayGrant(StaticBackend(OneHost(balance)), TokenOf(1), g)
  {
    var cfg := OneHost(balance);
    g := B.GrantOf(cfg, cfg.clients[0]);
    assert cfg.hostnames[1..] == [] && B.HostsOfClient(cfg.hostnames[1..], "a") == [];
    assert B.LastWithToken(cfg.clients, TokenOf(1), 0);
  }

  /** Connection 0 serves `app.x`; connection 1 of the same client passes the check
      and is then closed by its peer. */
  lemma TwoConnections() returns (run: seq<State>, s: State)
    ensures IsRun(StaticBackend(OneHost(LastWriteWins)), run)
    ensures var g := B.Grant("a", LastWriteWins, [B.GrantedHost("app.x", Terminated)]);
            && s.view == StartedFrom(OneHost(LastWriteWins)).view.(
                 inner := map["app.x" := R.HostRoutes("a", Terminated, [0], 0)])
            && s.closed == {} && s.handlers == map[0 := Handler("peer", Closing(g, []), [])]
            && Last(run) == Close(With(s, 1, Installing(g)), 1)
  {
    var p := StaticBackend(OneHost(LastWriteWins));
    var g := OneHostGrant(LastWriteWins);
    run := Connect(p, StartedFrom(OneHost(LastWriteWins)).view, TokenOf(1), g);
    GrantInstalls(map[], g, 0);
    s := Last(run);
    run := Handshake(p, run, 1, TokenOf(1), g);
    run := Go(p, run, PeerCloses(1));
  }

  function LateGrant(): Grant {
    B.Grant("a", LastWriteWins, [B.GrantedHost("app.x", Terminated)])
  }

  function ServedBy(id: ConnId): R.Table {
    map["app.x" := R.HostRoutes("a", Terminated, [id], 0)]
  }

  lemma EvictStep(p: Policy, s: State)
    requires s.view.inner == ServedBy(0) && 1 !in s.closed
    ensures var before := Close(With(s, 1, Installing(LateGrant())), 1);
            && Enabled(p, before, Install(1))
            && Apply(p, before, Install(1)) == At(WithTable(before, ServedBy(1)), 1, Closing(LateGrant(), [0]))
  {
    GrantInstalls(s.view.inner, LateGrant(), 1);
  }

  lemma EvictedPends(s: State, id: ConnId, g: Grant)
    requires id in s.handlers
    ensures PendingClose(At(s, id, Closing(g, [0])), 0)
  {
    var s' := At(s, id, Closing(g, [0]));
    assert id in s'.handlers && 0 in Displaced(s'.handlers[id].phase);
  }

  /** The failing case: the late install of the closed connection 1 evicts the live
      connection 0, and the host has no route although 0 is still open. */
  lemma LateInstallEvicts() returns (run: seq<State>)
    ensures Valid(OneHost(LastWriteWins)) && IsRun(StaticBackend(OneHost(LastWriteWins)), run)
    ensures var s := Last(run);
            && s.closed == {1} && PendingClose(s, 0)
            && "app.x" in s.view.inner && s.view.inner["app.x"].conns == [1]
            && LookupRoute(s.view, "app.x", s.closed) == None
  {
    OneHostIsValid(LastWriteWins);
    var s;
    run, s := TwoConnections();
    EvictStep(StaticBackend(OneHost(LastWriteWins)), s);
    var before := Last(run);
    run := Go(StaticBackend(OneHost(LastWriteWins)), run, Install(1));
    EvictedPends(WithTable(before, ServedBy(1)), 1, LateGrant());
    DeadRoute(Last(run).view);
  }

  lemma DeadRoute(v: View)
    requires v.inner == map["app.x" := R.HostRoutes("a", Terminated, [1], 0)] && v.local == map[]
    ensures LookupRoute(v, "app.x", {1}) == None
  {
    var conns: seq<ConnId> := [1];
    assert Probe(conns, {1}, 1, 0).found.None? && Probe(conns, {1}, 0, 1).found.None?;
  }
}
