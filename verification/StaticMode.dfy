/** Runs of a server whose backend is a validated config file. */
module StaticMode {
  import opened Prelude
  import opened Hosts
  import opened Config
  import B = Backend
  import R = Routing
  import opened Resolution
  import opened Modes
  import opened Tunnels
  import opened TunnelSafety
  import opened Reach

  /** The grant a handler has been given, if any. */
  function GrantIn(p: Phase): Option<Grant> {
    match p
    case Admitted(g) => Some(g)
    case Installing(g) => Some(g)
    case Unregistering(g) => Some(g)
    case _ => RoutedGrant(p)
  }

  ghost predicate GrantsAreStatic(cfg: ServerConfig, s: State) {
    forall id :: id in s.handlers && GrantIn(s.handlers[id].phase).Some?
      ==> B.IsStaticGrant(cfg, GrantIn(s.handlers[id].phase).value)
  }

  /** A connection admitted under last-write-wins is alone under its hosts. */
  ghost predicate LastWritesAlone(s: State) {
    forall h, c: ConnId, g :: R.Lists(s.view.inner, h, c) && RunsWith(s, c, g) && g.balance == LastWriteWins
      ==> s.view.inner[h].conns == [c]
  }

  ghost predicate StaticInv(cfg: ServerConfig, s: State) {
    && Inv(s) && ServedView(cfg, s.view) && GrantsAreStatic(cfg, s) && LastWritesAlone(s)
  }

  /** A connection under a host of a static grant was admitted with that grant. */
  lemma ListedGrantIsUnique(cfg: ServerConfig, s: State, h: string, c: ConnId, g: Grant)
    requires Valid(cfg) && TableOk(s) && GrantsAreStatic(cfg, s) && B.IsStaticGrant(cfg, g)
    requires R.Lists(s.view.inner, h, c) && h in B.HostSet(g.hosts)
    ensures RunsWith(s, c, g) && s.view.inner[h].client == g.client
  {
    assert ListedRightly(s, h, c);
    var d :| RunsWith(s, c, d) && d.client == s.view.inner[h].client && h in B.HostSet(d.hosts);
    assert GrantIn(s.handlers[c].phase) == Some(d);
    B.OneGrantPerHost(cfg, d, g, h);
  }

  /** With a validated config an install never takes a hostname over from another client. */
  lemma NoReassignment(cfg: ServerConfig, s: State, id: ConnId)
    requires Valid(cfg) && StaticInv(cfg, s)
    requires id in s.handlers && s.handlers[id].phase.Installing?
    ensures var g := s.handlers[id].phase.grant;
            !R.Reassigns(s.view.inner, g.hosts, g.client, g.balance, id)
  {
    var g, t := s.handlers[id].phase.grant, s.view.inner;
    R.ReassignsFromStart(t, g.hosts, g.client, g.balance, id);
    forall h | h in B.HostSet(g.hosts) && h in t ensures t[h].client == g.client {
      assert R.Lists(t, h, t[h].conns[0]);
      ListedGrantIsUnique(cfg, s, h, t[h].conns[0], g);
    }
  }

  lemma {:induction false} LastModeIsGranted(hosts: seq<B.GrantedHost>, h: string)
    requires h in B.HostSet(hosts)
    ensures B.GrantedHost(h, R.LastMode(hosts, h)) in hosts
  {
    var g := hosts[|hosts| - 1];
    assert hosts == hosts[..|hosts| - 1] + [g];
    if g.host != h {
      LastModeIsGranted(hosts[..|hosts| - 1], h);
    }
  }

  lemma InstallKeepsView(cfg: ServerConfig, s: State, id: ConnId)
    requires StaticInv(cfg, s) && id in s.handlers && s.handlers[id].phase.Installing?
    ensures ServedView(cfg, InstallStep(s, id).view)
  {
    var g, t := s.handlers[id].phase.grant, s.view.inner;
    var t' := InstallStep(s, id).view.inner;
    R.InstallShape(t, g.hosts, g.client, g.balance, id);
    forall h | h in t' ensures ServedByEntry(cfg, h, t'[h].mode) {
      if h in B.HostSet(g.hosts) {
        R.InstallSetsMode(t, g.hosts, g.client, g.balance, id, h);
        LastModeIsGranted(g.hosts, h);
        var e := B.GrantedHostHasEntry(cfg, g, B.GrantedHost(h, t'[h].mode));
      }
    }
  }

  lemma GrantedHostStaysAlone(cfg: ServerConfig, s: State, id: ConnId, h: string, c: ConnId, d: Grant)
    requires Valid(cfg) && StaticInv(cfg, s) && id in s.handlers && s.handlers[id].phase.Installing?
    requires h in B.HostSet(s.handlers[id].phase.grant.hosts)
    requires R.Lists(InstallStep(s, id).view.inner, h, c) && RunsWith(InstallStep(s, id), c, d)
    requires d.balance == LastWriteWins
    ensures InstallStep(s, id).view.inner[h].conns == [c]
  {
    var g, t := s.handlers[id].phase.grant, s.view.inner;
    R.InstallShape(t, g.hosts, g.client, g.balance, id);
    assert R.BelongsTo(t, h, g.client, id, InstallStep(s, id).view.inner);
    if c != id {
      ListedGrantIsUnique(cfg, s, h, c, g);
    }
    assert d == g;
    R.InstallLastWriteWins(t, g.hosts, g.client, id, h);
  }

  lemma InstallKeepsLastWritesAlone(cfg: ServerConfig, s: State, id: ConnId)
    requires Valid(cfg) && StaticInv(cfg, s) && id in s.handlers && s.handlers[id].phase.Installing?
    ensures LastWritesAlone(InstallStep(s, id))
  {
    var s', g, t := InstallStep(s, id), s.handlers[id].phase.grant, s.view.inner;
    R.InstallShape(t, g.hosts, g.client, g.balance, id);
    UnroutedIsUnlisted(s, id);
    forall h, c: ConnId, d | R.Lists(s'.view.inner, h, c) && RunsWith(s', c, d) && d.balance == LastWriteWins
      ensures s'.view.inner[h].conns == [c]
    {
      if h in B.HostSet(g.hosts) {
        GrantedHostStaysAlone(cfg, s, id, h, c, d);
      } else {
        assert s'.view.inner[h] == t[h] && R.Lists(t, h, c);
        InstallKeepsRuns(s, id, c, d);
      }
    }
  }

  lemma InstallKeepsStatic(cfg: ServerConfig, s: State, id: ConnId)
    requires Valid(cfg) && StaticInv(cfg, s) && id in s.handlers && s.handlers[id].phase.Installing?
    ensures StaticInv(cfg, InstallStep(s, id))
  {
    StepKeeps(StaticBackend(cfg), s, Install(id));
    InstallKeepsView(cfg, s, id);
    InstallKeepsLastWritesAlone(cfg, s, id);
  }

  /** Every host of `t'` was in `t`, with the same mode and no more connections. */
  ghost predicate Thinner(t: R.Table, t': R.Table) {
    forall h :: h in t' ==> h in t && t'[h].mode == t[h].mode && OneStaysOne(t[h].conns, t'[h].conns)
  }

  ghost predicate OneStaysOne(s: seq<ConnId>, s': seq<ConnId>) {
    && (forall c :: c in s' ==> c in s)
    && (forall c :: s == [c] && s' != [] ==> s' == [c])
  }

  lemma RemoveThins(t: R.Table, id: ConnId)
    ensures Thinner(t, R.RemoveConn(t, id))
  {
    forall h | h in R.RemoveConn(t, id) ensures OneStaysOne(t[h].conns, R.RemoveConn(t, id)[h].conns) {
      forall c | t[h].conns == [c] ensures Without(t[h].conns, id) == [] || Without(t[h].conns, id) == [c] {
        assert [c][..0] == [] && Without<ConnId>([], id) == [];
      }
    }
  }

  lemma ThinningKeepsStatic(cfg: ServerConfig, s: State, s': State)
    requires StaticInv(cfg, s) && Inv(s') && GrantsAreStatic(cfg, s')
    requires s'.view == s.view.(inner := s'.view.inner, terminated := s'.view.terminated) && Thinner(s.view.inner, s'.view.inner)
    requires forall h, c: ConnId, g :: R.Lists(s'.view.inner, h, c) && RunsWith(s', c, g) ==> RunsWith(s, c, g)
    ensures StaticInv(cfg, s')
  {
    forall h, c: ConnId, g | R.Lists(s'.view.inner, h, c) && RunsWith(s', c, g) && g.balance == LastWriteWins
      ensures s'.view.inner[h].conns == [c]
    {
      assert OneStaysOne(s.view.inner[h].conns, s'.view.inner[h].conns);
      assert R.Lists(s.view.inner, h, c) && RunsWith(s, c, g);
    }
  }

  /** The handler of a step has no grant, the one it had, or one that the backend has just given. */
  ghost predicate GrantHasOrigin(p: Policy, s: State, step: Step)
    requires Enabled(p, s, step) && !IsAmbient(step)
  {
    var after := Apply(p, s, step).handlers;
    step.id in after &&
    var g := GrantIn(after[step.id].phase);
    || g.None?
    || (step.BackendGrants? && g == Some(step.grant))
    || (step.id in s.handlers && g == GrantIn(s.handlers[step.id].phase))
  }

  lemma HandshakeGrants(p: Policy, s: State, step: Step)
    requires Enabled(p, s, step) && IsHandshake(step)
    ensures GrantHasOrigin(p, s, step)
  {
  }

  lemma GrantsComeFromBackend(p: Policy, s: State, step: Step)
    requires Enabled(p, s, step) && !IsAmbient(step)
    ensures GrantHasOrigin(p, s, step)
  {
    if IsHandshake(step) {
      HandshakeGrants(p, s, step);
    } else if IsProgress(step) {
    } else {
    }
  }

  lemma GrantsStayStatic(cfg: ServerConfig, s: State, step: Step)
    requires GrantsAreStatic(cfg, s) && Enabled(StaticBackend(cfg), s, step)
    ensures GrantsAreStatic(cfg, Apply(StaticBackend(cfg), s, step))
  {
    var p, after := StaticBackend(cfg), Apply(StaticBackend(cfg), s, step).handlers;
    if IsAmbient(step) {
      AmbientLeavesHandlers(p, s, step);
    } else {
      GrantsComeFromBackend(p, s, step);
      if step.BackendGrants? {
        B.AdmittedIsStaticGrant(cfg, s.handlers[step.id].phase.token, step.grant);
      }
      forall id | id in after && id != step.id ensures id in s.handlers && after[id] == s.handlers[id] {
        OwnStepIsLocal(p, s, step, id);
      }
    }
  }

  lemma TableThins(cfg: ServerConfig, s: State, step: Step)
    requires Enabled(StaticBackend(cfg), s, step) && !step.Install?
    ensures var s' := Apply(StaticBackend(cfg), s, step);
            && s'.view == s.view.(inner := s'.view.inner, terminated := s'.view.terminated)
            && Thinner(s.view.inner, s'.view.inner)
  {
    if IsQuiet(step) {
      QuietEffect(StaticBackend(cfg), s, step);
    } else if step.Undo? || step.Remove? {
      RemoveThins(s.view.inner, step.id);
    }
  }

  lemma OnlyInstallRoutes(cfg: ServerConfig, s: State, step: Step)
    requires Enabled(StaticBackend(cfg), s, step) && !step.Install?
    ensures forall c, g :: RunsWith(Apply(StaticBackend(cfg), s, step), c, g) ==> RunsWith(s, c, g)
  {
    if IsQuiet(step) {
      QuietEffect(StaticBackend(cfg), s, step);
      QuietKeepsGrants(s, step);
    } else if IsAmbient(step) {
      AmbientLeavesHandlers(StaticBackend(cfg), s, step);
    }
  }

  lemma StaticStepKeeps(cfg: ServerConfig, s: State, step: Step)
    requires Valid(cfg) && StaticInv(cfg, s) && Enabled(StaticBackend(cfg), s, step)
    ensures StaticInv(cfg, Apply(StaticBackend(cfg), s, step))
  {
    var s' := Apply(StaticBackend(cfg), s, step);
    StepKeeps(StaticBackend(cfg), s, step);
    GrantsStayStatic(cfg, s, step);
    if step.Install? {
      InstallKeepsStatic(cfg, s, step.id);
    } else {
      TableThins(cfg, s, step);
      OnlyInstallRoutes(cfg, s, step);
      ThinningKeepsStatic(cfg, s, s');
    }
  }

  /** With a validated config, in every state of every run. */
  lemma {:induction false} StaticRunKeeps(cfg: ServerConfig, run: seq<State>, k: nat)
    requires Valid(cfg) && IsRun(StaticBackend(cfg), run) && k < |run|
    ensures StaticInv(cfg, run[k])
  {
    if k > 0 {
      StaticRunKeeps(cfg, run, k - 1);
      assert Next(StaticBackend(cfg), run[k - 1], run[k - 1 + 1]);
      var step :| Enabled(StaticBackend(cfg), run[k - 1], step) && run[k] == Apply(StaticBackend(cfg), run[k - 1], step);
      StaticStepKeeps(cfg, run[k - 1], step);
    }
  }

  // --------------------------------------------------- what the runs promise

  /** The "hostname reassigned" branch is never taken. */
  lemma HostnamesAreNeverReassigned(cfg: ServerConfig, run: seq<State>, k: nat, id: ConnId)
    requires Valid(cfg) && IsRun(StaticBackend(cfg), run) && k < |run|
    requires id in run[k].handlers && run[k].handlers[id].phase.Installing?
    ensures var g := run[k].handlers[id].phase.grant;
            !R.Reassigns(run[k].view.inner, g.hosts, g.client, g.balance, id)
  {
    StaticRunKeeps(cfg, run, k);
    NoReassignment(cfg, run[k], id);
  }

  /** A host whose client is last-write-wins never lists more than one connection. */
  lemma LastWriteWinsHasOneConnection(cfg: ServerConfig, run: seq<State>, k: nat, h: string, c: ClientEntry)
    requires Valid(cfg) && IsRun(StaticBackend(cfg), run) && k < |run|
    requires h in run[k].view.inner && c in cfg.clients && c.name == run[k].view.inner[h].client
    requires c.balance == LastWriteWins
    ensures |run[k].view.inner[h].conns| == 1
  {
    StaticRunKeeps(cfg, run, k);
    OneUnderLastWriteWins(cfg, run[k], h, c);
  }

  /** A connection of a round-robin client displaces nobody when it is installed. */
  lemma RoundRobinEvictsNobody(cfg: ServerConfig, run: seq<State>, k: nat, id: ConnId, c: ClientEntry)
    requires Valid(cfg) && IsRun(StaticBackend(cfg), run) && k < |run|
    requires id in run[k].handlers && run[k].handlers[id].phase.Installing?
    requires c in cfg.clients && c.name == run[k].handlers[id].phase.grant.client && c.balance == RoundRobin
    ensures var g := run[k].handlers[id].phase.grant;
            R.Install(run[k].view.inner, g.hosts, g.client, g.balance, id).displaced == []
  {
    StaticRunKeeps(cfg, run, k);
    var s, g := run[k], run[k].handlers[id].phase.grant;
    NoReassignment(cfg, s, id);
    assert GrantIn(s.handlers[id].phase) == Some(g);
    var d := B.StaticGrantHasClient(cfg, g);
    B.SameNameSameClient(cfg, c, d);
    UnroutedIsUnlisted(s, id);
    R.ReassignsFromStart(s.view.inner, g.hosts, g.client, g.balance, id);
    R.RoundRobinDisplacesExactly(s.view.inner, g.hosts, g.client, id);
  }

  lemma HostHasGrant(s: State, h: string) returns (conn: ConnId, g: Grant)
    requires TableOk(s) && h in s.view.inner
    ensures R.Lists(s.view.inner, h, conn) && RunsWith(s, conn, g) && g.client == s.view.inner[h].client
  {
    conn := s.view.inner[h].conns[0];
    assert R.Lists(s.view.inner, h, conn) && ListedRightly(s, h, conn);
    g :| RunsWith(s, conn, g) && g.client == s.view.inner[h].client && h in B.HostSet(g.hosts);
  }

  lemma OneUnderLastWriteWins(cfg: ServerConfig, s: State, h: string, c: ClientEntry)
    requires Valid(cfg) && TableOk(s) && GrantsAreStatic(cfg, s) && LastWritesAlone(s)
    requires h in s.view.inner && c in cfg.clients && c.name == s.view.inner[h].client
    requires c.balance == LastWriteWins
    ensures |s.view.inner[h].conns| == 1
  {
    var conn, g := HostHasGrant(s, h);
    assert GrantIn(s.handlers[conn].phase) == Some(g);
    var d := B.StaticGrantHasClient(cfg, g);
    B.SameNameSameClient(cfg, c, d);
  }

  /** The listener and the routing agree on the TLS mode of every host in a state
      of a run exactly when they agree on the upstreams with a key of their own
      and on the hosts with tunnels, whatever set was provisioned before. */
  lemma ModesAgreeAtExactly(cfg: ServerConfig, run: seq<State>, k: nat)
    requires Valid(cfg) && IsRun(StaticBackend(cfg), run) && k < |run|
    ensures (forall host :: ModeAgrees(run[k].view, host)) <==> ExactHostsAgree(run[k].view)
  {
    StaticRunKeeps(cfg, run, k);
    AgreesOnAllHostsExactly(cfg, run[k].view);
  }

  /** While the terminated set is that of the config, an unambiguous config is
      enough for agreement on every host in every state of every run. */
  lemma ModesAgreeInEveryRun(cfg: ServerConfig, run: seq<State>, k: nat, host: string)
    requires Valid(cfg) && Unambiguous(cfg) && IsRun(StaticBackend(cfg), run) && k < |run|
    requires Unprovisioned(cfg, run[k].view)
    ensures ModeAgrees(run[k].view, host)
  {
    StaticRunKeeps(cfg, run, k);
    UnambiguousAgrees(cfg, run[k].view, host);
  }

  ghost function StartedFrom(cfg: ServerConfig): State {
    Started(FromConfig(cfg.hostnames, cfg.upstreams))
  }

  /** A client that can connect has all its hostnames installed in some run. */
  lemma ClientConnects(cfg: ServerConfig, c: nat) returns (run: seq<State>, g: Grant)
    requires B.Admissible(cfg.clients, c)
    ensures IsRun(StaticBackend(cfg), run) && g == B.GrantOf(cfg, cfg.clients[c])
    ensures Last(run) == Installed(StartedFrom(cfg).view, g)
  {
    g := B.GrantOf(cfg, cfg.clients[c]);
    assert B.StaticallyAdmits(cfg, cfg.clients[c].token, Some(g));
    run := Connect(StaticBackend(cfg), StartedFrom(cfg).view, cfg.clients[c].token, g);
  }

  /** A hostname entry whose client can connect is in the table of some run. */
  lemma HostnameIsReached(cfg: ServerConfig, i: nat) returns (run: seq<State>)
    requires Valid(cfg) && i < |cfg.hostnames| && B.CanConnect(cfg, cfg.hostnames[i].client)
    ensures IsRun(StaticBackend(cfg), run) && Unprovisioned(cfg, Last(run).view)
    ensures var e, t := cfg.hostnames[i], Last(run).view.inner;
            e.host in t && t[e.host].mode == e.mode
  {
    var e := cfg.hostnames[i];
    var c :| B.Admissible(cfg.clients, c) && cfg.clients[c].name == e.client;
    var g;
    run, g := ClientConnects(cfg, c);
    assert e in cfg.hostnames && B.GrantedHost(e.host, e.mode) in g.hosts;
    R.InstallSetsMode(map[], g.hosts, g.client, g.balance, 0, e.host);
    LastModeIsGranted(g.hosts, e.host);
    var d := B.GrantedHostHasEntry(cfg, g, B.GrantedHost(e.host, R.LastMode(g.hosts, e.host)));
    B.SameHostSameEntry(cfg, d, e);
  }

  /** An entry that can win does route its host in some run. */
  lemma WinnerIsReached(cfg: ServerConfig, i: nat) returns (run: seq<State>, host: string)
    requires Valid(cfg) && Wins(cfg, i)
    ensures IsRun(StaticBackend(cfg), run) && StaticView(cfg, Last(run).view) && Key(cfg, i) == Lower(host)
    ensures RoutedMode(Last(run).view, host) == Some(Entries(cfg)[i].mode)
    ensures WildcardUpstream(Last(run).view, Lower(host)).None?
  {
    EntryAt(cfg, i);
    host := Entries(cfg)[i].host;
    if IsUpstream(cfg, i) {
      run := [StartedFrom(cfg)];
      StaticRunKeeps(cfg, run, 0);
      UpstreamKeyIsLocal(cfg, run[0].view, i);
      var w := LocalIsWinner(cfg, run[0].view, Key(cfg, i));
      assert w == i;
    } else {
      run := HostnameIsReached(cfg, i);
      StaticRunKeeps(cfg, run, |run| - 1);
      HostnameKeyIsTunnelHost(cfg, Last(run).view, i);
      NotAnUpstream(cfg, Last(run).view, i);
    }
  }

  lemma NotAnUpstream(cfg: ServerConfig, v: View, i: nat)
    requires Valid(cfg) && Wins(cfg, i) && i < |cfg.hostnames| && ServedView(cfg, v)
    ensures Key(cfg, i) !in v.local
  {
    if Key(cfg, i) in v.local {
      var w := LocalIsWinner(cfg, v, Key(cfg, i));
      assert false;
    }
  }

  /** The listener agrees with the routing on `host` in state `k`, unless another
      terminated set than that of the config is in force. */
  ghost predicate AgreesAt(cfg: ServerConfig, run: seq<State>, k: nat, host: string)
    requires k < |run|
  {
    Unprovisioned(cfg, run[k].view) ==> ModeAgrees(run[k].view, host)
  }

  lemma AmbiguityIsReached(cfg: ServerConfig, i: nat, j: nat) returns (run: seq<State>, host: string)
    requires Valid(cfg) && Wins(cfg, i) && j < |Entries(cfg)| && Key(cfg, j) == Key(cfg, i)
    requires Strength(Entries(cfg)[j].mode) > Strength(Entries(cfg)[i].mode)
    ensures IsRun(StaticBackend(cfg), run) && !AgreesAt(cfg, run, |run| - 1, host)
  {
    run, host := WinnerIsReached(cfg, i);
    AgreesAtKey(cfg, Last(run).view, host, i);
  }

  /** In static mode the listener and the routing agree on the TLS mode of every
      host in every state of every run, if and only if no entry with the same
      host ignoring case asks for more than an entry that can route it. */
  lemma ModesAgreeExactly(cfg: ServerConfig)
    requires Valid(cfg)
    ensures (forall run: seq<State>, k: nat, host ::
               IsRun(StaticBackend(cfg), run) && k < |run| ==> AgreesAt(cfg, run, k, host))
            <==> Unambiguous(cfg)
  {
    if Unambiguous(cfg) {
      forall run: seq<State>, k: nat, host | IsRun(StaticBackend(cfg), run) && k < |run|
        ensures AgreesAt(cfg, run, k, host)
      {
        if Unprovisioned(cfg, run[k].view) {
          ModesAgreeInEveryRun(cfg, run, k, host);
        }
      }
    } else {
      var i: nat, j: nat :| Wins(cfg, i) && j < |Entries(cfg)| && Key(cfg, j) == Key(cfg, i)
                            && Strength(Entries(cfg)[j].mode) > Strength(Entries(cfg)[i].mode);
      var run, host := AmbiguityIsReached(cfg, i, j);
      var k: nat := |run| - 1;
      assert IsRun(StaticBackend(cfg), run) && k < |run| && !AgreesAt(cfg, run, k, host);
    }
  }

  /** A token of equal bytes. */
  function TokenOf(b: Byte): Token {
    seq(32, i => b)
  }

  /** Two hostnames that differ only in case, with different modes. */
  function TwoSpellings(tokenOfB: Token): ServerConfig {
    ServerConfig(
      [ClientEntry("a", TokenOf(1), RoundRobin), ClientEntry("b", tokenOfB, RoundRobin)],
      [HostnameEntry("App", "a", Passthrough, None, None), HostnameEntry("app", "b", Terminated, None, None)],
      [], None)
  }

  lemma TwoSpellingsEntries(tokenOfB: Token)
    ensures var cfg := TwoSpellings(tokenOfB);
            && Valid(cfg)
            && Entries(cfg) == [Entry("App", Passthrough, None, None), Entry("app", Terminated, None, None)]
            && Key(cfg, 0) == Key(cfg, 1) == "app"
  {
    var cfg := TwoSpellings(tokenOfB);
    var es := Entries(cfg);
    assert es == [Entry("App", Passthrough, None, None), Entry("app", Terminated, None, None)];
    assert "App"[0] != "app"[0];
    assert EntryHosts(es) == ["App", "app"] && ClientNames(cfg.clients) == ["a", "b"];
    assert "a"[0] != "b"[0];
    assert Lower("App") == "app" && Lower("app") == "app";
  }

  /** The failing case: `App` of client `a` passes through, `app` of client `b` is
      terminated. Validation accepts this, and once `a` has connected the listener
      terminates a host that is routed as passthrough. */
  lemma TwoSpellingsDisagree() returns (run: seq<State>, host: string)
    ensures Valid(TwoSpellings(TokenOf(2))) && IsRun(StaticBackend(TwoSpellings(TokenOf(2))), run)
    ensures !AgreesAt(TwoSpellings(TokenOf(2)), run, |run| - 1, host)
  {
    var cfg := TwoSpellings(TokenOf(2));
    TwoSpellingsEntries(TokenOf(2));
    assert TokenOf(1)[0] != TokenOf(2)[0];
    assert B.Admissible(cfg.clients, 0);
    assert Wins(cfg, 0);
    run, host := AmbiguityIsReached(cfg, 0, 1);
  }

  /** The same entries are harmless if both clients share a token: `a` is then
      never admitted, so `App` never has a tunnel. */
  lemma SharedTokenIsUnambiguous()
    ensures Valid(TwoSpellings(TokenOf(1))) && Unambiguous(TwoSpellings(TokenOf(1)))
  {
    var cfg := TwoSpellings(TokenOf(1));
    TwoSpellingsEntries(TokenOf(1));
    assert cfg.clients[1].token == cfg.clients[0].token;
    forall k | B.Admissible(cfg.clients, k) ensures k != 0 {
    }
    assert !Wins(cfg, 0);
  }

  /** One client with one lowercase hostname, which the server terminates. */
  function OneHost(balance: Balance): ServerConfig {
    ServerConfig(
      [ClientEntry("a", TokenOf(1), balance)], [HostnameEntry("app.x", "a", Terminated, None, None)], [], None)
  }

  lemma OneHostIsValid(balance: Balance)
    ensures Valid(OneHost(balance)) && B.Admissible(OneHost(balance).clients, 0)
  {
    var cfg := OneHost(balance);
    assert Entries(cfg) == [Entry("app.x", Terminated, None, None)];
    assert ClientNames(cfg.clients) == ["a"] && EntryHosts(Entries(cfg)) == ["app.x"];
  }

  lemma OneHostView() returns (run: seq<State>)
    ensures IsRun(StaticBackend(OneHost(RoundRobin)), run) && Last(run).closed == {}
    ensures Last(run).view == StartedFrom(OneHost(RoundRobin)).view.(inner := map["app.x" := R.HostRoutes("a", Terminated, [0], 0)])
  {
    OneHostIsValid(RoundRobin);
    var g;
    run, g := ClientConnects(OneHost(RoundRobin), 0);
    var hosts, t: R.Table := [B.GrantedHost("app.x", Terminated)], map[];
    assert OneHost(RoundRobin).hostnames[1..] == [];
    assert B.HostsOfClient(OneHost(RoundRobin).hostnames[1..], "a") == [];
    assert g.hosts == hosts && hosts[..0] == [] && [] + [0] == [0 as ConnId];
    assert R.Install(t, hosts[..0], "a", RoundRobin, 0) == R.Installed(t, []);
    assert R.InstallOne(t, hosts[0], "a", RoundRobin, 0).table
        == map["app.x" := R.HostRoutes("a", Terminated, [0], 0)];
  }

  /** The failing case: once the client of `app.x` has connected, the server
      terminates TLS for `APP.x` but finds no tunnel for it. */
  lemma MixedCaseLosesItsTunnel() returns (run: seq<State>)
    ensures Valid(OneHost(RoundRobin)) && IsRun(StaticBackend(OneHost(RoundRobin)), run) && Last(run).closed == {}
    ensures var v := Last(run).view;
            && LookupRoute(v, "app.x", {}) == Some(Tunnel("a", Terminated, 0))
            && LookupRoute(v, "APP.x", {}) == None
            && IsTerminated(v, "APP.x")
  {
    OneHostIsValid(RoundRobin);
    run := OneHostView();
    var v := Last(run).view;
    assert Lower("APP.x") == "app.x" && Lower("app.x") == "app.x";
    assert OneHost(RoundRobin).hostnames[0] in OneHost(RoundRobin).hostnames;
    assert "app.x" in v.terminated;
    assert "APP.x"[0] != "app.x"[0];
    OpenTunnelIsFound(v.inner["app.x"]);
  }

  lemma TerminatedIsNamed(cfg: ServerConfig, key: string)
    requires HasTargets(cfg) && key in FromConfig(cfg.hostnames, cfg.upstreams).terminated
    ensures key in LocalOf(cfg.upstreams) || key in FromConfig(cfg.hostnames, cfg.upstreams).tunnelHosts
  {
    if h :| h in cfg.hostnames && Terminates(h.mode) && Lower(h.host) == key {
    } else {
      var u :| u in cfg.upstreams && Terminates(u.mode) && Lower(u.host) == key;
      var i :| 0 <= i < |cfg.upstreams| && cfg.upstreams[i] == u;
      LocalHasKey(cfg.upstreams, i);
    }
  }

  lemma TunnelIsNamed(cfg: ServerConfig, v: View, key: string)
    requires ServedView(cfg, v) && key in v.inner && IsLower(key)
    ensures key in v.tunnelHosts
  {
    assert ServedByEntry(cfg, key, v.inner[key].mode);
  }

  /** No connect, disconnect, revocation or lookup changes which upstream a host
      resolves to, whatever the letter case of the config. Provisioning changes it
      exactly for the hosts in the new set that the config serves by a wildcard. */
  lemma UpstreamsStayExactly(cfg: ServerConfig, run: seq<State>, k: nat, host: string)
    requires Valid(cfg) && IsRun(StaticBackend(cfg), run) && k < |run|
    ensures var v, config := run[k].view, FromConfig(cfg.hostnames, cfg.upstreams);
            && (UpstreamFor(v, host) == UpstreamFor(config, host)
                <==> !(Lower(host) in v.terminated && WildcardUpstream(config, Lower(host)).Some?))
            && (Unprovisioned(cfg, v) ==> UpstreamFor(v, host) == UpstreamFor(config, host))
  {
    StaticRunKeeps(cfg, run, k);
    var v, config, lower := run[k].view, FromConfig(cfg.hostnames, cfg.upstreams), Lower(host);
    LowerIdempotent(host);
    if lower in v.inner {
      TunnelIsNamed(cfg, v, lower);
    }
    if lower in config.terminated {
      TerminatedIsNamed(cfg, lower);
    }
  }
}
