/** What a revocation reaches: the tunnels of a client that it closes, and those
    it misses. */
module Revocation {
  import opened Prelude
  import opened Config
  import B = Backend
  import R = Routing
  import opened Resolution
  import opened Tunnels
  import opened TunnelSafety
  import opened Reach

  /** The connection is closed, or someone is about to close it. */
  ghost predicate Doomed(s: State, id: ConnId) {
    id in s.closed || PendingClose(s, id)
  }

  // ------------------------------- a handler that takes its tunnel down is closed

  predicate Ending(p: Phase) {
    p.Removing? || p.Unregistering?
  }

  ghost predicate EndingIsClosed(s: State) {
    forall id :: id in s.handlers && Ending(s.handlers[id].phase) ==> id in s.closed
  }

  lemma QuietEnding(s: State, step: Step)
    requires IsQuiet(step) && Enabled(AnyBackend, s, step) && step.id in s.handlers
    ensures Ending(QuietPhase(s, step)) ==> step.id in s.closed + QuietCloses(s, step)
  {
    if IsHandshake(step) {
    } else {
    }
  }

  lemma AmbientKeepsClosed(p: Policy, s: State, step: Step)
    requires Enabled(p, s, step) && IsAmbient(step)
    ensures s.closed <= Apply(p, s, step).closed
  {
  }

  lemma StepKeepsEnding(p: Policy, s: State, step: Step)
    requires EndingIsClosed(s) && Enabled(p, s, step)
    ensures EndingIsClosed(Apply(p, s, step))
  {
    if IsQuiet(step) {
      QuietEffect(p, s, step);
      QuietEnding(s, step);
    } else if IsAmbient(step) {
      AmbientLeavesHandlers(p, s, step);
      AmbientKeepsClosed(p, s, step);
    }
  }

  lemma {:induction false} RunKeepsEnding(p: Policy, run: seq<State>, k: nat)
    requires IsRun(p, run) && k < |run|
    ensures EndingIsClosed(run[k])
  {
    if k > 0 {
      RunKeepsEnding(p, run, k - 1);
      assert Next(p, run[k - 1], run[k - 1 + 1]);
      var step :| Enabled(p, run[k - 1], step) && run[k] == Apply(p, run[k - 1], step);
      StepKeepsEnding(p, run[k - 1], step);
    }
  }

  // --------------------------------------------------------------- revocation

  lemma KickDoomsListed(p: Policy, s: State, client: string, id: ConnId)
    ensures Doomed(Apply(p, s, Kick(client)), id)
            <==> id in R.ConnsOf(s.view.inner, client) || Doomed(s, id)
  {
  }

  /** A running tunnel of the client is listed for it, unless it is doomed already
      or its grant names no host. */
  lemma RoutedIsListedExactly(s: State, id: ConnId, g: Grant)
    requires Inv(s) && RunsWith(s, id, g)
    ensures id in R.ConnsOf(s.view.inner, g.client) || Doomed(s, id) <==> g.hosts != [] || Doomed(s, id)
  {
    if g.hosts != [] {
      var h := g.hosts[0].host;
      assert g.hosts[0] in g.hosts && h in B.HostSet(g.hosts);
      assert ServedOrClosing(s, id, h);
      if R.Lists(s.view.inner, h, id) {
        assert ListedRightly(s, h, id);
      }
    }
    if id in R.ConnsOf(s.view.inner, g.client) {
      var h :| h in s.view.inner && s.view.inner[h].client == g.client && id in s.view.inner[h].conns;
      assert R.Lists(s.view.inner, h, id) && ListedRightly(s, h, id);
    }
  }

  /** In any state of any run, a revocation closes a registered tunnel of the
      client, or hands it over to be closed, exactly when the tunnel serves some
      hostname; otherwise only if that had happened before. */
  lemma KickClosesTunnelsExactly(p: Policy, run: seq<State>, k: nat, client: string, id: ConnId)
    requires IsRun(p, run) && k < |run|
    requires id in run[k].tunnels && run[k].tunnels[id].client == client
    ensures Doomed(Apply(p, run[k], Kick(client)), id)
            <==> run[k].tunnels[id].hostnames != [] || Doomed(run[k], id)
  {
    var s := run[k];
    RunKeeps(p, run, k);
    RunKeepsEnding(p, run, k);
    KickDoomsListed(p, s, client, id);
    assert id in s.handlers && EntryOk(s.tunnels, id, s.handlers[id]);
    var g := RegisteredGrant(s.handlers[id].phase).value;
    assert s.tunnels[id] == InfoOf(g, s.handlers[id].peer);
    if !s.handlers[id].phase.Unregistering? {
      RoutedIsListedExactly(s, id, g);
    }
  }

  /** A revocation of one client leaves the registered tunnels of all others alone:
      none is closed or handed over for it, and each is under the same hosts. */
  lemma KickSparesOtherTunnels(p: Policy, run: seq<State>, k: nat, client: string, id: ConnId, h: string)
    requires IsRun(p, run) && k < |run|
    requires id in run[k].tunnels && run[k].tunnels[id].client != client
    ensures var s' := Apply(p, run[k], Kick(client));
            && (Doomed(s', id) <==> Doomed(run[k], id))
            && (R.Lists(s'.view.inner, h, id) <==> R.Lists(run[k].view.inner, h, id))
            && (h in run[k].view.inner && run[k].view.inner[h].client != client ==>
                  h in s'.view.inner && s'.view.inner[h] == run[k].view.inner[h])
  {
    var s := run[k];
    RunKeeps(p, run, k);
    KickDoomsListed(p, s, client, id);
    R.KickSparesOthers(s.view.inner, client);
    assert id in s.handlers && EntryOk(s.tunnels, id, s.handlers[id]);
    forall g | R.Lists(s.view.inner, g, id) ensures s.view.inner[g].client != client {
      assert ListedRightly(s, g, id);
    }
  }

  /** A client without hostnames. */
  function NoHosts(): ServerConfig {
    ServerConfig([ClientEntry("a", seq(32, i => 1), RoundRobin)], [], [], None)
  }

  lemma NoHostsGrant() returns (g: Grant)
    ensures Valid(NoHosts()) && g == B.Grant("a", RoundRobin, [])
    ensures MayGrant(StaticBackend(NoHosts()), NoHosts().clients[0].token, g)
  {
    var cfg := NoHosts();
    g := B.GrantOf(cfg, cfg.clients[0]);
    assert Entries(cfg) == [] && ClientNames(cfg.clients) == ["a"];
    assert B.LastWithToken(cfg.clients, cfg.clients[0].token, 0);
  }

  /** The failing case: a valid config has a client without hostnames. Its tunnel is
      welcomed and registered, and a revocation of the client leaves it alone. */
  lemma KickMissesATunnel() returns (run: seq<State>)
    ensures Valid(NoHosts()) && IsRun(StaticBackend(NoHosts()), run)
    ensures var s := Last(run);
            && 0 in s.tunnels && s.tunnels[0].client == "a"
            && !Doomed(Apply(StaticBackend(NoHosts()), s, Kick("a")), 0)
  {
    var p, v := StaticBackend(NoHosts()), FromConfig([], []);
    var g := NoHostsGrant();
    run := Serve(p, v, NoHosts().clients[0].token, g);
    KickClosesTunnelsExactly(p, run, |run| - 1, "a", 0);
  }
}
