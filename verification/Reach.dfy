/** Runs that show what a server can reach: a client connects, a second one after it. */
module Reach {
  import opened Prelude
  import opened Config
  import R = Routing
  import opened Resolution
  import opened ControlPlane
  import opened Tunnels

  ghost function Last(run: seq<State>): State
    requires run != []
  {
    run[|run| - 1]
  }

  lemma Go(p: Policy, run: seq<State>, step: Step) returns (longer: seq<State>)
    requires IsRun(p, run) && Enabled(p, Last(run), step)
    ensures IsRun(p, longer) && Last(longer) == Apply(p, Last(run), step)
  {
    longer := run + [Apply(p, Last(run), step)];
    forall k | 0 <= k < |longer| - 1 ensures Next(p, longer[k], longer[k + 1]) {
      if k < |run| - 1 {
        assert Next(p, run[k], run[k + 1]);
      }
    }
  }

  /** A server that has just started from this table. */
  function Started(v: View): State {
    State(v, map[], {}, {}, map[], false)
  }

  /** The same server with connection `id` in this phase, which has caused no event yet. */
  function With(s: State, id: ConnId, phase: Phase): State {
    s.(handlers := s.handlers[id := Handler("peer", phase, [])])
  }

  /** Nobody has seen this connection yet. */
  ghost predicate Unseen(s: State, id: ConnId) {
    id !in s.handlers && id !in s.closed && !PendingClose(s, id)
  }

  lemma MoveOn(s: State, id: ConnId, before: Phase, after: Phase)
    ensures At(With(s, id, before), id, after) == With(s, id, after)
  {
  }

  lemma Arrive(p: Policy, run: seq<State>, id: ConnId) returns (longer: seq<State>)
    requires IsRun(p, run) && Unseen(Last(run), id)
    ensures IsRun(p, longer) && Last(longer) == With(Last(run), id, AwaitHello)
  {
    var s := Last(run);
    longer := Go(p, run, Accept(id, "peer"));
    assert s.closed - {id} == s.closed;
    assert Last(longer) == With(s, id, AwaitStream);
    MoveOn(s, id, AwaitStream, AwaitHello);
    longer := Go(p, longer, StreamOpened(id));
  }

  lemma SayHello(p: Policy, run: seq<State>, s: State, id: ConnId, token: Token) returns (longer: seq<State>)
    requires IsRun(p, run) && Last(run) == With(s, id, AwaitHello)
    ensures IsRun(p, longer) && Last(longer) == With(s, id, AwaitAdmit(token))
  {
    MoveOn(s, id, AwaitHello, AwaitAdmit(token));
    longer := Go(p, run, HelloRead(id, token));
  }

  lemma BeAdmitted(p: Policy, run: seq<State>, s: State, id: ConnId, token: Token, g: Grant)
    returns (longer: seq<State>)
    requires IsRun(p, run) && Last(run) == With(s, id, AwaitAdmit(token)) && MayGrant(p, token, g)
    requires id !in s.closed
    ensures IsRun(p, longer) && Last(longer) == With(s, id, Installing(g))
  {
    MoveOn(s, id, AwaitAdmit(token), Admitted(g));
    longer := Go(p, run, BackendGrants(id, g));
    MoveOn(s, id, Admitted(g), Installing(g));
    longer := Go(p, longer, CheckOpen(id));
  }

  /** The handshake of a connection, up to the point where its routes are installed. */
  lemma Handshake(p: Policy, run: seq<State>, id: ConnId, token: Token, g: Grant) returns (longer: seq<State>)
    requires IsRun(p, run) && Unseen(Last(run), id) && MayGrant(p, token, g)
    ensures IsRun(p, longer) && Last(longer) == With(Last(run), id, Installing(g))
  {
    longer := Arrive(p, run, id);
    longer := SayHello(p, longer, Last(run), id, token);
    longer := BeAdmitted(p, longer, Last(run), id, token, g);
  }

  lemma FirstInstallDisplacesNone(g: Grant, id: ConnId)
    ensures R.Install(map[], g.hosts, g.client, g.balance, id).displaced == []
  {
    var t: R.Table := map[];
    var displaced := R.Install(t, g.hosts, g.client, g.balance, id).displaced;
    assert displaced != [] ==> exists c :: c in displaced by {
      if displaced != [] {
        assert displaced[0] in displaced;
      }
    }
    R.InstallAccounts(t, g.hosts, g.client, g.balance, id);
    R.InstallKeepsForm(t, g.hosts, g.client, g.balance, id);
  }

  /** The state after connection 0 has installed the routes of grant `g`. */
  function Installed(v: View, g: Grant): State {
    With(Started(v.(inner := R.Install(map[], g.hosts, g.client, g.balance, 0).table)), 0, Closing(g, []))
  }

  /** Any grant the backend may give is installed at the end of some run. */
  lemma Connect(p: Policy, v: View, token: Token, g: Grant) returns (run: seq<State>)
    requires Init(p, Started(v)) && MayGrant(p, token, g)
    ensures IsRun(p, run) && Last(run) == Installed(v, g)
  {
    run := Handshake(p, [Started(v)], 0, token, g);
    FirstInstallDisplacesNone(g, 0);
    run := Go(p, run, Install(0));
    assert Last(run) == Installed(v, g);
  }

  /** And the tunnel is then registered. */
  lemma Serve(p: Policy, v: View, token: Token, g: Grant) returns (run: seq<State>)
    requires Init(p, Started(v)) && MayGrant(p, token, g)
    ensures IsRun(p, run)
    ensures var s := Installed(v, g);
            Last(run) == s.(tunnels := map[0 := InfoOf(g, "peer")],
                            handlers := map[0 := Handler("peer", Holding(g), [UpOf(InfoOf(g, "peer"))])])
  {
    run := Connect(p, v, token, g);
    var s := Last(run);
    MoveOn(s, 0, Closing(g, []), Welcoming(g));
    assert With(s, 0, Closing(g, [])) == s;
    run := Go(p, run, AllDisplacedClosed(0));
    MoveOn(s, 0, Welcoming(g), Registering(g));
    run := Go(p, run, WelcomeSent(0));
    run := Go(p, run, Register(0));
    var h := Handler("peer", Holding(g), [UpOf(InfoOf(g, "peer"))]);
    assert [] + [UpOf(InfoOf(g, "peer"))] == h.events;
    assert Last(run).handlers == map[0 := h] && Last(run).tunnels == map[0 := InfoOf(g, "peer")];
  }
}
