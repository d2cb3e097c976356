/** Round-robin as callers of the routing table see it: what one lookup does to the
    table, and how successive lookups share a host among its open connections. */
module Fairness {
  import opened Prelude
  import opened Routing
  import opened RoundRobin
  import opened Resolution
  import T = Tunnels
  import S = TunnelSafety

  /** The table after a lookup. */
  function After(v: View, host: string, closed: set<ConnId>): View {
    v.(inner := LookupTable(v, host, closed))
  }

  // ------------------------------------------------------------- one lookup

  /** How far one walk of the cursor goes: up to the first open connection. */
  lemma {:induction false} ProbeMoves(conns: seq<ConnId>, closed: set<ConnId>, c: Cursor, budget: nat) returns (k: nat)
    requires conns != [] && 0 < budget <= USIZE
    ensures 1 <= k <= budget && Probe(conns, closed, c, budget).cursor == WrapAdd(c, k)
    ensures forall j :: 0 <= j < k - 1 ==> conns[Visit(c, j, |conns|)] in closed
    ensures var i := Visit(c, k - 1, |conns|);
            if conns[i] in closed then k == budget && Probe(conns, closed, c, budget).found == None
            else Probe(conns, closed, c, budget).found == Some(i)
    decreases budget
  {
    var n := |conns|;
    VisitNext(c, 0, n);
    if conns[c % n] !in closed || budget == 1 {
      k := 1;
      assert budget == 1 ==> Probe(conns, closed, Advance(c), 0) == Probed(None, Advance(c));
    } else {
      var m := ProbeMoves(conns, closed, Advance(c), budget - 1);
      k := m + 1;
      VisitNext(c, m - 1, n);
      forall j | 0 <= j < k - 1 ensures conns[Visit(c, j, n)] in closed {
        if j > 0 {
          VisitNext(c, j - 1, n);
        }
      }
    }
  }

  /** A lookup of a host with tunnels advances the cursor of the host by the number
      of connections it looked at, up to and including the one it chose or all of
      them if none is open, and changes nothing else in the table. */
  lemma LookupMovesCursor(v: View, host: string, closed: set<ConnId>) returns (k: nat)
    requires host in v.inner && UpstreamFor(v, host).None? && 0 < |v.inner[host].conns| <= USIZE
    ensures var e := v.inner[host];
            var n := |e.conns|;
            && 1 <= k <= n
            && After(v, host, closed) == v.(inner := v.inner[host := e.(cursor := WrapAdd(e.cursor, k))])
            && (forall j :: 0 <= j < k - 1 ==> e.conns[Visit(e.cursor, j, n)] in closed)
            && var conn := e.conns[Visit(e.cursor, k - 1, n)];
               if conn in closed then k == n && LookupRoute(v, host, closed) == None
               else LookupRoute(v, host, closed) == Some(Tunnel(e.client, e.mode, conn))
  {
    var e := v.inner[host];
    k := ProbeMoves(e.conns, closed, e.cursor, |e.conns|);
  }

  /** Other lookups leave the table alone. */
  lemma OtherLookupsMoveNothing(v: View, host: string, closed: set<ConnId>)
    requires UpstreamFor(v, host).Some? || host !in v.inner
    ensures After(v, host, closed) == v
  {
  }

  // ------------------------------------------------------- successive lookups

  /** The answers of `m` lookups in a row. */
  ghost function Answers(v: View, host: string, closed: set<ConnId>, m: nat): seq<Option<Route>>
    decreases m
  {
    if m == 0 then []
    else [LookupRoute(v, host, closed)] + Answers(After(v, host, closed), host, closed, m - 1)
  }

  function RouteAt(e: HostRoutes, r: Option<nat>): Option<Route> {
    if r.Some? && r.value < |e.conns| then Some(Tunnel(e.client, e.mode, e.conns[r.value])) else None
  }

  function ToRoutes(e: HostRoutes, results: seq<Option<nat>>): seq<Option<Route>> {
    if results == [] then [] else [RouteAt(e, results[0])] + ToRoutes(e, results[1..])
  }

  lemma ToRoutesCons(e: HostRoutes, r: Option<nat>, rest: seq<Option<nat>>)
    ensures ToRoutes(e, [r] + rest) == [RouteAt(e, r)] + ToRoutes(e, rest)
  {
    assert ([r] + rest)[1..] == rest;
  }

  /** One lookup in terms of the list and the cursor alone. */
  lemma LookupIsPick(v: View, host: string, closed: set<ConnId>)
    requires host in v.inner && UpstreamFor(v, host).None?
    ensures var e := v.inner[host];
            var r := Pick(e.conns, closed, e.cursor);
            && LookupRoute(v, host, closed) == RouteAt(e, r.found)
            && After(v, host, closed) == v.(inner := v.inner[host := e.(cursor := r.cursor)])
            && UpstreamFor(After(v, host, closed), host).None?
  {
    assert LookupTable(v, host, closed).Keys == v.inner.Keys;
  }

  lemma RouteIgnoresCursor(e: HostRoutes, c: Cursor, results: seq<Option<nat>>)
    ensures ToRoutes(e.(cursor := c), results) == ToRoutes(e, results)
  {
  }

  lemma {:induction false} AnswersAreLookups(v: View, host: string, closed: set<ConnId>, m: nat)
    requires host in v.inner && UpstreamFor(v, host).None?
    ensures var e := v.inner[host];
            Answers(v, host, closed, m) == ToRoutes(e, Lookups(e.conns, closed, e.cursor, m))
    decreases m
  {
    if m > 0 {
      var e := v.inner[host];
      var r := Pick(e.conns, closed, e.cursor);
      LookupIsPick(v, host, closed);
      AnswersAreLookups(After(v, host, closed), host, closed, m - 1);
      var rest := Lookups(e.conns, closed, r.cursor, m - 1);
      RouteIgnoresCursor(e, r.cursor, rest);
      LookupsStep(e.conns, closed, e.cursor, m);
      ToRoutesCons(e, r.found, rest);
    }
  }

  /** How often connection `i` is among the answers. */
  lemma {:induction false} RoutesCount(e: HostRoutes, closed: set<ConnId>, results: seq<Option<nat>>, i: nat)
    requires Distinct(e.conns) && i < |e.conns|
    requires forall x :: x in results ==> x.Some? && Open(e.conns, closed, x.value)
    ensures |ToRoutes(e, results)| == |results|
    ensures multiset(ToRoutes(e, results))[Some(Tunnel(e.client, e.mode, e.conns[i]))] == Times(results, i)
    ensures forall r :: r in ToRoutes(e, results) ==> IsOpenTunnel(e, closed, r)
  {
    if results != [] {
      RoutesCount(e, closed, results[1..], i);
      assert results == [results[0]] + results[1..];
      TimesCons(results[0].value, results[1..], i);
      assert IsOpenTunnel(e, closed, RouteAt(e, results[0]));
    }
  }

  ghost predicate IsOpenTunnel(e: HostRoutes, closed: set<ConnId>, r: Option<Route>) {
    r.Some? && r.value.Tunnel? && r.value.client == e.client && r.value.mode == e.mode
    && r.value.conn in e.conns && r.value.conn !in closed
  }

  /** The answers are open tunnels of the host, and connection `i` is among them
      floor(m/L) or ceil(m/L) times, m being their number and L that of the open ones. */
  ghost predicate SharedFairly(e: HostRoutes, closed: set<ConnId>, answers: seq<Option<Route>>, i: nat)
    requires i < |e.conns|
  {
    var m, l := |answers|, OpenCount(e.conns, closed, |e.conns|);
    && (forall r :: r in answers ==> IsOpenTunnel(e, closed, r))
    && l > 0 && m / l <= multiset(answers)[Some(Tunnel(e.client, e.mode, e.conns[i]))] <= (m + l - 1) / l
  }

  lemma FairLookupsShareFairly(e: HostRoutes, closed: set<ConnId>, c: Cursor, m: nat, i: nat)
    requires Distinct(e.conns) && Open(e.conns, closed, i)
    requires NoLoss(|e.conns|, Walk(e.conns, closed, c, m, i))
    ensures var answers := ToRoutes(e, Lookups(e.conns, closed, c, m));
            |answers| == m && SharedFairly(e, closed, answers, i)
  {
    RoundRobinIsFair(e.conns, closed, c, m, i);
    RoutesCount(e, closed, Lookups(e.conns, closed, c, m), i);
  }

  /** Fairness of the table: any number of lookups of a host in a row is shared
      fairly among its open connections, while the cursor does not wrap or if its
      wraps lose nothing. */
  lemma LookupsAreFair(v: View, host: string, closed: set<ConnId>, m: nat, i: nat)
    requires host in v.inner && UpstreamFor(v, host).None? && Distinct(v.inner[host].conns)
    requires Open(v.inner[host].conns, closed, i)
    requires NoLoss(|v.inner[host].conns|, Walk(v.inner[host].conns, closed, v.inner[host].cursor, m, i))
    ensures |Answers(v, host, closed, m)| == m
    ensures SharedFairly(v.inner[host], closed, Answers(v, host, closed, m), i)
  {
    var e := v.inner[host];
    AnswersAreLookups(v, host, closed, m);
    FairLookupsShareFairly(e, closed, e.cursor, m, i);
  }

  // ------------------------------------------------------ lookups within a run

  lemma InstallLeavesCursor(p: T.Policy, s: T.State, id: ConnId, host: string)
    requires T.Enabled(p, s, T.Install(id)) && host in s.view.inner
    ensures var t := T.Apply(p, s, T.Install(id)).view.inner;
            host in t && t[host].cursor == s.view.inner[host].cursor
  {
    var g := s.handlers[id].phase.grant;
    InstallKeepsCursor(s.view.inner, g.hosts, g.client, g.balance, id, host);
  }

  /** Only lookups of a host move its cursor. */
  lemma OnlyLookupsMoveCursors(p: T.Policy, s: T.State, step: T.Step, host: string)
    requires T.Enabled(p, s, step) && step != T.Lookup(host)
    requires host in s.view.inner && host in T.Apply(p, s, step).view.inner
    ensures T.Apply(p, s, step).view.inner[host].cursor == s.view.inner[host].cursor
  {
    if S.IsQuiet(step) {
      S.QuietEffect(p, s, step);
    } else if step.Install? {
      InstallLeavesCursor(p, s, step.id, host);
    }
  }

  /** The host has the list of `e` for its tunnels, of which those in `dead` are closed. */
  ghost predicate SteadyAt(s: T.State, host: string, e: HostRoutes, dead: set<ConnId>) {
    && host in s.view.inner && s.view.inner[host] == e.(cursor := s.view.inner[host].cursor)
    && UpstreamFor(s.view, host).None?
    && (set c | c in e.conns && c in s.closed) == dead
  }

  lemma {:induction false} ProbeSeesOnlyTheList(
    conns: seq<ConnId>, closed: set<ConnId>, dead: set<ConnId>, c: Cursor, budget: nat)
    requires conns != [] && forall x :: x in conns ==> (x in closed <==> x in dead)
    ensures Probe(conns, closed, c, budget) == Probe(conns, dead, c, budget)
    decreases budget
  {
    if budget > 0 {
      ProbeSeesOnlyTheList(conns, closed, dead, Advance(c), budget - 1);
    }
  }

  /** What a step means for the cursor of a host whose list stays the same. */
  ghost predicate CursorMoves(s: T.State, step: T.Step, s': T.State, host: string, e: HostRoutes, dead: set<ConnId>) {
    && host in s.view.inner && host in s'.view.inner
    && var c, c' := s.view.inner[host].cursor, s'.view.inner[host].cursor;
       var r := Pick(e.conns, dead, c);
       if step == T.Lookup(host)
       then c' == r.cursor && LookupRoute(s.view, host, s.closed) == RouteAt(e, r.found)
       else c' == c
  }

  lemma LookupStepMoves(p: T.Policy, s: T.State, host: string, e: HostRoutes, dead: set<ConnId>)
    requires SteadyAt(s, host, e, dead)
    ensures CursorMoves(s, T.Lookup(host), T.Apply(p, s, T.Lookup(host)), host, e, dead)
  {
    var c := s.view.inner[host].cursor;
    LookupIsPick(s.view, host, s.closed);
    if e.conns != [] {
      ProbeSeesOnlyTheList(e.conns, s.closed, dead, c, |e.conns|);
    }
  }

  lemma TraceMovesCursor(
    p: T.Policy, run: seq<T.State>, steps: seq<T.Step>, host: string, e: HostRoutes, dead: set<ConnId>, k: nat)
    requires S.IsTrace(p, run, steps) && k < |steps|
    requires SteadyAt(run[k], host, e, dead) && SteadyAt(run[k + 1], host, e, dead)
    ensures CursorMoves(run[k], steps[k], run[k + 1], host, e, dead)
  {
    assert S.Took(p, run[k], steps[k], run[k + 1]);
    if steps[k] == T.Lookup(host) {
      LookupStepMoves(p, run[k], host, e, dead);
    } else {
      OnlyLookupsMoveCursors(p, run[k], steps[k], host);
    }
  }

  /** The answers to the lookups of the host between `a` and `b`. */
  ghost function AnswersIn(run: seq<T.State>, steps: seq<T.Step>, host: string, a: nat, b: nat): seq<Option<Route>>
    requires a <= b <= |steps| < |run|
    decreases b - a
  {
    if a == b then []
    else if steps[a] == T.Lookup(host)
    then [LookupRoute(run[a].view, host, run[a].closed)] + AnswersIn(run, steps, host, a + 1, b)
    else AnswersIn(run, steps, host, a + 1, b)
  }

  /** These are the answers of as many lookups from cursor `c`. */
  ghost predicate AreAnswers(e: HostRoutes, dead: set<ConnId>, c: Cursor, answers: seq<Option<Route>>) {
    answers == ToRoutes(e, Lookups(e.conns, dead, c, |answers|))
  }

  lemma OneMoreAnswer(e: HostRoutes, dead: set<ConnId>, c: Cursor, answers: seq<Option<Route>>)
    requires AreAnswers(e, dead, Pick(e.conns, dead, c).cursor, answers)
    ensures AreAnswers(e, dead, c, [RouteAt(e, Pick(e.conns, dead, c).found)] + answers)
  {
    var r, m := Pick(e.conns, dead, c), |answers|;
    LookupsStep(e.conns, dead, c, m + 1);
    ToRoutesCons(e, r.found, Lookups(e.conns, dead, r.cursor, m));
  }

  lemma {:induction false} StretchIsLookups(
    run: seq<T.State>, steps: seq<T.Step>, host: string, e: HostRoutes, dead: set<ConnId>, a: nat, b: nat)
    requires a <= b <= |steps| < |run| && host in run[a].view.inner
    requires forall k :: a <= k < b ==> CursorMoves(run[k], steps[k], run[k + 1], host, e, dead)
    ensures AreAnswers(e, dead, run[a].view.inner[host].cursor, AnswersIn(run, steps, host, a, b))
    decreases b - a
  {
    if a < b {
      var c := run[a].view.inner[host].cursor;
      assert CursorMoves(run[a], steps[a], run[a + 1], host, e, dead);
      StretchIsLookups(run, steps, host, e, dead, a + 1, b);
      if steps[a] == T.Lookup(host) {
        OneMoreAnswer(e, dead, c, AnswersIn(run, steps, host, a + 1, b));
      }
    }
  }

  /** Fairness within any run: in any stretch in which the list of a host and the
      closed connections in it stay the same, whatever else happens in between, the
      lookups of the host are shared fairly among its open connections. */
  lemma LookupsOfARunAreFair(
    p: T.Policy, run: seq<T.State>, steps: seq<T.Step>, host: string, e: HostRoutes, dead: set<ConnId>,
    a: nat, b: nat, i: nat)
    requires S.IsTrace(p, run, steps) && a <= b <= |steps|
    requires forall k :: a <= k <= b ==> SteadyAt(run[k], host, e, dead)
    requires SteadyAt(run[a], host, e, dead) && Open(e.conns, dead, i)
    requires NoLoss(|e.conns|, Walk(e.conns, dead, run[a].view.inner[host].cursor, |AnswersIn(run, steps, host, a, b)|, i))
    ensures SharedFairly(e, dead, AnswersIn(run, steps, host, a, b), i)
  {
    S.RunKeeps(p, run, a);
    forall k | a <= k < b ensures CursorMoves(run[k], steps[k], run[k + 1], host, e, dead) {
      assert SteadyAt(run[k], host, e, dead) && SteadyAt(run[k + 1], host, e, dead);
      TraceMovesCursor(p, run, steps, host, e, dead, k);
    }
    StretchIsLookups(run, steps, host, e, dead, a, b);
    assert SteadyAt(run[a], host, e, dead);
    FairLookupsShareFairly(e, dead, run[a].view.inner[host].cursor, |AnswersIn(run, steps, host, a, b)|, i);
  }
}
