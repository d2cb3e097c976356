/** Round-robin choice among the connections of a host: a shared wrapping
    cursor that skips closed connections. */
module RoundRobin {
  import opened Prelude
  import opened Routing

  /** `fetch_add` on a 64-bit counter. */
  function WrapAdd(c: Cursor, k: nat): Cursor
    requires k <= USIZE
  {
    if c + k < USIZE then c + k else c + k - USIZE
  }

  function Advance(c: Cursor): Cursor {
    WrapAdd(c, 1)
  }

  datatype Probed = Probed(found: Option<nat>, cursor: Cursor)

  /** At most `budget` probes of the cursor: the index of the first open connection. */
  function Probe(conns: seq<ConnId>, closed: set<ConnId>, cursor: Cursor, budget: nat): (r: Probed)
    requires conns != []
    ensures r.found.Some? ==> r.found.value < |conns| && conns[r.found.value] !in closed
    decreases budget
  {
    if budget == 0 then Probed(None, cursor)
    else
      var i := cursor % |conns|;
      if conns[i] !in closed then Probed(Some(i), Advance(cursor))
      else Probe(conns, closed, Advance(cursor), budget - 1)
  }

  /** One lookup: as many probes as there are connections. */
  function Pick(conns: seq<ConnId>, closed: set<ConnId>, cursor: Cursor): (r: Probed)
    ensures r.found.Some? ==> r.found.value < |conns| && conns[r.found.value] !in closed
  {
    if conns == [] then Probed(None, cursor) else Probe(conns, closed, cursor, |conns|)
  }

  // ------------------------------------------------- which indices are probed

  /** The index that the `k`-th probe from cursor `c` looks at. */
  function Visit(c: Cursor, k: nat, n: nat): nat
    requires n > 0 && k <= USIZE
  {
    WrapAdd(c, k) % n
  }

  lemma VisitNext(c: Cursor, k: nat, n: nat)
    requires n > 0 && k < USIZE
    ensures Visit(Advance(c), k, n) == Visit(c, k + 1, n)
    ensures Visit(c, 0, n) == c % n
  {
    assert WrapAdd(Advance(c), k) == WrapAdd(c, k + 1);
  }

  ghost predicate VisitedClosed(conns: seq<ConnId>, closed: set<ConnId>, c: Cursor, budget: nat)
    requires conns != [] && budget <= USIZE
  {
    forall k :: 0 <= k < budget ==> conns[Visit(c, k, |conns|)] in closed
  }

  lemma VisitedClosedStep(conns: seq<ConnId>, closed: set<ConnId>, c: Cursor, budget: nat)
    requires conns != [] && 0 < budget <= USIZE
    ensures VisitedClosed(conns, closed, c, budget)
            <==> conns[c % |conns|] in closed && VisitedClosed(conns, closed, Advance(c), budget - 1)
  {
    var n := |conns|;
    VisitNext(c, 0, n);
    if VisitedClosed(conns, closed, c, budget) {
      assert conns[Visit(c, 0, n)] in closed;
      forall k | 0 <= k < budget - 1 ensures conns[Visit(Advance(c), k, n)] in closed {
        VisitNext(c, k, n);
      }
    }
    if conns[c % n] in closed && VisitedClosed(conns, closed, Advance(c), budget - 1) {
      forall k | 0 <= k < budget ensures conns[Visit(c, k, n)] in closed {
        if k > 0 {
          VisitNext(c, k - 1, n);
        }
      }
    }
  }

  lemma {:induction false} ProbeFindsVisited(conns: seq<ConnId>, closed: set<ConnId>, c: Cursor, budget: nat)
    requires conns != [] && budget <= USIZE
    ensures Probe(conns, closed, c, budget).found.None? <==> VisitedClosed(conns, closed, c, budget)
    decreases budget
  {
    if budget > 0 {
      VisitedClosedStep(conns, closed, c, budget);
      ProbeFindsVisited(conns, closed, Advance(c), budget - 1);
    }
  }

  lemma MulGrows(d: int, n: int)
    requires n > 0
    ensures d >= 1 ==> d * n >= n
    ensures d <= -1 ==> d * n <= -n
  {
  }

  lemma DivModUnique(x: int, n: int, q: int, r: int)
    requires n > 0 && x == q * n + r && 0 <= r < n
    ensures x / n == q && x % n == r
  {
    var d := q - x / n;
    assert d * n == x % n - r;
    MulGrows(d, n);
  }

  ghost predicate Reached(c: Cursor, n: nat, i: nat)
    requires 0 < n <= USIZE
  {
    exists k :: 0 <= k < n && Visit(c, k, n) == i
  }

  ghost predicate Covers(c: Cursor, n: nat)
    requires 0 < n <= USIZE
  {
    forall i :: 0 <= i < n ==> Reached(c, n, i)
  }

  /** The wrap of the cursor does not fall inside the loop, or loses nothing. */
  predicate WrapHarmless(c: Cursor, n: nat)
    requires n > 0
  {
    c + n <= USIZE || USIZE % n == 0
  }

  lemma HarmlessCovers(c: Cursor, n: nat)
    requires 0 < n <= USIZE && WrapHarmless(c, n)
    ensures Covers(c, n)
  {
    forall i | 0 <= i < n ensures Reached(c, n, i) {
      var q, r := c / n, c % n;
      var k := if r <= i then i - r else i - r + n;
      var q' := if r <= i then q else q + 1;
      assert c + k == q' * n + i;
      DivModUnique(c + k, n, q', i);
      if c + k >= USIZE {
        var u := USIZE / n;
        assert u * n == USIZE;
        assert c + k - USIZE == (q' - u) * n + i;
        DivModUnique(c + k - USIZE, n, q' - u, i);
      }
      assert Visit(c, k, n) == i;
    }
  }

  lemma HarmfulMisses(c: Cursor, n: nat) returns (i: nat)
    requires 0 < n <= USIZE && !WrapHarmless(c, n)
    ensures i < n && forall k :: 0 <= k < n ==> Visit(c, k, n) != i
  {
    var before := USIZE - c;        // probes before the wrap
    var after := n - before;        // probes after it
    var r := USIZE % n;
    i := if r < after then after else r;
    forall k | 0 <= k < n ensures Visit(c, k, n) != i {
      if k < before {
        MissedBeforeWrap(n, before - k, r, i);
      } else {
        assert k - before < after <= n;
        DivModUnique(k - before, n, 0, k - before);
      }
    }
  }

  lemma MissedBeforeWrap(n: nat, j: nat, r: nat, i: nat)
    requires 0 < n && 0 < j <= USIZE && r == USIZE % n
    requires 0 < i - r + j < n
    ensures (USIZE - j) % n != i
  {
    var b, e := USIZE / n, i - r + j;
    if e <= i {
      assert USIZE - j == b * n + (i - e);
      DivModUnique(USIZE - j, n, b, i - e);
    } else {
      assert USIZE - j == (b - 1) * n + (i - e + n);
      DivModUnique(USIZE - j, n, b - 1, i - e + n);
    }
  }

  /** `lookup` answers "none" exactly when every connection is closed, for every
      set of closed connections, if and only if the cursor does not wrap inside
      the loop or the number of connections divides 2^64. */
  lemma NoneMeansAllClosedExactly(conns: seq<ConnId>, c: Cursor)
    requires 0 < |conns| <= USIZE && Distinct(conns)
    ensures (forall closed: set<ConnId> ::
               Pick(conns, closed, c).found.None? <==> forall x :: x in conns ==> x in closed)
            <==> WrapHarmless(c, |conns|)
  {
    var n := |conns|;
    forall closed: set<ConnId>
      ensures Pick(conns, closed, c).found.None? <==> VisitedClosed(conns, closed, c, n)
    {
      ProbeFindsVisited(conns, closed, c, n);
    }
    if WrapHarmless(c, n) {
      HarmlessCovers(c, n);
      forall closed: set<ConnId>
        ensures Pick(conns, closed, c).found.None? <==> forall x :: x in conns ==> x in closed
      {
        CoveredMeansAll(conns, closed, c);
      }
    } else {
      var i := HarmfulMisses(c, n);
      var closed := (set x | x in conns) - {conns[i]};
      assert VisitedClosed(conns, closed, c, n);
      assert Pick(conns, closed, c).found.None?;
      assert conns[i] in conns && conns[i] !in closed;
    }
  }

  lemma CoveredMeansAll(conns: seq<ConnId>, closed: set<ConnId>, c: Cursor)
    requires 0 < |conns| <= USIZE && Covers(c, |conns|)
    ensures VisitedClosed(conns, closed, c, |conns|) <==> forall x :: x in conns ==> x in closed
  {
    if VisitedClosed(conns, closed, c, |conns|) {
      forall x | x in conns ensures x in closed {
        var i :| 0 <= i < |conns| && conns[i] == x;
        assert Reached(c, |conns|, i);
      }
    }
  }

  /** The failing case: three connections, the cursor at its last value, only
      the third connection open. The lookup finds nothing. */
  lemma WrapMissesAnOpenConnection()
    ensures Pick([10, 11, 12], {10, 11}, USIZE - 1).found.None?
  {
    var conns: seq<ConnId>, closed: set<ConnId> := [10, 11, 12], {10, 11};
    assert Advance(USIZE - 1) == 0;
    assert Probe(conns, closed, 2, 0).found.None?;
    assert Probe(conns, closed, 1, 1).found.None?;
    assert Probe(conns, closed, 0, 2).found.None?;
    assert (USIZE - 1) % 3 == 0;
  }

  // ------------------------------------------------- the order of the choices

  /** The connection that a lookup chooses among those of a host. */
  function Choice(e: HostRoutes, closed: set<ConnId>): Option<ConnId> {
    match Pick(e.conns, closed, e.cursor).found
    case Some(i) => Some(e.conns[i])
    case None => None
  }

  /** The connections that the next `budget` probes look at. */
  function Turns(conns: seq<ConnId>, c: Cursor, budget: nat): seq<ConnId>
    requires conns != []
    decreases budget
  {
    if budget == 0 then [] else [conns[c % |conns|]] + Turns(conns, Advance(c), budget - 1)
  }

  function FirstOutside(s: seq<ConnId>, closed: set<ConnId>): Option<ConnId> {
    if s == [] then None else if s[0] !in closed then Some(s[0]) else FirstOutside(s[1..], closed)
  }

  lemma {:induction false} ProbeIsFirstOutside(conns: seq<ConnId>, closed: set<ConnId>, c: Cursor, budget: nat)
    requires conns != []
    ensures var r := Probe(conns, closed, c, budget).found;
            FirstOutside(Turns(conns, c, budget), closed) == if r.Some? then Some(conns[r.value]) else None
    decreases budget
  {
    if budget > 0 {
      ProbeIsFirstOutside(conns, closed, Advance(c), budget - 1);
      var rest := Turns(conns, Advance(c), budget - 1);
      assert ([conns[c % |conns|]] + rest)[1..] == rest;
    }
  }

  lemma {:induction false} FirstOutsideSnoc(s: seq<ConnId>, x: ConnId, closed: set<ConnId>)
    ensures FirstOutside(s + [x], closed)
            == if FirstOutside(s, closed).Some? then FirstOutside(s, closed)
               else if x !in closed then Some(x) else None
  {
    if s != [] {
      assert (s + [x])[1..] == s[1..] + [x];
      FirstOutsideSnoc(s[1..], x, closed);
    }
  }

  lemma {:induction false} FirstOutsideNone(s: seq<ConnId>, closed: set<ConnId>)
    ensures FirstOutside(s, closed).None? <==> forall x :: x in s ==> x in closed
  {
    if s != [] {
      FirstOutsideNone(s[1..], closed);
      assert s == [s[0]] + s[1..];
    }
  }

  lemma {:induction false} FirstOutsideIgnores(s: seq<ConnId>, closed: set<ConnId>, x: ConnId)
    requires x !in s
    ensures FirstOutside(s, closed + {x}) == FirstOutside(s, closed)
  {
    if s != [] {
      FirstOutsideIgnores(s[1..], closed, x);
    }
  }

  /** A sequence without the repetitions of its elements. */
  function FirstTimes(s: seq<ConnId>): (r: seq<ConnId>)
    ensures Distinct(r) && forall x :: x in r <==> x in s
  {
    if s == [] then []
    else
      var init, last := s[..|s| - 1], s[|s| - 1];
      assert s == init + [last];
      if last in init then FirstTimes(init) else FirstTimes(init) + [last]
  }

  lemma {:induction false} FirstTimesSuffice(s: seq<ConnId>, closed: set<ConnId>)
    ensures FirstOutside(FirstTimes(s), closed) == FirstOutside(s, closed)
  {
    if s != [] {
      var init, last := s[..|s| - 1], s[|s| - 1];
      assert s == init + [last];
      FirstTimesSuffice(init, closed);
      FirstOutsideSnoc(init, last, closed);
      FirstOutsideSnoc(FirstTimes(init), last, closed);
      FirstOutsideNone(init, closed);
    }
  }

  lemma {:induction false} DifferentOrdersShow(s: seq<ConnId>, t: seq<ConnId>) returns (closed: set<ConnId>)
    requires Distinct(s) && Distinct(t) && s != t
    ensures FirstOutside(s, closed) != FirstOutside(t, closed)
  {
    if s == [] || t == [] || s[0] != t[0] {
      closed := {};
    } else {
      assert s == [s[0]] + s[1..] && t == [t[0]] + t[1..];
      var rest := DifferentOrdersShow(s[1..], t[1..]);
      closed := rest + {s[0]};
      FirstOutsideIgnores(s[1..], rest, s[0]);
      FirstOutsideIgnores(t[1..], rest, s[0]);
    }
  }

  /** The order in which a lookup would take the connections of a host. */
  function Order(e: HostRoutes): (r: seq<ConnId>)
    ensures Distinct(r)
  {
    if e.conns == [] then [] else FirstTimes(Turns(e.conns, e.cursor, |e.conns|))
  }

  lemma ChoiceIsFirstInOrder(e: HostRoutes, closed: set<ConnId>)
    ensures Choice(e, closed) == FirstOutside(Order(e), closed)
  {
    if e.conns != [] {
      ProbeIsFirstOutside(e.conns, closed, e.cursor, |e.conns|);
      FirstTimesSuffice(Turns(e.conns, e.cursor, |e.conns|), closed);
    }
  }

  /** Two hosts make the same choice whatever is closed exactly when they would
      take the same connections in the same order. */
  lemma SameChoicesExactly(d: HostRoutes, e: HostRoutes)
    ensures (forall closed: set<ConnId> :: Choice(d, closed) == Choice(e, closed)) <==> Order(d) == Order(e)
  {
    forall closed: set<ConnId>
      ensures Choice(d, closed) == FirstOutside(Order(d), closed)
      ensures Choice(e, closed) == FirstOutside(Order(e), closed)
    {
      ChoiceIsFirstInOrder(d, closed);
      ChoiceIsFirstInOrder(e, closed);
    }
    if Order(d) != Order(e) {
      var closed := DifferentOrdersShow(Order(d), Order(e));
      assert Choice(d, closed) != Choice(e, closed);
    }
  }

  // ----------------------------------------------------------------- fairness

  predicate Open(conns: seq<ConnId>, closed: set<ConnId>, i: nat) {
    i < |conns| && conns[i] !in closed
  }

  /** The connection that cursor position `t` looks at is open. */
  predicate OpenAt(conns: seq<ConnId>, closed: set<ConnId>, t: nat)
    requires conns != []
  {
    Open(conns, closed, t % |conns|)
  }

  ghost predicate NoneOpen(conns: seq<ConnId>, closed: set<ConnId>, a: nat, b: nat)
    requires conns != []
  {
    forall u :: a <= u < b ==> !OpenAt(conns, closed, u)
  }

  /** The unwrapped cursor position of the first open connection at or after `t`. */
  ghost function NextOpen(conns: seq<ConnId>, closed: set<ConnId>, t: nat, open: nat): (r: nat)
    requires Open(conns, closed, open)
    ensures t <= r < t + |conns|
    ensures OpenAt(conns, closed, r) && NoneOpen(conns, closed, t, r)
  {
    var n := |conns|;
    var k := if t % n <= open then open - t % n else open - t % n + n;
    assert (t + k) % n == open by {
      var q := if t % n <= open then t / n else t / n + 1;
      assert t + k == q * n + open;
      DivModUnique(t + k, n, q, open);
    }
    FirstOpenUpTo(conns, closed, t, k)
  }

  ghost function FirstOpenUpTo(conns: seq<ConnId>, closed: set<ConnId>, t: nat, k: nat): (r: nat)
    requires conns != [] && OpenAt(conns, closed, t + k)
    ensures t <= r <= t + k
    ensures OpenAt(conns, closed, r) && NoneOpen(conns, closed, t, r)
    decreases k
  {
    if OpenAt(conns, closed, t) then t
    else FirstOpenUpTo(conns, closed, t + 1, k - 1)
  }

  /** The cursor at position `t`, counted without the wrap. */
  ghost function Wrapped(t: nat): Cursor {
    if t < USIZE then t else Wrapped(t - USIZE)
  }

  /** Up to position `e` the cursor does not wrap, or its wraps lose nothing. */
  predicate NoLoss(n: nat, e: nat)
    requires n > 0
  {
    e <= USIZE || USIZE % n == 0
  }

  lemma {:induction false} WrappedNext(t: nat)
    ensures Advance(Wrapped(t)) == Wrapped(t + 1)
  {
    if t >= USIZE {
      WrappedNext(t - USIZE);
    }
  }

  /** On the positions in [a, b) the wrapped cursor looks where the unwrapped one would. */
  ghost predicate Aligned(n: nat, a: nat, b: nat)
    requires n > 0
  {
    forall t :: a <= t < b ==> Visit(Wrapped(t), 0, n) == t % n
  }

  lemma NoLossAligns(n: nat, a: nat, b: nat)
    requires n > 0 && NoLoss(n, b)
    ensures Aligned(n, a, b)
  {
    var u := USIZE / n;
    assert USIZE % n == 0 ==> u * n == USIZE;
    forall t | a <= t < b ensures Visit(Wrapped(t), 0, n) == t % n {
      if b > USIZE {
        WrappedIndex(t, n, u);
      }
    }
  }

  lemma {:induction false} WrappedIndex(t: nat, n: nat, u: nat)
    requires n > 0 && u * n == USIZE
    ensures Wrapped(t) % n == t % n
    decreases t
  {
    if t >= USIZE {
      WrappedIndex(t - USIZE, n, u);
      AddMultiple(t - USIZE, n, u);
    }
  }

  lemma AddMultiple(t: nat, n: nat, u: nat)
    requires n > 0
    ensures (t + u * n) % n == t % n
  {
    assert t + u * n == (t / n + u) * n + t % n;
    DivModUnique(t + u * n, n, t / n + u, t % n);
  }

  /** The results of `m` successive lookups from cursor `c`, the list and the
      closed connections being fixed. */
  ghost function Lookups(conns: seq<ConnId>, closed: set<ConnId>, c: Cursor, m: nat): seq<Option<nat>>
    decreases m
  {
    if m == 0 then []
    else
      var r := Pick(conns, closed, c);
      [r.found] + Lookups(conns, closed, r.cursor, m - 1)
  }

  /** Where the cursor ends after `m` lookups if it never wrapped. */
  ghost function Walk(conns: seq<ConnId>, closed: set<ConnId>, t: nat, m: nat, open: nat): (r: nat)
    requires Open(conns, closed, open)
    ensures t <= r && (m > 0 ==> t < r)
    decreases m
  {
    if m == 0 then t else Walk(conns, closed, NextOpen(conns, closed, t, open) + 1, m - 1, open)
  }

  lemma ProbeOpen(conns: seq<ConnId>, closed: set<ConnId>, c: Cursor, budget: nat)
    requires conns != [] && budget > 0
    ensures Probe(conns, closed, c, budget)
            == if OpenAt(conns, closed, c) then Probed(Some(c % |conns|), Advance(c))
               else Probe(conns, closed, Advance(c), budget - 1)
  {
  }

  lemma {:induction false} ProbeReaches(conns: seq<ConnId>, closed: set<ConnId>, t: nat, r: nat, budget: nat)
    requires conns != [] && t <= r && r - t < budget && Aligned(|conns|, t, r + 1)
    requires OpenAt(conns, closed, r) && NoneOpen(conns, closed, t, r)
    ensures Probe(conns, closed, Wrapped(t), budget) == Probed(Some(r % |conns|), Wrapped(r + 1))
    decreases r - t
  {
    ProbeOpen(conns, closed, Wrapped(t), budget);
    assert Visit(Wrapped(t), 0, |conns|) == t % |conns|;
    WrappedNext(t);
    if t < r {
      assert !OpenAt(conns, closed, t);
      ProbeReaches(conns, closed, t + 1, r, budget - 1);
    }
  }

  /** How many cursor positions in [a, b) look at index `i`. */
  ghost function Hits(i: nat, n: nat, a: nat, b: nat): nat
    requires n > 0
    decreases b
  {
    if b <= a then 0 else Hits(i, n, a, b - 1) + if (b - 1) % n == i then 1 else 0
  }

  lemma {:induction false} HitsSplit(i: nat, n: nat, a: nat, b: nat, c: nat)
    requires n > 0 && a <= b <= c
    ensures Hits(i, n, a, c) == Hits(i, n, a, b) + Hits(i, n, b, c)
    decreases c
  {
    if b < c {
      HitsSplit(i, n, a, b, c - 1);
    }
  }

  lemma {:induction false} NoHits(i: nat, n: nat, a: nat, b: nat)
    requires n > 0 && forall u :: a <= u < b ==> u % n != i
    ensures Hits(i, n, a, b) == 0
    decreases b
  {
    if a < b {
      NoHits(i, n, a, b - 1);
    }
  }

  lemma {:induction false} HitsFromZero(i: nat, n: nat, b: nat)
    requires i < n && b <= n
    ensures Hits(i, n, 0, b) == if i < b then 1 else 0
    decreases b
  {
    if b > 0 {
      HitsFromZero(i, n, b - 1);
      DivModUnique(b - 1, n, 0, b - 1);
    }
  }

  /** A window as long as the list looks at each index once. */
  lemma {:induction false} HitsWindow(i: nat, n: nat, a: nat)
    requires i < n
    ensures Hits(i, n, a, a + n) == 1
  {
    if a == 0 {
      HitsFromZero(i, n, n);
    } else {
      HitsWindow(i, n, a - 1);
      HitsSplit(i, n, a - 1, a, a + n);
      assert (a - 1 + n) % n == (a - 1) % n by {
        DivModUnique(a - 1 + n, n, (a - 1) / n + 1, (a - 1) % n);
      }
      assert Hits(i, n, a - 1, a + n) == Hits(i, n, a - 1, a - 1 + n) + if (a - 1 + n) % n == i then 1 else 0;
      assert Hits(i, n, a - 1, a - 1) == 0;
    }
  }

  /** In any stretch of cursor positions two indices are hit equally often, give or take one. */
  lemma {:induction false} HitsDiffer(i: nat, j: nat, n: nat, a: nat, b: nat)
    requires i < n && j < n && a <= b
    ensures Hits(i, n, a, b) <= Hits(j, n, a, b) + 1
    decreases b
  {
    if b - a < n {
      HitsSplit(i, n, a, b, a + n);
      HitsWindow(i, n, a);
    } else {
      HitsDiffer(i, j, n, a, b - n);
      HitsSplit(i, n, a, b - n, b);
      HitsSplit(j, n, a, b - n, b);
      HitsWindow(i, n, b - n);
      HitsWindow(j, n, b - n);
    }
  }

  ghost function Times(results: seq<Option<nat>>, i: nat): nat {
    multiset(results)[Some(i)]
  }

  lemma HitsOfOneLookup(conns: seq<ConnId>, closed: set<ConnId>, t: nat, r: nat, i: nat)
    requires Open(conns, closed, i) && t <= r && NoneOpen(conns, closed, t, r)
    ensures Hits(i, |conns|, t, r + 1) == if r % |conns| == i then 1 else 0
  {
    forall u | t <= u < r ensures u % |conns| != i {
      assert !OpenAt(conns, closed, u);
    }
    NoHits(i, |conns|, t, r);
  }

  lemma LookupsStep(conns: seq<ConnId>, closed: set<ConnId>, c: Cursor, m: nat)
    requires m > 0
    ensures var r := Pick(conns, closed, c);
            Lookups(conns, closed, c, m) == [r.found] + Lookups(conns, closed, r.cursor, m - 1)
  {
  }

  /** The first of `m` lookups finds the next open connection. */
  lemma FirstLookup(conns: seq<ConnId>, closed: set<ConnId>, t: nat, m: nat, open: nat)
    requires Open(conns, closed, open) && m > 0 && Aligned(|conns|, t, NextOpen(conns, closed, t, open) + 1)
    ensures var r := NextOpen(conns, closed, t, open);
            Lookups(conns, closed, Wrapped(t), m)
            == [Some(r % |conns|)] + Lookups(conns, closed, Wrapped(r + 1), m - 1)
  {
    ProbeReaches(conns, closed, t, NextOpen(conns, closed, t, open), |conns|);
    LookupsStep(conns, closed, Wrapped(t), m);
  }

  lemma {:induction false} LookupsSucceed(
    conns: seq<ConnId>, closed: set<ConnId>, t: nat, m: nat, open: nat)
    requires Open(conns, closed, open) && Aligned(|conns|, t, Walk(conns, closed, t, m, open))
    ensures var results := Lookups(conns, closed, Wrapped(t), m);
            && |results| == m
            && (forall x :: x in results ==> x.Some? && Open(conns, closed, x.value))
    decreases m
  {
    if m > 0 {
      FirstLookup(conns, closed, t, m, open);
      LookupsSucceed(conns, closed, NextOpen(conns, closed, t, open) + 1, m - 1, open);
    }
  }

  /** An open index is chosen once for each cursor position that looks at it. */
  lemma {:induction false} TimesAreHits(
    conns: seq<ConnId>, closed: set<ConnId>, t: nat, m: nat, open: nat, i: nat)
    requires Open(conns, closed, open) && Open(conns, closed, i)
    requires Aligned(|conns|, t, Walk(conns, closed, t, m, open))
    ensures Times(Lookups(conns, closed, Wrapped(t), m), i)
            == Hits(i, |conns|, t, Walk(conns, closed, t, m, open))
    decreases m
  {
    if m > 0 {
      var r, e := NextOpen(conns, closed, t, open), Walk(conns, closed, t, m, open);
      var results, rest := Lookups(conns, closed, Wrapped(t), m), Lookups(conns, closed, Wrapped(r + 1), m - 1);
      WalkStep(conns, closed, t, m, open);
      FirstLookup(conns, closed, t, m, open);
      TimesAreHits(conns, closed, r + 1, m - 1, open, i);
      OneMoreLookup(conns, closed, results, rest, t, r, e, i);
    }
  }

  lemma WalkStep(conns: seq<ConnId>, closed: set<ConnId>, t: nat, m: nat, open: nat)
    requires Open(conns, closed, open) && m > 0
    ensures var r, e := NextOpen(conns, closed, t, open), Walk(conns, closed, t, m, open);
            && t <= r < e == Walk(conns, closed, r + 1, m - 1, open)
            && (Aligned(|conns|, t, e) ==> Aligned(|conns|, t, r + 1) && Aligned(|conns|, r + 1, e))
  {
  }

  lemma OneMoreLookup(
    conns: seq<ConnId>, closed: set<ConnId>, results: seq<Option<nat>>, rest: seq<Option<nat>>,
    t: nat, r: nat, e: nat, i: nat)
    requires Open(conns, closed, i) && t <= r < e && NoneOpen(conns, closed, t, r)
    requires results == [Some(r % |conns|)] + rest && Times(rest, i) == Hits(i, |conns|, r + 1, e)
    ensures Times(results, i) == Hits(i, |conns|, t, e)
  {
    TimesCons(r % |conns|, rest, i);
    HitsOfOneLookup(conns, closed, t, r, i);
    HitsSplit(i, |conns|, t, r + 1, e);
  }

  lemma TimesCons(x: nat, rest: seq<Option<nat>>, i: nat)
    ensures Times([Some(x)] + rest, i) == Times(rest, i) + if x == i then 1 else 0
  {
  }

  /** The number of open connections among the first `k`. */
  ghost function OpenCount(conns: seq<ConnId>, closed: set<ConnId>, k: nat): nat
    requires k <= |conns|
  {
    if k == 0 then 0 else OpenCount(conns, closed, k - 1) + if Open(conns, closed, k - 1) then 1 else 0
  }

  ghost function TimesTotal(conns: seq<ConnId>, closed: set<ConnId>, results: seq<Option<nat>>, k: nat): nat
    requires k <= |conns|
  {
    if k == 0 then 0
    else
      TimesTotal(conns, closed, results, k - 1) +
      if Open(conns, closed, k - 1) then Times(results, k - 1) else 0
  }

  lemma {:induction false} TimesTotalCons(
    conns: seq<ConnId>, closed: set<ConnId>, x: nat, rest: seq<Option<nat>>, k: nat)
    requires k <= |conns| && Open(conns, closed, x)
    ensures TimesTotal(conns, closed, [Some(x)] + rest, k)
            == TimesTotal(conns, closed, rest, k) + if x < k then 1 else 0
  {
    if k > 0 {
      TimesTotalCons(conns, closed, x, rest, k - 1);
    }
  }

  lemma {:induction false} TimesTotalEmpty(conns: seq<ConnId>, closed: set<ConnId>, k: nat)
    requires k <= |conns|
    ensures TimesTotal(conns, closed, [], k) == 0
  {
    if k > 0 {
      TimesTotalEmpty(conns, closed, k - 1);
    }
  }

  /** Each result counts for exactly one open index. */
  lemma {:induction false} TimesAddUp(conns: seq<ConnId>, closed: set<ConnId>, results: seq<Option<nat>>)
    requires forall x :: x in results ==> x.Some? && Open(conns, closed, x.value)
    ensures TimesTotal(conns, closed, results, |conns|) == |results|
  {
    if results == [] {
      TimesTotalEmpty(conns, closed, |conns|);
    } else {
      TimesAddUp(conns, closed, results[1..]);
      assert results == [results[0]] + results[1..];
      TimesTotalCons(conns, closed, results[0].value, results[1..], |conns|);
    }
  }

  lemma TimesOneMore(l: nat, t: nat)
    ensures (l + 1) * t == l * t + t
  {
  }

  /** If index `i` is within one of every open index, the total is within one
      per open index of what `i` alone would give. */
  lemma {:induction false} TotalIsBalanced(
    conns: seq<ConnId>, closed: set<ConnId>, results: seq<Option<nat>>, i: nat, k: nat)
    requires k <= |conns| && Open(conns, closed, i)
    requires forall j :: Open(conns, closed, j) ==>
               Times(results, i) - 1 <= Times(results, j) <= Times(results, i) + 1
    ensures var l, t := OpenCount(conns, closed, k), Times(results, i);
            var slack := if i < k then l - 1 else l;
            l * t - slack <= TimesTotal(conns, closed, results, k) <= l * t + slack
  {
    if k > 0 {
      TotalIsBalanced(conns, closed, results, i, k - 1);
      var l, t := OpenCount(conns, closed, k - 1), Times(results, i);
      TimesOneMore(l, t);
      if Open(conns, closed, k - 1) {
        assert OpenCount(conns, closed, k) == l + 1;
      } else {
        assert OpenCount(conns, closed, k) == l && i != k - 1;
      }
    }
  }

  lemma FloorAndCeiling(m: nat, l: nat, t: nat)
    requires l > 0 && l * t - (l - 1) <= m <= l * t + (l - 1)
    ensures m / l <= t <= (m + l - 1) / l
  {
    var q, r := m / l, m % l;
    assert m == q * l + r;
    MulGrows(q - t, l);
    assert (q - t) * l == m - r - l * t;
    var q', r' := (m + l - 1) / l, (m + l - 1) % l;
    assert m + l - 1 == q' * l + r';
    MulGrows(t - q', l);
    assert (t - q') * l == l * t - (m + l - 1) + r';
  }

  lemma TimesDiffer(conns: seq<ConnId>, closed: set<ConnId>, c: Cursor, m: nat, i: nat, j: nat)
    requires Open(conns, closed, i) && Open(conns, closed, j)
    requires Aligned(|conns|, c, Walk(conns, closed, c, m, i))
    ensures var results := Lookups(conns, closed, c, m);
            Times(results, i) - 1 <= Times(results, j) <= Times(results, i) + 1
  {
    var n, e := |conns|, Walk(conns, closed, c, m, i);
    assert Wrapped(c) == c;
    TimesAreHits(conns, closed, c, m, i, i);
    TimesAreHits(conns, closed, c, m, i, j);
    HitsDiffer(i, j, n, c, e);
    HitsDiffer(j, i, n, c, e);
  }

  /** `m` successive lookups all succeed, on open connections only, and choose
      connection `i` floor(m/L) or ceil(m/L) times, L being the number of open ones. */
  ghost predicate Fair(conns: seq<ConnId>, closed: set<ConnId>, c: Cursor, m: nat, i: nat) {
    var results, l := Lookups(conns, closed, c, m), OpenCount(conns, closed, |conns|);
    && |results| == m
    && (forall x :: x in results ==> x.Some? && Open(conns, closed, x.value))
    && l > 0 && m / l <= Times(results, i) <= (m + l - 1) / l
  }

  /** Fairness with skipping: any number of successive lookups is fair to every
      open connection, while the cursor does not wrap or if wraps lose nothing. */
  lemma RoundRobinIsFair(conns: seq<ConnId>, closed: set<ConnId>, c: Cursor, m: nat, i: nat)
    requires Open(conns, closed, i)
    requires NoLoss(|conns|, Walk(conns, closed, c, m, i))
    ensures Fair(conns, closed, c, m, i)
  {
    NoLossAligns(|conns|, c, Walk(conns, closed, c, m, i));
    AlignedIsFair(conns, closed, c, m, i);
  }

  lemma AlignedIsFair(conns: seq<ConnId>, closed: set<ConnId>, c: Cursor, m: nat, i: nat)
    requires Open(conns, closed, i)
    requires Aligned(|conns|, c, Walk(conns, closed, c, m, i))
    ensures Fair(conns, closed, c, m, i)
  {
    var n, results := |conns|, Lookups(conns, closed, c, m);
    assert Wrapped(c) == c;
    LookupsSucceed(conns, closed, c, m, i);
    forall j | Open(conns, closed, j)
      ensures Times(results, i) - 1 <= Times(results, j) <= Times(results, i) + 1
    {
      TimesDiffer(conns, closed, c, m, i, j);
    }
    TimesAddUp(conns, closed, results);
    TotalIsBalanced(conns, closed, results, i, n);
    OpenCountPositive(conns, closed, i, n);
    FloorAndCeiling(m, OpenCount(conns, closed, n), Times(results, i));
  }

  /** Each lookup moves the cursor by at most the length of the list. */
  lemma {:induction false} WalkIsBounded(conns: seq<ConnId>, closed: set<ConnId>, t: nat, m: nat, open: nat)
    requires Open(conns, closed, open)
    ensures Walk(conns, closed, t, m, open) <= t + m * |conns|
    decreases m
  {
    if m > 0 {
      WalkIsBounded(conns, closed, NextOpen(conns, closed, t, open) + 1, m - 1, open);
      TimesOneMore(m - 1, |conns|);
    }
  }

  // With every connection open, the cursor advances by one per lookup.

  lemma {:induction false} WalkAllOpen(conns: seq<ConnId>, t: nat, m: nat, open: nat)
    requires open < |conns|
    ensures Walk(conns, {}, t, m, open) == t + m
    decreases m
  {
    if m > 0 {
      var r := NextOpen(conns, {}, t, open);
      assert OpenAt(conns, {}, t) && NoneOpen(conns, {}, t, r);
      WalkAllOpen(conns, r + 1, m - 1, open);
    }
  }

  lemma {:induction false} CountAllOpen(conns: seq<ConnId>, k: nat)
    requires k <= |conns|
    ensures OpenCount(conns, {}, k) == k
  {
    if k > 0 {
      CountAllOpen(conns, k - 1);
    }
  }

  /** The failing case: all connections are open and the next lookup wraps the
      cursor. In as many lookups as there are connections one is chosen twice. */
  lemma UnfairAcrossWrap(conns: seq<ConnId>) returns (i: nat)
    requires 0 < |conns| <= USIZE && USIZE % |conns| != 0
    ensures i < |conns| && !Fair(conns, {}, USIZE - 1, |conns|, i)
  {
    var n := |conns|;
    i := USIZE % n - 1;
    DivModUnique(USIZE - 1, n, USIZE / n, i);
    TwiceAcrossWrap(conns, i);
    CountAllOpen(conns, n);
    DivModUnique(n + n - 1, n, 1, n - 1);
  }

  lemma TwiceAcrossWrap(conns: seq<ConnId>, i: nat)
    requires i < |conns| - 1 && |conns| <= USIZE && (USIZE - 1) % |conns| == i
    ensures Times(Lookups(conns, {}, USIZE - 1, |conns|), i) == 2
  {
    var rest := Lookups(conns, {}, 0, |conns| - 1);
    WrapLookup(conns, i);
    TimesCons(i, rest, i);
    OnceFromZero(conns, i);
  }

  /** The lookup at the last cursor value chooses `i` and goes on at zero. */
  lemma WrapLookup(conns: seq<ConnId>, i: nat)
    requires i < |conns| <= USIZE && (USIZE - 1) % |conns| == i
    ensures Lookups(conns, {}, USIZE - 1, |conns|) == [Some(i)] + Lookups(conns, {}, 0, |conns| - 1)
  {
    ProbeOpen(conns, {}, USIZE - 1, |conns|);
    LookupsStep(conns, {}, USIZE - 1, |conns|);
  }

  lemma OnceFromZero(conns: seq<ConnId>, i: nat)
    requires i < |conns| - 1 && |conns| <= USIZE
    ensures Times(Lookups(conns, {}, 0, |conns| - 1), i) == 1
  {
    var n := |conns|;
    WalkAllOpen(conns, 0, n - 1, i);
    TimesAreHits(conns, {}, 0, n - 1, i, i);
    HitsFromZero(i, n, n - 1);
  }

  /** Lookups are always fair, from every cursor and for every set of closed
      connections, if and only if the number of connections divides 2^64. */
  lemma AlwaysFairExactly(conns: seq<ConnId>)
    requires 0 < |conns| <= USIZE
    ensures (forall closed: set<ConnId>, c: Cursor, m: nat, i: nat ::
               Open(conns, closed, i) ==> Fair(conns, closed, c, m, i))
            <==> USIZE % |conns| == 0
  {
    if USIZE % |conns| == 0 {
      forall closed: set<ConnId>, c: Cursor, m: nat, i: nat | Open(conns, closed, i)
        ensures Fair(conns, closed, c, m, i)
      {
        RoundRobinIsFair(conns, closed, c, m, i);
      }
    } else {
      var i := UnfairAcrossWrap(conns);
      assert Open(conns, {}, i) && !Fair(conns, {}, USIZE - 1, |conns|, i);
    }
  }

  lemma {:induction false} OpenCountPositive(conns: seq<ConnId>, closed: set<ConnId>, i: nat, k: nat)
    requires Open(conns, closed, i) && i < k <= |conns|
    ensures OpenCount(conns, closed, k) > 0
  {
    if i < k - 1 {
      OpenCountPositive(conns, closed, i, k - 1);
    }
  }
}
