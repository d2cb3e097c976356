/** Admission of public connections: a global cap and a cap per source address,
    with permits that are given back when a connection ends. */
module Admission {
  import opened Prelude

  type Ip = string

  /** The share of one address. */
  function MaxConnsPerIp(global: nat): nat {
    if global / 8 < 16 then 16 else global / 8
  }

  type Counts = map<Ip, nat>

  function CountOf(counts: Counts, ip: Ip): nat {
    if ip in counts then counts[ip] else 0
  }

  /** The map after an attempt to acquire: the entry is made in any case. */
  function Acquired(counts: Counts, max: nat, ip: Ip): Counts {
    var c := CountOf(counts, ip);
    counts[ip := if c >= max then c else c + 1]
  }

  function Released(counts: Counts, ip: Ip): Counts
    requires ip in counts ==> counts[ip] > 0
  {
    if ip !in counts then counts
    else if counts[ip] == 1 then counts - {ip}
    else counts[ip := counts[ip] - 1]
  }

  class PerIpLimiter {
    const maxPerIp: nat
    var counts: Counts

    constructor (maxPerIp: nat)
      ensures this.maxPerIp == maxPerIp && counts == map[]
    {
      this.maxPerIp, counts := maxPerIp, map[];
    }

    method TryAcquire(ip: Ip) returns (permit: bool)
      modifies this
      ensures permit <==> CountOf(old(counts), ip) < maxPerIp
      ensures counts == Acquired(old(counts), maxPerIp, ip)
    {
      if ip !in counts {
        counts := counts[ip := 0];
      }
      if counts[ip] >= maxPerIp {
        return false;
      }
      counts := counts[ip := counts[ip] + 1];
      return true;
    }

    /** The drop of a permit; the subtraction must not underflow. */
    method Release(ip: Ip)
      requires ip in counts ==> counts[ip] > 0
      modifies this
      ensures counts == Released(old(counts), ip)
    {
      if ip in counts {
        counts := counts[ip := counts[ip] - 1];
        if counts[ip] == 0 {
          counts := counts - {ip};
        }
      }
    }
  }

  // ------------------------------------------- the accept loop and its tasks

  /** `free` global permits are left; the accept loop may be between its two
      acquisitions; the tasks in `serving` hold both permits, and `leaving` tasks
      have given back the one of their address but not yet the global one. */
  datatype Gate = Gate(
    free: nat, counts: Counts, admitting: Option<Ip>, serving: multiset<Ip>, leaving: nat)

  datatype Step =
    | TakeGlobal(ip: Ip)
    | ShedGlobal(ip: Ip)
    | TakeIp
    | DropIp(ip: Ip)
    | DropGlobal

  predicate Enabled(g: Gate, step: Step) {
    match step
    case TakeGlobal(_) => g.admitting.None? && g.free > 0
    case ShedGlobal(_) => g.admitting.None? && g.free == 0
    case TakeIp => g.admitting.Some?
    case DropIp(ip) => ip in g.serving
    case DropGlobal => g.leaving > 0
  }

  /** Dropping a permit may not underflow its counter. */
  predicate Safe(g: Gate, step: Step) {
    step.DropIp? ==> step.ip in g.counts && g.counts[step.ip] > 0
  }

  function Apply(cap: nat, g: Gate, step: Step): Gate
    requires Enabled(g, step) && Safe(g, step)
  {
    match step
    case TakeGlobal(ip) => g.(free := g.free - 1, admitting := Some(ip))
    case ShedGlobal(_) => g
    case TakeIp =>
      var ip, max := g.admitting.value, MaxConnsPerIp(cap);
      var counts := Acquired(g.counts, max, ip);
      if CountOf(g.counts, ip) < max
      then g.(admitting := None, counts := counts, serving := g.serving + multiset{ip})
      else g.(admitting := None, counts := counts, free := g.free + 1)
    case DropIp(ip) =>
      g.(counts := Released(g.counts, ip), serving := g.serving - multiset{ip}, leaving := g.leaving + 1)
    case DropGlobal => g.(leaving := g.leaving - 1, free := g.free + 1)
  }

  function Start(cap: nat): Gate {
    Gate(cap, map[], None, multiset{}, 0)
  }

  ghost predicate IsRun(cap: nat, run: seq<Gate>) {
    && run != [] && run[0] == Start(cap)
    && forall k :: 0 <= k < |run| - 1 ==> Next(cap, run[k], run[k + 1])
  }

  ghost predicate Next(cap: nat, g: Gate, g': Gate) {
    exists step :: Enabled(g, step) && Safe(g, step) && g' == Apply(cap, g, step)
  }

  /** The counters are the live permits, none is zero or above the share of an
      address, and every global permit is somewhere. */
  ghost predicate Inv(cap: nat, g: Gate) {
    && (forall ip :: ip in g.counts <==> ip in g.serving)
    && (forall ip :: ip in g.counts ==> 1 <= g.counts[ip] == g.serving[ip] <= MaxConnsPerIp(cap))
    && g.free + |g.serving| + g.leaving + (if g.admitting.Some? then 1 else 0) == cap
  }

  lemma TakeIpKeeps(cap: nat, g: Gate)
    requires Inv(cap, g) && g.admitting.Some?
    ensures Inv(cap, Apply(cap, g, TakeIp))
  {
    var ip, g' := g.admitting.value, Apply(cap, g, TakeIp);
    assert forall other :: other != ip ==> g'.serving[other] == g.serving[other];
    assert g.serving[ip] == CountOf(g.counts, ip);
  }

  lemma DropIpKeeps(cap: nat, g: Gate, ip: Ip)
    requires Inv(cap, g) && ip in g.serving
    ensures Safe(g, DropIp(ip)) && Inv(cap, Apply(cap, g, DropIp(ip)))
  {
    var serving' := g.serving - multiset{ip};
    assert ip in g.counts;
    assert forall other :: other != ip ==> serving'[other] == g.serving[other];
    assert serving'[ip] == g.serving[ip] - 1;
  }

  lemma StepKeeps(cap: nat, g: Gate, step: Step)
    requires Inv(cap, g) && Enabled(g, step)
    ensures Safe(g, step) && Inv(cap, Apply(cap, g, step))
  {
    match step {
      case TakeIp => TakeIpKeeps(cap, g);
      case DropIp(ip) => DropIpKeeps(cap, g, ip);
      case _ =>
    }
  }

  lemma {:induction false} RunKeeps(cap: nat, run: seq<Gate>, k: nat)
    requires IsRun(cap, run) && k < |run|
    ensures Inv(cap, run[k])
  {
    if k > 0 {
      RunKeeps(cap, run, k - 1);
      assert Next(cap, run[k - 1], run[k - 1 + 1]);
      var step :| Enabled(run[k - 1], step) && Safe(run[k - 1], step) && run[k] == Apply(cap, run[k - 1], step);
      StepKeeps(cap, run[k - 1], step);
    }
  }

  // --------------------------------------------------- what the runs promise

  ghost function Total(m: Counts): nat
    decreases |m|
  {
    if m == map[] then 0
    else
      var ip :| ip in m;
      m[ip] + Total(m - {ip})
  }

  /** The counters agree with a bag of addresses. */
  ghost predicate Counted(m: Counts, bag: multiset<Ip>) {
    forall ip :: (ip in m <==> ip in bag) && (ip in m ==> m[ip] == bag[ip])
  }

  lemma {:induction false} TotalIsSize(m: Counts, bag: multiset<Ip>)
    requires Counted(m, bag)
    ensures Total(m) == |bag|
    decreases |m|
  {
    if m == map[] {
      assert bag == multiset{};
    } else {
      var ip :| ip in m && Total(m) == m[ip] + Total(m - {ip});
      TotalIsSize(m - {ip}, bag[ip := 0]);
    }
  }

  lemma OneMore(n: nat, max: nat)
    ensures (n + 1) * max == n * max + max
  {
  }

  lemma {:induction false} SizeIsBounded(m: Counts, bag: multiset<Ip>, max: nat)
    requires Counted(m, bag) && forall ip :: ip in m ==> m[ip] <= max
    ensures |bag| <= |m| * max
    decreases |m|
  {
    if m == map[] {
      assert bag == multiset{};
    } else {
      var ip :| ip in m;
      var rest := m - {ip};
      assert |rest| == |m| - 1 by { assert rest.Keys == m.Keys - {ip}; }
      SizeIsBounded(rest, bag[ip := 0], max);
      assert |bag| == |bag[ip := 0]| + m[ip];
      OneMore(|rest|, max);
    }
  }

  /** In every state of every run of accepts, sheds and drops: a counter is the
      number of live permits of its address, between 1 and the share; the
      counters add up to the live connections, which are at most the cap; and
      whatever is dropped next does not underflow. */
  lemma CountersAreExact(cap: nat, run: seq<Gate>, k: nat, ip: Ip)
    requires IsRun(cap, run) && k < |run|
    ensures var g := run[k];
            && CountOf(g.counts, ip) == g.serving[ip] <= MaxConnsPerIp(cap)
            && (ip in g.counts ==> g.counts[ip] >= 1)
            && Total(g.counts) == |g.serving| <= cap
            && forall step :: Enabled(g, step) ==> Safe(g, step)
  {
    RunKeeps(cap, run, k);
    var g := run[k];
    TotalIsSize(g.counts, g.serving);
    forall step | Enabled(g, step) ensures Safe(g, step) {
      StepKeeps(cap, g, step);
    }
  }

  /** The share of an address is an eighth of the cap, or sixteen if that is more. */
  lemma ShareExactly(cap: nat)
    ensures MaxConnsPerIp(cap) >= 16 && 8 * MaxConnsPerIp(cap) >= cap - 7
    ensures MaxConnsPerIp(cap) == 16 || 8 * MaxConnsPerIp(cap) <= cap
  {
  }

  /** Who is let in, in every state of every run: with a free permit at the accept, a
      connection is served exactly if its address has fewer than sixteen live
      connections or fewer than an eighth of the cap; else both permits are free again. */
  lemma AdmittedExactly(cap: nat, run: seq<Gate>, k: nat, ip: Ip)
    requires IsRun(cap, run) && k < |run| && run[k].admitting.None? && run[k].free > 0
    ensures var g := run[k];
            var g' := Apply(cap, Apply(cap, g, TakeGlobal(ip)), TakeIp);
            if g.serving[ip] < 16 || g.serving[ip] < cap / 8
            then g'.serving == g.serving + multiset{ip} && g'.free == g.free - 1
            else g'.serving == g.serving && g'.free == g.free && g'.counts == g.counts
  {
    RunKeeps(cap, run, k);
    var g := run[k];
    assert CountOf(g.counts, ip) == g.serving[ip];
    assert g.serving[ip] > 0 ==> ip in g.counts;
  }

  /** A connection is shed at the accept exactly if no permit is free. */
  lemma ShedExactly(g: Gate, ip: Ip)
    requires g.admitting.None?
    ensures Enabled(g, ShedGlobal(ip)) <==> g.free == 0
    ensures Enabled(g, TakeGlobal(ip)) <==> g.free > 0
  {
  }

  lemma AtMostSeven(n: nat, share: nat)
    ensures n <= 7 ==> n * share <= 7 * share
  {
  }

  lemma SharesOfEight(cap: nat, n: nat)
    requires cap >= 128 && cap - 1 <= n * MaxConnsPerIp(cap)
    ensures n >= 8
  {
    var share := cap / 8;
    assert MaxConnsPerIp(cap) == share && 8 * share <= cap && share >= 16;
    AtMostSeven(n, share);
  }

  /** In every state of every run the addresses with live connections bound the
      permits in use: `n` addresses hold at most `n` shares, apart from tasks that
      are leaving and the one connection that is being admitted. */
  lemma UseIsBoundedByShares(cap: nat, run: seq<Gate>, k: nat)
    requires IsRun(cap, run) && k < |run|
    ensures var g := run[k];
            cap - g.free - g.leaving - 1 <= |g.counts| * MaxConnsPerIp(cap)
  {
    RunKeeps(cap, run, k);
    SizeIsBounded(run[k].counts, run[k].serving, MaxConnsPerIp(cap));
  }

  /** With a cap of at least 128, no permit being left takes at least eight
      addresses, unless some task has yet to give its global permit back. */
  lemma FillingTakesEightSources(cap: nat, run: seq<Gate>, k: nat)
    requires IsRun(cap, run) && k < |run| && cap >= 128
    requires run[k].free == 0 && run[k].leaving == 0
    ensures |run[k].counts| >= 8
  {
    UseIsBoundedByShares(cap, run, k);
    SharesOfEight(cap, |run[k].counts|);
  }
}
