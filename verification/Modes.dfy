/** The TLS mode of a host: when the listener's decision (terminate? offload?)
    agrees with the entry that routes the host. */
module Modes {
  import opened Prelude
  import opened Hosts
  import opened Config
  import B = Backend
  import opened Routing
  import opened Resolution

  function Key(cfg: ServerConfig, i: nat): string
    requires i < |Entries(cfg)|
  {
    Lower(Entries(cfg)[i].host)
  }

  predicate IsUpstream(cfg: ServerConfig, i: nat) {
    |cfg.hostnames| <= i < |cfg.hostnames| + |cfg.upstreams|
  }

  /** Every upstream names exactly one target, as validation demands. */
  ghost predicate HasTargets(cfg: ServerConfig) {
    forall u :: u in cfg.upstreams ==> OneTarget(u)
  }

  /** A table whose fixed part comes from a config, whatever tunnels are up and
      whatever set of terminated hostnames was provisioned. */
  ghost predicate ConfigView(cfg: ServerConfig, v: View) {
    v == FromConfig(cfg.hostnames, cfg.upstreams).(inner := v.inner, terminated := v.terminated)
  }

  /** A table of the static mode: a host with tunnels is a hostname entry of a
      client that can connect, with the mode of that entry. */
  ghost predicate ServedView(cfg: ServerConfig, v: View) {
    ConfigView(cfg, v) && forall h :: h in v.inner ==> ServedByEntry(cfg, h, v.inner[h].mode)
  }

  ghost predicate ServedByEntry(cfg: ServerConfig, host: string, mode: TlsMode) {
    exists e :: e in cfg.hostnames && e.host == host && e.mode == mode && B.CanConnect(cfg, e.client)
  }

  /** The terminated set is the one of the config. */
  ghost predicate Unprovisioned(cfg: ServerConfig, v: View) {
    v.terminated == FromConfig(cfg.hostnames, cfg.upstreams).terminated
  }

  ghost predicate StaticView(cfg: ServerConfig, v: View) {
    ServedView(cfg, v) && Unprovisioned(cfg, v)
  }

  /** No later upstream has the key of entry `i` ignoring case, and for a tunnel
      hostname no upstream at all has. */
  ghost predicate Unshadowed(cfg: ServerConfig, i: nat) {
    && i < |Entries(cfg)|
    && forall j :: IsUpstream(cfg, j) && (IsUpstream(cfg, i) ==> i < j) ==> Key(cfg, j) != Key(cfg, i)
  }

  /** Entry `i` can route a host: it is not shadowed, and the client of a tunnel
      hostname can connect. */
  ghost predicate Wins(cfg: ServerConfig, i: nat) {
    Unshadowed(cfg, i) && (i < |cfg.hostnames| ==> B.CanConnect(cfg, cfg.hostnames[i].client))
  }

  function Strength(m: TlsMode): nat {
    match m
    case Passthrough => 0
    case Terminated => 1
    case TlsOffload => 2
  }

  /** No entry with the same host ignoring case asks for more than the one that routes it. */
  ghost predicate Unambiguous(cfg: ServerConfig) {
    forall i: nat, j: nat :: Wins(cfg, i) && j < |Entries(cfg)| && Key(cfg, j) == Key(cfg, i)
      ==> Strength(Entries(cfg)[j].mode) <= Strength(Entries(cfg)[i].mode)
  }

  ghost predicate DistinctIgnoringCase(cfg: ServerConfig) {
    forall i: nat, j: nat :: i < j < |Entries(cfg)| ==> Key(cfg, i) != Key(cfg, j)
  }

  /** The mode of the entry that a lookup of `host` resolves to. */
  function RoutedMode(v: View, host: string): Option<TlsMode> {
    match UpstreamFor(v, host)
    case Some(up) => Some(up.mode)
    case None => if host in v.inner then Some(v.inner[host].mode) else None
  }

  ghost predicate ModeAgrees(v: View, host: string) {
    var m := RoutedMode(v, host);
    m.Some? ==>
      && (IsTerminated(v, host) <==> Terminates(m.value))
      && (IsOffload(v, host) <==> m.value == TlsOffload)
  }

  // ------------------------------------------------- reading the config maps

  lemma {:induction false} LocalKeyHasLast(us: seq<UpstreamEntry>, k: string) returns (i: nat)
    requires k in LocalOf(us)
    ensures i < |us| && Lower(us[i].host) == k
    ensures forall j :: i < j < |us| && Lower(us[j].host) == k ==> TargetOf(us[j]).None?
    ensures TargetOf(us[i]) == Some(LocalOf(us)[k].target) && LocalOf(us)[k].mode == us[i].mode
  {
    var n := |us| - 1;
    if TargetOf(us[n]).Some? && Lower(us[n].host) == k {
      i := n;
    } else {
      i := LocalKeyHasLast(us[..n], k);
      assert forall j :: 0 <= j < n ==> us[..n][j] == us[j];
    }
  }

  lemma {:induction false} LocalHasKey(us: seq<UpstreamEntry>, i: nat)
    requires i < |us| && TargetOf(us[i]).Some?
    ensures Lower(us[i].host) in LocalOf(us)
  {
    var n := |us| - 1;
    if i < n {
      LocalHasKey(us[..n], i);
    }
  }

  lemma EntryAt(cfg: ServerConfig, i: nat)
    requires i < |Entries(cfg)|
    ensures var e := Entries(cfg)[i];
            if IsUpstream(cfg, i)
            then var u := cfg.upstreams[i - |cfg.hostnames|]; e.host == u.host && e.mode == u.mode
            else e.host == cfg.hostnames[i].host && e.mode == cfg.hostnames[i].mode
  {
  }

  /** An upstream key maps to the last upstream entry with that key. */
  lemma LocalIsWinner(cfg: ServerConfig, v: View, k: string) returns (i: nat)
    requires HasTargets(cfg) && ServedView(cfg, v) && k in v.local
    ensures IsUpstream(cfg, i) && Wins(cfg, i) && Key(cfg, i) == k
    ensures v.local[k].mode == Entries(cfg)[i].mode
  {
    var j := LocalKeyHasLast(cfg.upstreams, k);
    i := |cfg.hostnames| + j;
    EntryAt(cfg, i);
    forall l: nat | IsUpstream(cfg, l) && i < l ensures Key(cfg, l) != Key(cfg, i) {
      EntryAt(cfg, l);
      var u := cfg.upstreams[l - |cfg.hostnames|];
      assert u in cfg.upstreams && OneTarget(u);
    }
  }

  lemma UpstreamKeyIsLocal(cfg: ServerConfig, v: View, i: nat)
    requires HasTargets(cfg) && ServedView(cfg, v) && IsUpstream(cfg, i)
    ensures Key(cfg, i) in v.local
  {
    EntryAt(cfg, i);
    var u := cfg.upstreams[i - |cfg.hostnames|];
    assert u in cfg.upstreams && OneTarget(u);
    LocalHasKey(cfg.upstreams, i - |cfg.hostnames|);
  }

  lemma HostnameKeyIsTunnelHost(cfg: ServerConfig, v: View, i: nat)
    requires ServedView(cfg, v) && i < |cfg.hostnames|
    ensures Key(cfg, i) in v.tunnelHosts
  {
    EntryAt(cfg, i);
    assert cfg.hostnames[i] in cfg.hostnames;
  }

  ghost predicate KeyWants(cfg: ServerConfig, k: string, strength: nat) {
    exists j :: 0 <= j < |Entries(cfg)| && Key(cfg, j) == k && strength <= Strength(Entries(cfg)[j].mode)
  }

  lemma EntryOfHostname(cfg: ServerConfig, h: HostnameEntry) returns (j: nat)
    requires h in cfg.hostnames
    ensures j < |Entries(cfg)| && Key(cfg, j) == Lower(h.host) && Entries(cfg)[j].mode == h.mode
  {
    j :| 0 <= j < |cfg.hostnames| && cfg.hostnames[j] == h;
    EntryAt(cfg, j);
  }

  lemma EntryOfUpstream(cfg: ServerConfig, u: UpstreamEntry) returns (j: nat)
    requires u in cfg.upstreams
    ensures j < |Entries(cfg)| && Key(cfg, j) == Lower(u.host) && Entries(cfg)[j].mode == u.mode
  {
    var i :| 0 <= i < |cfg.upstreams| && cfg.upstreams[i] == u;
    j := |cfg.hostnames| + i;
    EntryAt(cfg, j);
  }

  lemma EntryInSets(cfg: ServerConfig, v: View, j: nat)
    requires StaticView(cfg, v) && j < |Entries(cfg)|
    ensures Strength(Entries(cfg)[j].mode) >= 1 ==> Key(cfg, j) in v.terminated
    ensures Strength(Entries(cfg)[j].mode) >= 2 ==> Key(cfg, j) in v.offload
  {
    EntryAt(cfg, j);
    if IsUpstream(cfg, j) {
      assert cfg.upstreams[j - |cfg.hostnames|] in cfg.upstreams;
    } else {
      assert cfg.hostnames[j] in cfg.hostnames;
    }
  }

  lemma TerminatedHasEntry(cfg: ServerConfig, v: View, k: string)
    requires StaticView(cfg, v) && k in v.terminated
    ensures KeyWants(cfg, k, 1)
  {
    if h :| h in cfg.hostnames && Terminates(h.mode) && Lower(h.host) == k {
      var j := EntryOfHostname(cfg, h);
    } else {
      var u :| u in cfg.upstreams && Terminates(u.mode) && Lower(u.host) == k;
      var j := EntryOfUpstream(cfg, u);
    }
  }

  lemma OffloadHasEntry(cfg: ServerConfig, v: View, k: string)
    requires StaticView(cfg, v) && k in v.offload
    ensures KeyWants(cfg, k, 2)
  {
    if h :| h in cfg.hostnames && h.mode == TlsOffload && Lower(h.host) == k {
      var j := EntryOfHostname(cfg, h);
    } else {
      var u :| u in cfg.upstreams && u.mode == TlsOffload && Lower(u.host) == k;
      var j := EntryOfUpstream(cfg, u);
    }
  }

  /** The two mode sets hold the keys of the entries that ask for the mode. */
  lemma ModeSets(cfg: ServerConfig, v: View, k: string)
    requires StaticView(cfg, v)
    ensures k in v.terminated <==> KeyWants(cfg, k, 1)
    ensures k in v.offload <==> KeyWants(cfg, k, 2)
  {
    if k in v.terminated {
      TerminatedHasEntry(cfg, v, k);
    }
    if k in v.offload {
      OffloadHasEntry(cfg, v, k);
    }
    forall j: nat | j < |Entries(cfg)| && Key(cfg, j) == k
      ensures Strength(Entries(cfg)[j].mode) >= 1 ==> k in v.terminated
      ensures Strength(Entries(cfg)[j].mode) >= 2 ==> k in v.offload
    {
      EntryInSets(cfg, v, j);
    }
  }

  // --------------------------------------------------------------- agreement

  /** If entry `i` routes the host with its own key, agreement says exactly that
      no other entry with this key asks for more. */
  lemma AgreesAtKey(cfg: ServerConfig, v: View, host: string, i: nat)
    requires StaticView(cfg, v) && i < |Entries(cfg)| && Key(cfg, i) == Lower(host)
    requires RoutedMode(v, host) == Some(Entries(cfg)[i].mode)
    requires WildcardUpstream(v, Lower(host)).None?
    ensures ModeAgrees(v, host)
            <==> forall j :: 0 <= j < |Entries(cfg)| && Key(cfg, j) == Key(cfg, i)
                   ==> Strength(Entries(cfg)[j].mode) <= Strength(Entries(cfg)[i].mode)
  {
    ModeSets(cfg, v, Lower(host));
    var m := Entries(cfg)[i].mode;
    assert KeyWants(cfg, Lower(host), Strength(m));
    if ModeAgrees(v, host) {
      forall j | 0 <= j < |Entries(cfg)| && Key(cfg, j) == Key(cfg, i)
        ensures Strength(Entries(cfg)[j].mode) <= Strength(m)
      {
        assert KeyWants(cfg, Lower(host), Strength(Entries(cfg)[j].mode));
      }
    }
  }

  /** The static tables agree on every host as soon as the config is unambiguous. */
  lemma UnambiguousAgrees(cfg: ServerConfig, v: View, host: string)
    requires HasTargets(cfg) && Unambiguous(cfg) && StaticView(cfg, v)
    ensures ModeAgrees(v, host)
  {
    var lower := Lower(host);
    if lower in v.local {
      var i := LocalIsWinner(cfg, v, lower);
      AgreesAtKey(cfg, v, host, i);
    } else if UpstreamFor(v, host).Some? {
      ModeSets(cfg, v, lower);
      WildcardHostHasNoEntry(cfg, v, lower);
    } else if host in v.inner {
      var i := TunnelEntryWins(cfg, v, host);
      AgreesAtKey(cfg, v, host, i);
    }
  }

  lemma WildcardHostHasNoEntry(cfg: ServerConfig, v: View, k: string)
    requires HasTargets(cfg) && ServedView(cfg, v)
    requires k !in v.local && k !in v.tunnelHosts
    ensures !KeyWants(cfg, k, 0)
  {
    forall j | 0 <= j < |Entries(cfg)| ensures Key(cfg, j) != k {
      if IsUpstream(cfg, j) {
        UpstreamKeyIsLocal(cfg, v, j);
      } else {
        HostnameKeyIsTunnelHost(cfg, v, j);
      }
    }
  }

  lemma TunnelEntryWins(cfg: ServerConfig, v: View, host: string) returns (i: nat)
    requires HasTargets(cfg) && ServedView(cfg, v) && host in v.inner && Lower(host) !in v.local
    ensures Wins(cfg, i) && Key(cfg, i) == Lower(host) && Entries(cfg)[i].mode == v.inner[host].mode
    ensures i < |cfg.hostnames| && Entries(cfg)[i].host == host
    ensures WildcardUpstream(v, Lower(host)).None?
  {
    assert ServedByEntry(cfg, host, v.inner[host].mode);
    var e :| e in cfg.hostnames && e.host == host && e.mode == v.inner[host].mode && B.CanConnect(cfg, e.client);
    i :| 0 <= i < |cfg.hostnames| && cfg.hostnames[i] == e;
    EntryAt(cfg, i);
    HostnameKeyIsTunnelHost(cfg, v, i);
    forall j | IsUpstream(cfg, j) ensures Key(cfg, j) != Key(cfg, i) {
      UpstreamKeyIsLocal(cfg, v, j);
    }
  }

  /** Hosts that are distinct ignoring case are enough. */
  lemma DistinctIsUnambiguous(cfg: ServerConfig)
    requires DistinctIgnoringCase(cfg)
    ensures Unambiguous(cfg)
  {
    forall i: nat, j: nat | Wins(cfg, i) && j < |Entries(cfg)| && Key(cfg, j) == Key(cfg, i) ensures i == j {
    }
  }

  /** A valid config with lowercase hosts has hosts that are distinct ignoring case. */
  lemma LowercaseIsDistinct(cfg: ServerConfig)
    requires Valid(cfg) && forall e :: e in Entries(cfg) ==> IsLower(e.host)
    ensures DistinctIgnoringCase(cfg)
  {
    forall i: nat, j: nat | i < j < |Entries(cfg)| ensures Key(cfg, i) != Key(cfg, j) {
      assert Entries(cfg)[i] in Entries(cfg) && Entries(cfg)[j] in Entries(cfg);
      assert EntryHosts(Entries(cfg))[i] != EntryHosts(Entries(cfg))[j];
    }
  }

  // -------------------------------------------- replacing the terminated set

  /** The listener does with `key` what mode `m` says. */
  predicate KeyAgrees(v: View, key: string, m: TlsMode) {
    (key in v.terminated <==> Terminates(m)) && (key in v.offload <==> m == TlsOffload)
  }

  /** The upstreams with a key of their own and the hosts with tunnels agree. */
  ghost predicate ExactHostsAgree(v: View) {
    && (forall k :: k in v.local ==> KeyAgrees(v, k, v.local[k].mode))
    && (forall h :: h in v.inner && Lower(h) !in v.local ==> KeyAgrees(v, Lower(h), v.inner[h].mode))
  }

  lemma WildcardHostsAgree(cfg: ServerConfig, v: View, host: string)
    requires HasTargets(cfg) && ServedView(cfg, v) && WildcardUpstream(v, Lower(host)).Some?
    ensures ModeAgrees(v, host)
  {
    if Lower(host) in v.offload {
      OffloadKeyIsExact(cfg, v, Lower(host));
    }
  }

  /** Whatever set was provisioned, the listener agrees with the routing on every
      host, wildcards and unknown names included, exactly when it agrees on the
      upstreams with a key of their own and on the hosts with tunnels. */
  lemma AgreesOnAllHostsExactly(cfg: ServerConfig, v: View)
    requires HasTargets(cfg) && ServedView(cfg, v)
    ensures (forall host :: ModeAgrees(v, host)) <==> ExactHostsAgree(v)
  {
    if forall host :: ModeAgrees(v, host) {
      forall k | k in v.local ensures KeyAgrees(v, k, v.local[k].mode) {
        var i := LocalKeyHasLast(cfg.upstreams, k);
        LowerIdempotent(cfg.upstreams[i].host);
        assert ModeAgrees(v, k);
      }
      forall h | h in v.inner && Lower(h) !in v.local ensures KeyAgrees(v, Lower(h), v.inner[h].mode) {
        var i := TunnelEntryWins(cfg, v, h);
        assert ModeAgrees(v, h);
      }
    }
    if ExactHostsAgree(v) {
      forall host ensures ModeAgrees(v, host) {
        if WildcardUpstream(v, Lower(host)).Some? {
          WildcardHostsAgree(cfg, v, host);
        } else if Lower(host) in v.local {
          assert KeyAgrees(v, Lower(host), v.local[Lower(host)].mode);
        } else if host in v.inner {
          assert KeyAgrees(v, Lower(host), v.inner[host].mode);
        }
      }
    }
  }

  /** "Offload hosts are terminated hosts" holds for every host exactly when the
      provisioned set keeps every configured offload hostname. */
  lemma OffloadIsTerminatedExactly(cfg: ServerConfig, v: View)
    requires ConfigView(cfg, v) && HasTargets(cfg)
    ensures (forall host :: IsOffload(v, host) ==> IsTerminated(v, host)) <==> v.offload <= v.terminated
  {
    if forall host :: IsOffload(v, host) ==> IsTerminated(v, host) {
      forall k | k in v.offload ensures k in v.terminated {
        OffloadKeyIsExact(cfg, v, k);
        LowerIdempotent(k);
        assert IsOffload(v, k);
      }
    }
  }

  lemma OffloadKeyIsExact(cfg: ServerConfig, v: View, k: string)
    requires ConfigView(cfg, v) && HasTargets(cfg) && k in v.offload
    ensures Lower(k) == k && (k in v.local || k in v.tunnelHosts)
  {
    if h :| h in cfg.hostnames && h.mode == TlsOffload && Lower(h.host) == k {
      LowerIdempotent(h.host);
    } else {
      var u :| u in cfg.upstreams && u.mode == TlsOffload && Lower(u.host) == k;
      LowerIdempotent(u.host);
      var i :| 0 <= i < |cfg.upstreams| && cfg.upstreams[i] == u;
      LocalHasKey(cfg.upstreams, i);
    }
  }

  /** A provisioned set without a configured offload host leaves that host raw:
      not terminated, yet still marked offload. */
  lemma SetTerminatedCanDropOffload()
    ensures var u := UpstreamEntry("db.x", Some("127.0.0.1:5432"), None, TlsOffload, None, None);
            var v := SetTerminated(FromConfig([], [u]), []);
            IsOffload(v, "db.x") && !IsTerminated(v, "db.x")
  {
    var u := UpstreamEntry("db.x", Some("127.0.0.1:5432"), None, TlsOffload, None, None);
    var v := SetTerminated(FromConfig([], [u]), []);
    assert Lower("db.x") == "db.x";
    assert u in [u];
    LocalHasKey([u], 0);
    assert "db.x" in v.offload;
  }
}
