/** The certificates that hostname and upstream entries set for themselves, and
    how their choice by SNI compares with the routing of the host. */
module HostCerts {
  import opened Prelude
  import opened Hosts
  import opened Config
  import opened Resolution
  import opened Modes
  import opened Routing

  /** Reading a certificate and its key from two files; `None` is an error. */
  type Reader<C> = (string, string) -> Option<C>

  /** The certificate an entry sets for itself. */
  function OwnCert<C>(e: Entry, read: Reader<C>): Option<C> {
    match (e.certFile, e.keyFile)
    case (Some(cert), Some(key)) => read(cert, key)
    case _ => None
  }

  predicate SetsCert(e: Entry) {
    e.certFile.Some? && e.keyFile.Some?
  }

  /** Every certificate that an entry sets can be read. */
  ghost predicate Readable<C>(es: seq<Entry>, read: Reader<C>) {
    forall e :: e in es && SetsCert(e) ==> OwnCert(e, read).Some?
  }

  /** The certificate map: keys in lowercase, a later entry replaces an earlier one. */
  function CertMap<C>(es: seq<Entry>, read: Reader<C>): map<string, C> {
    if es == [] then map[]
    else
      var before, e := CertMap(es[..|es| - 1], read), es[|es| - 1];
      match OwnCert(e, read)
      case Some(c) => before[Lower(e.host) := c]
      case None => before
  }

  lemma OneMoreEntry<C>(es: seq<Entry>, read: Reader<C>, k: nat)
    requires k < |es| && Readable(es[..k], read)
    ensures Readable(es[..k + 1], read) <==> (SetsCert(es[k]) ==> OwnCert(es[k], read).Some?)
    ensures CertMap(es[..k + 1], read)
            == match OwnCert(es[k], read)
               case Some(c) => CertMap(es[..k], read)[Lower(es[k].host) := c]
               case None => CertMap(es[..k], read)
  {
    assert es[..k + 1][..k] == es[..k];
    assert es[..k + 1] == es[..k] + [es[k]];
  }

  /** Reads each pair of files once; the first error ends the load. */
  method Load<C>(cfg: ServerConfig, read: Reader<C>) returns (certs: Option<map<string, C>>)
    ensures certs.Some? <==> Readable(Entries(cfg), read)
    ensures certs.Some? ==> certs.value == CertMap(Entries(cfg), read)
  {
    var es := Entries(cfg);
    var loaded: map<(string, string), C> := map[];
    var m: map<string, C> := map[];
    for k := 0 to |es|
      invariant Readable(es[..k], read) && m == CertMap(es[..k], read)
      invariant forall f :: f in loaded ==> read(f.0, f.1) == Some(loaded[f])
    {
      OneMoreEntry(es, read, k);
      var e := es[k];
      if e.certFile.Some? && e.keyFile.Some? {
        var files := (e.certFile.value, e.keyFile.value);
        if files !in loaded {
          var c := read(files.0, files.1);
          if c.None? {
            assert e in es && SetsCert(e);
            return None;
          }
          loaded := loaded[files := c.value];
        }
        m := m[Lower(e.host) := loaded[files]];
      }
    }
    assert es[..|es|] == es;
    return Some(m);
  }

  function TrimDots(s: string): string {
    if s != "" && s[|s| - 1] == '.' then TrimDots(s[..|s| - 1]) else s
  }

  /** All trailing dots go, and nothing else. */
  lemma {:induction false} TrimDotsExactly(s: string, t: string)
    ensures TrimDots(s) == t
            <==> && |t| <= |s| && s[..|t|] == t && (t == "" || t[|t| - 1] != '.')
                 && forall i :: |t| <= i < |s| ==> s[i] == '.'
  {
    if s != "" && s[|s| - 1] == '.' {
      var init := s[..|s| - 1];
      TrimDotsExactly(init, t);
      if |t| <= |init| {
        assert init[..|t|] == s[..|t|];
        assert forall i :: 0 <= i < |init| ==> init[i] == s[i];
      } else if |t| == |s| {
        assert s[..|t|] == s;
      }
    } else if s != "" {
      if |t| < |s| {
        assert s[|s| - 1] != '.';
      }
      assert s[..|s|] == s;
    }
  }

  function Select<C>(certs: map<string, C>, host: string): Option<C> {
    match FirstKey(HostPatterns(Lower(TrimDots(host))), certs.Keys)
    case Some(p) => if p in certs then Some(certs[p]) else None
    case None => None
  }

  predicate Covers<C>(certs: map<string, C>, host: string) {
    Select(certs, host).Some?
  }

  // --------------------------------------------------------------- routing

  ghost function Keys(cfg: ServerConfig): set<string> {
    set i: nat | i < |Entries(cfg)| :: Key(cfg, i)
  }

  /** Entry `i` routes the host: of the entries that match it, its key is the most
      specific, no upstream shadows it, and a tunnel hostname has this spelling. */
  ghost predicate RoutedBy(cfg: ServerConfig, i: nat, host: string) {
    && i < |Entries(cfg)| && MostSpecific(Keys(cfg), Lower(host), Key(cfg, i))
    && Unshadowed(cfg, i) && (i < |cfg.hostnames| ==> Entries(cfg)[i].host == host)
  }

  lemma HostnameMatchesItself(cfg: ServerConfig, i: nat, host: string)
    requires Valid(cfg) && i < |cfg.hostnames| && Matches(Key(cfg, i), host)
    ensures Key(cfg, i) == host
  {
    EntryAt(cfg, i);
    assert cfg.hostnames[i] in cfg.hostnames;
    var h := cfg.hostnames[i].host;
    assert '*' !in h;
    assert forall j :: 0 <= j < |h| ==> Lower(h)[j] == LowerChar(h[j]) != '*';
    PatternHasStar(Lower(h), host);
  }

  /** At most one entry routes a host. */
  lemma RoutedByUnique(cfg: ServerConfig, i: nat, j: nat, host: string)
    requires Valid(cfg) && RoutedBy(cfg, i, host) && RoutedBy(cfg, j, host)
    ensures i == j
  {
    MostSpecificUnique(Keys(cfg), Lower(host), Key(cfg, i), Key(cfg, j));
    var hosts := EntryHosts(Entries(cfg));
    assert hosts[i] == Entries(cfg)[i].host && hosts[j] == Entries(cfg)[j].host;
  }

  lemma LastUpstreamOfKey(us: seq<UpstreamEntry>, j: nat)
    requires j < |us| && TargetOf(us[j]).Some?
    requires forall l :: j < l < |us| ==> Lower(us[l].host) != Lower(us[j].host)
    ensures var key := Lower(us[j].host);
            key in LocalOf(us) && LocalOf(us)[key] == LocalUpstream(TargetOf(us[j]).value, us[j].mode)
  {
    LocalHasKey(us, j);
    var i := LocalKeyHasLast(us, Lower(us[j].host));
    assert i == j;
  }

  lemma UpstreamOfKey(cfg: ServerConfig, i: nat)
    requires HasTargets(cfg) && IsUpstream(cfg, i) && Unshadowed(cfg, i)
    ensures var u, local := cfg.upstreams[i - |cfg.hostnames|], LocalOf(cfg.upstreams);
            TargetOf(u).Some? && Key(cfg, i) in local
            && local[Key(cfg, i)] == LocalUpstream(TargetOf(u).value, u.mode)
  {
    var n, us := |cfg.hostnames|, cfg.upstreams;
    EntryAt(cfg, i);
    assert us[i - n] in us && OneTarget(us[i - n]);
    forall l | i - n < l < |us| ensures Lower(us[l].host) != Lower(us[i - n].host) {
      EntryAt(cfg, n + l);
      assert Key(cfg, n + l) != Key(cfg, i);
    }
    LastUpstreamOfKey(us, i - n);
  }

  /** In static mode, whatever tunnels are up: if an upstream entry routes a host,
      that upstream serves it; if a tunnel hostname does, only its tunnels do. */
  lemma RoutedByIsRouting(cfg: ServerConfig, v: View, i: nat, host: string)
    requires Valid(cfg) && StaticView(cfg, v) && RoutedBy(cfg, i, host)
    ensures IsUpstream(cfg, i) ==>
              var u := cfg.upstreams[i - |cfg.hostnames|];
              TargetOf(u).Some? && UpstreamFor(v, host) == Some(LocalUpstream(TargetOf(u).value, u.mode))
    ensures !IsUpstream(cfg, i) ==>
              UpstreamFor(v, host).None? && (host in v.inner ==> v.inner[host].mode == Entries(cfg)[i].mode)
  {
    if IsUpstream(cfg, i) {
      UpstreamRoutes(cfg, v, i, host);
    } else {
      TunnelRoutes(cfg, v, i, host);
    }
  }

  lemma UpstreamRoutes(cfg: ServerConfig, v: View, i: nat, host: string)
    requires Valid(cfg) && StaticView(cfg, v) && RoutedBy(cfg, i, host) && IsUpstream(cfg, i)
    ensures var u := cfg.upstreams[i - |cfg.hostnames|];
            TargetOf(u).Some? && UpstreamFor(v, host) == Some(LocalUpstream(TargetOf(u).value, u.mode))
  {
    UpstreamOfKey(cfg, i);
    RoutesAmongOwners(cfg, v, i, host);
    UpstreamIsMostSpecific(v, host, v.local[Key(cfg, i)]);
  }

  lemma TunnelRoutes(cfg: ServerConfig, v: View, i: nat, host: string)
    requires Valid(cfg) && StaticView(cfg, v) && RoutedBy(cfg, i, host) && !IsUpstream(cfg, i)
    ensures UpstreamFor(v, host).None? && (host in v.inner ==> v.inner[host].mode == Entries(cfg)[i].mode)
  {
    HostnameMatchesItself(cfg, i, Lower(host));
    HostnameKeyIsTunnelHost(cfg, v, i);
    TunnelKeyIsNotLocal(cfg, v, i);
    if host in v.inner {
      TunnelModeOf(cfg, v, i, host);
    }
  }

  lemma TunnelModeOf(cfg: ServerConfig, v: View, i: nat, host: string)
    requires Distinct(EntryHosts(Entries(cfg))) && HasTargets(cfg) && ServedView(cfg, v)
    requires i < |Entries(cfg)| && Entries(cfg)[i].host == host && host in v.inner && Lower(host) !in v.local
    ensures v.inner[host].mode == Entries(cfg)[i].mode
  {
    var j := TunnelEntryWins(cfg, v, host);
    var hosts := EntryHosts(Entries(cfg));
    assert hosts[i] == hosts[j];
  }

  lemma TunnelKeyIsNotLocal(cfg: ServerConfig, v: View, i: nat)
    requires Valid(cfg) && StaticView(cfg, v) && i < |cfg.hostnames| && Unshadowed(cfg, i)
    ensures Key(cfg, i) !in v.local
  {
    if Key(cfg, i) in v.local {
      var w := LocalIsWinner(cfg, v, Key(cfg, i));
      assert false;
    }
  }

  /** In static mode every route of every host comes from an entry that routes it:
      a host without such an entry has no route. */
  lemma RouteHasEntry(cfg: ServerConfig, v: View, host: string, closed: set<ConnId>) returns (i: nat)
    requires Valid(cfg) && StaticView(cfg, v) && LookupRoute(v, host, closed).Some?
    ensures RoutedBy(cfg, i, host)
  {
    var lower := Lower(host);
    if UpstreamFor(v, host).Some? {
      UpstreamIsMostSpecific(v, host, UpstreamFor(v, host).value);
      var p :| MostSpecific(Owners(v, lower), lower, p) && p in v.local;
      i := LocalIsWinner(cfg, v, p);
      forall q | q in Keys(cfg) && Matches(q, lower) ensures q in Owners(v, lower) {
        MatchingKeyIsOwner(cfg, v, host, q);
      }
    } else {
      i := TunnelEntryWins(cfg, v, host);
    }
    assert Key(cfg, i) in Keys(cfg);
  }

  lemma MatchingKeyIsOwner(cfg: ServerConfig, v: View, host: string, q: string)
    requires Valid(cfg) && StaticView(cfg, v) && q in Keys(cfg) && Matches(q, Lower(host))
    ensures q in Owners(v, Lower(host))
  {
    var j: nat :| j < |Entries(cfg)| && Key(cfg, j) == q;
    if IsUpstream(cfg, j) {
      UpstreamKeyIsLocal(cfg, v, j);
    } else {
      HostnameMatchesItself(cfg, j, Lower(host));
      HostnameKeyIsTunnelHost(cfg, v, j);
    }
  }

  lemma RoutesAmongOwners(cfg: ServerConfig, v: View, i: nat, host: string)
    requires Valid(cfg) && StaticView(cfg, v)
    requires RoutedBy(cfg, i, host) && IsUpstream(cfg, i) && Key(cfg, i) in v.local
    ensures MostSpecific(Owners(v, Lower(host)), Lower(host), Key(cfg, i))
  {
    var lower := Lower(host);
    forall q | q in Owners(v, lower) ensures q in Keys(cfg) {
      if q in v.local {
        var w := LocalIsWinner(cfg, v, q);
      } else {
        NamedHasEntry(cfg, v, host);
      }
    }
  }

  lemma NamedHasEntry(cfg: ServerConfig, v: View, host: string)
    requires StaticView(cfg, v) && Named(v, Lower(host))
    ensures Lower(host) in Keys(cfg)
  {
    var lower := Lower(host);
    LowerIdempotent(host);
    if lower in v.terminated {
      ModeSets(cfg, v, lower);
    } else {
      if lower in v.inner {
        assert ServedByEntry(cfg, lower, v.inner[lower].mode);
      }
      var e :| e in cfg.hostnames && Lower(e.host) == lower;
      var i :| 0 <= i < |cfg.hostnames| && cfg.hostnames[i] == e;
      EntryAt(cfg, i);
      assert Key(cfg, i) == lower;
    }
  }

  // ------------------------------------------------------ choice and routing

  lemma {:induction false} CertKeyHasEntry<C>(es: seq<Entry>, read: Reader<C>, k: string) returns (i: nat)
    requires k in CertMap(es, read)
    ensures i < |es| && Lower(es[i].host) == k && OwnCert(es[i], read) == Some(CertMap(es, read)[k])
    ensures forall j :: i < j < |es| && Lower(es[j].host) == k ==> OwnCert(es[j], read).None?
  {
    var n := |es| - 1;
    if OwnCert(es[n], read).Some? && Lower(es[n].host) == k {
      i := n;
    } else {
      i := CertKeyHasEntry(es[..n], read, k);
      assert forall j :: 0 <= j < n ==> es[..n][j] == es[j];
    }
  }

  lemma {:induction false} CertHasKey<C>(es: seq<Entry>, read: Reader<C>, i: nat)
    requires i < |es| && OwnCert(es[i], read).Some?
    ensures Lower(es[i].host) in CertMap(es, read)
  {
    var n := |es| - 1;
    if i < n {
      CertHasKey(es[..n], read, i);
    }
  }

  /** The name that `select` goes by. */
  function Trimmed(host: string): string {
    Lower(TrimDots(host))
  }

  ghost predicate SomeMatchHasCert<C>(cfg: ServerConfig, read: Reader<C>, name: string) {
    exists j: nat :: j < |Entries(cfg)| && Matches(Key(cfg, j), name) && OwnCert(Entries(cfg)[j], read).Some?
  }

  /** The keys of the entries that have a certificate. */
  ghost function CertKeys<C>(cfg: ServerConfig, read: Reader<C>): set<string> {
    set i: nat | i < |Entries(cfg)| && OwnCert(Entries(cfg)[i], read).Some? :: Key(cfg, i)
  }

  /** Among the entries with a certificate, entry `j` is the most specific that
      matches the name, and the last of these with its key. */
  ghost predicate BestCert<C>(cfg: ServerConfig, read: Reader<C>, j: nat, name: string) {
    && j < |Entries(cfg)| && OwnCert(Entries(cfg)[j], read).Some?
    && MostSpecific(CertKeys(cfg, read), name, Key(cfg, j))
    && forall l :: j < l < |Entries(cfg)| && Key(cfg, l) == Key(cfg, j) ==> OwnCert(Entries(cfg)[l], read).None?
  }

  lemma CertMapKeys<C>(cfg: ServerConfig, read: Reader<C>)
    ensures CertMap(Entries(cfg), read).Keys == CertKeys(cfg, read)
  {
    var es := Entries(cfg);
    forall q | q in CertMap(es, read) ensures q in CertKeys(cfg, read) {
      var k := CertKeyHasEntry(es, read, q);
      assert Key(cfg, k) == q;
    }
    forall i: nat | i < |es| && OwnCert(es[i], read).Some? ensures Key(cfg, i) in CertMap(es, read) {
      CertHasKey(es, read, i);
    }
  }

  /** The certificate of the best entry for the trimmed name is chosen. */
  lemma BestCertIsSelected<C>(cfg: ServerConfig, read: Reader<C>, j: nat, host: string)
    requires BestCert(cfg, read, j, Trimmed(host))
    ensures Select(CertMap(Entries(cfg), read), host) == OwnCert(Entries(cfg)[j], read)
  {
    var certs, name := CertMap(Entries(cfg), read), Trimmed(host);
    CertMapKeys(cfg, read);
    FirstKeyIsMostSpecific(name, certs.Keys);
    var q := FirstKey(HostPatterns(name), certs.Keys);
    assert q.Some?;
    MostSpecificUnique(certs.Keys, name, Key(cfg, j), q.value);
    var i := CertKeyHasEntry(Entries(cfg), read, q.value);
    assert Key(cfg, i) == Key(cfg, j);
  }

  /** A host is covered exactly if some entry that matches the trimmed name has a
      certificate, and then some entry is the best of these. */
  lemma SelectSomeExactly<C>(cfg: ServerConfig, read: Reader<C>, host: string)
    ensures Covers(CertMap(Entries(cfg), read), host) <==> SomeMatchHasCert(cfg, read, Trimmed(host))
    ensures SomeMatchHasCert(cfg, read, Trimmed(host)) ==> exists j: nat :: BestCert(cfg, read, j, Trimmed(host))
  {
    var es, name := Entries(cfg), Trimmed(host);
    var certs := CertMap(es, read);
    CertMapKeys(cfg, read);
    FirstKeyIsMostSpecific(name, certs.Keys);
    if FirstKey(HostPatterns(name), certs.Keys).Some? {
      var j := CertKeyHasEntry(es, read, FirstKey(HostPatterns(name), certs.Keys).value);
      assert Matches(Key(cfg, j), name) && BestCert(cfg, read, j, name);
    }
    forall j: nat | j < |es| && Matches(Key(cfg, j), name) && OwnCert(es[j], read).Some?
      ensures FirstKey(HostPatterns(name), certs.Keys).Some?
    {
      assert Key(cfg, j) in certs.Keys;
    }
  }

  /** The certificate the documentation promises for a host: that of the entry that
      routes it, none if this entry has none or if no entry routes the host. */
  ghost predicate Promised<C>(cfg: ServerConfig, read: Reader<C>, host: string, c: Option<C>) {
    if exists i: nat :: RoutedBy(cfg, i, host)
    then exists i: nat :: RoutedBy(cfg, i, host) && c == OwnCert(Entries(cfg)[i], read)
    else c == None
  }

  /** For every config and every host, routed or not: the choice is what is promised
      exactly when
      - a certificate is promised, and the most specific entry with a certificate
        that matches the trimmed name has the same one; or
      - none is promised, and no entry that matches the trimmed name has one. */
  lemma SelectFollowsRoutingExactly<C>(cfg: ServerConfig, read: Reader<C>, host: string, c: Option<C>)
    requires Promised(cfg, read, host, c)
    ensures Select(CertMap(Entries(cfg), read), host) == c
            <==> match c
                 case Some(_) => exists j: nat :: BestCert(cfg, read, j, Trimmed(host))
                                                  && OwnCert(Entries(cfg)[j], read) == c
                 case None => !SomeMatchHasCert(cfg, read, Trimmed(host))
  {
    SelectSomeExactly(cfg, read, host);
    forall j: nat | BestCert(cfg, read, j, Trimmed(host))
      ensures Select(CertMap(Entries(cfg), read), host) == OwnCert(Entries(cfg)[j], read)
    {
      BestCertIsSelected(cfg, read, j, host);
    }
  }

  /** The entry that routes a host without trailing dots has its own certificate:
      that one is chosen. */
  lemma OwnCertIsSelected<C>(cfg: ServerConfig, read: Reader<C>, i: nat, host: string)
    requires DistinctIgnoringCase(cfg) && TrimDots(host) == host && RoutedBy(cfg, i, host)
    requires OwnCert(Entries(cfg)[i], read).Some?
    ensures Select(CertMap(Entries(cfg), read), host) == OwnCert(Entries(cfg)[i], read)
  {
    assert BestCert(cfg, read, i, Trimmed(host)) by {
      assert CertKeys(cfg, read) <= Keys(cfg);
      assert Key(cfg, i) in CertKeys(cfg, read);
    }
    BestCertIsSelected(cfg, read, i, host);
  }

  /** For a host without trailing dots this is exact: the choice follows the
      routing if and only if the entry that routes it has a certificate or no
      matching entry has one. */
  lemma PlainHostFollowsRoutingExactly<C>(cfg: ServerConfig, read: Reader<C>, i: nat, host: string)
    requires DistinctIgnoringCase(cfg) && TrimDots(host) == host && RoutedBy(cfg, i, host)
    ensures Select(CertMap(Entries(cfg), read), host) == OwnCert(Entries(cfg)[i], read)
            <==> OwnCert(Entries(cfg)[i], read).Some? || !SomeMatchHasCert(cfg, read, Lower(host))
  {
    SelectSomeExactly(cfg, read, host);
    if OwnCert(Entries(cfg)[i], read).Some? {
      OwnCertIsSelected(cfg, read, i, host);
    }
  }

  /** An exact entry without a certificate beside a wildcard that has one. */
  function BareConfig(): ServerConfig {
    ServerConfig(
      [], [],
      [UpstreamEntry("a.x", Some("1"), None, Terminated, None, None),
       UpstreamEntry("*.x", Some("2"), None, Terminated, Some("any.crt"), Some("any.key"))],
      None)
  }

  lemma BareConfigIsValid()
    ensures var cfg := BareConfig();
            && Valid(cfg)
            && Entries(cfg) == [Entry("a.x", Terminated, None, None),
                                Entry("*.x", Terminated, Some("any.crt"), Some("any.key"))]
            && Key(cfg, 0) == "a.x" && Key(cfg, 1) == "*.x"
  {
    var cfg := BareConfig();
    var es := Entries(cfg);
    assert es == [Entry("a.x", Terminated, None, None),
                  Entry("*.x", Terminated, Some("any.crt"), Some("any.key"))];
    assert "a.x"[0] != "*.x"[0];
    assert EntryHosts(es) == ["a.x", "*.x"];
    assert Lower("a.x") == "a.x" && Lower("*.x") == "*.x";
    assert "*.x"[2..] == "x" && '*' !in "a.x";
  }

  lemma WildcardIsBest(read: Reader<string>)
    requires forall c, k :: read(c, k) == Some(c)
    ensures BestCert(BareConfig(), read, 1, "a.x")
  {
    var cfg := BareConfig();
    BareConfigIsValid();
    assert CertKeys(cfg, read) == {"*.x"};
    assert OneLabelUnder("a.x", "x") by {
      assert "a.x" == "a" + "." + "x" && '.' !in "a";
    }
    assert "*.x" == "*." + "x" && WildcardMatches("*.x", "a.x");
    assert |"*.x"| != |"*"|;
  }

  /** The failing case: `a.x` is routed by its own entry, which has no certificate,
      and is served with the certificate of `*.x`. */
  lemma WildcardCertFillsIn(read: Reader<string>)
    requires forall c, k :: read(c, k) == Some(c)
    ensures var cfg := BareConfig();
            && Valid(cfg) && RoutedBy(cfg, 0, "a.x") && OwnCert(Entries(cfg)[0], read).None?
            && Select(CertMap(Entries(cfg), read), "a.x") == Some("any.crt")
  {
    BareConfigIsValid();
    BareHostRoutesItself();
    WildcardIsBest(read);
    BestCertIsSelected(BareConfig(), read, 1, "a.x");
  }

  lemma BareHostRoutesItself()
    ensures RoutedBy(BareConfig(), 0, "a.x") && Trimmed("a.x") == "a.x"
  {
    BareConfigIsValid();
    assert "a.x"[0] != "*.x"[0];
    assert Lower("a.x") == "a.x";
    assert Key(BareConfig(), 0) in Keys(BareConfig());
    assert "a.x"[2] == 'x' && TrimDots("a.x") == "a.x";
  }

  /** An exact entry and the catch-all, each with its own certificate. */
  function DottedConfig(): ServerConfig {
    ServerConfig(
      [], [],
      [UpstreamEntry("a.x", Some("1"), None, Terminated, Some("a.crt"), Some("a.key")),
       UpstreamEntry("*", Some("2"), None, Terminated, Some("any.crt"), Some("any.key"))],
      None)
  }

  lemma DottedConfigIsValid()
    ensures Valid(DottedConfig())
  {
    var es := Entries(DottedConfig());
    assert es == [Entry("a.x", Terminated, Some("a.crt"), Some("a.key")),
                  Entry("*", Terminated, Some("any.crt"), Some("any.key"))];
    assert |"a.x"| != |"*"|;
    assert EntryHosts(es) == ["a.x", "*"];
    assert '*' !in "a.x" && "a.x"[0] != "*."[0];
  }

  /** A trailing dot is dropped for the certificate ... */
  lemma TrailingDotKeepsCert(read: Reader<string>)
    requires forall c, k :: read(c, k) == Some(c)
    ensures Valid(DottedConfig())
    ensures Select(CertMap(Entries(DottedConfig()), read), "a.x.") == Some("a.crt")
  {
    DottedConfigIsValid();
    var es := Entries(DottedConfig());
    assert es == [Entry("a.x", Terminated, Some("a.crt"), Some("a.key")),
                  Entry("*", Terminated, Some("any.crt"), Some("any.key"))];
    assert Lower("a.x") == "a.x" && Lower("*") == "*";
    assert es[..1] == [es[0]] && es[..1][..0] == [];
    assert CertMap(es[..1], read) == map["a.x" := "a.crt"];
    assert CertMap(es, read) == map["a.x" := "a.crt", "*" := "any.crt"];
    assert "a.x."[..3] == "a.x" && TrimDots("a.x.") == "a.x";
    assert HostPatterns("a.x")[0] == "a.x";
  }

  /** ... but not for the routing: `a.x.` goes to the catch-all, with the
      certificate of `a.x`. */
  lemma TrailingDotLosesRoute()
    ensures Valid(DottedConfig())
    ensures UpstreamFor(FromConfig([], DottedConfig().upstreams), "a.x.")
            == Some(LocalUpstream(Tcp("2"), Terminated))
  {
    DottedConfigIsValid();
    DottedLocal();
    DottedPatterns();
    assert Lower("a.x.") == "a.x.";
    assert |"a.x."| != |"a.x"| && |"a.x."| != |"*"|;
  }

  lemma DottedLocal()
    ensures LocalOf(DottedConfig().upstreams)
            == map["a.x" := LocalUpstream(Tcp("1"), Terminated), "*" := LocalUpstream(Tcp("2"), Terminated)]
  {
    var us := DottedConfig().upstreams;
    assert Lower("a.x") == "a.x" && Lower("*") == "*";
    assert us[..1] == [us[0]] && us[..1][..0] == [];
    assert LocalOf(us[..1]) == map["a.x" := LocalUpstream(Tcp("1"), Terminated)];
  }

  lemma DottedPatterns()
    ensures FirstKey(HostPatterns("a.x.")[1..], {"a.x", "*"}) == Some("*")
  {
    SplitUnique("a.x.", "a", "x.");
    var ps := HostPatterns("a.x.");
    assert "*." + "x." == "*.x.";
    assert ps[1..] == ["*.x.", "*"] && ps[1..][1..] == ["*"];
    assert |"*.x."| != |"a.x"| && |"*.x."| != |"*"|;
  }
}
