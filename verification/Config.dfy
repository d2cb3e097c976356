/** The server configuration and its validation. */
module Config {
  import opened Prelude

  datatype TlsMode = Terminated | TlsOffload | Passthrough

  datatype Balance = LastWriteWins | RoundRobin

  /** A token is 32 bytes. */
  type Token = t: seq<Byte> | |t| == 32 witness seq(32, i => 0)

  datatype ClientEntry = ClientEntry(name: string, token: Token, balance: Balance)

  datatype HostnameEntry = HostnameEntry(
    host: string, client: string, mode: TlsMode,
    certFile: Option<string>, keyFile: Option<string>)

  datatype UpstreamEntry = UpstreamEntry(
    host: string, localAddr: Option<string>, localSocket: Option<string>, mode: TlsMode,
    certFile: Option<string>, keyFile: Option<string>)

  datatype ServerConfig = ServerConfig(
    clients: seq<ClientEntry>, hostnames: seq<HostnameEntry>, upstreams: seq<UpstreamEntry>,
    acmeContact: Option<string>)

  datatype ConfigError =
    | NoClients
    | DuplicateClient(name: string)
    | DuplicateHost(host: string)
    | UnknownClient(host: string, client: string)
    | AcmeContact(contact: string)
    | UpstreamTarget(host: string)
    | HostCertPair(host: string)
    | HostCertPassthrough(host: string)
    | HostPattern(host: string)

  /** Whether the server ends the TLS session of a host in this mode. */
  predicate Terminates(m: TlsMode) {
    m == Terminated || m == TlsOffload
  }

  /** One hostname or upstream entry, as `host_certs` lists them. */
  datatype Entry = Entry(host: string, mode: TlsMode, certFile: Option<string>, keyFile: Option<string>)

  function Entries(cfg: ServerConfig): (es: seq<Entry>)
    ensures |es| == |cfg.hostnames| + |cfg.upstreams|
  {
    seq(|cfg.hostnames|, i requires 0 <= i < |cfg.hostnames| =>
      var h := cfg.hostnames[i]; Entry(h.host, h.mode, h.certFile, h.keyFile)) +
    seq(|cfg.upstreams|, i requires 0 <= i < |cfg.upstreams| =>
      var u := cfg.upstreams[i]; Entry(u.host, u.mode, u.certFile, u.keyFile))
  }

  function EntryHosts(es: seq<Entry>): seq<string> {
    seq(|es|, i requires 0 <= i < |es| => es[i].host)
  }

  function ClientNames(cs: seq<ClientEntry>): seq<string> {
    seq(|cs|, i requires 0 <= i < |cs| => cs[i].name)
  }

  // The conditions a configuration must meet, one per error.

  predicate OneTarget(u: UpstreamEntry) {
    u.localAddr.Some? != u.localSocket.Some?
  }

  predicate GoodHostname(h: HostnameEntry) {
    '*' !in h.host
  }

  /** An upstream host is `*`, or a nonempty name without '*' after an optional `*.`. */
  predicate GoodPattern(host: string) {
    host == "*" ||
    var name := if "*." <= host then host[2..] else host;
    name != "" && '*' !in name
  }

  predicate CertPaired(e: Entry) {
    e.certFile.Some? == e.keyFile.Some?
  }

  predicate CertUsable(e: Entry) {
    e.certFile.Some? ==> e.mode != Passthrough
  }

  predicate KnownClient(cfg: ServerConfig, h: HostnameEntry) {
    h.client in ClientNames(cfg.clients)
  }

  predicate GoodContact(cfg: ServerConfig) {
    cfg.acmeContact.Some? ==> "mailto:" <= cfg.acmeContact.value
  }

  predicate Valid(cfg: ServerConfig) {
    && !(cfg.clients == [] && cfg.upstreams == [])
    && Distinct(ClientNames(cfg.clients))
    && Distinct(EntryHosts(Entries(cfg)))
    && (forall u :: u in cfg.upstreams ==> OneTarget(u))
    && (forall h :: h in cfg.hostnames ==> GoodHostname(h))
    && (forall u :: u in cfg.upstreams ==> GoodPattern(u.host))
    && (forall e :: e in Entries(cfg) ==> CertPaired(e) && CertUsable(e))
    && (forall h :: h in cfg.hostnames ==> KnownClient(cfg, h))
    && GoodContact(cfg)
  }

  ghost predicate Twice(s: seq<string>, x: string) {
    exists i, j :: 0 <= i < j < |s| && s[i] == x && s[j] == x
  }

  /** The configuration has the defect that `e` names. */
  ghost predicate Justified(cfg: ServerConfig, e: ConfigError) {
    match e
    case NoClients => cfg.clients == [] && cfg.upstreams == []
    case DuplicateClient(name) => Twice(ClientNames(cfg.clients), name)
    case DuplicateHost(host) => Twice(EntryHosts(Entries(cfg)), host)
    case UnknownClient(host, client) =>
      exists h :: h in cfg.hostnames && h.host == host && h.client == client && !KnownClient(cfg, h)
    case AcmeContact(contact) => cfg.acmeContact == Some(contact) && !("mailto:" <= contact)
    case UpstreamTarget(host) => exists u :: u in cfg.upstreams && u.host == host && !OneTarget(u)
    case HostCertPair(host) => exists e :: e in Entries(cfg) && e.host == host && !CertPaired(e)
    case HostCertPassthrough(host) => exists e :: e in Entries(cfg) && e.host == host && !CertUsable(e)
    case HostPattern(host) =>
      || (exists h :: h in cfg.hostnames && h.host == host && !GoodHostname(h))
      || (exists u :: u in cfg.upstreams && u.host == host && !GoodPattern(u.host))
  }

  // ------------------------------------- the conditions in terms of the file

  /** A host of an upstream: a name, `*.name` or `*`. */
  ghost predicate IsPattern(host: string) {
    host == "*" || exists name :: NameOfPattern(name, host)
  }

  ghost predicate NameOfPattern(name: string, host: string) {
    name != "" && '*' !in name && (host == name || host == "*." + name)
  }

  lemma PlainNameHasNoStar(name: string)
    requires name != "" && '*' !in name
    ensures !("*." <= name)
  {
    assert name[0] in name;
  }

  lemma PatternExactly(host: string)
    ensures GoodPattern(host) <==> IsPattern(host)
  {
    if GoodPattern(host) && host != "*" {
      var name := if "*." <= host then host[2..] else host;
      assert "*." <= host ==> host == "*." + name;
      assert NameOfPattern(name, host);
    }
    forall name | NameOfPattern(name, host) ensures GoodPattern(host) {
      if host == "*." + name {
        assert host[2..] == name;
      } else {
        PlainNameHasNoStar(host);
      }
    }
  }

  /** A certificate comes with its key, where the server terminates TLS, or not at all. */
  predicate CertOk(cert: Option<string>, key: Option<string>, mode: TlsMode) {
    || (cert == None && key == None)
    || (cert.Some? && key.Some? && (mode == Terminated || mode == TlsOffload))
  }

  ghost predicate WellConfigured(cfg: ServerConfig) {
    && (cfg.clients != [] || cfg.upstreams != [])
    && (forall i, j :: 0 <= i < j < |cfg.clients| ==> cfg.clients[i].name != cfg.clients[j].name)
    && (forall i, j :: 0 <= i < j < |cfg.hostnames| ==> cfg.hostnames[i].host != cfg.hostnames[j].host)
    && (forall i, j :: 0 <= i < j < |cfg.upstreams| ==> cfg.upstreams[i].host != cfg.upstreams[j].host)
    && (forall h, u :: h in cfg.hostnames && u in cfg.upstreams ==> h.host != u.host)
    && (forall u :: u in cfg.upstreams ==> IsPattern(u.host) && CertOk(u.certFile, u.keyFile, u.mode))
    && (forall u :: u in cfg.upstreams ==> (u.localAddr == None && u.localSocket != None)
                                           || (u.localAddr != None && u.localSocket == None))
    && (forall h :: h in cfg.hostnames ==> '*' !in h.host && CertOk(h.certFile, h.keyFile, h.mode))
    && (forall h :: h in cfg.hostnames ==> exists c :: c in cfg.clients && c.name == h.client)
    && (cfg.acmeContact == None || exists address :: cfg.acmeContact == Some("mailto:" + address))
  }

  lemma HostsDistinctExactly(cfg: ServerConfig)
    ensures Distinct(EntryHosts(Entries(cfg)))
            <==> && (forall i, j :: 0 <= i < j < |cfg.hostnames| ==> cfg.hostnames[i].host != cfg.hostnames[j].host)
                 && (forall i, j :: 0 <= i < j < |cfg.upstreams| ==> cfg.upstreams[i].host != cfg.upstreams[j].host)
                 && (forall h, u :: h in cfg.hostnames && u in cfg.upstreams ==> h.host != u.host)
  {
    var hosts, n := EntryHosts(Entries(cfg)), |cfg.hostnames|;
    assert forall i :: 0 <= i < n ==> hosts[i] == cfg.hostnames[i].host;
    assert forall i :: 0 <= i < |cfg.upstreams| ==> hosts[n + i] == cfg.upstreams[i].host;
    if Distinct(hosts) {
      forall i, j | 0 <= i < j < |cfg.upstreams| ensures cfg.upstreams[i].host != cfg.upstreams[j].host {
        assert hosts[n + i] != hosts[n + j];
      }
      forall h, u | h in cfg.hostnames && u in cfg.upstreams ensures h.host != u.host {
        var i :| 0 <= i < n && cfg.hostnames[i] == h;
        var j :| 0 <= j < |cfg.upstreams| && cfg.upstreams[j] == u;
        assert hosts[i] != hosts[n + j];
      }
    } else {
      var i, j :| 0 <= i < j < |hosts| && hosts[i] == hosts[j];
      if j < n {
        assert cfg.hostnames[i].host == cfg.hostnames[j].host;
      } else if i >= n {
        assert cfg.upstreams[i - n].host == cfg.upstreams[j - n].host;
      } else {
        assert cfg.hostnames[i] in cfg.hostnames && cfg.upstreams[j - n] in cfg.upstreams;
      }
    }
  }

  lemma CertsExactly(cfg: ServerConfig)
    ensures (forall e :: e in Entries(cfg) ==> CertPaired(e) && CertUsable(e))
            <==> && (forall u :: u in cfg.upstreams ==> CertOk(u.certFile, u.keyFile, u.mode))
                 && (forall h :: h in cfg.hostnames ==> CertOk(h.certFile, h.keyFile, h.mode))
  {
    var es, n := Entries(cfg), |cfg.hostnames|;
    forall i | 0 <= i < n
      ensures CertPaired(es[i]) && CertUsable(es[i])
              <==> CertOk(cfg.hostnames[i].certFile, cfg.hostnames[i].keyFile, cfg.hostnames[i].mode)
    {
    }
    forall i | 0 <= i < |cfg.upstreams|
      ensures CertPaired(es[n + i]) && CertUsable(es[n + i])
              <==> CertOk(cfg.upstreams[i].certFile, cfg.upstreams[i].keyFile, cfg.upstreams[i].mode)
    {
    }
    if forall e :: e in es ==> CertPaired(e) && CertUsable(e) {
      forall u | u in cfg.upstreams ensures CertOk(u.certFile, u.keyFile, u.mode) {
        var i :| 0 <= i < |cfg.upstreams| && cfg.upstreams[i] == u;
        assert es[n + i] in es;
      }
      forall h | h in cfg.hostnames ensures CertOk(h.certFile, h.keyFile, h.mode) {
        var i :| 0 <= i < n && cfg.hostnames[i] == h;
        assert es[i] in es;
      }
    }
    if && (forall u :: u in cfg.upstreams ==> CertOk(u.certFile, u.keyFile, u.mode))
       && (forall h :: h in cfg.hostnames ==> CertOk(h.certFile, h.keyFile, h.mode)) {
      forall e | e in es ensures CertPaired(e) && CertUsable(e) {
        var i :| 0 <= i < |es| && es[i] == e;
        if i < n {
          assert cfg.hostnames[i] in cfg.hostnames;
        } else {
          assert es[n + (i - n)] == e && cfg.upstreams[i - n] in cfg.upstreams;
        }
      }
    }
  }

  lemma ClientsExactly(cfg: ServerConfig, h: HostnameEntry)
    ensures KnownClient(cfg, h) <==> exists c :: c in cfg.clients && c.name == h.client
  {
    var names := ClientNames(cfg.clients);
    if KnownClient(cfg, h) {
      var i :| 0 <= i < |names| && names[i] == h.client;
      assert cfg.clients[i] in cfg.clients;
    }
    if c :| c in cfg.clients && c.name == h.client {
      var i :| 0 <= i < |cfg.clients| && cfg.clients[i] == c;
      assert names[i] == h.client;
    }
  }

  lemma ContactExactly(cfg: ServerConfig)
    ensures GoodContact(cfg)
            <==> cfg.acmeContact == None || exists address :: cfg.acmeContact == Some("mailto:" + address)
  {
    if cfg.acmeContact.Some? && "mailto:" <= cfg.acmeContact.value {
      var contact := cfg.acmeContact.value;
      assert contact == "mailto:" + contact[7..];
    }
  }

  /** The conditions that validation checks are those of the configuration file. */
  lemma ValidExactly(cfg: ServerConfig)
    ensures Valid(cfg) <==> WellConfigured(cfg)
  {
    HostsDistinctExactly(cfg);
    CertsExactly(cfg);
    ContactExactly(cfg);
    forall h | h in cfg.hostnames
      ensures KnownClient(cfg, h) <==> exists c :: c in cfg.clients && c.name == h.client
    {
      ClientsExactly(cfg, h);
    }
    forall u | u in cfg.upstreams ensures GoodPattern(u.host) <==> IsPattern(u.host) {
      PatternExactly(u.host);
    }
    assert Distinct(ClientNames(cfg.clients))
        <==> forall i, j :: 0 <= i < j < |cfg.clients| ==> cfg.clients[i].name != cfg.clients[j].name by {
      var names := ClientNames(cfg.clients);
      assert forall i :: 0 <= i < |names| ==> names[i] == cfg.clients[i].name;
    }
  }

  /** The checks that come before the one that `e` reports have passed. */
  ghost predicate EarlierPass(cfg: ServerConfig, e: ConfigError) {
    var stage :=
      match e
      case NoClients => 0
      case DuplicateClient(_) => 1
      case DuplicateHost(_) => 2
      case UpstreamTarget(_) => 3
      case HostPattern(_) => 4
      case HostCertPair(_) => 5
      case HostCertPassthrough(_) => 5
      case UnknownClient(_, _) => 6
      case AcmeContact(_) => 7;
    && (stage > 0 ==> cfg.clients != [] || cfg.upstreams != [])
    && (stage > 1 ==> Distinct(ClientNames(cfg.clients)))
    && (stage > 2 ==> Distinct(EntryHosts(Entries(cfg))))
    && (stage > 3 ==> forall u :: u in cfg.upstreams ==> OneTarget(u))
    && (stage > 4 ==> (forall h :: h in cfg.hostnames ==> GoodHostname(h))
                      && (forall u :: u in cfg.upstreams ==> GoodPattern(u.host)))
    && (stage > 5 ==> forall e :: e in Entries(cfg) ==> CertPaired(e) && CertUsable(e))
    && (stage > 6 ==> forall h :: h in cfg.hostnames ==> KnownClient(cfg, h))
  }

  /** Inserts the names into a set one by one; the first that was already there. */
  method FirstDuplicate(names: seq<string>) returns (r: Option<string>)
    ensures r.None? <==> Distinct(names)
    ensures r.Some? ==> Twice(names, r.value)
    ensures r.Some? ==> exists k :: 0 <= k < |names| && names[k] == r.value && r.value in names[..k] && Distinct(names[..k])
  {
    var seen: set<string> := {};
    for k := 0 to |names|
      invariant seen == set i | 0 <= i < k :: names[i]
      invariant Distinct(names[..k])
    {
      if names[k] in seen {
        assert names[k] in names[..k];
        return Some(names[k]);
      }
      seen := seen + {names[k]};
    }
    assert names == names[..|names|];
    return None;
  }

  method ValidateUpstreamTargets(cfg: ServerConfig) returns (r: Option<ConfigError>)
    ensures r.None? <==> forall u :: u in cfg.upstreams ==> OneTarget(u)
    ensures r.Some? ==> Justified(cfg, r.value) && r.value.UpstreamTarget?
  {
    for k := 0 to |cfg.upstreams|
      invariant forall u :: u in cfg.upstreams[..k] ==> OneTarget(u)
    {
      if !OneTarget(cfg.upstreams[k]) {
        return Some(UpstreamTarget(cfg.upstreams[k].host));
      }
    }
    return None;
  }

  method ValidateHostPatterns(cfg: ServerConfig) returns (r: Option<ConfigError>)
    ensures r.None? <==> (forall h :: h in cfg.hostnames ==> GoodHostname(h))
                         && (forall u :: u in cfg.upstreams ==> GoodPattern(u.host))
    ensures r.Some? ==> Justified(cfg, r.value) && r.value.HostPattern?
  {
    for k := 0 to |cfg.hostnames|
      invariant forall h :: h in cfg.hostnames[..k] ==> GoodHostname(h)
    {
      if !GoodHostname(cfg.hostnames[k]) {
        return Some(HostPattern(cfg.hostnames[k].host));
      }
    }
    for k := 0 to |cfg.upstreams|
      invariant forall u :: u in cfg.upstreams[..k] ==> GoodPattern(u.host)
    {
      if !GoodPattern(cfg.upstreams[k].host) {
        return Some(HostPattern(cfg.upstreams[k].host));
      }
    }
    return None;
  }

  method ValidateHostCerts(cfg: ServerConfig) returns (r: Option<ConfigError>)
    ensures r.None? <==> forall e :: e in Entries(cfg) ==> CertPaired(e) && CertUsable(e)
    ensures r.Some? ==> Justified(cfg, r.value) && (r.value.HostCertPair? || r.value.HostCertPassthrough?)
  {
    var es := Entries(cfg);
    for k := 0 to |es|
      invariant forall e :: e in es[..k] ==> CertPaired(e) && CertUsable(e)
    {
      if !CertPaired(es[k]) {
        return Some(HostCertPair(es[k].host));
      }
      if !CertUsable(es[k]) {
        return Some(HostCertPassthrough(es[k].host));
      }
    }
    return None;
  }

  method ValidateClients(cfg: ServerConfig) returns (r: Option<ConfigError>)
    ensures r.None? <==> forall h :: h in cfg.hostnames ==> KnownClient(cfg, h)
    ensures r.Some? ==> Justified(cfg, r.value) && r.value.UnknownClient?
  {
    for k := 0 to |cfg.hostnames|
      invariant forall h :: h in cfg.hostnames[..k] ==> KnownClient(cfg, h)
    {
      var h := cfg.hostnames[k];
      if !KnownClient(cfg, h) {
        return Some(UnknownClient(h.host, h.client));
      }
    }
    return None;
  }

  /** Accepts exactly the valid configurations; an error names a defect that is
      there, the first in the order of the checks. */
  method Validate(cfg: ServerConfig) returns (r: Option<ConfigError>)
    ensures r.None? <==> Valid(cfg)
    ensures r.Some? ==> Justified(cfg, r.value) && EarlierPass(cfg, r.value)
  {
    if cfg.clients == [] && cfg.upstreams == [] {
      return Some(NoClients);
    }
    var client := FirstDuplicate(ClientNames(cfg.clients));
    if client.Some? {
      return Some(DuplicateClient(client.value));
    }
    // hostnames, then upstreams, share one namespace
    var host := FirstDuplicate(EntryHosts(Entries(cfg)));
    if host.Some? {
      return Some(DuplicateHost(host.value));
    }
    r := ValidateUpstreamTargets(cfg);
    if r.Some? { return; }
    r := ValidateHostPatterns(cfg);
    if r.Some? { return; }
    r := ValidateHostCerts(cfg);
    if r.Some? { return; }
    r := ValidateClients(cfg);
    if r.Some? { return; }
    if cfg.acmeContact.Some? && !("mailto:" <= cfg.acmeContact.value) {
      return Some(AcmeContact(cfg.acmeContact.value));
    }
    return None;
  }
}
