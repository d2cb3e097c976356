/** What a routing backend grants to a client, and the config-backed backend. */
module Backend {
  import opened Prelude
  import opened Config

  datatype GrantedHost = GrantedHost(host: string, mode: TlsMode)

  datatype Grant = Grant(client: string, balance: Balance, hosts: seq<GrantedHost>)

  function HostSet(hosts: seq<GrantedHost>): set<string> {
    set g | g in hosts :: g.host
  }

  /** The hostnames of one client, in config order. */
  function HostsOfClient(hostnames: seq<HostnameEntry>, client: string): (r: seq<GrantedHost>)
    ensures forall g :: g in r <==>
              exists e :: e in hostnames && e.client == client && g == GrantedHost(e.host, e.mode)
  {
    if hostnames == [] then []
    else
      var e := hostnames[0];
      var rest := HostsOfClient(hostnames[1..], client);
      assert hostnames == [e] + hostnames[1..];
      if e.client == client then [GrantedHost(e.host, e.mode)] + rest else rest
  }

  lemma HostsOfClientOne(h: HostnameEntry, client: string)
    ensures HostsOfClient([h], client) == if h.client == client then [GrantedHost(h.host, h.mode)] else []
  {
    assert HostsOfClient([h][1..], client) == [];
  }

  /** The hostnames keep the order of the config. */
  lemma {:induction false} HostsOfClientConcat(a: seq<HostnameEntry>, b: seq<HostnameEntry>, client: string)
    ensures HostsOfClient(a + b, client) == HostsOfClient(a, client) + HostsOfClient(b, client)
  {
    if a == [] {
      assert a + b == b;
    } else {
      assert (a + b)[1..] == a[1..] + b;
      HostsOfClientConcat(a[1..], b, client);
    }
  }

  /** The name, the balance and the hostnames that the config has for the client. */
  predicate IsGrantOf(cfg: ServerConfig, c: ClientEntry, g: Grant) {
    g.client == c.name && g.balance == c.balance && g.hosts == HostsOfClient(cfg.hostnames, c.name)
  }

  function GrantOf(cfg: ServerConfig, c: ClientEntry): Grant {
    Grant(c.name, c.balance, HostsOfClient(cfg.hostnames, c.name))
  }

  ghost predicate LastWithToken(clients: seq<ClientEntry>, token: Token, k: int) {
    && 0 <= k < |clients|
    && clients[k].token == token
    && forall j :: k < j < |clients| ==> clients[j].token != token
  }

  /** Nothing keeps two clients from sharing a token; only the last can be admitted. */
  ghost predicate Admissible(clients: seq<ClientEntry>, k: int) {
    0 <= k < |clients| && LastWithToken(clients, clients[k].token, k)
  }

  ghost predicate CanConnect(cfg: ServerConfig, client: string) {
    exists k :: Admissible(cfg.clients, k) && cfg.clients[k].name == client
  }

  /** The grant comes from some client entry of the config that can be admitted. */
  ghost predicate IsStaticGrant(cfg: ServerConfig, g: Grant) {
    exists k :: Admissible(cfg.clients, k) && g == GrantOf(cfg, cfg.clients[k])
  }

  /** The client entries are all compared; the last match wins. */
  method Admit(cfg: ServerConfig, token: Token) returns (grant: Option<Grant>)
    ensures grant.None? <==> forall c :: c in cfg.clients ==> c.token != token
    ensures grant.Some? ==> exists k :: LastWithToken(cfg.clients, token, k) && IsGrantOf(cfg, cfg.clients[k], grant.value)
    ensures forall g :: StaticallyAdmits(cfg, token, Some(g)) <==> grant == Some(g)
  {
    var matched: Option<ClientEntry> := None;
    ghost var at := -1;
    for k := 0 to |cfg.clients|
      invariant matched.None? ==> forall j :: 0 <= j < k ==> cfg.clients[j].token != token
      invariant matched.Some? ==> LastWithToken(cfg.clients[..k], token, at) && matched.value == cfg.clients[at]
    {
      if cfg.clients[k].token == token {
        matched := Some(cfg.clients[k]);
        at := k;
      }
    }
    assert cfg.clients[..|cfg.clients|] == cfg.clients;
    if matched.None? {
      return None;
    }
    var hosts: seq<GrantedHost> := [];
    for k := 0 to |cfg.hostnames|
      invariant hosts == HostsOfClient(cfg.hostnames[..k], matched.value.name)
    {
      var h := cfg.hostnames[k];
      assert cfg.hostnames[..k + 1] == cfg.hostnames[..k] + [h];
      HostsOfClientConcat(cfg.hostnames[..k], [h], matched.value.name);
      HostsOfClientOne(h, matched.value.name);
      if h.client == matched.value.name {
        hosts := hosts + [GrantedHost(h.host, h.mode)];
      }
    }
    assert cfg.hostnames[..|cfg.hostnames|] == cfg.hostnames;
    assert LastWithToken(cfg.clients, token, at);
    return Some(Grant(matched.value.name, matched.value.balance, hosts));
  }

  /** What the static backend may answer to a token. */
  ghost predicate StaticallyAdmits(cfg: ServerConfig, token: Token, grant: Option<Grant>) {
    match grant
    case None => forall c :: c in cfg.clients ==> c.token != token
    case Some(g) => exists k :: LastWithToken(cfg.clients, token, k) && g == GrantOf(cfg, cfg.clients[k])
  }

  lemma AdmittedIsStaticGrant(cfg: ServerConfig, token: Token, g: Grant)
    requires StaticallyAdmits(cfg, token, Some(g))
    ensures IsStaticGrant(cfg, g)
  {
    var k :| LastWithToken(cfg.clients, token, k) && g == GrantOf(cfg, cfg.clients[k]);
    assert Admissible(cfg.clients, k);
  }

  lemma StaticGrantHasClient(cfg: ServerConfig, g: Grant) returns (c: ClientEntry)
    requires IsStaticGrant(cfg, g)
    ensures c in cfg.clients && g == GrantOf(cfg, c) && CanConnect(cfg, c.name)
  {
    var k :| Admissible(cfg.clients, k) && g == GrantOf(cfg, cfg.clients[k]);
    c := cfg.clients[k];
  }

  lemma SameHostSameEntry(cfg: ServerConfig, d: HostnameEntry, e: HostnameEntry)
    requires Valid(cfg)
    requires d in cfg.hostnames && e in cfg.hostnames && d.host == e.host
    ensures d == e
  {
    var i :| 0 <= i < |cfg.hostnames| && cfg.hostnames[i] == d;
    var j :| 0 <= j < |cfg.hostnames| && cfg.hostnames[j] == e;
    var hosts := EntryHosts(Entries(cfg));
    assert hosts[i] == d.host && hosts[j] == e.host;
  }

  lemma SameNameSameClient(cfg: ServerConfig, c: ClientEntry, d: ClientEntry)
    requires Valid(cfg)
    requires c in cfg.clients && d in cfg.clients && c.name == d.name
    ensures c == d
  {
    var i :| 0 <= i < |cfg.clients| && cfg.clients[i] == c;
    var j :| 0 <= j < |cfg.clients| && cfg.clients[j] == d;
    var names := ClientNames(cfg.clients);
    assert names[i] == c.name && names[j] == d.name;
  }

  /** A granted host is a hostname entry of the granted client, with its mode. */
  lemma GrantedHostHasEntry(cfg: ServerConfig, g: Grant, h: GrantedHost) returns (e: HostnameEntry)
    requires IsStaticGrant(cfg, g) && h in g.hosts
    ensures e in cfg.hostnames && e.host == h.host && e.mode == h.mode && e.client == g.client
    ensures CanConnect(cfg, e.client)
  {
    var c := StaticGrantHasClient(cfg, g);
    e :| e in cfg.hostnames && e.client == c.name && h == GrantedHost(e.host, e.mode);
  }

  /** In a valid config one host belongs to one grant: two static grants that
      share a host are the same grant, so they also agree on the balance. */
  lemma OneGrantPerHost(cfg: ServerConfig, a: Grant, b: Grant, host: string)
    requires Valid(cfg) && IsStaticGrant(cfg, a) && IsStaticGrant(cfg, b)
    requires host in HostSet(a.hosts) && host in HostSet(b.hosts)
    ensures a == b
  {
    var x :| x in a.hosts && x.host == host;
    var y :| y in b.hosts && y.host == host;
    var d := GrantedHostHasEntry(cfg, a, x);
    var e := GrantedHostHasEntry(cfg, b, y);
    SameHostSameEntry(cfg, d, e);
    var c := StaticGrantHasClient(cfg, a);
    var c' := StaticGrantHasClient(cfg, b);
    SameNameSameClient(cfg, c, c');
  }
}
