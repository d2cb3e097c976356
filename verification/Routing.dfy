/** The run-time routing table: which connections serve which hostname.
    The functions say what each locked operation does to the map; the class
    `RoutingTable` carries the operations out in place. */
module Routing {
  import opened Prelude
  import opened Config
  import opened Backend

  /** The stable id of a tunnel connection. */
  type ConnId = nat

  /** The number of values of the cursor, a 64-bit `AtomicUsize`. */
  const USIZE: nat := 0x1_0000_0000_0000_0000

  type Cursor = c: nat | c < USIZE

  datatype HostRoutes = HostRoutes(client: string, mode: TlsMode, conns: seq<ConnId>, cursor: Cursor)

  type Table = map<string, HostRoutes>

  predicate Lists(t: Table, host: string, id: ConnId) {
    host in t && id in t[host].conns
  }

  /** No empty host and no connection twice under one host. */
  ghost predicate WellFormed(t: Table) {
    forall h :: h in t ==> t[h].conns != [] && Distinct(t[h].conns)
  }

  /** Every host that lists `id` belongs to `client`. */
  ghost predicate OnlyUnder(t: Table, id: ConnId, client: string) {
    forall h :: Lists(t, h, id) ==> t[h].client == client
  }

  datatype EntryInstalled = EntryInstalled(entry: HostRoutes, displaced: seq<ConnId>)

  /** One host of a grant: take over from another client, then apply the balance. */
  function InstallEntry(
    entry: HostRoutes, mode: TlsMode, client: string, balance: Balance, id: ConnId): EntryInstalled
  {
    var evicted := if entry.client != client then entry.conns else [];
    var kept := if entry.client != client then [] else entry.conns;
    match balance
    case LastWriteWins =>
      EntryInstalled(HostRoutes(client, mode, [id], entry.cursor), evicted + Without(kept, id))
    case RoundRobin =>
      EntryInstalled(
        HostRoutes(client, mode, if id in kept then kept else kept + [id], entry.cursor), evicted)
  }

  function EntryOf(t: Table, g: GrantedHost, client: string): HostRoutes {
    if g.host in t then t[g.host] else HostRoutes(client, g.mode, [], 0)
  }

  datatype Installed = Installed(table: Table, displaced: seq<ConnId>)

  function InstallOne(t: Table, g: GrantedHost, client: string, balance: Balance, id: ConnId): Installed {
    var e := InstallEntry(EntryOf(t, g, client), g.mode, client, balance, id);
    Installed(t[g.host := e.entry], e.displaced)
  }

  function Install(t: Table, hosts: seq<GrantedHost>, client: string, balance: Balance, id: ConnId): Installed {
    if hosts == [] then Installed(t, [])
    else
      var before := Install(t, hosts[..|hosts| - 1], client, balance, id);
      var last := InstallOne(before.table, hosts[|hosts| - 1], client, balance, id);
      Installed(last.table, before.displaced + last.displaced)
  }

  function RemoveConn(t: Table, id: ConnId): Table {
    map h | h in t && Without(t[h].conns, id) != [] :: t[h].(conns := Without(t[h].conns, id))
  }

  function Kick(t: Table, client: string): Table {
    map h | h in t && t[h].client != client :: t[h]
  }

  /** The connections listed under the hosts of `client`. */
  function ConnsOf(t: Table, client: string): set<ConnId> {
    set h, c | h in t && t[h].client == client && c in t[h].conns :: c
  }

  /** The hosts that list `id`. */
  function HostsListing(t: Table, id: ConnId): set<string> {
    set h | h in t && id in t[h].conns
  }

  // ---------------------------------------------------------------- install

  function Count(s: seq<ConnId>, c: ConnId): nat {
    multiset(s)[c]
  }

  /** Every connection but the new one stays once or is displaced once. */
  lemma EntryCounts(entry: HostRoutes, mode: TlsMode, client: string, balance: Balance, id: ConnId, c: ConnId)
    requires Distinct(entry.conns) && c != id
    ensures var r := InstallEntry(entry, mode, client, balance, id);
            Count(entry.conns, c) == Count(r.entry.conns, c) + Count(r.displaced, c)
  {
    var kept := if entry.client != client then [] else entry.conns;
    WithoutCount(kept, id, c);
  }

  lemma EntryKeepsForm(entry: HostRoutes, mode: TlsMode, client: string, balance: Balance, id: ConnId)
    requires Distinct(entry.conns)
    requires id in entry.conns ==> entry.client == client
    ensures var r := InstallEntry(entry, mode, client, balance, id);
            id in r.entry.conns && Distinct(r.entry.conns) && id !in r.displaced
  {
  }

  lemma ListingSplit(t: Table, h: string, c: ConnId)
    requires h in t ==> Distinct(t[h].conns)
    ensures |HostsListing(t, c)|
            == |HostsListing(t, c) - {h}| + if h in t then Count(t[h].conns, c) else 0
  {
    if h in t {
      DistinctCount(t[h].conns, c);
    }
  }

  lemma ListingUpdate(t: Table, h: string, e: HostRoutes, c: ConnId)
    requires Distinct(e.conns) && (h in t ==> Distinct(t[h].conns))
    ensures |HostsListing(t[h := e], c)| + (if h in t then Count(t[h].conns, c) else 0)
            == |HostsListing(t, c)| + Count(e.conns, c)
  {
    ListingSplit(t, h, c);
    ListingSplit(t[h := e], h, c);
    assert HostsListing(t[h := e], c) - {h} == HostsListing(t, c) - {h};
  }

  /** What leaves the host lists comes back in the displaced list, one for one. */
  ghost predicate Conserves(t: Table, r: Installed, id: ConnId) {
    forall c :: c != id ==> |HostsListing(t, c)| == |HostsListing(r.table, c)| + Count(r.displaced, c)
  }

  lemma InstallOneConserves(t: Table, g: GrantedHost, client: string, balance: Balance, id: ConnId)
    requires WellFormed(t) && OnlyUnder(t, id, client)
    ensures Conserves(t, InstallOne(t, g, client, balance, id), id)
  {
    var entry := EntryOf(t, g, client);
    assert g.host in t ==> Lists(t, g.host, id) ==> t[g.host].client == client;
    EntryKeepsForm(entry, g.mode, client, balance, id);
    var e := InstallEntry(entry, g.mode, client, balance, id);
    forall c | c != id
      ensures |HostsListing(t, c)| == |HostsListing(t[g.host := e.entry], c)| + Count(e.displaced, c)
    {
      EntryCounts(entry, g.mode, client, balance, id, c);
      ListingUpdate(t, g.host, e.entry, c);
    }
  }

  lemma InstallOneKeepsForm(t: Table, g: GrantedHost, client: string, balance: Balance, id: ConnId)
    requires WellFormed(t) && OnlyUnder(t, id, client)
    ensures var r := InstallOne(t, g, client, balance, id);
            && WellFormed(r.table) && OnlyUnder(r.table, id, client)
            && id !in r.displaced && Lists(r.table, g.host, id)
            && (forall h :: Lists(t, h, id) ==> Lists(r.table, h, id))
  {
    assert g.host in t ==> Lists(t, g.host, id) ==> t[g.host].client == client;
    EntryKeepsForm(EntryOf(t, g, client), g.mode, client, balance, id);
    var r := InstallOne(t, g, client, balance, id);
    forall h | Lists(r.table, h, id) ensures r.table[h].client == client {
      assert h != g.host ==> Lists(t, h, id);
    }
  }

  lemma {:induction false} InstallKeepsForm(
    t: Table, hosts: seq<GrantedHost>, client: string, balance: Balance, id: ConnId)
    requires WellFormed(t) && OnlyUnder(t, id, client)
    ensures var r := Install(t, hosts, client, balance, id);
            WellFormed(r.table) && OnlyUnder(r.table, id, client) && id !in r.displaced
  {
    if hosts != [] {
      var init, g := hosts[..|hosts| - 1], hosts[|hosts| - 1];
      InstallKeepsForm(t, init, client, balance, id);
      InstallOneKeepsForm(Install(t, init, client, balance, id).table, g, client, balance, id);
    }
  }

  /** The new connection ends up under every granted host. */
  lemma {:induction false} InstallListsNew(
    t: Table, hosts: seq<GrantedHost>, client: string, balance: Balance, id: ConnId, h: string)
    requires WellFormed(t) && OnlyUnder(t, id, client) && h in HostSet(hosts)
    ensures Lists(Install(t, hosts, client, balance, id).table, h, id)
  {
    var init, g := hosts[..|hosts| - 1], hosts[|hosts| - 1];
    assert hosts == init + [g];
    InstallKeepsForm(t, init, client, balance, id);
    InstallOneKeepsForm(Install(t, init, client, balance, id).table, g, client, balance, id);
    if h != g.host {
      InstallListsNew(t, init, client, balance, id, h);
    }
  }

  /** Conservation, for any grant list with any repetition of hosts. */
  lemma {:induction false} InstallConserves(
    t: Table, hosts: seq<GrantedHost>, client: string, balance: Balance, id: ConnId)
    requires WellFormed(t) && OnlyUnder(t, id, client)
    ensures Conserves(t, Install(t, hosts, client, balance, id), id)
  {
    if hosts != [] {
      var init, g := hosts[..|hosts| - 1], hosts[|hosts| - 1];
      InstallConserves(t, init, client, balance, id);
      InstallKeepsForm(t, init, client, balance, id);
      var before := Install(t, init, client, balance, id);
      InstallOneConserves(before.table, g, client, balance, id);
    }
  }

  // ------------------------------------- what install does, host by host

  /** Hosts that are not granted are untouched. */
  ghost predicate KeepsOthers(t: Table, hosts: set<string>, t': Table) {
    forall h :: h !in hosts ==> (h in t' <==> h in t) && (h in t ==> t'[h] == t[h])
  }

  /** A granted host belongs to the client, and lists the new connection besides
      connections it already listed for the same client. */
  ghost predicate BelongsTo(t: Table, h: string, client: string, id: ConnId, t': Table) {
    && h in t' && t'[h].client == client
    && forall c :: c in t'[h].conns ==> c == id || (Lists(t, h, c) && t[h].client == client)
  }

  /** Whatever was listed is still listed or displaced. */
  ghost predicate Accounted(t: Table, r: Installed) {
    forall h, c :: Lists(t, h, c) ==> Lists(r.table, h, c) || c in r.displaced
  }

  lemma {:induction false} InstallKeepsOthers(
    t: Table, hosts: seq<GrantedHost>, client: string, balance: Balance, id: ConnId)
    ensures KeepsOthers(t, HostSet(hosts), Install(t, hosts, client, balance, id).table)
  {
    if hosts != [] {
      var init, g := hosts[..|hosts| - 1], hosts[|hosts| - 1];
      InstallKeepsOthers(t, init, client, balance, id);
      assert hosts == init + [g];
      assert HostSet(hosts) == HostSet(init) + {g.host};
    }
  }

  lemma InstallOneBelongs(t: Table, g: GrantedHost, client: string, balance: Balance, id: ConnId)
    ensures BelongsTo(t, g.host, client, id, InstallOne(t, g, client, balance, id).table)
  {
  }

  lemma {:induction false} InstallBelongs(
    t: Table, hosts: seq<GrantedHost>, client: string, balance: Balance, id: ConnId, h: string)
    requires h in HostSet(hosts)
    ensures BelongsTo(t, h, client, id, Install(t, hosts, client, balance, id).table)
  {
    var init, g := hosts[..|hosts| - 1], hosts[|hosts| - 1];
    assert hosts == init + [g];
    assert HostSet(hosts) == HostSet(init) + {g.host};
    var before := Install(t, init, client, balance, id);
    if h in HostSet(init) {
      InstallBelongs(t, init, client, balance, id, h);
    } else {
      InstallKeepsOthers(t, init, client, balance, id);
    }
    if h == g.host {
      InstallOneBelongs(before.table, g, client, balance, id);
    }
  }

  lemma InstallShape(t: Table, hosts: seq<GrantedHost>, client: string, balance: Balance, id: ConnId)
    ensures var r := Install(t, hosts, client, balance, id);
            && KeepsOthers(t, HostSet(hosts), r.table)
            && (forall h :: h in HostSet(hosts) ==> BelongsTo(t, h, client, id, r.table))
  {
    InstallKeepsOthers(t, hosts, client, balance, id);
    forall h | h in HostSet(hosts)
      ensures BelongsTo(t, h, client, id, Install(t, hosts, client, balance, id).table)
    {
      InstallBelongs(t, hosts, client, balance, id, h);
    }
  }

  lemma InstallOneAccounts(t: Table, g: GrantedHost, client: string, balance: Balance, id: ConnId)
    ensures Accounted(t, InstallOne(t, g, client, balance, id))
    ensures forall c :: c in InstallOne(t, g, client, balance, id).displaced ==> Lists(t, g.host, c)
  {
  }

  /** Every displaced connection was listed under a granted host, or is the new one. */
  ghost predicate FromGranted(t: Table, hosts: set<string>, c: ConnId) {
    exists h :: h in hosts && Lists(t, h, c)
  }

  lemma {:induction false} InstallAccounts(
    t: Table, hosts: seq<GrantedHost>, client: string, balance: Balance, id: ConnId)
    ensures var r := Install(t, hosts, client, balance, id);
            && Accounted(t, r)
            && (forall c :: c in r.displaced ==> c == id || FromGranted(t, HostSet(hosts), c))
  {
    if hosts != [] {
      var init, g := hosts[..|hosts| - 1], hosts[|hosts| - 1];
      InstallAccounts(t, init, client, balance, id);
      InstallShape(t, init, client, balance, id);
      assert hosts == init + [g];
      assert HostSet(hosts) == HostSet(init) + {g.host};
      var before := Install(t, init, client, balance, id);
      InstallOneAccounts(before.table, g, client, balance, id);
      var last := InstallOne(before.table, g, client, balance, id);
      forall c | c in last.displaced ensures c == id || FromGranted(t, HostSet(hosts), c) {
        assert g.host in HostSet(init) ==> BelongsTo(t, g.host, client, id, before.table);
        assert c == id || Lists(t, g.host, c);
      }
      forall c | c in before.displaced ensures c == id || FromGranted(t, HostSet(hosts), c) {
      }
    }
  }

  /** The mode a grant gives to a host: a later mention of the host wins. */
  function LastMode(hosts: seq<GrantedHost>, h: string): TlsMode
    requires h in HostSet(hosts)
  {
    var g := hosts[|hosts| - 1];
    assert hosts == hosts[..|hosts| - 1] + [g];
    if g.host == h then g.mode else LastMode(hosts[..|hosts| - 1], h)
  }

  lemma {:induction false} InstallSetsMode(
    t: Table, hosts: seq<GrantedHost>, client: string, balance: Balance, id: ConnId, h: string)
    requires h in HostSet(hosts)
    ensures var r := Install(t, hosts, client, balance, id);
            h in r.table && r.table[h].mode == LastMode(hosts, h)
  {
    var init, g := hosts[..|hosts| - 1], hosts[|hosts| - 1];
    assert hosts == init + [g];
    if g.host != h {
      InstallSetsMode(t, init, client, balance, id, h);
    }
  }

  /** The cursor of a host survives an install; a new host starts at zero. */
  lemma {:induction false} InstallKeepsCursor(
    t: Table, hosts: seq<GrantedHost>, client: string, balance: Balance, id: ConnId, h: string)
    requires h in HostSet(hosts) || h in t
    ensures var r := Install(t, hosts, client, balance, id);
            h in r.table && r.table[h].cursor == if h in t then t[h].cursor else 0
  {
    if hosts != [] {
      var init, g := hosts[..|hosts| - 1], hosts[|hosts| - 1];
      assert hosts == init + [g];
      if h in HostSet(init) || h in t {
        InstallKeepsCursor(t, init, client, balance, id, h);
      } else {
        InstallKeepsOthers(t, init, client, balance, id);
      }
    }
  }

  /** Under last-write-wins a granted host lists the new connection alone. */
  lemma {:induction false} InstallLastWriteWins(
    t: Table, hosts: seq<GrantedHost>, client: string, id: ConnId, h: string)
    requires h in HostSet(hosts)
    ensures var r := Install(t, hosts, client, LastWriteWins, id);
            h in r.table && r.table[h].conns == [id]
  {
    var init, g := hosts[..|hosts| - 1], hosts[|hosts| - 1];
    assert hosts == init + [g];
    if g.host != h {
      InstallLastWriteWins(t, init, client, id, h);
    }
  }

  /** The connections of a host for `client`, in the order they came. */
  function Own(t: Table, h: string, client: string): seq<ConnId> {
    if h in t && t[h].client == client then t[h].conns else []
  }

  function Joined(own: seq<ConnId>, id: ConnId): seq<ConnId> {
    if id in own then own else own + [id]
  }

  lemma InstallOneRoundRobin(t: Table, g: GrantedHost, client: string, id: ConnId)
    ensures var r := InstallOne(t, g, client, RoundRobin, id).table;
            g.host in r && r[g.host].client == client && r[g.host].conns == Joined(Own(t, g.host, client), id)
  {
  }

  /** Under round-robin a granted host keeps all the connections it had for the
      client, in order, and the new one joins at the end if it was not there. */
  lemma {:induction false} InstallRoundRobin(
    t: Table, hosts: seq<GrantedHost>, client: string, id: ConnId, h: string)
    requires h in HostSet(hosts)
    ensures var r := Install(t, hosts, client, RoundRobin, id).table;
            h in r && r[h].client == client && r[h].conns == Joined(Own(t, h, client), id)
  {
    var init, g := hosts[..|hosts| - 1], hosts[|hosts| - 1];
    assert hosts == init + [g];
    var before := Install(t, init, client, RoundRobin, id).table;
    if h in HostSet(init) {
      InstallRoundRobin(t, init, client, id, h);
      assert Own(before, h, client) == Joined(Own(t, h, client), id);
    } else {
      InstallKeepsOthers(t, init, client, RoundRobin, id);
      assert Own(before, h, client) == Own(t, h, client);
    }
    var after := Install(t, hosts, client, RoundRobin, id).table;
    assert after == InstallOne(before, g, client, RoundRobin, id).table;
    if h == g.host {
      InstallOneRoundRobin(before, g, client, id);
    } else {
      assert h in before && after[h] == before[h];
    }
  }

  /** Some host of the grant is held by another client when install reaches it:
      the "hostname reassigned" branch is taken. */
  ghost predicate Reassigns(t: Table, hosts: seq<GrantedHost>, client: string, balance: Balance, id: ConnId) {
    exists k :: 0 <= k < |hosts| &&
                ReassignsAt(Install(t, hosts[..k], client, balance, id).table, hosts[k].host, client)
  }

  predicate ReassignsAt(t: Table, h: string, client: string) {
    h in t && t[h].client != client
  }

  /** Reassignment can be read off the table before the install. */
  lemma ReassignsFromStart(t: Table, hosts: seq<GrantedHost>, client: string, balance: Balance, id: ConnId)
    ensures Reassigns(t, hosts, client, balance, id)
            <==> exists h :: h in HostSet(hosts) && ReassignsAt(t, h, client)
  {
    if Reassigns(t, hosts, client, balance, id) {
      var k :| 0 <= k < |hosts| &&
               ReassignsAt(Install(t, hosts[..k], client, balance, id).table, hosts[k].host, client);
      InstallShape(t, hosts[..k], client, balance, id);
      assert hosts[k].host in HostSet(hosts) && ReassignsAt(t, hosts[k].host, client);
    }
    if exists h :: h in HostSet(hosts) && ReassignsAt(t, h, client) {
      var h :| h in HostSet(hosts) && ReassignsAt(t, h, client);
      var k := FirstMention(hosts, h);
      InstallShape(t, hosts[..k], client, balance, id);
      assert ReassignsAt(Install(t, hosts[..k], client, balance, id).table, hosts[k].host, client);
    }
  }

  lemma {:induction false} OwnHostsDisplaceNone(t: Table, hosts: seq<GrantedHost>, client: string, id: ConnId)
    requires forall h :: h in HostSet(hosts) ==> !ReassignsAt(t, h, client)
    ensures Install(t, hosts, client, RoundRobin, id).displaced == []
  {
    if hosts != [] {
      var init, g := hosts[..|hosts| - 1], hosts[|hosts| - 1];
      assert hosts == init + [g];
      assert HostSet(hosts) == HostSet(init) + {g.host};
      OwnHostsDisplaceNone(t, init, client, id);
      InstallShape(t, init, client, RoundRobin, id);
      var before := Install(t, init, client, RoundRobin, id).table;
      assert g.host in HostSet(init) ==> BelongsTo(t, g.host, client, id, before);
    }
  }

  /** Under round-robin nothing is displaced exactly when no granted host is held
      by another client. */
  lemma RoundRobinDisplacesExactly(t: Table, hosts: seq<GrantedHost>, client: string, id: ConnId)
    requires WellFormed(t) && OnlyUnder(t, id, client)
    ensures Install(t, hosts, client, RoundRobin, id).displaced == []
            <==> forall h :: h in HostSet(hosts) ==> !ReassignsAt(t, h, client)
  {
    var r := Install(t, hosts, client, RoundRobin, id);
    if forall h :: h in HostSet(hosts) ==> !ReassignsAt(t, h, client) {
      OwnHostsDisplaceNone(t, hosts, client, id);
    }
    InstallShape(t, hosts, client, RoundRobin, id);
    InstallAccounts(t, hosts, client, RoundRobin, id);
    forall h | h in HostSet(hosts) && ReassignsAt(t, h, client) ensures r.displaced != [] {
      var c := t[h].conns[0];
      assert Lists(t, h, c) && BelongsTo(t, h, client, id, r.table);
    }
  }

  /** The failing case: a round-robin grant to client `b` for a host that client
      `a` serves displaces the connection of `a`. */
  lemma RoundRobinTakeoverDisplaces()
    ensures var t := map["a.x" := HostRoutes("a", Terminated, [1], 0)];
            && WellFormed(t) && OnlyUnder(t, 2, "b")
            && Install(t, [GrantedHost("a.x", Terminated)], "b", RoundRobin, 2).displaced == [1]
  {
    var t := map["a.x" := HostRoutes("a", Terminated, [1], 0)];
    var hosts := [GrantedHost("a.x", Terminated)];
    assert hosts[..0] == [];
    assert "a"[0] != "b"[0];
    assert Install(t, hosts[..0], "b", RoundRobin, 2) == Installed(t, []);
  }

  lemma {:induction false} FirstMention(hosts: seq<GrantedHost>, h: string) returns (k: nat)
    requires h in HostSet(hosts)
    ensures k < |hosts| && hosts[k].host == h && h !in HostSet(hosts[..k])
  {
    var init := hosts[..|hosts| - 1];
    assert hosts == init + [hosts[|hosts| - 1]];
    if h in HostSet(init) {
      k := FirstMention(init, h);
      assert hosts[..k] == init[..k];
    } else {
      k := |hosts| - 1;
    }
  }

  // --------------------------------------------------------- remove and kick

  lemma RemoveConnEffect(t: Table, id: ConnId)
    ensures forall h, c :: Lists(RemoveConn(t, id), h, c) <==> Lists(t, h, c) && c != id
    ensures WellFormed(t) ==> WellFormed(RemoveConn(t, id)) && KeepsOthers(t, HostsListing(t, id), RemoveConn(t, id))
  {
    forall h | h in t && !Lists(t, h, id) ensures Without(t[h].conns, id) == t[h].conns {
      WithoutAbsent(t[h].conns, id);
    }
    forall h, c | Lists(t, h, c) && c != id ensures Lists(RemoveConn(t, id), h, c) {
      assert c in Without(t[h].conns, id);
    }
    if WellFormed(t) {
      forall h | h in RemoveConn(t, id) ensures Distinct(RemoveConn(t, id)[h].conns) {
        WithoutDistinct(t[h].conns, id);
      }
    }
  }

  /** A host loses the connection and nothing else: the others stay in order, with
      client, mode and cursor; a host that had no other goes. */
  lemma RemoveConnKeepsOrder(t: Table, id: ConnId, h: string, a: seq<ConnId>, b: seq<ConnId>)
    requires h in t && t[h].conns == a + [id] + b && id !in a && id !in b
    ensures if a + b == [] then h !in RemoveConn(t, id)
            else h in RemoveConn(t, id) && RemoveConn(t, id)[h] == t[h].(conns := a + b)
  {
    WithoutConcat(a + [id], b, id);
    WithoutConcat(a, [id], id);
    WithoutAbsent(a, id);
    WithoutAbsent(b, id);
    var one: seq<ConnId> := [id];
    assert one[..0] == [] && Without(one, id) == [];
  }

  /** A kick drops the hosts of the client and touches no other. */
  lemma KickSparesOthers(t: Table, client: string)
    ensures forall h :: h in Kick(t, client) ==> t[h].client != client
    ensures KeepsOthers(t, (set h | h in t && t[h].client == client), Kick(t, client))
  {
  }

  /** The part of a table outside `todo`. */
  function Outside(t: Table, todo: set<string>): Table {
    map h | h in t && h !in todo :: t[h]
  }

  lemma RemoveConnGrows(t: Table, todo: set<string>, h: string, id: ConnId)
    requires h in todo && todo <= t.Keys
    ensures var before, conns := RemoveConn(Outside(t, todo), id), Without(t[h].conns, id);
            RemoveConn(Outside(t, todo - {h}), id) == if conns != [] then before[h := t[h].(conns := conns)] else before
  {
  }

  /** If no connection is listed under two clients, a kick returns all the
      connections it should close and leaves none of them in the table. */
  lemma KickLeavesNone(t: Table, client: string, c: ConnId)
    requires c in ConnsOf(t, client) && OnlyUnder(t, c, client)
    ensures forall h :: !Lists(Kick(t, client), h, c)
  {
    forall h | Lists(t, h, c) ensures h !in Kick(t, client) {
    }
  }
}
