# A verified model of the Tuyau tunnel server

Tuyau is a reverse tunnel. Clients open a QUIC connection to the server, present a token and are granted
hostnames; the server accepts public TLS connections, reads the server name (SNI) from the ClientHello and
sends the bytes to a tunnel or to a local upstream, decrypted or as they came. This project models the parts
of the server whose correctness is not plain from one function body, and proves properties of them in Dafny.
`dafny verify dfyconfig.toml` checks all of it.

- `Tunnels`, `TunnelSafety`: all connection handlers, revocations, peers that close, provisioning and public
  lookups as one state machine in which the steps of different tasks interleave freely. Each lock-held
  section is one step, and closing a displaced connection is a step of its own. The theorems hold in every
  state of every finite run, for any backend.
- `Protocol`: the same runs told by the steps each connection took: the scripts a handler can follow, the token and
  the grant behind every tunnel, who closes whom, and what is left of a connection at its end.
- `Reach`: explicit runs in which clients connect, used to show that failing cases are reached.
- `Revocation`, `LateInstall`: what a revocation closes, and what can happen between the check for a closed
  connection and its install.
- `StaticMode`: the same runs, provisioning and revocation included, when the backend is a validated config file.
- `Routing`, `Tables`, `ControlPlane`: the routing table and the registry. The functions in `Routing` and
  `Resolution` say what each operation does to the map; the classes carry the operations out in place with
  the loops of the source and are proved equal to these functions.
- `RoundRobin`, `Fairness`: the 64-bit wrapping cursor that skips closed connections, and how the lookups of the
  table and of whole runs share a host.
- `Hosts`, `Resolution`, `Modes`, `HostCerts`, `Dispatch`: which entry owns a host. The table, the listener and
  the certificate choice each answer this separately; the lemmas say exactly when they agree.
- `Config`, `Backend`: config validation and the config-backed backend.
- `Sni`, `Replay`: the ClientHello parser against a grammar, and the stream that gives the ClientHello back.
- `Frames`: the incremental frame decoder and the two one-frame readers (Rust and TypeScript).
- `Admission`: the global and the per-address connection caps.

## Where the code and its documentation differ

The model follows the code. Each difference has a concrete input and an exact condition.

- `lookup` is documented to return nothing only if every connection is closed. When the cursor wraps at 2^64
  inside the loop an open connection can be missed: `RoundRobin.WrapMissesAnOpenConnection`. The promise holds
  if and only if the wrap falls outside the loop or the number of connections divides 2^64
  (`RoundRobin.NoneMeansAllClosedExactly`); fairness across wraps has the condition of
  `RoundRobin.AlwaysFairExactly`.
- `install` is documented to displace nothing under round-robin. It does when the grant takes a host over from
  another client (`Routing.RoundRobinTakeoverDisplaces`), and only then (`Routing.RoundRobinDisplacesExactly`).
- Hostnames are documented as case-insensitive, but tunnel keys are compared as given
  (`StaticMode.MixedCaseLosesItsTunnel`, `Resolution.CaseMattersForTunnelsExactly`), and config entries are
  unique only with regard to case, so two entries can claim one host: a run of a valid config in which the
  listener terminates a passthrough host is `StaticMode.TwoSpellingsDisagree`, and the configs without such a
  run are those of `StaticMode.ModesAgreeExactly`.
- "Offload is a subset of terminated, and survives a replacement of the terminated set" fails if the new set
  leaves out a configured offload host (`Modes.SetTerminatedCanDropOffload`,
  `Modes.OffloadIsTerminatedExactly`).
- `select` is documented to give the certificate of the entry that routes the host. An entry without a
  certificate gets that of a matching wildcard (`HostCerts.WildcardCertFillsIn`), and `select` drops trailing
  dots where the routing does not (`HostCerts.TrailingDotKeepsCert`, `HostCerts.TrailingDotLosesRoute`). The
  exact condition, for every config and every host, routed or not, is that of
  `HostCerts.SelectFollowsRoutingExactly`.
- The data header is documented to carry the TLS mode the server applied. With a backend that grants a
  terminated host nobody provisioned it does not (`Dispatch.UnprovisionedGrantMisleads`). It does for all
  connections if and only if every host that its tunnels serve was granted with the mode the listener has for
  it (`Dispatch.HeadersAreRightExactly`).
- `kick` is documented to close all connected tunnels of a client. It misses a tunnel whose grant names no host
  (`Revocation.KickMissesATunnel`), and no other (`Revocation.KickClosesTunnelsExactly`).
- The check before an install is documented to keep a dead connection from being installed and from displacing
  a newer one. The install is a later step: a dead connection can evict a live one
  (`LateInstall.LateInstallEvicts`), exactly when its peer closes it between the two
  (`LateInstall.LateInstallExactly`).

## Model

| member | source | states |
|---|---|---|
| `TunnelSafety.StepKeeps` | crates/tuyau-server/src/server.rs:588-761 | Every step of every handler, and of peers, revocation, provisioning, shutdown and lookups, keeps the invariant: the table lists only admitted running connections, no live tunnel is forgotten, registry and event histories match the handlers |
| `TunnelSafety.RunKeeps` | crates/tuyau-server/src/server.rs:588-761 | The invariant holds in every state of every interleaved run, for any backend |
| `Protocol.ScriptsAreFollowed` | crates/tuyau-server/src/server.rs:588-761 | In every run the steps of each handler since its accept are one of the scripts of the protocol up to where the handler is, and it has ended exactly if the script is complete: hello before admission, check before install, install and closing before Welcome, Welcome before registration, removal before unregistration |
| `Protocol.ListedTunnelsWereGranted` | crates/tuyau-server/src/server.rs:619-644 | In every run a connection under a host presented a token in its hello for which the backend granted that host to the client of the entry |
| `Protocol.ListedTunnelsPresentedTheirToken` | crates/tuyau-server/src/backend.rs:47-70 | With a config file the token in that hello is the one of the client that has the host, the last entry with this token |
| `Protocol.RegisteredAsGranted` | crates/tuyau-server/src/server.rs:654-668 | A registered tunnel, and the Up it caused, has the client and the hostnames of its grant in order and the address it was accepted from |
| `Protocol.EndedHandlersEndWell` | crates/tuyau-server/src/server.rs:597-760 | A handler that has ended leaves its connection closed unless the stream failed, the peer ended it before a hello or the Welcome could not be sent; its events are the Up and Down of its grant if the tunnel was held, none otherwise |
| `Protocol.RefusedAreClosed` | crates/tuyau-server/src/server.rs:729-743 | A connection refused by the backend or for its hello is closed when its handler ends, until the id is reused |
| `Protocol.ClosedExactly` | crates/tuyau-server/src/server.rs:604-754 | A step closes a connection exactly if it is its peer, its own handler giving up on it, a revocation, or the handler of the connection that displaced it |
| `Protocol.CancelledExactly` | crates/tuyau-server/src/server.rs:307-312 | The server is shutting down exactly from the request on |
| `Protocol.ProvisionedHostsAreTerminated` | crates/tuyau-server/src/server.rs:297-305 | From a provisioning to the next one, in every run, exactly the provisioned names in every spelling and the hosts of terminating wildcard upstreams are terminated |
| `TunnelSafety.ListedConnectionsAreAdmitted` | crates/tuyau-server/src/server.rs:621-644 | In every run a host is never empty, lists no connection twice, and lists only connections with a running handler that was admitted under the client of the entry with a grant naming the host |
| `TunnelSafety.FinishedConnectionsAreGone` | crates/tuyau-server/src/server.rs:670-760 | A connection that is being rejected or whose handler has ended, on any path, is under no host and not in the registry |
| `TunnelSafety.WelcomedTunnelsAreServed` | crates/tuyau-server/src/server.rs:636-758 | From install to removal, so already when the Welcome goes out, a connection is listed under every host of its grant unless it is closed or some task holds it in order to close it |
| `TunnelSafety.LookupsFindAdmittedTunnels` | crates/tuyau-server/src/routes.rs:363-380 | A lookup in any state of any run that yields a tunnel yields an open connection of a running handler admitted under the reported client with a grant naming the host asked for |
| `TunnelSafety.UpstreamsAreNotTakenOver` | crates/tuyau-server/src/routes.rs:344-362 | Whatever any backend grants, a host with its own upstream in the config goes there in every state of every run |
| `TunnelSafety.OneClientPerConnection` | crates/tuyau-server/src/routes.rs:250-273 | A connection listed for one client is listed for no other client |
| `TunnelSafety.KickIsComplete` | crates/tuyau-server/src/server.rs:279-286 | Revoking a client in any state of any run takes each of its listed connections out of every host and hands it over to be closed |
| `Revocation.KickClosesTunnelsExactly` | crates/tuyau-server/src/server.rs:273-286 | In any state of any run a revocation closes a registered tunnel of the client, or hands it over to be closed, if and only if the tunnel serves some hostname or that had happened before |
| `Revocation.KickMissesATunnel` | crates/tuyau-server/src/server.rs:273-286 | With a valid config a run registers a tunnel of a client without hostnames, and a revocation of that client leaves the tunnel alone |
| `Revocation.KickSparesOtherTunnels` | crates/tuyau-server/src/routes.rs:311-328 | A revocation closes no registered tunnel of another client, in any state of any run, and leaves it under the same hosts |
| `Revocation.RunKeepsEnding` | crates/tuyau-server/src/server.rs:749-760 | In every run a connection whose tunnel is being taken down is closed |
| `LateInstall.LateInstallExactly` | crates/tuyau-server/src/server.rs:623-641 | In any run a closed connection is never let through the check, and one is installed if and only if its peer closed it between the check and the install; nobody else can have |
| `LateInstall.LateInstallEvicts` | crates/tuyau-server/src/server.rs:623-641 | With a valid last-write-wins config a run installs a connection its peer has closed; it evicts the live one and the host has no route |
| `LateInstall.RunKeepsEarly` | crates/tuyau-server/src/server.rs:636-644 | In every run no task holds a connection in order to close it before that connection was installed |
| `TunnelSafety.EventHistories` | crates/tuyau-server/src/control.rs:78-107 | In every run every registered id has a handler, the events of a connection are none, one Up, or one Up and its Down with the same client and peer, and the registry holds exactly the connections with an Up and no Down, with that metadata |
| `TunnelSafety.HandlersEnd` | crates/tuyau-server/src/server.rs:588-761 | In any stretch of any run from the acceptance of a connection to the reuse of its id, its handler installs at most once and takes at most eleven steps plus one per connection its install displaced |
| `TunnelSafety.RunHasTrace` | crates/tuyau-server/src/server.rs:588-761 | Every run has a sequence of steps, so the bound on the steps of a handler is about all runs |
| `TunnelSafety.HandlersMoveExactly` | crates/tuyau-server/src/server.rs:588-761 | In every state a handler that has not ended can move, except a held tunnel whose peer is there while no shutdown was asked for |
| `TunnelSafety.ShutdownDrains` | crates/tuyau-server/src/server.rs:749-760 | After a shutdown request, once no handler can move, table and registry are empty |
| `StaticMode.StaticRunKeeps` | crates/tuyau-server/src/backend.rs:47-70 | With a validated config every state of every run has a table whose hosts carry their config modes, only grants of config clients, and lone connections under last-write-wins |
| `StaticMode.HostnamesAreNeverReassigned` | crates/tuyau-server/src/routes.rs:258-273 | With a validated config the takeover branch of `install` is not taken in any run |
| `StaticMode.LastWriteWinsHasOneConnection` | crates/tuyau-server/src/routes.rs:62-66 | With a validated config a host of a last-write-wins client lists exactly one connection in every run |
| `StaticMode.RoundRobinEvictsNobody` | crates/tuyau-server/src/routes.rs:285-290 | With a validated config the install of a connection of a round-robin client displaces nobody, in any run |
| `StaticMode.ModesAgreeInEveryRun` | crates/tuyau-server/src/routes.rs:166-188 | With a validated unambiguous config, in every state of every run with the config's own terminated set and for every host, the listener's terminate and offload answers are the mode of the entry a lookup resolves to |
| `StaticMode.ModesAgreeExactly` | crates/tuyau-server/src/routes.rs:106-188 | They agree for all hosts in all these states of all runs of a validated config if and only if no entry with the same host ignoring case asks for more than an entry that can route it; a hostname can route only if its client is the last with its token |
| `StaticMode.ModesAgreeAtExactly` | crates/tuyau-server/src/routes.rs:166-222 | In any state of any run, whatever was provisioned, they agree for all hosts if and only if they agree on the upstreams with a key of their own and on the hosts with tunnels |
| `StaticMode.TwoSpellingsDisagree` | crates/tuyau-server/src/config.rs:178-190 | Validation accepts `App` as passthrough beside `app` as terminated, and a run leads to a state where the listener terminates the passthrough host |
| `StaticMode.SharedTokenIsUnambiguous` | crates/tuyau-server/src/backend.rs:48-56 | The same entries never disagree if both clients share a token, because the first is never admitted |
| `StaticMode.HostnameIsReached` | crates/tuyau-server/src/backend.rs:47-70 | Every hostname of a client that can be admitted is in the table, with its mode, at the end of some run |
| `Reach.Connect` | crates/tuyau-server/src/server.rs:596-644 | Any grant the backend may give is installed at the end of some run |
| `StaticMode.UpstreamsStayExactly` | crates/tuyau-server/src/routes.rs:200-222 | With a validated config no connect, disconnect, revocation or lookup changes which upstream a host resolves to, and provisioning changes it exactly for provisioned hosts that the config serves by a wildcard |
| `Routing.InstallConserves` | crates/tuyau-server/src/routes.rs:235-294 | For any grant list, hosts repeated or not, the number of hosts listing an old connection drops by exactly its number of occurrences in the displaced list |
| `Routing.InstallKeepsForm` | crates/tuyau-server/src/routes.rs:235-294 | No host becomes empty or lists a connection twice, and the new connection is not displaced |
| `Routing.InstallListsNew` | crates/tuyau-server/src/routes.rs:247-291 | The new connection ends up under every granted host |
| `Routing.InstallShape` | crates/tuyau-server/src/routes.rs:247-291 | Hosts that are not granted are untouched; a granted host belongs to the client and lists nobody that was there for another client |
| `Routing.InstallAccounts` | crates/tuyau-server/src/routes.rs:247-294 | Whatever was listed is still listed or displaced, and whatever is displaced was listed under a granted host |
| `Routing.InstallSetsMode` | crates/tuyau-server/src/routes.rs:274 | A granted host has the mode of its last mention in the grant |
| `Routing.InstallKeepsCursor` | crates/tuyau-server/src/routes.rs:250-291 | The round-robin position of a host survives an install, also a takeover |
| `Routing.InstallLastWriteWins` | crates/tuyau-server/src/routes.rs:277-284 | Under last-write-wins a granted host lists the new connection alone, whoever held it |
| `Routing.InstallRoundRobin` | crates/tuyau-server/src/routes.rs:285-290 | Under round-robin a granted host keeps the connections of the client in order and the new one joins at the end once |
| `Routing.RoundRobinDisplacesExactly` | crates/tuyau-server/src/routes.rs:224-273 | Under round-robin nothing is displaced if and only if no granted host is held by another client |
| `Routing.RoundRobinTakeoverDisplaces` | crates/tuyau-server/src/routes.rs:262-273 | A round-robin grant to one client for a host that another serves displaces its connection |
| `Routing.ReassignsFromStart` | crates/tuyau-server/src/routes.rs:262-273 | The takeover branch is taken at some point of the loop if and only if another client holds a granted host before it |
| `Routing.RemoveConnEffect` | crates/tuyau-server/src/routes.rs:299-305 | Exactly the removed connection leaves the lists, hosts that did not list it are untouched, no empty host stays |
| `Routing.RemoveConnKeepsOrder` | crates/tuyau-server/src/routes.rs:299-305 | A host loses the removed connection and nothing else: the others keep their order, client, mode and cursor |
| `Routing.KickLeavesNone` | crates/tuyau-server/src/routes.rs:311-328 | A connection listed for one client only is nowhere in the table after a kick of that client |
| `Routing.KickSparesOthers` | crates/tuyau-server/src/routes.rs:311-328 | A kick drops the hosts of the client and leaves every other entry as it was |
| `Tables.RoutingTable.FromConfig` | crates/tuyau-server/src/routes.rs:106-160 | The loops over hostnames and upstreams build exactly the table the resolution lemmas are about |
| `Tables.RoutingTable.CollectUpstreams` | crates/tuyau-server/src/routes.rs:107-121 | The loop builds the upstream map: lowercase keys, a later entry wins, entries without a target are skipped |
| `Tables.RoutingTable.CollectHosts` | crates/tuyau-server/src/routes.rs:125-148 | The loops collect the lowercase hosts of exactly the entries in the given modes |
| `Tables.RoutingTable.SetTerminated` | crates/tuyau-server/src/routes.rs:219-222 | The terminated set is replaced by the lowercase names and nothing else changes |
| `Tables.RoutingTable.Install` | crates/tuyau-server/src/routes.rs:235-294 | The loop over the grant, in place, yields the table and the displaced list of the specification |
| `Tables.RoutingTable.RemoveConn` | crates/tuyau-server/src/routes.rs:299-305 | The retain loop, in place, yields the table of the specification |
| `Tables.RoutingTable.Kick` | crates/tuyau-server/src/routes.rs:311-328 | Returns each connection listed for the client exactly once and drops exactly the hosts of the client |
| `Tables.RoutingTable.FindUpstream` | crates/tuyau-server/src/routes.rs:200-214 | The search over the patterns finds the upstream of the specification |
| `Tables.RoutingTable.Lookup` | crates/tuyau-server/src/routes.rs:349-381 | The probing loop returns the route of the specification and moves at most the cursor of the host |
| `RoundRobin.NoneMeansAllClosedExactly` | crates/tuyau-server/src/routes.rs:369-380 | "None if and only if all are closed" holds for every set of closed connections if and only if the cursor does not wrap inside the loop or the number of connections divides 2^64 |
| `RoundRobin.WrapMissesAnOpenConnection` | crates/tuyau-server/src/routes.rs:369-380 | Three connections, the cursor at its last value, the third one open: nothing is found |
| `RoundRobin.SameChoicesExactly` | crates/tuyau-server/src/routes.rs:369-380 | Two hosts make the same choice whatever is closed if and only if they would take the same connections in the same order, wraps included |
| `Fairness.LookupMovesCursor` | crates/tuyau-server/src/routes.rs:363-380 | A lookup advances the cursor of the host by exactly the number of connections it looked at, up to the first open one, which it returns, or all; nothing else in the table changes |
| `Fairness.OtherLookupsMoveNothing` | crates/tuyau-server/src/routes.rs:349-364 | A lookup that an upstream answers or that finds no host leaves the table alone |
| `Fairness.LookupsAreFair` | crates/tuyau-server/src/routes.rs:349-381 | Any m lookups on a table in a row return open tunnels of the host only, each of the L open ones floor(m/L) or ceil(m/L) times, while the cursor does not wrap or if wraps lose nothing |
| `Fairness.LookupsOfARunAreFair` | crates/tuyau-server/src/routes.rs:349-381 | The same for the lookups of a host in any stretch of any run, whatever happens in between, while its list and the closed connections in it stay the same |
| `Fairness.OnlyLookupsMoveCursors` | crates/tuyau-server/src/routes.rs:369-371 | No step but a lookup of the host moves the cursor of a host that stays in the table |
| `RoundRobin.RoundRobinIsFair` | crates/tuyau-server/src/routes.rs:369-380 | Any m picks succeed on open connections only and choose each of the L open ones floor(m/L) or ceil(m/L) times, while the cursor does not wrap or if wraps lose nothing |
| `RoundRobin.WalkIsBounded` | crates/tuyau-server/src/routes.rs:369-380 | m lookups advance the cursor by at most m times the number of connections, so the no-wrap condition can be checked beforehand |
| `RoundRobin.UnfairAcrossWrap` | crates/tuyau-server/src/routes.rs:369-380 | If the number of connections does not divide 2^64, some lookups across the wrap are unfair |
| `RoundRobin.AlwaysFairExactly` | crates/tuyau-server/src/routes.rs:369-380 | Lookups are fair from every cursor and for every set of closed connections if and only if the number of connections divides 2^64 |
| `Hosts.PatternsAreMatches` | crates/tuyau-server/src/routes.rs:48-60 | The computed patterns of a host are exactly the names, one-label wildcards and catch-all that match it |
| `Hosts.FirstKeyIsMostSpecific` | crates/tuyau-server/src/routes.rs:210-213 | Searching the patterns in order finds the most specific matching key, and none only if no key matches |
| `Hosts.LowerExactly` | crates/tuyau-server/src/routes.rs:166-170 | Two names have the same lowercase form exactly if they differ at most in the case of ASCII letters |
| `Resolution.UpstreamIsMostSpecific` | crates/tuyau-server/src/routes.rs:200-214 | A host goes to an upstream if and only if that upstream is the most specific of all entries matching the host, tunnels and provisioned names included |
| `Resolution.RoutesToUpstreamIsLocal` | crates/tuyau-server/src/routes.rs:192-196 | `routes_to_upstream` answers yes exactly when `lookup` yields a local route |
| `Resolution.LookupRouteExactly` | crates/tuyau-server/src/routes.rs:349-381 | A lookup answers the target of the upstream, or without one the chosen connection with the client and the mode of the host, and nothing else |
| `Resolution.IsTerminatedExactly` | crates/tuyau-server/src/routes.rs:162-175 | A host is terminated if and only if a spelling of it is in the terminated set or the most specific entry that matches it is a wildcard upstream in a terminating mode |
| `Resolution.IsOffloadExactly` | crates/tuyau-server/src/routes.rs:177-188 | The same for offload |
| `Resolution.SetTerminatedExactly` | crates/tuyau-server/src/routes.rs:216-222 | Provisioning makes the set exactly the names given in lowercase, changes nothing else, and each of them is then terminated in every spelling |
| `Resolution.TargetExactly` | crates/tuyau-server/src/routes.rs:110-114 | An upstream with a socket goes to that socket, one with an address to that address |
| `Resolution.CaseMattersForTunnelsExactly` | crates/tuyau-server/src/routes.rs:349-381 | A host and its lowercase form get the same route whatever is closed if and only if an upstream takes it, or it is lowercase, or neither form has a tunnel, or both have the same connections of the same client and mode in the same order |
| `StaticMode.MixedCaseLosesItsTunnel` | crates/tuyau-server/src/routes.rs:349-364 | With a valid config a run leads to a state where the server terminates TLS for `APP.x` but finds no tunnel for it, though `app.x` has one |
| `Modes.UnambiguousAgrees` | crates/tuyau-server/src/routes.rs:106-188 | In every static table of an unambiguous config the listener's answers are the mode of the entry that routes the host |
| `Modes.AgreesOnAllHostsExactly` | crates/tuyau-server/src/routes.rs:166-222 | In any static table with any provisioned set the answers agree on every host if and only if they do on exact upstreams and on hosts with tunnels |
| `Modes.DistinctIsUnambiguous` | crates/tuyau-server/src/config.rs:178-190 | Hosts distinct ignoring case are enough for that |
| `Modes.LowercaseIsDistinct` | crates/tuyau-server/src/config.rs:178-190 | A validated config with lowercase hosts has hosts distinct ignoring case |
| `Modes.OffloadIsTerminatedExactly` | crates/tuyau-server/src/routes.rs:177-188 | Every offload host is terminated if and only if the provisioned set keeps every configured offload hostname |
| `Modes.SetTerminatedCanDropOffload` | crates/tuyau-server/src/routes.rs:216-222 | After a replacement with the empty set a configured offload host is offload and not terminated |
| `HostCerts.Load` | crates/tuyau-server/src/host_certs.rs:20-47 | Loading succeeds if and only if every certificate set by an entry can be read, and the cache of loaded files does not change the result |
| `HostCerts.TrimDotsExactly` | crates/tuyau-server/src/host_certs.rs:52 | All trailing dots of the name go and nothing else |
| `HostCerts.RoutedByIsRouting` | crates/tuyau-server/src/routes.rs:200-214 | If an upstream entry routes a host, the table gives exactly its target and mode, whatever tunnels are up; if a tunnel hostname does, only tunnels with its mode serve the host (while the terminated set is the config's own) |
| `HostCerts.RouteHasEntry` | crates/tuyau-server/src/routes.rs:349-381 | Every route a lookup gives comes from an entry that routes the host, so a host without one has no route |
| `HostCerts.RoutedByUnique` | crates/tuyau-server/src/routes.rs:200-214 | In a valid config at most one entry routes a host |
| `HostCerts.BestCertIsSelected` | crates/tuyau-server/src/host_certs.rs:51-57 | For every config and host the certificate of the most specific entry that has one and matches the name without trailing dots is chosen, the last such entry if several share its key |
| `HostCerts.OwnCertIsSelected` | crates/tuyau-server/src/host_certs.rs:49-57 | If the entry that routes a host without trailing dots has its own certificate, that one is chosen |
| `HostCerts.SelectSomeExactly` | crates/tuyau-server/src/host_certs.rs:59-63 | Any host is covered if and only if some entry matching the name without trailing dots has a certificate |
| `HostCerts.SelectFollowsRoutingExactly` | crates/tuyau-server/src/host_certs.rs:49-57 | For every config and host, routed or not, the choice is the certificate of the routing entry, or none without such an entry or certificate, if and only if the best entry for the trimmed name has that certificate, or in the second case no entry matching the trimmed name has one |
| `HostCerts.PlainHostFollowsRoutingExactly` | crates/tuyau-server/src/host_certs.rs:49-57 | For a host without trailing dots the choice follows the routing if and only if the routing entry has a certificate or no matching entry has |
| `HostCerts.WildcardCertFillsIn` | crates/tuyau-server/src/host_certs.rs:54-56 | With a valid config a host routed by an entry without a certificate is served with that of a wildcard entry |
| `HostCerts.TrailingDotKeepsCert` | crates/tuyau-server/src/host_certs.rs:52 | With a trailing dot a host still gets its certificate |
| `HostCerts.TrailingDotLosesRoute` | crates/tuyau-server/src/routes.rs:349-361 | With a trailing dot the same host is routed to the catch-all instead |
| `Dispatch.ActionsExactly` | crates/tuyau-server/src/public.rs:353-461 | For any table, exactly when the listener answers a challenge, refuses for want of a client certificate, proxies HTTP/2 or HTTP/1.1 (to tunnels too), serves a 502, or drops |
| `Dispatch.PipesExactly` | crates/tuyau-server/src/public.rs:417-461 | For any table, exactly when the listener pipes raw or decrypted bytes, and to which tunnel or target |
| `Dispatch.NothingDecryptedWithoutCert` | crates/tuyau-server/src/public.rs:363-367 | Without the client certificate that is required nothing decrypted is handed on |
| `Dispatch.LocalUpstreamsAreProxied` | crates/tuyau-server/src/public.rs:375-441 | In any table a terminated non-offload host with a local upstream takes the HTTP proxy for every negotiated protocol, and decrypted bytes are piped to a local upstream only for offload hosts |
| `Dispatch.HeadersAreRightExactly` | crates/tuyau-server/src/public.rs:375-461 | In any well-formed table the header carries the mode applied, for every SNI, protocol and set of closed connections, if and only if every host that its tunnels serve was granted with the mode the terminated and offload sets give it |
| `Dispatch.HeadersAreRightAtExactly` | crates/tuyau-server/src/public.rs:558-581 | The same in every state of every run with any backend |
| `Dispatch.UnprovisionedGrantMisleads` | crates/tuyau-server/src/public.rs:570-574 | A run in which a host granted as terminated but not provisioned is piped undecrypted under a header that says terminated |
| `Dispatch.HeaderTellsWhatWasDone` | crates/tuyau-server/src/public.rs:558-581 | In a static table of an unambiguous config the data header carries the mode the server applied, on every path |
| `Dispatch.PassthroughIsNeverDecrypted` | crates/tuyau-server/src/public.rs:442-461 | A host routed in passthrough mode is piped as it came or dropped, whatever the peer offers |
| `Dispatch.HeadersAreRightInEveryRun` | crates/tuyau-server/src/public.rs:334-461 | The data header is right at every moment of every run with a validated unambiguous config while the terminated set is the config's own |
| `Config.FirstDuplicate` | crates/tuyau-server/src/config.rs:171-190 | Reports a name if and only if one occurs twice, and then the first that repeats an earlier one |
| `Config.ValidateUpstreamTargets` | crates/tuyau-server/src/config.rs:229-236 | Accepts if and only if every upstream names exactly one target |
| `Config.ValidateHostPatterns` | crates/tuyau-server/src/config.rs:239-258 | Accepts if and only if hostnames are plain and upstream hosts are names, `*.name` or `*` |
| `Config.ValidateHostCerts` | crates/tuyau-server/src/config.rs:286-298 | Accepts if and only if certificates come with keys and not in passthrough mode |
| `Config.ValidateClients` | crates/tuyau-server/src/config.rs:195-203 | Accepts if and only if every hostname names a known client |
| `Config.Validate` | crates/tuyau-server/src/config.rs:161-206 | Accepts exactly the valid configs, and every error names a defect that is there, the first in the order of the checks |
| `Config.ValidExactly` | crates/tuyau-server/src/config.rs:161-308 | The valid configs are those with a client or an upstream, unique names, hosts unique across both kinds, one target per upstream, allowed patterns, certificates with keys in terminating modes only, known clients and a mailto contact |
| `Config.PatternExactly` | crates/tuyau-server/src/config.rs:238-258 | An upstream host is allowed if and only if it is `*`, a nonempty name without star, or such a name after `*.` |
| `Backend.Admit` | crates/tuyau-server/src/backend.rs:47-70 | Refuses exactly the unknown tokens; otherwise grants the name, the balance and the hostnames of the last client entry with the token; and this answer, no other, is what runs may grant for the token |
| `Backend.HostsOfClientConcat` | crates/tuyau-server/src/backend.rs:58-63 | The granted hostnames keep the order of the config |
| `Backend.OneGrantPerHost` | crates/tuyau-server/src/config.rs:168-203 | In a valid config two grants that share a host are the same grant, balance included |
| `ControlPlane.Control.Register` | crates/tuyau-server/src/control.rs:78-90 | The tunnel is in the registry and one Up with its metadata was emitted |
| `ControlPlane.Control.Unregister` | crates/tuyau-server/src/control.rs:94-107 | The tunnel is gone, and one Down was emitted only if it was there |
| `Sni.ReadU8` | crates/tuyau-server/src/sni.rs:98-102 | Reads one byte inside the buffer and moves on, or fails at its end without moving |
| `Prelude.U16Exactly` | crates/tuyau-server/src/sni.rs:104-111 | Two bytes read as a number exactly if they are its high and its low byte in this order |
| `Sni.ReadU16` | crates/tuyau-server/src/sni.rs:104-111 | Reads two bytes inside the buffer, most significant first, and moves on, or fails without moving |
| `Sni.ParseNames` | crates/tuyau-server/src/sni.rs:72-89 | The inner loop, on any bytes, stays in bounds, ends and finds the name of the specification |
| `Sni.ParseExtensions` | crates/tuyau-server/src/sni.rs:60-95 | The outer loop, on any bytes, stays in bounds, ends and finds the name of the specification |
| `Sni.ReadFixed` | crates/tuyau-server/src/sni.rs:22-43 | The part before the session id is passed exactly if the buffer has it whole with the record and message types of a ClientHello |
| `Sni.SkipFields` | crates/tuyau-server/src/sni.rs:45-55 | Session id, cipher suites and compression methods are skipped to where the extensions start |
| `Sni.ParseSni` | crates/tuyau-server/src/sni.rs:22-96 | The whole parser, on any slice, stays in bounds, keeps every cursor within 64 bits and returns the name of the specification |
| `Sni.LengthExactly` | crates/tuyau-server/src/sni.rs:104-111 | The lengths of the grammar are the numbers of their bytes, high byte first |
| `Sni.AcceptedExactly` | crates/tuyau-server/src/sni.rs:80-86 | A name is accepted if and only if it has at most 253 bytes and is the UTF-8 encoding of a sequence of code points |
| `Sni.ParserIsComplete` | crates/tuyau-server/src/sni.rs:22-96 | Of any well-formed hello the parser returns the first host name if it has at most 253 bytes of UTF-8; later bytes do not matter |
| `Sni.ParserIsSound` | crates/tuyau-server/src/sni.rs:22-96 | A returned name comes from a well-formed hello at the start of the buffer, at the place its length fields dictate |
| `Sni.ParserIsExact` | crates/tuyau-server/src/sni.rs:22-96 | The parser returns a name if and only if the buffer starts with a well-formed hello asking for it |
| `Sni.FoundNameIsFinal` | crates/tuyau-server/src/sni.rs:60-95 | Appending bytes never changes a name that was found |
| `Sni.AsciiIsAccepted` | crates/tuyau-server/src/sni.rs:80-86 | An ASCII name of at most 253 bytes is never refused |
| `Frames.Encode` | crates/tuyau-protocol/src/codec.rs:52-67 | Appends exactly one frame, or reports the error and leaves the buffer alone |
| `Frames.EncodeFrameArray` | sdk/ts/src/protocol.ts:39-52 | The TypeScript encoder writes the same frame or has the same error |
| `Frames.EncodeFrameExactly` | crates/tuyau-protocol/src/codec.rs:52-67 | A frame is the payload length in four bytes, most significant first, and the payload; more than 65536 bytes or an unwritable item is the error |
| `Frames.DecodeFrame` | crates/tuyau-protocol/src/codec.rs:77-102 | The in-place decoder gives the answer and the remaining bytes of the specification |
| `Frames.DecodeIsExact` | crates/tuyau-protocol/src/codec.rs:77-102 | The decoder yields an item if and only if the buffer starts with a frame whose payload reads as it, and takes exactly that frame |
| `Frames.DecodeErrorsExactly` | crates/tuyau-protocol/src/codec.rs:77-102 | Exactly when the decoder reports an oversized length (over 65536, nothing taken), reports an unreadable payload (its frame taken), or waits |
| `Frames.DecodeExtends` | crates/tuyau-protocol/src/codec.rs:77-102 | An item or an error does not depend on bytes that arrive later |
| `Frames.ChunksDoNotMatter` | crates/tuyau-protocol/src/codec.rs:77-102 | For every byte stream and every cut into chunks, items and first error are those of the whole stream |
| `Frames.DecodeAllOfFrames` | crates/tuyau-protocol/src/codec.rs:77-102 | After whole frames comes what the decoder says about the rest: its error ends the stream, or the bytes stay in the buffer |
| `Frames.FramesSurviveChunking` | crates/tuyau-protocol/src/codec.rs:52-102 | Frames written one after the other and cut anywhere come back in order with nothing left over |
| `Frames.ReadFrame` | crates/tuyau-protocol/src/codec.rs:16-35 | Same item or error as the decoder, and where the stream goes on: behind the frame, behind the length of an oversized one, at the end of a stream that stops short |
| `Frames.ReadFrameChunked` | sdk/ts/src/protocol.ts:67-95 | Same item or error as the decoder, and leftover followed by the unread chunks is the stream behind the frame |
| `Frames.PullUntil` | sdk/ts/src/protocol.ts:72-81 | Pulling chunks succeeds if and only if the stream has enough bytes, and neither loses nor repeats any |
| `Admission.PerIpLimiter.TryAcquire` | crates/tuyau-server/src/public.rs:95-106 | A permit is given if and only if the address is below its share, and is then counted |
| `Admission.PerIpLimiter.Release` | crates/tuyau-server/src/public.rs:109-119 | The count goes down by one and the entry goes at zero |
| `Admission.StepKeeps` | crates/tuyau-server/src/public.rs:230-277 | Every accept, shed and drop keeps counters equal to live permits and every global permit accounted for, and no drop underflows |
| `Admission.CountersAreExact` | crates/tuyau-server/src/public.rs:66-119 | In every run each counter is the number of live permits of its address, between 1 and max(cap/8, 16); the counters add up to the live connections, at most the cap; nothing underflows next |
| `Admission.AdmittedExactly` | crates/tuyau-server/src/public.rs:252-270 | In every state of every run with a free permit a connection is served if and only if its address has fewer than sixteen live connections or fewer than an eighth of the cap; a shed one gives its permit back |
| `Admission.ShedExactly` | crates/tuyau-server/src/public.rs:252-260 | A connection is shed at the accept if and only if no permit is free |
| `Admission.ShareExactly` | crates/tuyau-server/src/public.rs:62-68 | The share of an address is an eighth of the cap, or sixteen if that is more |
| `Admission.UseIsBoundedByShares` | crates/tuyau-server/src/public.rs:62-119 | In every state of every run n addresses with live connections hold at most n shares of the permits in use, apart from tasks that are leaving and the one being admitted |
| `Admission.FillingTakesEightSources` | crates/tuyau-server/src/public.rs:62-68 | With a cap of at least 128, running out of permits takes at least eight addresses unless a task has yet to give its global permit back |
| `Replay.Metered.PollRead` | crates/tuyau-server/src/meter.rs:40-56 | The counter is the number of wire bytes handed out, in order |
| `Replay.ReadClientHello` | crates/tuyau-server/src/public.rs:586-604 | However the bytes arrive, the result is the first record of the wire or its error, and exactly that record was consumed |
| `Replay.FirstRecordExactly` | crates/tuyau-server/src/public.rs:586-604 | A record is read if and only if it is a whole handshake record (type 22) of at most 16384 bytes after its header, length high byte first; each error exactly where it belongs |
| `Replay.RecordNameIsStreamName` | crates/tuyau-server/src/public.rs:311-326 | The name found in the first record is the name of the whole stream |
| `Replay.PrefixedStream.PollRead` | crates/tuyau-server/src/public.rs:626-641 | A read of any size continues the wire exactly where the last one ended, first from the prefix and then from the connection, and delivers all that fits of what is there |
| `Replay.PrefixedStream.Copy` | crates/tuyau-server/src/public.rs:610-641 | For any sequence of read sizes and arrivals, what was delivered followed by the undelivered prefix is exactly what the meter counted, so reading the ClientHello first is invisible downstream |

## Left out

- QUIC, TLS, hyper, ACME and tokio: a connection is an id and a closed flag; a stable id is reused only after its handler ended and no task holds the old connection in order to close it.
- Timeouts and clocks: a timeout is a step that may happen at any time.
- CBOR: the payload format is a pair of functions; the round trip of frames assumes that this pair round-trips.
- HTTP bridging, WebSocket upgrades and header rewriting (h2proxy.rs) and the local connection pool: only the decision that leads there is modelled.
- Certificate files, key parsing, ACME issuance and fingerprints: reading a certificate is a parameter.
- TOML and CLI parsing; `validate_dynamic`, which repeats checks of `validate`; `active_hostnames`, a listing that no routing decision reads.
- Two lookups interleaved inside their probing loops, and a table that changes between the queries of one `handle_public` call: one lookup, and one decision, is one step.
- Lock poisoning, panics and memory ordering; the event of `register` and `unregister` is sent in the same step as the registry change.
- The write side of the prefixed and metered streams, which only delegates, and the end-of-stream handling of `FramedRead`, which belongs to a library.
- Accept errors and the shutdown of the public accept loop: they take no permit.
- RoundRobin.RoundRobinIsFair: the list and the closed connections are fixed during the m lookups, as a change of either changes what is to be shared.
