# ig: a verified model

`ig` is a daemon that exposes TCP ports to named peers over an encrypted
peer-to-peer transport and listens locally for the ports its peers announce. This
project models its state, step by step, and proves what holds of every run.

How it is laid out:

- `PeerTables`, `Announcement`, `Remap` and `Registry` describe the peer
  manager's tables as one value (`World`): the registry, every peer's announced
  ports and bindings, the remap table, grants, pins and tokens, and the operating
  system's own table of listening sockets, with the ports it refuses. They say what
  each lock-holding operation does to them and prove what every run keeps.
- `PeerManagement` is the peer manager itself: a class over mutable maps and
  peer objects, whose methods are proved to do exactly what the table operations
  say.
- `ConnectionLoop` interleaves a peer's connection loop, the incoming-connection
  handler and the evictor, one atomic step at a time.
- `Grants`, `Enrollment`, `Service` and `StateStore` hold the grant table, the
  one-time tokens and pins, the declared services with the HTTP route pipeline, and
  the version-stamped state file.
- `ControlPlane` and `Startup` say what a request and a start do to a daemon, its
  file and its answer; `DaemonProcess` is the class that does it.
- `Lifecycle` follows a declaration from the request that makes it to the
  connections and restarts after it, `Admission` says how peers come in over whole
  runs, and `Overlay` what becomes of startup flags; `Latch` is the law of a fact that
  moves turn on and off, which these share. `PinText` relates the spellings of keys
  in the pin file to strings.
- `Systemd` and `Launchd` print a command line into a unit file and a property
  list, and read it back; `Expansion` is what systemd makes of the words
  it has split. `SyntheticAddr` hashes a key into an address.
- `Common`, `Sorting` and `Text` are shared helpers.

What a pass cannot control is a parameter: which peers answer a probe, which free
port the system offers, in which order a hash table iterates, whether a dialed peer
is reached, whether a write succeeds, the clock, and the random token. Results hold
for every value of these.

The main results are `Registry.EveryRunIsSound`, `Registry.PinnedStaysRegisteredIff`,
`Announcement.AnnouncementOutcome`, `Announcement.ReannounceIsQuiet`,
`Remap.RepeatedRemapIsAlwaysNoopIff`, `ConnectionLoop.NoLostWakeup`,
`ConnectionLoop.EvictedLoopExits`, `Grants.AllowedIffLastAdded`,
`Enrollment.ClaimSucceedsIff`, `Lifecycle.ServedIffLastOpened`,
`Admission.EveryPeerWasAdmitted`, `Admission.MintedTokenEnrollsIff`,
`Startup.EveryRunStaysInStep`,
`Overlay.OverlayForgottenIff`, `Startup.RestartRoundTrip`, `Service.HttpPipeline`,
`Systemd.UnitRunsAsInstalledIff`, `Launchd.ArrayParsesBackIff` and
`SyntheticAddr.SharedAddressIff`, with the methods of `PeerManagement` and
`DaemonProcess` that refine the specifications these are about.

## Where the code and its documentation differ

- `docs/CONTRACT.md:101-102` says that binding a port to the same local port is a
  no-op. It tears bindings down and rebuilds them in registry order, on local ports
  the system may choose: `Remap.RepeatedRemapIsAlwaysNoopIff` says exactly when
  nothing is sure to change, and `Remap.RepeatedRemapIsNoopIff` when nothing does for
  a given order and given offers.
- `docs/CONTRACT.md:122-126` and `src/state.rs:11-15` say startup flags are not
  written to the state file. The next declaration over the control socket writes
  them all: `Overlay.OverlayForgottenIff` says, for grants, services and remaps and
  for every request that writes, exactly when that makes no difference.
- `src/service.rs:648-651` calls the synthetic address of a key unique.
  `SyntheticAddr.SharedAddressIff` says exactly which keys share one.
- `src/daemon.rs:350-353` promises that a dry run reaches the verdict of the real
  run. It does for Expose, Unexpose and Bind (`ControlPlane.DryRunIsHonest`); for
  adding and removing peers only under the conditions of
  `ControlPlane.AddPeerDryRunAgreesIff` and `ControlPlane.RemovePeerDryRunAgreesIff`.
- `docs/CONTRACT.md:34` lists an unknown ticket under "not found". Removing one is
  reported as internal, and no removal ever as not found (`ControlPlane.RemovePeerFailsIff`).
- `src/peer.rs:562-564` says an eviction deletes the pin. A pin is written under the
  text it was asked for and deleted under the printed key, so a key pinned in another
  spelling is registered again by the next start (`Registry.RemovalForgetsPinIff`,
  and on strings `PinText.PinOutlivesEvictionIff`). Which spellings the program reads
  is not part of this model.

Behaviour worth knowing that no document speaks of:

- Pinning is idempotent (`Registry.PinIsIdempotent`), but a pin under a new label
  leaves the live peer with its old one until a restart
  (`Registry.PinnedLabelAgreesIff`).
- The redial of a peer this side dials does not look at the removed flag after it
  returns, so an evicted peer can be given a connection again
  (`ConnectionLoop.EvictedSlotRefillsIff`); and it replaces a connection that came in
  meanwhile, which is then never run (`ConnectionLoop.DroppedIffDialReturns`).
- The printer of the systemd unit quotes arguments but does not escape percent
  specifiers and dollar variables: `Systemd.UnitRunsAsInstalledIff` says exactly
  which arguments survive. A line of a unit ends at a carriage return and at a null
  as it does at a newline.
- A route declared for an IPv6 literal host matches no request
  (`Service.HostCanMatchIff`).

## Model

| member | source | states |
|---|---|---|
| Registry.EveryRunIsSound | src/peer.rs:386-704 | in every run of announce, remap, remove, add, pin, connect, mint, grant and restart steps, recorded bindings and the daemon's listening sockets correspond one for one, no two bindings share a local port, every binding agrees with the remap table and lies within its peer's announced ports, and every phones-home peer is pinned, however keys are spelled in the pin file |
| Registry.StepKeepsSound | src/peer.rs:386-704 | each single lock-holding operation, from any sound tables, keeps all of that |
| Registry.PinnedStaysRegisteredIff | src/peer.rs:562-586 | after any run, every pinned key is registered and stays so whichever peer is removed next, if and only if the run pinned every key in its printed spelling |
| Registry.EveryRunRespells | src/enroll.rs:84-98 | over a whole run the respelled rows of the pin file are those there were and those the run pinned; while there are none, every pinned key is registered |
| Registry.RemovalForgetsPinIff | src/peer.rs:562-586 | removing a peer leaves every pinned key registered if and only if no row respells its key, and the next start registers it again if and only if one does |
| PeerTables.HolderIsListener | src/peer.rs:509-519 | at most one peer holds a local port, and it is the one the system's socket table names, so the search result does not depend on the order of the search |
| PeerTables.Holder | src/peer.rs:509-519 | the peer returned really holds the port and is not the excluded one; none means nobody else does, or the port is 0 |
| PeerTables.CreateKeepsLedger | src/peer.rs:438-456 | binding an unbound port keeps sockets and records in one-to-one correspondence, also when the bind fails and must leave no entry |
| PeerTables.ReleaseKeepsLedger | src/peer.rs:554-563 | releasing a binding leaks no socket and touches no other binding |
| PeerTables.EvictKeepsLedger | src/peer.rs:565-587 | an eviction takes down exactly the sockets of the evicted peer and keeps the tables in agreement |
| PeerTables.EvictListeners | src/peer.rs:565-580 | the sockets left after an eviction are exactly those of the other peers |
| Announcement.AnnouncementOutcome | src/peer.rs:386-433 | the complete outcome of one announcement: either a live peer is in the way, and the announcer and the stale holders met before it are evicted with nothing else changed, or only stale holders are evicted, the new list is recorded, bindings in place stay, missing ones are made unless unavailable, and nobody else holds a target |
| Announcement.RejectedIff | src/peer.rs:399-425 | the announcer is evicted if and only if a live peer held the target of one of its ports before the pass |
| Announcement.OnlyStaleHoldersGo | src/peer.rs:403-423 | any other peer that disappears held a requested target and failed its probe |
| Announcement.BystandersKeepEverything | src/peer.rs:386-433 | every live peer, and every peer that remains, keeps its record, sockets, grants and pin |
| Announcement.RestOfPass | src/peer.rs:386-433 | grants and pins shrink by exactly the evicted peers; remaps, tokens and every other record are unchanged |
| Announcement.OneEvictionSuffices | src/peer.rs:403-427 | evicting the one holder frees the local port of all other peers, and the bind on it then succeeds |
| Announcement.ReannounceIsQuiet | src/peer.rs:386-433 | announcing the same list again, with nothing in between, evicts nobody and leaves existing bindings alone, whatever answers the probes now; unless a missing port leaves the choice to the system, it changes nothing at all |
| Announcement.LoopOutcome | src/peer.rs:397-428 | the binding loop alone, from any position of the list, has that outcome |
| Announcement.EvictAllTwice | src/peer.rs:565-587 | evictions combine: evicting one group and then another is evicting their union |
| Remap.RemapOutcome | src/peer.rs:462-483 | a remap evicts nobody, touches only the bindings of its port, and leaves every peer's bindings agreeing with the new table |
| Remap.RemapWrites | src/peer.rs:465-472 | afterwards the table has an entry for the port if and only if one was set, with that value; every other entry is unchanged, and a cleared port lands on itself |
| Remap.ClearUndoesRemap | src/peer.rs:465-472 | remapping a port that had no entry and clearing it restores the table |
| Remap.RemapRebinds | src/peer.rs:474-482 | afterwards every announcing peer has the port bound where it now belongs, or that local port is refused or taken; the first announcer in registry order gets a fixed target that is free; nobody else has it |
| Remap.RebuildFixed | src/peer.rs:478-482 | with a fixed target, only the first announcing peer in registry order gets the port, if it is free |
| Remap.RepeatedRemapIsNoopIff | src/peer.rs:462-483 | for every registry order and every offer of the system, repeating a remap changes nothing if and only if: with a fixed target, nobody announces the port, or the first announcer in that order has it, or the target cannot be had; with target 0, the system offers every announcer the port it has, or none it can give if it has none |
| Remap.RepeatedRemapIsAlwaysNoopIff | src/peer.rs:462-483 | repeating it is sure to change nothing, whatever the order and the offers, if and only if: with a fixed target, every announcer has the port or the target is refused or taken for another port; with target 0, nobody announces it, or no announcer has it and no port is free |
| Remap.FreeRemapIsNoopIff | src/peer.rs:462-483 | the case of target 0, by rebuilding peer after peer |
| Remap.RepeatedRemapMovesListener | src/peer.rs:462-483 | a concrete case in which repeating a remap moves the listener to another peer |
| Remap.QuietRemapOnlyWrites | src/peer.rs:462-483 | before any peer announces, a remap writes its entry and nothing else |
| Registry.PhonesHomeSurvivesRestart | src/daemon.rs:191-195 | every peer that phones home is registered again, under a pinned label, after a restart |
| Registry.BootIsSound | src/daemon.rs:168-198 | a start over any pin file satisfies the run invariant |
| Registry.PinnedIsPins | src/peer.rs:169-182 | the peers a start registers are exactly those pinned, each under the label of the first row that names it, none dialed |
| Registry.RefusedChangesNothing | src/peer.rs:638-704 | a connection that enrolls nobody is closed and changes only the token table, which only loses entries |
| Registry.PresentedIff | src/peer.rs:643-664 | by positions: the token is that of the first message that presents one, and the early announcement the last one before it, if there is one |
| Registry.AnnouncementIsKept | src/peer.rs:643-656 | an announcement followed by other messages and a token is kept with the token |
| Registry.CollidesIff | src/peer.rs:671-690 | an enrollment is refused for a collision if and only if another peer that answers the probe holds the target of an early port |
| Registry.EnrolleeIff | src/peer.rs:638-690 | who is enrolled under which label, in terms of the messages, the pending tokens and the peers that hold the ports |
| Registry.KnownReconnects | src/peer.rs:604-620 | a known peer's old connection is closed, the new one installed, and nothing else changes |
| Registry.EnrolledOutcome | src/peer.rs:638-704 | a peer whose messages present a token that can be claimed, with no early port held by a peer that answers the probe, is pinned and registered under the token's label with its early announcement, unless a live peer then holds one of its targets; in that case no grant, open connection or new pin is left |
| Registry.PinIsIdempotent | src/peer.rs:183-189 | pinning the same key under the same label again changes nothing, in memory or in the file |
| Registry.PinnedLabelAgreesIff | src/peer.rs:186-189 | under a new label, live label and file agree at once if and only if the key was new or had that label already; after a restart they agree if no other row names the key |
| PeerManagement.PeerManager.constructor | src/peer.rs:105-122 | an empty registry over the given grants, tokens and pins |
| PeerManagement.PeerManager.FindHolder | src/peer.rs:509-519 | finds the holder the specification names, whatever the search order |
| PeerManagement.PeerManager.ReleaseBinding | src/peer.rs:554-563 | record and socket go together |
| PeerManagement.PeerManager.TryCreateBinding | src/peer.rs:444-456 | binds before recording; on failure neither table changes |
| PeerManagement.PeerManager.CreateBinding | src/peer.rs:438-442 | does what the table operation says, and is called only for an unbound port, so it overwrites no live binding |
| PeerManagement.PeerManager.Evict | src/peer.rs:565-587 | full eviction: registry, connection, sockets, grants and pin; the peer object is marked removed and its loop woken |
| PeerManagement.PeerManager.RemovePeer | src/peer.rs:589-598 | removes by key, its object flagged and its loop woken, or fails without change for a key that is not registered |
| PeerManagement.PeerManager.ReleaseUnannounced | src/peer.rs:388-396 | releases exactly what was announced before and is no longer |
| PeerManagement.PeerManager.MakeWay | src/peer.rs:403-423 | probes the holder of a target: a live one rejects the announcer, a stale one is evicted |
| PeerManagement.PeerManager.BindAnnounced | src/peer.rs:399-428 | one announced port, in all its cases |
| PeerManagement.PeerManager.UpdatePeerPorts | src/peer.rs:386-433 | the loop over announced ports does what the specification of an announcement says, and every peer it evicts is flagged and its loop woken |
| PeerManagement.PeerManager.ReleasePort | src/peer.rs:475-477 | tears down one port on every peer |
| PeerManagement.PeerManager.RebuildPort | src/peer.rs:478-482 | rebuilds it on every announcing peer |
| PeerManagement.PeerManager.SetBind | src/peer.rs:462-483 | the whole remap, as specified |
| PeerManagement.PeerManager.AddPeer | src/peer.rs:127-165 | registers a reached peer; an existing key is a conflict, an unreached one is not found |
| PeerManagement.PeerManager.AddPinned | src/peer.rs:169-182 | registers a pinned peer unless its key is registered |
| PeerManagement.PeerManager.PinPeer | src/peer.rs:186-189 | registers the peer live and pins the key as it was spelled; when the file cannot be written the peer stays registered |
| PeerManagement.PeerManager.LoadPinned | src/daemon.rs:191-195 | registers every row of the pin file whose key can be read, and passes over the others |
| PeerManagement.PeerManager.AdmitTunnel | src/peer.rs:356-377 | a tunnel is served if and only if its port is granted to that peer |
| PeerManagement.PeerManager.Reconnect | src/peer.rs:607-620 | the old connection is closed, the new one installed, the loop woken |
| PeerManagement.PeerManager.ReadPresented | src/peer.rs:643-664 | the loop over messages yields what `Registry.PresentedIff` says by positions |
| PeerManagement.PeerManager.EarlyCollision | src/peer.rs:670-693 | whether an early announcement asks for a target of a peer that answers the probe |
| PeerManagement.PeerManager.Enroll | src/peer.rs:638-704 | a claimed token admits, anything else closes the connection |
| PeerManagement.PeerManager.HandleConnection | src/peer.rs:604-631 | an incoming connection in all its cases; a known peer's loop is woken, and so is that of every peer evicted on the way |
| PeerManagement.Os.BindListener | src/peer.rs:444-456 | a socket is had on the port asked for, or with 0 on the one offered, only if that is free, and it takes nothing from another; failing means the port is taken or refused, and changes nothing |
| ConnectionLoop.NoLostWakeup | src/peer.rs:210-236 | in every reachable state, if a phones-home loop is parked without a permit and no handler or evictor is mid-step, the peer is not removed and the installed connection has been run |
| ConnectionLoop.NoLostWakeupAsleep | src/peer.rs:238-258 | likewise for a dialed peer asleep between dials: the installed connection has been run |
| ConnectionLoop.ExitsOnlyRemoved | src/peer.rs:221-242 | in every reachable state a loop that has ended is that of a removed peer |
| ConnectionLoop.FreshRuns | src/peer.rs:213-253 | progress: an installed, open connection that has not run is run by the loop's own next steps, a known number of them, all enabled, when the peer is not removed, no wake-up is still to be sent and no dial is on its way |
| ConnectionLoop.DeadConnectionParks | src/peer.rs:217-236 | three steps after its connection died the loop waits for a wake-up, or for its next dial |
| ConnectionLoop.TimerDials | src/peer.rs:246-278 | a sleeping peer dials when its timer fires, and runs the connection if it is reached |
| ConnectionLoop.FailedDialSleeps | src/peer.rs:279-283 | if it is not reached it sleeps again |
| ConnectionLoop.DroppedIffDialReturns | src/peer.rs:260-264 | an installed connection that has not run is dropped without either side closing it if and only if a dial that was in flight returns with another |
| ConnectionLoop.DroppedNeverRuns | src/peer.rs:210-285 | a connection so dropped is never run nor installed again |
| ConnectionLoop.IncomingIsDropped | src/peer.rs:604-618 | a reachable state with one |
| ConnectionLoop.NextKeepsInv | src/peer.rs:210-285 | every step of loop, handler, evictor, network and timer keeps the invariant behind it |
| ConnectionLoop.EvictedLoopExits | src/peer.rs:565-572 | after a completed eviction a phones-home loop never blocks before it exits, has at most two steps left, and no connection is installed again |
| ConnectionLoop.EvictedSlotRefillsIff | src/peer.rs:255-267 | after a completed eviction some run installs a connection if and only if a dial was in flight |
| ConnectionLoop.EvictedDialPeerRunsAgain | src/peer.rs:255-267 | a reachable state in which an evicted peer's loop runs a new open connection |
| Grants.GrantTable.AddGrant | src/grants.rs:18-20 | the indexed table refines adding one pair to a set |
| Grants.GrantTable.RemoveGrant | src/grants.rs:24-37 | refines removing one pair, or every pair of a port, and keeps no port without a grantee |
| Grants.GrantTable.Revoke | src/grants.rs:41-46 | refines removing every pair of a grantee, over all ports |
| Grants.GrantTable.Allows | src/grants.rs:49-53 | membership of the pair |
| Grants.GrantTable.GrantedTo | src/grants.rs:57-66 | exactly the ports granted to a peer, strictly ascending |
| Grants.GrantTable.Ports | src/grants.rs:69-73 | exactly the granted ports, strictly ascending |
| Grants.GrantTable.All | src/grants.rs:76-84 | every pair exactly once, sorted by port |
| Grants.AllowedIffLastAdded | src/grants.rs:16-84 | after any log of operations a pair is allowed if and only if the last operation covering it was an add |
| Enrollment.Tokens.Claim | src/enroll.rs:50-55 | drops expired tokens and consumes the one presented |
| Enrollment.MintedIsClaimableUntil | src/enroll.rs:34-55 | a fresh token yields its label to a claim if and only if less than its time to live has passed, and affects no other token |
| Enrollment.ClaimSucceedsIff | src/enroll.rs:30-55 | over any log under a monotone clock with fresh tokens, a claim yields a label if and only if an earlier mint under that label drew the token, strictly less than its time to live ago, and nobody claimed it in between |
| Enrollment.ClaimsAreSingleUse | src/enroll.rs:48-55 | two successful claims never present the same token |
| Enrollment.ValidStaysPending | src/enroll.rs:50-54 | the purge never drops a token that is still valid |
| Enrollment.WithoutPinsKeeps | src/peer.rs:581-583 | evicting keys removes exactly their rows in printed spelling |
| Enrollment.WithPinTwice | src/enroll.rs:84-92 | pinning the same text under the same label twice is pinning it once |
| Enrollment.Pins.Add | src/enroll.rs:84-92 | replaces the row of the same text, at the end of the list; a failed write leaves the file as it was |
| Enrollment.Pins.Remove | src/enroll.rs:94-98 | drops the rows of that text and no other; a failed write leaves the file as it was |
| StateStore.Store.Save | src/state.rs:87-97 | stamps the version; a failed write leaves the file as it was |
| StateStore.Store.SaveThenLoad | src/state.rs:67-97 | what is saved can always be loaded, and is what was saved under the version of this program |
| Service.BuiltDescribesItself | src/service.rs:91-125 | a valid declaration builds, and what is built describes itself in the words of the declaration |
| Service.Services.Register | src/service.rs:344-356 | replaces what was declared for the port, or fails without change exactly when the declaration is invalid |
| Service.Services.RegisterNew | src/service.rs:371-376 | refuses a port already claimed |
| Service.Services.Remove | src/service.rs:378-382 | retires exactly that port and says whether there was one |
| Service.Services.DescribePort | src/service.rs:407-412 | the registered backend's words, or the default address |
| Service.Services.RegisterMissing | src/daemon.rs:235-242 | registers stored declarations under those already made; fails exactly when one that is needed is invalid |
| Service.Services.ValidSpecs | src/service.rs:323-340 | every registered declaration passed validation |
| Service.HttpPipeline | src/service.rs:527-632 | for the gateway built from a valid declaration: a rejected request is for no route, by host with or without a port and by path prefix; an accepted one goes to the first route it is for, to the one socket or upstream that has, under its name or the upstream without its port, so neither panic can happen; the query is kept; a stripped path is absolute and is exactly the suffix when that starts with a slash |
| Service.MatchesIff | src/service.rs:233-246 | a route matches if and only if its host is absent, or has no colon and is the request's host, alone or before a colon, and its prefix is absent or starts the path |
| Service.HostPartIsHost | src/service.rs:222-231 | the host of an upstream is what comes before its port, or all of it when it does not end in a port |
| Service.ValidIff | src/service.rs:101-125 | a declaration is valid if and only if http has routes that each have a socket or a non-empty upstream but not both, tcp an upstream, unix a path; a fault names what is wrong, and the first bad route |
| Service.DecimalReadsBack | src/service.rs:407-412 | numbers are worded in decimal |
| Service.PickIsFirst | src/service.rs:469-471 | the chosen index is the first match, and none means no route matches |
| Service.HostCanMatchIff | src/service.rs:233-247 | some request can match a route's host if and only if that host has no colon |
| SyntheticAddr.Synthesize | src/service.rs:652-665 | the loop computes the folded hash and its address |
| SyntheticAddr.AddrInRange | src/service.rs:662-665 | the address is in 100.64.0.0/10 (section 7 of RFC 6598) and ends in the low 22 bits of the hash; the port is 1024 plus the others |
| SyntheticAddr.WordIsBigEndian | src/service.rs:655-658 | a word has the bytes of its chunk, the first on top, with zeros past the end |
| SyntheticAddr.HashByChunks | src/service.rs:654-660 | hashing one more chunk mixes in its word and rotates |
| SyntheticAddr.RotateMoves | src/service.rs:659-659 | the rotation moves the top seven bits to the bottom |
| SyntheticAddr.AddrKeepsHash | src/service.rs:662-665 | address and port together lose none of the 32 hash bits |
| SyntheticAddr.OneChunkSeparates | src/service.rs:655-660 | keys of equal length that differ in exactly one chunk have different addresses |
| SyntheticAddr.HashIsLinear | src/service.rs:655-660 | the hash of an exclusive-or is the exclusive-or of the hashes |
| SyntheticAddr.SharedAddressIff | src/service.rs:645-665 | two keys share an address if and only if their exclusive-or hashes to zero |
| SyntheticAddr.AddressesAreNotUnique | src/service.rs:645-665 | two different 32-byte keys with one address |
| Systemd.ChainIsSinglePass | src/autostart.rs:271-280 | the two chained replacements are one per-character escape |
| Systemd.SplitInvertsExec | src/autostart.rs:237-280 | splitting the printed command line with the quoting rules of systemd.syntax recovers the argument list, for every list |
| Systemd.UnitReadsBackIff | src/autostart.rs:43-52 | splitting the command line of the rendered unit recovers the binary, the socket option, the socket, the command and the arguments, in that order, if and only if none has a line break: a newline, a carriage return or a null |
| Systemd.UnitRunsAsInstalledIff | src/autostart.rs:237-280 | with specifiers and variables expanded, the daemon is run with its original arguments, whatever these stand for, if and only if no argument has a line break, a percent sign before its end, two dollar signs in a row or a variable in braces without a colon, or is a variable as a whole |
| Expansion.ExpansionKeepsIff | src/autostart.rs:269-280 | expansion alone leaves an argument list as it is for every table of specifiers and variables if and only if every argument is literal |
| Expansion.LiteralExamples | src/autostart.rs:269-280 | percent-h, a dollar variable and a braced variable are not literal; a last percent sign, a dollar sign inside a word and braces around a colon are |
| Launchd.ChainIsSinglePass | src/autostart.rs:376-382 | the five chained replacements are one per-character escape |
| Launchd.EscapeHasNoMarkup | src/autostart.rs:376-382 | no markup character survives |
| Launchd.DecodeInvertsEscape | src/autostart.rs:376-382 | decoding the predefined entities (section 4.6 of XML 1.0) inverts the escape on every string |
| Launchd.ArrayReadsBack | src/autostart.rs:341-349 | the quoting is sound: the printed array, read as it stands, is the original list |
| Launchd.ArrayParsesBackIff | src/autostart.rs:341-382 | an XML reader, which reads carriage returns as line feeds (section 2.11 of XML 1.0) and refuses characters outside production 2, recovers the list if and only if no argument has either |
| ControlPlane.AddPeerDryRunAgreesIff | src/daemon.rs:356-368 | for AddPeer a dry run agrees with the real one if and only if the key cannot be read, or is new and reached |
| ControlPlane.RemovePeerDryRunAgreesIff | src/daemon.rs:370-387 | for RemovePeer a dry run agrees with the real one if and only if the key cannot be read, or is registered |
| ControlPlane.RemovePeerFailsIff | src/daemon.rs:370-387 | removing never answers that the peer was not found; with the write succeeding it fails if and only if the key cannot be read, as invalid, or is not registered, as internal |
| ControlPlane.PinSucceedsIff | src/daemon.rs:490-506 | pinning is done if and only if the key reads and its pin was written; a failed write is an internal error that leaves the peer registered |
| ControlPlane.ListingIsComplete | src/daemon.rs:292-321 | the listing has one row for each peer, saying its label, its announcement and whether it is up; one for each listening socket; one for each grant; every remap; and every granted port with its declaration or the default |
| ControlPlane.TextAnswers | src/daemon.rs:511-512 | the token answered is the one minted under the label, and the ticket reads as the daemon's own key |
| ControlPlane.DryRunsMislead | src/daemon.rs:356-387 | an example of each: a dry run of removing an unregistered peer, or of adding a registered one, promises what the real run refuses |
| ControlPlane.FailureChangesNothing | src/daemon.rs:354-514 | a failed request changes nothing, unless only its write failed, of the state file or of the pin file; then memory is what success leaves and that file is what it was |
| ControlPlane.ExposeSucceedsIff | src/daemon.rs:389-447 | exposing succeeds if and only if every key reads, there is someone to grant to, and the backend is valid |
| ControlPlane.ExposeKeepsItsPromise | src/daemon.rs:389-447 | the port is granted to exactly those named, or to every registered peer, and the listing then reports the backend in the words promised |
| ControlPlane.UnexposeRetires | src/daemon.rs:278-290 | exactly the covered grants go, and afterwards the port has a service only if it had one and still has a grantee |
| ControlPlane.ReadKeysReadsAll | src/daemon.rs:408-414 | every key is read, in order, or the error names one that cannot be |
| Lifecycle.RemovedPeerReturnsIff | src/daemon.rs:370-387 | after a successful removal no registration, socket, grant or printed pin of the peer is left; a restart hands back no grant, and registers the peer again if and only if it was pinned in another spelling |
| Admission.MintedTokenEnrollsIff | src/peer.rs:638-704 | a token minted by request enrolls the first unknown peer that presents it, with or without an announcement before it and whatever else happened in between, pinned under its label, if and only if less than its time to live has passed, no early port is held by a peer that answers the probe, and no live peer stands in the way of the announcement that follows; afterwards the token enrolls nobody |
| Admission.EveryPeerWasAdmitted | src/peer.rs:127-189 | at any point of any run of requests, peer activity and restarts, every registered peer was known at the start and never forgotten, or was last admitted by ticket, by pin, or by a token minted by request under its label, less than its time to live before, since the last restart, and presented by nobody in between |
| Admission.KnownIffLastAdmitted | src/peer.rs:562-704 | over a whole run a key is registered or pinned if and only if something admitted it and nothing after that made it forgotten, or it was known at the start and nothing did |
| Admission.KnownAfterMoveIff | src/peer.rs:562-704 | the same for one move |
| Admission.StartKnows | src/daemon.rs:168-198 | a start begins such a run: no tokens, every key the pin file names registered, and no other key known but those of flag peers |
| Admission.PendingWasMinted | src/enroll.rs:30-55 | every pending token was minted by a request of this run, and neither presented nor minted again nor outlived by a restart since |
| Admission.StaysClaimable | src/enroll.rs:48-55 | a minted token stays claimable until its time to live has passed, whatever other tokens are claimed and purged |
| Admission.TokensAfterMove | src/enroll.rs:30-55 | what each move does to the pending tokens |
| Lifecycle.PinAuthorizes | src/daemon.rs:490-506 | after a pin, and again after any restart, a connection from the key is installed whatever it presents, and no token is spent |
| Lifecycle.ServedIffLastOpened | src/peer.rs:356-377 | at any point of a whole run of requests, peer activity and restarts, a tunnel is served to a peer if and only if something opened its port to it and nothing after that revoked it or removed or evicted the peer, or it was granted at the start and nothing did since |
| Lifecycle.GrantedAfterMoveIff | src/daemon.rs:258-290 | after each move a port is granted to a key if and only if the move exposed or restored it, or it was granted and the move neither revoked it nor removed or evicted the key |
| PinText.PinOutlivesEvictionIff | src/peer.rs:186-189 | a key pinned by request and then evicted is registered by the next start if and only if the request or an earlier row spelled it otherwise than it is printed |
| PinText.UpperCasePinOutlivesEviction | src/peer.rs:186-189 | an example with a codec of its own: where keys were printed as lower-case hexadecimal and read in either case, an upper-case pin would outlive its eviction |
| PinText.WithIsWithPin | src/enroll.rs:84-92 | pinning rows of strings is pinning rows of key texts |
| PinText.WithoutIsWithoutText | src/enroll.rs:94-98 | likewise for unpinning |
| Startup.RestartRoundTrip | src/daemon.rs:206-256 | a daemon restarted over its own snapshot cannot fail and has the same grants, services and remaps |
| Startup.EveryRunStaysInStep | src/daemon.rs:354-488 | in every run of requests, peer activity and restarts, no restart fails, stored services and remaps equal memory, grants in memory are among the stored ones, and are equal after every successful Expose, Unexpose, Bind, RemovePeer or restart |
| Startup.MoveKeepsInStep | src/daemon.rs:354-488 | each single move keeps that |
| Startup.BareStartIsInStep | src/daemon.rs:573-587 | runs begin in that state, over any state file |
| Startup.RestartRestoresIff | src/daemon.rs:234-256 | a restart restores the grants in memory if and only if the file has no others; services and remaps it always restores |
| Startup.PeersOnlyShrinkGrants | src/peer.rs:565-587 | announcements and connections only ever shrink the grants, and never touch remaps |
| Startup.OverlayLaw | src/daemon.rs:555-609 | after a start: services are the stored ones overridden by flags, remaps likewise with the last flag winning, grants are the stored ones and every flag or service port times every readable peer named |
| Startup.StartRegisters | src/daemon.rs:602-621 | after a start a key is registered if and only if the pin file names it or some peer flag reads as it and is reached; a pinned one phones home under its label; any other is dialed, over the connection of the first flag that reached it, with the token of the flags |
| Startup.FirstStart | src/state.rs:67-70 | with neither a state file nor flags nothing is granted, declared or remapped |
| Startup.StartsIff | src/daemon.rs:555-587 | a daemon starts if and only if its flags declare each port once and validly, the file is not from a newer version, and every stored service no flag overrides is valid |
| Startup.StartIsSound | src/daemon.rs:555-623 | every start satisfies the run invariant of the tables |
| Overlay.OverlayForgottenIff | src/daemon.rs:206-230 | the first request written after a start, whatever peers and other requests did in between, writes the flags too: apart from what that request itself decides and from grants shut since, stored grants, services and remaps are what they were if and only if the flags granted, declared and remapped nothing that was not stored |
| Overlay.UnwrittenKeeps | src/daemon.rs:354-514 | until something is written, services and remaps are those of the start, and so are the grants but for those shut since |
| Overlay.FlagIsWritten | src/daemon.rs:589-591 | an example: a remap given by a flag is in the file after another one is declared |
| Overlay.WritesOnlyItsOwn | src/daemon.rs:370-488 | a request that is written changes no other grant, service or remap in memory |
| Overlay.WritesEverything | src/daemon.rs:206-230 | what it writes is all of memory |
| Startup.DeclaredIff | src/service.rs:371-376 | flag services are accepted if and only if each port is claimed once and each is valid, and are then exactly what the rows say |
| Startup.RemappedLastWins | src/daemon.rs:589-591 | for each port the last remap given wins, and other ports keep theirs |
| DaemonProcess.Daemon.TakeSnapshot | src/daemon.rs:206-220 | the nested grants flattened into rows sorted by port, with services and remaps |
| DaemonProcess.Daemon.Persist | src/daemon.rs:228-230 | writes the snapshot, or reports that it could not |
| DaemonProcess.Daemon.ExposeTo | src/daemon.rs:259-269 | grants one port to each key and changes nothing else |
| DaemonProcess.Daemon.UnexposeFrom | src/daemon.rs:278-290 | revokes, and retires the service of a port left without a grantee |
| DaemonProcess.Daemon.ListAll | src/daemon.rs:292-321 | every peer, every granted port with what serves it, every grant, every live binding, every remap |
| DaemonProcess.Daemon.ServeExpose | src/daemon.rs:389-447 | grantees and backend are checked before anything changes |
| DaemonProcess.Daemon.ServeUnexpose | src/daemon.rs:449-468 | the specified unexpose, with its error and dry-run cases |
| DaemonProcess.Daemon.ServeBind | src/daemon.rs:470-488 | the specified remap, written out |
| DaemonProcess.Daemon.ServeRemovePeer | src/daemon.rs:370-387 | eviction followed by a write, since it revokes grants |
| DaemonProcess.Daemon.ServeAddPeer | src/daemon.rs:356-368 | the specified addition; nothing is written |
| DaemonProcess.Daemon.ServePin | src/daemon.rs:490-506 | the specified pin, of the key as it was spelled; the state file is not touched |
| DaemonProcess.Daemon.MintFor | src/daemon.rs:512-512 | mints under the label, with the standard time to live |
| DaemonProcess.Daemon.ParseKeys | src/daemon.rs:408-414 | the loop reads every key or stops at the first that cannot be |
| DaemonProcess.Daemon.CommitExpose | src/daemon.rs:435-446 | registers the backend, grants, then writes |
| DaemonProcess.Daemon.RevokeFrom | src/daemon.rs:279-283 | revokes, and says whether the port has no grantee left |
| DaemonProcess.Daemon.HandleRequest | src/daemon.rs:354-514 | every request does to tables, services and file, and answers, what the control plane specifies |
| DaemonProcess.Daemon.Restore | src/daemon.rs:234-256 | what is registered already wins over stored services; stored grants and remaps are added |
| DaemonProcess.Daemon.RestoreGrants | src/daemon.rs:243-251 | adds every stored grant whose key can be read, drops the others |
| DaemonProcess.Daemon.RestoreBinds | src/daemon.rs:252-254 | sets every stored remap; before any peer announces this changes the remap table only |
| DaemonProcess.Daemon.ApplyBinds | src/daemon.rs:589-591 | flag remaps in order, later ones over earlier |
| DaemonProcess.Daemon.ExposeDeclared | src/daemon.rs:594-609 | flag ports and every service port, granted to every readable peer named |
| DaemonProcess.Daemon.DialPeers | src/daemon.rs:612-621 | adds the named peers in order; a failure skips one |
| DaemonProcess.Daemon.ApplyFlags | src/daemon.rs:589-623 | remaps in order, then grants for flag and service ports, then peers dialed |
| DaemonProcess.Run | src/daemon.rs:542-623 | the whole startup sequence does what the specification of a start says, and writes neither file |
| DaemonProcess.DeclareServices | src/daemon.rs:555-562 | registers flag services in order, or stops at the first refused |
| ControlPlane.DryRunIsHonest | src/daemon.rs:389-488 | a dry run of Expose, Unexpose or Bind changes nothing and gives the verdict, error kind and wording of the real run |
| Lifecycle.AddPeerOutcome | src/daemon.rs:356-368 | adding succeeds if and only if the key reads, is new and is reached; it registers exactly that peer, over that connection, and each failure has its own kind and changes nothing |

## Left out

- PeerManagement.PeerManager.UpdatePeerPorts: requires its peer to be registered; the code does not check this again, so an announcement handled after an eviction is not modelled.
- PeerManagement.PeerManager.AddPeer: one step; the code looks up, dials and inserts separately, so two additions of one key racing each other are not modelled.
- PeerManagement.PeerManager.HandleConnection: an enrollment is one step, from the messages read to the announcement applied; a race with another enrollment of the same key is not modelled.
- ConnectionLoop.EvictedLoopExits: for peers that phone home only; for dialed ones `ConnectionLoop.EvictedSlotRefillsIff` says what remains.
- Registry.EveryRunIsSound: a listener task is taken to run until it is dropped; the code ends it when accepting fails. Pin writes are taken to succeed.
- PeerManagement.PeerManager.Evict: the removal of the pin is taken to succeed; the code logs a failed one and goes on, which leaves the row in the file and nothing else different.
- PeerManagement.PeerManager.Enroll: the pin is taken to be written; when it cannot be, the code spends the token and registers nobody.
- Startup.EveryRunStaysInStep: requests come one at a time and state writes succeed; a failed write is covered for a single request by `ControlPlane.FailureChangesNothing`.
- Systemd.UnitReadsBackIff: line continuation by a final backslash is not part of the reader. The fixed lines of the unit before and after the command line are parameters, of which the former start no command line and have no line break.
- Systemd.UnitRunsAsInstalledIff: expansion is the same for every argument; systemd takes the path of the program itself as it is written, and reads prefix characters before it.
- Launchd.ArrayParsesBackIff: only the argument array, not the surrounding property list.
- ControlPlane.ReadKeysReadsAll: reading and writing a key are parameters; where a result needs that what is written reads back, it says so. Serialisation of the files likewise.
- DaemonProcess.Daemon.ListAll: the order of the rows; which connections are up is a parameter.
- DaemonProcess.Run: claiming the control socket, creating the key file and announcing to the peers just added are not modelled.
- Service.HttpPipeline: resolving and caching upstream names, and the headers set on the way, are not modelled.
- Network and QUIC transport, byte copying between streams, and the HTTP proxy library: a connection is an identifier that is open or closed, a probe is an oracle fixed for one pass.
- Probe timing, back-off times and logging.
- File modes, atomic replacement, and files that exist but cannot be read.
- Command-line parsing and rendering, the upgrade command, and the commands that drive systemd and launchd: they add no protocol of their own.
