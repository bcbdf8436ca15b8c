/** The daemon process: requests served over the mutable tables, and the startup
    sequence. Each method is proved to do what the control plane says. */
module DaemonProcess {
  import opened Common
  import opened Enrollment
  import opened PeerTables
  import opened Service
  import opened StateStore
  import opened ControlPlane
  import opened Startup
  import opened PeerManagement
  import opened Remap
  import Grants
  import Registry

  function FileMeaning(file: Option<State>): Option<Stored> {
    if file.Some? then Some(Meaning(file.value)) else None
  }

  class Daemon {
    const cfg: Config
    const peers: PeerManager
    const services: Services
    const store: Store

    constructor (cfg: Config, peers: PeerManager, services: Services, store: Store)
      requires peers.Valid() && services.Valid() && services.host == cfg.host
      ensures this.cfg == cfg && this.peers == peers && this.services == services && this.store == store
      ensures Valid() && View() == Node(peers.View(), services.Specs(), FileMeaning(store.file))
    {
      this.cfg := cfg;
      this.peers := peers;
      this.services := services;
      this.store := store;
    }

    ghost function View(): Node
      reads peers, peers.peers.Values, peers.grants, peers.tokens, peers.pins, peers.os, services, store
    {
      Node(peers.View(), services.Specs(), FileMeaning(store.file))
    }

    ghost predicate Valid()
      reads peers, peers.peers.Values, peers.grants, peers.tokens, peers.pins, peers.os, services
    {
      peers.Valid() && services.Valid() && services.host == cfg.host
    }

    /** The state a new process could not know; the grants are flattened into
        rows sorted by port. The store stamps the version. */
    method TakeSnapshot() returns (s: State)
      requires Valid()
      ensures Meaning(s.(version := VERSION)) == Snapshot(cfg.codec, View())
      ensures forall i, j :: 0 <= i < j < |s.grants| ==> s.grants[i].0 <= s.grants[j].0
    {
      var rows := peers.grants.All();
      var printed := seq(|rows|, i requires 0 <= i < |rows| => (rows[i].0, cfg.codec.show(rows[i].1)));
      RowsPrinted(cfg.codec, rows, printed, peers.grants.Pairs());
      var specs := services.Snapshot();
      s := State(0, printed, specs, peers.binds);
    }

    /** Writes the current declarations out, or says that it could not. */
    method Persist(disk: bool, detail: string) returns (r: Response)
      requires Valid()
      modifies store
      ensures Valid() && (View(), r) == Written(cfg, old(View()), disk, detail)
    {
      var s := TakeSnapshot();
      var saved := store.Save(s, disk);
      r := if saved then Done(false, detail) else Failed(Internal, NotWritten);
    }

    /** Grants `port` to each of `keys`. */
    method ExposeTo(port: Port, keys: seq<Key>)
      requires Valid()
      modifies peers.grants
      ensures Valid()
      ensures View() == old(View()).(world := old(View()).world.(grants := GrantAll(old(View()).world.grants, port, keys)))
    {
      ghost var w := peers.View();
      for i := 0 to |keys|
        invariant peers.grants.Valid()
        invariant peers.grants.Pairs() == GrantAll(w.grants, port, keys[..i])
      {
        peers.grants.AddGrant(port, keys[i]);
      }
      assert keys[..|keys|] == keys;
      Regranted(w, GrantAll(w.grants, port, keys));
    }

    /** The tables are `w` but for the grants, when only the grant table moved. */
    lemma Regranted(w: World, rel: Grants.Relation)
      requires Agree(w) && (forall k <- peers.peers :: peers.peers[k].key == k) && peers.grants.Valid()
      requires peers.grants.Pairs() == rel && peers.View() == w.(grants := rel)
      ensures peers.Valid()
    {
      Registry.SamePortsAgree(w, peers.View());
    }

    method RevokeFrom(port: Port, grantee: Option<Key>) returns (ungranted: bool)
      requires Valid()
      modifies peers.grants
      ensures Valid() && ungranted == (port !in Grants.PortsOf(View().world.grants))
      ensures View() == old(View()).(world := old(View()).world.(
                          grants := Grants.Remove(old(View()).world.grants, port, grantee)))
    {
      ghost var w := peers.View();
      peers.grants.RemoveGrant(port, grantee);
      Regranted(w, Grants.Remove(w.grants, port, grantee));
      var ports := peers.grants.Ports();
      Grants.PortsListed(ports, peers.grants.Pairs());
      ungranted := port !in ports;
    }

    /** Revokes, and drops the service of a port with no grantee left. */
    method UnexposeFrom(port: Port, grantee: Option<Key>)
      requires Valid()
      modifies peers.grants, services
      ensures Valid() && View() == Unexposed(old(View()), port, grantee)
    {
      var ungranted := RevokeFrom(port, grantee);
      if ungranted {
        var retired := services.Remove(port);
      }
    }

    method ListPeers(up: set<ConnId>) returns (rows: set<PeerRow>)
      ensures rows == PeerRows(cfg.codec, View().world, up)
    {
      rows := set k <- peers.peers ::
        PeerRow(cfg.codec.show(k), peers.peers[k].name,
                peers.peers[k].conn.Some? && peers.peers[k].conn.value in up, peers.peers[k].exposed);
    }

    method ListBindings() returns (rows: set<BindingRow>)
      ensures rows == BindingRows(cfg.codec, View().world)
    {
      rows := set k <- peers.peers, p <- peers.peers[k].bindings ::
        BindingRow(p, peers.peers[k].bindings[p], cfg.codec.show(k));
      ghost var w := peers.View();
      assert forall k <- peers.peers :: w.peers[k].bindings == peers.peers[k].bindings;
      assert rows <= BindingRows(cfg.codec, w);
    }

    method ListExposed() returns (exposed: map<Port, string>)
      requires Valid()
      ensures exposed == ExposedPorts(cfg, View())
    {
      var ports := peers.grants.Ports();
      Grants.PortsListed(ports, peers.grants.Pairs());
      exposed := services.DescribeEach(ports);
    }

    method ListGrants() returns (printed: set<(Port, string)>)
      ensures printed == PrintedRows(cfg.codec, View().world.grants)
    {
      var rows := peers.grants.All();
      printed := set row <- rows :: (row.0, cfg.codec.show(row.1));
      RowsListed(cfg.codec, rows, peers.grants.Pairs());
    }

    /** Everything there is to list; `up` are the connections that are up. */
    method ListAll(up: set<ConnId>) returns (r: Response)
      requires Valid()
      ensures r == Listed(cfg, View(), up)
    {
      var listed := ListPeers(up);
      var exposed := ListExposed();
      var grants := ListGrants();
      var bindings := ListBindings();
      r := Listing(listed, exposed, grants, bindings, peers.binds);
    }

    // ------------------------------------------------------------- requests

    method ServeAddPeer(ticket: string, dryRun: bool, env: ReqEnv) returns (r: Response)
      requires Valid()
      modifies peers`peers
      ensures Valid() && (View(), r) == HandleAddPeer(cfg, old(View()), ticket, dryRun, env)
    {
      var key := cfg.codec.read(ticket);
      if key.None? {
        return Failed(Invalid, BadKey(ticket));
      }
      if dryRun {
        return Done(true, "connect to peer " + cfg.codec.show(key.value));
      }
      var error := peers.AddPeer(key.value, None, env.reached);
      match error {
        case None => r := Done(false, "connected to peer " + ticket);
        case Some(kind) => r := Failed(kind, if kind == Conflict then PeerExists else Unreached);
      }
    }

    method ServeRemovePeer(ticket: string, dryRun: bool, env: ReqEnv) returns (r: Response)
      requires Valid()
      modifies peers`peers, peers.peers.Values, peers.grants, peers.pins, peers.os`listeners, peers.os`closed, store
      ensures Valid() && (View(), r) == HandleRemovePeer(cfg, old(View()), ticket, dryRun, env)
    {
      var key := cfg.codec.read(ticket);
      if key.None? {
        return Failed(Invalid, BadKey(ticket));
      }
      if dryRun {
        return Done(true, "disconnect from peer " + cfg.codec.show(key.value));
      }
      var error := peers.RemovePeer(key.value);
      match error {
        case None => r := Persist(env.disk, "removed peer " + ticket);
        case Some(kind) => r := Failed(kind, NoSuchPeer);
      }
    }

    /** The keys of `texts`, or the first that cannot be read. */
    method ParseKeys(texts: seq<string>) returns (keys: Result<seq<Key>, Why>)
      ensures keys == ReadKeys(cfg.codec, texts)
    {
      var done: seq<Key> := [];
      assert texts[0..] == texts;
      NothingBefore(ReadKeys(cfg.codec, texts));
      for i := 0 to |texts|
        invariant ReadKeys(cfg.codec, texts) == Prepend(done, ReadKeys(cfg.codec, texts[i..]))
      {
        assert texts[i..][1..] == texts[i + 1..];
        match cfg.codec.read(texts[i]) {
          case None => return Err(BadKey(texts[i]));
          case Some(k) =>
            OneMore(done, k, ReadKeys(cfg.codec, texts[i + 1..]));
            done := done + [k];
        }
      }
      assert texts[|texts|..] == [] && done + [] == done;
      keys := Ok(done);
    }

    /** Naming no one means every registered peer. */
    method ResolveGrantees(to: seq<string>, order: seq<Key>) returns (keys: Result<seq<Key>, Why>)
      ensures keys == Grantees(cfg.codec, to, order)
    {
      if to == [] {
        keys := if order == [] then Err(NobodyToGrant) else Ok(order);
      } else {
        keys := ParseKeys(to);
      }
    }

    method ServeExpose(port: Port, to: seq<string>, backend: Option<BackendSpec>, dryRun: bool, env: ReqEnv) returns (r: Response)
      requires Valid()
      modifies peers.grants, services, store
      ensures Valid() && (View(), r) == HandleExpose(cfg, old(View()), port, to, backend, dryRun, env)
    {
      var keys := ResolveGrantees(to, env.order);
      match keys {
        case Err(why) => r := Failed(Invalid, why);
        case Ok(granted) =>
          if backend.Some? && Validate(backend.value, port).Some? {
            return Failed(Invalid, BadBackend(Validate(backend.value, port).value));
          }
          var served := DescribeServed(port, backend);
          var detail := ExposeDetail(port, |granted|, served);
          if dryRun {
            return Done(true, detail);
          }
          r := CommitExpose(port, granted, backend, env.disk, detail);
      }
    }

    method DescribeServed(port: Port, backend: Option<BackendSpec>) returns (text: string)
      requires Valid()
      ensures text == ServedBy(cfg, View().specs, port, backend)
    {
      if backend.Some? {
        text := DescribeSpec(backend.value);
      } else {
        text := services.DescribePort(port);
      }
    }

    method CommitExpose(port: Port, keys: seq<Key>, backend: Option<BackendSpec>, disk: bool, detail: string) returns (r: Response)
      requires Valid() && (backend.Some? ==> Validate(backend.value, port) == None)
      modifies peers.grants, services, store
      ensures Valid() && (View(), r) == Written(cfg, Exposed(old(View()), port, keys, backend), disk, detail)
    {
      ghost var n := View();
      if backend.Some? {
        var fault := services.Register(port, backend.value);
      }
      assert View() == n.(specs := Exposed(n, port, keys, backend).specs);
      ExposeTo(port, keys);
      r := Persist(disk, detail);
    }

    method ServeUnexpose(port: Port, grantee: Option<string>, dryRun: bool, env: ReqEnv) returns (r: Response)
      requires Valid()
      modifies peers.grants, services, store
      ensures Valid() && (View(), r) == HandleUnexpose(cfg, old(View()), port, grantee, dryRun, env)
    {
      var key: Option<Key> := None;
      if grantee.Some? {
        key := cfg.codec.read(grantee.value);
        if key.None? {
          return Failed(Invalid, BadKey(grantee.value));
        }
      }
      var detail := if key.Some? then "revoke " + Decimal(port) + " from " + cfg.codec.show(key.value)
                    else "revoke every grant for " + Decimal(port);
      if dryRun {
        return Done(true, detail);
      }
      UnexposeFrom(port, key);
      r := Persist(env.disk, detail);
    }

    method ServeBind(port: Port, local: Option<Port>, dryRun: bool, env: ReqEnv) returns (r: Response)
      requires Valid() && Enumerates(env.order, peers.peers.Keys)
      modifies peers`binds, peers.peers.Values, peers.os`listeners, store
      ensures Valid() && (View(), r) == HandleBind(cfg, old(View()), port, local, dryRun, env)
    {
      var detail := BindDetail(port, local);
      if dryRun {
        return Done(true, detail);
      }
      peers.SetBind(port, local, env.order, env.offers);
      r := Persist(env.disk, detail);
    }

    method ServePin(key: string, name: string, dryRun: bool, env: ReqEnv) returns (r: Response)
      requires Valid()
      modifies peers`peers, peers.pins
      ensures Valid() && (View(), r) == HandlePin(cfg, old(View()), key, name, dryRun, env)
    {
      var k := cfg.codec.read(key);
      if k.None? {
        return Failed(Invalid, BadKey(key));
      }
      if dryRun {
        return Done(true, "pin " + cfg.codec.show(k.value) + " as \"" + name + "\"");
      }
      var saved := peers.PinPeer(TextOf(cfg.codec, key), name, env.pinsDisk);
      r := if !saved then Failed(Internal, NotWritten) else Done(false, "pinned " + key + " as \"" + name + "\"");
    }

    method MintFor(name: string, env: ReqEnv) returns (r: Response)
      requires Valid()
      modifies peers.tokens
      ensures Valid() && r == Text(env.token.hex)
      ensures View() == old(View()).(world := old(View()).world.(
                          tokens := MintToken(old(View()).world.tokens, env.token, name, TOKEN_TTL, env.now)))
    {
      ghost var w := peers.View();
      peers.tokens.MintWithTtl(name, TOKEN_TTL, env.token, env.now);
      assert peers.View().peers == w.peers;
      Registry.SamePortsAgree(w, peers.View());
      r := Text(env.token.hex);
    }

    /** Serves one request. `env` says what serving it cannot control. */
    method HandleRequest(req: Request, env: ReqEnv) returns (r: Response)
      requires Valid() && Enumerates(env.order, peers.peers.Keys)
      modifies peers, peers.peers.Values, peers.grants, peers.tokens, peers.pins, peers.os, services, store
      ensures Valid() && (View(), r) == Handle(cfg, old(View()), req, env)
    {
      match req {
        case AddPeer(ticket, dryRun) => r := ServeAddPeer(ticket, dryRun, env);
        case RemovePeer(ticket, dryRun) => r := ServeRemovePeer(ticket, dryRun, env);
        case Expose(port, to, backend, dryRun) => r := ServeExpose(port, to, backend, dryRun, env);
        case Unexpose(port, grantee, dryRun) => r := ServeUnexpose(port, grantee, dryRun, env);
        case Bind(port, local, dryRun) => r := ServeBind(port, local, dryRun, env);
        case Pin(key, name, dryRun) => r := ServePin(key, name, dryRun, env);
        case GrantToken(name) => r := MintFor(name, env);
        case List => r := ListAll(env.up);
        case Ticket => r := Text(cfg.codec.show(cfg.me));
      }
    }

    // -------------------------------------------------------------- startup

    /** Registers the stored services whose port no flag claimed; an invalid one
        stops the daemon. */
    method RestoreServices(stored: Specs) returns (ok: bool)
      requires Valid()
      modifies services
      ensures Valid() && ok == Restorable(old(View()).specs, stored)
      ensures ok ==> View() == old(View()).(specs := stored + old(View()).specs)
    {
      ok := services.RegisterMissing(stored);
    }

    /** Adds the stored grants; a row whose key cannot be read is dropped. */
    method RestoreGrants(rows: seq<(Port, string)>)
      requires Valid()
      modifies peers.grants
      ensures Valid()
      ensures View() == old(View()).(world := old(View()).world.(
                          grants := old(View()).world.grants + Readable(cfg.codec, RowSet(rows))))
    {
      ghost var w := peers.View();
      for i := 0 to |rows|
        invariant peers.grants.Valid()
        invariant peers.grants.Pairs() == w.grants + Readable(cfg.codec, RowSet(rows[..i]))
      {
        match cfg.codec.read(rows[i].1) {
          case Some(k) => peers.grants.AddGrant(rows[i].0, k);
          case None =>
        }
      }
      assert rows[..|rows|] == rows;
      Regranted(w, w.grants + Readable(cfg.codec, RowSet(rows)));
    }

    /** One remap, before any peer announces. */
    method BindQuietly(port: Port, local: Port, offers: nat -> Port)
      requires Valid() && Quiet(View().world)
      modifies peers`binds, peers.peers.Values, peers.os`listeners
      ensures Valid()
      ensures View() == old(View()).(world := old(View()).world.(binds := old(View()).world.binds[port := local]))
    {
      peers.SetBindQuietly(port, local, offers);
    }

    method RestoreBinds(stored: map<Port, Port>, offers: nat -> Port)
      requires Valid() && Quiet(View().world)
      modifies peers`binds, peers.peers.Values, peers.os`listeners
      ensures Valid()
      ensures View() == old(View()).(world := old(View()).world.(binds := old(View()).world.binds + stored))
    {
      peers.SetBindsQuietly(stored, offers);
    }

    /** Restores what a previous run was told, before any peer announces. */
    method Restore(s: State, offers: nat -> Port) returns (ok: bool)
      requires Valid() && Quiet(View().world)
      modifies services, peers.grants, peers`binds, peers.peers.Values, peers.os`listeners
      ensures Valid() && ok == Restorable(old(View()).specs, s.services)
      ensures ok ==> View() == Restored(cfg.codec, old(View()), Meaning(s))
    {
      if IsEmpty(s) {
        return true;
      }
      ok := RestoreServices(s.services);
      if ok {
        RestoreGrants(s.grants);
        RestoreBinds(s.binds, offers);
      }
    }

    /** Remaps from flags, in the order given. */
    method ApplyBinds(rows: seq<(Port, Port)>, offers: nat -> Port)
      requires Valid() && Quiet(View().world)
      modifies peers`binds, peers.peers.Values, peers.os`listeners
      ensures Valid()
      ensures View() == old(View()).(world := old(View()).world.(binds := Remapped(old(View()).world.binds, rows)))
    {
      ghost var n := View();
      for i := 0 to |rows|
        invariant Valid() && View() == n.(world := n.world.(binds := Remapped(n.world.binds, rows[..i])))
      {
        assert rows[..i + 1][..i] == rows[..i];
        BindQuietly(rows[i].0, rows[i].1, offers);
      }
      assert rows[..|rows|] == rows;
    }

    /** Grants every port to every key. */
    method ExposeEach(ports: set<Port>, keys: seq<Key>)
      requires Valid()
      modifies peers.grants
      ensures Valid()
      ensures View() == GrantedEach(old(View()), ports, set k <- keys)
    {
      ghost var n := View();
      ghost var named := set k <- keys;
      var rest := ports;
      assert ports - ports == {} && n.world.grants + Product({}, named) == n.world.grants;
      while rest != {}
        invariant rest <= ports && Valid()
        invariant View() == GrantedEach(n, ports - rest, named)
        decreases rest
      {
        var p :| p in rest;
        ExposeTo(p, keys);
        rest := rest - {p};
      }
      assert ports - {} == ports;
    }

    /** Adds the peers named by flags; one that cannot be added is passed over. */
    method DialPeers(tickets: seq<string>, token: Option<string>, reached: nat -> Option<ConnId>)
      requires Valid()
      modifies peers`peers
      ensures Valid()
      ensures View() == old(View()).(world := DialAll(cfg.codec, old(View()).world, tickets, token, reached))
    {
      ghost var n := View();
      for i := 0 to |tickets|
        invariant Valid() && View() == n.(world := DialAll(cfg.codec, n.world, tickets[..i], token, reached))
      {
        assert tickets[..i + 1][..i] == tickets[..i];
        match cfg.codec.read(tickets[i]) {
          case Some(k) => var error := peers.AddPeer(k, token, reached(i));
          case None =>
        }
      }
      assert tickets[..|tickets|] == tickets;
    }

    /** This run's declarations over what was restored. */
    method ApplyFlags(flags: Flags, reached: nat -> Option<ConnId>, offers: nat -> Port)
      requires Valid() && Quiet(View().world)
      modifies peers, peers.peers.Values, peers.grants, peers.os`listeners
      ensures Valid() && View() == Overlay(cfg.codec, old(View()), flags, reached)
    {
      ApplyBinds(flags.binds, offers);
      ExposeDeclared(flags.ports, flags.peers);
      DialPeers(flags.peers, flags.token, reached);
    }

    /** Grants the ports of flags and every service port to the peers of flags. */
    method ExposeDeclared(ports: set<Port>, tickets: seq<string>)
      requires Valid()
      modifies peers.grants
      ensures Valid()
      ensures View() == GrantedEach(old(View()), ports + old(View()).specs.Keys, Addressed(cfg.codec, tickets))
    {
      ghost var n := View();
      var declared := services.Ports();
      var keys := ParseReadable(tickets);
      assert declared == n.specs.Keys && (set k <- keys) == Addressed(cfg.codec, tickets);
      ExposeEach(ports + declared, keys);
    }

    /** Restores the state of the last run, then applies the flags of this one. */
    method Configure(s: State, flags: Flags, reached: nat -> Option<ConnId>, offers: nat -> Port) returns (ok: bool)
      requires Valid() && Quiet(View().world)
      modifies services, peers, peers.peers.Values, peers.grants, peers.os`listeners
      ensures Valid() && ok == Restorable(old(View()).specs, s.services)
      ensures ok ==> View() == Overlay(cfg.codec, Restored(cfg.codec, old(View()), Meaning(s)), flags, reached)
    {
      ok := Restore(s, offers);
      if ok {
        ApplyFlags(flags, reached, offers);
      }
    }

    /** The keys that can be read among `tickets`. */
    method ParseReadable(tickets: seq<string>) returns (keys: seq<Key>)
      ensures (set k <- keys) == Addressed(cfg.codec, tickets)
    {
      keys := [];
      for i := 0 to |tickets|
        invariant (set k <- keys) == Addressed(cfg.codec, tickets[..i])
      {
        match cfg.codec.read(tickets[i]) {
          case Some(k) =>
            assert (set x <- keys + [k]) == (set x <- keys) + {k};
            keys := keys + [k];
          case None =>
        }
      }
      assert tickets[..|tickets|] == tickets;
    }
  }

  /** What flags make of a daemon that has its state restored. */
  function Overlay(c: Codec, n: Node, flags: Flags, reached: nat -> Option<ConnId>): Node {
    var granted := Product(flags.ports + n.specs.Keys, Addressed(c, flags.peers));
    var w := n.world.(grants := n.world.grants + granted, binds := Remapped(n.world.binds, flags.binds));
    n.(world := DialAll(c, w, flags.peers, flags.token, reached))
  }

  lemma StartRestoresThenOverlays(cfg: Config, pins: seq<Pin>, file: Option<Stored>, flags: Flags, env: BootEnv, specs: Specs)
    requires DeclaredBy(flags.services) == Some(specs) && Loaded(file).version <= VERSION
    ensures var s, n := Loaded(file), Node(Registry.Boot(pins, env.foreign), specs, file);
            Start(cfg, pins, file, flags, env) ==
            if Restorable(specs, s.services) then Some(Overlay(cfg.codec, Restored(cfg.codec, n, s), flags, env.reached)) else None
  {
    var s := Loaded(file);
    assert {} + Readable(cfg.codec, s.grants) == Readable(cfg.codec, s.grants);
    assert map[] + s.binds == s.binds;
  }

  lemma LoadedMeans(file: Option<State>)
    ensures Loaded(FileMeaning(file)) == Meaning(if file.None? then EMPTY_STATE else file.value)
  {
  }

  lemma BootIsQuiet(pins: seq<Pin>, foreign: set<Port>)
    ensures Quiet(Registry.Boot(pins, foreign))
  {
    Registry.PinnedIsPins(pins);
  }

  /** Registers the services flags declare; null when one is refused. */
  method DeclareServices(host: string, rows: seq<(Port, BackendSpec)>) returns (services: Services?)
    ensures services == null ==> DeclaredBy(rows) == None
    ensures services != null ==> fresh(services) && services.Valid() && services.host == host
                                 && DeclaredBy(rows) == Some(services.Specs())
  {
    services := new Services(host);
    for i := 0 to |rows|
      invariant fresh(services) && services.Valid() && services.host == host
      invariant DeclaredBy(rows[..i]) == Some(services.Specs())
    {
      assert rows[..i + 1][..i] == rows[..i];
      var fault := services.RegisterNew(rows[i].0, rows[i].1);
      if fault.Some? {
        RefusedStaysRefused(rows, i + 1);
        return null;
      }
    }
    assert rows[..|rows|] == rows;
  }

  lemma {:induction false} RefusedStaysRefused(rows: seq<(Port, BackendSpec)>, i: nat)
    requires i <= |rows| && DeclaredBy(rows[..i]) == None
    ensures DeclaredBy(rows) == None
    decreases |rows| - i
  {
    if i < |rows| {
      assert rows[..i + 1][..i] == rows[..i];
      RefusedStaysRefused(rows, i + 1);
    } else {
      assert rows[..i] == rows;
    }
  }

  /** A daemon over the pin file, with nothing restored yet. */
  method Open(cfg: Config, services: Services, store: Store, pins: Pins, foreign: set<Port>) returns (d: Daemon)
    requires services.Valid() && services.host == cfg.host
    ensures fresh(d) && fresh(d.peers) && fresh(d.peers.grants) && fresh(d.peers.os) && fresh(d.peers.peers.Values)
    ensures d.cfg == cfg && d.services == services && d.store == store && d.peers.pins == pins
    ensures d.Valid() && Quiet(d.View().world)
    ensures d.View() == Node(Registry.Boot(pins.Contents(), foreign), services.Specs(), FileMeaning(store.file))
  {
    var grants := new Grants.GrantTable();
    var tokens := new Tokens();
    var os := new Os(foreign);
    var peers := new PeerManager(grants, tokens, pins, os);
    peers.LoadPinned();
    BootIsQuiet(pins.Contents(), foreign);
    d := new Daemon(cfg, peers, services, store);
  }

  /** Starts a daemon; null when it stops instead. Neither file is written. */
  method Run(cfg: Config, pins: Pins, store: Store, flags: Flags, env: BootEnv, offers: nat -> Port) returns (d: Daemon?)
    ensures d == null ==> Start(cfg, pins.Contents(), FileMeaning(store.file), flags, env) == None
    ensures d != null ==> d.Valid() && Start(cfg, pins.Contents(), FileMeaning(store.file), flags, env) == Some(d.View())
  {
    var services := DeclareServices(cfg.host, flags.services);
    if services == null {
      return null;
    }
    var loaded := store.Load();
    if loaded.Err? {
      return null;
    }
    d := Open(cfg, services, store, pins, env.foreign);
    LoadedMeans(store.file);
    StartRestoresThenOverlays(cfg, pins.Contents(), FileMeaning(store.file), flags, env, services.Specs());
    var ok := d.Configure(loaded.value, flags, env.reached, offers);
    if !ok {
      d := null;
    }
  }

  function GrantedEach(n: Node, ports: set<Port>, keys: set<Key>): Node {
    n.(world := n.world.(grants := n.world.grants + Product(ports, keys)))
  }

  /** What restoring `s` makes of a daemon. */
  function Restored(c: Codec, n: Node, s: Stored): Node {
    n.(specs := s.services + n.specs,
       world := n.world.(grants := n.world.grants + Readable(c, s.grants), binds := n.world.binds + s.binds))
  }

  /** The keys of `rest` after those of `done`. */
  function Prepend(done: seq<Key>, rest: Result<seq<Key>, Why>): Result<seq<Key>, Why> {
    match rest case Err(why) => Err(why) case Ok(keys) => Ok(done + keys)
  }

  lemma NothingBefore(rest: Result<seq<Key>, Why>)
    ensures Prepend([], rest) == rest
  {
    assert rest.Ok? ==> [] + rest.value == rest.value;
  }

  lemma OneMore(done: seq<Key>, k: Key, rest: Result<seq<Key>, Why>)
    ensures Prepend(done, match rest case Err(why) => Err(why) case Ok(keys) => Ok([k] + keys)) == Prepend(done + [k], rest)
  {
    assert rest.Ok? ==> done + ([k] + rest.value) == done + [k] + rest.value;
  }

  lemma RowsListed(c: Codec, rows: seq<(Port, Key)>, rel: Grants.Relation)
    requires multiset(rows) == multiset(rel)
    ensures (set row <- rows :: (row.0, c.show(row.1))) == PrintedRows(c, rel)
  {
    assert forall row :: row in rows <==> row in multiset(rows);
  }

  lemma RowsPrinted(c: Codec, rows: seq<(Port, Key)>, printed: seq<(Port, string)>, rel: Grants.Relation)
    requires multiset(rows) == multiset(rel)
    requires |printed| == |rows| && forall i :: 0 <= i < |rows| ==> printed[i] == (rows[i].0, c.show(rows[i].1))
    ensures RowSet(printed) == PrintedRows(c, rel)
  {
    RowsListed(c, rows, rel);
    forall row ensures row in printed <==> row in PrintedRows(c, rel) {
      if row in printed {
        var i :| 0 <= i < |printed| && printed[i] == row;
        assert rows[i] in rows;
      }
      if row in PrintedRows(c, rel) {
        var g :| g in rows && row == (g.0, c.show(g.1));
        var i :| 0 <= i < |rows| && rows[i] == g;
        assert printed[i] == row;
      }
    }
  }

}
