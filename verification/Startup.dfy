/** Starting a daemon over its state file and its flags, and how memory and the
    file stay in step over whole runs. */
module Startup {
  import opened Common
  import opened Enrollment
  import opened PeerTables
  import opened Service
  import opened StateStore
  import opened ControlPlane
  import opened Remap
  import opened Announcement
  import Grants
  import Registry

  /** Everything a daemon is invoked with that it declares: services, remaps in
      the order given, ports to expose, and the peers to add and expose them to. */
  datatype Flags = Flags(services: seq<(Port, BackendSpec)>, binds: seq<(Port, Port)>, ports: set<Port>,
                         peers: seq<string>, token: Option<string>)

  const NO_FLAGS := Flags([], [], {}, [], None)

  /** The services declared by flags; a port claimed twice, or an invalid one,
      stops the daemon. */
  function DeclaredBy(rows: seq<(Port, BackendSpec)>): Option<Specs> {
    if rows == [] then Some(map[])
    else
      var (port, spec) := rows[|rows| - 1];
      match DeclaredBy(rows[..|rows| - 1])
      case None => None
      case Some(specs) => if port in specs || Validate(spec, port) != None then None else Some(specs[port := spec])
  }

  /** Remaps applied one after the other. */
  function Remapped(binds: map<Port, Port>, rows: seq<(Port, Port)>): map<Port, Port> {
    if rows == [] then binds
    else Remapped(binds, rows[..|rows| - 1])[rows[|rows| - 1].0 := rows[|rows| - 1].1]
  }

  /** The peers named by flags whose key can be read. */
  function Addressed(c: Codec, peers: seq<string>): set<Key> {
    set t <- peers | c.read(t).Some? :: c.read(t).value
  }

  function Product(ports: set<Port>, keys: set<Key>): Grants.Relation {
    set p <- ports, k <- keys :: (p, k)
  }

  /** Dialing one peer named by a flag; failing to is logged and passed over. */
  function DialOne(c: Codec, w: World, ticket: string, token: Option<string>, reached: Option<ConnId>): World {
    match c.read(ticket)
    case None => w
    case Some(k) => Registry.AddPeer(w, k, token, reached).0
  }

  function DialAll(c: Codec, w: World, peers: seq<string>, token: Option<string>, reached: nat -> Option<ConnId>): World {
    if peers == [] then w
    else
      var n := |peers| - 1;
      DialOne(c, DialAll(c, w, peers[..n], token, reached), peers[n], token, reached(n))
  }

  /** What the system brings to a start: the ports it refuses, and which of the
      peers named by flags are reached. */
  datatype BootEnv = BootEnv(foreign: set<Port>, reached: nat -> Option<ConnId>)

  /** A daemon started over a pin file and a state file; None when it stops. */
  ghost function Start(cfg: Config, pins: seq<Pin>, file: Option<Stored>, flags: Flags, env: BootEnv): Option<Node> {
    var s := Loaded(file);
    match DeclaredBy(flags.services)
    case None => None
    case Some(declared) =>
      if s.version > VERSION || !Restorable(declared, s.services) then None
      else
        var specs := s.services + declared;
        var granted := Product(flags.ports + specs.Keys, Addressed(cfg.codec, flags.peers));
        var w := Registry.Boot(pins, env.foreign).(
          grants := Readable(cfg.codec, s.grants) + granted,
          binds := Remapped(s.binds, flags.binds));
        Some(Node(DialAll(cfg.codec, w, flags.peers, flags.token, env.reached), specs, file))
  }

  // -------------------------------------------------------------- the overlay

  ghost predicate Claims(rows: seq<(Port, BackendSpec)>, p: Port) {
    exists i :: 0 <= i < |rows| && rows[i].0 == p
  }

  ghost predicate OnceEach(rows: seq<(Port, BackendSpec)>) {
    forall i, j :: 0 <= i < j < |rows| ==> rows[i].0 != rows[j].0
  }

  ghost predicate EachValid(rows: seq<(Port, BackendSpec)>) {
    forall i :: 0 <= i < |rows| ==> Validate(rows[i].1, rows[i].0) == None
  }

  /** The services are exactly what the rows declare. */
  ghost predicate SameAsRows(specs: Specs, rows: seq<(Port, BackendSpec)>) {
    && (forall p: Port :: p in specs <==> Claims(rows, p))
    && (forall i :: 0 <= i < |rows| ==> rows[i].0 in specs && specs[rows[i].0] == rows[i].1)
  }

  lemma {:induction false} DeclaredIff(rows: seq<(Port, BackendSpec)>)
    ensures DeclaredBy(rows).Some? <==> OnceEach(rows) && EachValid(rows)
    ensures DeclaredBy(rows).Some? ==> SameAsRows(DeclaredBy(rows).value, rows)
  {
    if rows != [] {
      var n := |rows| - 1;
      DeclaredIff(rows[..n]);
      if DeclaredBy(rows).Some? {
        SameAsRowsNext(DeclaredBy(rows[..n]).value, rows);
      }
    }
  }

  lemma SameAsRowsNext(specs: Specs, rows: seq<(Port, BackendSpec)>)
    requires rows != [] && SameAsRows(specs, rows[..|rows| - 1]) && rows[|rows| - 1].0 !in specs
    ensures SameAsRows(specs[rows[|rows| - 1].0 := rows[|rows| - 1].1], rows)
  {
  }

  /** Row `i` is the last one about its port. */
  ghost predicate IsLast(rows: seq<(Port, Port)>, i: nat) {
    i < |rows| && forall j :: i < j < |rows| ==> rows[j].0 != rows[i].0
  }

  lemma {:induction false} RemappedLastWins(binds: map<Port, Port>, rows: seq<(Port, Port)>)
    ensures forall i: nat :: IsLast(rows, i) ==> rows[i].0 in Remapped(binds, rows) && Remapped(binds, rows)[rows[i].0] == rows[i].1
    ensures forall p: Port :: (forall i :: 0 <= i < |rows| ==> rows[i].0 != p) ==>
              (p in Remapped(binds, rows) <==> p in binds) && (p in binds ==> Remapped(binds, rows)[p] == binds[p])
  {
    if rows != [] {
      var n := |rows| - 1;
      var front := rows[..n];
      RemappedLastWins(binds, front);
      forall i: nat | IsLast(rows, i)
        ensures rows[i].0 in Remapped(binds, rows) && Remapped(binds, rows)[rows[i].0] == rows[i].1
      {
        if i < n {
          assert IsLast(front, i);
          assert rows[n].0 != rows[i].0;
        }
      }
      forall p: Port | forall i :: 0 <= i < |rows| ==> rows[i].0 != p
        ensures (p in Remapped(binds, rows) <==> p in binds) && (p in binds ==> Remapped(binds, rows)[p] == binds[p])
      {
        assert rows[n].0 != p && forall i :: 0 <= i < n ==> front[i].0 != p;
      }
    }
  }

  lemma {:induction false} DialAllKeeps(c: Codec, w: World, peers: seq<string>, token: Option<string>, reached: nat -> Option<ConnId>)
    ensures var w' := DialAll(c, w, peers, token, reached);
            && w' == w.(peers := w'.peers)
            && (forall x <- w.peers :: x in w'.peers && w'.peers[x] == w.peers[x])
            && (forall x <- w'.peers :: x !in w.peers ==> x in Addressed(c, peers) && w'.peers[x].dial)
            && Registry.SamePorts(w, w')
  {
    if peers != [] {
      DialAllKeeps(c, w, peers[..|peers| - 1], token, reached);
    }
  }

  /** Flag `i` is the first that names `x` and reaches it. */
  ghost predicate FirstDial(c: Codec, peers: seq<string>, reached: nat -> Option<ConnId>, i: nat, x: Key) {
    && Dials(c, peers, reached, i, x)
    && forall j: nat :: j < i ==> !Dials(c, peers, reached, j, x)
  }

  ghost predicate Dials(c: Codec, peers: seq<string>, reached: nat -> Option<ConnId>, i: nat, x: Key) {
    i < |peers| && c.read(peers[i]) == Some(x) && reached(i).Some?
  }

  lemma {:induction false} DialAllRegisters(c: Codec, w: World, peers: seq<string>, token: Option<string>,
                                            reached: nat -> Option<ConnId>, x: Key)
    requires x !in w.peers
    ensures var w' := DialAll(c, w, peers, token, reached);
            && (x in w'.peers <==> exists i: nat :: Dials(c, peers, reached, i, x))
            && (forall i: nat :: FirstDial(c, peers, reached, i, x) ==>
                  x in w'.peers && w'.peers[x] == PeerRec(None, true, token, reached(i), [], map[]))
  {
    if peers != [] {
      var n := |peers| - 1;
      var front := peers[..n];
      DialAllRegisters(c, w, front, token, reached, x);
      forall i: nat ensures Dials(c, peers, reached, i, x) <==> Dials(c, front, reached, i, x) || (i == n && Dials(c, peers, reached, n, x)) {
        assert i < n ==> front[i] == peers[i];
      }
      forall i: nat | FirstDial(c, peers, reached, i, x)
        ensures x in DialAll(c, w, peers, token, reached).peers
        ensures DialAll(c, w, peers, token, reached).peers[x] == PeerRec(None, true, token, reached(i), [], map[])
      {
        if i < n {
          assert FirstDial(c, front, reached, i, x);
        } else {
          assert forall j: nat :: !Dials(c, front, reached, j, x);
        }
      }
    }
  }

  /** Who is registered after a start: the keys the pin file names, each phoning home
      under the label of the first row that names it; and the readable keys of peer
      flags that are reached, each dialed over the connection of the first flag that
      reached it, with the token of the flags. */
  lemma StartRegisters(cfg: Config, pins: seq<Pin>, file: Option<Stored>, flags: Flags, env: BootEnv, x: Key)
    requires Start(cfg, pins, file, flags, env).Some?
    ensures var peers := Start(cfg, pins, file, flags, env).value.world.peers;
            && (x in peers <==> x in PinnedKeys(pins) || exists i: nat :: Dials(cfg.codec, flags.peers, env.reached, i, x))
            && (x in PinnedKeys(pins) ==>
                  && peers[x].name.Some? && Registry.NamedIn(pins, x, peers[x].name.value)
                  && peers[x] == PeerRec(peers[x].name, false, None, None, [], map[]))
            && (forall i: nat :: FirstDial(cfg.codec, flags.peers, env.reached, i, x) && x !in PinnedKeys(pins) ==>
                  peers[x] == PeerRec(None, true, flags.token, env.reached(i), [], map[]))
  {
    var n, s := Start(cfg, pins, file, flags, env).value, Loaded(file);
    var granted := Product(flags.ports + n.specs.Keys, Addressed(cfg.codec, flags.peers));
    var w := Registry.Boot(pins, env.foreign).(
      grants := Readable(cfg.codec, s.grants) + granted, binds := Remapped(s.binds, flags.binds));
    Registry.PinnedIsPins(pins);
    DialAllKeeps(cfg.codec, w, flags.peers, flags.token, env.reached);
    if x !in PinnedKeys(pins) {
      DialAllRegisters(cfg.codec, w, flags.peers, flags.token, env.reached, x);
    }
  }

  /** The startup overlay, for any stored state and flags that start the daemon:
      the services are the stored ones overridden by the flags', the remaps are
      the stored ones overridden by the flags' (the last one wins), and the grants
      are the stored ones together with every flag port and every service port,
      stored or declared, for every readable peer named. */
  lemma OverlayLaw(cfg: Config, pins: seq<Pin>, file: Option<Stored>, flags: Flags, env: BootEnv)
    requires Start(cfg, pins, file, flags, env).Some?
    ensures var n, s := Start(cfg, pins, file, flags, env).value, Loaded(file);
            && Overlaid(s, flags, n)
            && (forall p: Port, k :: (p, k) in n.world.grants <==>
                  || (exists row <- s.grants :: row.0 == p && cfg.codec.read(row.1) == Some(k))
                  || ((p in flags.ports || p in n.specs) && exists t <- flags.peers :: cfg.codec.read(t) == Some(k)))
            && n.file == file && n.world.pins == pins && n.world.listeners == map[]
            && AllValid(n.specs)
  {
    DeclaredIff(flags.services);
    RemappedLastWins(Loaded(file).binds, flags.binds);
    var n := Start(cfg, pins, file, flags, env).value;
    var s := Loaded(file);
    var granted := Product(flags.ports + n.specs.Keys, Addressed(cfg.codec, flags.peers));
    DialAllKeeps(cfg.codec, Registry.Boot(pins, env.foreign).(
      grants := Readable(cfg.codec, s.grants) + granted, binds := Remapped(s.binds, flags.binds)),
      flags.peers, flags.token, env.reached);
    OverlaidValid(flags, s, DeclaredBy(flags.services).value);
  }

  lemma OverlaidValid(flags: Flags, s: Stored, declared: Specs)
    requires DeclaredBy(flags.services) == Some(declared) && Restorable(declared, s.services)
    ensures AllValid(s.services + declared)
  {
    DeclaredIff(flags.services);
    forall p <- s.services + declared ensures Validate((s.services + declared)[p], p) == None {
      if p in declared {
        var i :| 0 <= i < |flags.services| && flags.services[i].0 == p;
      }
    }
  }

  /** Services and remaps: the flags' rows where there are any, the stored ones
      elsewhere. */
  ghost predicate Overlaid(s: Stored, flags: Flags, n: Node) {
    && (forall i :: 0 <= i < |flags.services| ==> flags.services[i].0 in n.specs && n.specs[flags.services[i].0] == flags.services[i].1)
    && (forall p: Port :: !Claims(flags.services, p) ==>
          (p in n.specs <==> p in s.services) && (p in s.services ==> n.specs[p] == s.services[p]))
    && (forall i: nat :: IsLast(flags.binds, i) ==>
          flags.binds[i].0 in n.world.binds && n.world.binds[flags.binds[i].0] == flags.binds[i].1)
    && (forall p: Port :: (forall i :: 0 <= i < |flags.binds| ==> flags.binds[i].0 != p) ==>
          (p in n.world.binds <==> p in s.binds) && (p in s.binds ==> n.world.binds[p] == s.binds[p]))
  }

  /** A daemon starts exactly when its flags declare each port once and validly,
      the state file is not from a newer version, and every stored service that no
      flag overrides is valid. */
  lemma StartsIff(cfg: Config, pins: seq<Pin>, file: Option<Stored>, flags: Flags, env: BootEnv)
    ensures var s := Loaded(file);
            Start(cfg, pins, file, flags, env).Some? <==>
            && OnceEach(flags.services) && EachValid(flags.services)
            && s.version <= VERSION
            && forall p <- s.services :: Claims(flags.services, p) || Validate(s.services[p], p) == None
  {
    DeclaredIff(flags.services);
  }

  lemma StartIsSound(cfg: Config, pins: seq<Pin>, file: Option<Stored>, flags: Flags, env: BootEnv)
    requires Start(cfg, pins, file, flags, env).Some?
    ensures Registry.Sound(Start(cfg, pins, file, flags, env).value.world)
  {
    var n := Start(cfg, pins, file, flags, env).value;
    var s := Loaded(file);
    var granted := Product(flags.ports + n.specs.Keys, Addressed(cfg.codec, flags.peers));
    var boot := Registry.Boot(pins, env.foreign);
    var w := boot.(grants := Readable(cfg.codec, s.grants) + granted, binds := Remapped(s.binds, flags.binds));
    Registry.PinnedIsPins(pins);
    forall x: Key, p: Port, l: Port ensures !Bound(w, x, p, l) {}
    DialAllKeeps(cfg.codec, w, flags.peers, flags.token, env.reached);
    Registry.SamePortsConsistent(w, n.world);
  }

  // ------------------------------------------------------------- round trip

  lemma ReadsBack(c: Codec, rel: Grants.Relation)
    requires Inverse(c)
    ensures Readable(c, PrintedRows(c, rel)) == rel
  {
    forall g: (Port, Key) ensures g in Readable(c, PrintedRows(c, rel)) <==> g in rel {
      assert c.read(c.show(g.1)) == Some(g.1);
      if g in rel {
        assert (g.0, c.show(g.1)) in PrintedRows(c, rel);
      }
      if g in Readable(c, PrintedRows(c, rel)) {
        var row :| row in PrintedRows(c, rel) && c.read(row.1).Some? && g == (row.0, c.read(row.1).value);
        var h :| h in rel && row == (h.0, c.show(h.1));
        assert c.read(c.show(h.1)) == Some(h.1);
      }
    }
  }

  /** A daemon whose file was just written, started again without flags, cannot
      fail, and has the same grants, services and remaps. */
  lemma RestartRoundTrip(cfg: Config, n: Node, env: BootEnv)
    requires Inverse(cfg.codec) && AllValid(n.specs)
    ensures var again := Start(cfg, n.world.pins, Some(Snapshot(cfg.codec, n)), NO_FLAGS, env);
            && again.Some?
            && again.value.world == Registry.Boot(n.world.pins, env.foreign).(grants := n.world.grants, binds := n.world.binds)
            && again.value.specs == n.specs
  {
    ReadsBack(cfg.codec, n.world.grants);
    NothingAdded(cfg.codec, n.specs, n.world.binds);
  }

  lemma NothingAdded(c: Codec, specs: Specs, binds: map<Port, Port>)
    ensures DeclaredBy([]) == Some(map[]) && specs + map[] == specs && Remapped(binds, []) == binds
    ensures Product(NO_FLAGS.ports + specs.Keys, Addressed(c, NO_FLAGS.peers)) == {}
  {
  }

  /** A start with neither a state file nor flags grants, declares and remaps nothing. */
  lemma FirstStart(cfg: Config, pins: seq<Pin>, env: BootEnv)
    ensures var n := Start(cfg, pins, None, NO_FLAGS, env);
            n.Some? && n.value.world.grants == {} && n.value.world.binds == map[] && n.value.specs == map[]
  {
    NothingAdded(cfg.codec, map[], map[]);
  }

  /** A restart without flags, from any state and any readable file. */
  lemma BareStart(cfg: Config, pins: seq<Pin>, file: Option<Stored>, env: BootEnv)
    requires Loaded(file).version <= VERSION && AllValid(Loaded(file).services)
    ensures var s := Loaded(file);
            Start(cfg, pins, file, NO_FLAGS, env) ==
            Some(Node(Registry.Boot(pins, env.foreign).(grants := Readable(cfg.codec, s.grants), binds := s.binds), s.services, file))
  {
    var s := Loaded(file);
    NothingAdded(cfg.codec, s.services, s.binds);
    assert Readable(cfg.codec, s.grants) + {} == Readable(cfg.codec, s.grants);
  }

  // ------------------------------------------------------- memory and the file

  /** One move of a running daemon: a request served, one of the peers' doing, or
      a restart without flags. */
  datatype Move =
    | Serves(req: Request, env: ReqEnv)
    | Peers(step: Registry.Step)
    | Reboots(boot: BootEnv)

  /** Requests come one at a time and their writes succeed. */
  ghost predicate CanMove(n: Node, m: Move) {
    match m
    case Serves(_, env) => Enumerates(env.order, n.world.peers.Keys) && env.disk && env.pinsDisk
    case Peers(step) => (step.Announces? || step.Connects? || step.Refuses?) && Registry.Possible(n.world, step)
    case Reboots(_) => true
  }

  /** None when the daemon stops. */
  ghost function Moved(cfg: Config, n: Node, m: Move): Option<Node>
    requires CanMove(n, m)
  {
    match m
    case Serves(req, env) => Some(Handle(cfg, n, req, env).0)
    case Peers(step) => Some(n.(world := Registry.Apply(n.world, step)))
    case Reboots(boot) => Start(cfg, n.world.pins, n.file, NO_FLAGS, boot)
  }

  /** `n'` is reached from `n` by `moves`, the daemon stopping nowhere. */
  ghost predicate Runs(cfg: Config, n: Node, moves: seq<Move>, n': Option<Node>)
    decreases |moves|
  {
    if moves == [] then n' == Some(n)
    else
      && CanMove(n, moves[0])
      && (match Moved(cfg, n, moves[0])
          case None => n' == None
          case Some(next) => Runs(cfg, next, moves[1..], n'))
  }

  /** The file has exactly the services and remaps in memory, and at least the
      grants. */
  ghost predicate InStep(cfg: Config, n: Node) {
    var s := Loaded(n.file);
    && s.version <= VERSION
    && s.services == n.specs && AllValid(n.specs)
    && s.binds == n.world.binds
    && n.world.grants <= Readable(cfg.codec, s.grants)
  }

  /** A move after which the file has exactly the grants in memory too. */
  ghost predicate Settles(cfg: Config, n: Node, m: Move)
    requires CanMove(n, m)
  {
    m.Reboots? ||
    (m.Serves? && (m.req.Expose? || m.req.Unexpose? || m.req.Bind? || m.req.RemovePeer?)
     && Handle(cfg, n, m.req, m.env).1.Done? && !Handle(cfg, n, m.req, m.env).1.dryRun)
  }

  ghost predicate SameGrants(cfg: Config, n: Node) {
    n.world.grants == Readable(cfg.codec, Loaded(n.file).grants)
  }

  lemma WrittenIsInStep(cfg: Config, n: Node, detail: string)
    requires Inverse(cfg.codec) && AllValid(n.specs)
    ensures var n' := Written(cfg, n, true, detail).0;
            InStep(cfg, n') && SameGrants(cfg, n') && n'.world == n.world
  {
    ReadsBack(cfg.codec, n.world.grants);
  }

  /** What peers do on their own only shrinks the grants. */
  lemma PeersOnlyShrinkGrants(w: World, step: Registry.Step)
    requires Registry.Sound(w) && Registry.Possible(w, step)
    requires step.Announces? || step.Connects? || step.Refuses?
    ensures Registry.Sound(Registry.Apply(w, step))
    ensures Registry.Apply(w, step).grants <= w.grants && Registry.Apply(w, step).binds == w.binds
  {
    Registry.StepKeepsSound(w, step);
    match step
    case Announces(k, ports, env) => RestOfPass(w, k, ports, env);
    case Connects(k, conn, msgs, now, check, env) => ConnectionShrinksGrants(w, k, conn, msgs, now, check, env);
    case Refuses(_) =>
  }

  lemma ConnectionShrinksGrants(w: World, k: Key, conn: ConnId, msgs: seq<Registry.Message>, now: Instant,
                                check: set<Key>, env: Env)
    requires Registry.Sound(w)
    ensures var w' := Registry.HandleConnection(w, k, conn, msgs, now, check, env);
            w'.grants <= w.grants && w'.binds == w.binds
  {
    Registry.ConnectionCases(w, k, conn, msgs, now, check, env);
    var early := Registry.Presented(msgs, None).1;
    if k !in w.peers && Registry.Enrollee(w, k, msgs, now, check).Some? && early.Some? {
      RestOfPass(Registry.Enrolled(w, k, conn, msgs, now, check), k, early.value, env);
    }
  }

  lemma RequestKeepsSound(cfg: Config, n: Node, req: Request, env: ReqEnv)
    requires Registry.Sound(n.world) && Enumerates(env.order, n.world.peers.Keys) && env.pinsDisk
    ensures Registry.Sound(Handle(cfg, n, req, env).0.world)
  {
    var w' := Handle(cfg, n, req, env).0.world;
    match req
    case AddPeer(ticket, dryRun) =>
      var key := cfg.codec.read(ticket);
      if key.Some? {
        Registry.StepKeepsSound(n.world, Registry.Adds(key.value, None, env.reached));
      }
    case RemovePeer(ticket, dryRun) =>
      var key := cfg.codec.read(ticket);
      if key.Some? {
        Registry.StepKeepsSound(n.world, Registry.Removes(key.value));
      }
    case Bind(port, local, _) =>
      Registry.StepKeepsSound(n.world, Registry.Remaps(port, local, env.order, env.offers));
    case Pin(key, name, _) =>
      if cfg.codec.read(key).Some? {
        Registry.StepKeepsSound(n.world, Registry.PinsPeer(TextOf(cfg.codec, key), name));
      }
    case _ =>
      Registry.SideTablesKeepSound(n.world, w');
  }

  lemma RequestKeepsInStep(cfg: Config, n: Node, req: Request, env: ReqEnv)
    requires Inverse(cfg.codec) && Registry.Sound(n.world) && InStep(cfg, n)
    requires CanMove(n, Serves(req, env))
    ensures InStep(cfg, Handle(cfg, n, req, env).0)
    ensures Settles(cfg, n, Serves(req, env)) ==> SameGrants(cfg, Handle(cfg, n, req, env).0)
  {
    var (n', r) := Handle(cfg, n, req, env);
    match req
    case RemovePeer(ticket, _) =>
      if r.Done? && !r.dryRun {
        var k := cfg.codec.read(ticket).value;
        WrittenIsInStep(cfg, n.(world := Evict(n.world, k)), r.detail);
      }
    case Expose(port, to, backend, _) =>
      if r.Done? && !r.dryRun {
        WrittenIsInStep(cfg, Exposed(n, port, Grantees(cfg.codec, to, env.order).value, backend), r.detail);
      }
    case Unexpose(port, grantee, _) =>
      if r.Done? && !r.dryRun {
        WrittenIsInStep(cfg, Unexposed(n, port, if grantee.Some? then cfg.codec.read(grantee.value) else None), r.detail);
      }
    case Bind(port, local, _) =>
      if r.Done? && !r.dryRun {
        WrittenIsInStep(cfg, n.(world := SetBind(n.world, port, local, env.order, env.offers)), r.detail);
      }
    case _ =>
  }

  /** One move keeps the tables sound and the file in step, does not stop the
      daemon, and settles the grants when it is one that does. */
  lemma MoveKeepsInStep(cfg: Config, n: Node, m: Move)
    requires Inverse(cfg.codec) && Registry.Sound(n.world) && InStep(cfg, n) && CanMove(n, m)
    ensures var next := Moved(cfg, n, m);
            && next.Some? && Registry.Sound(next.value.world) && InStep(cfg, next.value)
            && (Settles(cfg, n, m) ==> SameGrants(cfg, next.value))
  {
    match m
    case Serves(req, env) =>
      RequestKeepsSound(cfg, n, req, env);
      RequestKeepsInStep(cfg, n, req, env);
    case Peers(step) =>
      PeersOnlyShrinkGrants(n.world, step);
    case Reboots(boot) =>
      BareStart(cfg, n.world.pins, n.file, boot);
      StartIsSound(cfg, n.world.pins, n.file, NO_FLAGS, boot);
  }

  /** In every run of requests, peer activity and restarts, from a start without
      flags over any state file: no restart ever fails, the stored services and
      remaps are those in memory, the grants in memory are among the stored ones,
      and they are the stored ones whenever the last move settles them. */
  lemma {:induction false} EveryRunStaysInStep(cfg: Config, n: Node, moves: seq<Move>, n': Option<Node>)
    requires Inverse(cfg.codec) && Registry.Sound(n.world) && InStep(cfg, n) && Runs(cfg, n, moves, n')
    ensures n'.Some? && Registry.Sound(n'.value.world) && InStep(cfg, n'.value)
    ensures moves != [] ==> exists before ::
              && Runs(cfg, n, moves[..|moves| - 1], Some(before)) && CanMove(before, moves[|moves| - 1])
              && Moved(cfg, before, moves[|moves| - 1]) == n'
              && (Settles(cfg, before, moves[|moves| - 1]) ==> SameGrants(cfg, n'.value))
    decreases |moves|
  {
    if moves != [] {
      MoveKeepsInStep(cfg, n, moves[0]);
      var next := Moved(cfg, n, moves[0]).value;
      var rest := moves[1..];
      EveryRunStaysInStep(cfg, next, rest, n');
      if rest == [] {
        assert moves[..0] == [] && Runs(cfg, n, [], Some(n));
      } else {
        var before :|
          && Runs(cfg, next, rest[..|rest| - 1], Some(before)) && CanMove(before, rest[|rest| - 1])
          && Moved(cfg, before, rest[|rest| - 1]) == n'
          && (Settles(cfg, before, rest[|rest| - 1]) ==> SameGrants(cfg, n'.value));
        var front := moves[..|moves| - 1];
        assert front[0] == moves[0] && front[1..] == rest[..|rest| - 1];
        assert moves[|moves| - 1] == rest[|rest| - 1];
        assert Runs(cfg, n, front, Some(before));
      }
    }
  }

  /** Where such runs begin. */
  lemma BareStartIsInStep(cfg: Config, pins: seq<Pin>, file: Option<Stored>, env: BootEnv)
    requires Start(cfg, pins, file, NO_FLAGS, env).Some?
    ensures var n := Start(cfg, pins, file, NO_FLAGS, env).value;
            Registry.Sound(n.world) && InStep(cfg, n) && SameGrants(cfg, n)
  {
    NothingAdded(cfg.codec, Loaded(file).services, Loaded(file).binds);
    OverlayLaw(cfg, pins, file, NO_FLAGS, env);
    StartIsSound(cfg, pins, file, NO_FLAGS, env);
    BareStart(cfg, pins, file, env);
  }

  /** A peer evicted for a collision loses its grants only until the next restart:
      the restart restores the grants in memory exactly when the file has no others. */
  lemma RestartRestoresIff(cfg: Config, n: Node, env: BootEnv)
    requires InStep(cfg, n)
    ensures var again := Start(cfg, n.world.pins, n.file, NO_FLAGS, env);
            && again.Some? && again.value.specs == n.specs && again.value.world.binds == n.world.binds
            && n.world.grants <= again.value.world.grants
            && (again.value.world.grants == n.world.grants <==> SameGrants(cfg, n))
  {
  }
}
