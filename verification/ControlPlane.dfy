/** The control plane: what each request does to the daemon, to its state file,
    and what it answers. */
module ControlPlane {
  import opened Common
  import opened Enrollment
  import opened PeerTables
  import opened Service
  import opened StateStore
  import Grants
  import Registry

  /** How peer keys are written and read. */
  datatype Codec = Codec(show: Key -> string, read: string -> Option<Key>)

  ghost predicate Inverse(c: Codec) {
    forall k :: c.read(c.show(k)) == Some(k)
  }

  /** What a daemon is configured with for its lifetime. */
  datatype Config = Config(codec: Codec, host: string, me: Key)

  /** A running daemon: its tables, its declared services, and its state file. */
  datatype Node = Node(world: World, specs: Specs, file: Option<Stored>)

  function PrintedRows(c: Codec, rel: Grants.Relation): set<(Port, string)> {
    set g <- rel :: (g.0, c.show(g.1))
  }

  /** The pairs behind the rows whose key can be read; the others are dropped. */
  function Readable(c: Codec, rows: set<(Port, string)>): Grants.Relation {
    set row <- rows | c.read(row.1).Some? :: (row.0, c.read(row.1).value)
  }

  function Loaded(file: Option<Stored>): Stored {
    if file.Some? then file.value else Stored(0, {}, map[], map[])
  }

  /** The state a new process could not know by itself. */
  function Snapshot(c: Codec, n: Node): Stored {
    Stored(VERSION, PrintedRows(c, n.world.grants), n.specs, n.world.binds)
  }

  // ---------------------------------------------------------------- requests

  datatype Request =
    | AddPeer(ticket: string, dryRun: bool)
    | RemovePeer(ticket: string, dryRun: bool)
    | Expose(port: Port, to: seq<string>, backend: Option<BackendSpec>, dryRun: bool)
    | Unexpose(port: Port, grantee: Option<string>, dryRun: bool)
    | Bind(port: Port, local: Option<Port>, dryRun: bool)
    | Pin(key: string, name: string, dryRun: bool)
    | GrantToken(name: string)
    | List
    | Ticket

  /** What a message of an error says. */
  datatype Why = BadKey(text: string) | NobodyToGrant | BadBackend(fault: Fault) | NotWritten | PeerExists | Unreached | NoSuchPeer

  datatype PeerRow = PeerRow(key: string, name: Option<string>, online: bool, exposed: seq<Port>)

  datatype BindingRow = BindingRow(port: Port, local: Port, peer: string)

  datatype Response =
    | Done(dryRun: bool, detail: string)
    | Failed(kind: ErrorKind, why: Why)
    | Listing(peers: set<PeerRow>, exposed: map<Port, string>, grants: set<(Port, string)>,
              bindings: set<BindingRow>, remaps: map<Port, Port>)
    | Text(text: string)

  /** What serving one request cannot control: whether a dialed peer is reached,
      whether the state file and the pin file can be written, which connections
      are up, the registry's iteration order, the ports the system offers, the
      token drawn, and the clock. */
  datatype ReqEnv = ReqEnv(reached: Option<ConnId>, disk: bool, pinsDisk: bool, up: set<ConnId>,
                           order: seq<Key>, offers: nat -> Port,
                           token: Token, now: Instant)

  /** Seconds a minted token stays claimable. */
  const TOKEN_TTL: nat := 300

  /** The keys of `texts`, or the first that cannot be read. */
  function ReadKeys(c: Codec, texts: seq<string>): Result<seq<Key>, Why> {
    if texts == [] then Ok([])
    else match c.read(texts[0])
      case None => Err(BadKey(texts[0]))
      case Some(k) =>
        match ReadKeys(c, texts[1..])
        case Err(e) => Err(e)
        case Ok(rest) => Ok([k] + rest)
  }

  /** Whom an exposure names; naming no one means every registered peer. */
  function Grantees(c: Codec, to: seq<string>, order: seq<Key>): Result<seq<Key>, Why> {
    if to != [] then ReadKeys(c, to)
    else if order == [] then Err(NobodyToGrant)
    else Ok(order)
  }

  function GrantAll(rel: Grants.Relation, port: Port, keys: seq<Key>): Grants.Relation {
    rel + set k <- keys :: (port, k)
  }

  /** The change is in memory already; a failed write is reported, not undone. */
  function Written(cfg: Config, n: Node, disk: bool, detail: string): (Node, Response) {
    if disk then (n.(file := Some(Snapshot(cfg.codec, n))), Done(false, detail))
    else (n, Failed(Internal, NotWritten))
  }

  function HandleAddPeer(cfg: Config, n: Node, ticket: string, dryRun: bool, env: ReqEnv): (Node, Response) {
    match cfg.codec.read(ticket)
    case None => (n, Failed(Invalid, BadKey(ticket)))
    case Some(k) =>
      if dryRun then (n, Done(true, "connect to peer " + cfg.codec.show(k)))
      else
        match Registry.AddPeer(n.world, k, None, env.reached)
        case (_, Some(kind)) => (n, Failed(kind, if kind == Conflict then PeerExists else Unreached))
        case (w, None) => (n.(world := w), Done(false, "connected to peer " + ticket))
  }

  function HandleRemovePeer(cfg: Config, n: Node, ticket: string, dryRun: bool, env: ReqEnv): (Node, Response) {
    match cfg.codec.read(ticket)
    case None => (n, Failed(Invalid, BadKey(ticket)))
    case Some(k) =>
      if dryRun then (n, Done(true, "disconnect from peer " + cfg.codec.show(k)))
      else
        match Registry.RemovePeer(n.world, k)
        case (_, Some(kind)) => (n, Failed(kind, NoSuchPeer))
        case (w, None) => Written(cfg, n.(world := w), env.disk, "removed peer " + ticket)
  }

  function ServedBy(cfg: Config, specs: Specs, port: Port, backend: Option<BackendSpec>): string {
    if backend.Some? then DescribeSpec(backend.value) else Describe(specs, cfg.host, port)
  }

  function ExposeDetail(port: Port, count: nat, served: string): string {
    "expose " + Decimal(port) + " to " + Decimal(count) + " peer(s), served by " + served
  }

  function Exposed(n: Node, port: Port, keys: seq<Key>, backend: Option<BackendSpec>): Node {
    n.(specs := if backend.Some? then n.specs[port := backend.value] else n.specs,
       world := n.world.(grants := GrantAll(n.world.grants, port, keys)))
  }

  function HandleExpose(cfg: Config, n: Node, port: Port, to: seq<string>, backend: Option<BackendSpec>,
                        dryRun: bool, env: ReqEnv): (Node, Response) {
    match Grantees(cfg.codec, to, env.order)
    case Err(why) => (n, Failed(Invalid, why))
    case Ok(keys) =>
      if backend.Some? && Validate(backend.value, port).Some? then
        (n, Failed(Invalid, BadBackend(Validate(backend.value, port).value)))
      else
        var detail := ExposeDetail(port, |keys|, ServedBy(cfg, n.specs, port, backend));
        if dryRun then (n, Done(true, detail))
        else Written(cfg, Exposed(n, port, keys, backend), env.disk, detail)
  }

  /** The service of a port with no grantee left is dropped too. */
  function Unexposed(n: Node, port: Port, grantee: Option<Key>): Node {
    var rel := Grants.Remove(n.world.grants, port, grantee);
    n.(specs := if port in Grants.PortsOf(rel) then n.specs else n.specs - {port},
       world := n.world.(grants := rel))
  }

  function HandleUnexpose(cfg: Config, n: Node, port: Port, grantee: Option<string>, dryRun: bool, env: ReqEnv): (Node, Response) {
    if grantee.Some? && cfg.codec.read(grantee.value).None? then (n, Failed(Invalid, BadKey(grantee.value)))
    else
      var g := if grantee.Some? then cfg.codec.read(grantee.value) else None;
      var detail := if g.Some? then "revoke " + Decimal(port) + " from " + cfg.codec.show(g.value)
                    else "revoke every grant for " + Decimal(port);
      if dryRun then (n, Done(true, detail))
      else Written(cfg, Unexposed(n, port, g), env.disk, detail)
  }

  function BindDetail(port: Port, local: Option<Port>): string {
    "bind peer port " + Decimal(port) +
    match local
    case None => " on " + Decimal(port) + " again"
    case Some(l) => if l == 0 then " on a free local port" else " on local port " + Decimal(l)
  }

  ghost function HandleBind(cfg: Config, n: Node, port: Port, local: Option<Port>, dryRun: bool, env: ReqEnv): (Node, Response)
    requires Enumerates(env.order, n.world.peers.Keys)
  {
    if dryRun then (n, Done(true, BindDetail(port, local)))
    else Written(cfg, n.(world := SetBind(n.world, port, local, env.order, env.offers)), env.disk, BindDetail(port, local))
  }

  /** A key as it stands in the pin file. */
  function TextOf(c: Codec, s: string): KeyText {
    match c.read(s)
    case None => NoKey(s)
    case Some(k) => if s == c.show(k) then Printed(k) else Respelled(k, s)
  }

  /** The peer is registered before its pin is written. */
  function HandlePin(cfg: Config, n: Node, key: string, name: string, dryRun: bool, env: ReqEnv): (Node, Response) {
    match cfg.codec.read(key)
    case None => (n, Failed(Invalid, BadKey(key)))
    case Some(k) =>
      if dryRun then (n, Done(true, "pin " + cfg.codec.show(k) + " as \"" + name + "\""))
      else if !env.pinsDisk then
        (n.(world := n.world.(peers := Registry.AddPinned(n.world.peers, k, name))), Failed(Internal, NotWritten))
      else
        (n.(world := Registry.PinPeer(n.world, TextOf(cfg.codec, key), name)),
         Done(false, "pinned " + key + " as \"" + name + "\""))
  }

  function ExposedPorts(cfg: Config, n: Node): map<Port, string> {
    map p <- Grants.PortsOf(n.world.grants) :: Describe(n.specs, cfg.host, p)
  }

  function PeerRows(c: Codec, w: World, up: set<ConnId>): set<PeerRow> {
    set k <- w.peers ::
      PeerRow(c.show(k), w.peers[k].name, w.peers[k].conn.Some? && w.peers[k].conn.value in up, w.peers[k].exposed)
  }

  function BindingRows(c: Codec, w: World): set<BindingRow> {
    set k <- w.peers, p <- w.peers[k].bindings :: BindingRow(p, w.peers[k].bindings[p], c.show(k))
  }

  /** Every peer, the exposed ports with what serves each, every grant, every
      binding and every remap. */
  function Listed(cfg: Config, n: Node, up: set<ConnId>): Response {
    Listing(PeerRows(cfg.codec, n.world, up), ExposedPorts(cfg, n), PrintedRows(cfg.codec, n.world.grants),
            BindingRows(cfg.codec, n.world), n.world.binds)
  }

  ghost function Handle(cfg: Config, n: Node, req: Request, env: ReqEnv): (Node, Response)
    requires Enumerates(env.order, n.world.peers.Keys)
  {
    match req
    case AddPeer(ticket, dryRun) => HandleAddPeer(cfg, n, ticket, dryRun, env)
    case RemovePeer(ticket, dryRun) => HandleRemovePeer(cfg, n, ticket, dryRun, env)
    case Expose(port, to, backend, dryRun) => HandleExpose(cfg, n, port, to, backend, dryRun, env)
    case Unexpose(port, grantee, dryRun) => HandleUnexpose(cfg, n, port, grantee, dryRun, env)
    case Bind(port, local, dryRun) => HandleBind(cfg, n, port, local, dryRun, env)
    case Pin(key, name, dryRun) => HandlePin(cfg, n, key, name, dryRun, env)
    case GrantToken(name) =>
      (n.(world := n.world.(tokens := MintToken(n.world.tokens, env.token, name, TOKEN_TTL, env.now))), Text(env.token.hex))
    case List => (n, Listed(cfg, n, env.up))
    case Ticket => (n, Text(cfg.codec.show(cfg.me)))
  }

  // ----------------------------------------------------- dry runs and failures

  /** The requests whose dry run is held to the real one. */
  predicate Declares(req: Request) {
    req.Expose? || req.Unexpose? || req.Bind?
  }

  /** The same request with its dry-run flag set as given. */
  function WithDryRun(req: Request, dryRun: bool): Request
    requires Declares(req)
  {
    match req
    case Expose(port, to, backend, _) => Expose(port, to, backend, dryRun)
    case Unexpose(port, grantee, _) => Unexpose(port, grantee, dryRun)
    case Bind(port, local, _) => Bind(port, local, dryRun)
  }

  /** The same response, but for the flag that says it was a dry run. */
  function AsReal(r: Response): Response {
    if r.Done? then r.(dryRun := false) else r
  }

  /** A dry run changes nothing and answers what the real run would answer if its
      write succeeds: the same verdict, kind of error and wording. */
  lemma DryRunIsHonest(cfg: Config, n: Node, req: Request, env: ReqEnv)
    requires Enumerates(env.order, n.world.peers.Keys) && Declares(req) && env.disk
    ensures Handle(cfg, n, WithDryRun(req, true), env).0 == n
    ensures AsReal(Handle(cfg, n, WithDryRun(req, true), env).1) == Handle(cfg, n, WithDryRun(req, false), env).1
  {
  }

  /** A dry run of removing a peer says the same as the real run exactly when the
      key cannot be read or the peer is registered. */
  lemma RemovePeerDryRunAgreesIff(cfg: Config, n: Node, ticket: string, env: ReqEnv)
    requires Enumerates(env.order, n.world.peers.Keys) && env.disk
    ensures (Handle(cfg, n, RemovePeer(ticket, true), env).1.Done? <==> Handle(cfg, n, RemovePeer(ticket, false), env).1.Done?)
            <==> (cfg.codec.read(ticket).Some? ==> cfg.codec.read(ticket).value in n.world.peers)
  {
  }

  /** Likewise for adding one: it must be new, and reached. */
  lemma AddPeerDryRunAgreesIff(cfg: Config, n: Node, ticket: string, env: ReqEnv)
    requires Enumerates(env.order, n.world.peers.Keys)
    ensures (Handle(cfg, n, AddPeer(ticket, true), env).1.Done? <==> Handle(cfg, n, AddPeer(ticket, false), env).1.Done?)
            <==> (cfg.codec.read(ticket).Some? ==> cfg.codec.read(ticket).value !in n.world.peers && env.reached.Some?)
  {
  }

  /** Removing a peer never answers that it was not found. With its write succeeding
      it fails exactly when the key cannot be read, as invalid, or is not
      registered, as an internal error. */
  lemma RemovePeerFailsIff(cfg: Config, n: Node, ticket: string, env: ReqEnv)
    requires Enumerates(env.order, n.world.peers.Keys)
    ensures var r := Handle(cfg, n, RemovePeer(ticket, false), env).1;
            && (r.Failed? ==> r.kind != NotFound)
            && (env.disk ==> match cfg.codec.read(ticket)
                             case None => r.Failed? && r.kind == Invalid
                             case Some(k) => if k in n.world.peers then r.Done? else r.Failed? && r.kind == Internal)
  {
  }

  /** For instance: a dry run of removing a peer that is not registered promises to
      disconnect from it, and one of adding a peer that is registered to connect to it;
      the real runs fail, as an internal error and as a conflict. */
  lemma DryRunsMislead(cfg: Config, n: Node, k: Key, env: ReqEnv)
    requires Inverse(cfg.codec) && Enumerates(env.order, n.world.peers.Keys)
    ensures var ticket := cfg.codec.show(k);
            && Handle(cfg, n, RemovePeer(ticket, true), env).1.Done?
            && Handle(cfg, n, AddPeer(ticket, true), env).1.Done?
            && if k in n.world.peers then Handle(cfg, n, AddPeer(ticket, false), env).1 == Failed(Conflict, PeerExists)
               else Handle(cfg, n, RemovePeer(ticket, false), env).1 == Failed(Internal, NoSuchPeer)
  {
    assert cfg.codec.read(cfg.codec.show(k)) == Some(k);
  }

  /** The listing is the whole truth, with keys as they are printed: a row for each
      peer, with its label, what it announces and whether its connection is up; a row
      for each listening socket of the daemon; a row for each grant; every remap; and
      every granted port, with what is declared for it or else the default. */
  lemma ListingIsComplete(cfg: Config, n: Node, env: ReqEnv)
    requires Inverse(cfg.codec) && Ledger(n.world) && Enumerates(env.order, n.world.peers.Keys)
    ensures var (n', r) := Handle(cfg, n, List, env);
            && n' == n && r.Listing? && r.remaps == n.world.binds
            && (forall row <- r.peers :: exists x <- n.world.peers :: row.key == cfg.codec.show(x))
            && (forall x <- n.world.peers :: PeerListed(cfg.codec, n.world, r.peers, x, env.up))
            && (forall p: Port, x :: (p, cfg.codec.show(x)) in r.grants <==> (p, x) in n.world.grants)
            && (forall p: Port, l: Port, x :: BindingRow(p, l, cfg.codec.show(x)) in r.bindings <==>
                  l in n.world.listeners && n.world.listeners[l] == (x, p))
            && (forall p: Port :: p in r.exposed <==> exists x :: (p, x) in n.world.grants)
            && (forall p <- r.exposed :: r.exposed[p] == if p in n.specs then DescribeSpec(n.specs[p])
                                                          else "default " + cfg.host + ":" + Decimal(p))
  {
    assert forall x, y :: cfg.codec.show(x) == cfg.codec.show(y) ==> x == y by {
      forall x, y | cfg.codec.show(x) == cfg.codec.show(y) ensures x == y {
        assert cfg.codec.read(cfg.codec.show(x)) == Some(x) && cfg.codec.read(cfg.codec.show(y)) == Some(y);
      }
    }
    PeersListed(cfg.codec, n.world, env.up);
    BindingsListed(cfg.codec, n.world);
    Grants.PortsIff(n.world.grants, Key([]));
  }

  /** The one row under the key of `x` says what there is to say of it. */
  ghost predicate PeerListed(c: Codec, w: World, rows: set<PeerRow>, x: Key, up: set<ConnId>)
    requires x in w.peers
  {
    && (exists row <- rows :: row.key == c.show(x))
    && forall row <- rows | row.key == c.show(x) ::
         && row.name == w.peers[x].name && row.exposed == w.peers[x].exposed
         && (row.online <==> exists conn <- up :: w.peers[x].conn == Some(conn))
  }

  lemma PeersListed(c: Codec, w: World, up: set<ConnId>)
    requires forall x, y :: c.show(x) == c.show(y) ==> x == y
    ensures forall x <- w.peers :: PeerListed(c, w, PeerRows(c, w, up), x, up)
  {
    forall x <- w.peers ensures PeerListed(c, w, PeerRows(c, w, up), x, up) {
      var row := PeerRow(c.show(x), w.peers[x].name, w.peers[x].conn.Some? && w.peers[x].conn.value in up, w.peers[x].exposed);
      assert row in PeerRows(c, w, up);
    }
  }

  lemma BindingsListed(c: Codec, w: World)
    requires Ledger(w) && forall x, y :: c.show(x) == c.show(y) ==> x == y
    ensures forall p: Port, l: Port, x :: BindingRow(p, l, c.show(x)) in BindingRows(c, w) <==>
              l in w.listeners && w.listeners[l] == (x, p)
  {
    forall p: Port, l: Port, x
      ensures BindingRow(p, l, c.show(x)) in BindingRows(c, w) <==> l in w.listeners && w.listeners[l] == (x, p)
    {
      if BindingRow(p, l, c.show(x)) in BindingRows(c, w) {
        assert Bound(w, x, p, l);
      }
      if l in w.listeners && w.listeners[l] == (x, p) {
        assert Bound(w, x, p, l);
      }
    }
  }

  /** The token answered is the one minted, and the ticket is this daemon's own key. */
  lemma TextAnswers(cfg: Config, n: Node, name: string, env: ReqEnv)
    requires Inverse(cfg.codec) && Enumerates(env.order, n.world.peers.Keys)
    ensures var (n', r) := Handle(cfg, n, GrantToken(name), env);
            && r.Text? && Token(r.text) in n'.world.tokens && n'.world.tokens[Token(r.text)].name == name
            && n' == n.(world := n.world.(tokens := n'.world.tokens))
    ensures var (n', r) := Handle(cfg, n, Ticket, env);
            n' == n && r.Text? && cfg.codec.read(r.text) == Some(cfg.me)
  {
    assert cfg.codec.read(cfg.codec.show(cfg.me)) == Some(cfg.me);
  }

  /** Pinning answers that it is done exactly when the key reads and its pin was written;
      otherwise the kind tells a bad key from a failed write, after which the peer is
      registered all the same. */
  lemma PinSucceedsIff(cfg: Config, n: Node, key: string, name: string, env: ReqEnv)
    requires Enumerates(env.order, n.world.peers.Keys)
    ensures var (n', r) := Handle(cfg, n, Request.Pin(key, name, false), env);
            match cfg.codec.read(key)
            case None => n' == n && r == Failed(Invalid, BadKey(key))
            case Some(k) =>
              && k in n'.world.peers
              && if env.pinsDisk then r.Done? && (exists pin <- n'.world.pins :: Names(pin.text, k) && pin.name == name)
                 else r == Failed(Internal, NotWritten) && n'.world.pins == n.world.pins
  {
    if cfg.codec.read(key).Some? {
      var text := TextOf(cfg.codec, key);
      WithPinHas(n.world.pins, text, name);
      assert Enrollment.Pin(text, name) in WithPin(n.world.pins, text, name);
    }
  }

  /** A failed request changes nothing at all, unless what failed was the write
      after the change; then memory is what the successful run leaves and the file
      that was to be written is what it was. */
  lemma FailureChangesNothing(cfg: Config, n: Node, req: Request, env: ReqEnv)
    requires Enumerates(env.order, n.world.peers.Keys) && Handle(cfg, n, req, env).1.Failed?
    ensures var (n', r) := Handle(cfg, n, req, env);
            var (good, answer) := Handle(cfg, n, req, env.(disk := true, pinsDisk := true));
            if r.why.NotWritten? then
              && answer.Done?
              && n' == if req.Pin? then good.(world := good.world.(pins := n.world.pins)) else good.(file := n.file)
            else n' == n
  {
    if req.Expose? {
      ReadKeysReadsAll(cfg.codec, req.to);
    }
  }

  lemma {:induction false} ReadKeysReadsAll(c: Codec, texts: seq<string>)
    ensures match ReadKeys(c, texts)
            case Ok(keys) => |keys| == |texts| && forall i :: 0 <= i < |texts| ==> c.read(texts[i]) == Some(keys[i])
            case Err(why) => why.BadKey? && why.text in texts && c.read(why.text).None?
    decreases |texts|
  {
    if texts != [] {
      ReadKeysReadsAll(c, texts[1..]);
    }
  }

  /** Those an exposure grants the port to. */
  function Named(c: Codec, n: Node, to: seq<string>): set<Key> {
    if to == [] then n.world.peers.Keys
    else set text <- to | c.read(text).Some? :: c.read(text).value
  }

  /** Exposing succeeds exactly when every key can be read, there is someone to
      grant to, and the backend is valid. */
  lemma ExposeSucceedsIff(cfg: Config, n: Node, port: Port, to: seq<string>, backend: Option<BackendSpec>, env: ReqEnv)
    requires Enumerates(env.order, n.world.peers.Keys) && env.disk
    ensures HandleExpose(cfg, n, port, to, backend, false, env).1.Done? <==>
            && (to == [] ==> n.world.peers != map[])
            && (forall text <- to :: cfg.codec.read(text).Some?)
            && (backend.Some? ==> Validate(backend.value, port) == None)
  {
    ReadKeysReadsAll(cfg.codec, to);
    OrderCounts(env.order, n.world.peers.Keys);
  }

  /** It then grants the port to exactly those named (or to every registered
      peer), and the listing reports for the port what the answer promised. */
  lemma ExposeKeepsItsPromise(cfg: Config, n: Node, port: Port, to: seq<string>, backend: Option<BackendSpec>, env: ReqEnv)
    requires Enumerates(env.order, n.world.peers.Keys) && env.disk
    requires HandleExpose(cfg, n, port, to, backend, false, env).1.Done?
    ensures var (n', r) := HandleExpose(cfg, n, port, to, backend, false, env);
            && n'.world == n.world.(grants := n.world.grants + set k <- Named(cfg.codec, n, to) :: (port, k))
            && n'.specs == (if backend.Some? then n.specs[port := backend.value] else n.specs)
            && PromisedText(cfg, n', port, if to == [] then |n.world.peers| else |to|, r.detail)
  {
    var keys := Grantees(cfg.codec, to, env.order).value;
    OrderCounts(env.order, n.world.peers.Keys);
    GranteesAreNamed(cfg.codec, to, env.order, keys, Named(cfg.codec, n, to));
    PromiseIsListed(cfg, n, port, keys, backend, Named(cfg.codec, n, to));
  }

  lemma {:induction false} OrderCounts(order: seq<Key>, keys: set<Key>)
    requires Enumerates(order, keys)
    ensures |order| == |keys|
  {
    if order != [] {
      var last := order[|order| - 1];
      OrderCounts(order[..|order| - 1], keys - {last});
    }
  }

  lemma GranteesAreNamed(c: Codec, to: seq<string>, order: seq<Key>, keys: seq<Key>, named: set<Key>)
    requires Grantees(c, to, order) == Ok(keys)
    requires named == if to == [] then set k <- order else set text <- to | c.read(text).Some? :: c.read(text).value
    ensures keys != [] && (set k <- keys) == named && |keys| == if to == [] then |order| else |to|
  {
    ReadKeysReadsAll(c, to);
    if to != [] {
      assert |keys| == |to|;
      forall k | k in named ensures k in keys {
        var text :| text in to && c.read(text) == Some(k);
        var i :| 0 <= i < |to| && to[i] == text;
        assert keys[i] == k;
      }
      forall k | k in keys ensures k in named {
        var i :| 0 <= i < |keys| && keys[i] == k;
        assert to[i] in to && c.read(to[i]) == Some(k);
      }
    }
  }

  /** The answer `detail` names `count` peers and what the listing says serves
      `port`. */
  ghost predicate PromisedText(cfg: Config, n: Node, port: Port, count: nat, detail: string) {
    var exposed := ExposedPorts(cfg, n);
    port in exposed
    && detail == "expose " + Decimal(port) + " to " + Decimal(count) + " peer(s), served by " + exposed[port]
  }

  lemma PromiseIsListed(cfg: Config, n: Node, port: Port, keys: seq<Key>, backend: Option<BackendSpec>, named: set<Key>)
    requires keys != [] && (set k <- keys) == named
    ensures var n' := Exposed(n, port, keys, backend);
            && n'.world.grants == n.world.grants + (set k <- named :: (port, k))
            && PromisedText(cfg, n', port, |keys|, ExposeDetail(port, |keys|, ServedBy(cfg, n.specs, port, backend)))
  {
    var n' := Exposed(n, port, keys, backend);
    assert (port, keys[0]) in n'.world.grants;
    assert port in ExposedPorts(cfg, n');
    assert forall k :: k in keys <==> k in named;
  }

  /** Revoking leaves no grant it covers and every other one, and no service is
      declared for a port left without a grantee. */
  lemma UnexposeRetires(cfg: Config, n: Node, port: Port, grantee: Option<Key>)
    ensures var n' := Unexposed(n, port, grantee);
            && (forall p: Port, k :: (p, k) in n'.world.grants <==>
                  (p, k) in n.world.grants && !(p == port && (grantee == None || grantee == Some(k))))
            && (port in n'.specs <==> port in n.specs && exists k :: (port, k) in n'.world.grants)
            && (port in ExposedPorts(cfg, n') <==> exists k :: (port, k) in n'.world.grants)
            && n'.specs - {port} == n.specs - {port}
  {
  }
}
