/** The tables a peer manager keeps, as values, and what each of its operations
    does to them.

    One `World` holds the registry, every peer's announced ports and live
    bindings, the remap table, the grants, the pin list, the enrollment tokens,
    and the operating system's side: which local ports this daemon listens on
    (and for whom), and which ones it cannot have. */
module PeerTables {
  import opened Common
  import opened Enrollment
  import Grants

  /** A registered peer. `bindings` maps an announced port to the local port
      its listener really has. */
  datatype PeerRec = PeerRec(
    name: Option<string>,
    dial: bool,
    token: Option<string>,
    conn: Option<ConnId>,
    exposed: seq<Port>,
    bindings: map<Port, Port>)

  /** `listeners` is the operating system's table of this daemon's listening
      sockets: the local port, and the (peer, announced port) its accept loop
      forwards to. `foreign` are the local ports the system refuses. `closed`
      are the connections this side has closed. */
  datatype World = World(
    peers: map<Key, PeerRec>,
    binds: map<Port, Port>,
    grants: Grants.Relation,
    pins: seq<Pin>,
    tokens: Pending,
    listeners: map<Port, (Key, Port)>,
    foreign: set<Port>,
    closed: set<ConnId>)

  /** What one pass cannot control: which peers answer a probe, and which port
      the system offers when asked for any free one (by position in the pass). */
  datatype Env = Env(alive: set<Key>, offers: nat -> Port)

  // ---------------------------------------------------------------- operations

  /** Where an announced port is to be bound; 0 leaves it to the system. */
  function LocalFor(w: World, port: Port): Port {
    if port in w.binds then w.binds[port] else port
  }

  ghost predicate Bound(w: World, x: Key, p: Port, l: Port) {
    x in w.peers && p in w.peers[x].bindings && w.peers[x].bindings[p] == l
  }

  ghost predicate Holds(w: World, x: Key, l: Port) {
    x in w.peers && l in w.peers[x].bindings.Values
  }

  /** Another peer whose binding occupies local port `l`; 0 never collides. */
  ghost function Holder(w: World, l: Port, exclude: Key): (r: Option<Key>)
    ensures r.Some? ==> l != 0 && r.value != exclude && Holds(w, r.value, l)
    ensures r.None? ==> l == 0 || forall x :: x != exclude ==> !Holds(w, x, l)
  {
    if l != 0 && exists x :: x != exclude && Holds(w, x, l) then
      var x :| x != exclude && Holds(w, x, l);
      Some(x)
    else
      None
  }

  function Occupied(w: World, l: Port): bool {
    l in w.listeners || l in w.foreign
  }

  /** Asking the system for local port `l`, where 0 takes whatever free port it
      offers. None when the port cannot be had. */
  function OsBind(w: World, l: Port, offer: Port): Option<Port> {
    var wanted := if l != 0 then l else offer;
    if wanted == 0 || Occupied(w, wanted) then None else Some(wanted)
  }

  function SetBindings(w: World, k: Key, bindings: map<Port, Port>): World
    requires k in w.peers
  {
    w.(peers := w.peers[k := w.peers[k].(bindings := bindings)])
  }

  function ReleaseBinding(w: World, k: Key, port: Port): World
    requires k in w.peers
  {
    var b := w.peers[k].bindings;
    if port in b then
      SetBindings(w, k, b - {port}).(listeners := w.listeners - {b[port]})
    else
      w
  }

  function AddBinding(w: World, k: Key, port: Port, l: Port): World
    requires k in w.peers
  {
    SetBindings(w, k, w.peers[k].bindings[port := l]).(listeners := w.listeners[l := (k, port)])
  }

  /** Bind before recording anything: a failed bind leaves no entry. */
  function CreateBinding(w: World, k: Key, port: Port, offer: Port): World
    requires k in w.peers
  {
    match OsBind(w, LocalFor(w, port), offer)
    case None => w
    case Some(l) => AddBinding(w, k, port, l)
  }

  /** Full eviction: out of the registry, connection closed, every listener
      dropped, grants naming it revoked, pin deleted. */
  function Evict(w: World, k: Key): World {
    var w1 :=
      if k in w.peers then
        w.(peers := w.peers - {k},
           listeners := w.listeners - w.peers[k].bindings.Values,
           closed := w.closed + ConnSet(w.peers[k].conn))
      else w;
    w1.(grants := Grants.RevokeGrantee(w.grants, k), pins := WithoutPins(w.pins, {k}))
  }

  /** Several bindings of one peer torn down. */
  function ReleaseSet(w: World, k: Key, dropped: set<Port>): World
    requires k in w.peers && dropped <= w.peers[k].bindings.Keys
  {
    var b := w.peers[k].bindings;
    var freed := set p <- dropped :: b[p];
    SetBindings(w, k, b - dropped).(listeners := w.listeners - freed)
  }

  /** Releasing what the peer announced before and no longer announces. */
  function ReleaseDropped(w: World, k: Key, ports: seq<Port>): World
    requires k in w.peers
  {
    ReleaseSet(w, k, set p <- w.peers[k].bindings.Keys | p in w.peers[k].exposed && p !in ports)
  }

  /** The binding loop of an announcement, from position `i`. */
  ghost function AnnounceFrom(w: World, k: Key, ports: seq<Port>, i: nat, env: Env): World
    requires k in w.peers && i <= |ports|
    decreases |ports| - i
  {
    if i == |ports| then
      w.(peers := w.peers[k := w.peers[k].(exposed := ports)])
    else if ports[i] in w.peers[k].bindings then
      AnnounceFrom(w, k, ports, i + 1, env)
    else
      match Holder(w, LocalFor(w, ports[i]), k)
      case None =>
        AnnounceFrom(CreateBinding(w, k, ports[i], env.offers(i)), k, ports, i + 1, env)
      case Some(h) =>
        if h in env.alive then
          Evict(w, k)
        else
          AnnounceFrom(CreateBinding(Evict(w, h), k, ports[i], env.offers(i)), k, ports, i + 1, env)
  }

  /** Peer `k` announces `ports`. */
  ghost function Announce(w: World, k: Key, ports: seq<Port>, env: Env): World
    requires k in w.peers
  {
    AnnounceFrom(ReleaseDropped(w, k, ports), k, ports, 0, env)
  }

  function SetRemap(binds: map<Port, Port>, port: Port, local: Option<Port>): map<Port, Port> {
    match local
    case Some(l) => binds[port := l]
    case None => binds - {port}
  }

  /** Every binding for `port` torn down, whoever holds it. */
  function ReleaseEverywhere(w: World, port: Port): World {
    w.(peers := map x <- w.peers :: w.peers[x].(bindings := w.peers[x].bindings - {port}),
       listeners := map l <- w.listeners | w.listeners[l].1 != port :: w.listeners[l])
  }

  /** Rebuilding the binding for `port` on each announcing peer, in `order`. */
  function RebuildFrom(w: World, port: Port, order: seq<Key>, i: nat, offers: nat -> Port): World
    requires i <= |order|
    requires forall x <- order :: x in w.peers
    decreases |order| - i
  {
    if i == |order| then w
    else if port in w.peers[order[i]].exposed then
      RebuildFrom(CreateBinding(w, order[i], port, offers(i)), port, order, i + 1, offers)
    else
      RebuildFrom(w, port, order, i + 1, offers)
  }

  /** `order` lists the keys of the registry, each once: one possible iteration
      order of the registry map. */
  ghost predicate Enumerates(order: seq<Key>, keys: set<Key>) {
    && (forall x :: x in order <==> x in keys)
    && (forall i, j :: 0 <= i < j < |order| ==> order[i] != order[j])
  }

  /** Remapping an announced port, or clearing its remap. */
  function SetBind(w: World, port: Port, local: Option<Port>, order: seq<Key>, offers: nat -> Port): World
    requires forall x <- order :: x in w.peers
  {
    RebuildFrom(
      ReleaseEverywhere(w.(binds := SetRemap(w.binds, port, local)), port), port, order, 0, offers)
  }

  // ---------------------------------------------------------------- invariants

  /** The bindings of registered peers and the daemon's listening sockets
      correspond one for one, and none sits on a refused port. */
  ghost predicate Ledger(w: World) {
    && (forall l <- w.listeners :: Bound(w, w.listeners[l].0, w.listeners[l].1, l))
    && (forall x: Key, p: Port, l: Port :: Bound(w, x, p, l) ==> l in w.listeners && w.listeners[l] == (x, p))
    && (forall l <- w.listeners :: l != 0 && l !in w.foreign)
  }

  /** Every binding sits where the remap table sends it, unless the table left
      the choice to the system. `skip` exempts one port. */
  ghost predicate OnTarget(w: World, skip: Option<Port>) {
    forall x: Key, p: Port, l: Port :: Bound(w, x, p, l) && LocalFor(w, p) != 0 && skip != Some(p) ==> l == LocalFor(w, p)
  }

  /** A peer's bindings lie within what it announced. */
  ghost predicate WithinAnnounced(w: World, x: Key)
    requires x in w.peers
  {
    forall p <- w.peers[x].bindings :: p in w.peers[x].exposed
  }

  ghost predicate Agree(w: World) {
    Ledger(w) && OnTarget(w, None)
  }

  ghost predicate Consistent(w: World) {
    Agree(w) && forall x <- w.peers :: WithinAnnounced(w, x)
  }

  // ------------------------------------------------------------- single steps

  /** No two bindings share a local port, so at most one peer holds one, and it
      is the peer the system's table names. */
  lemma HolderIsListener(w: World, l: Port, k: Key)
    requires Ledger(w)
    ensures Holder(w, l, k) ==
            if l in w.listeners && w.listeners[l].0 != k then Some(w.listeners[l].0) else None
    ensures forall x :: Holds(w, x, l) <==> l in w.listeners && w.listeners[l].0 == x
  {
    forall x ensures Holds(w, x, l) <==> l in w.listeners && w.listeners[l].0 == x {
      if Holds(w, x, l) {
        var p :| p in w.peers[x].bindings && w.peers[x].bindings[p] == l;
        assert Bound(w, x, p, l);
      }
      if l in w.listeners && w.listeners[l].0 == x {
        assert Bound(w, x, w.listeners[l].1, l);
      }
    }
    if l in w.listeners {
      assert l != 0 && Holds(w, w.listeners[l].0, l);
    }
  }

  lemma ReleaseKeepsLedger(w: World, k: Key, port: Port, skip: Option<Port>)
    requires Ledger(w) && OnTarget(w, skip) && k in w.peers
    ensures Ledger(ReleaseBinding(w, k, port)) && OnTarget(ReleaseBinding(w, k, port), skip)
  {
    var w' := ReleaseBinding(w, k, port);
    if port in w.peers[k].bindings {
      assert Bound(w, k, port, w.peers[k].bindings[port]);
      assert forall x: Key, p: Port, l: Port :: Bound(w', x, p, l) <==> Bound(w, x, p, l) && (x, p) != (k, port);
    }
  }

  lemma AddBindingBound(w: World, k: Key, port: Port, l: Port)
    requires k in w.peers && port !in w.peers[k].bindings
    ensures forall x: Key, p: Port, m: Port ::
              Bound(AddBinding(w, k, port, l), x, p, m) <==> Bound(w, x, p, m) || (x, p, m) == (k, port, l)
  {
  }

  lemma AddKeepsLedger(w: World, k: Key, port: Port, l: Port, skip: Option<Port>)
    requires Ledger(w) && OnTarget(w, skip) && k in w.peers && port !in w.peers[k].bindings
    requires l != 0 && !Occupied(w, l) && (LocalFor(w, port) == 0 || LocalFor(w, port) == l)
    ensures Ledger(AddBinding(w, k, port, l)) && OnTarget(AddBinding(w, k, port, l), skip)
  {
    AddBindingBound(w, k, port, l);
    AddIsLedger(w, AddBinding(w, k, port, l), k, port, l);
  }

  /** One more binding and its socket. */
  lemma AddIsLedger(w: World, w': World, k: Key, port: Port, l: Port)
    requires Ledger(w) && l != 0 && !Occupied(w, l)
    requires w'.listeners == w.listeners[l := (k, port)] && w'.foreign == w.foreign
    requires forall x: Key, p: Port, m: Port :: Bound(w', x, p, m) <==> Bound(w, x, p, m) || (x, p, m) == (k, port, l)
    ensures Ledger(w')
  {
  }

  lemma CreateKeepsLedger(w: World, k: Key, port: Port, offer: Port, skip: Option<Port>)
    requires Ledger(w) && OnTarget(w, skip) && k in w.peers && port !in w.peers[k].bindings
    ensures Ledger(CreateBinding(w, k, port, offer)) && OnTarget(CreateBinding(w, k, port, offer), skip)
  {
    match OsBind(w, LocalFor(w, port), offer)
    case None =>
    case Some(l) => AddKeepsLedger(w, k, port, l, skip);
  }

  lemma EvictListeners(w: World, k: Key)
    requires Ledger(w)
    ensures Evict(w, k).listeners == map l <- w.listeners | w.listeners[l].0 != k :: w.listeners[l]
  {
    forall l <- w.listeners ensures Holds(w, k, l) <==> w.listeners[l].0 == k {
      HolderIsListener(w, l, k);
    }
  }

  lemma EvictBound(w: World, k: Key)
    ensures forall x: Key, p: Port, l: Port :: Bound(Evict(w, k), x, p, l) <==> Bound(w, x, p, l) && x != k
  {
  }

  lemma EvictKeepsLedger(w: World, k: Key, skip: Option<Port>)
    requires Ledger(w) && OnTarget(w, skip)
    ensures Ledger(Evict(w, k)) && OnTarget(Evict(w, k), skip)
  {
    EvictListeners(w, k);
    EvictBound(w, k);
    LessIsLedger(w, Evict(w, k), k);
    assert forall p: Port :: LocalFor(Evict(w, k), p) == LocalFor(w, p);
  }

  /** All bindings of one peer and their sockets gone. */
  lemma LessIsLedger(w: World, w': World, k: Key)
    requires Ledger(w) && w'.foreign == w.foreign
    requires w'.listeners == map l <- w.listeners | w.listeners[l].0 != k :: w.listeners[l]
    requires forall x: Key, p: Port, l: Port :: Bound(w', x, p, l) <==> Bound(w, x, p, l) && x != k
    ensures Ledger(w')
  {
  }
}
