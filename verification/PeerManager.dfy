/** The peer manager: the mutable tables, and the operations that change them
    under the bind lock. Each is proved to do exactly what the table operation
    of the same name says. */
module PeerManagement {
  import opened Common
  import opened Enrollment
  import opened Grants
  import opened PeerTables
  import opened Announcement
  import opened Remap
  import Registry
  import Sorting
  import T = PeerTables

  /** A registered peer. Evicting it leaves the object to whoever still holds
      it, marked removed. */
  class Peer {
    const key: Key
    const name: Option<string>
    const dial: bool
    const token: Option<string>
    var conn: Option<ConnId>
    var exposed: seq<Port>
    var bindings: map<Port, Port>
    var permit: bool
    var removed: bool

    constructor (key: Key, name: Option<string>, dial: bool, token: Option<string>, conn: Option<ConnId>)
      ensures this.key == key && Record() == Registry.FreshPeer(name, dial, token, conn)
      ensures !removed && !permit
    {
      this.key := key;
      this.name := name;
      this.dial := dial;
      this.token := token;
      this.conn := conn;
      exposed := [];
      bindings := map[];
      permit := false;
      removed := false;
    }

    ghost function Record(): PeerRec
      reads this
    {
      PeerRec(name, dial, token, conn, exposed, bindings)
    }

    /** Told to end: its loop finds the flag set and a wake-up pending. */
    ghost predicate Gone()
      reads this
    {
      removed && permit && conn == None
    }
  }

  /** The operating system: this daemon's listening sockets, the ports it will
      not give, and the connections this side has closed. */
  class Os {
    var listeners: map<Port, (Key, Port)>
    var foreign: set<Port>
    var closed: set<ConnId>

    constructor (foreign: set<Port>)
      ensures listeners == map[] && this.foreign == foreign && closed == {}
    {
      listeners := map[];
      this.foreign := foreign;
      closed := {};
    }

    /** Binds `l`, or with 0 the port offered, for an accept loop that forwards
        to `target`. A socket is had on a free port only, and takes none from
        another. */
    method BindListener(l: Port, offer: Port, target: (Key, Port)) returns (local: Option<Port>)
      modifies this`listeners
      ensures local.Some? ==>
                && local.value != 0 && (l != 0 ==> local.value == l) && (l == 0 ==> local.value == offer)
                && local.value !in old(listeners) && local.value !in foreign
                && listeners == old(listeners)[local.value := target]
      ensures local.None? ==>
                && listeners == old(listeners)
                && (l != 0 ==> l in listeners || l in foreign)
                && (l == 0 ==> offer == 0 || offer in listeners || offer in foreign)
    {
      var wanted := if l != 0 then l else offer;
      if wanted == 0 || wanted in listeners || wanted in foreign {
        local := None;
      } else {
        local := Some(wanted);
        listeners := listeners[wanted := target];
      }
    }

    method DropListener(l: Port)
      modifies this`listeners
      ensures listeners == old(listeners) - {l}
    {
      listeners := listeners - {l};
    }

    method Close(conn: Option<ConnId>)
      modifies this`closed
      ensures closed == old(closed) + ConnSet(conn)
    {
      if conn.Some? {
        closed := closed + {conn.value};
      }
    }
  }

  class PeerManager {
    const grants: GrantTable
    const tokens: Tokens
    const pins: Pins
    const os: Os
    var peers: map<Key, Peer>
    var binds: map<Port, Port>

    /** The tables as a value. */
    ghost function View(): World
      reads this, peers.Values, grants, tokens, pins, os
    {
      World(map k <- peers :: peers[k].Record(), binds, grants.Pairs(), pins.Contents(), tokens.pending,
            os.listeners, os.foreign, os.closed)
    }

    /** Each peer is registered under its own key, and the tables agree. */
    ghost predicate Valid()
      reads this, peers.Values, grants, tokens, pins, os
    {
      && (forall k <- peers :: peers[k].key == k)
      && grants.Valid()
      && Agree(View())
    }

    constructor (grants: GrantTable, tokens: Tokens, pins: Pins, os: Os)
      requires grants.Valid() && os.listeners == map[]
      ensures this.grants == grants && this.tokens == tokens && this.pins == pins && this.os == os
      ensures Valid() && peers == map[]
      ensures View() == World(map[], map[], grants.Pairs(), pins.Contents(), tokens.pending,
                              map[], os.foreign, os.closed)
    {
      this.grants := grants;
      this.tokens := tokens;
      this.pins := pins;
      this.os := os;
      peers := map[];
      binds := map[];
    }

    ghost predicate Registered(peer: Peer)
      reads this
    {
      peer.key in peers && peers[peer.key] == peer
    }

    method LocalFor(port: Port) returns (local: Port)
      ensures local == T.LocalFor(View(), port)
    {
      local := if port in binds then binds[port] else port;
    }

    /** Another peer whose binding occupies `local`, whatever order the registry
        is searched in. */
    method FindHolder(local: Port, exclude: Key) returns (holder: Peer?)
      requires Valid()
      ensures holder == null ==> Holder(View(), local, exclude) == None
      ensures holder != null ==> Registered(holder) && Holder(View(), local, exclude) == Some(holder.key)
    {
      HolderIsListener(View(), local, exclude);
      holder := null;
      if local == 0 {
        return;
      }
      var rest := peers.Keys;
      while rest != {}
        invariant rest <= peers.Keys
        invariant forall x <- peers.Keys - rest :: x != exclude ==> !Holds(View(), x, local)
        decreases rest
      {
        var k :| k in rest;
        if k != exclude && local in peers[k].bindings.Values {
          assert Holds(View(), k, local);
          return peers[k];
        }
        assert k != exclude ==> !Holds(View(), k, local);
        rest := rest - {k};
      }
      assert forall x :: x != exclude ==> !Holds(View(), x, local);
    }

    /** Releases one binding, if there is one, and its listener with it. */
    method ReleaseBinding(peer: Peer, port: Port)
      modifies peer`bindings, os`listeners
      ensures peer.bindings == old(peer.bindings) - {port}
      ensures os.listeners == if port in old(peer.bindings) then old(os.listeners) - {old(peer.bindings[port])}
                              else old(os.listeners)
    {
      if port in peer.bindings {
        var local := peer.bindings[port];
        peer.bindings := peer.bindings - {port};
        os.DropListener(local);
      } else {
        assert peer.bindings - {port} == peer.bindings;
      }
    }

    /** Binds before recording anything, so a failed bind leaves no entry. */
    method TryCreateBinding(peer: Peer, port: Port, offer: Port) returns (local: Option<Port>)
      modifies peer`bindings, os`listeners
      ensures local == OsBind(old(View()), T.LocalFor(old(View()), port), offer)
      ensures peer.bindings == if local.Some? then old(peer.bindings)[port := local.value] else old(peer.bindings)
      ensures os.listeners == if local.Some? then old(os.listeners)[local.value := (peer.key, port)]
                              else old(os.listeners)
    {
      var l := LocalFor(port);
      local := os.BindListener(l, offer, (peer.key, port));
      if local.Some? {
        peer.bindings := peer.bindings[port := local.value];
      }
    }

    /** The port must have no binding: a second one would overwrite the record
        of the first and leak its listener. */
    method CreateBinding(peer: Peer, port: Port, offer: Port)
      requires Registered(peer) && port !in peer.bindings
      requires forall k <- peers :: peers[k].key == k
      modifies peer`bindings, os`listeners
      ensures View() == T.CreateBinding(old(View()), peer.key, port, offer)
    {
      ghost var before := View();
      var local := TryCreateBinding(peer, port, offer);
      assert View().peers == before.peers[peer.key := peer.Record()];
      assert before.peers[peer.key] == old(peer.Record());
    }

    /** Releases every binding of a peer, one by one. */
    method ReleaseAll(peer: Peer)
      modifies peer`bindings, os`listeners
      ensures peer.bindings == map[]
      ensures os.listeners == old(os.listeners) - old(peer.bindings.Values)
    {
      ghost var b, listeners := peer.bindings, os.listeners;
      var ports := peer.bindings.Keys;
      ghost var done: set<Port> := {};
      while ports != {}
        invariant ports == peer.bindings.Keys && done + ports == b.Keys && done !! ports
        invariant peer.bindings == b - done
        invariant os.listeners == listeners - (set p <- done :: b[p])
        decreases ports
      {
        var p :| p in ports;
        ReleaseBinding(peer, p);
        assert (set q <- done + {p} :: b[q]) == (set q <- done :: b[q]) + {b[p]};
        done := done + {p};
        ports := ports - {p};
      }
      assert done == b.Keys && (set p <- done :: b[p]) == b.Values;
    }

    /** Marks a peer removed, wakes its loop, closes its connection. */
    method Detach(peer: Peer)
      modifies peer`removed, peer`permit, peer`conn, os`closed
      ensures peer.removed && peer.permit && peer.conn == None
      ensures os.closed == old(os.closed) + ConnSet(old(peer.conn))
    {
      peer.removed := true;
      peer.permit := true;
      os.Close(peer.conn);
      peer.conn := None;
    }

    /** Takes a peer out of the registry and tears down all it holds. */
    method Unregister(k: Key)
      requires k in peers && forall x <- peers :: peers[x].key == x
      modifies this`peers, peers[k], os`listeners, os`closed
      ensures View() == old(View()).(peers := old(View()).peers - {k},
                                     listeners := old(os.listeners) - old(peers[k].bindings.Values),
                                     closed := old(os.closed) + ConnSet(old(peers[k].conn)))
      ensures peers == old(peers) - {k}
      ensures old(peers)[k].Gone()
    {
      ghost var before := View();
      var peer := peers[k];
      peers := peers - {k};
      Detach(peer);
      ReleaseAll(peer);
      assert View().peers == before.peers - {k};
    }

    /** Fully evicts a peer. */
    method Evict(k: Key)
      requires grants.Valid() && forall x <- peers :: peers[x].key == x
      modifies this`peers, if k in peers then {peers[k]} else {}, grants, pins, os`listeners, os`closed
      ensures View() == T.Evict(old(View()), k)
      ensures peers == old(peers) - {k} && grants.Valid()
      ensures k in old(peers) ==> old(peers)[k].Gone()
    {
      if k in peers {
        Unregister(k);
      }
      DropClaims(k);
    }

    /** The grants and the pin of a peer. */
    method DropClaims(k: Key)
      requires grants.Valid()
      modifies grants, pins
      ensures grants.Valid()
      ensures View() == old(View()).(grants := RevokeGrantee(old(View()).grants, k), pins := WithoutPins(old(View()).pins, {k}))
    {
      ghost var w := View();
      grants.Revoke(k);
      WithoutPrinted(pins.Contents(), k);
      var saved := pins.Remove(Printed(k), true);
      assert View().peers == w.peers;
    }

    /** Removing a peer by key; a key that is not registered is an error. */
    method RemovePeer(k: Key) returns (error: Option<ErrorKind>)
      requires Valid()
      modifies this`peers, peers.Values, grants, pins, os`listeners, os`closed
      ensures Valid() && (View(), error) == Registry.RemovePeer(old(View()), k)
      ensures error.None? ==> old(peers)[k].Gone()
    {
      if k !in peers {
        return Some(Internal);
      }
      EvictFully(k);
      error := None;
    }

    /** Releases the bindings for every port of `olds` that is not in `ports`. */
    method ReleaseEach(peer: Peer, olds: seq<Port>, ports: seq<Port>)
      modifies peer`bindings, os`listeners
      ensures peer.bindings == old(peer.bindings) - Unannounced(old(peer.bindings), olds, ports)
      ensures os.listeners == old(os.listeners)
                              - (set p <- Unannounced(old(peer.bindings), olds, ports) :: old(peer.bindings)[p])
    {
      ghost var b, listeners := peer.bindings, os.listeners;
      assert Unannounced(b, [], ports) == {} && b - {} == b;
      for i := 0 to |olds|
        invariant peer.bindings == b - Unannounced(b, olds[..i], ports)
        invariant os.listeners == listeners - (set p <- Unannounced(b, olds[..i], ports) :: b[p])
      {
        var port := olds[i];
        ghost var done := Unannounced(b, olds[..i], ports);
        assert olds[..i + 1] == olds[..i] + [port];
        if port !in ports {
          ReleaseBinding(peer, port);
          if port in b {
            assert Unannounced(b, olds[..i + 1], ports) == done + {port};
            assert (set q <- done + {port} :: b[q]) == (set q <- done :: b[q]) + {b[port]};
          } else {
            assert Unannounced(b, olds[..i + 1], ports) == done;
          }
        } else {
          assert Unannounced(b, olds[..i + 1], ports) == done;
        }
      }
      assert olds[..|olds|] == olds;
    }

    /** Releases what the peer announced before and no longer announces. */
    method ReleaseUnannounced(peer: Peer, ports: seq<Port>)
      requires Valid() && Registered(peer)
      modifies peer`bindings, os`listeners
      ensures Valid() && View() == ReleaseDropped(old(View()), peer.key, ports)
    {
      ghost var w, k, b := View(), peer.key, peer.bindings;
      ghost var done := Unannounced(b, peer.exposed, ports);
      ReleaseEach(peer, peer.exposed, ports);
      assert peer.Record() == w.peers[k].(bindings := b - done);
      SameTables(ReleaseSet(w, k, done));
      ReleaseSetKeeps(w, k, done);
    }

    /** Clears the target of `port` of a stale holder; a live one rejects the
        announcer. */
    method MakeWay(peer: Peer, port: Port, alive: set<Key>) returns (rejected: bool)
      requires Valid() && Registered(peer)
      modifies this`peers, peers.Values, grants, pins, os`listeners, os`closed
      ensures Valid() && Registered(peer)
      ensures match Holder(old(View()), T.LocalFor(old(View()), port), peer.key)
              case None => !rejected && View() == old(View())
              case Some(h) => rejected == (h in alive) && View() == if rejected then old(View()) else T.Evict(old(View()), h)
      ensures peers.Keys <= old(peers.Keys) && forall x <- peers :: peers[x] == old(peers[x])
      ensures peer.bindings == old(peer.bindings)
      ensures forall x <- old(peers) :: x !in peers ==> old(peers)[x].Gone()
    {
      var local := LocalFor(port);
      var holder := FindHolder(local, peer.key);
      if holder == null {
        rejected := false;
      } else if holder.key in alive {
        rejected := true;
      } else {
        EvictFully(holder.key);
        rejected := false;
      }
    }

    /** One announced port: nothing if it is bound, else way is made and it is
        bound, unless a live peer holds its target. */
    method BindAnnounced(peer: Peer, port: Port, offer: Port, alive: set<Key>) returns (rejected: bool)
      requires Valid() && Registered(peer)
      modifies this`peers, peers.Values, grants, pins, os`listeners, os`closed
      ensures Valid()
      ensures peers.Keys <= old(peers.Keys) && forall x <- peers :: peers[x] == old(peers[x])
      ensures !rejected ==> Registered(peer)
      ensures if port in old(peer.bindings) then !rejected && View() == old(View())
              else match Holder(old(View()), T.LocalFor(old(View()), port), peer.key)
                case None => !rejected && View() == T.CreateBinding(old(View()), peer.key, port, offer)
                case Some(h) =>
                  && rejected == (h in alive)
                  && (rejected ==> View() == T.Evict(old(View()), peer.key))
                  && (!rejected ==> View() == T.CreateBinding(T.Evict(old(View()), h), peer.key, port, offer))
      ensures forall x <- old(peers) :: x !in peers ==> old(peers)[x].Gone()
    {
      if port in peer.bindings {
        return false;
      }
      rejected := MakeWay(peer, port, alive);
      if rejected {
        EvictFully(peer.key);
      } else {
        BindCleared(peer, port, offer);
      }
    }

    /** Evicts a registered peer. */
    method EvictFully(k: Key)
      requires Valid() && k in peers
      modifies this`peers, peers[k], grants, pins, os`listeners, os`closed
      ensures Valid() && View() == T.Evict(old(View()), k)
      ensures peers == old(peers) - {k} && old(peers)[k].Gone()
    {
      EvictKeepsLedger(View(), k, None);
      Evict(k);
    }

    method BindCleared(peer: Peer, port: Port, offer: Port)
      requires Valid() && Registered(peer) && port !in peer.bindings
      modifies peer`bindings, os`listeners
      ensures Valid() && View() == T.CreateBinding(old(View()), peer.key, port, offer)
    {
      CreateKeepsLedger(View(), peer.key, port, offer, None);
      CreateBinding(peer, port, offer);
    }

    /** A peer announces `ports`; `env` says which peers answer a probe and what
        the system offers. The peer must still be registered. */
    method UpdatePeerPorts(peer: Peer, ports: seq<Port>, env: Env)
      requires Valid() && Registered(peer)
      modifies this`peers, peers.Values, grants, pins, os`listeners, os`closed
      ensures View() == Announce(old(View()), peer.key, ports, env)
      ensures Valid() && peers.Keys <= old(peers.Keys) && forall x <- peers :: peers[x] == old(peers[x])
      ensures forall x <- old(peers) :: x !in peers ==> old(peers)[x].Gone()
    {
      ReleaseUnannounced(peer, ports);
      var rejected := BindEach(peer, ports, env);
      assert forall x <- peers :: peers[x] in old(peers.Values) && peers[x].key == x;
      assert forall x <- old(peers) :: old(peers)[x].key == x;
      if !rejected {
        ReplaceExposed(peer, ports);
      }
    }

    /** The binding loop of an announcement. */
    method BindEach(peer: Peer, ports: seq<Port>, env: Env) returns (rejected: bool)
      requires Valid() && Registered(peer)
      modifies this`peers, peers.Values, grants, pins, os`listeners, os`closed
      ensures Valid() && peers.Values <= old(peers.Values)
      ensures forall p <- old(peers.Values) :: p in peers.Values || p.Gone()
      ensures rejected ==> View() == AnnounceFrom(old(View()), peer.key, ports, 0, env)
      ensures !rejected ==> Registered(peer)
                            && AnnounceFrom(View(), peer.key, ports, |ports|, env) == AnnounceFrom(old(View()), peer.key, ports, 0, env)
    {
      for i := 0 to |ports|
        invariant Valid() && Registered(peer)
        invariant peers.Values <= old(peers.Values)
        invariant AnnounceFrom(View(), peer.key, ports, i, env) == AnnounceFrom(old(View()), peer.key, ports, 0, env)
        invariant forall p <- old(peers.Values) :: p in peers.Values || p.Gone()
      {
        rejected := BindNth(peer, ports, i, env);
        if rejected {
          return;
        }
      }
      rejected := false;
    }

    method BindNth(peer: Peer, ports: seq<Port>, i: nat, env: Env) returns (rejected: bool)
      requires Valid() && Registered(peer) && i < |ports|
      modifies this`peers, peers.Values, grants, pins, os`listeners, os`closed
      ensures Valid() && peers.Values <= old(peers.Values)
      ensures forall p <- old(peers.Values) :: p in peers.Values || p.Gone()
      ensures rejected ==> View() == AnnounceFrom(old(View()), peer.key, ports, i, env)
      ensures !rejected ==> Registered(peer)
                            && AnnounceFrom(View(), peer.key, ports, i + 1, env) == AnnounceFrom(old(View()), peer.key, ports, i, env)
    {
      rejected := BindAnnounced(peer, ports[i], env.offers(i), env.alive);
    }

    method ReplaceExposed(peer: Peer, ports: seq<Port>)
      requires Valid() && Registered(peer)
      modifies peer`exposed
      ensures Valid()
      ensures View() == old(View()).(peers := old(View()).peers[peer.key := old(peer.Record()).(exposed := ports)])
    {
      ghost var w := View();
      ListReplaced(w, peer.key, ports);
      peer.exposed := ports;
      assert View().peers == w.peers[peer.key := w.peers[peer.key].(exposed := ports)];
    }
  
    /** The registry's keys, in some iteration order. */
    method KeyOrder() returns (order: seq<Key>)
      ensures Enumerates(order, peers.Keys)
    {
      order := Sorting.Collect(peers.Keys);
      Sorting.ListsOnce(order, peers.Keys);
    }

    /** The peers in `done` have released `port`, and nothing else happened since
        the tables were `w`. */
    ghost predicate HaveReleased(w: World, port: Port, done: seq<Key>)
      reads this, peers.Values, os
    {
      && peers.Keys == w.peers.Keys
      && (forall x <- peers :: peers[x].Record() == Released(w, port, done, x))
      && os.listeners == ListenersLeft(w, port, done)
    }

    method ReleaseNext(ghost w: World, port: Port, ghost done: seq<Key>, k: Key)
      requires Ledger(w) && k in peers && k !in done && forall x <- peers :: peers[x].key == x
      requires HaveReleased(w, port, done)
      modifies peers[k], os`listeners
      ensures HaveReleased(w, port, done + [k])
    {
      OneReleased(w, port, done, k);
      assert peers[k].Record() == w.peers[k];
      assert forall x <- peers :: x != k ==> peers[x] != peers[k];
      ReleaseBinding(peers[k], port);
      assert forall x <- peers :: x != k ==> peers[x].Record() == old(peers[x].Record());
    }

    /** Tears down the binding for `port` on every peer. */
    method ReleasePort(port: Port, order: seq<Key>)
      requires Ledger(View()) && Enumerates(order, peers.Keys) && forall k <- peers :: peers[k].key == k
      modifies peers.Values, os`listeners
      ensures View() == ReleaseEverywhere(old(View()), port)
      ensures forall k <- peers :: port !in peers[k].bindings
    {
      ghost var w := View();
      for i := 0 to |order|
        invariant HaveReleased(w, port, order[..i])
      {
        NextInOrder(order, peers.Keys, i);
        ReleaseNext(w, port, order[..i], order[i]);
      }
      assert order[..|order|] == order;
      AllReleased(w, port, order);
      SameTables(ReleaseEverywhere(w, port));
    }

    /** The tables are `w` when they say so one by one. */
    lemma SameTables(w: World)
      requires peers.Keys == w.peers.Keys && forall x <- peers :: peers[x].Record() == w.peers[x]
      requires binds == w.binds && grants.Pairs() == w.grants && pins.Contents() == w.pins
      requires tokens.pending == w.tokens
      requires os.listeners == w.listeners && os.foreign == w.foreign && os.closed == w.closed
      ensures View() == w
    {
    }

    /** Rebuilds the binding for `port` on one peer, if it announces the port. */
    method RebuildOn(k: Key, port: Port, offer: Port)
      requires k in peers && port !in peers[k].bindings && forall x <- peers :: peers[x].key == x
      modifies peers[k], os`listeners
      ensures View() == if port in old(peers[k].exposed) then T.CreateBinding(old(View()), k, port, offer)
                        else old(View())
    {
      if port in peers[k].exposed {
        CreateBinding(peers[k], port, offer);
      } else {
        assert View().peers == old(View().peers);
      }
    }

    /** Rebuilds the binding for `port` on every peer that announces it. */
    method RebuildPort(port: Port, order: seq<Key>, offers: nat -> Port)
      requires Enumerates(order, peers.Keys) && forall k <- peers :: peers[k].key == k
      requires forall k <- peers :: port !in peers[k].bindings
      modifies peers.Values, os`listeners
      ensures View() == RebuildFrom(old(View()), port, order, 0, offers)
    {
      ghost var w := View();
      for i := 0 to |order|
        invariant UnboundFrom(port, order, i)
        invariant RebuildFrom(View(), port, order, i, offers) == RebuildFrom(w, port, order, 0, offers)
      {
        RebuildNext(port, order, i, offers(i));
      }
    }

    /** `port` is still unbound on every peer from position `i` on. */
    ghost predicate UnboundFrom(port: Port, order: seq<Key>, i: nat)
      reads this, peers.Values
    {
      i <= |order| && forall x <- peers :: x in order[..i] || port !in peers[x].bindings
    }

    method RebuildNext(port: Port, order: seq<Key>, i: nat, offer: Port)
      requires Enumerates(order, peers.Keys) && forall k <- peers :: peers[k].key == k
      requires i < |order| && UnboundFrom(port, order, i)
      modifies peers[order[i]], os`listeners
      ensures UnboundFrom(port, order, i + 1)
      ensures View() == if port in old(peers[order[i]].exposed) then T.CreateBinding(old(View()), order[i], port, offer)
                        else old(View())
    {
      NextInOrder(order, peers.Keys, i);
      RebuildOn(order[i], port, offer);
    }

    method WriteRemap(port: Port, local: Option<Port>)
      modifies this`binds
      ensures View() == old(View()).(binds := SetRemap(old(binds), port, local))
    {
      ghost var w := View();
      match local {
        case Some(l) => binds := binds[port := l];
        case None => binds := binds - {port};
      }
      assert View().peers == w.peers;
    }

    /** Remaps an announced port, or clears its remap, and rebuilds its bindings.
        `order` is the iteration order of the registry. */
    method SetBind(port: Port, local: Option<Port>, order: seq<Key>, offers: nat -> Port)
      requires Valid() && Enumerates(order, peers.Keys)
      modifies this`binds, peers.Values, os`listeners
      ensures Valid() && View() == T.SetBind(old(View()), port, local, order, offers)
    {
      RemapTable(View(), port, local);
      WriteRemap(port, local);
      ghost var w := View();
      RemapRebuilds(w, port, order, offers);
      ReleasePort(port, order);
      RebuildPort(port, order, offers);
    }
  
    /** A remap set before any peer announces. */
    method SetBindQuietly(port: Port, local: Port, offers: nat -> Port)
      requires Valid() && Quiet(View())
      modifies this`binds, peers.Values, os`listeners
      ensures Valid() && View() == old(View()).(binds := old(View()).binds[port := local])
    {
      var order := KeyOrder();
      QuietRemapOnlyWrites(View(), port, Some(local), order, offers);
      SetBind(port, Some(local), order, offers);
    }

    /** Several remaps set before any peer announces. */
    method SetBindsQuietly(rows: map<Port, Port>, offers: nat -> Port)
      requires Valid() && Quiet(View())
      modifies this`binds, peers.Values, os`listeners
      ensures Valid() && View() == old(View()).(binds := old(View()).binds + rows)
    {
      ghost var w := View();
      var rest := rows.Keys;
      BoundEnds(w.binds, rows);
      while rest != {}
        invariant rest <= rows.Keys && Valid()
        invariant View() == w.(binds := BoundSoFar(w.binds, rows, rest))
        decreases rest
      {
        var p :| p in rest;
        BoundNext(w.binds, rows, rest, p);
        SetBindQuietly(p, rows[p], offers);
        rest := rest - {p};
      }
    }

    // -------------------------------------------------------- registration

    method Insert(peer: Peer)
      requires Valid() && peer.bindings == map[] && peer.key !in peers
      modifies this`peers
      ensures Valid() && peers == old(peers)[peer.key := peer]
      ensures View() == old(View()).(peers := old(View()).peers[peer.key := peer.Record()])
    {
      ghost var w := View();
      peers := peers[peer.key := peer];
      assert View().peers == w.peers[peer.key := peer.Record()];
      Registry.SamePortsAgree(w, View());
    }

    /** Adds a peer by ticket; `reached` is the connection, if it was reached. */
    method AddPeer(k: Key, token: Option<string>, reached: Option<ConnId>) returns (error: Option<ErrorKind>)
      requires Valid()
      modifies this`peers
      ensures Valid() && (View(), error) == Registry.AddPeer(old(View()), k, token, reached)
    {
      if k in peers {
        return Some(Conflict);
      }
      if reached.None? {
        return Some(NotFound);
      }
      var peer := new Peer(k, None, true, token, reached);
      Insert(peer);
      error := None;
    }

    /** Registers a pinned peer, if its key is not registered yet. */
    method AddPinned(k: Key, name: string)
      requires Valid()
      modifies this`peers
      ensures Valid() && View() == old(View()).(peers := Registry.AddPinned(old(View()).peers, k, name))
      ensures fresh(peers.Values - old(peers.Values))
    {
      if k !in peers {
        var peer := new Peer(k, Some(name), false, None, None);
        Insert(peer);
      }
    }

    /** Registers the peer, then writes its pin; `writable` says whether the write
        succeeds. */
    method PinPeer(text: KeyText, name: string, writable: bool) returns (saved: bool)
      requires Valid() && !text.NoKey?
      modifies this`peers, pins
      ensures Valid() && saved == writable
      ensures View() == if saved then Registry.PinPeer(old(View()), text, name)
                        else old(View()).(peers := Registry.AddPinned(old(View()).peers, text.key, name))
    {
      AddPinned(text.key, name);
      saved := AddPin(text, name, writable);
    }

    method AddPin(text: KeyText, name: string, writable: bool) returns (saved: bool)
      requires Valid()
      modifies pins
      ensures Valid() && saved == writable
      ensures View() == if saved then old(View()).(pins := WithPin(old(View()).pins, text, name)) else old(View())
    {
      ghost var w := View();
      saved := pins.Add(text, name, writable);
      assert View().peers == w.peers;
      Registry.SamePortsAgree(w, View());
    }

    method PinPrinted(k: Key, name: string)
      requires Valid()
      modifies pins
      ensures Valid() && View() == old(View()).(pins := WithPin(old(View()).pins, Printed(k), name))
    {
      var saved := AddPin(Printed(k), name, true);
    }

    /** Registers every pin of the file at startup. */
    method LoadPinned()
      requires Valid() && peers == map[]
      modifies this`peers
      ensures Valid() && View() == old(View()).(peers := Registry.Pinned(old(View()).pins))
      ensures fresh(peers.Values)
    {
      var list := pins.Load();
      ghost var w := View();
      for i := 0 to |list|
        invariant Valid() && View() == w.(peers := Registry.Pinned(list[..i])) && fresh(peers.Values)
      {
        assert list[..i + 1][..i] == list[..i];
        if !list[i].text.NoKey? {
          AddPinned(list[i].text.key, list[i].name);
        }
      }
      assert list[..|list|] == list;
    }

    /** Whether a tunnel that `peer` opens to `port` is let through. */
    method AdmitTunnel(port: Port, peer: Key) returns (served: bool)
      ensures served <==> (port, peer) in View().grants
    {
      served := grants.Allows(port, peer);
    }

    // ---------------------------------------------------------- connections

    /** The old connection is closed, the new one installed, the loop woken. */
    method Install(peer: Peer, conn: ConnId)
      modifies peer`conn, peer`permit, os`closed
      ensures peer.conn == Some(conn) && peer.permit
      ensures os.closed == old(os.closed) + ConnSet(old(peer.conn))
    {
      os.Close(peer.conn);
      peer.conn := Some(conn);
      peer.permit := true;
    }

    /** A known peer's connection is replaced. */
    method Reconnect(k: Key, conn: ConnId)
      requires Valid() && k in peers
      modifies peers[k], os`closed
      ensures Valid() && peers[k].permit && peers[k].removed == old(peers[k].removed)
      ensures View() == old(View()).(closed := old(View()).closed + ConnSet(old(View()).peers[k].conn),
                                     peers := old(View()).peers[k := old(View()).peers[k].(conn := Some(conn))])
    {
      ghost var w := View();
      Install(peers[k], conn);
      SameTables(w.(closed := w.closed + ConnSet(w.peers[k].conn),
                    peers := w.peers[k := w.peers[k].(conn := Some(conn))]));
      Registry.SamePortsAgree(w, View());
    }

    method CloseRefused(conn: ConnId)
      requires Valid()
      modifies os`closed
      ensures Valid() && View() == Registry.Refuse(old(View()), conn)
    {
      ghost var w := View();
      os.Close(Some(conn));
      assert View().peers == w.peers;
      Registry.SamePortsAgree(w, View());
    }

    method ClaimFor(token: Token, now: Instant) returns (name: Option<string>)
      requires Valid()
      modifies tokens
      ensures Valid() && name == ClaimToken(old(View()).tokens, token, now).1
      ensures View() == old(View()).(tokens := ClaimToken(old(View()).tokens, token, now).0)
    {
      ghost var w := View();
      name := tokens.Claim(token, now);
      assert View().peers == w.peers;
      Registry.SamePortsAgree(w, View());
    }

    /** Reads messages until the first token, remembering the last announcement
        seen before it. */
    static method ReadPresented(msgs: seq<Registry.Message>) returns (token: Option<Token>, early: Option<seq<Port>>)
      ensures (token, early) == Registry.Presented(msgs, None)
    {
      token, early := None, None;
      for i := 0 to |msgs|
        invariant Registry.Presented(msgs[i..], early) == Registry.Presented(msgs, None)
      {
        match msgs[i] {
          case Enroll(t) => return Some(t), early;
          case ExposedPorts(ports) => early := Some(ports);
          case OtherMessage =>
        }
      }
    }

    /** Some announced port is held by a peer that answers the probe. */
    method EarlyCollision(k: Key, early: Option<seq<Port>>, check: set<Key>) returns (collides: bool)
      requires Valid()
      ensures collides == Registry.Collides(View(), k, early, check)
    {
      if early.None? {
        return false;
      }
      for i := 0 to |early.value|
        invariant forall p <- early.value[..i] ::
                    var h := Holder(View(), T.LocalFor(View(), p), k); h.None? || h.value !in check
      {
        var p := early.value[i];
        assert early.value[..i + 1] == early.value[..i] + [p];
        var local := LocalFor(p);
        var holder := FindHolder(local, k);
        if holder != null && holder.key in check {
          assert p in early.value;
          return true;
        }
      }
      assert early.value[..|early.value|] == early.value;
      collides := false;
    }

    method RegisterEnrolled(k: Key, name: string, conn: ConnId) returns (peer: Peer)
      requires Valid() && k !in peers
      modifies this`peers, pins
      ensures Valid() && Registered(peer) && peer.key == k && fresh(peer)
      ensures peers == old(peers)[k := peer]
      ensures View() == old(View()).(pins := WithPin(old(View()).pins, Printed(k), name),
                                     peers := old(View()).peers[k := Registry.FreshPeer(Some(name), false, None, Some(conn))])
    {
      PinPrinted(k, name);
      peer := AddEnrolled(k, name, conn);
    }

    method AddEnrolled(k: Key, name: string, conn: ConnId) returns (peer: Peer)
      requires Valid() && k !in peers
      modifies this`peers
      ensures Valid() && fresh(peer) && peer.key == k && peers == old(peers)[k := peer]
      ensures View() == old(View()).(peers := old(View()).peers[k := Registry.FreshPeer(Some(name), false, None, Some(conn))])
    {
      peer := new Peer(k, Some(name), false, None, Some(conn));
      Insert(peer);
    }

    /** Pins and registers an enrolled peer, then handles its early announcement. */
    method Admit(k: Key, name: string, conn: ConnId, early: Option<seq<Port>>, env: Env)
      requires Valid() && k !in peers
      modifies this`peers, peers.Values, grants, pins, os`listeners, os`closed
      ensures Valid() && View() == Registry.Admit(old(View()), k, name, conn, early, env)
      ensures forall x <- old(peers) :: x !in peers ==> old(peers)[x].Gone()
    {
      var peer := RegisterEnrolled(k, name, conn);
      if early.Some? {
        UpdatePeerPorts(peer, early.value, env);
      }
    }

    /** Admits an unknown peer that presented a token, or refuses it. */
    method Enroll(k: Key, conn: ConnId, token: Token, early: Option<seq<Port>>, now: Instant,
                  check: set<Key>, env: Env)
      requires Valid() && k !in peers
      modifies this`peers, peers.Values, grants, pins, tokens, os`listeners, os`closed
      ensures var (tokens', name) := ClaimToken(old(View()).tokens, token, now);
              var w := old(View()).(tokens := tokens');
              && Valid()
              && View() == if name.None? || Registry.Collides(w, k, early, check) then Registry.Refuse(w, conn)
                           else Registry.Admit(w, k, name.value, conn, early, env)
      ensures forall x <- old(peers) :: x !in peers ==> old(peers)[x].Gone()
    {
      var name := ClaimFor(token, now);
      if name.None? {
        CloseRefused(conn);
      } else {
        AdmitUnlessTaken(k, name.value, conn, early, check, env);
      }
    }

    /** Refuses a peer that asks for a port of a live one before anything is pinned. */
    method AdmitUnlessTaken(k: Key, name: string, conn: ConnId, early: Option<seq<Port>>, check: set<Key>, env: Env)
      requires Valid() && k !in peers
      modifies this`peers, peers.Values, grants, pins, os`listeners, os`closed
      ensures Valid()
      ensures View() == if Registry.Collides(old(View()), k, early, check) then Registry.Refuse(old(View()), conn)
                        else Registry.Admit(old(View()), k, name, conn, early, env)
      ensures forall x <- old(peers) :: x !in peers ==> old(peers)[x].Gone()
    {
      var collides := EarlyCollision(k, early, check);
      if collides {
        CloseRefused(conn);
      } else {
        Admit(k, name, conn, early, env);
      }
    }

    /** Handles an incoming connection from `k`. */
    method HandleConnection(k: Key, conn: ConnId, msgs: seq<Registry.Message>, now: Instant, check: set<Key>, env: Env)
      requires Valid()
      modifies this`peers, peers.Values, grants, pins, tokens, os`listeners, os`closed
      ensures Valid() && View() == Registry.HandleConnection(old(View()), k, conn, msgs, now, check, env)
      ensures forall x <- old(peers) :: x !in peers ==> old(peers)[x].Gone()
      ensures k in old(peers) ==> k in peers && peers[k] == old(peers)[k] && peers[k].permit
    {
      if k in peers {
        Reconnect(k, conn);
      } else {
        Meet(k, conn, msgs, now, check, env);
      }
    }

    /** Handles the first connection of an unknown peer. */
    method Meet(k: Key, conn: ConnId, msgs: seq<Registry.Message>, now: Instant, check: set<Key>, env: Env)
      requires Valid() && k !in peers
      modifies this`peers, peers.Values, grants, pins, tokens, os`listeners, os`closed
      ensures Valid() && View() == Registry.HandleConnection(old(View()), k, conn, msgs, now, check, env)
      ensures forall x <- old(peers) :: x !in peers ==> old(peers)[x].Gone()
    {
      var token, early := ReadPresented(msgs);
      if token.None? {
        CloseRefused(conn);
      } else {
        ghost var w := View();
        SameCollisions(w, w.(tokens := ClaimToken(w.tokens, token.value, now).0), k, early, check);
        Enroll(k, conn, token.value, early, now, check, env);
      }
    }
  }

  function BoundSoFar(binds: map<Port, Port>, stored: map<Port, Port>, rest: set<Port>): map<Port, Port> {
    binds + map p <- stored | p !in rest :: stored[p]
  }

  lemma BoundEnds(binds: map<Port, Port>, stored: map<Port, Port>)
    ensures BoundSoFar(binds, stored, stored.Keys) == binds
    ensures BoundSoFar(binds, stored, {}) == binds + stored
  {
  }

  lemma BoundNext(binds: map<Port, Port>, stored: map<Port, Port>, rest: set<Port>, p: Port)
    requires p in rest && rest <= stored.Keys
    ensures BoundSoFar(binds, stored, rest)[p := stored[p]] == BoundSoFar(binds, stored, rest - {p})
  {
  }

  /** Claiming a token has no bearing on who holds what. */
  lemma SameCollisions(w: World, w': World, k: Key, early: Option<seq<Port>>, check: set<Key>)
    requires Ledger(w) && w' == w.(tokens := w'.tokens)
    ensures Registry.Collides(w, k, early, check) <==> Registry.Collides(w', k, early, check)
  {
    assert Ledger(w') by {
      assert forall x: Key, p: Port, l: Port :: Bound(w', x, p, l) <==> Bound(w, x, p, l);
    }
    if early.Some? {
      forall p <- early.value ensures Holder(w, T.LocalFor(w, p), k) == Holder(w', T.LocalFor(w', p), k) {
        HolderIsListener(w, T.LocalFor(w, p), k);
        HolderIsListener(w', T.LocalFor(w', p), k);
      }
    }
  }

  lemma RemapRebuilds(w: World, port: Port, order: seq<Key>, offers: nat -> Port)
    requires Ledger(w) && OnTarget(w, Some(port)) && Enumerates(order, w.peers.Keys)
    ensures Agree(RebuildFrom(ReleaseEverywhere(w, port), port, order, 0, offers))
  {
    ReleaseEverywhereKeeps(w, port);
    RebuildKeeps(ReleaseEverywhere(w, port), port, order, 0, offers);
  }

  // ---------------------------------------------- releasing one port everywhere

  /** The record of `x` once the peers of `done` have released `port`. */
  ghost function Released(w: World, port: Port, done: seq<Key>, x: Key): PeerRec
    requires x in w.peers
  {
    if x in done then w.peers[x].(bindings := w.peers[x].bindings - {port}) else w.peers[x]
  }

  ghost function ListenersLeft(w: World, port: Port, done: seq<Key>): map<Port, (Key, Port)> {
    map l <- w.listeners | !(w.listeners[l].1 == port && w.listeners[l].0 in done) :: w.listeners[l]
  }

  lemma OneReleased(w: World, port: Port, done: seq<Key>, k: Key)
    requires Ledger(w) && k in w.peers && k !in done
    ensures ListenersLeft(w, port, done + [k]) ==
            if port in w.peers[k].bindings then ListenersLeft(w, port, done) - {w.peers[k].bindings[port]}
            else ListenersLeft(w, port, done)
  {
    forall l <- w.listeners
      ensures (w.listeners[l].1 == port && w.listeners[l].0 in done + [k])
              <==> (w.listeners[l].1 == port && w.listeners[l].0 in done) || w.listeners[l] == (k, port)
    {}
  }

  lemma AllReleased(w: World, port: Port, order: seq<Key>)
    requires Ledger(w) && Enumerates(order, w.peers.Keys)
    ensures ListenersLeft(w, port, order) == ReleaseEverywhere(w, port).listeners
    ensures forall x <- w.peers :: Released(w, port, order, x) == ReleaseEverywhere(w, port).peers[x]
  {
  }

  lemma NextInOrder(order: seq<Key>, keys: set<Key>, i: nat)
    requires Enumerates(order, keys) && i < |order|
    ensures order[i] in keys && order[i] !in order[..i]
    ensures order[..i + 1] == order[..i] + [order[i]]
    ensures forall j :: i < j < |order| ==> order[j] != order[i]
  {
  }

  /** The ports bound in `b` that `olds` has and `ports` has not. */
  ghost function Unannounced(b: map<Port, Port>, olds: seq<Port>, ports: seq<Port>): set<Port> {
    set p <- b.Keys | p in olds && p !in ports
  }
}
