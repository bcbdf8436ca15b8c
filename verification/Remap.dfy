/** What remapping an announced port does to every peer at once. */
module Remap {
  import opened Common
  import opened PeerTables

  /** Position in `order`, from `i` on, of the first peer announcing `port`. */
  function FirstAnnouncer(w: World, port: Port, order: seq<Key>, i: nat): (f: nat)
    requires i <= |order| && forall x <- order :: x in w.peers
    ensures i <= f <= |order|
    ensures f < |order| ==> port in w.peers[order[f]].exposed
    ensures forall j :: i <= j < f ==> port !in w.peers[order[j]].exposed
    decreases |order| - i
  {
    if i == |order| || port in w.peers[order[i]].exposed then i else FirstAnnouncer(w, port, order, i + 1)
  }

  /** Two tables that differ at most in their entry for `port`. */
  ghost predicate SameExcept(b: map<Port, Port>, b': map<Port, Port>, port: Port) {
    forall p: Port :: p != port ==> (p in b <==> p in b') && (p in b ==> b[p] == b'[p])
  }

  /** `w'` is `w` but for the bindings of `port` and their listeners; only peers
      that announce `port` have one. */
  ghost predicate OnlyRebound(w: World, w': World, port: Port) {
    && w' == w.(peers := w'.peers, listeners := w'.listeners)
    && w'.peers.Keys == w.peers.Keys
    && forall x <- w.peers ::
         && w'.peers[x] == w.peers[x].(bindings := w'.peers[x].bindings)
         && SameExcept(w.peers[x].bindings, w'.peers[x].bindings, port)
         && (port in w'.peers[x].bindings ==> port in w.peers[x].exposed)
  }

  lemma ReleasedBound(w: World, port: Port)
    ensures forall x: Key, p: Port, l: Port :: Bound(ReleaseEverywhere(w, port), x, p, l) <==> Bound(w, x, p, l) && p != port
  {
  }

  lemma ReleaseEverywhereKeeps(w: World, port: Port)
    requires Ledger(w) && OnTarget(w, Some(port))
    ensures Agree(ReleaseEverywhere(w, port))
    ensures OnlyRebound(w, ReleaseEverywhere(w, port), port)
    ensures forall x <- w.peers :: port !in ReleaseEverywhere(w, port).peers[x].bindings
  {
    ReleasedBound(w, port);
    assert forall p: Port :: LocalFor(ReleaseEverywhere(w, port), p) == LocalFor(w, p);
  }

  lemma AddRebinds(w: World, k: Key, port: Port, l: Port)
    requires k in w.peers && port in w.peers[k].exposed
    requires forall x <- w.peers :: port in w.peers[x].bindings ==> port in w.peers[x].exposed
    ensures OnlyRebound(w, AddBinding(w, k, port, l), port)
    ensures forall x <- w.peers :: x != k ==> AddBinding(w, k, port, l).peers[x] == w.peers[x]
  {
  }

  lemma CreateRebinds(w: World, k: Key, port: Port, offer: Port)
    requires k in w.peers && port in w.peers[k].exposed
    requires forall x <- w.peers :: port in w.peers[x].bindings ==> port in w.peers[x].exposed
    ensures OnlyRebound(w, CreateBinding(w, k, port, offer), port)
    ensures forall x <- w.peers :: x != k ==> CreateBinding(w, k, port, offer).peers[x] == w.peers[x]
  {
    match OsBind(w, LocalFor(w, port), offer)
    case None =>
    case Some(l) => AddRebinds(w, k, port, l);
  }

  lemma ReboundTwice(w: World, w1: World, w2: World, port: Port)
    requires OnlyRebound(w, w1, port) && OnlyRebound(w1, w2, port)
    ensures OnlyRebound(w, w2, port)
  {
  }

  /** Only announcing peers have `port` bound, and none from position `i` on. */
  ghost predicate ToRebuild(w: World, port: Port, order: seq<Key>, i: nat) {
    && Enumerates(order, w.peers.Keys) && i <= |order|
    && (forall x <- w.peers :: port in w.peers[x].bindings ==> port in w.peers[x].exposed)
    && (forall j :: i <= j < |order| ==> port !in w.peers[order[j]].bindings)
  }

  lemma RebuildStep(w: World, port: Port, order: seq<Key>, i: nat, offer: Port)
    requires Agree(w) && ToRebuild(w, port, order, i) && i < |order| && port in w.peers[order[i]].exposed
    ensures var w1 := CreateBinding(w, order[i], port, offer);
            Agree(w1) && ToRebuild(w1, port, order, i + 1) && OnlyRebound(w, w1, port)
  {
    CreateKeepsLedger(w, order[i], port, offer, None);
    RebuildStepPending(w, port, order, i, offer);
  }

  lemma RebuildStepPending(w: World, port: Port, order: seq<Key>, i: nat, offer: Port)
    requires ToRebuild(w, port, order, i) && i < |order| && port in w.peers[order[i]].exposed
    ensures var w1 := CreateBinding(w, order[i], port, offer);
            ToRebuild(w1, port, order, i + 1) && OnlyRebound(w, w1, port)
  {
    CreateRebinds(w, order[i], port, offer);
  }

  lemma SkipOne(w: World, port: Port, order: seq<Key>, i: nat)
    requires ToRebuild(w, port, order, i) && i < |order|
    ensures ToRebuild(w, port, order, i + 1)
  {
  }

  lemma {:induction false} RebuildKeeps(w: World, port: Port, order: seq<Key>, i: nat, offers: nat -> Port)
    requires Agree(w) && ToRebuild(w, port, order, i)
    ensures Agree(RebuildFrom(w, port, order, i, offers))
    ensures OnlyRebound(w, RebuildFrom(w, port, order, i, offers), port)
    decreases |order| - i
  {
    if i == |order| {
    } else if port in w.peers[order[i]].exposed {
      var w1 := CreateBinding(w, order[i], port, offers(i));
      RebuildStep(w, port, order, i, offers(i));
      RebuildKeeps(w1, port, order, i + 1, offers);
      ReboundTwice(w, w1, RebuildFrom(w1, port, order, i + 1, offers), port);
    } else {
      SkipOne(w, port, order, i);
      RebuildKeeps(w, port, order, i + 1, offers);
    }
  }

  lemma RemapTable(w: World, port: Port, local: Option<Port>)
    requires Agree(w)
    ensures Ledger(w.(binds := SetRemap(w.binds, port, local)))
    ensures OnTarget(w.(binds := SetRemap(w.binds, port, local)), Some(port))
  {
    var w' := w.(binds := SetRemap(w.binds, port, local));
    forall x: Key, p: Port, l: Port ensures Bound(w', x, p, l) <==> Bound(w, x, p, l) {}
    assert forall p: Port :: p != port ==> LocalFor(w', p) == LocalFor(w, p);
  }

  /** A remap is written to the table and touches nothing else but the bindings
      of that port: no peer is evicted, and the bindings of several peers at
      once end up agreeing with the new table. */
  lemma RemapOutcome(w: World, port: Port, local: Option<Port>, order: seq<Key>, offers: nat -> Port)
    requires Consistent(w) && Enumerates(order, w.peers.Keys)
    ensures Consistent(SetBind(w, port, local, order, offers))
    ensures OnlyRebound(w.(binds := SetRemap(w.binds, port, local)), SetBind(w, port, local, order, offers), port)
  {
    var w1 := w.(binds := SetRemap(w.binds, port, local));
    var w2 := ReleaseEverywhere(w1, port);
    var w' := SetBind(w, port, local, order, offers);
    RemapTable(w, port, local);
    ReleaseEverywhereKeeps(w1, port);
    RebuildKeeps(w2, port, order, 0, offers);
    ReboundTwice(w1, w2, w', port);
  }

  /** Afterwards the table has an entry for the port exactly when one was set, and it is
      the one set; every other entry is what it was. A cleared port lands on itself. */
  lemma RemapWrites(w: World, port: Port, local: Option<Port>, order: seq<Key>, offers: nat -> Port)
    requires Consistent(w) && Enumerates(order, w.peers.Keys)
    ensures var w' := SetBind(w, port, local, order, offers);
            && (port in w'.binds <==> local.Some?) && (local.Some? ==> w'.binds[port] == local.value)
            && SameExcept(w.binds, w'.binds, port)
            && LocalFor(w', port) == (if local.Some? then local.value else port)
            && forall p: Port :: p != port ==> LocalFor(w', p) == LocalFor(w, p)
  {
    RemapOutcome(w, port, local, order, offers);
  }

  /** A remap of a port that had none, followed by a clear, restores the table. */
  lemma ClearUndoesRemap(w: World, port: Port, l: Port, order: seq<Key>, offers: nat -> Port, order': seq<Key>, offers': nat -> Port)
    requires Consistent(w) && Enumerates(order, w.peers.Keys) && Enumerates(order', w.peers.Keys) && port !in w.binds
    ensures SetBind(w, port, Some(l), order, offers).peers.Keys == w.peers.Keys
    ensures SetBind(SetBind(w, port, Some(l), order, offers), port, None, order', offers').binds == w.binds
  {
    RemapOutcome(w, port, Some(l), order, offers);
    RemapOutcome(SetBind(w, port, Some(l), order, offers), port, None, order', offers');
  }

  /** Where a peer that announces the port is to be bound: on the target, or on what
      the system offers it if that is 0. */
  function Wanted(w: World, port: Port, offer: Port): Port {
    if LocalFor(w, port) != 0 then LocalFor(w, port) else offer
  }

  /** The peer at `j` has the port where it is wanted, or cannot have it there. */
  ghost predicate Rebuilt(w': World, port: Port, k: Key, want: Port) {
    if k in w'.peers && port in w'.peers[k].bindings then w'.peers[k].bindings[port] == want
    else want == 0 || Occupied(w', want)
  }

  lemma {:induction false} RebuildBinds(w: World, port: Port, order: seq<Key>, i: nat, offers: nat -> Port, j: nat)
    requires ToRebuild(w, port, order, i) && i <= j < |order| && port in w.peers[order[j]].exposed
    ensures Rebuilt(RebuildFrom(w, port, order, i, offers), port, order[j], Wanted(w, port, offers(j)))
    decreases |order| - i
  {
    if i == j {
      RebuildBindsNext(w, port, order, i, offers);
    } else if port in w.peers[order[i]].exposed {
      RebuildStepPending(w, port, order, i, offers(i));
      RebuildBinds(CreateBinding(w, order[i], port, offers(i)), port, order, i + 1, offers, j);
    } else {
      SkipOne(w, port, order, i);
      RebuildBinds(w, port, order, i + 1, offers, j);
    }
  }

  lemma RebuildBindsNext(w: World, port: Port, order: seq<Key>, i: nat, offers: nat -> Port)
    requires ToRebuild(w, port, order, i) && i < |order| && port in w.peers[order[i]].exposed
    ensures Rebuilt(RebuildFrom(w, port, order, i, offers), port, order[i], Wanted(w, port, offers(i)))
  {
    var w1 := CreateBinding(w, order[i], port, offers(i));
    RebuildStepPending(w, port, order, i, offers(i));
    RebuildLeaves(w1, port, order, i + 1, offers, order[i]);
    RebuildKeepsListeners(w1, port, order, i + 1, offers);
  }

  lemma {:induction false} RebuildKeepsListeners(w: World, port: Port, order: seq<Key>, i: nat, offers: nat -> Port)
    requires ToRebuild(w, port, order, i)
    ensures forall l <- w.listeners :: l in RebuildFrom(w, port, order, i, offers).listeners
    ensures RebuildFrom(w, port, order, i, offers).foreign == w.foreign
    decreases |order| - i
  {
    if i < |order| {
      if port in w.peers[order[i]].exposed {
        RebuildStepPending(w, port, order, i, offers(i));
        RebuildKeepsListeners(CreateBinding(w, order[i], port, offers(i)), port, order, i + 1, offers);
      } else {
        SkipOne(w, port, order, i);
        RebuildKeepsListeners(w, port, order, i + 1, offers);
      }
    }
  }

  /** After a remap every peer that announces the port has it bound where it now
      belongs, or that local port is refused or taken; a peer that does not announce it
      has it nowhere. With a fixed target that is not refused or taken for another
      port, the first announcing peer in the order is the one that gets it. */
  lemma RemapRebinds(w: World, port: Port, local: Option<Port>, order: seq<Key>, offers: nat -> Port)
    requires Consistent(w) && Enumerates(order, w.peers.Keys)
    ensures var w', target := SetBind(w, port, local, order, offers), if local.Some? then local.value else port;
            && (forall j: nat :: j < |order| && port in w.peers[order[j]].exposed ==>
                  Rebuilt(w', port, order[j], if target != 0 then target else offers(j)))
            && w'.peers.Keys == w.peers.Keys
            && (forall x <- w.peers :: port !in w.peers[x].exposed ==> port !in w'.peers[x].bindings)
            && var f := FirstAnnouncer(w, port, order, 0);
               target != 0 && f < |order| && !TakenElsewhere(w, target, port) ==> Bound(w', order[f], port, target)
  {
    var w1 := w.(binds := SetRemap(w.binds, port, local));
    RemapTable(w, port, local);
    RemapOutcome(w, port, local, order, offers);
    forall j: nat | j < |order| && port in w.peers[order[j]].exposed
      ensures Rebuilt(SetBind(w, port, local, order, offers), port, order[j], Wanted(w1, port, offers(j)))
    {
      ReleasedRebinds(w1, port, order, offers, j);
    }
    FirstGetsTarget(w1, port, order, offers);
    SameFirstAnnouncer(w, w1, port, order, 0);
    assert forall x, q: Port, l: Port :: Bound(w1, x, q, l) <==> Bound(w, x, q, l);
  }

  lemma ReleasedRebinds(w: World, port: Port, order: seq<Key>, offers: nat -> Port, j: nat)
    requires Ledger(w) && OnTarget(w, Some(port)) && Enumerates(order, w.peers.Keys)
    requires j < |order| && port in w.peers[order[j]].exposed
    ensures Rebuilt(RebuildFrom(ReleaseEverywhere(w, port), port, order, 0, offers), port, order[j], Wanted(w, port, offers(j)))
  {
    ReleaseEverywhereKeeps(w, port);
    RebuildBinds(ReleaseEverywhere(w, port), port, order, 0, offers, j);
  }

  lemma FirstGetsTarget(w: World, port: Port, order: seq<Key>, offers: nat -> Port)
    requires Ledger(w) && Enumerates(order, w.peers.Keys)
    ensures var f := FirstAnnouncer(w, port, order, 0);
            LocalFor(w, port) != 0 && f < |order| && !TakenElsewhere(w, LocalFor(w, port), port) ==>
              Bound(RebuildFrom(ReleaseEverywhere(w, port), port, order, 0, offers), order[f], port, LocalFor(w, port))
  {
    if LocalFor(w, port) != 0 {
      RebuildFixed(ReleaseEverywhere(w, port), port, order, 0, offers);
      SameFirstAnnouncer(w, ReleaseEverywhere(w, port), port, order, 0);
      OccupiedAfterRelease(w, port, LocalFor(w, port));
    }
  }

  /** With a fixed target, rebuilding gives it to the first announcing peer in
      the iteration order, if the target is free, and to no one else. */
  lemma {:induction false} RebuildFixed(w: World, port: Port, order: seq<Key>, i: nat, offers: nat -> Port)
    requires i <= |order| && (forall x <- order :: x in w.peers) && LocalFor(w, port) != 0
    ensures var f := FirstAnnouncer(w, port, order, i);
            RebuildFrom(w, port, order, i, offers) ==
            if f == |order| || Occupied(w, LocalFor(w, port)) then w else CreateBinding(w, order[f], port, 0)
    decreases |order| - i
  {
    if i < |order| {
      if port in w.peers[order[i]].exposed {
        RebuildFixed(CreateBinding(w, order[i], port, offers(i)), port, order, i + 1, offers);
      } else {
        RebuildFixed(w, port, order, i + 1, offers);
      }
    }
  }

  // ------------------------------------------- repeating a remap is not a no-op

  /** Local port `l` is refused, or taken by a binding for another port. */
  ghost predicate TakenElsewhere(w: World, l: Port, port: Port) {
    l in w.foreign || exists x, q :: q != port && Bound(w, x, q, l)
  }

  lemma OccupiedAfterRelease(w: World, port: Port, l: Port)
    requires Ledger(w)
    ensures Occupied(ReleaseEverywhere(w, port), l) <==> TakenElsewhere(w, l, port)
  {
  }

  lemma NothingToRelease(w: World, port: Port)
    requires Ledger(w) && forall x <- w.peers :: port !in w.peers[x].bindings
    ensures ReleaseEverywhere(w, port) == w
  {
    var w' := ReleaseEverywhere(w, port);
    assert forall x <- w.peers :: w.peers[x].bindings - {port} == w.peers[x].bindings;
    assert w'.peers == w.peers;
    forall l <- w.listeners ensures w.listeners[l].1 != port {
      assert Bound(w, w.listeners[l].0, w.listeners[l].1, l);
    }
    assert w'.listeners == w.listeners;
  }

  /** Where a repeated remap leaves things: no peer announces the port, or the
      first announcing peer in the iteration order is the one that has it, or the
      target cannot be had. */
  ghost predicate Settled(w: World, port: Port, order: seq<Key>)
    requires forall x <- order :: x in w.peers
  {
    var f := FirstAnnouncer(w, port, order, 0);
    f == |order| || port in w.peers[order[f]].bindings || TakenElsewhere(w, LocalFor(w, port), port)
  }

  lemma RepeatedRemap(w: World, port: Port, local: Option<Port>, order: seq<Key>, offers: nat -> Port)
    requires Ledger(w) && forall x <- order :: x in w.peers
    requires SetRemap(w.binds, port, local) == w.binds && LocalFor(w, port) != 0
    ensures var f := FirstAnnouncer(w, port, order, 0);
            SetBind(w, port, local, order, offers) ==
            if f == |order| || TakenElsewhere(w, LocalFor(w, port), port) then ReleaseEverywhere(w, port)
            else CreateBinding(ReleaseEverywhere(w, port), order[f], port, 0)
  {
    assert w.(binds := SetRemap(w.binds, port, local)) == w;
    var wR := ReleaseEverywhere(w, port);
    RebuildFixed(wR, port, order, 0, offers);
    SameFirstAnnouncer(w, wR, port, order, 0);
    OccupiedAfterRelease(w, port, LocalFor(w, port));
  }

  lemma SettledStays(w: World, port: Port, order: seq<Key>)
    requires Consistent(w) && Enumerates(order, w.peers.Keys) && LocalFor(w, port) != 0 && Settled(w, port, order)
    ensures var f := FirstAnnouncer(w, port, order, 0);
            if f == |order| || TakenElsewhere(w, LocalFor(w, port), port) then ReleaseEverywhere(w, port) == w
            else CreateBinding(ReleaseEverywhere(w, port), order[f], port, 0) == w
  {
    var l, f := LocalFor(w, port), FirstAnnouncer(w, port, order, 0);
    if f == |order| {
      NothingToRelease(w, port);
    } else if TakenElsewhere(w, l, port) {
      forall x <- w.peers ensures port !in w.peers[x].bindings {
        assert port in w.peers[x].bindings ==> Bound(w, x, port, w.peers[x].bindings[port]);
      }
      NothingToRelease(w, port);
    } else {
      BinderIsOnly(w, port, order[f]);
      OccupiedAfterRelease(w, port, l);
      Rebinds(w, port, order[f], l);
    }
  }

  /** Setting a remap with a fixed target to what it already is tears bindings down
      and rebuilds them, so it changes nothing exactly in the settled worlds. */
  lemma FixedRemapIsNoopIff(w: World, port: Port, local: Option<Port>, order: seq<Key>, offers: nat -> Port)
    requires Consistent(w) && Enumerates(order, w.peers.Keys)
    requires SetRemap(w.binds, port, local) == w.binds && LocalFor(w, port) != 0
    ensures SetBind(w, port, local, order, offers) == w <==> Settled(w, port, order)
  {
    var f := FirstAnnouncer(w, port, order, 0);
    RepeatedRemap(w, port, local, order, offers);
    if Settled(w, port, order) {
      SettledStays(w, port, order);
    } else {
      OccupiedAfterRelease(w, port, LocalFor(w, port));
      assert port in CreateBinding(ReleaseEverywhere(w, port), order[f], port, 0).peers[order[f]].bindings;
    }
  }

  lemma SameFirstAnnouncer(w: World, w': World, port: Port, order: seq<Key>, i: nat)
    requires i <= |order| && forall x <- order :: x in w.peers && x in w'.peers && w.peers[x].exposed == w'.peers[x].exposed
    ensures FirstAnnouncer(w, port, order, i) == FirstAnnouncer(w', port, order, i)
    decreases |order| - i
  {
  }

  /** `k` alone has `port` bound, on `l`. */
  ghost predicate OnlyBinder(w: World, port: Port, k: Key, l: Port) {
    && Bound(w, k, port, l)
    && (forall x <- w.peers :: port in w.peers[x].bindings ==> x == k)
    && (forall m <- w.listeners :: w.listeners[m].1 == port ==> m == l)
    && l in w.listeners && w.listeners[l] == (k, port)
  }

  lemma RebindsPeers(w: World, port: Port, k: Key, l: Port)
    requires OnlyBinder(w, port, k, l)
    ensures SetBindings(ReleaseEverywhere(w, port), k,
                        ReleaseEverywhere(w, port).peers[k].bindings[port := l]).peers == w.peers
  {
    var peers' := SetBindings(ReleaseEverywhere(w, port), k,
                              ReleaseEverywhere(w, port).peers[k].bindings[port := l]).peers;
    assert (w.peers[k].bindings - {port})[port := l] == w.peers[k].bindings;
    forall x <- w.peers ensures peers'[x] == w.peers[x] {
      if x != k {
        assert w.peers[x].bindings - {port} == w.peers[x].bindings;
      }
    }
  }

  lemma Rebinds(w: World, port: Port, k: Key, l: Port)
    requires OnlyBinder(w, port, k, l) && l == LocalFor(w, port) && l != 0
    requires !Occupied(ReleaseEverywhere(w, port), l)
    ensures CreateBinding(ReleaseEverywhere(w, port), k, port, 0) == w
  {
    RebindsPeers(w, port, k, l);
    assert ReleaseEverywhere(w, port).listeners[l := (k, port)] == w.listeners;
  }

  lemma BinderIsOnly(w: World, port: Port, k: Key)
    requires Agree(w) && LocalFor(w, port) != 0 && k in w.peers && port in w.peers[k].bindings
    ensures OnlyBinder(w, port, k, LocalFor(w, port))
    ensures !TakenElsewhere(w, LocalFor(w, port), port)
  {
    assert forall x <- w.peers :: port in w.peers[x].bindings ==> Bound(w, x, port, w.peers[x].bindings[port]);
    assert forall m <- w.listeners :: Bound(w, w.listeners[m].0, w.listeners[m].1, m);
  }

  /** One order in which a registry may iterate, `first` foremost. */
  lemma {:induction false} OrderFrom(keys: set<Key>, first: Key) returns (order: seq<Key>)
    requires first in keys
    ensures Enumerates(order, keys) && order[0] == first
    decreases |keys|
  {
    if keys == {first} {
      order := [first];
    } else {
      var k :| k in keys && k != first;
      var rest := OrderFrom(keys - {k}, first);
      order := rest + [k];
    }
  }

  // With target 0 the system chooses, and a repeated remap also depends on what
  // it offers.

  predicate Announces(w: World, x: Key, port: Port) {
    x in w.peers && port in w.peers[x].exposed
  }

  /** The tables once the first `i` peers in `order` have `port` back as in `w`,
      and the others do not have it yet. */
  ghost function Partial(w: World, port: Port, order: seq<Key>, i: nat): World
    requires i <= |order|
  {
    w.(peers := PartialPeers(w, port, order[..i]), listeners := PartialListeners(w, port, order[..i]))
  }

  ghost function PartialPeers(w: World, port: Port, done: seq<Key>): map<Key, PeerRec> {
    map x <- w.peers :: if x in done then w.peers[x] else w.peers[x].(bindings := w.peers[x].bindings - {port})
  }

  ghost function PartialListeners(w: World, port: Port, done: seq<Key>): map<Port, (Key, Port)> {
    map l <- w.listeners | w.listeners[l].1 != port || w.listeners[l].0 in done :: w.listeners[l]
  }

  /** The system offers the peer at `i` the port it has, or none it can give if it
      has none. */
  ghost predicate OfferRepeats(w: World, port: Port, order: seq<Key>, i: nat, offer: Port)
    requires i < |order| && order[i] in w.peers
  {
    if port in w.peers[order[i]].bindings then offer == w.peers[order[i]].bindings[port]
    else offer == 0 || TakenElsewhere(w, offer, port) || exists j :: 0 <= j < i && Bound(w, order[j], port, offer)
  }

  ghost predicate OffersRepeat(w: World, port: Port, order: seq<Key>, i: nat, offers: nat -> Port)
    requires forall x <- order :: x in w.peers
  {
    forall j: nat :: i <= j < |order| && port in w.peers[order[j]].exposed ==> OfferRepeats(w, port, order, j, offers(j))
  }

  lemma PartialEnds(w: World, port: Port, order: seq<Key>)
    requires Ledger(w) && Enumerates(order, w.peers.Keys)
    ensures Partial(w, port, order, 0) == ReleaseEverywhere(w, port)
    ensures Partial(w, port, order, |order|) == w
  {
    assert order[..|order|] == order && order[..0] == [];
    assert PartialPeers(w, port, order) == w.peers;
    assert PartialPeers(w, port, []) == ReleaseEverywhere(w, port).peers;
    AllListenersBack(w, port, order);
  }

  lemma AllListenersBack(w: World, port: Port, order: seq<Key>)
    requires Ledger(w) && Enumerates(order, w.peers.Keys)
    ensures PartialListeners(w, port, order) == w.listeners
    ensures PartialListeners(w, port, []) == ReleaseEverywhere(w, port).listeners
  {
    assert forall l <- w.listeners :: Bound(w, w.listeners[l].0, w.listeners[l].1, l);
  }

  /** One rebuilding step gets the next peer back as it was exactly when the offer
      repeats. */
  lemma PartialStep(w: World, port: Port, order: seq<Key>, i: nat, offer: Port)
    requires Consistent(w) && LocalFor(w, port) == 0 && Enumerates(order, w.peers.Keys) && i < |order|
    ensures var w' := if port in w.peers[order[i]].exposed then CreateBinding(Partial(w, port, order, i), order[i], port, offer)
                      else Partial(w, port, order, i);
            if port in w.peers[order[i]].exposed ==> OfferRepeats(w, port, order, i, offer)
            then w' == Partial(w, port, order, i + 1)
            else w'.peers[order[i]] != w.peers[order[i]]
  {
    PartialNext(w, port, order, i);
    assert WithinAnnounced(w, order[i]);
    if port in w.peers[order[i]].exposed {
      if port in w.peers[order[i]].bindings {
        BoundStep(w, port, order, i, offer);
      } else {
        UnboundStep(w, port, order, i, offer);
      }
    }
  }

  /** A peer that has the port gets it back exactly when it is offered again. */
  lemma BoundStep(w: World, port: Port, order: seq<Key>, i: nat, offer: Port)
    requires Ledger(w) && LocalFor(w, port) == 0 && Enumerates(order, w.peers.Keys) && i < |order|
    requires port in w.peers[order[i]].bindings
    requires Partial(w, port, order, i + 1) ==
             AddBinding(Partial(w, port, order, i), order[i], port, w.peers[order[i]].bindings[port])
    ensures var w' := CreateBinding(Partial(w, port, order, i), order[i], port, offer);
            if offer == w.peers[order[i]].bindings[port] then w' == Partial(w, port, order, i + 1)
            else w'.peers[order[i]] != w.peers[order[i]]
  {
    BinderFree(w, port, order, i);
    PartialNext(w, port, order, i);
    OfferTaken(Partial(w, port, order, i), order[i], port, w.peers[order[i]].bindings[port], offer);
  }

  /** With the choice left to the system and `l` free, what is bound is `l` exactly
      when it is offered. */
  lemma OfferTaken(v: World, k: Key, port: Port, l: Port, offer: Port)
    requires k in v.peers && port !in v.peers[k].bindings && LocalFor(v, port) == 0 && l != 0 && !Occupied(v, l)
    ensures var w', next := CreateBinding(v, k, port, offer), AddBinding(v, k, port, l);
            if offer == l then w' == next else w'.peers[k] != next.peers[k]
  {
    var w', next := CreateBinding(v, k, port, offer), AddBinding(v, k, port, l);
    assert port in next.peers[k].bindings && next.peers[k].bindings[port] == l;
    assert port in w'.peers[k].bindings ==> w'.peers[k].bindings[port] == offer;
  }

  /** A peer without it stays without exactly when nothing it can have is offered. */
  lemma UnboundStep(w: World, port: Port, order: seq<Key>, i: nat, offer: Port)
    requires Ledger(w) && LocalFor(w, port) == 0 && Enumerates(order, w.peers.Keys) && i < |order|
    requires port !in w.peers[order[i]].bindings && Partial(w, port, order, i + 1) == Partial(w, port, order, i)
    ensures var w' := CreateBinding(Partial(w, port, order, i), order[i], port, offer);
            if offer == 0 || TakenElsewhere(w, offer, port) || exists j :: 0 <= j < i && Bound(w, order[j], port, offer)
            then w' == Partial(w, port, order, i + 1)
            else w'.peers[order[i]] != w.peers[order[i]]
  {
  }

  /** What the next peer adds to the rebuilt tables. */
  lemma PartialNext(w: World, port: Port, order: seq<Key>, i: nat)
    requires Ledger(w) && Enumerates(order, w.peers.Keys) && i < |order|
    ensures var v, k := Partial(w, port, order, i), order[i];
            && k in v.peers && v.peers[k] == w.peers[k].(bindings := w.peers[k].bindings - {port})
            && Partial(w, port, order, i + 1) ==
               if port in w.peers[k].bindings then AddBinding(v, k, port, w.peers[k].bindings[port]) else v
  {
    var done, k := order[..i], order[i];
    assert order[..i + 1] == done + [k] && k !in done;
    PeerBack(w, port, done, k);
    ListenerBack(w, port, done, k);
  }

  lemma PeerBack(w: World, port: Port, done: seq<Key>, k: Key)
    requires k in w.peers && k !in done
    ensures PartialPeers(w, port, done + [k]) == PartialPeers(w, port, done)[k := w.peers[k]]
    ensures w.peers[k] == PartialPeers(w, port, done)[k].(
              bindings := if port in w.peers[k].bindings then PartialPeers(w, port, done)[k].bindings[port := w.peers[k].bindings[port]]
                          else PartialPeers(w, port, done)[k].bindings)
  {
    if port in w.peers[k].bindings {
      assert (w.peers[k].bindings - {port})[port := w.peers[k].bindings[port]] == w.peers[k].bindings;
    } else {
      assert w.peers[k].bindings - {port} == w.peers[k].bindings;
    }
  }

  lemma ListenerBack(w: World, port: Port, done: seq<Key>, k: Key)
    requires Ledger(w) && k in w.peers && k !in done
    ensures PartialListeners(w, port, done + [k]) ==
            if port in w.peers[k].bindings then PartialListeners(w, port, done)[w.peers[k].bindings[port] := (k, port)]
            else PartialListeners(w, port, done)
  {
    forall l <- w.listeners
      ensures w.listeners[l] == (k, port) <==> port in w.peers[k].bindings && w.peers[k].bindings[port] == l
    {
      assert Bound(w, w.listeners[l].0, w.listeners[l].1, l);
      assert port in w.peers[k].bindings ==> Bound(w, k, port, w.peers[k].bindings[port]);
    }
    assert port in w.peers[k].bindings ==> Bound(w, k, port, w.peers[k].bindings[port]);
  }

  lemma BinderFree(w: World, port: Port, order: seq<Key>, i: nat)
    requires Ledger(w) && Enumerates(order, w.peers.Keys) && i < |order| && port in w.peers[order[i]].bindings
    ensures w.peers[order[i]].bindings[port] != 0
    ensures !Occupied(Partial(w, port, order, i), w.peers[order[i]].bindings[port])
  {
    var l := w.peers[order[i]].bindings[port];
    assert Bound(w, order[i], port, l);
  }

  /** Rebuilding leaves the records of peers it is not to come to. */
  lemma {:induction false} RebuildLeaves(w: World, port: Port, order: seq<Key>, i: nat, offers: nat -> Port, x: Key)
    requires i <= |order| && (forall y <- order :: y in w.peers) && x in w.peers && x !in order[i..]
    ensures x in RebuildFrom(w, port, order, i, offers).peers
    ensures RebuildFrom(w, port, order, i, offers).peers[x] == w.peers[x]
    decreases |order| - i
  {
    if i < |order| {
      assert order[i] in order[i..] && order[i + 1..] == order[i..][1..];
      var w1 := if port in w.peers[order[i]].exposed then CreateBinding(w, order[i], port, offers(i)) else w;
      RebuildLeaves(w1, port, order, i + 1, offers, x);
    }
  }

  lemma {:induction false} RebuildRepeatsIff(w: World, port: Port, order: seq<Key>, i: nat, offers: nat -> Port)
    requires Consistent(w) && LocalFor(w, port) == 0 && Enumerates(order, w.peers.Keys) && i <= |order|
    ensures RebuildFrom(Partial(w, port, order, i), port, order, i, offers) == w <==> OffersRepeat(w, port, order, i, offers)
    decreases |order| - i
  {
    if i == |order| {
      PartialEnds(w, port, order);
    } else {
      PartialStep(w, port, order, i, offers(i));
      if port in w.peers[order[i]].exposed ==> OfferRepeats(w, port, order, i, offers(i)) {
        RebuildRepeatsIff(w, port, order, i + 1, offers);
      } else {
        RebuiltOtherwise(w, port, order, i, offers);
      }
    }
  }

  lemma RebuiltOtherwise(w: World, port: Port, order: seq<Key>, i: nat, offers: nat -> Port)
    requires Ledger(w) && Enumerates(order, w.peers.Keys) && i < |order| && port in w.peers[order[i]].exposed
    requires CreateBinding(Partial(w, port, order, i), order[i], port, offers(i)).peers[order[i]] != w.peers[order[i]]
    ensures RebuildFrom(Partial(w, port, order, i), port, order, i, offers) != w
  {
    RebuildLeaves(CreateBinding(Partial(w, port, order, i), order[i], port, offers(i)), port, order, i + 1, offers, order[i]);
  }

  /** Repeating a remap that leaves the choice to the system changes nothing exactly
      when the system offers every announcing peer the port it has, or none it can
      give if it has none. */
  lemma FreeRemapIsNoopIff(w: World, port: Port, local: Option<Port>, order: seq<Key>, offers: nat -> Port)
    requires Consistent(w) && Enumerates(order, w.peers.Keys)
    requires SetRemap(w.binds, port, local) == w.binds && LocalFor(w, port) == 0
    ensures SetBind(w, port, local, order, offers) == w <==> OffersRepeat(w, port, order, 0, offers)
  {
    assert w.(binds := SetRemap(w.binds, port, local)) == w;
    PartialEnds(w, port, order);
    RebuildRepeatsIff(w, port, order, 0, offers);
  }

  /** Setting a remap to what it already is tears bindings down and rebuilds them.
      That changes nothing exactly when: with a fixed target, no peer announces the
      port, or the first announcing peer in the iteration order has it, or the
      target cannot be had; and with the choice left to the system, every offer
      repeats what there is. */
  lemma RepeatedRemapIsNoopIff(w: World, port: Port, local: Option<Port>, order: seq<Key>, offers: nat -> Port)
    requires Consistent(w) && Enumerates(order, w.peers.Keys) && SetRemap(w.binds, port, local) == w.binds
    ensures SetBind(w, port, local, order, offers) == w <==>
            if LocalFor(w, port) != 0 then Settled(w, port, order) else OffersRepeat(w, port, order, 0, offers)
  {
    if LocalFor(w, port) != 0 {
      FixedRemapIsNoopIff(w, port, local, order, offers);
    } else {
      FreeRemapIsNoopIff(w, port, local, order, offers);
    }
  }

  // ------------------------------------------- whatever the order and the offers

  /** Repeating the remap changes nothing, whatever order the registry iterates in
      and whatever the system offers. */
  ghost predicate AlwaysNoop(w: World, port: Port, local: Option<Port>) {
    forall order, offers :: Enumerates(order, w.peers.Keys) ==> SetBind(w, port, local, order, offers) == w
  }

  /** No peer that announces the port is left to bind, or none can be. */
  ghost predicate AlwaysSettled(w: World, port: Port) {
    if LocalFor(w, port) != 0 then
      (forall x :: Announces(w, x, port) ==> port in w.peers[x].bindings) || TakenElsewhere(w, LocalFor(w, port), port)
    else
      forall x :: Announces(w, x, port) ==>
        port !in w.peers[x].bindings && forall l: Port :: l != 0 ==> TakenElsewhere(w, l, port)
  }

  /** A repeated remap is sure to change nothing exactly when: with a fixed target,
      every peer that announces the port has it, or its target is refused or taken
      for another port; with the choice left to the system, nobody announces the
      port, or no announcing peer has it and no port is free. */
  lemma RepeatedRemapIsAlwaysNoopIff(w: World, port: Port, local: Option<Port>)
    requires Consistent(w) && SetRemap(w.binds, port, local) == w.binds
    ensures AlwaysNoop(w, port, local) <==> AlwaysSettled(w, port)
  {
    if AlwaysSettled(w, port) {
      forall order, offers | Enumerates(order, w.peers.Keys) ensures SetBind(w, port, local, order, offers) == w {
        SettledIsNoop(w, port, local, order, offers);
      }
    } else {
      var order, offers := UnsettledMoves(w, port, local);
      assert SetBind(w, port, local, order, offers) != w;
    }
  }

  lemma SettledIsNoop(w: World, port: Port, local: Option<Port>, order: seq<Key>, offers: nat -> Port)
    requires Consistent(w) && SetRemap(w.binds, port, local) == w.binds && Enumerates(order, w.peers.Keys)
    requires AlwaysSettled(w, port)
    ensures SetBind(w, port, local, order, offers) == w
  {
    RepeatedRemapIsNoopIff(w, port, local, order, offers);
    if LocalFor(w, port) != 0 {
      var f := FirstAnnouncer(w, port, order, 0);
      assert f < |order| ==> Announces(w, order[f], port);
    } else {
      forall j: nat | j < |order| && port in w.peers[order[j]].exposed ensures OfferRepeats(w, port, order, j, offers(j)) {
        assert Announces(w, order[j], port);
      }
    }
  }

  lemma UnsettledMoves(w: World, port: Port, local: Option<Port>) returns (order: seq<Key>, offers: nat -> Port)
    requires Consistent(w) && SetRemap(w.binds, port, local) == w.binds && !AlwaysSettled(w, port)
    ensures Enumerates(order, w.peers.Keys) && SetBind(w, port, local, order, offers) != w
  {
    var l: Port := 0;
    var x: Key;
    if LocalFor(w, port) != 0 {
      x :| Announces(w, x, port) && port !in w.peers[x].bindings;
    } else {
      x :| Announces(w, x, port)
           && (port in w.peers[x].bindings || exists l: Port :: l != 0 && !TakenElsewhere(w, l, port));
      if port !in w.peers[x].bindings {
        l :| l != 0 && !TakenElsewhere(w, l, port);
      }
    }
    order := OrderFrom(w.peers.Keys, x);
    offers := i => l;
    RepeatedRemapIsNoopIff(w, port, local, order, offers);
    if LocalFor(w, port) == 0 {
      if port in w.peers[x].bindings {
        assert Bound(w, x, port, w.peers[x].bindings[port]);
      }
      assert !OfferRepeats(w, port, order, 0, offers(0));
    }
  }

  /** `a` and `b` both announce port 80, remapped to 8080, and `a` has it. */
  function TwoAnnouncers(a: Key, b: Key): World {
    var has := PeerRec(None, false, None, None, [80], map[80 := 8080]);
    var wants := PeerRec(None, false, None, None, [80], map[]);
    World(map[a := has, b := wants], map[80 := 8080], {}, [], map[], map[8080 := (a, 80)], {}, {})
  }

  lemma TwoAnnouncersConsistent(a: Key, b: Key)
    requires a != b
    ensures Consistent(TwoAnnouncers(a, b))
    ensures Enumerates([b, a], TwoAnnouncers(a, b).peers.Keys)
    ensures !Settled(TwoAnnouncers(a, b), 80, [b, a])
  {
  }

  /** Repeating the remap while the registry iterates the other peer first moves
      the listener. */
  lemma RepeatedRemapMovesListener()
    ensures exists w, port, local, order, offers ::
              && Consistent(w) && Enumerates(order, w.peers.Keys)
              && port in w.binds && w.binds[port] == local != 0
              && SetBind(w, port, Some(local), order, offers) != w
  {
    var a, b := Key([1]), Key([2]);
    assert a != b by { assert a.bytes[0] != b.bytes[0]; }
    var offers: nat -> Port := i => 0;
    TwoAnnouncersConsistent(a, b);
    FixedRemapIsNoopIff(TwoAnnouncers(a, b), 80, Some(8080), [b, a], offers);
  }

  // ----------------------------------------------------------- quiet remapping

  /** No peer announces anything yet, as during a start. */
  ghost predicate Quiet(w: World) {
    forall x <- w.peers :: w.peers[x].exposed == [] && w.peers[x].bindings == map[]
  }

  lemma {:induction false} RebuildQuiet(w: World, port: Port, order: seq<Key>, i: nat, offers: nat -> Port)
    requires Quiet(w) && i <= |order| && forall x <- order :: x in w.peers
    ensures RebuildFrom(w, port, order, i, offers) == w
    decreases |order| - i
  {
    if i < |order| {
      RebuildQuiet(w, port, order, i + 1, offers);
    }
  }

  /** Remapping before any peer announces writes the remap and nothing else. */
  lemma QuietRemapOnlyWrites(w: World, port: Port, local: Option<Port>, order: seq<Key>, offers: nat -> Port)
    requires Agree(w) && Quiet(w) && Enumerates(order, w.peers.Keys)
    ensures SetBind(w, port, local, order, offers) == w.(binds := SetRemap(w.binds, port, local))
  {
    var w1 := w.(binds := SetRemap(w.binds, port, local));
    RemapTable(w, port, local);
    NothingToRelease(w1, port);
    RebuildQuiet(w1, port, order, 0, offers);
  }
}
