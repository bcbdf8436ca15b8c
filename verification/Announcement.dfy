/** The complete outcome of one port announcement. */
module Announcement {
  import opened Common
  import opened Enrollment
  import Grants
  import opened PeerTables

  /** `x` holds the local port that announced port `p` is to land on. */
  ghost predicate HoldsTarget(w: World, x: Key, p: Port) {
    LocalFor(w, p) != 0 && Holds(w, x, LocalFor(w, p))
  }

  /** A live peer other than `k` stands in the way of `p`. */
  ghost predicate Contested(w: World, k: Key, p: Port, alive: set<Key>) {
    exists h :: h != k && h in alive && HoldsTarget(w, h, p)
  }

  /** The first announced port a live peer stands in the way of, from `i` on;
      `|ports|` when there is none. */
  ghost function FirstContested(w: World, k: Key, ports: seq<Port>, i: nat, alive: set<Key>): (n: nat)
    requires i <= |ports|
    ensures i <= n <= |ports|
    ensures forall j :: i <= j < n ==> !Contested(w, k, ports[j], alive)
    ensures n < |ports| ==> Contested(w, k, ports[n], alive)
    decreases |ports| - i
  {
    if i == |ports| || Contested(w, k, ports[i], alive) then i
    else FirstContested(w, k, ports, i + 1, alive)
  }

  ghost predicate HoldsOneOf(w: World, x: Key, ports: seq<Port>, lo: nat, hi: nat)
    requires hi <= |ports|
  {
    exists j :: lo <= j < hi && HoldsTarget(w, x, ports[j])
  }

  /** The stale peers that stand in the way of `ports[lo..hi]`. */
  ghost function Reclaimed(w: World, k: Key, ports: seq<Port>, lo: nat, hi: nat, alive: set<Key>): set<Key>
    requires hi <= |ports|
  {
    set x <- w.peers.Keys | x != k && x !in alive && HoldsOneOf(w, x, ports, lo, hi)
  }

  /** `w` with every peer in `gone` evicted. */
  function EvictAll(w: World, gone: set<Key>): World {
    w.(peers := w.peers - gone,
       grants := (set g <- w.grants | g.1 !in gone),
       pins := WithoutPins(w.pins, gone),
       listeners := (map l <- w.listeners | w.listeners[l].0 !in gone :: w.listeners[l]),
       closed := w.closed + ClosedBy(w, gone))
  }

  function ClosedBy(w: World, gone: set<Key>): set<ConnId> {
    set x <- gone, c <- ConnsOf(w, x) :: c
  }

  function ConnsOf(w: World, x: Key): set<ConnId> {
    if x in w.peers then ConnSet(w.peers[x].conn) else {}
  }

  /** Everything in `w` but the record and the listeners of `k`. */
  function Sans(w: World, k: Key): World {
    w.(peers := w.peers - {k},
       listeners := map l <- w.listeners | w.listeners[l].0 != k :: w.listeners[l])
  }

  /** Two worlds that differ at most in `k`'s announced ports and bindings. */
  ghost predicate SameBut(w: World, w': World, k: Key) {
    && Sans(w, k) == Sans(w', k)
    && k in w.peers && k in w'.peers
    && w'.peers[k] == w.peers[k].(exposed := w'.peers[k].exposed, bindings := w'.peers[k].bindings)
  }

  // ---------------------------------------------------------------- evictions

  lemma {:induction false} WithoutPinsTwice(pins: seq<Pin>, a: set<Key>, b: set<Key>)
    ensures WithoutPins(WithoutPins(pins, a), b) == WithoutPins(pins, a + b)
  {
    if pins != [] {
      WithoutPinsTwice(pins[1..], a, b);
      if !(pins[0].text.Printed? && pins[0].text.key in a) {
        assert WithoutPins(pins, a)[1..] == WithoutPins(pins[1..], a);
      }
    }
  }

  lemma {:induction false} WithoutNoPins(pins: seq<Pin>)
    ensures WithoutPins(pins, {}) == pins
  {
    if pins != [] {
      WithoutNoPins(pins[1..]);
    }
  }

  lemma EvictAllNone(w: World)
    ensures EvictAll(w, {}) == w
  {
    WithoutNoPins(w.pins);
    assert w.peers - {} == w.peers;
    assert (set g <- w.grants | g.1 !in {}) == w.grants;
    assert (map l <- w.listeners | w.listeners[l].0 !in {} :: w.listeners[l]) == w.listeners;
  }

  lemma EvictOne(w: World, h: Key)
    requires Ledger(w) && h in w.peers
    ensures Evict(w, h) == EvictAll(w, {h})
  {
    EvictListeners(w, h);
    OneClosed(w, h);
  }

  lemma OneClosed(w: World, h: Key)
    requires h in w.peers
    ensures ConnSet(w.peers[h].conn) == ClosedBy(w, {h})
  {
    assert forall c :: c in ConnsOf(w, h) ==> c in ClosedBy(w, {h});
  }

  lemma EvictAllTwice(w: World, a: set<Key>, b: set<Key>)
    ensures EvictAll(EvictAll(w, a), b) == EvictAll(w, a + b)
  {
    var w1 := EvictAll(w, a);
    var l, r := EvictAll(w1, b), EvictAll(w, a + b);
    WithoutPinsTwice(w.pins, a, b);
    assert l.peers == r.peers;
    assert l.grants == r.grants;
    assert l.listeners == r.listeners;
    assert l.closed == r.closed by {
      forall x ensures ConnsOf(w1, x) == if x in a then {} else ConnsOf(w, x) {}
      assert forall c :: c in l.closed ==> c in r.closed;
      forall c | c in r.closed ensures c in l.closed {
        if c !in w.closed {
          var x :| x in a + b && c in ConnsOf(w, x);
          if x !in a {
            assert c in ConnsOf(w1, x);
          }
        }
      }
    }
  }

  lemma SansAdd(w: World, k: Key, port: Port, l: Port)
    requires k in w.peers && l !in w.listeners
    ensures SameBut(w, AddBinding(w, k, port, l), k)
  {
  }

  lemma SansCreate(w: World, k: Key, port: Port, offer: Port)
    requires k in w.peers
    ensures SameBut(w, CreateBinding(w, k, port, offer), k)
  {
    match OsBind(w, LocalFor(w, port), offer)
    case None =>
    case Some(l) => SansAdd(w, k, port, l);
  }

  lemma SansFields(w: World, w': World, k: Key)
    requires SameBut(w, w', k)
    ensures w.binds == w'.binds && w.grants == w'.grants && w.pins == w'.pins && w.tokens == w'.tokens
    ensures w.foreign == w'.foreign && w.closed == w'.closed
    ensures forall x :: x in w.peers <==> x in w'.peers
    ensures forall x :: x in w.peers && x != k ==> w.peers[x] == w'.peers[x]
    ensures forall x {:trigger ConnsOf(w, x)} {:trigger ConnsOf(w', x)} :: ConnsOf(w, x) == ConnsOf(w', x)
  {
    assert Sans(w, k).binds == Sans(w', k).binds && Sans(w, k).grants == Sans(w', k).grants;
    assert forall x :: x != k ==> (x in w.peers <==> x in Sans(w, k).peers);
    assert forall x :: x != k ==> (x in w'.peers <==> x in Sans(w', k).peers);
    assert forall x :: x in Sans(w, k).peers ==> w.peers[x] == Sans(w, k).peers[x] == w'.peers[x];
  }

  lemma SameListeners(w: World, w': World, k: Key)
    requires Sans(w, k) == Sans(w', k)
    ensures forall l: Port {:trigger w.listeners[l]} {:trigger w'.listeners[l]} ::
              (l in w.listeners && w.listeners[l].0 != k) == (l in w'.listeners && w'.listeners[l].0 != k)
    ensures forall l: Port :: l in w.listeners && w.listeners[l].0 != k ==> w.listeners[l] == w'.listeners[l]
  {
    forall l: Port {:trigger w.listeners[l]} {:trigger w'.listeners[l]}
      ensures (l in w.listeners && w.listeners[l].0 != k) == (l in w'.listeners && w'.listeners[l].0 != k)
      ensures l in w.listeners && w.listeners[l].0 != k ==> w.listeners[l] == w'.listeners[l]
    {
      assert (l in w.listeners && w.listeners[l].0 != k) == (l in Sans(w, k).listeners);
      assert (l in w'.listeners && w'.listeners[l].0 != k) == (l in Sans(w', k).listeners);
      if l in Sans(w, k).listeners {
        assert Sans(w, k).listeners[l] == w.listeners[l];
        assert Sans(w', k).listeners[l] == w'.listeners[l];
      }
    }
  }

  /** Evicting `k` along with others forgets everything about `k`'s bindings. */
  lemma EvictForgets(w: World, w': World, k: Key, gone: set<Key>)
    requires SameBut(w, w', k) && k in gone
    ensures EvictAll(w, gone) == EvictAll(w', gone)
  {
    SansFields(w, w', k);
    SameListeners(w, w', k);
    var l, r := EvictAll(w, gone), EvictAll(w', gone);
    assert l.peers == r.peers;
    assert ClosedBy(w, gone) == ClosedBy(w', gone);
    assert l.listeners == r.listeners;
  }

  lemma EvictAllSame(w: World, w': World, k: Key, gone: set<Key>)
    requires SameBut(w, w', k) && k !in gone
    ensures SameBut(EvictAll(w, gone), EvictAll(w', gone), k)
  {
    SansFields(w, w', k);
    SameListeners(w, w', k);
    var l, r := EvictAll(w, gone), EvictAll(w', gone);
    assert Sans(l, k).peers == Sans(r, k).peers;
    assert ClosedBy(w, gone) == ClosedBy(w', gone);
    assert Sans(l, k).listeners == Sans(r, k).listeners;
  }

  // ------------------------------------------------------- who is in the way

  lemma SameHolders(w: World, w': World, k: Key)
    requires SameBut(w, w', k)
    ensures forall x, p :: x != k ==> HoldsTarget(w, x, p) == HoldsTarget(w', x, p)
  {
    SansFields(w, w', k);
  }

  lemma {:induction false} SameContested(w: World, w': World, k: Key, ports: seq<Port>, i: nat, alive: set<Key>)
    requires SameBut(w, w', k) && i <= |ports|
    ensures FirstContested(w, k, ports, i, alive) == FirstContested(w', k, ports, i, alive)
    decreases |ports| - i
  {
    SameHolders(w, w', k);
    if i < |ports| {
      assert Contested(w, k, ports[i], alive) == Contested(w', k, ports[i], alive);
      SameContested(w, w', k, ports, i + 1, alive);
    }
  }

  lemma SameReclaimed(w: World, w': World, k: Key, ports: seq<Port>, lo: nat, hi: nat, alive: set<Key>)
    requires SameBut(w, w', k) && hi <= |ports|
    ensures Reclaimed(w, k, ports, lo, hi, alive) == Reclaimed(w', k, ports, lo, hi, alive)
  {
    SameHolders(w, w', k);
    SansFields(w, w', k);
    forall x | x != k ensures HoldsOneOf(w, x, ports, lo, hi) == HoldsOneOf(w', x, ports, lo, hi) {}
  }

  lemma EvictedReclaimed(w: World, h: Key, k: Key, ports: seq<Port>, lo: nat, hi: nat, alive: set<Key>)
    requires hi <= |ports|
    ensures Reclaimed(EvictAll(w, {h}), k, ports, lo, hi, alive) == Reclaimed(w, k, ports, lo, hi, alive) - {h}
  {
  }

  /** A port whose target no one else holds contributes no one. */
  lemma SkipUnclaimed(w: World, k: Key, ports: seq<Port>, i: nat, alive: set<Key>)
    requires i < |ports|
    requires forall x :: x != k ==> !HoldsTarget(w, x, ports[i])
    ensures FirstContested(w, k, ports, i, alive) == FirstContested(w, k, ports, i + 1, alive)
    ensures forall hi :: i < hi <= |ports| ==>
              Reclaimed(w, k, ports, i, hi, alive) == Reclaimed(w, k, ports, i + 1, hi, alive)
  {
  }

  /** The only peer that holds the target is `h`. */
  lemma ReclaimFirst(w: World, k: Key, ports: seq<Port>, i: nat, hi: nat, h: Key, alive: set<Key>)
    requires i < hi <= |ports| && h != k && h !in alive && h in w.peers
    requires forall x :: x != k ==> (HoldsTarget(w, x, ports[i]) <==> x == h)
    ensures Reclaimed(w, k, ports, i, hi, alive) == Reclaimed(w, k, ports, i + 1, hi, alive) + {h}
  {
    forall x | x != k ensures HoldsOneOf(w, x, ports, i, hi) == (x == h || HoldsOneOf(w, x, ports, i + 1, hi)) {
      assert HoldsTarget(w, x, ports[i]) <==> x == h;
    }
  }

  // -------------------------------------------------------- the binding loop

  /** An offer the system could have made good on. */
  ghost predicate Usable(w: World, w': World, offer: Port) {
    offer != 0 && offer !in w.foreign && offer !in w.listeners && offer !in w'.listeners
  }

  /** Why announced port `p` has no binding in `w'`: its fixed target is refused
      by the system or taken by another of `k`'s own bindings; or the choice was
      the system's and it never offered a port it could give. */
  ghost predicate Unavailable(w: World, w': World, k: Key, ports: seq<Port>, i: nat, p: Port, env: Env) {
    if LocalFor(w, p) != 0 then
      LocalFor(w, p) in w.foreign || exists q :: q != p && Bound(w', k, q, LocalFor(w, p))
    else
      forall j :: i <= j < |ports| && ports[j] == p ==> !Usable(w, w', env.offers(j))
  }

  /** What the loop does to the announcer's own record. */
  ghost predicate OwnOutcome(w: World, w': World, k: Key, ports: seq<Port>, i: nat, env: Env)
    requires k in w.peers && k in w'.peers && i <= |ports|
  {
    var b, b' := w.peers[k].bindings, w'.peers[k].bindings;
    && w'.peers[k].exposed == ports
    && (forall p <- b :: p in b' && b'[p] == b[p])
    && (forall p <- b' :: p in b || p in ports[i..])
    && (forall p <- ports[i..] :: p in b' || Unavailable(w, w', k, ports, i, p, env))
  }

  /** The complete outcome of the loop, in terms of the tables it started from. */
  ghost predicate LoopResult(w: World, w': World, k: Key, ports: seq<Port>, i: nat, env: Env)
    requires k in w.peers && i <= |ports|
  {
    var n := FirstContested(w, k, ports, i, env.alive);
    var gone := Reclaimed(w, k, ports, i, n, env.alive);
    && Agree(w')
    && if n < |ports| then w' == EvictAll(w, gone + {k})
       else SameBut(EvictAll(w, gone), w', k) && OwnOutcome(w, w', k, ports, i, env)
  }

  lemma {:induction false} LoopOutcome(w: World, k: Key, ports: seq<Port>, i: nat, env: Env)
    requires Agree(w) && k in w.peers && i <= |ports|
    ensures LoopResult(w, AnnounceFrom(w, k, ports, i, env), k, ports, i, env)
    decreases |ports| - i, 2
  {
    if i == |ports| {
      LoopEnd(w, k, ports, env);
    } else if ports[i] in w.peers[k].bindings {
      OwnTarget(w, k, ports[i]);
      SkipUnclaimed(w, k, ports, i, env.alive);
      LoopOutcome(w, k, ports, i + 1, env);
    } else {
      var l := LocalFor(w, ports[i]);
      HolderIsListener(w, l, k);
      match Holder(w, l, k) {
        case None =>
          LoopUnclaimed(w, k, ports, i, env);
        case Some(h) =>
          if h in env.alive {
            LoopRejects(w, k, ports, i, h, env);
          } else {
            LoopReclaims(w, k, ports, i, h, env);
          }
      }
    }
  }

  lemma ListReplaced(w: World, k: Key, ports: seq<Port>)
    requires Agree(w) && k in w.peers
    ensures Agree(w.(peers := w.peers[k := w.peers[k].(exposed := ports)]))
    ensures SameBut(w, w.(peers := w.peers[k := w.peers[k].(exposed := ports)]), k)
  {
    var w' := w.(peers := w.peers[k := w.peers[k].(exposed := ports)]);
    assert forall x: Key, p: Port, l: Port :: Bound(w, x, p, l) == Bound(w', x, p, l);
    assert Sans(w, k).peers == Sans(w', k).peers;
  }

  lemma LoopEnd(w: World, k: Key, ports: seq<Port>, env: Env)
    requires Agree(w) && k in w.peers
    ensures LoopResult(w, AnnounceFrom(w, k, ports, |ports|, env), k, ports, |ports|, env)
  {
    ListReplaced(w, k, ports);
    assert Reclaimed(w, k, ports, |ports|, |ports|, env.alive) == {};
    EvictAllNone(w);
  }

  /** No one else holds the target of a port its announcer has bound. */
  lemma OwnTarget(w: World, k: Key, p: Port)
    requires Agree(w) && k in w.peers && p in w.peers[k].bindings
    ensures forall x :: x != k ==> !HoldsTarget(w, x, p)
  {
    assert Bound(w, k, p, w.peers[k].bindings[p]);
    HolderIsListener(w, LocalFor(w, p), k);
  }

  lemma LoopRejects(w: World, k: Key, ports: seq<Port>, i: nat, h: Key, env: Env)
    requires Agree(w) && k in w.peers && i < |ports| && ports[i] !in w.peers[k].bindings
    requires Holder(w, LocalFor(w, ports[i]), k) == Some(h) && h in env.alive
    ensures LoopResult(w, AnnounceFrom(w, k, ports, i, env), k, ports, i, env)
  {
    assert HoldsTarget(w, h, ports[i]);
    assert Reclaimed(w, k, ports, i, i, env.alive) + {k} == {k};
    EvictOne(w, k);
    EvictKeepsLedger(w, k, None);
  }

  /** Evicting the one holder leaves the target free of every other peer, so the
      rest of the pass runs as if it had never been claimed. */
  lemma LoopReclaims(w: World, k: Key, ports: seq<Port>, i: nat, h: Key, env: Env)
    requires Agree(w) && k in w.peers && i < |ports| && ports[i] !in w.peers[k].bindings
    requires Holder(w, LocalFor(w, ports[i]), k) == Some(h) && h !in env.alive
    ensures LoopResult(w, AnnounceFrom(w, k, ports, i, env), k, ports, i, env)
    decreases |ports| - i, 1
  {
    var w1 := EvictAll(w, {h});
    EvictOne(w, h);
    EvictKeepsLedger(w, h, None);
    OneEvictionSuffices(w, LocalFor(w, ports[i]), k);
    LoopUnclaimed(w1, k, ports, i, env);
    ReclaimedResult(w, w1, AnnounceFrom(w1, k, ports, i, env), k, ports, i, h, env);
  }

  lemma ReclaimedResult(w: World, w1: World, w': World, k: Key, ports: seq<Port>, i: nat, h: Key, env: Env)
    requires Agree(w) && k in w.peers && i < |ports|
    requires Holder(w, LocalFor(w, ports[i]), k) == Some(h) && h !in env.alive && w1 == EvictAll(w, {h})
    requires LoopResult(w1, w', k, ports, i, env)
    ensures LoopResult(w, w', k, ports, i, env)
  {
    ReclaimedOnce(w, k, ports, i, h, env.alive);
    var n := FirstContested(w, k, ports, i, env.alive);
    var gone, gone1 := Reclaimed(w, k, ports, i, n, env.alive), Reclaimed(w1, k, ports, i, n, env.alive);
    if n == |ports| {
      EvictAllTwice(w, {h}, gone1);
      ReclaimedOwn(w, w1, w', k, ports, i, h, env);
    } else {
      EvictAllTwice(w, {h}, gone1 + {k});
      assert {h} + (gone1 + {k}) == gone + {k};
    }
  }

  /** The holder of the first port is one of those reclaimed; the others are the same
      with it gone. */
  lemma ReclaimedOnce(w: World, k: Key, ports: seq<Port>, i: nat, h: Key, alive: set<Key>)
    requires Ledger(w) && k in w.peers && i < |ports|
    requires Holder(w, LocalFor(w, ports[i]), k) == Some(h) && h !in alive
    ensures var w1, n := EvictAll(w, {h}), FirstContested(w, k, ports, i, alive);
            && FirstContested(w1, k, ports, i, alive) == n
            && Reclaimed(w, k, ports, i, n, alive) == {h} + Reclaimed(w1, k, ports, i, n, alive)
  {
    HolderIsListener(w, LocalFor(w, ports[i]), k);
    assert forall x :: x != k ==> (HoldsTarget(w, x, ports[i]) <==> x == h);
    var n := FirstContested(w, k, ports, i, alive);
    assert !Contested(w, k, ports[i], alive);
    EvictedReclaimed(w, h, k, ports, i, n, alive);
    ReclaimFirst(w, k, ports, i, n, h, alive);
  }

  lemma ReclaimedOwn(w: World, w1: World, w': World, k: Key, ports: seq<Port>, i: nat, h: Key, env: Env)
    requires k in w.peers && k in w'.peers && i < |ports| && h != k && w1 == EvictAll(w, {h})
    requires OwnOutcome(w1, w', k, ports, i, env)
    ensures OwnOutcome(w, w', k, ports, i, env)
  {
  }

  /** By injectivity of local ports, evicting the single peer that holds a local
      port frees it of every peer but `k`: a bind on it can then fail only on a
      refused port or on `k`'s own other binding. */
  lemma OneEvictionSuffices(w: World, l: Port, k: Key)
    requires Ledger(w) && k in w.peers && Holder(w, l, k).Some?
    ensures var h := Holder(w, l, k).value;
            var w1 := Evict(w, h);
            && k in w1.peers && w1.peers[k] == w.peers[k]
            && Holder(w1, l, k) == None
            && forall offer :: OsBind(w1, l, offer) == Some(l)
  {
    HolderIsListener(w, l, k);
    var h := Holder(w, l, k).value;
    EvictListeners(w, h);
    EvictKeepsLedgerOnly(w, h);
    HolderIsListener(Evict(w, h), l, k);
  }

  lemma EvictKeepsLedgerOnly(w: World, h: Key)
    requires Ledger(w)
    ensures Ledger(Evict(w, h))
  {
    var w' := Evict(w, h);
    EvictListeners(w, h);
    assert forall x: Key, p: Port, l: Port :: Bound(w', x, p, l) <==> Bound(w, x, p, l) && x != h;
  }

  lemma LoopUnclaimed(w: World, k: Key, ports: seq<Port>, i: nat, env: Env)
    requires Agree(w) && k in w.peers && i < |ports| && ports[i] !in w.peers[k].bindings
    requires Holder(w, LocalFor(w, ports[i]), k) == None
    ensures LoopResult(w, AnnounceFrom(w, k, ports, i, env), k, ports, i, env)
    decreases |ports| - i, 0
  {
    var w1 := CreateBinding(w, k, ports[i], env.offers(i));
    var w' := AnnounceFrom(w1, k, ports, i + 1, env);
    SansCreate(w, k, ports[i], env.offers(i));
    CreateKeepsLedger(w, k, ports[i], env.offers(i), None);
    LoopOutcome(w1, k, ports, i + 1, env);
    SkipUnclaimed(w, k, ports, i, env.alive);
    SameContested(w, w1, k, ports, i + 1, env.alive);
    var n := FirstContested(w, k, ports, i, env.alive);
    SameReclaimed(w, w1, k, ports, i + 1, n, env.alive);
    var gone := Reclaimed(w, k, ports, i, n, env.alive);
    if n < |ports| {
      EvictForgets(w, w1, k, gone + {k});
    } else {
      EvictAllSame(w, w1, k, gone);
      OwnExtends(w, w1, w', k, ports, i, env);
    }
  }

  lemma OwnExtends(w: World, w1: World, w': World, k: Key, ports: seq<Port>, i: nat, env: Env)
    requires Agree(w) && k in w.peers && i < |ports| && ports[i] !in w.peers[k].bindings
    requires Holder(w, LocalFor(w, ports[i]), k) == None
    requires w1 == CreateBinding(w, k, ports[i], env.offers(i))
    requires k in w'.peers && Agree(w') && OwnOutcome(w1, w', k, ports, i + 1, env)
    ensures OwnOutcome(w, w', k, ports, i, env)
  {
    var b' := w'.peers[k].bindings;
    var bound := OsBind(w, LocalFor(w, ports[i]), env.offers(i));
    assert ports[i..] == [ports[i]] + ports[i + 1..];
    if bound.Some? {
      assert Bound(w', k, ports[i], bound.value);
    }
    forall p | p in ports[i..] && p !in b' ensures Unavailable(w, w', k, ports, i, p, env) {
      StillUnavailable(w, w1, w', k, ports, i, p, env);
    }
  }

  /** A port without a binding in the end was unavailable from position `i` on too. */
  lemma StillUnavailable(w: World, w1: World, w': World, k: Key, ports: seq<Port>, i: nat, p: Port, env: Env)
    requires Agree(w) && k in w.peers && i < |ports| && ports[i] !in w.peers[k].bindings
    requires Holder(w, LocalFor(w, ports[i]), k) == None
    requires w1 == CreateBinding(w, k, ports[i], env.offers(i))
    requires k in w'.peers && p in ports[i..] && p !in w'.peers[k].bindings
    requires forall q <- w1.peers[k].bindings :: q in w'.peers[k].bindings && w'.peers[k].bindings[q] == w1.peers[k].bindings[q]
    requires p in ports[i + 1..] ==> Unavailable(w1, w', k, ports, i + 1, p, env)
    requires OsBind(w, LocalFor(w, ports[i]), env.offers(i)).Some? ==>
               OsBind(w, LocalFor(w, ports[i]), env.offers(i)).value in w'.listeners
    ensures Unavailable(w, w', k, ports, i, p, env)
  {
    if p == ports[i] && LocalFor(w, p) != 0 {
      OwnStays(w, w', k, p, env.offers(i));
    }
  }

  /** What the announcer had taken for another port is still taken. */
  lemma OwnStays(w: World, w': World, k: Key, p: Port, offer: Port)
    requires Agree(w) && k in w.peers && p !in w.peers[k].bindings && LocalFor(w, p) != 0
    requires Holder(w, LocalFor(w, p), k) == None && OsBind(w, LocalFor(w, p), offer) == None
    requires forall q: Port, l: Port :: Bound(w, k, q, l) ==> Bound(w', k, q, l)
    ensures LocalFor(w, p) in w.foreign || exists q :: q != p && Bound(w', k, q, LocalFor(w, p))
  {
    OwnTaken(w, k, p, offer);
    if LocalFor(w, p) !in w.foreign {
      var q :| q != p && Bound(w, k, q, LocalFor(w, p));
      assert Bound(w', k, q, LocalFor(w, p));
    }
  }

  /** A fixed target nobody else holds is refused only when it is foreign or one
      of the announcer's own. */
  lemma OwnTaken(w: World, k: Key, p: Port, offer: Port)
    requires Agree(w) && k in w.peers && p !in w.peers[k].bindings && LocalFor(w, p) != 0
    requires Holder(w, LocalFor(w, p), k) == None
    ensures OsBind(w, LocalFor(w, p), offer) == None ==>
              LocalFor(w, p) in w.foreign || exists q :: q != p && Bound(w, k, q, LocalFor(w, p))
  {
    HolderIsListener(w, LocalFor(w, p), k);
    if LocalFor(w, p) in w.listeners {
      assert Bound(w, k, w.listeners[LocalFor(w, p)].1, LocalFor(w, p));
    }
  }

  // ------------------------------------------------------------ the theorems

  lemma ReleaseSetListeners(w: World, k: Key, dropped: set<Port>)
    requires Ledger(w) && k in w.peers && dropped <= w.peers[k].bindings.Keys
    ensures ReleaseSet(w, k, dropped).listeners ==
            map l <- w.listeners | !(w.listeners[l].0 == k && w.listeners[l].1 in dropped) :: w.listeners[l]
  {
    var b := w.peers[k].bindings;
    assert forall q <- dropped :: Bound(w, k, q, b[q]);
    forall l <- w.listeners
      ensures l in (set p <- dropped :: b[p]) <==> w.listeners[l].0 == k && w.listeners[l].1 in dropped
    {
      assert Bound(w, w.listeners[l].0, w.listeners[l].1, l);
    }
  }

  lemma ReleaseSetSame(w: World, k: Key, dropped: set<Port>)
    requires Ledger(w) && k in w.peers && dropped <= w.peers[k].bindings.Keys
    ensures SameBut(w, ReleaseSet(w, k, dropped), k)
  {
    ReleaseSetListeners(w, k, dropped);
    var w0 := ReleaseSet(w, k, dropped);
    assert Sans(w, k).peers == Sans(w0, k).peers;
    assert Sans(w, k).listeners == Sans(w0, k).listeners;
  }

  lemma ReleaseSetKeeps(w: World, k: Key, dropped: set<Port>)
    requires Agree(w) && k in w.peers && dropped <= w.peers[k].bindings.Keys
    ensures Agree(ReleaseSet(w, k, dropped))
  {
    var w0 := ReleaseSet(w, k, dropped);
    ReleaseSetListeners(w, k, dropped);
    forall x: Key, p: Port, l: Port
      ensures Bound(w0, x, p, l) <==> Bound(w, x, p, l) && !(x == k && p in dropped)
    {}
  }

  lemma ReleaseDroppedKeeps(w: World, k: Key, ports: seq<Port>)
    requires Consistent(w) && k in w.peers
    ensures var w0 := ReleaseDropped(w, k, ports);
            && Agree(w0) && SameBut(w, w0, k)
            && (forall p: Port :: p in w0.peers[k].bindings <==> p in w.peers[k].bindings && p in ports)
            && (forall p <- w0.peers[k].bindings :: w0.peers[k].bindings[p] == w.peers[k].bindings[p])
            && (forall l <- w0.listeners :: l in w.listeners)
  {
    assert WithinAnnounced(w, k);
    var dropped := set p <- w.peers[k].bindings.Keys | p in w.peers[k].exposed && p !in ports;
    ReleaseSetListeners(w, k, dropped);
    ReleaseSetKeeps(w, k, dropped);
    ReleaseSetSame(w, k, dropped);
  }

  /** The complete outcome of an announcement. With `n` the first announced port
      a live peer stands in the way of, and `gone` the stale peers in the way of
      the ports before it:
      - if there is such a port, everyone in `gone` and the announcer itself are
        fully evicted, and nothing else changed: no trace of the pass remains;
      - otherwise everyone in `gone` is evicted, the announced list is the new
        one, bindings already in place for it stay as they were, the others are
        made unless unavailable, and no other peer holds a target. */
  ghost predicate AnnouncementResult(w: World, w': World, k: Key, ports: seq<Port>, env: Env)
    requires k in w.peers
  {
    var n := FirstContested(w, k, ports, 0, env.alive);
    var gone := Reclaimed(w, k, ports, 0, n, env.alive);
    if n < |ports| then
      w' == EvictAll(w, gone + {k})
    else
      && SameBut(EvictAll(w, gone), w', k)
      && w'.peers[k].exposed == ports
      && (forall p <- w.peers[k].bindings :: p in ports ==> Bound(w', k, p, w.peers[k].bindings[p]))
      && (forall p <- ports :: p in w'.peers[k].bindings || Unavailable(w, w', k, ports, 0, p, env))
      && (forall x, p :: x != k && p in ports ==> !HoldsTarget(w', x, p))
  }

  lemma AnnouncementOutcome(w: World, k: Key, ports: seq<Port>, env: Env)
    requires Consistent(w) && k in w.peers
    ensures Consistent(Announce(w, k, ports, env))
    ensures AnnouncementResult(w, Announce(w, k, ports, env), k, ports, env)
  {
    var w0, w' := ReleaseDropped(w, k, ports), Announce(w, k, ports, env);
    ReleaseDroppedKeeps(w, k, ports);
    LoopOutcome(w0, k, ports, 0, env);
    SameContested(w, w0, k, ports, 0, env.alive);
    var n := FirstContested(w, k, ports, 0, env.alive);
    SameReclaimed(w, w0, k, ports, 0, n, env.alive);
    var gone := Reclaimed(w, k, ports, 0, n, env.alive);
    if n < |ports| {
      EvictForgets(w, w0, k, gone + {k});
      assert forall x <- w'.peers :: w'.peers[x] == w.peers[x] && WithinAnnounced(w, x);
    } else {
      EvictAllSame(w, w0, k, gone);
      Accepted(w, w0, w', k, ports, env);
    }
  }

  lemma Accepted(w: World, w0: World, w': World, k: Key, ports: seq<Port>, env: Env)
    requires Consistent(w) && k in w.peers && SameBut(w, w0, k) && Agree(w')
    requires forall p: Port :: p in w0.peers[k].bindings <==> p in w.peers[k].bindings && p in ports
    requires forall p <- w0.peers[k].bindings :: w0.peers[k].bindings[p] == w.peers[k].bindings[p]
    requires forall l <- w0.listeners :: l in w.listeners
    requires FirstContested(w, k, ports, 0, env.alive) == |ports|
    requires SameBut(EvictAll(w, Reclaimed(w, k, ports, 0, |ports|, env.alive)), w', k)
    requires OwnOutcome(w0, w', k, ports, 0, env)
    ensures Consistent(w') && AnnouncementResult(w, w', k, ports, env)
  {
    var gone := Reclaimed(w, k, ports, 0, |ports|, env.alive);
    SansFields(w, w0, k);
    SansFields(EvictAll(w, gone), w', k);
    assert ports[0..] == ports;
    assert forall x <- w'.peers :: x != k ==> w'.peers[x] == w.peers[x] && WithinAnnounced(w, x);
    forall p | p in ports && p !in w'.peers[k].bindings
      ensures Unavailable(w, w', k, ports, 0, p, env)
    {
      assert Unavailable(w0, w', k, ports, 0, p, env);
    }
    forall x, p | x != k && p in ports ensures !HoldsTarget(w', x, p) {
      NobodyElseHolds(w, w', k, ports, env, x, p);
    }
  }

  lemma NobodyElseHolds(w: World, w': World, k: Key, ports: seq<Port>, env: Env, x: Key, p: Port)
    requires k in w.peers && FirstContested(w, k, ports, 0, env.alive) == |ports|
    requires SameBut(EvictAll(w, Reclaimed(w, k, ports, 0, |ports|, env.alive)), w', k)
    requires x != k && p in ports
    ensures !HoldsTarget(w', x, p)
  {
    var gone := Reclaimed(w, k, ports, 0, |ports|, env.alive);
    SansFields(EvictAll(w, gone), w', k);
    var j :| 0 <= j < |ports| && ports[j] == p;
    assert !Contested(w, k, ports[j], env.alive);
    assert HoldsTarget(w, x, ports[j]) ==> HoldsOneOf(w, x, ports, 0, |ports|);
  }

  /** The announcer is rejected exactly when, before the pass, some live peer
      held the target of some port it announces. */
  lemma RejectedIff(w: World, k: Key, ports: seq<Port>, env: Env)
    requires Consistent(w) && k in w.peers
    ensures k !in Announce(w, k, ports, env).peers
            <==> exists p :: p in ports && Contested(w, k, p, env.alive)
  {
    AnnouncementOutcome(w, k, ports, env);
    var n := FirstContested(w, k, ports, 0, env.alive);
    if n < |ports| {
      assert ports[n] in ports;
    } else {
      forall p | p in ports ensures !Contested(w, k, p, env.alive) {
        var j :| 0 <= j < |ports| && ports[j] == p;
        assert !Contested(w, k, ports[j], env.alive);
      }
    }
  }

  /** Another peer that disappears in a pass failed its probe and held the
      target of a port the announcer asked for. */
  lemma OnlyStaleHoldersGo(w: World, k: Key, ports: seq<Port>, env: Env, x: Key)
    requires Consistent(w) && k in w.peers && x in w.peers && x != k
    requires x !in Announce(w, k, ports, env).peers
    ensures x !in env.alive && exists p :: p in ports && HoldsTarget(w, x, p)
  {
    AnnouncementOutcome(w, k, ports, env);
    var n := FirstContested(w, k, ports, 0, env.alive);
    var gone := Reclaimed(w, k, ports, 0, n, env.alive);
    if n == |ports| {
      SansFields(EvictAll(w, gone), Announce(w, k, ports, env), k);
    }
    assert x in gone;
    var j :| 0 <= j < n && HoldsTarget(w, x, ports[j]);
    assert ports[j] in ports;
  }

  /** `x` has the same record, listeners, grants and pin in both worlds. */
  ghost predicate Untouched(w: World, w': World, x: Key) {
    && x in w.peers && x in w'.peers && w'.peers[x] == w.peers[x]
    && (forall l: Port, p: Port :: (l in w'.listeners && w'.listeners[l] == (x, p))
                                   <==> (l in w.listeners && w.listeners[l] == (x, p)))
    && (forall p: Port :: (p, x) in w'.grants <==> (p, x) in w.grants)
    && (forall pin: Pin :: Names(pin.text, x) ==> (pin in w'.pins <==> pin in w.pins))
  }

  /** Who is evicted by a pass. */
  ghost function Lost(w: World, k: Key, ports: seq<Port>, env: Env): set<Key> {
    var n := FirstContested(w, k, ports, 0, env.alive);
    Reclaimed(w, k, ports, 0, n, env.alive) + if n < |ports| then {k} else {}
  }

  /** All but the announcer's own record and listeners. */
  lemma RestOfPass(w: World, k: Key, ports: seq<Port>, env: Env)
    requires Consistent(w) && k in w.peers
    ensures var w' := Announce(w, k, ports, env);
            && w'.grants == EvictAll(w, Lost(w, k, ports, env)).grants
            && w'.pins == EvictAll(w, Lost(w, k, ports, env)).pins
            && w'.binds == w.binds && w'.foreign == w.foreign && w'.tokens == w.tokens
            && w'.peers.Keys == w.peers.Keys - Lost(w, k, ports, env)
            && forall x :: x in w'.peers && x != k ==> w'.peers[x] == w.peers[x]
  {
    var n := FirstContested(w, k, ports, 0, env.alive);
    var gone := Reclaimed(w, k, ports, 0, n, env.alive);
    AnnouncementOutcome(w, k, ports, env);
    assert Lost(w, k, ports, env) == if n < |ports| then gone + {k} else gone;
    if n == |ports| {
      SansFields(EvictAll(w, gone), Announce(w, k, ports, env), k);
    }
  }

  lemma BystanderKeepsClaims(w: World, k: Key, ports: seq<Port>, env: Env, x: Key)
    requires Consistent(w) && k in w.peers && x in w.peers && x != k
    requires x in env.alive || x in Announce(w, k, ports, env).peers
    ensures var w' := Announce(w, k, ports, env);
            && x in w'.peers && w'.peers[x] == w.peers[x]
            && (forall p: Port :: (p, x) in w'.grants <==> (p, x) in w.grants)
            && (forall pin: Pin :: Names(pin.text, x) ==> (pin in w'.pins <==> pin in w.pins))
  {
    RestOfPass(w, k, ports, env);
    assert x !in Lost(w, k, ports, env);
    WithoutPinsKeeps(w.pins, Lost(w, k, ports, env));
  }

  /** Every other peer that remains, and so every live one, loses nothing. */
  lemma BystandersKeepEverything(w: World, k: Key, ports: seq<Port>, env: Env, x: Key)
    requires Consistent(w) && k in w.peers && x in w.peers && x != k
    requires x in env.alive || x in Announce(w, k, ports, env).peers
    ensures Untouched(w, Announce(w, k, ports, env), x)
  {
    BystanderKeepsClaims(w, k, ports, env, x);
    AnnouncementKeepsLedger(w, k, ports, env);
    SameOwnListeners(w, Announce(w, k, ports, env), x);
  }

  lemma AnnouncementKeepsLedger(w: World, k: Key, ports: seq<Port>, env: Env)
    requires Consistent(w) && k in w.peers
    ensures Ledger(Announce(w, k, ports, env))
  {
    AnnouncementOutcome(w, k, ports, env);
  }

  lemma SameOwnListeners(w: World, w': World, x: Key)
    requires Ledger(w) && Ledger(w') && x in w.peers && x in w'.peers && w.peers[x] == w'.peers[x]
    ensures forall l: Port, p: Port :: (l in w'.listeners && w'.listeners[l] == (x, p))
                                       <==> (l in w.listeners && w.listeners[l] == (x, p))
  {
  }

  /** Announcing the same list again, with nothing in between, evicts no one and
      leaves every binding in place, whatever answers the probes now; it only
      retries what was missing. If no missing port leaves the choice to the
      system, it changes nothing at all. */
  lemma ReannounceIsQuiet(w: World, k: Key, ports: seq<Port>, env: Env, again: Env)
    requires Consistent(w) && k in w.peers && k in Announce(w, k, ports, env).peers
    ensures var w1 := Announce(w, k, ports, env);
            var w2 := Announce(w1, k, ports, again);
            && SameBut(w1, w2, k) && w2.peers[k].exposed == w1.peers[k].exposed
            && (forall p <- w1.peers[k].bindings :: Bound(w2, k, p, w1.peers[k].bindings[p]))
            && ((forall p <- ports :: p in w1.peers[k].bindings || LocalFor(w1, p) != 0) ==> w2 == w1)
  {
    var w1 := Announce(w, k, ports, env);
    AfterAcceptance(w, k, ports, env);
    UncontestedPass(w1, k, ports, again);
    if forall p <- ports :: p in w1.peers[k].bindings || LocalFor(w1, p) != 0 {
      NothingToRetry(w, w1, k, ports, env, again);
    }
  }

  lemma AfterAcceptance(w: World, k: Key, ports: seq<Port>, env: Env)
    requires Consistent(w) && k in w.peers && k in Announce(w, k, ports, env).peers
    ensures var w1 := Announce(w, k, ports, env);
            && Consistent(w1) && w1.peers[k].exposed == ports && w1.foreign == w.foreign && w1.binds == w.binds
            && (forall x, p :: x != k && p in ports ==> !HoldsTarget(w1, x, p))
            && (forall p <- ports :: p in w1.peers[k].bindings || Unavailable(w, w1, k, ports, 0, p, env))
  {
    AnnouncementOutcome(w, k, ports, env);
    RestOfPass(w, k, ports, env);
  }

  lemma NothingToRetry(w: World, w1: World, k: Key, ports: seq<Port>, env: Env, again: Env)
    requires k in w.peers && w1.foreign == w.foreign && w1.binds == w.binds
    requires Consistent(w1) && k in w1.peers && w1.peers[k].exposed == ports
    requires forall x, p :: x != k && p in ports ==> !HoldsTarget(w1, x, p)
    requires forall p <- ports :: p in w1.peers[k].bindings ||
                                  (LocalFor(w, p) != 0 && Unavailable(w, w1, k, ports, 0, p, env))
    ensures Announce(w1, k, ports, again) == w1
  {
    var w2 := Announce(w1, k, ports, again);
    UncontestedPass(w1, k, ports, again);
    AnnouncementOutcome(w1, k, ports, again);
    StillMissing(w, w1, w2, k, ports, env);
    SameRecord(w1, w2, k);
  }

  /** When no other peer holds a target, a pass touches the announcer only. */
  lemma UncontestedPass(w: World, k: Key, ports: seq<Port>, env: Env)
    requires k in w.peers && Consistent(w) && w.peers[k].exposed == ports
    requires forall x, p :: x != k && p in ports ==> !HoldsTarget(w, x, p)
    ensures var w' := Announce(w, k, ports, env);
            && SameBut(w, w', k) && w'.peers[k].exposed == ports
            && (forall p <- w.peers[k].bindings :: Bound(w', k, p, w.peers[k].bindings[p]))
  {
    AnnouncementOutcome(w, k, ports, env);
    assert FirstContested(w, k, ports, 0, env.alive) == |ports|;
    assert Reclaimed(w, k, ports, 0, |ports|, env.alive) == {};
    EvictAllNone(w);
    assert WithinAnnounced(w, k);
  }

  /** A missing port with a fixed target stays missing. */
  lemma StillMissing(w: World, w1: World, w2: World, k: Key, ports: seq<Port>, env: Env)
    requires Consistent(w1) && Consistent(w2) && SameBut(w1, w2, k) && w2.peers[k].exposed == ports
    requires w.foreign == w1.foreign && w.binds == w1.binds && k in w.peers
    requires forall p <- w1.peers[k].bindings :: Bound(w2, k, p, w1.peers[k].bindings[p])
    requires forall p <- ports :: p in w1.peers[k].bindings ||
                                  (LocalFor(w, p) != 0 && Unavailable(w, w1, k, ports, 0, p, env))
    ensures w2.peers[k].bindings == w1.peers[k].bindings
  {
    SansFields(w1, w2, k);
    assert WithinAnnounced(w2, k);
    forall p | p in ports && p !in w1.peers[k].bindings ensures p !in w2.peers[k].bindings {
      assert Unavailable(w, w1, k, ports, 0, p, env);
      StaysUnbound(w1, w2, k, p);
    }
  }

  /** A port whose fixed target is refused or taken by another of the peer's own stays
      unbound. */
  lemma StaysUnbound(w1: World, w2: World, k: Key, p: Port)
    requires Agree(w2) && k in w1.peers && w2.foreign == w1.foreign && w2.binds == w1.binds && LocalFor(w1, p) != 0
    requires LocalFor(w1, p) in w1.foreign || exists q :: q != p && Bound(w1, k, q, LocalFor(w1, p))
    requires forall q <- w1.peers[k].bindings :: Bound(w2, k, q, w1.peers[k].bindings[q])
    ensures k in w2.peers ==> p !in w2.peers[k].bindings
  {
    var l := LocalFor(w1, p);
    if l !in w1.foreign {
      var q :| q != p && Bound(w1, k, q, l);
      assert Bound(w2, k, q, l);
    }
    if k in w2.peers && p in w2.peers[k].bindings {
      assert Bound(w2, k, p, w2.peers[k].bindings[p]);
    }
  }

  lemma SameRecord(w1: World, w2: World, k: Key)
    requires Consistent(w1) && Consistent(w2) && SameBut(w1, w2, k) && w1.peers[k] == w2.peers[k]
    ensures w1 == w2
  {
    SansFields(w1, w2, k);
    assert w1.peers == w2.peers;
    assert forall x: Key, p: Port, l: Port :: Bound(w1, x, p, l) == Bound(w2, x, p, l);
    assert forall l: Port :: l in w1.listeners ==> Bound(w1, w1.listeners[l].0, w1.listeners[l].1, l);
    assert forall l: Port :: l in w2.listeners ==> Bound(w2, w2.listeners[l].0, w2.listeners[l].1, l);
    assert w1.listeners == w2.listeners;
  }
}
