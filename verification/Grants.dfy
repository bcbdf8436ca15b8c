/** The grant table, and the relation of ports and grantees it stands for. */
module Grants {
  import opened Common
  import opened Sorting

  /** A set of (port, grantee) pairs: the whole meaning of a grant table. */
  type Relation = set<(Port, Key)>

  function Add(rel: Relation, port: Port, grantee: Key): Relation {
    rel + {(port, grantee)}
  }

  /** Revoking one grant, or with no grantee every grant for the port. */
  function Remove(rel: Relation, port: Port, grantee: Option<Key>): Relation {
    set g <- rel | !(g.0 == port && (grantee.None? || g.1 == grantee.value))
  }

  function RevokeGrantee(rel: Relation, k: Key): Relation {
    set g <- rel | g.1 != k
  }

  function PortsOf(rel: Relation): set<Port> {
    set g <- rel :: g.0
  }

  function PortsFor(rel: Relation, k: Key): set<Port> {
    set g <- rel | g.1 == k :: g.0
  }

  lemma PortsIff(rel: Relation, k: Key)
    ensures forall p: Port :: p in PortsFor(rel, k) <==> (p, k) in rel
    ensures forall p: Port :: p in PortsOf(rel) <==> exists x :: (p, x) in rel
  {
    forall p: Port ensures p in PortsFor(rel, k) <==> (p, k) in rel {
      if (p, k) in rel {
        var g := (p, k);
        assert g.0 == p && g.1 == k;
      }
    }
    forall p: Port ensures p in PortsOf(rel) <==> exists x :: (p, x) in rel {
      if x :| (p, x) in rel {
        var g := (p, x);
        assert g.0 == p;
      }
      if p in PortsOf(rel) {
        var g :| g in rel && g.0 == p;
        assert (p, g.1) in rel;
      }
    }
  }

  /** The table itself: grantees by port, indexed for the per-port question. */
  class GrantTable {
    var byPort: map<Port, set<Key>>

    /** No port is kept without a grantee. */
    ghost predicate Valid()
      reads this
    {
      forall p <- byPort :: byPort[p] != {}
    }

    /** The pairs the table holds. */
    ghost function Pairs(): Relation
      reads this
    {
      set p <- byPort, k <- byPort[p] :: (p, k)
    }

    constructor ()
      ensures Valid() && Pairs() == {}
    {
      byPort := map[];
    }

    method AddGrant(port: Port, grantee: Key)
      requires Valid()
      modifies this
      ensures Valid() && Pairs() == Add(old(Pairs()), port, grantee)
    {
      ghost var before := Pairs();
      byPort := byPort[port := (if port in byPort then byPort[port] else {}) + {grantee}];
      SamePairs(Add(before, port, grantee));
    }

    method RemoveGrant(port: Port, grantee: Option<Key>)
      requires Valid()
      modifies this
      ensures Valid() && Pairs() == Remove(old(Pairs()), port, grantee)
    {
      ghost var before := byPort;
      match grantee {
        case Some(k) =>
          if port in byPort {
            var rest := byPort[port] - {k};
            assert forall x <- before[port] :: x != k ==> x in rest;
            byPort := if rest == {} then byPort - {port} else byPort[port := rest];
          }
        case None =>
          byPort := byPort - {port};
      }
      SamePairs(Remove(old(Pairs()), port, grantee));
    }

    /** `rel` is what the table holds when it says so pair by pair. */
    lemma SamePairs(rel: Relation)
      requires forall p: Port, k :: (p, k) in rel <==> p in byPort && k in byPort[p]
      ensures Pairs() == rel
    {
      forall g: (Port, Key) ensures g in Pairs() <==> g in rel {
        assert g == (g.0, g.1);
      }
    }

    /** Drops every grant naming `peer`, and every port left without one. */
    method Revoke(peer: Key)
      requires Valid()
      modifies this
      ensures Valid() && Pairs() == RevokeGrantee(old(Pairs()), peer)
    {
      ghost var before := byPort;
      var rest := byPort.Keys;
      while rest != {}
        invariant rest <= before.Keys
        invariant forall p <- rest :: p in byPort && byPort[p] == before[p]
        invariant forall p <- before.Keys - rest ::
                    if before[p] - {peer} == {} then p !in byPort else p in byPort && byPort[p] == before[p] - {peer}
        invariant byPort.Keys <= before.Keys
        decreases rest
      {
        var p :| p in rest;
        var kept := byPort[p] - {peer};
        byPort := if kept == {} then byPort - {p} else byPort[p := kept];
        rest := rest - {p};
      }
      forall p: Port, k
        ensures (p, k) in RevokeGrantee(old(Pairs()), peer) <==> p in byPort && k in byPort[p]
      {
        if p in before && k in before[p] && k != peer {
          assert k in before[p] - {peer};
        }
      }
      SamePairs(RevokeGrantee(old(Pairs()), peer));
    }

    method Allows(port: Port, peer: Key) returns (r: bool)
      ensures r <==> (port, peer) in Pairs()
    {
      r := port in byPort && peer in byPort[port];
    }

    /** The ports granted to `peer`, ascending and without repeats. */
    method GrantedTo(peer: Key) returns (ports: seq<Port>)
      ensures Lists(ports, PortsFor(Pairs(), peer))
      ensures forall p: Port :: p in ports <==> (p, peer) in Pairs()
      ensures forall i, j :: 0 <= i < j < |ports| ==> ports[i] < ports[j]
    {
      var granted := set p <- byPort | peer in byPort[p];
      assert granted == PortsFor(Pairs(), peer) by {
        assert forall p <- granted :: (p, peer) in Pairs();
      }
      ports := SortedPorts(granted);
      ListsHas(ports, granted);
      PortsIff(Pairs(), peer);
    }

    /** The granted ports, ascending and without repeats. */
    method Ports() returns (ports: seq<Port>)
      requires Valid()
      ensures Lists(ports, PortsOf(Pairs()))
      ensures forall p: Port :: p in ports <==> exists k :: (p, k) in Pairs()
      ensures forall i, j :: 0 <= i < j < |ports| ==> ports[i] < ports[j]
    {
      assert byPort.Keys == PortsOf(Pairs()) by {
        forall p <- byPort ensures p in PortsOf(Pairs()) {
          var k :| k in byPort[p];
          assert (p, k) in Pairs();
        }
      }
      ports := SortedPorts(byPort.Keys);
      ListsHas(ports, byPort.Keys);
      PortsIff(Pairs(), Key([]));
    }

    /** Every pair, sorted by port: the nested table flattened. */
    method All() returns (rows: seq<(Port, Key)>)
      ensures Lists(rows, Pairs())
      ensures forall row :: row in rows <==> row in Pairs()
      ensures forall i, j :: 0 <= i < j < |rows| ==> rows[i].0 <= rows[j].0
    {
      rows := [];
      var rest := byPort.Keys;
      while rest != {}
        invariant rest <= byPort.Keys
        invariant multiset(rows) == multiset(set p <- byPort, k <- byPort[p] | p !in rest :: (p, k))
        decreases rest
      {
        var q :| q in rest;
        var grantees := Collect(set k <- byPort[q] :: (q, k));
        ghost var done := set p <- byPort, k <- byPort[p] | p !in rest :: (p, k);
        ghost var mine := set k <- byPort[q] :: (q, k);
        assert done !! mine;
        rows := rows + grantees;
        rest := rest - {q};
        assert (set p <- byPort, k <- byPort[p] | p !in rest :: (p, k)) == done + mine by {
          assert forall g: (Port, Key) :: g in done + mine ==> g.0 in byPort && g.1 in byPort[g.0] && g.0 !in rest;
        }
      }
      assert (set p <- byPort, k <- byPort[p] | p !in rest :: (p, k)) == Pairs();
      var rank := (row: (Port, Key)) => row.0 as nat;
      SortSorts(rows, rank);
      rows := Sort(rows, rank);
      ListsHas(rows, Pairs());
      assert forall i, j :: 0 <= i < j < |rows| ==> rank(rows[i]) <= rank(rows[j]);
    }
  }

  method SortedPorts(elements: set<Port>) returns (ports: seq<Port>)
    ensures Lists(ports, elements)
    ensures forall i, j :: 0 <= i < j < |ports| ==> ports[i] < ports[j]
  {
    ports := Collect(elements);
    var rank := (p: Port) => p as nat;
    SortSorts(ports, rank);
    ports := Sort(ports, rank);
    ListsOnce(ports, elements);
    assert forall i, j :: 0 <= i < j < |ports| ==> rank(ports[i]) <= rank(ports[j]);
  }

  lemma PortsListed(ports: seq<Port>, rel: Relation)
    requires Lists(ports, PortsOf(rel))
    ensures forall p: Port :: p in ports <==> p in PortsOf(rel)
  {
    assert forall p: Port :: p in ports <==> p in multiset(ports);
  }

  // -------------------------------------------------------------- whole logs

  datatype GrantOp = Added(port: Port, key: Key) | Removed(port: Port, grantee: Option<Key>) | Revoked(key: Key)

  function ApplyOp(rel: Relation, op: GrantOp): Relation {
    match op
    case Added(port, key) => Add(rel, port, key)
    case Removed(port, grantee) => Remove(rel, port, grantee)
    case Revoked(key) => RevokeGrantee(rel, key)
  }

  function After(log: seq<GrantOp>): Relation {
    if log == [] then {} else ApplyOp(After(log[..|log| - 1]), log[|log| - 1])
  }

  /** The operation decides whether `port` is granted to `key`. */
  predicate Covers(op: GrantOp, port: Port, key: Key) {
    match op
    case Added(p, k) => p == port && k == key
    case Removed(p, grantee) => p == port && (grantee.None? || grantee.value == key)
    case Revoked(k) => k == key
  }

  /** The last operation of the log that covers the pair is `log[i]`. */
  ghost predicate LastCovering(log: seq<GrantOp>, port: Port, key: Key, i: nat) {
    i < |log| && Covers(log[i], port, key) && forall j :: i < j < |log| ==> !Covers(log[j], port, key)
  }

  /** A tunnel to `port` is served to `key` exactly when the last operation that
      covers the pair granted it. */
  lemma {:induction false} AllowedIffLastAdded(log: seq<GrantOp>, port: Port, key: Key)
    ensures (port, key) in After(log) <==> exists i: nat :: LastCovering(log, port, key, i) && log[i].Added?
    decreases |log|
  {
    if log != [] {
      var n := |log| - 1;
      var front := log[..n];
      AllowedIffLastAdded(front, port, key);
      if Covers(log[n], port, key) {
        assert LastCovering(log, port, key, n);
        assert (port, key) in After(log) <==> log[n].Added?;
      } else {
        assert (port, key) in After(log) <==> (port, key) in After(front);
        if i: nat :| LastCovering(front, port, key, i) && front[i].Added? {
          assert LastCovering(log, port, key, i);
        }
        if i: nat :| LastCovering(log, port, key, i) && log[i].Added? {
          assert LastCovering(front, port, key, i);
        }
      }
    }
  }
}
