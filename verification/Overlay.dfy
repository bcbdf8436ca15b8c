/** What becomes of startup flags: the first request that is written writes them
    too. */
module Overlay {
  import opened Common
  import Enrollment
  import opened PeerTables
  import opened Service
  import opened StateStore
  import opened ControlPlane
  import opened Startup
  import opened Remap
  import opened Lifecycle
  import Grants
  import Registry

  ghost predicate SameAt<V>(a: map<Port, V>, b: map<Port, V>, p: Port) {
    (p in a <==> p in b) && (p in a ==> a[p] == b[p])
  }

  /** What a request itself decides: the grant of `port` to `k`. */
  ghost predicate DecidesGrant(cfg: Config, n: Node, req: Request, port: Port, k: Key) {
    match req
    case Expose(p, to, _, _) => p == port && k in Named(cfg.codec, n, to)
    case Unexpose(p, grantee, _) => p == port && (grantee.Some? ==> cfg.codec.read(grantee.value) == Some(k))
    case RemovePeer(ticket, _) => cfg.codec.read(ticket) == Some(k)
    case _ => false
  }

  predicate DecidesService(req: Request, port: Port) {
    (req.Unexpose? || (req.Expose? && req.backend.Some?)) && req.port == port
  }

  predicate DecidesRemap(req: Request, port: Port) {
    req.Bind? && req.port == port
  }

  /** A request that writes decides nothing else in memory. */
  lemma WritesOnlyItsOwn(cfg: Config, n: Node, req: Request, env: ReqEnv)
    requires Registry.Sound(n.world) && CanMove(n, Serves(req, env)) && Settles(cfg, n, Serves(req, env))
    ensures var n' := Handle(cfg, n, req, env).0;
            && (forall p: Port, k :: !DecidesGrant(cfg, n, req, p, k) ==> ((p, k) in n'.world.grants <==> (p, k) in n.world.grants))
            && (forall p: Port :: !DecidesService(req, p) ==> SameAt(n'.specs, n.specs, p))
            && (forall p: Port :: !DecidesRemap(req, p) ==> SameAt(n'.world.binds, n.world.binds, p))
  {
    match req
    case Bind(port, local, _) => RemapOutcome(n.world, port, local, env.order, env.offers);
    case Expose(port, to, backend, _) => ExposesOnlyNamed(cfg, n, port, to, backend, env);
    case _ =>
  }

  lemma ExposesOnlyNamed(cfg: Config, n: Node, port: Port, to: seq<string>, backend: Option<BackendSpec>, env: ReqEnv)
    requires Enumerates(env.order, n.world.peers.Keys) && env.disk
    requires HandleExpose(cfg, n, port, to, backend, false, env).1.Done?
    ensures var n' := HandleExpose(cfg, n, port, to, backend, false, env).0;
            && n'.world.binds == n.world.binds
            && n'.specs == (if backend.Some? then n.specs[port := backend.value] else n.specs)
            && forall p: Port, k :: !(p == port && k in Named(cfg.codec, n, to)) ==>
                 ((p, k) in n'.world.grants <==> (p, k) in n.world.grants)
  {
    ExposeKeepsItsPromise(cfg, n, port, to, backend, env);
  }

  /** What it writes is everything in memory afterwards. */
  lemma WritesEverything(cfg: Config, n: Node, req: Request, env: ReqEnv)
    requires Inverse(cfg.codec) && CanMove(n, Serves(req, env)) && Settles(cfg, n, Serves(req, env))
    ensures var n' := Handle(cfg, n, req, env).0;
            var s' := Loaded(n'.file);
            Readable(cfg.codec, s'.grants) == n'.world.grants && s'.services == n'.specs && s'.binds == n'.world.binds
  {
    ReadsBack(cfg.codec, Handle(cfg, n, req, env).0.world.grants);
  }

  // --------------------------------------------------- until something is written

  /** No move before `end` wrote the state file or restarted the daemon. */
  ghost predicate NothingWritten(cfg: Config, states: seq<Node>, moves: seq<Move>, end: nat)
    requires Trace(cfg, states, moves) && end <= |moves|
  {
    forall j :: 0 <= j < end ==> !Settles(cfg, states[j], moves[j])
  }

  ghost predicate NeverShut(cfg: Config, states: seq<Node>, moves: seq<Move>, end: nat, port: Port, k: Key)
    requires end <= |moves| < |states|
  {
    forall j :: 0 <= j < end ==> !Shuts(cfg, states[j], moves[j], port, k)
  }

  /** A move that writes nothing changes nothing that would be written, but for the
      grants of those it evicts. */
  lemma UnwrittenMove(cfg: Config, n: Node, m: Move, port: Port, k: Key)
    requires Registry.Sound(n.world) && CanMove(n, m) && !Settles(cfg, n, m)
    ensures var next := Moved(cfg, n, m);
            && next.Some? && next.value.file == n.file && next.value.specs == n.specs && next.value.world.binds == n.world.binds
            && ((port, k) in next.value.world.grants <==> (port, k) in n.world.grants && !Shuts(cfg, n, m, port, k))
  {
    match m
    case Serves(req, env) =>
      RequestGrants(cfg, n, req, env, port, k);
      UnwrittenRequest(cfg, n, req, env);
    case Peers(step) =>
      StepGrants(n.world, step, port, k);
      PeersOnlyShrinkGrants(n.world, step);
  }

  lemma UnwrittenRequest(cfg: Config, n: Node, req: Request, env: ReqEnv)
    requires CanMove(n, Serves(req, env)) && !Settles(cfg, n, Serves(req, env))
    ensures var n' := Handle(cfg, n, req, env).0;
            n'.file == n.file && n'.specs == n.specs && n'.world.binds == n.world.binds && n'.world.grants == n.world.grants
  {
  }

  lemma {:induction false} UnwrittenKeeps(cfg: Config, states: seq<Node>, moves: seq<Move>, end: nat)
    requires Trace(cfg, states, moves) && end <= |moves| && Registry.Sound(states[0].world)
    requires NothingWritten(cfg, states, moves, end)
    ensures var n0, n := states[0], states[end];
            && Registry.Sound(n.world) && n.specs == n0.specs && n.world.binds == n0.world.binds
            && forall p: Port, k :: (p, k) in n.world.grants <==>
                 (p, k) in n0.world.grants && NeverShut(cfg, states, moves, end, p, k)
  {
    SoundThroughout(cfg, states, moves, end);
    if end > 0 {
      UnwrittenKeeps(cfg, states, moves, end - 1);
      var n, n' := states[end - 1], states[end];
      UnwrittenMove(cfg, n, moves[end - 1], 0, Key([]));
      forall p: Port, k
        ensures (p, k) in n'.world.grants <==> (p, k) in states[0].world.grants && NeverShut(cfg, states, moves, end, p, k)
      {
        UnwrittenMove(cfg, n, moves[end - 1], p, k);
      }
    }
  }

  // ------------------------------------------------------------ the first write

  /** The first request that is written after a start, whatever peers and other
      requests did in between, writes the startup flags with it. Apart from what the
      request itself decides, the stored services and remaps are what they were
      before the start, and the stored grants those of them that were not shut since,
      exactly when the flags declared, remapped and granted nothing that was not
      stored, but for grants shut since. */
  lemma OverlayForgottenIff(cfg: Config, pins: seq<Enrollment.Pin>, file: Option<Stored>, flags: Flags, boot: BootEnv,
                            states: seq<Node>, moves: seq<Move>, req: Request, env: ReqEnv)
    requires Inverse(cfg.codec) && Start(cfg, pins, file, flags, boot).Some?
    requires Trace(cfg, states, moves) && states[0] == Start(cfg, pins, file, flags, boot).value
    requires NothingWritten(cfg, states, moves, |moves|)
    requires CanMove(states[|moves|], Serves(req, env)) && Settles(cfg, states[|moves|], Serves(req, env))
    ensures var s, s' := Loaded(file), Loaded(Handle(cfg, states[|moves|], req, env).0.file);
            && (GrantsAsStored(cfg, states, moves, req, s, s') <==> FlagGrantsStored(cfg, states, moves, flags, req, s))
            && ((forall p: Port :: !DecidesService(req, p) ==> SameAt(s'.services, s.services, p)) <==>
                  FlagServicesStored(flags, req, s))
            && ((forall p: Port :: !DecidesRemap(req, p) ==> SameAt(s'.binds, s.binds, p)) <==>
                  FlagRemapsStored(flags, req, s))
  {
    var n0, n, s := states[0], states[|moves|], Loaded(file);
    OverlayLaw(cfg, pins, file, flags, boot);
    StartIsSound(cfg, pins, file, flags, boot);
    UnwrittenKeeps(cfg, states, moves, |moves|);
    WritesOnlyItsOwn(cfg, n, req, env);
    WritesEverything(cfg, n, req, env);
    var n' := Handle(cfg, n, req, env).0;
    GrantsStoredIff(cfg, states, moves, flags, req, s, Loaded(n'.file));
    ServicesStoredIff(flags, req, s, n0, n'.specs);
    RemapsStoredIff(flags, req, s, n0, n'.world.binds);
  }

  /** The grant is not decided by the request, and was not shut since the start. */
  ghost predicate LeftAlone(cfg: Config, states: seq<Node>, moves: seq<Move>, req: Request, port: Port, k: Key)
    requires |states| == |moves| + 1
  {
    !DecidesGrant(cfg, states[|moves|], req, port, k) && NeverShut(cfg, states, moves, |moves|, port, k)
  }

  ghost predicate GrantsAsStored(cfg: Config, states: seq<Node>, moves: seq<Move>, req: Request, s: Stored, s': Stored)
    requires |states| == |moves| + 1
  {
    forall p: Port, k :: LeftAlone(cfg, states, moves, req, p, k) ==>
      ((p, k) in Readable(cfg.codec, s'.grants) <==> (p, k) in Readable(cfg.codec, s.grants))
  }

  ghost predicate GrantedByFlags(cfg: Config, n0: Node, flags: Flags, port: Port, k: Key) {
    (port in flags.ports || port in n0.specs) && k in Addressed(cfg.codec, flags.peers)
  }

  ghost predicate FlagGrantsStored(cfg: Config, states: seq<Node>, moves: seq<Move>, flags: Flags, req: Request, s: Stored)
    requires |states| == |moves| + 1
  {
    forall p: Port, k :: LeftAlone(cfg, states, moves, req, p, k) && GrantedByFlags(cfg, states[0], flags, p, k) ==>
      (p, k) in Readable(cfg.codec, s.grants)
  }

  ghost predicate FlagServicesStored(flags: Flags, req: Request, s: Stored) {
    forall i :: 0 <= i < |flags.services| && !DecidesService(req, flags.services[i].0) ==>
      flags.services[i].0 in s.services && s.services[flags.services[i].0] == flags.services[i].1
  }

  /** For each port remapped by flags, the last one. */
  ghost predicate FlagRemapsStored(flags: Flags, req: Request, s: Stored) {
    forall i: nat :: IsLast(flags.binds, i) && !DecidesRemap(req, flags.binds[i].0) ==>
      flags.binds[i].0 in s.binds && s.binds[flags.binds[i].0] == flags.binds[i].1
  }

  lemma GrantsStoredIff(cfg: Config, states: seq<Node>, moves: seq<Move>, flags: Flags, req: Request, s: Stored, s': Stored)
    requires |states| == |moves| + 1
    requires forall p: Port, k :: (p, k) in states[0].world.grants <==>
               (p, k) in Readable(cfg.codec, s.grants) || GrantedByFlags(cfg, states[0], flags, p, k)
    requires forall p: Port, k :: LeftAlone(cfg, states, moves, req, p, k) ==>
               ((p, k) in Readable(cfg.codec, s'.grants) <==> (p, k) in states[0].world.grants)
    ensures GrantsAsStored(cfg, states, moves, req, s, s') <==> FlagGrantsStored(cfg, states, moves, flags, req, s)
  {
  }

  lemma ServicesStoredIff(flags: Flags, req: Request, s: Stored, n: Node, specs: Specs)
    requires Overlaid(s, flags, n) && forall p: Port :: !DecidesService(req, p) ==> SameAt(specs, n.specs, p)
    ensures (forall p: Port :: !DecidesService(req, p) ==> SameAt(specs, s.services, p)) <==> FlagServicesStored(flags, req, s)
  {
    if FlagServicesStored(flags, req, s) {
      forall p: Port | !DecidesService(req, p) ensures SameAt(specs, s.services, p) {
        if Claims(flags.services, p) {
          var i :| 0 <= i < |flags.services| && flags.services[i].0 == p;
        }
      }
    }
    if forall p: Port :: !DecidesService(req, p) ==> SameAt(specs, s.services, p) {
      forall i | 0 <= i < |flags.services| && !DecidesService(req, flags.services[i].0)
        ensures flags.services[i].0 in s.services && s.services[flags.services[i].0] == flags.services[i].1
      {
        assert SameAt(specs, s.services, flags.services[i].0) && SameAt(specs, n.specs, flags.services[i].0);
      }
    }
  }

  lemma LastRow(rows: seq<(Port, Port)>, p: Port) returns (i: nat)
    requires exists j :: 0 <= j < |rows| && rows[j].0 == p
    ensures IsLast(rows, i) && rows[i].0 == p
  {
    i := |rows| - 1;
    while rows[i].0 != p
      invariant i < |rows| && forall j :: i < j < |rows| ==> rows[j].0 != p
      decreases i
    {
      assert i > 0;
      i := i - 1;
    }
  }

  lemma RemapsStoredIff(flags: Flags, req: Request, s: Stored, n: Node, binds: map<Port, Port>)
    requires Overlaid(s, flags, n) && forall p: Port :: !DecidesRemap(req, p) ==> SameAt(binds, n.world.binds, p)
    ensures (forall p: Port :: !DecidesRemap(req, p) ==> SameAt(binds, s.binds, p)) <==> FlagRemapsStored(flags, req, s)
  {
    if FlagRemapsStored(flags, req, s) {
      forall p: Port | !DecidesRemap(req, p) ensures SameAt(binds, s.binds, p) {
        if exists j :: 0 <= j < |flags.binds| && flags.binds[j].0 == p {
          var i := LastRow(flags.binds, p);
        }
      }
    }
    if forall p: Port :: !DecidesRemap(req, p) ==> SameAt(binds, s.binds, p) {
      forall i: nat | IsLast(flags.binds, i) && !DecidesRemap(req, flags.binds[i].0)
        ensures flags.binds[i].0 in s.binds && s.binds[flags.binds[i].0] == flags.binds[i].1
      {
        assert SameAt(binds, s.binds, flags.binds[i].0) && SameAt(binds, n.world.binds, flags.binds[i].0);
      }
    }
  }

  /** For instance: a daemon started over no file with 80 remapped to 8080 by a flag,
      and told to remap 90, has the first remap in its file as well. */
  lemma FlagIsWritten(cfg: Config, boot: BootEnv, env: ReqEnv)
    requires env.disk && env.order == []
    ensures var n := Start(cfg, [], None, Flags([], [(80, 8080)], {}, [], None), boot).value;
            && n.world.peers.Keys == {}
            && 80 in Loaded(Handle(cfg, n, Bind(90, Some(9090), false), env).0.file).binds
  {
    var flags := Flags([], [(80, 8080)], {}, [], None);
    var n := Start(cfg, [], None, flags, boot).value;
    OverlayLaw(cfg, [], None, flags, boot);
    StartIsSound(cfg, [], None, flags, boot);
    assert IsLast(flags.binds, 0);
    RemapOutcome(n.world, 90, Some(9090), [], env.offers);
  }
}
