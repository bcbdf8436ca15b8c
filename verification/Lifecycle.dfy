/** What a declaration means for the peers it is about, from the request that
    makes it to the connections and restarts that come after. */
module Lifecycle {
  import opened Common
  import opened Enrollment
  import opened PeerTables
  import opened ControlPlane
  import opened Startup
  import opened Announcement
  import opened Remap
  import opened Latch
  import Grants
  import Registry

  /** Adding a peer succeeds exactly when its key can be read, is new, and is
      reached; then it is registered over that connection, as one this side dials,
      and nothing else changed. Each failure has its own kind. */
  lemma AddPeerOutcome(cfg: Config, n: Node, ticket: string, env: ReqEnv)
    requires Enumerates(env.order, n.world.peers.Keys)
    ensures var (n', r) := Handle(cfg, n, AddPeer(ticket, false), env);
            match cfg.codec.read(ticket)
            case None => r == Failed(Invalid, BadKey(ticket)) && n' == n
            case Some(k) =>
              && (r.Done? <==> k !in n.world.peers && env.reached.Some?)
              && (r.Failed? ==> n' == n && r.kind == if k in n.world.peers then Conflict else NotFound)
              && (r.Done? ==>
                    && n' == n.(world := n.world.(peers := n'.world.peers))
                    && n'.world.peers.Keys == n.world.peers.Keys + {k}
                    && (forall x <- n.world.peers :: n'.world.peers[x] == n.world.peers[x])
                    && n'.world.peers[k] == PeerRec(None, true, None, env.reached, [], map[]))
  {
  }

  /** Nothing of `x` is left but pins in another spelling than the printed one. */
  ghost predicate Forgotten(w: World, x: Key) {
    && x !in w.peers && (forall pin <- w.pins :: Names(pin.text, x) ==> pin.text.Respelled?)
    && (forall p: Port :: (p, x) !in w.grants)
    && (forall l <- w.listeners :: w.listeners[l].0 != x)
  }

  lemma EvictedIsForgotten(w: World, k: Key)
    requires Registry.Sound(w)
    ensures Forgotten(Evict(w, k), k)
  {
    EvictListeners(w, k);
    WithoutPinsKeeps(w.pins, {k});
  }

  /** A removed peer is gone. Over a restart neither file hands back a grant or a
      socket of it; the pin file registers it again exactly when it was pinned in
      another spelling than the printed one. */
  lemma RemovedPeerReturnsIff(cfg: Config, n: Node, ticket: string, env: ReqEnv, boot: BootEnv)
    requires Inverse(cfg.codec) && Registry.Sound(n.world) && InStep(cfg, n)
    requires CanMove(n, Serves(RemovePeer(ticket, false), env))
    requires Handle(cfg, n, RemovePeer(ticket, false), env).1.Done?
    ensures var n' := Handle(cfg, n, RemovePeer(ticket, false), env).0;
            var again := Start(cfg, n'.world.pins, n'.file, NO_FLAGS, boot);
            var k := cfg.codec.read(ticket).value;
            && Forgotten(n'.world, k) && again.Some?
            && (if RespelledIn(n.world.pins, k) then k in again.value.world.peers else Forgotten(again.value.world, k))
            && (forall p: Port :: (p, k) !in again.value.world.grants)
  {
    var req := RemovePeer(ticket, false);
    var n' := Handle(cfg, n, req, env).0;
    var k := cfg.codec.read(ticket).value;
    EvictedIsForgotten(n.world, k);
    RequestKeepsSound(cfg, n, req, env);
    RequestKeepsInStep(cfg, n, req, env);
    BareStart(cfg, n'.world.pins, n'.file, boot);
    Registry.PinnedIsPins(n'.world.pins);
    Registry.PinnedKeysWithout(n.world.pins, {k});
  }

  /** A connection from a registered peer is installed, whatever it presents, and
      spends nothing. */
  ghost predicate LetsIn(w: World, k: Key) {
    forall conn: ConnId, msgs, now: Instant, check, env ::
      var w' := Registry.HandleConnection(w, k, conn, msgs, now, check, env);
      k in w'.peers && w'.peers[k].conn == Some(conn) && w'.tokens == w.tokens && w'.pins == w.pins
  }

  /** A pinned key needs no token, now and after any restart. */
  lemma PinAuthorizes(cfg: Config, n: Node, key: string, name: string, env: ReqEnv, boot: BootEnv)
    requires Inverse(cfg.codec) && Registry.Sound(n.world) && InStep(cfg, n)
    requires CanMove(n, Serves(Request.Pin(key, name, false), env))
    requires Handle(cfg, n, Request.Pin(key, name, false), env).1.Done?
    ensures var n' := Handle(cfg, n, Request.Pin(key, name, false), env).0;
            var again := Start(cfg, n'.world.pins, n'.file, NO_FLAGS, boot);
            var k := cfg.codec.read(key).value;
            LetsIn(n'.world, k) && again.Some? && LetsIn(again.value.world, k)
  {
    var req := Request.Pin(key, name, false);
    var n' := Handle(cfg, n, req, env).0;
    var k := cfg.codec.read(key).value;
    RequestKeepsInStep(cfg, n, req, env);
    PinRegisters(n.world, TextOf(cfg.codec, key), name, boot.foreign);
    BareStart(cfg, n'.world.pins, n'.file, boot);
  }

  lemma PinRegisters(w: World, text: KeyText, name: string, foreign: set<Port>)
    requires !text.NoKey?
    ensures var w' := Registry.PinPeer(w, text, name);
            text.key in w'.peers && text.key in Registry.Boot(w'.pins, foreign).peers
  {
    Registry.PinnedKeysWith(w.pins, text, name);
    Registry.PinnedIsPins(Registry.PinPeer(w, text, name).pins);
  }

  // ------------------------------------------------------ who changes a grant

  /** The peers a step evicts. */
  ghost function EvictedBy(w: World, step: Registry.Step): set<Key> {
    match step
    case Announces(x, ports, env) => Lost(w, x, ports, env)
    case Connects(x, conn, msgs, now, check, env) =>
      var early := Registry.Presented(msgs, None).1;
      if Enrolls(w, step) && early.Some? then
        Lost(Registry.Enrolled(w, x, conn, msgs, now, check), x, early.value, env)
      else {}
    case _ => {}
  }

  ghost predicate Enrolls(w: World, step: Registry.Step)
    requires step.Connects?
  {
    step.k !in w.peers && Registry.Enrollee(w, step.k, step.msgs, step.now, step.check).Some?
  }

  /** The move opens `port` to `k`: an exposure that succeeds and names it, or a
      restart whose file has it. */
  ghost predicate Opens(cfg: Config, n: Node, m: Move, port: Port, k: Key)
    requires CanMove(n, m)
  {
    match m
    case Serves(req, env) =>
      && req.Expose? && !req.dryRun && req.port == port && k in Named(cfg.codec, n, req.to)
      && Handle(cfg, n, req, env).1.Done?
    case Peers(_) => false
    case Reboots(_) => (port, k) in Readable(cfg.codec, Loaded(n.file).grants)
  }

  /** The move shuts `port` to `k`: it revokes it by name or from everyone, or
      removes or evicts `k`. */
  ghost predicate Shuts(cfg: Config, n: Node, m: Move, port: Port, k: Key) {
    match m
    case Serves(Unexpose(p, grantee, dryRun), _) =>
      !dryRun && p == port && (grantee.Some? ==> cfg.codec.read(grantee.value) == Some(k))
    case Serves(RemovePeer(ticket, dryRun), _) => !dryRun && cfg.codec.read(ticket) == Some(k) && k in n.world.peers
    case Peers(step) => k in EvictedBy(n.world, step)
    case _ => false
  }

  /** No grant appears but by declaration, and none disappears but by being revoked
      or by the eviction of its grantee: after a move a port is granted to a key
      exactly when the move opened it, or it was granted and the move did not shut
      it. */
  lemma GrantedAfterMoveIff(cfg: Config, n: Node, m: Move, port: Port, k: Key)
    requires Inverse(cfg.codec) && Registry.Sound(n.world) && InStep(cfg, n) && CanMove(n, m)
    ensures var next := Moved(cfg, n, m);
            && next.Some?
            && ((port, k) in next.value.world.grants <==>
                  Opens(cfg, n, m, port, k) || ((port, k) in n.world.grants && !Shuts(cfg, n, m, port, k)))
  {
    match m
    case Serves(req, env) => RequestGrants(cfg, n, req, env, port, k);
    case Peers(step) => StepGrants(n.world, step, port, k);
    case Reboots(boot) => BareStart(cfg, n.world.pins, n.file, boot);
  }

  lemma RequestGrants(cfg: Config, n: Node, req: Request, env: ReqEnv, port: Port, k: Key)
    requires Registry.Sound(n.world) && CanMove(n, Serves(req, env))
    ensures var m := Serves(req, env);
            (port, k) in Handle(cfg, n, req, env).0.world.grants <==>
              Opens(cfg, n, m, port, k) || ((port, k) in n.world.grants && !Shuts(cfg, n, m, port, k))
  {
    match req
    case Expose(p, to, backend, dryRun) =>
      var reply := Grantees(cfg.codec, to, env.order);
      if reply.Ok? {
        if to == [] && env.order != [] {
          assert (set x <- env.order) == n.world.peers.Keys;
        }
        GranteesAreNamed(cfg.codec, to, env.order, reply.value, Named(cfg.codec, n, to));
        assert k in reply.value <==> k in Named(cfg.codec, n, to);
      }
    case Bind(p, local, dryRun) =>
      RemapOutcome(n.world, p, local, env.order, env.offers);
    case _ =>
  }

  /** What peers do on their own revokes exactly the grants of those evicted, who
      are not registered afterwards. */
  lemma StepGrants(w: World, step: Registry.Step, port: Port, k: Key)
    requires Registry.Sound(w) && Registry.Possible(w, step)
    requires step.Announces? || step.Connects? || step.Refuses?
    ensures var w' := Registry.Apply(w, step);
            && ((port, k) in w'.grants <==> (port, k) in w.grants && k !in EvictedBy(w, step))
            && (k in EvictedBy(w, step) ==> k !in w'.peers)
  {
    match step
    case Announces(x, ports, env) => RestOfPass(w, x, ports, env);
    case Connects(x, conn, msgs, now, check, env) => ConnectionGrants(w, step, port, k);
    case Refuses(_) =>
  }

  lemma ConnectionGrants(w: World, step: Registry.Step, port: Port, k: Key)
    requires Registry.Sound(w) && step.Connects?
    ensures var w' := Registry.Apply(w, step);
            && ((port, k) in w'.grants <==> (port, k) in w.grants && k !in EvictedBy(w, step))
            && (k in EvictedBy(w, step) ==> k !in w'.peers)
  {
    Registry.ConnectionCases(w, step.k, step.conn, step.msgs, step.now, step.check, step.env);
    var early := Registry.Presented(step.msgs, None).1;
    if Enrolls(w, step) && early.Some? {
      RestOfPass(Registry.Enrolled(w, step.k, step.conn, step.msgs, step.now, step.check), step.k, early.value, step.env);
    }
  }

  // -------------------------------------------------------------- whole runs

  /** The states a run goes through. */
  ghost predicate Trace(cfg: Config, states: seq<Node>, moves: seq<Move>) {
    && |states| == |moves| + 1
    && forall i :: 0 <= i < |moves| ==> CanMove(states[i], moves[i]) && Moved(cfg, states[i], moves[i]) == Some(states[i + 1])
  }

  /** Every run goes through some. */
  lemma {:induction false} RunHasTrace(cfg: Config, n: Node, moves: seq<Move>, n': Node) returns (states: seq<Node>)
    requires Runs(cfg, n, moves, Some(n'))
    ensures Trace(cfg, states, moves) && states[0] == n && states[|moves|] == n'
    decreases |moves|
  {
    if moves == [] {
      states := [n];
    } else {
      var rest := RunHasTrace(cfg, Moved(cfg, n, moves[0]).value, moves[1..], n');
      states := [n] + rest;
    }
  }

  /** For each move of a run, whether it opens `port` to `k`. */
  ghost function Openings(cfg: Config, states: seq<Node>, moves: seq<Move>, port: Port, k: Key): seq<bool>
    requires Trace(cfg, states, moves)
  {
    seq(|moves|, i requires 0 <= i < |moves| && Trace(cfg, states, moves) => Opens(cfg, states[i], moves[i], port, k))
  }

  /** And whether it shuts it. */
  ghost function Shuttings(cfg: Config, states: seq<Node>, moves: seq<Move>, port: Port, k: Key): seq<bool>
    requires Trace(cfg, states, moves)
  {
    seq(|moves|, i requires 0 <= i < |moves| && Trace(cfg, states, moves) => Shuts(cfg, states[i], moves[i], port, k))
  }

  /** Over a whole run, at any point of it: a tunnel to `port` is served to `k`
      exactly when some request or restart opened it and nothing after that revoked
      it or removed or evicted `k`, or it was granted at the start and nothing did
      since. */
  lemma ServedIffLastOpened(cfg: Config, states: seq<Node>, moves: seq<Move>, end: nat, port: Port, k: Key)
    requires Inverse(cfg.codec) && Trace(cfg, states, moves) && end <= |moves|
    requires Registry.Sound(states[0].world) && InStep(cfg, states[0])
    ensures var on, off := Openings(cfg, states, moves, port, k), Shuttings(cfg, states, moves, port, k);
            (port, k) in states[end].world.grants <==>
              (exists i: nat :: LastOn(on, off, i, end)) || ((port, k) in states[0].world.grants && NeverOff(off, end))
  {
    var on, off := Openings(cfg, states, moves, port, k), Shuttings(cfg, states, moves, port, k);
    var held := seq(|states|, i requires 0 <= i < |states| => (port, k) in states[i].world.grants);
    forall i | 0 <= i < |moves| ensures held[i + 1] <==> on[i] || (held[i] && !off[i]) {
      InStepThroughout(cfg, states, moves, i);
      assert Moved(cfg, states[i], moves[i]) == Some(states[i + 1]);
      GrantedAfterMoveIff(cfg, states[i], moves[i], port, k);
    }
    OnIffLastOn(held, on, off, end);
  }

  /** The file stays in step all along. */
  lemma {:induction false} InStepThroughout(cfg: Config, states: seq<Node>, moves: seq<Move>, i: nat)
    requires Inverse(cfg.codec) && Trace(cfg, states, moves) && i <= |moves|
    requires Registry.Sound(states[0].world) && InStep(cfg, states[0])
    ensures Registry.Sound(states[i].world) && InStep(cfg, states[i])
  {
    if i > 0 {
      var j := i - 1;
      InStepThroughout(cfg, states, moves, j);
      assert Moved(cfg, states[j], moves[j]) == Some(states[j + 1]);
      MoveKeepsInStep(cfg, states[j], moves[j]);
    }
  }

  /** The tables stay sound all along. */
  lemma {:induction false} SoundThroughout(cfg: Config, states: seq<Node>, moves: seq<Move>, i: nat)
    requires Trace(cfg, states, moves) && i <= |moves| && Registry.Sound(states[0].world)
    ensures Registry.Sound(states[i].world)
  {
    if i > 0 {
      SoundThroughout(cfg, states, moves, i - 1);
      var j := i - 1;
      assert Moved(cfg, states[j], moves[j]) == Some(states[j + 1]);
      MoveKeepsSound(cfg, states[j], moves[j]);
    }
  }

  lemma MoveKeepsSound(cfg: Config, n: Node, m: Move)
    requires Registry.Sound(n.world) && CanMove(n, m) && Moved(cfg, n, m).Some?
    ensures Registry.Sound(Moved(cfg, n, m).value.world)
  {
    match m
    case Serves(req, env) => RequestKeepsSound(cfg, n, req, env);
    case Peers(step) => Registry.StepKeepsSound(n.world, step);
    case Reboots(boot) => StartIsSound(cfg, n.world.pins, n.file, NO_FLAGS, boot);
  }
}
