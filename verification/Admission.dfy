/** Who may come in: over whole runs, how every registered peer came to be admitted,
    and when a minted token admits one. */
module Admission {
  import opened Common
  import opened Enrollment
  import opened PeerTables
  import opened ControlPlane
  import opened Startup
  import opened Announcement
  import opened Remap
  import opened Lifecycle
  import opened Latch
  import Registry
  import StateStore

  // ------------------------------------------------------------------ tokens

  /** The move is a connection from an unknown peer that presents `token`. */
  ghost predicate Presents(n: Node, m: Move, token: Token) {
    && m.Peers? && m.step.Connects? && m.step.k !in n.world.peers
    && Registry.Presented(m.step.msgs, None).0 == Some(token)
  }

  ghost predicate Mints(m: Move, token: Token) {
    m.Serves? && m.req.GrantToken? && m.env.token == token
  }

  /** A connection, which drops expired tokens, happens no later than `later`. */
  ghost predicate NotAfter(m: Move, later: Instant) {
    m.Peers? && m.step.Connects? ==> m.step.now <= later
  }

  /** What a move does to the tokens: a mint adds one, a restart forgets all, and a
      connection that presents one drops it and every expired one. */
  lemma TokensAfterMove(cfg: Config, n: Node, m: Move)
    requires Registry.Sound(n.world) && CanMove(n, m) && Moved(cfg, n, m).Some?
    ensures Moved(cfg, n, m).value.world.tokens == TokensAfter(n, m)
  {
    match m
    case Serves(req, env) => RequestTokens(cfg, n, req, env);
    case Peers(step) => StepTokens(n.world, step);
    case Reboots(boot) => StartTokens(cfg, n.world.pins, n.file, boot);
  }

  ghost function TokensAfter(n: Node, m: Move): Pending {
    match m
    case Serves(GrantToken(name), env) => MintToken(n.world.tokens, env.token, name, TOKEN_TTL, env.now)
    case Peers(step) => StepTokensAfter(n.world, step)
    case Reboots(_) => map[]
    case _ => n.world.tokens
  }

  ghost function StepTokensAfter(w: World, step: Registry.Step): Pending {
    if step.Connects? && step.k !in w.peers && Registry.Presented(step.msgs, None).0.Some? then
      ClaimToken(w.tokens, Registry.Presented(step.msgs, None).0.value, step.now).0
    else w.tokens
  }

  lemma RequestTokens(cfg: Config, n: Node, req: Request, env: ReqEnv)
    requires Registry.Sound(n.world) && CanMove(n, Serves(req, env))
    ensures Handle(cfg, n, req, env).0.world.tokens == TokensAfter(n, Serves(req, env))
  {
    if req.Bind? {
      RemapOutcome(n.world, req.port, req.local, env.order, env.offers);
    }
  }

  lemma StepTokens(w: World, step: Registry.Step)
    requires Registry.Sound(w) && Registry.Possible(w, step)
    requires step.Announces? || step.Connects? || step.Refuses?
    ensures Registry.Apply(w, step).tokens == StepTokensAfter(w, step)
  {
    match step
    case Announces(x, ports, env) => RestOfPass(w, x, ports, env);
    case Connects(x, conn, msgs, now, check, env) => ConnectionTokens(w, x, conn, msgs, now, check, env);
    case Refuses(_) =>
  }

  lemma ConnectionTokens(w: World, x: Key, conn: ConnId, msgs: seq<Registry.Message>, now: Instant, check: set<Key>, env: Env)
    requires Registry.Sound(w)
    ensures Registry.HandleConnection(w, x, conn, msgs, now, check, env).tokens ==
            StepTokensAfter(w, Registry.Connects(x, conn, msgs, now, check, env))
  {
    Registry.ConnectionCases(w, x, conn, msgs, now, check, env);
    var early := Registry.Presented(msgs, None).1;
    if x !in w.peers && Registry.Enrollee(w, x, msgs, now, check).Some? && early.Some? {
      RestOfPass(Registry.Enrolled(w, x, conn, msgs, now, check), x, early.value, env);
    }
  }

  lemma StartTokens(cfg: Config, pins: seq<Enrollment.Pin>, file: Option<StateStore.Stored>, boot: BootEnv)
    requires Start(cfg, pins, file, NO_FLAGS, boot).Some?
    ensures Start(cfg, pins, file, NO_FLAGS, boot).value.world.tokens == map[]
  {
  }

  /** Nothing from move `i` on and before `end` presents or mints `token`, restarts
      the daemon, or happens after `later`. */
  ghost predicate Undisturbed(states: seq<Node>, moves: seq<Move>, i: nat, end: nat, token: Token, later: Instant)
    requires end <= |moves| < |states|
  {
    forall j :: i <= j < end ==>
      !Presents(states[j], moves[j], token) && !Mints(moves[j], token) && !moves[j].Reboots? && NotAfter(moves[j], later)
  }

  /** A claim of `token` at `later` yields `name` exactly before it expires. */
  ghost predicate Answers(tokens: Pending, token: Token, entry: PendingToken, later: Instant) {
    && (later < entry.expires ==> token in tokens)
    && (token in tokens ==> tokens[token] == entry)
  }

  lemma {:induction false} StaysClaimable(cfg: Config, states: seq<Node>, moves: seq<Move>, i: nat, end: nat, later: Instant)
    requires Trace(cfg, states, moves) && i < end <= |moves| && Registry.Sound(states[0].world)
    requires moves[i].Serves? && moves[i].req.GrantToken?
    requires Undisturbed(states, moves, i + 1, end, moves[i].env.token, later)
    ensures Answers(states[end].world.tokens, moves[i].env.token, Minted(moves[i]), later)
  {
    var last := end - 1;
    SoundThroughout(cfg, states, moves, last);
    assert Moved(cfg, states[last], moves[last]) == Some(states[last + 1]);
    TokensAfterMove(cfg, states[last], moves[last]);
    if i < last {
      StaysClaimable(cfg, states, moves, i, last, later);
    }
  }

  ghost function Minted(m: Move): PendingToken
    requires m.Serves? && m.req.GrantToken?
  {
    PendingToken(m.req.name, m.env.now + TOKEN_TTL)
  }

  /** A token minted by request admits the first unknown peer that presents it,
      whatever else happened in between, exactly when it does so within the token's
      time to live, and no port it announced before the token is held by a peer that
      answers the probe. It is then pinned under the token's label, unless the
      announcement that follows rejects it, which happens exactly when a peer that is
      live by then stands in its way. A peer that is not registered in the end is
      closed, and its key pinned in no row that was not there. Nobody can enroll with
      the token afterwards. */
  lemma MintedTokenEnrollsIff(cfg: Config, states: seq<Node>, moves: seq<Move>, i: nat, k: Key, conn: ConnId,
                              msgs: seq<Registry.Message>, early: Option<seq<Port>>, later: Instant, check: set<Key>, pass: Env)
    requires Trace(cfg, states, moves) && Registry.Sound(states[0].world)
    requires i < |moves| && moves[i].Serves? && moves[i].req.GrantToken?
    requires Undisturbed(states, moves, i + 1, |moves|, moves[i].env.token, later)
    requires k !in states[|moves|].world.peers
    requires Registry.Says(msgs, moves[i].env.token, early)
    ensures var w, name := states[|moves|].world, moves[i].req.name;
            var w' := Registry.HandleConnection(w, k, conn, msgs, later, check, pass);
            && (k in w'.peers <==>
                  && later < moves[i].env.now + 5 * 60
                  && !(early.Some? && exists p <- early.value :: Contested(w, k, p, check))
                  && !(early.Some? && exists p <- early.value :: Contested(w, k, p, pass.alive)))
            && (k in w'.peers ==> Enrollment.Pin(Printed(k), name) in w'.pins && w'.peers[k].name == Some(name)
                                  && w'.peers[k].conn == Some(conn)
                                  && w'.peers[k].exposed == if early.Some? then early.value else [])
            && (k !in w'.peers ==> conn in w'.closed
                                   && forall pin <- w'.pins :: Names(pin.text, k) ==> pin in w.pins)
            && SpentFor(w', moves[i].env.token)
  {
    var w, token := states[|moves|].world, moves[i].env.token;
    SoundThroughout(cfg, states, moves, |moves|);
    Registry.PresentedIff(msgs, token, early);
    StaysClaimable(cfg, states, moves, i, |moves|, later);
    FirstPresenter(w, k, conn, msgs, later, check, pass, token, early, Minted(moves[i]));
    TokenIsSpent(w, k, conn, msgs, later, check, pass, token);
  }

  lemma FirstPresenter(w: World, k: Key, conn: ConnId, msgs: seq<Registry.Message>, now: Instant,
                       check: set<Key>, pass: Env, token: Token, early: Option<seq<Port>>, entry: PendingToken)
    requires Registry.Sound(w) && k !in w.peers && Registry.Says(msgs, token, early) && Answers(w.tokens, token, entry, now)
    ensures var w' := Registry.HandleConnection(w, k, conn, msgs, now, check, pass);
            && (k in w'.peers <==>
                  && now < entry.expires
                  && !(early.Some? && exists p <- early.value :: Contested(w, k, p, check))
                  && !(early.Some? && exists p <- early.value :: Contested(w, k, p, pass.alive)))
            && (k in w'.peers ==> Enrollment.Pin(Printed(k), entry.name) in w'.pins && w'.peers[k].name == Some(entry.name)
                                  && w'.peers[k].conn == Some(conn)
                                  && w'.peers[k].exposed == if early.Some? then early.value else [])
            && (k !in w'.peers ==> conn in w'.closed
                                   && forall pin <- w'.pins :: Names(pin.text, k) ==> pin in w.pins)
  {
    Registry.PresentedIff(msgs, token, early);
    Registry.CollidesIff(w, k, early, check);
    if now < entry.expires && !(early.Some? && exists p <- early.value :: Contested(w, k, p, check)) {
      Registry.EnrolledOutcome(w, k, conn, msgs, now, check, pass, token, early, entry.name);
    } else {
      Registry.RefusedChangesNothing(w, k, conn, msgs, now, check, pass);
    }
  }

  lemma TokenIsSpent(w: World, k: Key, conn: ConnId, msgs: seq<Registry.Message>, now: Instant,
                     check: set<Key>, env: Env, token: Token)
    requires Registry.Sound(w) && k !in w.peers && Registry.Presented(msgs, None).0 == Some(token)
    ensures token !in Registry.HandleConnection(w, k, conn, msgs, now, check, env).tokens
  {
    var step := Registry.Connects(k, conn, msgs, now, check, env);
    StepTokens(w, step);
  }

  /** No unknown peer can enroll with `token` any more. */
  ghost predicate SpentFor(w: World, token: Token) {
    forall k, conn: ConnId, msgs, now: Instant, check, env ::
      k !in w.peers && Registry.Presented(msgs, None).0 == Some(token) ==>
        k !in Registry.HandleConnection(w, k, conn, msgs, now, check, env).peers
  }

  /** `token` was minted by move `j`, and nothing from there to move `i` presented it,
      minted it again or restarted the daemon. */
  ghost predicate MintedBy(states: seq<Node>, moves: seq<Move>, j: nat, i: nat, token: Token)
    requires i <= |moves| < |states|
  {
    && j < i && Mints(moves[j], token)
    && forall l :: j < l < i ==> !Presents(states[l], moves[l], token) && !Mints(moves[l], token) && !moves[l].Reboots?
  }

  /** Every pending token has such a mint. */
  lemma {:induction false} PendingWasMinted(cfg: Config, states: seq<Node>, moves: seq<Move>, i: nat, token: Token) returns (j: nat)
    requires Trace(cfg, states, moves) && i <= |moves| && Registry.Sound(states[0].world)
    requires states[0].world.tokens == map[] && token in states[i].world.tokens
    ensures MintedBy(states, moves, j, i, token) && states[i].world.tokens[token] == Minted(moves[j])
  {
    var last := i - 1;
    SoundThroughout(cfg, states, moves, last);
    assert Moved(cfg, states[last], moves[last]) == Some(states[last + 1]);
    TokensAfterMove(cfg, states[last], moves[last]);
    if Mints(moves[last], token) {
      j := last;
    } else {
      j := PendingWasMinted(cfg, states, moves, last, token);
    }
  }

  // -------------------------------------------------------------- admissions

  /** The daemon knows `k`: it is registered, or the next start would register it. */
  ghost predicate Known(n: Node, k: Key) {
    k in n.world.peers || k in PinnedKeys(n.world.pins)
  }

  /** The move admits `k`: it adds it by ticket, pins it, or enrolls it. */
  ghost predicate Admits(cfg: Config, n: Node, m: Move, k: Key)
    requires CanMove(n, m)
  {
    match m
    case Serves(AddPeer(ticket, dryRun), env) =>
      !dryRun && cfg.codec.read(ticket) == Some(k) && Handle(cfg, n, m.req, env).1.Done?
    case Serves(Pin(key, _, dryRun), _) => !dryRun && cfg.codec.read(key) == Some(k)
    case Peers(step) => step.Connects? && step.k == k && Enrolls(n.world, step) && k !in EvictedBy(n.world, step)
    case _ => false
  }

  /** The move makes the daemon forget `k`: it removes or evicts it while no row of
      the pin file respells it, or restarts the daemon while no row names it. */
  ghost predicate Forgets(cfg: Config, n: Node, m: Move, k: Key) {
    match m
    case Serves(RemovePeer(ticket, dryRun), _) =>
      !dryRun && cfg.codec.read(ticket) == Some(k) && k in n.world.peers && !RespelledIn(n.world.pins, k)
    case Peers(step) => k in EvictedBy(n.world, step) && !RespelledIn(n.world.pins, k)
    case Reboots(_) => k !in PinnedKeys(n.world.pins)
    case _ => false
  }

  lemma KnownAfterMoveIff(cfg: Config, n: Node, m: Move, k: Key)
    requires Registry.Sound(n.world) && CanMove(n, m) && Moved(cfg, n, m).Some?
    ensures Known(Moved(cfg, n, m).value, k) <==> Admits(cfg, n, m, k) || (Known(n, k) && !Forgets(cfg, n, m, k))
  {
    match m
    case Serves(req, env) => KnownAfterRequest(cfg, n, req, env, k);
    case Peers(step) => KnownAfterStep(cfg, n, step, k);
    case Reboots(boot) =>
      var s := Loaded(n.file);
      NothingAdded(cfg.codec, s.services, s.binds);
      Registry.PinnedIsPins(n.world.pins);
  }

  lemma KnownAfterRequest(cfg: Config, n: Node, req: Request, env: ReqEnv, k: Key)
    requires Registry.Sound(n.world) && CanMove(n, Serves(req, env))
    ensures var m := Serves(req, env);
            Known(Handle(cfg, n, req, env).0, k) <==> Admits(cfg, n, m, k) || (Known(n, k) && !Forgets(cfg, n, m, k))
  {
    match req
    case Pin(key, name, _) =>
      if cfg.codec.read(key).Some? {
        Registry.PinnedKeysWith(n.world.pins, TextOf(cfg.codec, key), name);
      }
    case RemovePeer(ticket, _) =>
      if cfg.codec.read(ticket).Some? {
        Registry.PinnedKeysWithout(n.world.pins, {cfg.codec.read(ticket).value});
      }
    case Bind(port, local, _) => RemapOutcome(n.world, port, local, env.order, env.offers);
    case _ =>
  }

  lemma KnownAfterStep(cfg: Config, n: Node, step: Registry.Step, k: Key)
    requires Registry.Sound(n.world) && CanMove(n, Peers(step))
    ensures var m := Peers(step);
            Known(n.(world := Registry.Apply(n.world, step)), k) <==> Admits(cfg, n, m, k) || (Known(n, k) && !Forgets(cfg, n, m, k))
  {
    var w := n.world;
    match step
    case Announces(x, ports, env) => KnownAfterPass(w, x, ports, env, k);
    case Connects(x, conn, msgs, now, check, env) =>
      Registry.ConnectionCases(w, x, conn, msgs, now, check, env);
      var early := Registry.Presented(msgs, None).1;
      if Enrolls(w, step) {
        var name := Registry.Enrollee(w, x, msgs, now, check).value;
        Registry.PinnedKeysWith(w.pins, Printed(x), name);
        RespelledWith(w.pins, Printed(x), name, k);
        if early.Some? {
          KnownAfterPass(Registry.Enrolled(w, x, conn, msgs, now, check), x, early.value, env, k);
        }
      }
    case Refuses(_) =>
  }

  lemma RespelledWith(pins: seq<Enrollment.Pin>, text: KeyText, name: string, k: Key)
    requires text.Printed?
    ensures RespelledIn(WithPin(pins, text, name), k) <==> RespelledIn(pins, k)
  {
    WithPinHas(pins, text, name);
    if pin :| pin in pins && pin.text.Respelled? && pin.text.key == k {
      assert pin in WithPin(pins, text, name);
    }
  }

  lemma KnownAfterPass(w: World, x: Key, ports: seq<Port>, env: Env, k: Key)
    requires Consistent(w) && x in w.peers
    ensures var w' := Announce(w, x, ports, env);
            (k in w'.peers || k in PinnedKeys(w'.pins)) <==>
              (k in w.peers || k in PinnedKeys(w.pins)) && (k in Lost(w, x, ports, env) ==> RespelledIn(w.pins, k))
  {
    RestOfPass(w, x, ports, env);
    Registry.PinnedKeysWithout(w.pins, Lost(w, x, ports, env));
  }

  /** For each move of a run, whether it admits `k`. */
  ghost function Admissions(cfg: Config, states: seq<Node>, moves: seq<Move>, k: Key): seq<bool>
    requires Trace(cfg, states, moves)
  {
    seq(|moves|, i requires 0 <= i < |moves| && Trace(cfg, states, moves) => Admits(cfg, states[i], moves[i], k))
  }

  /** And whether it makes the daemon forget it. */
  ghost function Forgettings(cfg: Config, states: seq<Node>, moves: seq<Move>, k: Key): seq<bool>
    requires Trace(cfg, states, moves)
  {
    seq(|moves|, i requires 0 <= i < |moves| && Trace(cfg, states, moves) => Forgets(cfg, states[i], moves[i], k))
  }

  /** At any point of any run the daemon knows a key exactly when some move admitted it
      and nothing since made it forgotten, or it knew it at the start and nothing did. */
  lemma KnownIffLastAdmitted(cfg: Config, states: seq<Node>, moves: seq<Move>, end: nat, k: Key)
    requires Trace(cfg, states, moves) && end <= |moves| && Registry.Sound(states[0].world)
    ensures var on, off := Admissions(cfg, states, moves, k), Forgettings(cfg, states, moves, k);
            Known(states[end], k) <==>
              (exists i: nat :: LastOn(on, off, i, end)) || (Known(states[0], k) && NeverOff(off, end))
  {
    var on, off := Admissions(cfg, states, moves, k), Forgettings(cfg, states, moves, k);
    var held := seq(|states|, i requires 0 <= i < |states| => Known(states[i], k));
    forall i | 0 <= i < |moves| ensures held[i + 1] <==> on[i] || (held[i] && !off[i]) {
      SoundThroughout(cfg, states, moves, i);
      assert Moved(cfg, states[i], moves[i]) == Some(states[i + 1]);
      KnownAfterMoveIff(cfg, states[i], moves[i], k);
    }
    OnIffLastOn(held, on, off, end);
  }

  /** What entitled move `i` to admit `k`: the operator said so, or a token minted by
      request under the label `k` was enrolled by, less than its time to live before,
      since the last restart, and presented by nobody in between. */
  ghost predicate Entitled(cfg: Config, states: seq<Node>, moves: seq<Move>, i: nat, k: Key)
    requires Trace(cfg, states, moves) && i < |moves|
  {
    moves[i].Serves? ||
    (Presenter(states[i], moves[i], k) && exists j: nat ::
       && MintedBy(states, moves, j, i, TokenOf(moves[i]))
       && moves[i].step.now < moves[j].env.now + 5 * 60
       && LabelOf(states[i], moves[i]) == Some(moves[j].req.name))
  }

  /** `k` presents a token on a new connection. */
  ghost predicate Presenter(n: Node, m: Move, k: Key) {
    m.Peers? && m.step.Connects? && m.step.k == k && Registry.Presented(m.step.msgs, None).0.Some?
  }

  ghost function TokenOf(m: Move): Token
    requires m.Peers? && m.step.Connects? && Registry.Presented(m.step.msgs, None).0.Some?
  {
    Registry.Presented(m.step.msgs, None).0.value
  }

  ghost function LabelOf(n: Node, m: Move): Option<string>
    requires m.Peers? && m.step.Connects?
  {
    Registry.Enrollee(n.world, m.step.k, m.step.msgs, m.step.now, m.step.check)
  }

  lemma AdmissionIsEntitled(cfg: Config, states: seq<Node>, moves: seq<Move>, i: nat, k: Key)
    requires Trace(cfg, states, moves) && i < |moves| && Registry.Sound(states[0].world) && states[0].world.tokens == map[]
    requires CanMove(states[i], moves[i]) && Admits(cfg, states[i], moves[i], k)
    ensures Entitled(cfg, states, moves, i, k)
  {
    if moves[i].Peers? {
      var j := PendingWasMinted(cfg, states, moves, i, TokenOf(moves[i]));
      assert LabelOf(states[i], moves[i]) == Some(moves[j].req.name);
    }
  }

  /** Nobody gets in unasked. At any point of any run from a start, every registered
      peer was known at the start and never forgotten, or its last admission since it
      was last forgotten was by ticket, by pin, or by a token that entitled it. */
  lemma EveryPeerWasAdmitted(cfg: Config, states: seq<Node>, moves: seq<Move>, end: nat, k: Key)
    requires Trace(cfg, states, moves) && end <= |moves|
    requires Registry.Sound(states[0].world) && states[0].world.tokens == map[]
    requires k in states[end].world.peers
    ensures var on, off := Admissions(cfg, states, moves, k), Forgettings(cfg, states, moves, k);
            || (Known(states[0], k) && NeverOff(off, end))
            || exists i: nat :: LastOn(on, off, i, end) && Entitled(cfg, states, moves, i, k)
  {
    var on, off := Admissions(cfg, states, moves, k), Forgettings(cfg, states, moves, k);
    KnownIffLastAdmitted(cfg, states, moves, end, k);
    if i: nat :| LastOn(on, off, i, end) {
      AdmissionIsEntitled(cfg, states, moves, i, k);
    }
  }

  /** Every start begins such a run: without tokens, and knowing the keys its pin file
      names and the peers named by flags that it reached. */
  lemma StartKnows(cfg: Config, pins: seq<Enrollment.Pin>, file: Option<StateStore.Stored>, flags: Flags, boot: BootEnv, k: Key)
    requires Start(cfg, pins, file, flags, boot).Some?
    ensures var n := Start(cfg, pins, file, flags, boot).value;
            && Registry.Sound(n.world) && n.world.tokens == map[]
            && (Known(n, k) ==> k in PinnedKeys(pins) || k in Addressed(cfg.codec, flags.peers))
            && (k in PinnedKeys(pins) ==> k in n.world.peers)
  {
    var n, s := Start(cfg, pins, file, flags, boot).value, Loaded(file);
    var granted := Product(flags.ports + n.specs.Keys, Addressed(cfg.codec, flags.peers));
    StartIsSound(cfg, pins, file, flags, boot);
    Registry.PinnedIsPins(pins);
    DialAllKeeps(cfg.codec, Registry.Boot(pins, boot.foreign).(
      grants := Readable(cfg.codec, s.grants) + granted, binds := Remapped(s.binds, flags.binds)),
      flags.peers, flags.token, boot.reached);
  }
}
