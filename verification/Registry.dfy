/** Who is registered: adding, pinning, enrolling, removing and restarting, and
    what every run of these and the port operations keeps. */
module Registry {
  import opened Common
  import opened Enrollment
  import opened PeerTables
  import opened Announcement
  import opened Remap

  // -------------------------------------------------------------- operations

  function FreshPeer(name: Option<string>, dial: bool, token: Option<string>, conn: Option<ConnId>): PeerRec {
    PeerRec(name, dial, token, conn, [], map[])
  }

  /** Adding a peer by ticket; `reached` is the connection, if it was reached. */
  function AddPeer(w: World, k: Key, token: Option<string>, reached: Option<ConnId>): (World, Option<ErrorKind>) {
    if k in w.peers then (w, Some(Conflict))
    else match reached
      case None => (w, Some(NotFound))
      case Some(c) => (w.(peers := w.peers[k := FreshPeer(None, true, token, Some(c))]), None)
  }

  /** Registering a pinned peer, which phones home. */
  function AddPinned(peers: map<Key, PeerRec>, k: Key, name: string): map<Key, PeerRec> {
    if k in peers then peers else peers[k := FreshPeer(Some(name), false, None, None)]
  }

  /** Pinning writes the key as it was given. */
  function PinPeer(w: World, text: KeyText, name: string): World
    requires !text.NoKey?
  {
    w.(peers := AddPinned(w.peers, text.key, name), pins := WithPin(w.pins, text, name))
  }

  function RemovePeer(w: World, k: Key): (World, Option<ErrorKind>) {
    if k in w.peers then (Evict(w, k), None) else (w, Some(Internal))
  }

  /** A message on a fresh connection, read before the enrollment timeout. */
  datatype Message = Enroll(token: Token) | ExposedPorts(ports: seq<Port>) | OtherMessage

  /** What an unknown peer presented: the first token, and the last announcement
      that came before it. */
  function Presented(msgs: seq<Message>, early: Option<seq<Port>>): (Option<Token>, Option<seq<Port>>) {
    if msgs == [] then (None, early)
    else match msgs[0]
      case Enroll(token) => (Some(token), early)
      case ExposedPorts(ports) => Presented(msgs[1..], Some(ports))
      case OtherMessage => Presented(msgs[1..], early)
  }

  function Refuse(w: World, conn: ConnId): World {
    w.(closed := w.closed + {conn})
  }

  /** Some peer that answers the probe has the target of an early port. */
  ghost predicate Collides(w: World, k: Key, early: Option<seq<Port>>, check: set<Key>) {
    early.Some? && exists p <- early.value ::
      Holder(w, LocalFor(w, p), k).Some? && Holder(w, LocalFor(w, p), k).value in check
  }

  ghost function Admit(w: World, k: Key, name: string, conn: ConnId, early: Option<seq<Port>>, env: Env): World {
    var w1 := w.(pins := WithPin(w.pins, Printed(k), name),
                 peers := w.peers[k := FreshPeer(Some(name), false, None, Some(conn))]);
    if early.Some? then Announce(w1, k, early.value, env) else w1
  }

  /** The peer a valid token admits under the token's label. */
  ghost function Enrollee(w: World, k: Key, msgs: seq<Message>, now: Instant, check: set<Key>): Option<string> {
    var (token, early) := Presented(msgs, None);
    if token.None? || Collides(w, k, early, check) then None
    else ClaimToken(w.tokens, token.value, now).1
  }

  /** An incoming connection `conn` from `k`. A known peer's connection is
      replaced; an unknown one must enroll, or is refused. `check` are the peers
      that answer the collision probe, `env` serves the announcement after it. */
  ghost function HandleConnection(w: World, k: Key, conn: ConnId, msgs: seq<Message>, now: Instant,
                                  check: set<Key>, env: Env): World {
    if k in w.peers then
      w.(closed := w.closed + ConnSet(w.peers[k].conn), peers := w.peers[k := w.peers[k].(conn := Some(conn))])
    else
      var (token, early) := Presented(msgs, None);
      if token.None? then Refuse(w, conn)
      else
        var (tokens, name) := ClaimToken(w.tokens, token.value, now);
        var w1 := w.(tokens := tokens);
        if name.None? || Collides(w, k, early, check) then Refuse(w1, conn)
        else Admit(w1, k, name.value, conn, early, env)
  }

  function PinRow(peers: map<Key, PeerRec>, pin: Pin): map<Key, PeerRec> {
    if pin.text.NoKey? then peers else AddPinned(peers, pin.text.key, pin.name)
  }

  /** The tables with an enrolled peer pinned and registered, before its early
      announcement. */
  ghost function Enrolled(w: World, k: Key, conn: ConnId, msgs: seq<Message>, now: Instant, check: set<Key>): World
    requires Enrollee(w, k, msgs, now, check).Some?
  {
    var name := Enrollee(w, k, msgs, now, check).value;
    w.(tokens := ClaimToken(w.tokens, Presented(msgs, None).0.value, now).0,
       pins := WithPin(w.pins, Printed(k), name),
       peers := w.peers[k := FreshPeer(Some(name), false, None, Some(conn))])
  }

  /** What a new process registers from the pin file; rows without a readable
      key are passed over. */
  function Pinned(pins: seq<Pin>): map<Key, PeerRec> {
    if pins == [] then map[]
    else PinRow(Pinned(pins[..|pins| - 1]), pins[|pins| - 1])
  }

  /** A daemon starting over `pins`: the previous process is gone, with its
      sockets, its connections and its tokens. */
  function Boot(pins: seq<Pin>, foreign: set<Port>): World {
    World(Pinned(pins), map[], {}, pins, map[], map[], foreign, {})
  }

  // --------------------------------------------------------------- invariants

  /** Every peer that phones home is pinned. */
  ghost predicate PhonesHomePinned(w: World) {
    forall x <- w.peers :: !w.peers[x].dial ==> x in PinnedKeys(w.pins)
  }

  /** Every pinned key is registered. */
  ghost predicate PinnedRegistered(w: World) {
    PinnedKeys(w.pins) <= w.peers.Keys
  }

  ghost predicate Sound(w: World) {
    Consistent(w) && PhonesHomePinned(w)
  }

  /** Removing printed rows may leave the key pinned in another spelling. */
  lemma PinnedKeysWithout(pins: seq<Pin>, gone: set<Key>)
    ensures forall x :: x in PinnedKeys(WithoutPins(pins, gone)) <==>
              x in PinnedKeys(pins) && (x in gone ==> RespelledIn(pins, x))
  {
    WithoutPinsKeeps(pins, gone);
    forall x | x in PinnedKeys(pins) && (x in gone ==> RespelledIn(pins, x)) ensures x in PinnedKeys(WithoutPins(pins, gone)) {
      var pin :| pin in pins && !pin.text.NoKey? && pin.text.key == x && (x in gone ==> pin.text.Respelled?);
      assert pin in WithoutPins(pins, gone);
    }
  }

  lemma PinnedKeysWith(pins: seq<Pin>, text: KeyText, name: string)
    requires !text.NoKey?
    ensures PinnedKeys(WithPin(pins, text, name)) == PinnedKeys(pins) + {text.key}
  {
    WithPinHas(pins, text, name);
    var pins' := WithPin(pins, text, name);
    assert Pin(text, name) in pins';
    forall x | x in PinnedKeys(pins) && x != text.key ensures x in PinnedKeys(pins') {
      var pin :| pin in pins && !pin.text.NoKey? && pin.text.key == x;
      assert pin in WithPin(pins, text, name);
    }
  }

  /** Only peers with unchanged ports and bindings come or go. */
  ghost predicate SamePorts(w: World, w': World) {
    && w'.binds == w.binds && w'.listeners == w.listeners && w'.foreign == w.foreign
    && (forall x <- w.peers :: x in w'.peers && w'.peers[x].bindings == w.peers[x].bindings
                               && w'.peers[x].exposed == w.peers[x].exposed)
    && (forall x <- w'.peers :: x !in w.peers ==> w'.peers[x].bindings == map[])
  }

  lemma SamePortsAgree(w: World, w': World)
    requires Agree(w) && SamePorts(w, w')
    ensures Agree(w')
  {
    forall x: Key, p: Port, l: Port ensures Bound(w', x, p, l) <==> Bound(w, x, p, l) {
      if x in w'.peers && x !in w.peers {
        assert p !in w'.peers[x].bindings;
      }
    }
  }

  lemma SamePortsConsistent(w: World, w': World)
    requires Consistent(w) && SamePorts(w, w')
    ensures Consistent(w')
  {
    SamePortsAgree(w, w');
    forall x <- w'.peers ensures WithinAnnounced(w', x) {
      assert x in w.peers ==> WithinAnnounced(w, x);
    }
  }

  lemma EvictKeepsSound(w: World, k: Key)
    requires Sound(w)
    ensures Sound(Evict(w, k))
  {
    EvictKeepsLedger(w, k, None);
    PinnedKeysWithout(w.pins, {k});
    var w' := Evict(w, k);
    forall x <- w'.peers ensures WithinAnnounced(w', x) {
      assert WithinAnnounced(w, x);
    }
  }

  lemma AnnounceKeepsSound(w: World, k: Key, ports: seq<Port>, env: Env)
    requires Sound(w) && k in w.peers
    ensures Sound(Announce(w, k, ports, env))
  {
    var w' := Announce(w, k, ports, env);
    AnnouncementOutcome(w, k, ports, env);
    RestOfPass(w, k, ports, env);
    PinnedKeysWithout(w.pins, Lost(w, k, ports, env));
    if k in w'.peers {
      AnnouncerRecord(w, k, ports, env);
    }
  }

  lemma AnnouncerRecord(w: World, k: Key, ports: seq<Port>, env: Env)
    requires Consistent(w) && k in w.peers && k in Announce(w, k, ports, env).peers
    ensures var r, r' := w.peers[k], Announce(w, k, ports, env).peers[k];
            r' == r.(exposed := ports, bindings := r'.bindings)
  {
    AnnouncementOutcome(w, k, ports, env);
    RejectedIff(w, k, ports, env);
  }

  lemma RemapKeepsSound(w: World, port: Port, local: Option<Port>, order: seq<Key>, offers: nat -> Port)
    requires Sound(w) && Enumerates(order, w.peers.Keys)
    ensures Sound(SetBind(w, port, local, order, offers))
  {
    RemapOutcome(w, port, local, order, offers);
  }

  /** The three ways a connection goes: a known peer's is replaced, an enrolled
      peer's early announcement is handled, and any other is refused. */
  lemma ConnectionCases(w: World, k: Key, conn: ConnId, msgs: seq<Message>, now: Instant, check: set<Key>, env: Env)
    requires Sound(w)
    ensures var w', early := HandleConnection(w, k, conn, msgs, now, check, env), Presented(msgs, None).1;
            if k in w.peers then
              SamePorts(w, w') && w' == w.(closed := w'.closed, peers := w.peers[k := w.peers[k].(conn := Some(conn))])
            else if Enrollee(w, k, msgs, now, check).None? then
              SamePorts(w, w') && w' == w.(tokens := w'.tokens, closed := w.closed + {conn})
            else
              var w1 := Enrolled(w, k, conn, msgs, now, check);
              Sound(w1) && k in w1.peers && w' == if early.Some? then Announce(w1, k, early.value, env) else w1
  {
    if k !in w.peers && Enrollee(w, k, msgs, now, check).Some? {
      EnrolledIsSound(w, k, conn, msgs, now, check);
    }
  }

  lemma EnrolledIsSound(w: World, k: Key, conn: ConnId, msgs: seq<Message>, now: Instant, check: set<Key>)
    requires Sound(w) && k !in w.peers && Enrollee(w, k, msgs, now, check).Some?
    ensures Sound(Enrolled(w, k, conn, msgs, now, check))
  {
    PinnedKeysWith(w.pins, Printed(k), Enrollee(w, k, msgs, now, check).value);
    SamePortsConsistent(w, Enrolled(w, k, conn, msgs, now, check));
  }

  lemma ConnectionKeepsSound(w: World, k: Key, conn: ConnId, msgs: seq<Message>, now: Instant, check: set<Key>, env: Env)
    requires Sound(w)
    ensures Sound(HandleConnection(w, k, conn, msgs, now, check, env))
  {
    ConnectionCases(w, k, conn, msgs, now, check, env);
    var w', early := HandleConnection(w, k, conn, msgs, now, check, env), Presented(msgs, None).1;
    if k in w.peers || Enrollee(w, k, msgs, now, check).None? {
      SamePortsConsistent(w, w');
    } else if early.Some? {
      AnnounceKeepsSound(Enrolled(w, k, conn, msgs, now, check), k, early.value, env);
    }
  }

  lemma {:induction false} PinnedIsPins(pins: seq<Pin>)
    ensures Pinned(pins).Keys == PinnedKeys(pins)
    ensures forall x <- Pinned(pins) ::
              && Pinned(pins)[x].name.Some? && NamedIn(pins, x, Pinned(pins)[x].name.value)
              && Pinned(pins)[x] == PeerRec(Pinned(pins)[x].name, false, None, None, [], map[])
  {
    if pins != [] {
      var front, last := pins[..|pins| - 1], pins[|pins| - 1];
      PinnedIsPins(front);
      assert pins == front + [last];
      assert forall pin :: pin in pins <==> pin in front || pin == last;
      assert PinnedKeys(pins) == PinnedKeys(front) + if last.text.NoKey? then {} else {last.text.key};
      forall x <- Pinned(pins) ensures NamedIn(pins, x, Pinned(pins)[x].name.value) {
        if x in Pinned(front) {
          NamedInMore(front, last, x, Pinned(front)[x].name.value);
        } else {
          NamedByLast(front, last, x);
        }
      }
    }
  }

  lemma NamedInMore(front: seq<Pin>, last: Pin, x: Key, name: string)
    requires NamedIn(front, x, name)
    ensures NamedIn(front + [last], x, name)
  {
    var i: nat :| FirstNaming(front, i, x) && front[i].name == name;
    assert FirstNaming(front + [last], i, x);
  }

  lemma NamedByLast(front: seq<Pin>, last: Pin, x: Key)
    requires x !in PinnedKeys(front) && Names(last.text, x)
    ensures NamedIn(front + [last], x, last.name)
  {
    assert forall j :: 0 <= j < |front| ==> front[j] in front;
    assert FirstNaming(front + [last], |front|, x);
  }

  /** Row `i` is the first that names `x`. */
  ghost predicate FirstNaming(pins: seq<Pin>, i: nat, x: Key) {
    i < |pins| && Names(pins[i].text, x) && forall j :: 0 <= j < i ==> !Names(pins[j].text, x)
  }

  /** The first row that names `x` carries this name. */
  ghost predicate NamedIn(pins: seq<Pin>, x: Key, name: string) {
    exists i: nat :: FirstNaming(pins, i, x) && pins[i].name == name
  }

  lemma BootIsSound(pins: seq<Pin>, foreign: set<Port>)
    ensures Sound(Boot(pins, foreign))
  {
    PinnedIsPins(pins);
    var w := Boot(pins, foreign);
    forall x: Key, p: Port, l: Port ensures !Bound(w, x, p, l) {}
  }

  /** Every peer that phones home survives a restart as one that does. */
  lemma PhonesHomeSurvivesRestart(w: World, foreign: set<Port>, x: Key)
    requires PhonesHomePinned(w) && x in w.peers && !w.peers[x].dial
    ensures var w' := Boot(w.pins, foreign);
            && Sound(w') && x in w'.peers && !w'.peers[x].dial
            && w'.peers[x].name.Some? && NamedIn(w.pins, x, w'.peers[x].name.value)
  {
    PinnedIsPins(w.pins);
    BootIsSound(w.pins, foreign);
  }

  // -------------------------------------------------------------- whole runs

  /** One lock-holding operation of the daemon, or one move of the system. */
  datatype Step =
    | Announces(k: Key, ports: seq<Port>, env: Env)
    | Remaps(port: Port, local: Option<Port>, order: seq<Key>, offers: nat -> Port)
    | Removes(k: Key)
    | Adds(k: Key, token: Option<string>, reached: Option<ConnId>)
    | PinsPeer(text: KeyText, name: string)
    | Connects(k: Key, conn: ConnId, msgs: seq<Message>, now: Instant, check: set<Key>, env: Env)
    | Mints(drawn: Token, name: string, ttl: nat, at: Instant)
    | Regrants(grants: set<(Port, Key)>)
    | Refuses(foreign: set<Port>)
    | Restarts

  /** What the environment guarantees: only registered peers announce, a remap
      iterates the registry, and the system takes no port from a live socket. */
  ghost predicate Possible(w: World, step: Step) {
    match step
    case Announces(k, _, _) => k in w.peers
    case Remaps(_, _, order, _) => Enumerates(order, w.peers.Keys)
    case Refuses(foreign) => foreign !! w.listeners.Keys
    case PinsPeer(text, _) => !text.NoKey?
    case _ => true
  }

  ghost function Apply(w: World, step: Step): World
    requires Possible(w, step)
  {
    match step
    case Announces(k, ports, env) => Announce(w, k, ports, env)
    case Remaps(port, local, order, offers) => SetBind(w, port, local, order, offers)
    case Removes(k) => RemovePeer(w, k).0
    case Adds(k, token, reached) => AddPeer(w, k, token, reached).0
    case PinsPeer(text, name) => PinPeer(w, text, name)
    case Connects(k, conn, msgs, now, check, env) => HandleConnection(w, k, conn, msgs, now, check, env)
    case Mints(drawn, name, ttl, at) => w.(tokens := MintToken(w.tokens, drawn, name, ttl, at))
    case Regrants(grants) => w.(grants := grants)
    case Refuses(foreign) => w.(foreign := foreign)
    case Restarts => Boot(w.pins, w.foreign)
  }

  /** `w'` is reached from `w` by `steps`. */
  ghost predicate Runs(w: World, steps: seq<Step>, w': World)
    decreases |steps|
  {
    if steps == [] then w' == w
    else Possible(w, steps[0]) && Runs(Apply(w, steps[0]), steps[1..], w')
  }

  lemma StepKeepsSound(w: World, step: Step)
    requires Sound(w) && Possible(w, step)
    ensures Sound(Apply(w, step))
  {
    match step
    case Announces(k, ports, env) => AnnounceKeepsSound(w, k, ports, env);
    case Remaps(port, local, order, offers) => RemapKeepsSound(w, port, local, order, offers);
    case Removes(k) => if k in w.peers { EvictKeepsSound(w, k); }
    case Adds(k, token, reached) => AddKeepsSound(w, k, token, reached);
    case PinsPeer(text, name) => PinKeepsSound(w, text, name);
    case Connects(k, conn, msgs, now, check, env) => ConnectionKeepsSound(w, k, conn, msgs, now, check, env);
    case Mints(_, _, _, _) => SideTablesKeepSound(w, Apply(w, step));
    case Regrants(_) => SideTablesKeepSound(w, Apply(w, step));
    case Refuses(_) => RefusesKeepsSound(w, step);
    case Restarts => BootIsSound(w.pins, w.foreign);
  }

  lemma AddKeepsSound(w: World, k: Key, token: Option<string>, reached: Option<ConnId>)
    requires Sound(w)
    ensures Sound(AddPeer(w, k, token, reached).0)
  {
    SamePortsConsistent(w, AddPeer(w, k, token, reached).0);
  }

  lemma PinKeepsSound(w: World, text: KeyText, name: string)
    requires Sound(w) && !text.NoKey?
    ensures Sound(PinPeer(w, text, name))
  {
    PinnedKeysWith(w.pins, text, name);
    SamePortsConsistent(w, PinPeer(w, text, name));
  }

  lemma SideTablesKeepSound(w: World, w': World)
    requires Sound(w) && w' == w.(tokens := w'.tokens, grants := w'.grants)
    ensures Sound(w')
  {
    SamePortsConsistent(w, w');
  }

  lemma RefusesKeepsSound(w: World, step: Step)
    requires Sound(w) && step.Refuses? && Possible(w, step)
    ensures Sound(Apply(w, step))
  {
    var w' := Apply(w, step);
    assert forall x: Key, p: Port, l: Port :: Bound(w', x, p, l) <==> Bound(w, x, p, l);
    forall x <- w'.peers ensures WithinAnnounced(w', x) {
      assert WithinAnnounced(w, x);
    }
  }

  /** In every run from a start over any pin file, however the steps interleave:
      the recorded bindings of registered peers correspond one for one with the
      sockets the daemon listens on, every binding agrees with the remap table
      and lies within what its peer announced, and every peer that phones home is
      pinned. */
  lemma {:induction false} EveryRunIsSound(w: World, steps: seq<Step>, w': World)
    requires Sound(w) && Runs(w, steps, w')
    ensures Sound(w')
    decreases |steps|
  {
    if steps != [] {
      StepKeepsSound(w, steps[0]);
      EveryRunIsSound(Apply(w, steps[0]), steps[1..], w');
    }
  }

  // ---------------------------------------------- pinned keys and their spelling

  /** The rows that spell a key otherwise than it is printed. */
  function Respellings(pins: seq<Pin>): set<KeyText> {
    set pin <- pins | pin.text.Respelled? :: pin.text
  }

  /** The respelled keys that steps pin. */
  ghost function RespelledBy(steps: seq<Step>): set<KeyText> {
    set step <- steps | step.PinsPeer? && step.text.Respelled? :: step.text
  }

  lemma RespellingsWithout(pins: seq<Pin>, gone: set<Key>)
    ensures Respellings(WithoutPins(pins, gone)) == Respellings(pins)
  {
    WithoutPinsKeeps(pins, gone);
    forall pin <- pins | pin.text.Respelled? ensures pin in WithoutPins(pins, gone) {}
  }

  lemma RespellingsWith(pins: seq<Pin>, text: KeyText, name: string)
    ensures Respellings(WithPin(pins, text, name)) == Respellings(pins) + if text.Respelled? then {text} else {}
  {
    WithPinHas(pins, text, name);
    var pins' := WithPin(pins, text, name);
    assert Pin(text, name) in pins';
    forall pin <- pins | pin.text.Respelled? ensures pin.text in Respellings(pins') + {text} {
      assert pin.text != text ==> pin in pins';
    }
  }

  lemma ConnectionPins(w: World, k: Key, conn: ConnId, msgs: seq<Message>, now: Instant, check: set<Key>, env: Env)
    requires Sound(w)
    ensures var w' := HandleConnection(w, k, conn, msgs, now, check, env);
            && Respellings(w'.pins) == Respellings(w.pins)
            && (PinnedRegistered(w) && Respellings(w.pins) == {} ==> PinnedRegistered(w'))
  {
    ConnectionCases(w, k, conn, msgs, now, check, env);
    var name, early := Enrollee(w, k, msgs, now, check), Presented(msgs, None).1;
    if k !in w.peers && name.Some? {
      RespellingsWith(w.pins, Printed(k), name.value);
      PinnedKeysWith(w.pins, Printed(k), name.value);
      if early.Some? {
        AnnouncePins(Enrolled(w, k, conn, msgs, now, check), k, early.value, env);
      }
    }
  }

  lemma AnnouncePins(w: World, k: Key, ports: seq<Port>, env: Env)
    requires Consistent(w) && k in w.peers
    ensures var w' := Announce(w, k, ports, env);
            && Respellings(w'.pins) == Respellings(w.pins)
            && (PinnedRegistered(w) && Respellings(w.pins) == {} ==> PinnedRegistered(w'))
  {
    RestOfPass(w, k, ports, env);
    RespellingsWithout(w.pins, Lost(w, k, ports, env));
    PinnedKeysWithout(w.pins, Lost(w, k, ports, env));
    RespelledAmong(w.pins);
  }

  lemma RespelledAmong(pins: seq<Pin>)
    ensures forall k :: RespelledIn(pins, k) <==> exists text <- Respellings(pins) :: text.key == k
  {
    forall k ensures RespelledIn(pins, k) <==> exists text <- Respellings(pins) :: text.key == k {
      if RespelledIn(pins, k) {
        var pin :| pin in pins && pin.text.Respelled? && pin.text.key == k;
        assert pin.text in Respellings(pins);
      }
    }
  }

  /** A step keeps every pinned key registered while no row respells one, and it
      adds such a row exactly when it pins a respelled key. */
  lemma StepPins(w: World, step: Step)
    requires Sound(w) && Possible(w, step)
    ensures var w' := Apply(w, step);
            && Respellings(w'.pins) == Respellings(w.pins) + RespelledBy([step])
            && (PinnedRegistered(w) && Respellings(w.pins) == {} ==> PinnedRegistered(w'))
  {
    match step
    case Announces(k, ports, env) => AnnouncePins(w, k, ports, env);
    case Remaps(port, local, order, offers) => RemapOutcome(w, port, local, order, offers);
    case Removes(k) =>
      RespellingsWithout(w.pins, {k});
      PinnedKeysWithout(w.pins, {k});
      RespelledAmong(w.pins);
    case PinsPeer(text, name) =>
      RespellingsWith(w.pins, text, name);
      PinnedKeysWith(w.pins, text, name);
    case Connects(k, conn, msgs, now, check, env) => ConnectionPins(w, k, conn, msgs, now, check, env);
    case Restarts => PinnedIsPins(w.pins);
    case _ =>
  }

  /** Over a whole run, the respelled rows are those there were and those the run
      pinned: no step removes one. While there are none, every pinned key is
      registered. */
  lemma {:induction false} EveryRunRespells(w: World, steps: seq<Step>, w': World)
    requires Sound(w) && Runs(w, steps, w')
    ensures Respellings(w'.pins) == Respellings(w.pins) + RespelledBy(steps)
    ensures PinnedRegistered(w) && Respellings(w.pins) == {} && RespelledBy(steps) == {} ==> PinnedRegistered(w')
    decreases |steps|
  {
    if steps != [] {
      StepKeepsSound(w, steps[0]);
      StepPins(w, steps[0]);
      EveryRunRespells(Apply(w, steps[0]), steps[1..], w');
      assert steps == [steps[0]] + steps[1..];
      assert RespelledBy(steps) == RespelledBy([steps[0]]) + RespelledBy(steps[1..]);
    }
  }

  /** Removing a registered peer leaves every pinned key registered exactly when
      no row respells the peer's key; the next start registers the peer again
      exactly when one does. */
  lemma RemovalForgetsPinIff(w: World, k: Key, foreign: set<Port>)
    requires PinnedRegistered(w) && k in w.peers
    ensures var w' := RemovePeer(w, k).0;
            && (PinnedRegistered(w') <==> !RespelledIn(w.pins, k))
            && (k in Boot(w'.pins, foreign).peers <==> RespelledIn(w.pins, k))
  {
    PinnedKeysWithout(w.pins, {k});
    PinnedIsPins(RemovePeer(w, k).0.pins);
  }

  /** After any run from tables without respelled rows, every pinned key is
      registered and stays so whichever peer is removed next, exactly when the run
      pinned every key in its printed form. */
  lemma PinnedStaysRegisteredIff(w: World, steps: seq<Step>, w': World)
    requires Sound(w) && PinnedRegistered(w) && Respellings(w.pins) == {} && Runs(w, steps, w')
    ensures (PinnedRegistered(w') && forall k <- w'.peers :: PinnedRegistered(RemovePeer(w', k).0))
            <==> RespelledBy(steps) == {}
  {
    EveryRunRespells(w, steps, w');
    RespelledAmong(w'.pins);
    if PinnedRegistered(w') {
      forall k <- w'.peers ensures PinnedRegistered(RemovePeer(w', k).0) <==> !RespelledIn(w'.pins, k) {
        RemovalForgetsPinIff(w', k, {});
      }
      if text :| text in Respellings(w'.pins) {
        var pin :| pin in w'.pins && pin.text == text;
        assert text.key in PinnedKeys(w'.pins) && RespelledIn(w'.pins, text.key);
      }
    }
  }

  // --------------------------------------------------------------- enrollment

  /** Message `i` is the first that presents a token. */
  ghost predicate FirstEnroll(msgs: seq<Message>, i: nat) {
    i < |msgs| && msgs[i].Enroll? && forall j :: 0 <= j < i ==> !msgs[j].Enroll?
  }

  /** Message `j` is the last announcement before position `end`. */
  ghost predicate LastAnnounced(msgs: seq<Message>, j: nat, end: nat)
    requires end <= |msgs|
  {
    j < end && msgs[j].ExposedPorts? && forall l :: j < l < end ==> !msgs[l].ExposedPorts?
  }

  /** The messages present `token` first, and `early` is the last announcement before
      it, if there is one. */
  ghost predicate Says(msgs: seq<Message>, token: Token, early: Option<seq<Port>>) {
    exists i: nat :: FirstEnroll(msgs, i) && msgs[i].token == token && AnnouncedBefore(msgs, i, early)
  }

  ghost predicate AnnouncedBefore(msgs: seq<Message>, end: nat, early: Option<seq<Port>>)
    requires end <= |msgs|
  {
    match early
    case Some(ports) => exists j: nat :: LastAnnounced(msgs, j, end) && msgs[j].ports == ports
    case None => forall j :: 0 <= j < end ==> !msgs[j].ExposedPorts?
  }

  /** Reading stops at the first token, if there is one, and keeps the last
      announcement up to there; `seen` is one from before. */
  lemma {:induction false} PresentedUpTo(msgs: seq<Message>, seen: Option<seq<Port>>, end: nat)
    requires FirstEnroll(msgs, end) || (end == |msgs| && forall j :: 0 <= j < |msgs| ==> !msgs[j].Enroll?)
    ensures var (token, early) := Presented(msgs, seen);
            && token == (if end < |msgs| then Some(msgs[end].token) else None)
            && (forall j: nat :: LastAnnounced(msgs, j, end) ==> early == Some(msgs[j].ports))
            && ((forall j :: 0 <= j < end ==> !msgs[j].ExposedPorts?) ==> early == seen)
    decreases |msgs|
  {
    if end > 0 {
      var rest := msgs[1..];
      var next := if msgs[0].ExposedPorts? then Some(msgs[0].ports) else seen;
      assert forall j :: 0 <= j < |rest| ==> rest[j] == msgs[j + 1];
      PresentedUpTo(rest, next, end - 1);
      forall j: nat | LastAnnounced(msgs, j, end) ensures Presented(msgs, seen).1 == Some(msgs[j].ports) {
        if j > 0 {
          assert LastAnnounced(rest, j - 1, end - 1);
        } else {
          assert forall l :: 0 <= l < end - 1 ==> rest[l] == msgs[l + 1] && !rest[l].ExposedPorts?;
        }
      }
    }
  }

  lemma LastOrNone(msgs: seq<Message>, end: nat) returns (j: nat)
    requires end <= |msgs|
    ensures LastAnnounced(msgs, j, end) || forall l :: 0 <= l < end ==> !msgs[l].ExposedPorts?
  {
    j := end;
    while j > 0 && !msgs[j - 1].ExposedPorts?
      invariant j <= end && forall l :: j <= l < end ==> !msgs[l].ExposedPorts?
    {
      j := j - 1;
    }
    if j > 0 {
      j := j - 1;
    }
  }

  lemma FirstEnrollIfAny(msgs: seq<Message>) returns (i: nat)
    ensures FirstEnroll(msgs, i) || (i == |msgs| && forall j :: 0 <= j < |msgs| ==> !msgs[j].Enroll?)
  {
    i := 0;
    while i < |msgs| && !msgs[i].Enroll?
      invariant i <= |msgs| && forall j :: 0 <= j < i ==> !msgs[j].Enroll?
    {
      i := i + 1;
    }
  }

  /** What reading the messages yields, by their positions. */
  lemma PresentedIff(msgs: seq<Message>, token: Token, early: Option<seq<Port>>)
    ensures Presented(msgs, None) == (Some(token), early) <==> Says(msgs, token, early)
  {
    var end := FirstEnrollIfAny(msgs);
    var last := LastOrNone(msgs, end);
    PresentedUpTo(msgs, None, end);
    if end < |msgs| {
      assert forall i: nat :: FirstEnroll(msgs, i) ==> i == end;
      assert AnnouncedBefore(msgs, end, Presented(msgs, None).1);
      if AnnouncedBefore(msgs, end, early) && early.Some? {
        var j: nat :| LastAnnounced(msgs, j, end) && msgs[j].ports == early.value;
      }
    }
  }

  /** For instance: an announcement, then other messages, then a token. */
  lemma AnnouncementIsKept(before: seq<Message>, ports: seq<Port>, others: seq<Message>, token: Token, rest: seq<Message>)
    requires forall m <- before :: !m.Enroll?
    requires forall m <- others :: m.OtherMessage?
    ensures Presented(before + [ExposedPorts(ports)] + others + [Enroll(token)] + rest, None) == (Some(token), Some(ports))
  {
    var msgs := before + [ExposedPorts(ports)] + others + [Enroll(token)] + rest;
    var j, i := |before|, |before| + 1 + |others|;
    assert forall l :: 0 <= l < j ==> msgs[l] == before[l] && msgs[l] in before;
    assert forall l :: j < l < i ==> msgs[l] == others[l - j - 1] && msgs[l] in others;
    assert msgs[j] == ExposedPorts(ports) && msgs[i] == Enroll(token);
    assert FirstEnroll(msgs, i) && LastAnnounced(msgs, j, i);
    PresentedIff(msgs, token, Some(ports));
  }

  /** An early announcement collides exactly when some other peer that answers the probe
      holds the target of one of its ports. */
  lemma CollidesIff(w: World, k: Key, early: Option<seq<Port>>, check: set<Key>)
    requires Ledger(w)
    ensures Collides(w, k, early, check) <==> early.Some? && exists p <- early.value :: Contested(w, k, p, check)
  {
    if early.Some? {
      forall p <- early.value
        ensures Contested(w, k, p, check) <==>
                  Holder(w, LocalFor(w, p), k).Some? && Holder(w, LocalFor(w, p), k).value in check
      {
        HolderIsListener(w, LocalFor(w, p), k);
        if Holder(w, LocalFor(w, p), k).Some? {
          assert HoldsTarget(w, Holder(w, LocalFor(w, p), k).value, p);
        }
      }
    }
  }

  /** Who is enrolled: the messages present a token that can be claimed, and no port
      announced before it is held by a peer that answers the probe. */
  lemma EnrolleeIff(w: World, k: Key, msgs: seq<Message>, now: Instant, check: set<Key>, name: string)
    requires Ledger(w)
    ensures Enrollee(w, k, msgs, now, check) == Some(name) <==>
              exists token, early :: Says(msgs, token, early) && ClaimToken(w.tokens, token, now).1 == Some(name)
                && !(early.Some? && exists p <- early.value :: Contested(w, k, p, check))
  {
    var (token, early) := Presented(msgs, None);
    CollidesIff(w, k, early, check);
    if token.Some? {
      PresentedIff(msgs, token.value, early);
    }
    forall token', early' | Says(msgs, token', early') ensures (token, early) == (Some(token'), early') {
      PresentedIff(msgs, token', early');
    }
  }

  /** A connection that enrolls no one is refused: it is closed, and nothing but
      the token table changes, which only loses entries. */
  lemma RefusedChangesNothing(w: World, k: Key, conn: ConnId, msgs: seq<Message>, now: Instant, check: set<Key>, env: Env)
    requires k !in w.peers
    requires Enrollee(w, k, msgs, now, check).None?
    ensures var w' := HandleConnection(w, k, conn, msgs, now, check, env);
            && w' == w.(tokens := w'.tokens, closed := w.closed + {conn})
            && forall t <- w'.tokens :: t in w.tokens && w'.tokens[t] == w.tokens[t]
  {
  }

  /** A known peer's old connection is closed and the new one installed, and nothing else
      changes, whatever it presents. */
  lemma KnownReconnects(w: World, k: Key, conn: ConnId, msgs: seq<Message>, now: Instant, check: set<Key>, env: Env)
    requires k in w.peers
    ensures var w' := HandleConnection(w, k, conn, msgs, now, check, env);
            && w' == w.(closed := w'.closed, peers := w'.peers)
            && w'.peers == w.peers[k := w.peers[k].(conn := Some(conn))]
            && (forall c :: c in w'.closed <==> c in w.closed || w.peers[k].conn == Some(c))
  {
  }

  /** An enrolled peer is registered and pinned under the token's label, unless
      the announcement that follows rejects it, which happens exactly when a peer
      that is live by then holds the target of one of its ports; a rejected one
      leaves neither a pin nor a grant behind. */
  lemma EnrolledOutcome(w: World, k: Key, conn: ConnId, msgs: seq<Message>, now: Instant, check: set<Key>, env: Env,
                        token: Token, early: Option<seq<Port>>, name: string)
    requires Sound(w) && k !in w.peers && Says(msgs, token, early) && ClaimToken(w.tokens, token, now).1 == Some(name)
    requires !(early.Some? && exists p <- early.value :: Contested(w, k, p, check))
    ensures var w' := HandleConnection(w, k, conn, msgs, now, check, env);
            && (k in w'.peers <==> !(early.Some? && exists p <- early.value :: Contested(w, k, p, env.alive)))
            && (if k in w'.peers then
                  && Pin(Printed(k), name) in w'.pins && w'.peers[k].name == Some(name) && w'.peers[k].conn == Some(conn)
                  && !w'.peers[k].dial && w'.peers[k].exposed == (if early.Some? then early.value else [])
                else
                  && (forall pin <- w'.pins :: Names(pin.text, k) ==> pin.text.Respelled? && pin in w.pins)
                  && (forall p: Port :: (p, k) !in w'.grants) && conn in w'.closed)
  {
    PresentedIff(msgs, token, early);
    CollidesIff(w, k, early, check);
    var w1 := Enrolled(w, k, conn, msgs, now, check);
    ConnectionCases(w, k, conn, msgs, now, check, env);
    WithPinHas(w.pins, Printed(k), name);
    assert Pin(Printed(k), name) in w1.pins;
    if early.Some? {
      NewcomerContested(w, w1, k, early.value, env.alive);
      EarlyOutcome(w1, k, early.value, env);
    }
  }

  /** What a new peer's early announcement leaves of it. */
  lemma EarlyOutcome(w1: World, k: Key, ports: seq<Port>, env: Env)
    requires Consistent(w1) && k in w1.peers && w1.peers[k].conn.Some?
    ensures var w' := Announce(w1, k, ports, env);
            && (k in w'.peers <==> !exists p <- ports :: Contested(w1, k, p, env.alive))
            && (if k in w'.peers then
                  && w'.peers[k] == w1.peers[k].(exposed := ports, bindings := w'.peers[k].bindings)
                  && forall pin <- w1.pins :: Names(pin.text, k) ==> pin in w'.pins
                else
                  && (forall pin <- w'.pins :: Names(pin.text, k) ==> pin.text.Respelled? && pin in w1.pins)
                  && (forall p: Port :: (p, k) !in w'.grants) && w1.peers[k].conn.value in w'.closed)
  {
    RejectedIff(w1, k, ports, env);
    RestOfPass(w1, k, ports, env);
    WithoutPinsKeeps(w1.pins, Lost(w1, k, ports, env));
    if k in Announce(w1, k, ports, env).peers {
      AnnouncerRecord(w1, k, ports, env);
    } else {
      RejectedCloses(w1, k, ports, env);
    }
  }

  lemma NewcomerContested(w: World, w1: World, k: Key, ports: seq<Port>, alive: set<Key>)
    requires w1.binds == w.binds && forall x :: x != k ==> (x in w.peers <==> x in w1.peers)
    requires forall x <- w.peers :: x != k ==> w1.peers[x] == w.peers[x]
    ensures forall p: Port :: Contested(w1, k, p, alive) <==> Contested(w, k, p, alive)
  {
  }

  lemma RejectedCloses(w: World, k: Key, ports: seq<Port>, env: Env)
    requires Consistent(w) && k in w.peers && k !in Announce(w, k, ports, env).peers && w.peers[k].conn.Some?
    ensures w.peers[k].conn.value in Announce(w, k, ports, env).closed
  {
    AnnouncementOutcome(w, k, ports, env);
    var n := FirstContested(w, k, ports, 0, env.alive);
    var gone := Reclaimed(w, k, ports, 0, n, env.alive) + {k};
    assert w.peers[k].conn.value in ConnsOf(w, k);
    assert w.peers[k].conn.value in ClosedBy(w, gone);
  }

  /** Pinning the same key under the same label again changes nothing. */
  lemma PinIsIdempotent(w: World, text: KeyText, name: string)
    requires !text.NoKey?
    ensures PinPeer(PinPeer(w, text, name), text, name) == PinPeer(w, text, name)
  {
    WithPinTwice(w.pins, text, name);
  }

  /** A pin under a new label rewrites the file but not the live peer, which takes
      the label the file has for it at the next start: at once the two agree
      exactly when the key was new or the live peer had that label already, and
      after a restart always, if no other row names the key. */
  lemma PinnedLabelAgreesIff(w: World, text: KeyText, name: string, foreign: set<Port>)
    requires !text.NoKey?
    ensures var w' := PinPeer(w, text, name);
            && Pin(text, name) in w'.pins
            && (w'.peers[text.key].name == Some(name) <==> text.key !in w.peers || w.peers[text.key].name == Some(name))
            && ((forall pin <- w.pins :: Names(pin.text, text.key) ==> pin.text == text) ==>
                  text.key in Boot(w'.pins, foreign).peers && Boot(w'.pins, foreign).peers[text.key].name == Some(name))
  {
    var pins' := PinPeer(w, text, name).pins;
    WithPinHas(w.pins, text, name);
    assert Pin(text, name) in pins';
    PinnedIsPins(pins');
    assert text.key in PinnedKeys(pins');
  }
}
