/** One peer's connection loop, interleaved with the handlers of its incoming
    connections and with the operation that evicts it.

    The three share a connection slot, a wake-up with room for one permit, and a
    `removed` flag. Each event below is what one of them does between two points
    where the others may run. */
module ConnectionLoop {
  import opened Common

  /** Where the loop is. The last four are the reconnecting branch, which only
      peers this side dials ever enter. */
  datatype Pc =
    | Top                // about to look whether a connection is installed
    | Entering           // about to pick the installed connection up
    | Running(conn: ConnId)
    | Ended              // the connection ended, or was gone before it ran
    | Checking           // about to read the flag
    | Waiting            // waiting for a permit
    | Woken              // got one, about to read the flag
    | Exited
    | Backoff | Sleeping | Slept | Connecting

  /** How far the eviction is: out of the registry, flag set, wake-up sent,
      connection taken and closed. */
  datatype Evictor = Idle | Unlinked | Flagged | Notified | Done

  /** `found` handlers have looked the peer up and hold its registry entry;
      `owing` of them have installed their connection and not yet sent the
      wake-up. `known` are the connections that ever existed, `open` those that
      neither side has closed, `served` those the loop has run. */
  datatype State = State(
    dial: bool,
    pc: Pc,
    slot: Option<ConnId>,
    permit: bool,
    removed: bool,
    found: nat,
    owing: nat,
    evictor: Evictor,
    known: set<ConnId>,
    open: set<ConnId>,
    served: set<ConnId>)

  datatype Event =
    | Loop                             // the loop goes on
    | Timer                            // the backoff timer fires
    | Dialed(reached: Option<ConnId>)  // the dial returns
    | Find | Install(conn: ConnId) | Wake        // a handler
    | Unlink | Flag | SendWake | Take            // the evictor
    | Hangup(conn: ConnId)             // a connection dies

  predicate LoopCanGo(s: State) {
    match s.pc
    case Running(c) => c !in s.open
    case Waiting => s.permit
    case Sleeping => s.permit
    case Connecting => false
    case Exited => false
    case _ => true
  }

  predicate Enabled(s: State, e: Event) {
    match e
    case Loop => LoopCanGo(s)
    case Timer => s.pc == Sleeping
    case Dialed(c) => s.pc == Connecting && (c.Some? ==> c.value !in s.known)
    case Find => s.evictor == Idle
    case Install(c) => s.found > 0 && c !in s.known
    case Wake => s.owing > 0
    // Removing the registry entry waits for every handler holding it.
    case Unlink => s.evictor == Idle && s.found == 0 && s.owing == 0
    case Flag => s.evictor == Unlinked
    case SendWake => s.evictor == Flagged
    case Take => s.evictor == Notified
    case Hangup(c) => c in s.open
  }

  function LoopStep(s: State): State
    requires LoopCanGo(s)
  {
    match s.pc
    case Top => s.(pc := if s.slot.Some? then Entering else Checking)
    case Entering =>
      if s.slot.Some? then s.(pc := Running(s.slot.value), served := s.served + {s.slot.value})
      else s.(pc := Ended)
    case Running(_) => s.(pc := Ended)
    case Ended => s.(pc := if s.removed then Exited else Checking)
    case Checking => s.(pc := if s.removed then Exited else if s.dial then Backoff else Waiting)
    case Waiting => s.(pc := Woken, permit := false)
    case Woken => s.(pc := if s.removed then Exited else Top)
    case Backoff => s.(pc := if s.removed then Exited else Sleeping)
    case Sleeping => s.(pc := Top, permit := false)
    case Slept => s.(pc := if s.removed then Exited else Connecting)
  }

  function Next(s: State, e: Event): State
    requires Enabled(s, e)
  {
    match e
    case Loop => LoopStep(s)
    case Timer => s.(pc := Slept)
    case Dialed(c) =>
      // The dialled connection replaces the installed one unconditionally.
      if c.Some? then s.(pc := Top, slot := c, known := s.known + {c.value}, open := s.open + {c.value})
      else s.(pc := Backoff)
    case Find => s.(found := s.found + 1)
    case Install(c) =>
      s.(found := s.found - 1, owing := s.owing + 1, slot := Some(c),
         known := s.known + {c}, open := s.open - ConnSet(s.slot) + {c})
    case Wake => s.(owing := s.owing - 1, permit := true)
    case Unlink => s.(evictor := Unlinked)
    case Flag => s.(evictor := Flagged, removed := true)
    case SendWake => s.(evictor := Notified, permit := true)
    case Take => s.(evictor := Done, slot := None, open := s.open - ConnSet(s.slot))
    case Hangup(c) => s.(open := s.open - {c})
  }

  /** A peer starts with the connection it was created over, or with none. */
  predicate Initial(s: State) {
    && s.pc == Top && !s.permit && !s.removed && s.found == 0 && s.owing == 0 && s.evictor == Idle
    && (s.dial ==> s.slot.Some?)
    && s.known == ConnSet(s.slot) && s.open == s.known && s.served == {}
  }

  /** `s'` is reached from `s` by `events`. */
  predicate Runs(s: State, events: seq<Event>, s': State)
    decreases |events|
  {
    if events == [] then s' == s
    else Enabled(s, events[0]) && Runs(Next(s, events[0]), events[1..], s')
  }

  ghost predicate Reachable(s: State) {
    exists s0, events :: Initial(s0) && Runs(s0, events, s)
  }

  // --------------------------------------------------------------- invariants

  predicate Unserved(s: State) {
    s.slot.Some? && s.slot.value !in s.served
  }

  /** The loop looks at the slot before it waits. */
  predicate WillLook(pc: Pc) {
    pc in {Top, Entering, Woken}
  }

  predicate DialBranch(pc: Pc) {
    pc in {Backoff, Sleeping, Slept, Connecting}
  }

  predicate Inv(s: State) {
    && ConnSet(s.slot) <= s.known && s.open <= s.known && s.served <= s.known
    // a connection not yet run has its wake-up pending, or due, or unneeded
    && (Unserved(s) ==> s.permit || s.owing > 0 || WillLook(s.pc) || s.pc == Exited)
    && (s.pc.Running? ==> s.pc.conn in s.served && (s.slot == Some(s.pc.conn) || s.pc.conn !in s.open))
    && (s.pc == Exited ==> s.removed)
    && (s.removed <==> s.evictor in {Flagged, Notified, Done})
    && (s.evictor != Idle ==> s.found == 0 && s.owing == 0)
    && (!s.dial ==> !DialBranch(s.pc))
    // the eviction's wake-up is pending until the loop has read the flag
    && (!s.dial && s.evictor in {Notified, Done} ==> s.permit || s.pc in {Woken, Exited})
    && (!s.dial && s.evictor == Done ==> s.slot == None)
    && (s.evictor == Done && !s.dial && s.pc.Running? ==> s.pc.conn !in s.open)
  }

  lemma NextKeepsInv(s: State, e: Event)
    requires Inv(s) && Enabled(s, e)
    ensures Inv(Next(s, e))
  {
  }

  lemma {:induction false} RunsKeepInv(s: State, events: seq<Event>, s': State)
    requires Inv(s) && Runs(s, events, s')
    ensures Inv(s')
    decreases |events|
  {
    if events != [] {
      NextKeepsInv(s, events[0]);
      RunsKeepInv(Next(s, events[0]), events[1..], s');
    }
  }

  lemma ReachableInv(s: State)
    requires Reachable(s)
    ensures Inv(s)
  {
    var s0, events :| Initial(s0) && Runs(s0, events, s);
    RunsKeepInv(s0, events, s);
  }

  // ----------------------------------------------------------------- theorems

  /** No lost wake-up, under any interleaving: if the loop of a peer that phones
      home is parked with no permit pending, and no handler and no evictor is
      mid-step, then the peer was not removed, and the installed connection, if
      there is one, is one the loop has already run. */
  lemma NoLostWakeup(s: State)
    requires Reachable(s) && !s.dial && s.pc == Waiting && !s.permit
    requires s.found == 0 && s.owing == 0 && s.evictor in {Idle, Done}
    ensures !s.removed && s.evictor == Idle
    ensures s.slot.Some? ==> s.slot.value in s.served
  {
    ReachableInv(s);
  }

  /** The same for a peer this side dials, whose loop sleeps between dials. */
  lemma NoLostWakeupAsleep(s: State)
    requires Reachable(s) && s.pc == Sleeping && !s.permit && s.owing == 0
    ensures s.slot.Some? ==> s.slot.value in s.served
  {
    ReachableInv(s);
  }

  /** Connection `c` is installed and open, and the loop has not run it. */
  predicate Fresh(s: State, c: ConnId) {
    s.slot == Some(c) && c in s.open && c !in s.served
  }

  /** Connection `c` is no longer installed, though neither side closed it, and it
      never ran. The transport closes it once nobody holds it. */
  predicate Dropped(s: State, c: ConnId) {
    c in s.known && s.slot != Some(c) && c in s.open && c !in s.served
  }

  /** The loop ends only for a peer that was removed. */
  lemma ExitsOnlyRemoved(s: State)
    requires Reachable(s) && s.pc == Exited
    ensures s.removed
  {
    ReachableInv(s);
  }

  function Loops(n: nat): seq<Event> {
    if n == 0 then [] else [Loop] + Loops(n - 1)
  }

  /** How many steps of its own the loop is away from running what is installed. */
  function StepsToRun(pc: Pc): nat {
    match pc
    case Entering => 1
    case Top => 2
    case Woken => 3
    case Sleeping => 3
    case Waiting => 4
    case Backoff => 4
    case Checking => 5
    case Ended => 6
    case Running(_) => 7
    case _ => 0
  }

  /** Progress: a fresh connection of a peer that is not removed, with no wake-up still
      to be sent, is run by the loop's own next steps, a number of them that is known,
      each of which it can take; unless a dial is on the way. */
  lemma FreshRuns(s: State, c: ConnId) returns (s': State)
    requires Reachable(s) && Fresh(s, c) && !s.removed && s.owing == 0 && s.pc !in {Slept, Connecting}
    ensures Runs(s, Loops(StepsToRun(s.pc)), s') && s'.pc == Running(c) && c in s'.served
    decreases StepsToRun(s.pc)
  {
    ReachableInv(s);
    var s1 := Then(s, Loop);
    if s.pc == Entering {
      s' := s1;
      assert Loops(1) == [Loop] && Runs(s1, [Loop][1..], s1);
    } else {
      s' := FreshRuns(s1, c);
      assert Loops(StepsToRun(s.pc))[1..] == Loops(StepsToRun(s1.pc));
    }
  }

  /** When a connection that ran has died, three steps bring the loop of a peer that is
      not removed to where it waits, for a wake-up or for its next dial. */
  lemma DeadConnectionParks(s: State) returns (s': State)
    requires s.pc.Running? && s.pc.conn !in s.open && !s.removed
    ensures Runs(s, Loops(3), s') && s' == s.(pc := if s.dial then Backoff else Waiting)
  {
    s' := s.(pc := if s.dial then Backoff else Waiting);
    assert Loops(3) == [Loop, Loop, Loop];
    assert Loops(3)[1..] == [Loop, Loop] && [Loop, Loop][1..] == [Loop] && [Loop][1..] == [];
    var s1, s2 := Next(s, Loop), Next(Next(s, Loop), Loop);
    assert Runs(s2, [Loop], s') && Runs(s1, [Loop, Loop], s');
  }

  /** A sleeping peer that is not removed dials when its timer fires. Reached, it runs
      the new connection. */
  lemma TimerDials(s: State, c: ConnId) returns (s': State)
    requires s.pc == Sleeping && !s.removed && c !in s.known
    ensures Runs(s, [Timer, Loop, Dialed(Some(c)), Loop, Loop], s') && s'.pc == Running(c)
  {
    var s2 := Next(Next(s, Timer), Loop);
    var s3 := Next(s2, Dialed(Some(c)));
    s' := Next(Next(s3, Loop), Loop);
    assert Runs(s', [], s');
    OneFirst(Next(s3, Loop), Loop, [], s');
    OneFirst(s3, Loop, [Loop], s');
    OneFirst(s2, Dialed(Some(c)), [Loop, Loop], s');
    OneFirst(Next(s, Timer), Loop, [Dialed(Some(c)), Loop, Loop], s');
    OneFirst(s, Timer, [Loop, Dialed(Some(c)), Loop, Loop], s');
  }

  /** Not reached, it sleeps again. */
  lemma FailedDialSleeps(s: State)
    requires s.pc == Sleeping && !s.removed
    ensures Runs(s, [Timer, Loop, Dialed(None), Loop], s)
  {
    var s2 := Next(Next(s, Timer), Loop);
    assert Runs(s, [], s);
    OneFirst(Next(s2, Dialed(None)), Loop, [], s);
    OneFirst(s2, Dialed(None), [Loop], s);
    OneFirst(Next(s, Timer), Loop, [Dialed(None), Loop], s);
    OneFirst(s, Timer, [Loop, Dialed(None), Loop], s);
  }

  lemma OneFirst(s: State, e: Event, events: seq<Event>, s': State)
    requires Enabled(s, e) && Runs(Next(s, e), events, s')
    ensures Runs(s, [e] + events, s')
  {
    assert ([e] + events)[1..] == events;
  }

  /** A fresh connection is dropped without being closed by either side in one way
      only: a dial that was in flight when it was installed returns with another. */
  lemma DroppedIffDialReturns(s: State, c: ConnId, e: Event)
    requires Reachable(s) && Fresh(s, c) && Enabled(s, e)
    ensures Dropped(Next(s, e), c) <==> e.Dialed? && e.reached.Some?
  {
    ReachableInv(s);
  }

  /** The loop never runs it then. */
  lemma DroppedNeverRuns(s: State, c: ConnId, events: seq<Event>, s': State)
    requires Reachable(s) && Dropped(s, c) && Runs(s, events, s')
    ensures c !in s'.served && s'.slot != Some(c)
  {
    ReachableInv(s);
    StaysDropped(s, c, events, s');
  }

  lemma {:induction false} StaysDropped(s: State, c: ConnId, events: seq<Event>, s': State)
    requires Inv(s) && c in s.known && s.slot != Some(c) && c !in s.served && Runs(s, events, s')
    ensures c !in s'.served && s'.slot != Some(c)
    decreases |events|
  {
    if events != [] {
      NextKeepsInv(s, events[0]);
      StaysDropped(Next(s, events[0]), c, events[1..], s');
    }
  }

  /** How many steps the loop of an evicted peer that phones home has left. */
  function Rank(pc: Pc): nat {
    match pc
    case Exited => 0
    case Woken => 1
    case Checking => 1
    case Ended => 1
    case _ => 2
  }

  function LoopSteps(events: seq<Event>): nat {
    if events == [] then 0 else (if events[0] == Loop then 1 else 0) + LoopSteps(events[1..])
  }

  lemma EvictedStep(s: State, e: Event)
    requires Inv(s) && !s.dial && s.evictor == Done && Enabled(s, e)
    ensures var s' := Next(s, e);
            && s'.evictor == Done && !s'.dial
            && Rank(s'.pc) + (if e == Loop then 1 else 0) <= Rank(s.pc)
  {
  }

  /** After a completed eviction of a peer that phones home, the loop never gets
      stuck before it exits, every step it takes uses up one of at most two, and
      nothing else gives any back; and no connection is ever installed again. */
  lemma {:induction false} EvictedLoopExits(s: State, events: seq<Event>, s': State)
    requires Reachable(s) && !s.dial && s.evictor == Done && Runs(s, events, s')
    ensures LoopSteps(events) + Rank(s'.pc) <= Rank(s.pc) <= 2
    ensures s'.pc == Exited || LoopCanGo(s')
    ensures s'.slot == None
  {
    ReachableInv(s);
    EvictedCount(s, events, s');
  }

  lemma {:induction false} EvictedCount(s: State, events: seq<Event>, s': State)
    requires Inv(s) && !s.dial && s.evictor == Done && Runs(s, events, s')
    ensures Inv(s') && !s'.dial && s'.evictor == Done
    ensures LoopSteps(events) + Rank(s'.pc) <= Rank(s.pc)
    decreases |events|
  {
    if events != [] {
      EvictedStep(s, events[0]);
      NextKeepsInv(s, events[0]);
      EvictedCount(Next(s, events[0]), events[1..], s');
    }
  }

  // ------------------------------------------------------- peers this side dials

  lemma {:induction false} StaysEmpty(s: State, events: seq<Event>, s': State)
    requires Inv(s) && s.evictor == Done && s.slot == None && s.pc != Connecting && Runs(s, events, s')
    ensures s'.slot == None
    decreases |events|
  {
    if events != [] {
      NextKeepsInv(s, events[0]);
      StaysEmpty(Next(s, events[0]), events[1..], s');
    }
  }

  lemma {:induction false} FreshConn(known: set<ConnId>) returns (c: ConnId)
    ensures c !in known && forall k <- known :: k < c
    decreases |known|
  {
    if known == {} {
      c := 0;
    } else {
      var k :| k in known;
      var d := FreshConn(known - {k});
      c := if d > k then d else k + 1;
      assert forall x <- known :: x == k || x in known - {k};
    }
  }

  /** A run from `s` that ends with a connection installed. */
  ghost predicate Refills(s: State, events: seq<Event>, s': State) {
    Runs(s, events, s') && s'.slot.Some?
  }

  /** The dialling branch does not read the flag again after its dial, so an
      eviction that completes while a dial is in flight can be followed by a new
      connection on the evicted peer. That is the only case: some run after a
      completed eviction installs a connection exactly when a dial was in flight. */
  lemma EvictedSlotRefillsIff(s: State)
    requires Reachable(s) && s.evictor == Done && s.slot == None
    ensures (exists events, s' :: Refills(s, events, s')) <==> s.pc == Connecting
  {
    ReachableInv(s);
    if s.pc == Connecting {
      var c := FreshConn(s.known);
      var e := Dialed(Some(c));
      assert Runs(s, [], s);
      RunsThen(s, [], s, e);
      assert Refills(s, [] + [e], Next(s, e));
    } else {
      forall events, s' | Runs(s, events, s') ensures s'.slot == None {
        StaysEmpty(s, events, s');
      }
    }
  }

  lemma {:induction false} RunsThen(s: State, events: seq<Event>, s': State, e: Event)
    requires Runs(s, events, s') && Enabled(s', e)
    ensures Runs(s, events + [e], Next(s', e))
    decreases |events|
  {
    if events == [] {
      assert [e][1..] == [];
    } else {
      RunsThen(Next(s, events[0]), events[1..], s', e);
      assert (events + [e])[1..] == events[1..] + [e];
    }
  }

  lemma Then(s: State, e: Event) returns (s': State)
    requires Reachable(s) && Enabled(s, e)
    ensures Reachable(s') && s' == Next(s, e)
  {
    var s0, events :| Initial(s0) && Runs(s0, events, s);
    RunsThen(s0, events, s, e);
    s' := Next(s, e);
  }

  /** A dialled peer that lost its connection, with its redial in flight. */
  const REDIALING := State(true, Connecting, Some(0), false, false, 0, 0, Idle, {0}, {}, {0})

  lemma RedialingIsReached()
    ensures Reachable(REDIALING)
  {
    var s := State(true, Top, Some(0), false, false, 0, 0, Idle, {0}, {0}, {});
    assert Runs(s, [], s) && Reachable(s);
    s := Then(s, Loop);
    s := Then(s, Loop);
    assert s == State(true, Running(0), Some(0), false, false, 0, 0, Idle, {0}, {0}, {0});
    s := Then(s, Hangup(0));
    s := Then(s, Loop);
    s := Then(s, Loop);
    s := Then(s, Loop);
    s := Then(s, Loop);
    s := Then(s, Timer);
    s := Then(s, Loop);
    assert s == REDIALING;
  }

  /** Such a run: the peer is evicted while its redial is in flight, and its
      loop then runs the connection the dial returned. */
  lemma EvictedDialPeerRunsAgain()
    ensures exists s :: Reachable(s) && s.removed && s.evictor == Done && s.pc == Running(1) && 1 in s.open
  {
    RedialingIsReached();
    var s := Then(REDIALING, Unlink);
    s := Then(s, Flag);
    s := Then(s, SendWake);
    s := Then(s, Take);
    s := Then(s, Dialed(Some(1)));
    s := Then(s, Loop);
    s := Then(s, Loop);
  }

  /** An incoming connection is installed while a redial is in flight; the dial
      returns with another, and the first is dropped without being run. */
  lemma IncomingIsDropped()
    ensures exists s :: Reachable(s) && Dropped(s, 1)
  {
    RedialingIsReached();
    var s := Then(REDIALING, Find);
    s := Then(s, Install(1));
    s := Then(s, Dialed(Some(2)));
    assert Dropped(s, 1);
  }
}
