/** Which event a signal must end in, told from the bus alone: what is on the ports, and which
  * transfers work.
  */
module HubOutcomes {
  import opened Machine
  import opened BitSets
  import opened Topologies
  import opened Wirings
  import opened HubProtocol

  // ---- the bus, transfer by transfer ----

  /** The wiring at transfer number `t`, from what it was after the one before. */
  function Later(bus: nat -> Reply, w: Wiring, t: nat): Wiring {
    Happened(w, bus(t).before)
  }

  /** Transfer number `t` to that address works: the bus lets it, and somebody has the address. */
  predicate Works(bus: nat -> Reply, w: Wiring, t: nat, address: nat) {
    !bus(t).fails && exists h :: h in Later(bus, w, t) && HasAddress(Later(bus, w, t), h, address)
  }

  /** The lowest change bit that is set. */
  ghost predicate Lowest(changes: seq<bool>, b: nat) {
    b < |changes| && changes[b] && forall i :: 0 <= i < b ==> !changes[i]
  }

  /** The hub reports a change of connection on the port. */
  predicate ConnectionChange(reply: Reply) {
    reply.changes != [] && reply.changes[0]
  }

  /** The host is about to look at that port of that hub, the least it has left. */
  ghost predicate AtPort(s: State, hub: nat, port: nat) {
    && s.pc.Ports? && s.pc.hub == hub && port in Members(s.pc.bits)
    && forall n :: n in Members(s.pc.bits) ==> port <= n
  }

  /** It has gone on to the next. */
  ghost predicate WentOn(s: State, hub: nat, port: nat, s': State) {
    s.pc.Ports? && s'.pc.Ports? && s'.pc.hub == hub && Members(s'.pc.bits) == Members(s.pc.bits) - {port}
  }

  lemma PortIsTrailing(s: State, hub: nat, port: nat)
    requires AtPort(s, hub, port)
    ensures port < 32 && Trailing(s.pc.bits, false) == port
    ensures Members(s.pc.bits[port := false]) == Members(s.pc.bits) - {port}
  {
    var n := Trailing(s.pc.bits, false);
    assert n <= port;
    assert n in Members(s.pc.bits);
    MembersSet(s.pc.bits, port);
  }

  lemma LowestIs(changes: seq<bool>)
    ensures var b := Trailing(changes, false);
      (b < |changes| ==> Lowest(changes, b)) && (forall i: nat :: Lowest(changes, i) ==> i == b)
  {
  }

  /** The protocol's word for a transfer that works. */
  lemma GoesIs(bus: nat -> Reply, s: State, address: nat)
    ensures Goes(bus, s, address) <==> Works(bus, s.w, s.clock, address)
    ensures Now(bus, s) == Later(bus, s.w, s.clock)
  {
    var w := Now(bus, s);
    assert w == Later(bus, s.w, s.clock);
    if Works(bus, s.w, s.clock, address) {
      var h :| h in w && HasAddress(w, h, address);
      assert Heeded(w, address);
    }
    hide Now, Later;
  }

  // ---- drives ----

  lemma DriveOne(bus: nat -> Reply, s: State)
    ensures Drive(bus, s, 1) == Step(bus, s)
  {
    hide Step;
    assert Drive(bus, s, 0) == s;
  }

  lemma {:induction false} DriveOn(bus: nat -> Reply, s: State, m: nat, n: nat)
    ensures Drive(bus, Drive(bus, s, m), n) == Drive(bus, s, m + n)
  {
    hide Step;
    if n > 0 {
      DriveOn(bus, s, m, n - 1);
    }
  }

  /** A signal ends in the first idle state the host comes to. */
  lemma SignalEnds(bus: nat -> Reply, s: State, signal: Signal, s': State, n: nat)
    requires Handles(bus, s, signal, s') && Drive(bus, Begin(bus, s, signal), n).pc.Idle?
    ensures s' == Drive(bus, Begin(bus, s, signal), n)
  {
    hide Begin, Step;
    var b := Begin(bus, s, signal);
    var m: nat :| Drive(bus, b, m) == s';
    if m <= n {
      DriveOn(bus, b, m, n - m);
      StaysIdle(bus, s', n - m);
    } else {
      DriveOn(bus, b, n, m - n);
      StaysIdle(bus, Drive(bus, b, n), m - n);
    }
  }

  // ---- one port ----

  /** Nothing to do for the port: no change, or one there is nothing to clear of. */
  lemma NoChange(bus: nat -> Reply, s: State, hub: nat, port: nat)
    requires AtPort(s, hub, port) && Works(bus, s.w, s.clock, hub)
    requires forall b: nat :: Lowest(bus(s.clock).changes, b) ==> b >= 5
    ensures var s' := Drive(bus, s, 1);
      WentOn(s, hub, port, s') && s'.t == s.t && s'.w == Later(bus, s.w, s.clock) && s'.clock == s.clock + 1
  {
    PortIsTrailing(s, hub, port);
    LowestIs(bus(s.clock).changes);
    DriveOne(bus, s);
    GoesIs(bus, s, hub);
    hide Goes, Works, Now, Later, Trailing, Occupied, Members;
  }

  /** The port's status cannot be read. */
  lemma StatusLost(bus: nat -> Reply, s: State, hub: nat, port: nat)
    requires AtPort(s, hub, port) && !Works(bus, s.w, s.clock, hub)
    ensures var s' := Drive(bus, s, 1); s'.pc == Idle(EnumerationError(0, 1, BeforeReset)) && s'.t == s.t
  {
    PortIsTrailing(s, hub, port);
    DriveOne(bus, s);
    GoesIs(bus, s, hub);
    hide Goes, Works, Now, Later, Trailing, Occupied, Members;
  }

  /** After the status of a port with something to clear. */
  lemma StatusRead(bus: nat -> Reply, s: State, hub: nat, port: nat, b: nat)
    requires AtPort(s, hub, port) && Works(bus, s.w, s.clock, hub)
    requires Lowest(bus(s.clock).changes, b) && b < 5
    ensures var s' := Step(bus, s); var w := Later(bus, s.w, s.clock);
      && s'.pc == Clearing(hub, s.pc.bits[port := false], port, b, Occupied(w, hub, port))
      && s'.w == w && s'.t == s.t && s'.clock == s.clock + 1
    ensures Members(s.pc.bits[port := false]) == Members(s.pc.bits) - {port} && port < 32
  {
    PortIsTrailing(s, hub, port);
    LowestIs(bus(s.clock).changes);
    GoesIs(bus, s, hub);
    hide Goes, Works, Now, Later, Trailing, Occupied, Members;
  }

  /** A change that is not of connection is cleared, and that is all. */
  lemma OtherChange(bus: nat -> Reply, s: State, hub: nat, port: nat, b: nat)
    requires AtPort(s, hub, port) && Works(bus, s.w, s.clock, hub)
    requires Lowest(bus(s.clock).changes, b) && 1 <= b < 5
    ensures var s' := Drive(bus, s, 2); var w := Later(bus, s.w, s.clock);
      && s'.t == s.t
      && if Works(bus, w, s.clock + 1, hub) then
           WentOn(s, hub, port, s') && s'.w == Later(bus, w, s.clock + 1) && s'.clock == s.clock + 2
         else s'.pc == Idle(EnumerationError(0, 1, BeforeReset))
  {
    StatusRead(bus, s, hub, port, b);
    DriveOne(bus, s);
    var s1 := Drive(bus, s, 1);
    DriveOne(bus, s1);
    DriveOn(bus, s, 1, 1);
    GoesIs(bus, s1, hub);
    hide Goes, Works, Now, Later, Occupied, Members, Disconnected, Mask, Lowest, Drive, AtPort;
  }

  /** A change of connection on an empty port: everything that was downstream is reported gone,
    * and forgotten.
    */
  lemma Unplugged(bus: nat -> Reply, s: State, hub: nat, port: nat)
    requires AtPort(s, hub, port) && ConnectionChange(bus(s.clock))
    requires Works(bus, s.w, s.clock, hub) && Works(bus, Later(bus, s.w, s.clock), s.clock + 1, hub)
    requires !Occupied(Later(bus, s.w, s.clock), hub, port)
    ensures var s' := Drive(bus, s, 2);
      && s'.pc.Idle? && s'.pc.event.Disconnect?
      && Members(s'.pc.event.mask) ==
           (if hub < MAX_HUBS && port < MAX_PORTS then Downstream(s.t, hub, port) else {})
      && s'.t == Disconnected(s.t, hub, port)
  {
    assert Lowest(bus(s.clock).changes, 0);
    StatusRead(bus, s, hub, port, 0);
    DriveOne(bus, s);
    var s1 := Drive(bus, s, 1);
    DriveOne(bus, s1);
    DriveOn(bus, s, 1, 1);
    MaskMeans(s.t, hub, port);
    hide Happened, Occupied, Members, Disconnected, Mask, Lowest, Drive;
  }

  lemma MaskMeans(t: Table, hub: nat, port: nat)
    ensures Members(Mask(t, hub, port)) == if hub < MAX_HUBS && port < MAX_PORTS then Downstream(t, hub, port) else {}
  {
    hide Below;
  }

  /** The port's wiring as its connection is followed up: at its second look. */
  function AfterReset(bus: nat -> Reply, w: Wiring, t: nat, hub: nat, port: nat): Wiring {
    PortReset(Later(bus, w, t), hub, port, bus(t).enables)
  }

  /** The transfers up to and including the second look at a port all work. */
  predicate ResetWorks(bus: nat -> Reply, w: Wiring, t: nat, hub: nat, port: nat) {
    var w1 := Later(bus, w, t);
    var w2 := Later(bus, w1, t + 1);
    && Works(bus, w, t, hub) && Works(bus, w1, t + 1, hub) && Works(bus, w2, t + 2, hub)
    && Works(bus, AfterReset(bus, w2, t + 2, hub, port), t + 3, hub)
  }

  /** The wiring at that second look. */
  function SecondLook(bus: nat -> Reply, w: Wiring, t: nat, hub: nat, port: nat): Wiring {
    var w2 := Later(bus, Later(bus, w, t), t + 1);
    Later(bus, AfterReset(bus, w2, t + 2, hub, port), t + 3)
  }

  /** A change of connection on an occupied port: it is reset and looked at again. */
  lemma PluggedIn(bus: nat -> Reply, s: State, hub: nat, port: nat)
    requires AtPort(s, hub, port) && ConnectionChange(bus(s.clock))
    requires ResetWorks(bus, s.w, s.clock, hub, port)
    requires Occupied(Later(bus, s.w, s.clock), hub, port)
    ensures var s' := Drive(bus, s, 4); var w := SecondLook(bus, s.w, s.clock, hub, port);
      && s'.w == w && s'.t == s.t && s'.clock == s.clock + 4
      && if Enabled(w, hub, port) then s'.pc == Describing(hub, port, false) else WentOn(s, hub, port, s')
  {
    assert Lowest(bus(s.clock).changes, 0) && s.pc.Ports?;
    hide Works, Later, Occupied, Enabled, Members, Lowest, Step, AtPort, Drive, AfterReset;
    StatusRead(bus, s, hub, port, 0);
    var s1 := Step(bus, s);
    ClearedThere(bus, s1);
    var s2 := Step(bus, s1);
    ResetThere(bus, s2);
    var s3 := Step(bus, s2);
    CheckedThere(bus, s3);
    var s4 := Step(bus, s3);
    FourOn(bus, s, s1, s2, s3, s4);
    assert s4.w == SecondLook(bus, s.w, s.clock, hub, port);
    hide SecondLook, ResetWorks;
  }

  lemma ClearedThere(bus: nat -> Reply, s: State)
    requires s.pc.Clearing? && s.pc.bit == 0 && s.pc.connected && Works(bus, s.w, s.clock, s.pc.hub)
    ensures var s' := Step(bus, s);
      && s'.pc == Resetting(s.pc.hub, s.pc.bits, s.pc.port) && s'.w == Later(bus, s.w, s.clock)
      && s'.clock == s.clock + 1 && s'.t == s.t
  {
    GoesIs(bus, s, s.pc.hub);
    hide Goes, Works, Now, Later;
  }

  lemma ResetThere(bus: nat -> Reply, s: State)
    requires s.pc.Resetting? && Works(bus, s.w, s.clock, s.pc.hub)
    ensures var s' := Step(bus, s);
      && s'.pc == Checking(s.pc.hub, s.pc.bits, s.pc.port)
      && s'.w == AfterReset(bus, s.w, s.clock, s.pc.hub, s.pc.port)
      && s'.clock == s.clock + 1 && s'.t == s.t
  {
    GoesIs(bus, s, s.pc.hub);
    hide Goes, Works, Now, Later, PortReset;
  }

  lemma CheckedThere(bus: nat -> Reply, s: State)
    requires s.pc.Checking? && Works(bus, s.w, s.clock, s.pc.hub)
    ensures var s' := Step(bus, s);
      && s'.w == Later(bus, s.w, s.clock) && s'.clock == s.clock + 1 && s'.t == s.t
      && s'.pc == if Enabled(s'.w, s.pc.hub, s.pc.port) then Describing(s.pc.hub, s.pc.port, false)
                  else Ports(s.pc.hub, s.pc.bits)
  {
    GoesIs(bus, s, s.pc.hub);
    hide Goes, Works, Now, Later, Enabled;
  }

  lemma FourOn(bus: nat -> Reply, s: State, s1: State, s2: State, s3: State, s4: State)
    requires s1 == Step(bus, s) && s2 == Step(bus, s1) && s3 == Step(bus, s2) && s4 == Step(bus, s3)
    ensures Drive(bus, s, 1) == s1 && Drive(bus, s, 2) == s2 && Drive(bus, s, 3) == s3 && Drive(bus, s, 4) == s4
  {
    hide Step;
    assert Drive(bus, s, 0) == s;
    assert Drive(bus, s, 1) == s1;
    assert Drive(bus, s, 2) == s2;
    assert Drive(bus, s, 3) == s3;
  }

  /** What it takes for the host to look at a port and go on to the next: nothing is to be
    * cleared, or it is cleared and was no change of connection, or there is something on the
    * port but it does not come up enabled.
    */
  ghost predicate Passed(bus: nat -> Reply, s: State, hub: nat, port: nat) {
    && Works(bus, s.w, s.clock, hub)
    && if ConnectionChange(bus(s.clock)) then
         && ResetWorks(bus, s.w, s.clock, hub, port) && Occupied(Later(bus, s.w, s.clock), hub, port)
         && !Enabled(SecondLook(bus, s.w, s.clock, hub, port), hub, port)
       else
         forall b: nat :: Lowest(bus(s.clock).changes, b) && b < 5 ==>
           Works(bus, Later(bus, s.w, s.clock), s.clock + 1, hub)
  }

  lemma PassedOver(bus: nat -> Reply, s: State, hub: nat, port: nat) returns (n: nat)
    requires AtPort(s, hub, port) && Passed(bus, s, hub, port)
    ensures WentOn(s, hub, port, Drive(bus, s, n))
  {
    LowestIs(bus(s.clock).changes);
    var b := Trailing(bus(s.clock).changes, false);
    assert ConnectionChange(bus(s.clock)) <==> Lowest(bus(s.clock).changes, 0);
    hide Works, Later, Occupied, Enabled, ResetWorks, SecondLook, AtPort, Drive, WentOn;
    if ConnectionChange(bus(s.clock)) {
      PluggedIn(bus, s, hub, port);
      n := 4;
    } else if b < |bus(s.clock).changes| && b < 5 {
      OtherChange(bus, s, hub, port, b);
      n := 2;
    } else {
      NoChange(bus, s, hub, port);
      n := 1;
    }
  }

  /** The host is committed to an event other than Nothing. */
  predicate Decided(pc: Pc) {
    || pc.Describing? || pc.Locating? || pc.Addressing? || pc.SettingUp?
    || (pc.Idle? && pc.event != Nothing)
  }

  lemma DecidedStep(bus: nat -> Reply, s: State)
    requires Decided(s.pc)
    ensures Decided(Step(bus, s).pc)
  {
    hide Goes, Now, Connection, Assign;
  }

  lemma {:induction false} DecidedStays(bus: nat -> Reply, s: State, n: nat)
    requires Decided(s.pc)
    ensures Decided(Drive(bus, s, n).pc)
  {
    hide Step, Decided;
    if n > 0 {
      DecidedStays(bus, s, n - 1);
      DecidedStep(bus, Drive(bus, s, n - 1));
    }
  }

  /** A transfer that does not work, with something to clear or something plugged in. */
  lemma LostThere(bus: nat -> Reply, s: State)
    requires (s.pc.Clearing? || s.pc.Resetting? || s.pc.Checking?) && !Works(bus, s.w, s.clock, s.pc.hub)
    ensures Decided(Step(bus, s).pc)
  {
    GoesIs(bus, s, s.pc.hub);
    hide Goes, Works, Now, Later, PortReset, Disconnected, Mask, Enabled;
  }

  /** With a change being cleared, what it takes to go on to the next port. */
  ghost predicate ClearedOn(bus: nat -> Reply, s: State)
    requires s.pc.Clearing?
  {
    var w := Later(bus, s.w, s.clock);
    var hub, port, w' := s.pc.hub, s.pc.port, AfterReset(bus, w, s.clock + 1, s.pc.hub, s.pc.port);
    && Works(bus, s.w, s.clock, hub)
    && (s.pc.bit == 0 ==>
          && s.pc.connected && Works(bus, w, s.clock + 1, hub) && Works(bus, w', s.clock + 2, hub)
          && !Enabled(Later(bus, w', s.clock + 2), hub, port))
  }

  /** Otherwise the host comes to commit itself. */
  lemma NotCleared(bus: nat -> Reply, s: State) returns (k: nat)
    requires s.pc.Clearing? && !ClearedOn(bus, s)
    ensures Decided(Drive(bus, s, k).pc) && forall m: nat :: m < k ==> !Drive(bus, s, m).pc.Idle?
  {
    hide Step, Works, Later, Enabled, AfterReset;
    var s1, s2 := Step(bus, s), Step(bus, Step(bus, s));
    FourOn(bus, s, s1, s2, Step(bus, s2), Step(bus, Step(bus, s2)));
    assert Drive(bus, s, 0) == s;
    hide Drive;
    if !Works(bus, s.w, s.clock, s.pc.hub) {
      LostThere(bus, s);
      return 1;
    }
    if !s.pc.connected {
      EmptyThere(bus, s);
      return 1;
    }
    ClearedThere(bus, s);
    if !Works(bus, s1.w, s1.clock, s.pc.hub) {
      LostThere(bus, s1);
      return 2;
    }
    ResetThere(bus, s1);
    if !Works(bus, s2.w, s2.clock, s.pc.hub) {
      LostThere(bus, s2);
      return 3;
    }
    CheckedThere(bus, s2);
    return 3;
  }

  lemma EmptyThere(bus: nat -> Reply, s: State)
    requires s.pc.Clearing? && s.pc.bit == 0 && !s.pc.connected && Works(bus, s.w, s.clock, s.pc.hub)
    ensures Decided(Step(bus, s).pc)
  {
    GoesIs(bus, s, s.pc.hub);
    hide Goes, Works, Now, Later, Disconnected, Mask;
  }

  /** At a port that is not passed over the host comes to commit itself. */
  lemma NotPassed(bus: nat -> Reply, s: State, hub: nat, port: nat) returns (k: nat)
    requires AtPort(s, hub, port) && !Passed(bus, s, hub, port)
    ensures Decided(Drive(bus, s, k).pc) && forall m: nat :: m < k ==> !Drive(bus, s, m).pc.Idle?
  {
    hide Step, Works, AtPort, ClearedOn, Drive;
    DriveOne(bus, s);
    if !Works(bus, s.w, s.clock, hub) {
      StatusLost(bus, s, hub, port);
      NotIdleFirst(bus, s, hub, port);
      k := 1;
    } else {
      var b := ToClear(bus, s, hub, port);
      StatusRead(bus, s, hub, port, b);
      ClearedOrPassed(bus, s, hub, port, b);
      var s1 := Step(bus, s);
      hide Passed;
      var j := NotCleared(bus, s1);
      k := j + 1;
      DriveOn(bus, s, 1, j);
      NotIdleFirst(bus, s, hub, port);
      forall m: nat | 0 < m < k
        ensures !Drive(bus, s, m).pc.Idle?
      {
        DriveOn(bus, s, 1, m - 1);
      }
    }
  }

  lemma NotIdleFirst(bus: nat -> Reply, s: State, hub: nat, port: nat)
    requires AtPort(s, hub, port)
    ensures Drive(bus, s, 0) == s && !s.pc.Idle?
  {
  }

  lemma ToClear(bus: nat -> Reply, s: State, hub: nat, port: nat) returns (b: nat)
    requires !Passed(bus, s, hub, port) && Works(bus, s.w, s.clock, hub)
    ensures Lowest(bus(s.clock).changes, b) && b < 5
  {
    hide Works, ResetWorks;
    LowestIs(bus(s.clock).changes);
    b := Trailing(bus(s.clock).changes, false);
    assert ConnectionChange(bus(s.clock)) ==> Lowest(bus(s.clock).changes, 0);
  }

  lemma ClearedOrPassed(bus: nat -> Reply, s: State, hub: nat, port: nat, b: nat)
    requires AtPort(s, hub, port) && Works(bus, s.w, s.clock, hub)
    requires Lowest(bus(s.clock).changes, b) && b < 5 && Step(bus, s).pc.Clearing?
    ensures ClearedOn(bus, Step(bus, s)) ==> Passed(bus, s, hub, port)
  {
    hide Step, Works, Later, Occupied, Enabled, AtPort, Members, AfterReset;
    StatusRead(bus, s, hub, port, b);
    assert ConnectionChange(bus(s.clock)) <==> b == 0;
    hide ConnectionChange, Lowest;
  }

  // ---- one device ----

  /** The wiring `n` transfers on. */
  function LaterBy(bus: nat -> Reply, w: Wiring, t: nat, n: nat): Wiring {
    if n == 0 then w else Later(bus, LaterBy(bus, w, t, n - 1), t + n - 1)
  }

  /** The next `n` transfers, all to that address, work. */
  ghost predicate AllWork(bus: nat -> Reply, w: Wiring, t: nat, address: nat, n: nat) {
    forall i: nat :: i < n ==> Works(bus, LaterBy(bus, w, t, i), t + i, address)
  }

  lemma {:induction false} LaterShift(bus: nat -> Reply, w: Wiring, t: nat, n: nat)
    ensures LaterBy(bus, w, t, n + 1) == LaterBy(bus, Later(bus, w, t), t + 1, n)
  {
    hide Later;
    if n > 0 {
      LaterShift(bus, w, t, n - 1);
    } else {
      assert LaterBy(bus, w, t, 0) == w;
    }
  }

  /** A hub whose setting up all works is reported. */
  lemma {:induction false} SetsUp(bus: nat -> Reply, s: State)
    requires s.pc.SettingUp? && AllWork(bus, s.w, s.clock, s.pc.given, s.pc.left)
    ensures var s' := Drive(bus, s, s.pc.left + 1); s'.pc == Idle(HubConnect(s.pc.given)) && s'.t == s.t
    decreases s.pc.left
  {
    hide Later, Works, Step;
    var left, given := s.pc.left, s.pc.given;
    DriveOne(bus, s);
    if left > 0 {
      assert Works(bus, LaterBy(bus, s.w, s.clock, 0), s.clock, given);
      assert LaterBy(bus, s.w, s.clock, 0) == s.w;
      var s1 := Step(bus, s);
      SettingUpOne(bus, s);
      forall i: nat | i < left - 1
        ensures Works(bus, LaterBy(bus, s1.w, s1.clock, i), s1.clock + i, given)
      {
        LaterShift(bus, s.w, s.clock, i);
        assert Works(bus, LaterBy(bus, s.w, s.clock, i + 1), s.clock + (i + 1), given);
      }
      SetsUp(bus, s1);
      DriveOn(bus, s, 1, left);
    } else {
      SettingUpNone(bus, s);
    }
  }

  lemma SettingUpOne(bus: nat -> Reply, s: State)
    requires s.pc.SettingUp? && s.pc.left > 0 && Works(bus, s.w, s.clock, s.pc.given)
    ensures var s' := Step(bus, s);
      && s'.pc == s.pc.(left := s.pc.left - 1) && s'.w == Later(bus, s.w, s.clock)
      && s'.clock == s.clock + 1 && s'.t == s.t
  {
    GoesIs(bus, s, s.pc.given);
    hide Goes, Works, Now, Later;
  }

  lemma SettingUpNone(bus: nat -> Reply, s: State)
    requires s.pc.SettingUp? && s.pc.left == 0
    ensures Step(bus, s) == s.(pc := Idle(HubConnect(s.pc.given)))
  {
  }

  /** The transfers to a device just reset, up to SET_ADDRESS, all work. */
  predicate EnumerationWorks(bus: nat -> Reply, w: Wiring, t: nat) {
    var w1 := Later(bus, w, t);
    var w2 := Later(bus, w1, t + 1);
    Works(bus, w, t, 0) && Works(bus, w1, t + 1, 0) && Works(bus, w2, t + 2, 0)
  }

  /** Whether what then listens on address 0 is a hub. */
  predicate HubListens(bus: nat -> Reply, w: Wiring, t: nat) {
    var w2 := Later(bus, Later(bus, w, t), t + 1);
    exists y :: y in w2 && HasAddress(w2, y, 0) && w2[y].isHub
  }

  /** And the wiring once it has its address. */
  function Numbered(bus: nat -> Reply, w: Wiring, t: nat, given: nat): Wiring {
    Assign(Later(bus, Later(bus, Later(bus, w, t), t + 1), t + 2), given)
  }

  /** A device after its reset, if its transfers work and the table has an address for it: it is
    * reported with that address, as a hub if it is one and can be set up.
    */
  lemma Enumerated(bus: nat -> Reply, s: State, given: nat) returns (n: nat)
    requires s.pc.Describing? && !s.pc.second && EnumerationWorks(bus, s.w, s.clock)
    requires var isHub := HubListens(bus, s.w, s.clock);
      && Connection(s.t, s.pc.hub, s.pc.port, isHub).1 == Some(given)
      && (isHub ==> AllWork(bus, Numbered(bus, s.w, s.clock, given), s.clock + 3, given, bus(s.clock + 3).transfers))
    ensures var isHub := HubListens(bus, s.w, s.clock); var s' := Drive(bus, s, n);
      && s'.pc == Idle(if isHub then HubConnect(given) else Connect(given))
      && s'.t == Connection(s.t, s.pc.hub, s.pc.port, isHub).0
  {
    hide Connection, AllWork, Step, Works, Drive, EnumerationWorks, HubListens, Numbered;
    FourThere(bus, s, given);
    var s4 := Drive(bus, s, 4);
    n := 4;
    if HubListens(bus, s.w, s.clock) {
      SetsUp(bus, s4);
      DriveOn(bus, s, 4, s4.pc.left + 1);
      n := 4 + (s4.pc.left + 1);
    }
  }

  /** As far as SET_ADDRESS. */
  lemma FourThere(bus: nat -> Reply, s: State, given: nat)
    requires s.pc.Describing? && !s.pc.second && EnumerationWorks(bus, s.w, s.clock)
    requires Connection(s.t, s.pc.hub, s.pc.port, HubListens(bus, s.w, s.clock)).1 == Some(given)
    ensures var isHub := HubListens(bus, s.w, s.clock); var s' := Drive(bus, s, 4);
      && s'.w == Numbered(bus, s.w, s.clock, given) && s'.clock == s.clock + 3
      && s'.t == Connection(s.t, s.pc.hub, s.pc.port, isHub).0
      && s'.pc == if isHub then SettingUp(s.pc.hub, s.pc.port, given, bus(s.clock + 3).transfers)
                  else Idle(Connect(given))
  {
    hide Connection, Assign, Step, Works, Later, Drive, HasAddress;
    var s1 := Step(bus, s);
    Described(bus, s);
    var s2 := Step(bus, s1);
    Described(bus, s1);
    assert s2.pc == Locating(s.pc.hub, s.pc.port, HubListens(bus, s.w, s.clock));
    hide HubListens;
    var s3 := Step(bus, s2);
    Located(bus, s2, given);
    AddressedThere(bus, s3);
    FourOn(bus, s, s1, s2, s3, Step(bus, s3));
  }

  lemma Described(bus: nat -> Reply, s: State)
    requires s.pc.Describing? && Works(bus, s.w, s.clock, 0)
    ensures var s' := Step(bus, s);
      && s'.w == Later(bus, s.w, s.clock) && s'.clock == s.clock + 1 && s'.t == s.t
      && s'.pc == if !s.pc.second then Describing(s.pc.hub, s.pc.port, true)
                  else Locating(s.pc.hub, s.pc.port, exists y :: y in s'.w && HasAddress(s'.w, y, 0) && s'.w[y].isHub)
  {
    GoesIs(bus, s, 0);
    hide Goes, Works, Now, Later;
  }

  lemma Located(bus: nat -> Reply, s: State, given: nat)
    requires s.pc.Locating? && Connection(s.t, s.pc.hub, s.pc.port, s.pc.isHub).1 == Some(given)
    ensures Step(bus, s) == s.(pc := Addressing(s.pc.hub, s.pc.port, s.pc.isHub, given),
                               t := Connection(s.t, s.pc.hub, s.pc.port, s.pc.isHub).0)
  {
    hide Connection;
  }

  lemma AddressedThere(bus: nat -> Reply, s: State)
    requires s.pc.Addressing? && Works(bus, s.w, s.clock, 0)
    ensures var s' := Step(bus, s);
      && s'.w == Assign(Later(bus, s.w, s.clock), s.pc.given) && s'.clock == s.clock + 1 && s'.t == s.t
      && s'.pc == if s.pc.isHub then SettingUp(s.pc.hub, s.pc.port, s.pc.given, bus(s.clock + 1).transfers)
                  else Idle(Connect(s.pc.given))
  {
    GoesIs(bus, s, 0);
    hide Goes, Works, Now, Later, Assign;
  }

  // ---- what a signal ends in ----

  /** A packet's signal that gets to a port with a change of connection and nothing on it ends in
    * the disconnection of everything that was there.
    */
  lemma UnplugReported(bus: nat -> Reply, before: State, signal: Signal, after: State, n: nat, hub: nat, port: nat)
    requires Handles(bus, before, signal, after)
    requires var s := Drive(bus, Begin(bus, before, signal), n);
      && AtPort(s, hub, port) && ConnectionChange(bus(s.clock))
      && Works(bus, s.w, s.clock, hub) && Works(bus, Later(bus, s.w, s.clock), s.clock + 1, hub)
      && !Occupied(Later(bus, s.w, s.clock), hub, port)
    ensures var t := Drive(bus, Begin(bus, before, signal), n).t;
      && after.pc.event.Disconnect?
      && Members(after.pc.event.mask) ==
           (if hub < MAX_HUBS && port < MAX_PORTS then Downstream(t, hub, port) else {})
      && after.t == Disconnected(t, hub, port)
  {
    hide Begin, Works, Later, Occupied, AtPort, Members, Drive, Step, Handles;
    var b := Begin(bus, before, signal);
    Unplugged(bus, Drive(bus, b, n), hub, port);
    DriveOn(bus, b, n, 2);
    SignalEnds(bus, before, signal, after, n + 2);
  }

  /** One that gets to a port with a change of connection and something on it, where every
    * transfer works and the port comes up enabled, ends in its connection.
    */
  lemma PlugReported(bus: nat -> Reply, before: State, signal: Signal, after: State, n: nat, hub: nat, port: nat,
                     given: nat)
    requires Handles(bus, before, signal, after)
    requires var s := Drive(bus, Begin(bus, before, signal), n);
      var w, t := SecondLook(bus, s.w, s.clock, hub, port), s.clock + 4;
      var isHub := HubListens(bus, w, t);
      && AtPort(s, hub, port) && ConnectionChange(bus(s.clock))
      && ResetWorks(bus, s.w, s.clock, hub, port) && Occupied(Later(bus, s.w, s.clock), hub, port)
      && Enabled(w, hub, port) && EnumerationWorks(bus, w, t)
      && Connection(s.t, hub, port, isHub).1 == Some(given)
      && (isHub ==> AllWork(bus, Numbered(bus, w, t, given), t + 3, given, bus(t + 3).transfers))
    ensures var s := Drive(bus, Begin(bus, before, signal), n);
      var isHub := HubListens(bus, SecondLook(bus, s.w, s.clock, hub, port), s.clock + 4);
      && after.pc.event == (if isHub then HubConnect(given) else Connect(given))
      && after.t == Connection(s.t, hub, port, isHub).0
  {
    hide Begin, Works, Later, Occupied, Enabled, AtPort, Members, ResetWorks, EnumerationWorks, AllWork, SecondLook,
         HubListens, Connection, Numbered, Drive, Step, Handles;
    var b := Begin(bus, before, signal);
    var s := Drive(bus, b, n);
    PluggedIn(bus, s, hub, port);
    var m := Enumerated(bus, Drive(bus, s, 4), given);
    DriveOn(bus, s, 4, m);
    DriveOn(bus, b, n, 4 + m);
    SignalEnds(bus, before, signal, after, n + (4 + m));
  }

  /** The root: with nothing on it everything is reported gone; with something on it, and every
    * transfer working, that is reported.
    */
  lemma RootReported(bus: nat -> Reply, before: State, after: State, given: nat)
    requires Handles(bus, before, Root, after)
    ensures var w, t := Later(bus, before.w, before.clock), before.clock + 1;
      !Occupied(w, 0, 1) ==>
        && after.pc.event.Disconnect? && (forall n: nat :: n < 32 ==> n in Members(after.pc.event.mask))
        && after.t == Disconnected(before.t, 0, 1)
    ensures var w, t := PortReset(Later(bus, before.w, before.clock), 0, 1, true), before.clock + 1;
      var isHub := HubListens(bus, w, t);
      Occupied(Later(bus, before.w, before.clock), 0, 1) && EnumerationWorks(bus, w, t)
      && Connection(before.t, 0, 1, isHub).1 == Some(given)
      && (isHub ==> AllWork(bus, Numbered(bus, w, t, given), t + 3, given, bus(t + 3).transfers))
      ==> after.pc.event == (if isHub then HubConnect(given) else Connect(given))
          && after.t == Connection(before.t, 0, 1, isHub).0
  {
    hide Happened, Occupied, PortReset, Works, EnumerationWorks, AllWork, HubListens, Connection, Numbered,
         Disconnected, Step;
    var b := Begin(bus, before, Root);
    assert Drive(bus, b, 0) == b;
    if b.pc.Idle? {
      SignalEnds(bus, before, Root, after, 0);
    } else {
      var isHub := HubListens(bus, b.w, b.clock);
      if EnumerationWorks(bus, b.w, b.clock) && Connection(b.t, 0, 1, isHub).1 == Some(given)
         && (isHub ==> AllWork(bus, Numbered(bus, b.w, b.clock, given), b.clock + 3, given, bus(b.clock + 3).transfers))
      {
        var n := Enumerated(bus, b, given);
        SignalEnds(bus, before, Root, after, n);
      }
    }
  }

  // ---- when there is nothing to report ----

  /** A port the host came to, and passed over. */
  ghost predicate Visited(bus: nat -> Reply, s: State, hub: nat, port: nat, passed: bool) {
    exists m: nat :: AtPort(Drive(bus, s, m), hub, port) && Passed(bus, Drive(bus, s, m), hub, port) == passed
  }

  lemma VisitedFrom(bus: nat -> Reply, s: State, n: nat, hub: nat, port: nat, passed: bool)
    requires Visited(bus, Drive(bus, s, n), hub, port, passed)
    ensures Visited(bus, s, hub, port, passed)
  {
    hide AtPort, Passed, Drive;
    var s' := Drive(bus, s, n);
    var m: nat :| AtPort(Drive(bus, s', m), hub, port) && Passed(bus, Drive(bus, s', m), hub, port) == passed;
    DriveOn(bus, s, n, m);
  }

  lemma VisitedNow(bus: nat -> Reply, s: State, hub: nat, port: nat)
    requires AtPort(s, hub, port)
    ensures Visited(bus, s, hub, port, Passed(bus, s, hub, port))
  {
    hide AtPort, Passed;
    assert Drive(bus, s, 0) == s;
  }

  /** The least of the ports. */
  lemma LeastPort(s: State) returns (port: nat)
    requires s.pc.Ports? && Members(s.pc.bits) != {}
    ensures AtPort(s, s.pc.hub, port)
  {
    port := Trailing(s.pc.bits, false);
    var some :| some in Members(s.pc.bits);
    assert s.pc.bits[some];
  }

  /** Nothing is reported if every port was come to and passed over; otherwise some port was
    * come to and was not.
    */
  lemma {:induction false} NothingFrom(bus: nat -> Reply, s: State, n: nat)
    requires s.pc.Ports? && Drive(bus, s, n).pc.Idle?
    ensures Drive(bus, s, n).pc.event == Nothing ==>
      forall port :: port in Members(s.pc.bits) ==> Visited(bus, s, s.pc.hub, port, true)
    ensures Drive(bus, s, n).pc.event != Nothing ==>
      exists port :: port in Members(s.pc.bits) && Visited(bus, s, s.pc.hub, port, false)
    decreases Members(s.pc.bits)
  {
    hide Step, Visited, AtPort, Passed, Drive;
    var hub := s.pc.hub;
    if Members(s.pc.bits) == {} {
      NoneLeft(bus, s, n);
    } else {
      var port := LeastPort(s);
      assert port in Members(s.pc.bits) by { LeastIsThere(s, hub, port); }
      VisitedNow(bus, s, hub, port);
      if Passed(bus, s, hub, port) {
        var k := PassedOver(bus, s, hub, port);
        var s' := Drive(bus, s, k);
        IdleLater(bus, s, k, n);
        NothingFrom(bus, s', n - k);
        forall p | p in Members(s'.pc.bits)
          ensures Visited(bus, s', hub, p, true) ==> Visited(bus, s, hub, p, true)
          ensures Visited(bus, s', hub, p, false) ==> Visited(bus, s, hub, p, false)
        {
          if Visited(bus, s', hub, p, true) { VisitedFrom(bus, s, k, hub, p, true); }
          if Visited(bus, s', hub, p, false) { VisitedFrom(bus, s, k, hub, p, false); }
        }
      } else {
        var k := NotPassed(bus, s, hub, port);
        DriveOn(bus, s, k, n - k);
        DecidedStays(bus, Drive(bus, s, k), n - k);
      }
    }
  }

  lemma LeastIsThere(s: State, hub: nat, port: nat)
    requires AtPort(s, hub, port)
    ensures port in Members(s.pc.bits)
  {
  }

  lemma NoneLeft(bus: nat -> Reply, s: State, n: nat)
    requires s.pc.Ports? && Members(s.pc.bits) == {} && Drive(bus, s, n).pc.Idle?
    ensures Drive(bus, s, n).pc == Idle(Nothing)
  {
    hide Step, Drive, Members;
    NoneLeftStep(bus, s);
    DriveOne(bus, s);
    DriveNone(bus, s);
    DriveOn(bus, s, 1, n - 1);
    StaysIdle(bus, Drive(bus, s, 1), n - 1);
  }

  lemma DriveNone(bus: nat -> Reply, s: State)
    ensures Drive(bus, s, 0) == s
  {
  }

  lemma NoneLeftStep(bus: nat -> Reply, s: State)
    requires s.pc.Ports? && Members(s.pc.bits) == {}
    ensures Step(bus, s).pc == Idle(Nothing)
  {
    assert forall i: nat :: i < 32 ==> (s.pc.bits[i] <==> i in Members(s.pc.bits));
    hide Exchanged, Goes, Occupied, Members, Trailing;
  }

  /** Idle states come after states that are not. */
  lemma IdleLater(bus: nat -> Reply, s: State, k: nat, n: nat)
    requires !Drive(bus, s, k).pc.Idle? && Drive(bus, s, n).pc.Idle?
    ensures k < n && Drive(bus, Drive(bus, s, k), n - k) == Drive(bus, s, n)
  {
    hide Step, Drive;
    if n <= k {
      DriveOn(bus, s, n, k - n);
      StaysIdle(bus, Drive(bus, s, n), k - n);
    } else {
      DriveOn(bus, s, k, n - k);
    }
  }

  /** A packet's signal ends in Nothing only if every port it reported was come to and passed
    * over; and in anything else only if some port it reported was come to and was not.
    */
  lemma NothingReported(bus: nat -> Reply, before: State, hub: nat, size: nat, ports: Word, after: State)
    requires Handles(bus, before, Packet(hub, size, ports), after) && size > 0
    ensures var b := Begin(bus, before, Packet(hub, size, ports));
      && (after.pc.event == Nothing ==>
            forall port :: port in Members(ports) ==> Visited(bus, b, hub, port, true))
      && (after.pc.event != Nothing ==>
            exists port :: port in Members(ports) && Visited(bus, b, hub, port, false))
  {
    hide Step, Drive, Visited, Happened;
    var b := Begin(bus, before, Packet(hub, size, ports));
    assert b.pc == Ports(hub, ports);
    hide Begin;
    var n: nat :| Drive(bus, b, n) == after;
    NothingFrom(bus, b, n);
  }

  // ---- trouble ----

  /** A transfer that failed, or a device for which there was no place. */
  predicate Trouble(r: Record) {
    r.Exhausted? || !r.ok
  }

  ghost predicate TroubledSince(history: seq<Record>, from: nat) {
    exists k :: from <= k < |history| && Trouble(history[k])
  }

  ghost predicate ExhaustedSince(history: seq<Record>, from: nat) {
    exists k :: from <= k < |history| && history[k].Exhausted?
  }

  predicate IsTrouble(event: DeviceEvent) {
    event.EnumerationError? || event.Crash?
  }

  /** A step makes at most one record, and stops with an error just when that is trouble. */
  ghost predicate Reports(s: State, s': State)
    requires !s.pc.Idle?
  {
    && (s'.history == s.history || (exists r :: s'.history == s.history + [r]))
    && (s'.pc.Idle? || s'.pc.hub == s.pc.hub)
    && (s'.pc.Idle? && IsTrouble(s'.pc.event) <==>
          |s'.history| > |s.history| && Trouble(s'.history[|s.history|]))
    && (s'.pc == Idle(Crash) <==>
          s.pc.hub == 0 && |s'.history| > |s.history| && s'.history[|s.history|].Exhausted?)
    && (s'.pc.Idle? && s'.pc.event.EnumerationError? ==> s'.pc.event.hub == 0 && s'.pc.event.port == 1)
  }

  lemma PortReports(bus: nat -> Reply, s: State)
    ensures s.pc.Ports? ==> Reports(s, PortsStep(bus, s))
    ensures s.pc.Clearing? ==> Reports(s, ClearingStep(bus, s))
  {
    hide Goes, Occupied, Trailing, Now, Disconnected, Mask;
  }

  lemma ResetReports(bus: nat -> Reply, s: State)
    ensures s.pc.Resetting? ==> Reports(s, ResettingStep(bus, s))
    ensures s.pc.Checking? ==> Reports(s, CheckingStep(bus, s))
    ensures s.pc.Locating? ==> Reports(s, LocatingStep(s))
  {
    hide Goes, Enabled, PortReset, Now, Connection;
  }

  lemma NumberReports(bus: nat -> Reply, s: State)
    ensures s.pc.Describing? ==> Reports(s, DescribingStep(bus, s))
    ensures s.pc.Addressing? ==> Reports(s, AddressingStep(bus, s))
    ensures s.pc.SettingUp? ==> Reports(s, SettingUpStep(bus, s))
  {
    hide Goes, HasAddress, Assign, Now;
  }

  lemma StepReports(bus: nat -> Reply, s: State)
    requires !s.pc.Idle?
    ensures Reports(s, Step(bus, s))
  {
    PortReports(bus, s);
    ResetReports(bus, s);
    NumberReports(bus, s);
    hide Reports, PortsStep, ClearingStep, ResettingStep, CheckingStep, LocatingStep, DescribingStep, AddressingStep,
         SettingUpStep;
  }

  /** Where a signal has got to, with what trouble. */
  ghost predicate Accounted(s: State, hub: nat, from: nat) {
    && from <= |s.history|
    && (if s.pc.Idle? then
          && (IsTrouble(s.pc.event) <==> TroubledSince(s.history, from))
          && (s.pc.event == Crash <==> hub == 0 && ExhaustedSince(s.history, from))
          && (s.pc.event.EnumerationError? ==> s.pc.event.hub == 0 && s.pc.event.port == 1)
        else
          s.pc.hub == hub && !TroubledSince(s.history, from))
  }

  lemma AccountedStep(bus: nat -> Reply, s: State, hub: nat, from: nat)
    requires Accounted(s, hub, from)
    ensures Accounted(Step(bus, s), hub, from)
  {
    if !s.pc.Idle? {
      StepReports(bus, s);
      var s' := Step(bus, s);
      hide Step, Trouble;
      assert ExhaustedSince(s.history, from) ==> TroubledSince(s.history, from) by {
        TroubleIs(s.history, from);
      }
      var k := |s.history|;
      if |s'.history| > k {
        SinceSnoc(s.history, s'.history[k], from);
        assert s'.history == s.history + [s'.history[k]];
      }
    }
  }

  lemma TroubleIs(history: seq<Record>, from: nat)
    ensures ExhaustedSince(history, from) ==> TroubledSince(history, from)
  {
  }

  lemma SinceSnoc(history: seq<Record>, r: Record, from: nat)
    requires from <= |history|
    ensures TroubledSince(history + [r], from) <==> TroubledSince(history, from) || Trouble(r)
    ensures ExhaustedSince(history + [r], from) <==> ExhaustedSince(history, from) || r.Exhausted?
  {
    var all := history + [r];
    assert all[|history|] == r;
    assert forall k :: 0 <= k < |history| ==> all[k] == history[k];
  }

  lemma {:induction false} AccountedLater(bus: nat -> Reply, s: State, hub: nat, from: nat, n: nat)
    requires Accounted(s, hub, from)
    ensures Accounted(Drive(bus, s, n), hub, from)
  {
    if n > 0 {
      hide Accounted, Step;
      AccountedLater(bus, s, hub, from, n - 1);
      AccountedStep(bus, Drive(bus, s, n - 1), hub, from);
    }
  }

  /** A signal is answered with an error just when a transfer failed meanwhile or there was no
    * place for a device, or the packet was empty; and the host stops for good just when it has
    * no place for a device on the root.
    */
  lemma ErrorsMean(bus: nat -> Reply, before: State, signal: Signal, after: State)
    requires Handles(bus, before, signal, after) && Addressed(signal)
    ensures var from := |before.history|;
      && from <= |after.history|
      && (signal.Packet? && signal.size == 0 ==>
            after.pc == Idle(EnumerationError(0, 1, BeforeReset)) && after.t == before.t && after.history == before.history)
      && (!(signal.Packet? && signal.size == 0) ==>
            (IsTrouble(after.pc.event) <==> TroubledSince(after.history, from)))
      && (after.pc.event == Crash <==> signal.Root? && ExhaustedSince(after.history, from))
      && (after.pc.event.EnumerationError? ==> after.pc.event.hub == 0 && after.pc.event.port == 1)
  {
    hide Step, Drive, Occupied, PortReset, Happened, Disconnected, Handles;
    var b := Begin(bus, before, signal);
    if signal.Packet? && signal.size == 0 {
      DriveNone(bus, b);
      SignalEnds(bus, before, signal, after, 0);
    } else {
      var hub := if signal.Root? then 0 else signal.address;
      assert Accounted(b, hub, |before.history|);
      var n := HandledIn(bus, before, signal, after);
      AccountedLater(bus, b, hub, |before.history|, n);
    }
  }

  lemma HandledIn(bus: nat -> Reply, before: State, signal: Signal, after: State) returns (n: nat)
    requires Handles(bus, before, signal, after)
    ensures after.pc.Idle? && Drive(bus, Begin(bus, before, signal), n) == after
  {
    n :| Drive(bus, Begin(bus, before, signal), n) == after;
  }
}
