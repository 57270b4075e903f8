/** A bus history that is not clean, and where it ends. */
module HubTrouble {
  import opened Machine
  import opened BitSets
  import opened Topologies
  import opened Wirings
  import opened HubProtocol

  /** A hub with two devices on it, on a bus that fails twice, each time the first transfer to
    * a device whose port has just been reset.
    */
  function Trouble(t: nat): Reply {
    var arrivals :=
      [Plug(0, Device(None, 1, true, None)), Plug(1, Device(Some(0), 1, false, None)),
       Plug(2, Device(Some(0), 2, false, None))];
    Reply(if t == 0 then arrivals else [], t == 9 || t == 15, [true], true, 0)
  }

  ghost function HubAndTwo(hub: Option<nat>, first: Option<nat>, second: Option<nat>): Wiring {
    map[0 := Device(None, 1, true, hub), 1 := Device(Some(0), 1, false, first),
        2 := Device(Some(0), 2, false, second)]
  }

  lemma Arrivals()
    ensures Happened(map[], Trouble(0).before) == HubAndTwo(None, None, None)
  {
    var hs := Trouble(0).before;
    var p0, p1, p2 := hs[0], hs[1], hs[2];
    assert hs[..2] == [p0, p1] && [p0, p1][..1] == [p0] && [p0][..0] == [];
    var w0: Wiring := map[];
    var w1 := After(w0, p0);
    assert Happened(w0, [p0]) == w1;
    assert w1 == map[0 := Device(None, 1, true, None)];
    var w2 := After(w1, p1);
    assert Happened(w0, [p0, p1]) == w2;
    assert w2 == map[0 := Device(None, 1, true, None), 1 := Device(Some(0), 1, false, None)];
    assert Happened(w0, hs) == After(w2, p2);
  }

  function OnlyBit(port: nat): Word {
    seq(32, i => i == port)
  }

  lemma OnlyBitTrailing(port: nat)
    requires port < 32
    ensures Trailing(OnlyBit(port), false) == port
  {
    var n := Trailing(OnlyBit(port), false);
    assert OnlyBit(port)[port];
  }

  lemma Undisturbed(s: State)
    requires s.clock != 0
    ensures Now(Trouble, s) == s.w
  {
  }

  // ---- what each signal does to the wiring ----

  lemma HubReset()
    ensures PortReset(HubAndTwo(None, None, None), 0, 1, true) == HubAndTwo(Some(0), None, None)
    ensures Occupied(HubAndTwo(None, None, None), 0, 1)
  {
    var w := HubAndTwo(None, None, None);
    assert OnHubPort(w, 0, 0, 1);
    assert Beneath(w, 1, 0) && Beneath(w, 2, 0);
  }

  lemma HubNumbered(a: nat)
    ensures Assign(HubAndTwo(Some(0), None, None), a) == HubAndTwo(Some(a), None, None)
    ensures Heeded(HubAndTwo(Some(0), None, None), 0)
    ensures exists y :: y in HubAndTwo(Some(0), None, None) && HasAddress(HubAndTwo(Some(0), None, None), y, 0)
                        && HubAndTwo(Some(0), None, None)[y].isHub
  {
    assert HasAddress(HubAndTwo(Some(0), None, None), 0, 0);
  }

  lemma FirstReset(a: nat)
    requires a != 0
    ensures var w, w' := HubAndTwo(Some(a), None, None), HubAndTwo(Some(a), Some(0), None);
      && Heeded(w, a) && Occupied(w, a, 1) && PortReset(w, a, 1, true) == w'
      && Heeded(w', a) && Enabled(w', a, 1)
  {
    var w, w' := HubAndTwo(Some(a), None, None), HubAndTwo(Some(a), Some(0), None);
    assert HasAddress(w, 0, a) && OnHubPort(w, 1, a, 1) && !OnHubPort(w, 0, a, 1) && !OnHubPort(w, 2, a, 1);
    assert HasAddress(w', 0, a) && OnHubPort(w', 1, a, 1);
    assert !Beneath(w, 0, 1) && !Beneath(w, 2, 1);
    hide OnHubPort, Beneath;
  }

  lemma SecondReset(a: nat)
    requires a != 0
    ensures var w, w' := HubAndTwo(Some(a), Some(0), None), HubAndTwo(Some(a), Some(0), Some(0));
      && Heeded(w, a) && Occupied(w, a, 2) && PortReset(w, a, 2, true) == w'
      && Heeded(w', a) && Enabled(w', a, 2) && Listeners(w', 0) == {1, 2}
  {
    var w, w' := HubAndTwo(Some(a), Some(0), None), HubAndTwo(Some(a), Some(0), Some(0));
    assert HasAddress(w, 0, a) && OnHubPort(w, 2, a, 2) && !OnHubPort(w, 0, a, 2) && !OnHubPort(w, 1, a, 2);
    assert HasAddress(w', 0, a) && OnHubPort(w', 2, a, 2);
    assert !Beneath(w, 0, 2) && !Beneath(w, 1, 2);
    hide OnHubPort, Beneath;
  }

  // ---- the three signals ----

  lemma Gone(bus: nat -> Reply, s: State, s1: State, s2: State, s3: State, s4: State, s5: State)
    requires s1 == Step(bus, s) && s2 == Step(bus, s1) && s3 == Step(bus, s2) && s4 == Step(bus, s3)
    requires s5 == Step(bus, s4)
    ensures Drive(bus, s, 5) == s5
  {
    hide Step;
    assert Drive(bus, s, 1) == s1;
    assert Drive(bus, s, 2) == s2;
    assert Drive(bus, s, 3) == s3;
    assert Drive(bus, s, 4) == s4;
  }

  /** The hub is enumerated without trouble: first its two transfers on address 0. */
  lemma HubDescribed(s: State) returns (s1: State, s2: State)
    requires Start(s)
    ensures s1 == Step(Trouble, Begin(Trouble, s, Root)) && s2 == Step(Trouble, s1)
    ensures s2 == s.(pc := Locating(0, 1, true), clock := 3, w := HubAndTwo(Some(0), None, None),
                     history := s2.history)
  {
    hide PortReset, Happened, Heeded, HubAndTwo;
    var w := HubAndTwo(Some(0), None, None);
    Arrivals();
    HubReset();
    HubNumbered(0);
    var b := Begin(Trouble, s, Root);
    assert b == s.(pc := Describing(0, 1, false), clock := 1, w := w);
    Undisturbed(b);
    s1 := Step(Trouble, b);
    assert s1 == s.(pc := Describing(0, 1, true), clock := 2, w := w, history := s1.history);
    Undisturbed(s1);
    s2 := Step(Trouble, s1);
  }

  /** Then its place, its address, and nothing to set up. */
  lemma HubComes(s: State) returns (s': State, a: nat)
    requires Start(s)
    ensures Handles(Trouble, s, Root, s') && s'.pc == Idle(HubConnect(a)) && a != 0
    ensures s'.clock == 4 && s'.w == HubAndTwo(Some(a), None, None)
  {
    hide PortReset, Assign, Happened, Heeded, HubAndTwo, Begin;
    var s1, s2 := HubDescribed(s);
    a := FreshAddress(s.t);
    var s3 := Step(Trouble, s2);
    assert s3 == s2.(pc := Addressing(0, 1, true, a), t := s3.t);
    Undisturbed(s3);
    HubNumbered(a);
    var s4 := Step(Trouble, s3);
    assert s4.pc == SettingUp(0, 1, a, 0) && s4.clock == 4 && s4.w == HubAndTwo(Some(a), None, None);
    s' := Step(Trouble, s4);
    hide Step;
    Gone(Trouble, Begin(Trouble, s, Root), s1, s2, s3, s4, s');
  }

  lemma FreshAddress(t: Table) returns (a: nat)
    requires forall i: nat :: !Present(t, i)
    ensures a != 0 && Connection(t, 0, 1, true).1 == Some(a)
  {
    assert forall i: nat :: i < MAX_DEVICES ==> !Present(t, i) && t[i] != Entry(0, 1);
    assert !Present(t, 1);
    a := Connection(t, 0, 1, true).1.value;
  }

  /** A device on the hub is reset and then lost. */
  lemma DeviceLost(s: State, a: nat, port: nat, w': Wiring) returns (s': State)
    requires s.pc.Idle? && (s.clock == 4 || s.clock == 10) && a != 0 && port < 32
    requires Heeded(s.w, a) && Occupied(s.w, a, port) && PortReset(s.w, a, port, true) == w'
    requires Heeded(w', a) && Enabled(w', a, port)
    ensures Handles(Trouble, s, Packet(a, 1, OnlyBit(port)), s')
    ensures s'.pc == Failed(BeforeAddress) && s'.w == w' && s'.clock == s.clock + 6
    ensures |s'.history| > 0 && s'.history[|s'.history| - 1] == Transfer(0, w', false, true)
  {
    hide PortReset, Occupied, Heeded, Enabled, Happened, OnlyBit;
    OnlyBitTrailing(port);
    assert Trailing([true], false) == 0;
    hide Trailing;
    Undisturbed(s);
    var rest := OnlyBit(port)[port := false];
    var b := Begin(Trouble, s, Packet(a, 1, OnlyBit(port)));
    assert b == s.(pc := Ports(a, OnlyBit(port)), clock := s.clock + 1);
    Undisturbed(b);
    var s1 := Step(Trouble, b);
    assert s1 == b.(pc := Clearing(a, rest, port, 0, true), clock := s.clock + 2, history := s1.history);
    Undisturbed(s1);
    var s2 := Step(Trouble, s1);
    assert s2 == s1.(pc := Resetting(a, rest, port), clock := s.clock + 3, history := s2.history);
    Undisturbed(s2);
    var s3 := Step(Trouble, s2);
    assert s3 == s2.(pc := Checking(a, rest, port), clock := s.clock + 4, w := w', history := s3.history);
    Undisturbed(s3);
    var s4 := Step(Trouble, s3);
    assert s4 == s3.(pc := Describing(a, port, false), clock := s.clock + 5, history := s4.history);
    Undisturbed(s4);
    s' := Step(Trouble, s4);
    assert s'.history == s4.history + [Transfer(0, w', false, true)];
    Gone(Trouble, b, s1, s2, s3, s4, s');
    hide Step, Begin;
  }

  /** Two errors between a port reset and SET_ADDRESS: two devices end on address 0, and both
    * listened to a transfer.
    */
  lemma Collide(s: State) returns (signals: seq<Signal>, trace: seq<State>)
    requires Start(s)
    ensures BusRun(Trouble, signals, trace) && |trace| == 4
    ensures trace[2].pc == trace[3].pc == Failed(BeforeAddress)
    ensures var last := trace[3];
      && Listeners(last.w, 0) == {1, 2}
      && |last.history| > 0 && last.history[|last.history| - 1] == Transfer(0, last.w, false, true)
  {
    hide Handles, PortReset, Occupied, Heeded, Enabled, HubAndTwo, Listeners, Start, OnlyBit, BusRun, Trouble;
    hide Step, Begin, Drive;
    var s1, a := HubComes(s);
    FirstReset(a);
    SecondReset(a);
    var s2 := DeviceLost(s1, a, 1, HubAndTwo(Some(a), Some(0), None));
    var s3 := DeviceLost(s2, a, 2, HubAndTwo(Some(a), Some(0), Some(0)));
    signals := [Root, Packet(a, 1, OnlyBit(1)), Packet(a, 1, OnlyBit(2))];
    trace := [s, s1, s2, s3];
    ThreeSignals(Trouble, signals, trace);
  }

  lemma ThreeSignals(bus: nat -> Reply, signals: seq<Signal>, trace: seq<State>)
    requires |signals| == 3 && |trace| == 4 && Start(trace[0])
    requires Addressed(signals[0]) && Addressed(signals[1]) && Addressed(signals[2])
    requires Handles(bus, trace[0], signals[0], trace[1]) && Handles(bus, trace[1], signals[1], trace[2])
    requires Handles(bus, trace[2], signals[2], trace[3])
    ensures BusRun(bus, signals, trace)
  {
    hide Handles, Start, Addressed;
    forall i | 0 <= i < 3
      ensures Addressed(signals[i]) && Handles(bus, trace[i], signals[i], trace[i + 1])
    {
      assert i == 0 || i == 1 || i == 2;
    }
  }
}
