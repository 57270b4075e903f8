/** `device_events` and `handle_hub_packet` in their own form: methods that update the topology
  * table in place, run against the bus. Each is proved to go exactly where HubProtocol goes with
  * the same bus, so what is proved of its histories is true of this code's.
  */
module HubBus {
  import opened Machine
  import opened BitSets
  import opened Topologies
  import opened Wirings
  import opened HubProtocol

  /** The host gets from `s` to `s'`. */
  ghost predicate Gets(bus: nat -> Reply, s: State, s': State) {
    exists n: nat :: Drive(bus, s, n) == s'
  }

  lemma StaysThere(bus: nat -> Reply, s: State)
    ensures Gets(bus, s, s)
  {
    assert Drive(bus, s, 0) == s;
  }

  lemma GetsStep(bus: nat -> Reply, s: State)
    ensures Gets(bus, s, Step(bus, s))
  {
    hide Step;
    assert Drive(bus, s, 0) == s;
    assert Drive(bus, s, 1) == Step(bus, s);
  }

  lemma {:induction false} DriveOn(bus: nat -> Reply, s: State, m: nat, n: nat)
    ensures Drive(bus, Drive(bus, s, m), n) == Drive(bus, s, m + n)
  {
    hide Step;
    if n > 0 {
      DriveOn(bus, s, m, n - 1);
    }
  }

  lemma GetsOn(bus: nat -> Reply, s: State, s': State, s'': State)
    requires Gets(bus, s, s') && Gets(bus, s', s'')
    ensures Gets(bus, s, s'')
  {
    hide Drive;
    var m: nat :| Drive(bus, s, m) == s';
    var n: nat :| Drive(bus, s', n) == s'';
    DriveOn(bus, s, m, n);
  }

  /** The least port a word reports, and the word without it. */
  lemma NextPort(bits: Word, port: nat, rest: Word)
    requires port in Members(bits) && (forall n :: n in Members(bits) ==> port <= n)
    requires Members(rest) == Members(bits) - {port}
    ensures Trailing(bits, false) == port && rest == bits[port := false]
  {
    var n := Trailing(bits, false);
    assert n <= port;
    assert n in Members(bits);
    MembersSet(bits, port);
    MembersInjective(rest, bits[port := false]);
  }

  class UsbBus {
    const bus: nat -> Reply
    const topology: Topology
    var clock: nat
    var w: Wiring
    ghost var history: seq<Record>

    constructor (bus: nat -> Reply)
      ensures topology.Valid() && fresh(topology) && fresh(topology.parent) && this.bus == bus
      ensures Start(View(Idle(Nothing)))
    {
      this.bus := bus;
      topology := new Topology();
      clock, w, history := 0, map[], [];
    }

    /** The state of the protocol this is, with the host at `pc`. */
    ghost function View(pc: Pc): State
      requires topology.Valid()
      reads this, topology, topology.parent
    {
      State(pc, clock, w, topology.T(), history)
    }

    /** A control transfer. */
    method Transfer(address: nat, ghost window: bool, ghost pc: Pc) returns (ok: bool, reply: Reply)
      requires topology.Valid()
      modifies this
      ensures View(pc) == Exchanged(bus, old(View(pc)), address, window)
      ensures ok == Goes(bus, old(View(pc)), address) && reply == bus(old(clock))
    {
      hide Happened;
      reply := bus(clock);
      w := Happened(w, reply.before);
      ok := !reply.fails && Heeded(w, address);
      clock, history := clock + 1, history + [HubProtocol.Transfer(address, w, ok, window)];
    }

    /** `new_device`: reads the device descriptor, in two transfers to address 0. */
    method NewDevice(ghost hub: nat, ghost port: nat) returns (isHub: Option<bool>)
      requires topology.Valid()
      modifies this
      ensures var s := old(View(Describing(hub, port, false)));
        match isHub
        case None => Gets(bus, s, View(Failed(BeforeAddress)))
        case Some(b) => Gets(bus, s, View(Locating(hub, port, b)))
    {
      hide Goes, Exchanged, Gets;
      ghost var s0 := View(Describing(hub, port, false));
      var ok, reply := Transfer(0, true, Describing(hub, port, false));
      GetsStep(bus, s0);
      if !ok {
        assert View(Failed(BeforeAddress)) == Step(bus, s0);
        return None;
      }
      ghost var s1 := View(Describing(hub, port, true));
      assert s1 == Step(bus, s0);
      ok, reply := Transfer(0, true, Describing(hub, port, true));
      GetsStep(bus, s1);
      GetsOn(bus, s0, s1, Step(bus, s1));
      if !ok {
        assert View(Failed(BeforeAddress)) == Step(bus, s1);
        return None;
      }
      var b := exists y :: y in w && HasAddress(w, y, 0) && w[y].isHub;
      assert View(Locating(hub, port, b)) == Step(bus, s1);
      return Some(b);
    }

    /** `set_address`: the device listening on address 0 moves to `given`. */
    method SetAddress(given: nat, isHub: bool, ghost hub: nat, ghost port: nat) returns (ok: bool)
      requires topology.Valid()
      modifies this
      ensures var s := old(View(Addressing(hub, port, isHub, given)));
        if !ok then Gets(bus, s, View(Failed(BeforeAddress)))
        else if isHub then Gets(bus, s, View(SettingUp(hub, port, given, bus(clock).transfers)))
        else Gets(bus, s, View(Idle(Connect(given))))
    {
      hide Goes, Exchanged, Assign, Gets;
      ghost var s := View(Addressing(hub, port, isHub, given));
      var reply;
      ok, reply := Transfer(0, true, Addressing(hub, port, isHub, given));
      GetsStep(bus, s);
      if !ok {
        assert View(Failed(BeforeAddress)) == Step(bus, s);
        return;
      }
      w := Assign(w, given);
      assert View(if isHub then SettingUp(hub, port, given, bus(clock).transfers) else Idle(Connect(given)))
          == Step(bus, s);
    }

    /** `new_hub`: reads and sets the configuration, and powers the ports. */
    method NewHub(given: nat, ghost hub: nat, ghost port: nat) returns (ok: bool)
      requires topology.Valid()
      modifies this
      ensures Gets(bus, old(View(SettingUp(hub, port, given, bus(clock).transfers))),
                    View(if ok then Idle(HubConnect(given)) else Failed(AfterAddress)))
    {
      hide Goes, Exchanged, Gets;
      var transfers := bus(clock).transfers;
      ghost var s0 := View(SettingUp(hub, port, given, transfers));
      StaysThere(bus, s0);
      for i := 0 to transfers
        invariant Gets(bus, s0, View(SettingUp(hub, port, given, transfers - i)))
      {
        ghost var s := View(SettingUp(hub, port, given, transfers - i));
        var reply;
        ok, reply := Transfer(given, false, SettingUp(hub, port, given, transfers - i));
        GetsStep(bus, s);
        GetsOn(bus, s0, s, Step(bus, s));
        if !ok {
          assert View(Failed(AfterAddress)) == Step(bus, s);
          return;
        }
        assert View(SettingUp(hub, port, given, transfers - (i + 1))) == Step(bus, s);
      }
      ghost var s := View(SettingUp(hub, port, given, 0));
      assert View(Idle(HubConnect(given))) == Step(bus, s);
      GetsStep(bus, s);
      GetsOn(bus, s0, s, Step(bus, s));
      return true;
    }

    /** What a port reset is followed by, from the device's descriptor to its place, its address
      * and, for a hub, its setting up. The root's connection is expected to find a place.
      */
    method Enumerate(hub: nat, port: nat) returns (event: DeviceEvent)
      requires topology.Valid()
      modifies this, topology.parent
      ensures topology.Valid()
      ensures Gets(bus, old(View(Describing(hub, port, false))), View(Idle(event)))
    {
      hide Gets, Step;
      ghost var s0 := View(Describing(hub, port, false));
      var isHub := NewDevice(hub, port);
      if isHub.None? {
        return EnumerationError(0, 1, BeforeAddress);
      }
      ghost var s1 := View(Locating(hub, port, isHub.value));
      var given := Locate(hub, port, isHub.value);
      GetsStep(bus, s1);
      GetsOn(bus, s0, s1, Step(bus, s1));
      if given.None? {
        return if hub == 0 then Crash else EnumerationError(0, 1, BeforeAddress);
      }
      ghost var s2 := View(Addressing(hub, port, isHub.value, given.value));
      var ok := SetAddress(given.value, isHub.value, hub, port);
      if !ok {
        GetsOn(bus, s0, s2, View(Failed(BeforeAddress)));
        return EnumerationError(0, 1, BeforeAddress);
      }
      if !isHub.value {
        GetsOn(bus, s0, s2, View(Idle(Connect(given.value))));
        return Connect(given.value);
      }
      ghost var s3 := View(SettingUp(hub, port, given.value, bus(clock).transfers));
      GetsOn(bus, s0, s2, s3);
      ok := NewHub(given.value, hub, port);
      event := if ok then HubConnect(given.value) else EnumerationError(0, 1, AfterAddress);
      GetsOn(bus, s0, s3, View(Idle(event)));
    }

    /** `device_connect`, for what was reset. */
    method Locate(hub: nat, port: nat, isHub: bool) returns (given: Option<nat>)
      requires topology.Valid()
      modifies this`history, topology.parent
      ensures topology.Valid()
      ensures Step(bus, old(View(Locating(hub, port, isHub)))) ==
        match given
        case None => View(if hub == 0 then Idle(Crash) else Failed(BeforeAddress))
        case Some(a) => View(Addressing(hub, port, isHub, a))
    {
      hide Connects, Connection;
      ghost var t := topology.T();
      given := topology.DeviceConnect(hub, port, isHub);
      ConnectionIs(t, topology.T(), hub, port, isHub, given);
      if given.None? {
        ConnectionNone(t, hub, port, isHub);
        history := history + [Exhausted];
      }
    }

    /** The root half of `device_events`, run as the root port changes. */
    method OnRoot() returns (event: DeviceEvent)
      requires topology.Valid()
      modifies this, topology.parent
      ensures topology.Valid()
      ensures forall e :: Gets(bus, Begin(bus, old(View(Idle(e))), Root), View(Idle(event)))
    {
      hide Happened, Gets, Disconnected, PortReset, Occupied, Step;
      w := Happened(w, bus(clock).before);
      clock := clock + 1;
      if !Occupied(w, 0, 1) {
        var mask;
        ghost var passes;
        mask, passes := topology.DeviceDisconnect(0, 1);
        event := DeviceEvent.Disconnect(seq(32, _ => true));
        StaysThere(bus, View(Idle(event)));
        return;
      }
      w := PortReset(w, 0, 1, true);
      event := Enumerate(0, 1);
    }

    /** One port of a hub that has something to report; None: go on to the next port. */
    method OnHubPort(hub: nat, port: nat, ghost bits: Word, ghost rest: Word) returns (event: Option<DeviceEvent>)
      requires topology.Valid() && port < 32
      requires Trailing(bits, false) == port && rest == bits[port := false]
      modifies this, topology.parent
      ensures topology.Valid()
      ensures var s := old(View(Ports(hub, bits)));
        match event
        case None => Gets(bus, s, View(Ports(hub, rest)))
        case Some(e) => Gets(bus, s, View(Idle(e)))
    {
      hide Goes, Exchanged, Occupied, Gets, Trailing;
      ghost var s0 := View(Ports(hub, bits));
      var ok, reply := Transfer(hub, false, Ports(hub, bits));
      GetsStep(bus, s0);
      if !ok {
        assert View(Failed(BeforeReset)) == Step(bus, s0);
        return Some(EnumerationError(0, 1, BeforeReset));
      }
      var bit := Trailing(reply.changes, false);
      var connected := Occupied(w, hub, port);
      if bit == |reply.changes| || bit >= 5 {
        assert View(Ports(hub, rest)) == Step(bus, s0);
        return None;
      }
      ghost var s1 := View(Clearing(hub, rest, port, bit, connected));
      assert s1 == Step(bus, s0);
      event := Clear(hub, port, bit, connected, rest);
      GetsOn(bus, s0, s1, View(match event case None => Ports(hub, rest) case Some(e) => Idle(e)));
    }

    /** The change is cleared; a change of connection is then acted on. */
    method Clear(hub: nat, port: nat, bit: nat, connected: bool, ghost rest: Word)
      returns (event: Option<DeviceEvent>)
      requires topology.Valid()
      modifies this, topology.parent
      ensures topology.Valid()
      ensures Gets(bus, old(View(Clearing(hub, rest, port, bit, connected))),
                    View(match event case None => Ports(hub, rest) case Some(e) => Idle(e)))
    {
      hide Goes, Exchanged, Gets, Disconnected, Mask;
      ghost var s0 := View(Clearing(hub, rest, port, bit, connected));
      var ok, reply := Transfer(hub, false, Clearing(hub, rest, port, bit, connected));
      GetsStep(bus, s0);
      if !ok {
        assert View(Failed(BeforeReset)) == Step(bus, s0);
        return Some(EnumerationError(0, 1, BeforeReset));
      }
      if bit != 0 {
        assert View(Ports(hub, rest)) == Step(bus, s0);
        return None;
      }
      if !connected {
        var mask := Forget(hub, port);
        assert View(Idle(Disconnect(mask))) == Step(bus, s0);
        return Some(DeviceEvent.Disconnect(mask));
      }
      ghost var s1 := View(Resetting(hub, rest, port));
      assert s1 == Step(bus, s0);
      event := Connected(hub, port, rest);
      GetsOn(bus, s0, s1, View(match event case None => Ports(hub, rest) case Some(e) => Idle(e)));
    }

    method Forget(hub: nat, port: nat) returns (mask: Word)
      requires topology.Valid()
      modifies topology.parent
      ensures topology.Valid()
      ensures topology.T() == Disconnected(old(topology.T()), hub, port)
      ensures mask == Mask(old(topology.T()), hub, port)
    {
      hide Downstream, Disconnected;
      ghost var t := topology.T();
      ghost var passes;
      mask, passes := topology.DeviceDisconnect(hub, port);
      MaskIs(t, hub, port, mask);
    }

    /** A port's connection: the reset, the second look at its status, and what follows. */
    method Connected(hub: nat, port: nat, ghost rest: Word) returns (event: Option<DeviceEvent>)
      requires topology.Valid()
      modifies this, topology.parent
      ensures topology.Valid()
      ensures Gets(bus, old(View(Resetting(hub, rest, port))),
                    View(match event case None => Ports(hub, rest) case Some(e) => Idle(e)))
    {
      hide Goes, Exchanged, Gets, PortReset, Enabled;
      ghost var s0 := View(Resetting(hub, rest, port));
      var ok, reply := Transfer(hub, true, Resetting(hub, rest, port));
      w := PortReset(w, hub, port, reply.enables);
      GetsStep(bus, s0);
      if !ok {
        assert View(Failed(BeforeAddress)) == Step(bus, s0);
        return Some(EnumerationError(0, 1, BeforeAddress));
      }
      ghost var s1 := View(Checking(hub, rest, port));
      assert s1 == Step(bus, s0);
      ok, reply := Transfer(hub, true, Checking(hub, rest, port));
      GetsStep(bus, s1);
      GetsOn(bus, s0, s1, Step(bus, s1));
      if !ok {
        assert View(Failed(BeforeAddress)) == Step(bus, s1);
        return Some(EnumerationError(0, 1, BeforeAddress));
      }
      if !Enabled(w, hub, port) {
        assert View(Ports(hub, rest)) == Step(bus, s1);
        return None;
      }
      ghost var s2 := View(Describing(hub, port, false));
      assert s2 == Step(bus, s1);
      hide Step;
      var e := Enumerate(hub, port);
      GetsOn(bus, s0, s2, View(Idle(e)));
      return Some(e);
    }

    /** `handle_hub_packet`. */
    method OnPacket(hub: nat, size: nat, ports: Word) returns (event: DeviceEvent)
      requires topology.Valid()
      modifies this, topology.parent
      ensures topology.Valid()
      ensures forall e :: Gets(bus, Begin(bus, old(View(Idle(e))), Packet(hub, size, ports)), View(Idle(event)))
    {
      hide Happened, Gets, Step;
      w := Happened(w, bus(clock).before);
      clock := clock + 1;
      if size == 0 {
        event := EnumerationError(0, 1, BeforeReset);
        StaysThere(bus, View(Idle(event)));
        return;
      }
      event := Investigate(hub, ports);
    }

    /** The loop over the reported ports. */
    method Investigate(hub: nat, ports: Word) returns (event: DeviceEvent)
      requires topology.Valid()
      modifies this, topology.parent
      ensures topology.Valid()
      ensures Gets(bus, old(View(Ports(hub, ports))), View(Idle(event)))
    {
      hide Gets, Step, Trailing;
      var bitmap := new BitSet(ports);
      var it := bitmap.Iter();
      ghost var s0 := View(Ports(hub, ports));
      StaysThere(bus, s0);
      while true
        invariant fresh(it) && topology.Valid() && Gets(bus, s0, View(Ports(hub, it.bits)))
        decreases Members(it.bits)
      {
        ghost var bits := it.bits;
        ghost var s := View(Ports(hub, bits));
        var port := it.Next();
        if port.None? {
          NoPorts(bus, s);
          GetsStep(bus, s);
          GetsOn(bus, s0, s, Step(bus, s));
          return Nothing;
        }
        NextPort(bits, port.value, it.bits);
        var e := OnHubPort(hub, port.value, bits, it.bits);
        if e.Some? {
          GetsOn(bus, s0, s, View(Idle(e.value)));
          return e.value;
        }
        GetsOn(bus, s0, s, View(Ports(hub, it.bits)));
      }
    }

    /** One signal. */
    method OnSignal(signal: Signal, ghost last: DeviceEvent) returns (event: DeviceEvent)
      requires topology.Valid()
      modifies this, topology.parent
      ensures topology.Valid()
      ensures Handles(bus, old(View(Idle(last))), signal, View(Idle(event)))
    {
      hide Begin, Drive;
      match signal {
        case Root => event := OnRoot();
        case Packet(address, size, ports) => event := OnPacket(address, size, ports);
      }
      assert Gets(bus, Begin(bus, old(View(Idle(last))), signal), View(Idle(event)));
    }
  }

  lemma ConnectionNone(t: Table, hub: nat, port: nat, isHub: bool)
    requires Connection(t, hub, port, isHub).1.None?
    ensures Connection(t, hub, port, isHub).0 == t
  {
  }

  lemma MaskIs(t: Table, hub: nat, port: nat, mask: Word)
    requires Members(mask) == if hub >= MAX_HUBS || port >= MAX_PORTS then {} else Downstream(t, hub, port)
    ensures mask == Mask(t, hub, port)
  {
    hide Below;
    MembersInjective(mask, Mask(t, hub, port));
  }

  lemma NoPorts(bus: nat -> Reply, s: State)
    requires s.pc.Ports? && Members(s.pc.bits) == {}
    ensures Step(bus, s) == s.(pc := Idle(Nothing))
  {
    assert forall n: nat :: n < 32 ==> (s.pc.bits[n] <==> n in Members(s.pc.bits));
    hide Exchanged, Goes, Occupied;
  }

  lemma RunExtends(bus: nat -> Reply, signals: seq<Signal>, trace: seq<State>, signal: Signal, s': State)
    requires BusRun(bus, signals, trace) && |trace| == |signals| + 1
    requires Addressed(signal) && Handles(bus, trace[|signals|], signal, s')
    ensures BusRun(bus, signals + [signal], trace + [s'])
  {
    hide Handles;
    var signals', trace' := signals + [signal], trace + [s'];
    forall i | 0 <= i < |signals'|
      ensures Addressed(signals'[i]) && Handles(bus, trace'[i], signals'[i], trace'[i + 1])
    {
      if i < |signals| {
        assert signals'[i] == signals[i] && trace'[i] == trace[i] && trace'[i + 1] == trace[i + 1];
      }
    }
  }

  /** How a clean history ends. */
  ghost predicate Ends(last: State, events: seq<DeviceEvent>) {
    && Orderly(last.history) && Quiet(last.w) && InStep(last.w, last.t) && NoSharedAddress(last.w)
    && forall k :: 0 <= k < |events| ==> events[k] != Crash
  }

  /** `device_events` on any bus and any signals: it goes through a history of the protocol, and
    * reports the event each signal ends in. The history is clean if and only if none of them is
    * an error between a port reset and its SET_ADDRESS; and then every transfer to address 0 had
    * exactly one device listening, nobody is left on address 0, no two devices shared an address
    * at any transfer, and the root connection never failed.
    */
  method Run(bus: nat -> Reply, signals: seq<Signal>) returns (events: seq<DeviceEvent>, ghost trace: seq<State>)
    requires forall k :: 0 <= k < |signals| ==> Addressed(signals[k])
    ensures |events| == |signals| && |trace| == |signals| + 1 && BusRun(bus, signals, trace)
    ensures forall k :: 0 <= k < |events| ==> trace[k + 1].pc == Idle(events[k])
    ensures Clean(trace[|signals|].history) <==>
      forall k :: 0 <= k < |events| && events[k].EnumerationError? ==> events[k].stage != BeforeAddress
    ensures Clean(trace[|signals|].history) ==> Ends(trace[|signals|], events)
  {
    var host := new UsbBus(bus);
    events, trace := [], [host.View(Idle(Nothing))];
    assert signals[..0] == [];
    for i := 0 to |signals|
      invariant fresh(host) && fresh(host.topology) && fresh(host.topology.parent)
      invariant host.topology.Valid() && host.bus == bus
      invariant |events| == i && |trace| == i + 1 && BusRun(bus, signals[..i], trace)
      invariant forall k :: 0 <= k < i ==> trace[k + 1].pc == Idle(events[k])
      invariant trace[i] == host.View(if i == 0 then Idle(Nothing) else Idle(events[i - 1]))
    {
      hide BusRun, Handles;
      var event := host.OnSignal(signals[i], if i == 0 then Nothing else events[i - 1]);
      RunExtends(bus, signals[..i], trace, signals[i], host.View(Idle(event)));
      assert signals[..i + 1] == signals[..i] + [signals[i]];
      events, trace := events + [event], trace + [host.View(Idle(event))];
    }
    assert signals[..|signals|] == signals;
    hide BusRun;
    RunEnds(bus, signals, trace, events);
  }

  lemma RunEnds(bus: nat -> Reply, signals: seq<Signal>, trace: seq<State>, events: seq<DeviceEvent>)
    requires BusRun(bus, signals, trace) && |events| == |signals| && |trace| == |signals| + 1
    requires forall k :: 0 <= k < |events| ==> trace[k + 1].pc == Idle(events[k])
    ensures Clean(trace[|signals|].history) <==>
      forall k :: 0 <= k < |events| && events[k].EnumerationError? ==> events[k].stage != BeforeAddress
    ensures Clean(trace[|signals|].history) ==> Ends(trace[|signals|], events)
  {
    hide BusRun, Clean, InStep, Orderly, Quiet, NoSharedAddress;
    var n := |signals|;
    CleanByEvents(bus, signals, trace, n);
    RunKeeps(bus, signals, trace, n);
    assert forall k :: 0 < k <= n ==> trace[k].pc == Idle(events[k - 1]);
    assert forall k :: 0 <= k < n ==> trace[k + 1].pc == Idle(events[k]);
    if Clean(trace[n].history) {
      assert Sound(trace[n]);
      InStepUnique(trace[n].w, trace[n].t);
      forall k: nat | k < n
        ensures events[k] != Crash
      {
        CleanByEvents(bus, signals, trace, k);
        NoCrash(bus, signals, trace, k + 1);
      }
    }
  }
}
