/** The bus-wide enumeration protocol as a state machine: each step is one transfer and what the
  * host does about it, on a physical bus on which devices come and go before every transfer.
  */
module HubProtocol {
  import opened Machine
  import opened BitSets
  import opened Topologies
  import opened Wirings

  /** Where an error came: before the port was reset, between the reset and SET_ADDRESS, or
    * after it.
    */
  datatype Stage = BeforeReset | BeforeAddress | AfterAddress

  /** The source's events; `stage` is only for saying what an error means. */
  datatype DeviceEvent =
    | Connect(address: nat)
    | HubConnect(address: nat)
    | Disconnect(mask: Word)
    | EnumerationError(hub: nat, port: nat, stage: Stage)
    | Nothing
    | Crash

  datatype Signal = Root | Packet(address: nat, size: nat, ports: Word)

  /** What the bus makes of one control transfer: what is plugged and unplugged before it,
    * whether it fails, the port-change bits a hub reports, whether a port reset enables
    * the port, and how many transfers setting up a hub takes.
    */
  datatype Reply = Reply(
    before: seq<Happening>, fails: bool, changes: seq<bool>, enables: bool, transfers: nat)

  /** One transfer: to whom, on what bus, whether it succeeded, and whether it fell between a
    * port reset and its SET_ADDRESS. Exhausted: no address was free there.
    */
  datatype Record = Transfer(address: nat, w: Wiring, ok: bool, window: bool) | Exhausted

  /** Where the host is; `hub` 0 stands for the root. Between events it is idle. */
  datatype Pc =
    | Idle(event: DeviceEvent)
    | Ports(hub: nat, bits: Word)
    | Clearing(hub: nat, bits: Word, port: nat, bit: nat, connected: bool)
    | Resetting(hub: nat, bits: Word, port: nat)
    | Checking(hub: nat, bits: Word, port: nat)
    | Describing(hub: nat, port: nat, second: bool)
    | Locating(hub: nat, port: nat, isHub: bool)
    | Addressing(hub: nat, port: nat, isHub: bool, given: nat)
    | SettingUp(hub: nat, port: nat, given: nat, left: nat)

  datatype State = State(pc: Pc, clock: nat, w: Wiring, t: Table, history: seq<Record>)

  // ---- the bus ----

  predicate Heeded(w: Wiring, address: nat) {
    exists h :: h in w && HasAddress(w, h, address)
  }

  /** On that port of the hub that has that address, or on that root port. */
  predicate OnHubPort(w: Wiring, x: nat, hub: nat, port: nat) {
    && x in w && w[x].port == port
    && if hub == 0 then w[x].up.None? else w[x].up.Some? && UpAddr(w, x) == Some(hub)
  }

  predicate Occupied(w: Wiring, hub: nat, port: nat) {
    exists x :: x in w && OnHubPort(w, x, hub, port)
  }

  predicate Enabled(w: Wiring, hub: nat, port: nat) {
    exists x :: x in w && OnHubPort(w, x, hub, port) && w[x].addr.Some?
  }

  /** A port is reset: what is on it goes to address 0 if the port comes up enabled, and
    * everything below that falls silent.
    */
  function PortReset(w: Wiring, hub: nat, port: nat, enabled: bool): Wiring {
    map y | y in w ::
      if OnHubPort(w, y, hub, port) then w[y].(addr := if enabled then Some(0) else None)
      else if exists x :: x in w && OnHubPort(w, x, hub, port) && Beneath(w, y, x) then w[y].(addr := None)
      else w[y]
  }

  function Now(bus: nat -> Reply, s: State): Wiring {
    Happened(s.w, bus(s.clock).before)
  }

  /** The next transfer to that address succeeds: the bus lets it, and somebody listens. */
  predicate Goes(bus: nat -> Reply, s: State, address: nat) {
    !bus(s.clock).fails && Heeded(Now(bus, s), address)
  }

  /** The state after a transfer. */
  function Exchanged(bus: nat -> Reply, s: State, address: nat, window: bool): State {
    s.(clock := s.clock + 1, w := Now(bus, s),
       history := s.history + [Transfer(address, Now(bus, s), Goes(bus, s, address), window)])
  }

  // ---- the host ----

  function Failed(stage: Stage): Pc {
    Idle(EnumerationError(0, 1, stage))
  }

  ghost function Mask(t: Table, hub: nat, port: nat): Word {
    if hub >= MAX_HUBS || port >= MAX_PORTS then Zero()
    else seq(32, i requires 0 <= i < 32 => i in Downstream(t, hub, port))
  }

  /** The host turns to a signal: the root half of `device_events`, or `handle_hub_packet`. */
  ghost function Begin(bus: nat -> Reply, s: State, signal: Signal): State {
    var w := Now(bus, s);
    var s' := s.(clock := s.clock + 1, w := w);
    match signal
    case Root =>
      if Occupied(w, 0, 1) then s'.(w := PortReset(w, 0, 1, true), pc := Describing(0, 1, false))
      else s'.(t := Disconnected(s.t, 0, 1), pc := Idle(Disconnect(seq(32, _ => true))))
    case Packet(address, size, ports) =>
      s'.(pc := if size == 0 then Failed(BeforeReset) else Ports(address, ports))
  }

  /** The next port's status. */
  function PortsStep(bus: nat -> Reply, s: State): State
    requires s.pc.Ports?
  {
    var hub, port := s.pc.hub, Trailing(s.pc.bits, false);
    if port >= 32 then s.(pc := Idle(Nothing)) else
    var s', rest := Exchanged(bus, s, hub, false), s.pc.bits[port := false];
    var bit := Trailing(bus(s.clock).changes, false);
    if !Goes(bus, s, hub) then s'.(pc := Failed(BeforeReset))
    else if bit < |bus(s.clock).changes| && bit < 5 then
      s'.(pc := Clearing(hub, rest, port, bit, Occupied(s'.w, hub, port)))
    else s'.(pc := Ports(hub, rest))
  }

  /** The change that was reported is cleared; a change of connection is then acted on. */
  ghost function ClearingStep(bus: nat -> Reply, s: State): State
    requires s.pc.Clearing?
  {
    var s' := Exchanged(bus, s, s.pc.hub, false);
    if !Goes(bus, s, s.pc.hub) then s'.(pc := Failed(BeforeReset))
    else if s.pc.bit != 0 then s'.(pc := Ports(s.pc.hub, s.pc.bits))
    else if s.pc.connected then s'.(pc := Resetting(s.pc.hub, s.pc.bits, s.pc.port))
    else
      s'.(t := Disconnected(s.t, s.pc.hub, s.pc.port), pc := Idle(Disconnect(Mask(s.t, s.pc.hub, s.pc.port))))
  }

  /** A request for a reset that fails may have reset the port even so. */
  function ResettingStep(bus: nat -> Reply, s: State): State
    requires s.pc.Resetting?
  {
    var s' := Exchanged(bus, s, s.pc.hub, true);
    s'.(w := PortReset(s'.w, s.pc.hub, s.pc.port, bus(s.clock).enables),
        pc := if Goes(bus, s, s.pc.hub) then Checking(s.pc.hub, s.pc.bits, s.pc.port) else Failed(BeforeAddress))
  }

  function CheckingStep(bus: nat -> Reply, s: State): State
    requires s.pc.Checking?
  {
    var s' := Exchanged(bus, s, s.pc.hub, true);
    s'.(pc := if !Goes(bus, s, s.pc.hub) then Failed(BeforeAddress)
              else if Enabled(s'.w, s.pc.hub, s.pc.port) then Describing(s.pc.hub, s.pc.port, false)
              else Ports(s.pc.hub, s.pc.bits))
  }

  /** `new_device`: two transfers to address 0. */
  function DescribingStep(bus: nat -> Reply, s: State): State
    requires s.pc.Describing?
  {
    var s' := Exchanged(bus, s, 0, true);
    s'.(pc := if !Goes(bus, s, 0) then Failed(BeforeAddress)
              else if !s.pc.second then Describing(s.pc.hub, s.pc.port, true)
              else Locating(s.pc.hub, s.pc.port,
                            exists y :: y in s'.w && HasAddress(s'.w, y, 0) && s'.w[y].isHub))
  }

  /** The device gets its place in the table; at the root that is expected to work. */
  ghost function LocatingStep(s: State): State
    requires s.pc.Locating?
  {
    match Connection(s.t, s.pc.hub, s.pc.port, s.pc.isHub)
    case (_, None) =>
      s.(history := s.history + [Exhausted], pc := if s.pc.hub == 0 then Idle(Crash) else Failed(BeforeAddress))
    case (t, Some(given)) => s.(t := t, pc := Addressing(s.pc.hub, s.pc.port, s.pc.isHub, given))
  }

  /** `set_address`: whoever listens on address 0 takes the new one. */
  function AddressingStep(bus: nat -> Reply, s: State): State
    requires s.pc.Addressing?
  {
    var s' := Exchanged(bus, s, 0, true);
    if !Goes(bus, s, 0) then s'.(pc := Failed(BeforeAddress))
    else
      s'.(w := Assign(s'.w, s.pc.given),
          pc := if s.pc.isHub then SettingUp(s.pc.hub, s.pc.port, s.pc.given, bus(s'.clock).transfers)
                else Idle(Connect(s.pc.given)))
  }

  /** `new_hub`: so many more transfers. */
  function SettingUpStep(bus: nat -> Reply, s: State): State
    requires s.pc.SettingUp?
  {
    if s.pc.left == 0 then s.(pc := Idle(HubConnect(s.pc.given))) else
    var s' := Exchanged(bus, s, s.pc.given, false);
    s'.(pc := if Goes(bus, s, s.pc.given) then s.pc.(left := s.pc.left - 1) else Failed(AfterAddress))
  }

  ghost function Step(bus: nat -> Reply, s: State): State {
    match s.pc
    case Idle(_) => s
    case Ports(_, _) => PortsStep(bus, s)
    case Clearing(_, _, _, _, _) => ClearingStep(bus, s)
    case Resetting(_, _, _) => ResettingStep(bus, s)
    case Checking(_, _, _) => CheckingStep(bus, s)
    case Describing(_, _, _) => DescribingStep(bus, s)
    case Locating(_, _, _) => LocatingStep(s)
    case Addressing(_, _, _, _) => AddressingStep(bus, s)
    case SettingUp(_, _, _, _) => SettingUpStep(bus, s)
  }

  /** The state `n` steps on. */
  ghost function Drive(bus: nat -> Reply, s: State, n: nat): State {
    if n == 0 then s else Step(bus, Drive(bus, s, n - 1))
  }

  /** One signal taken from one idle state to the next. */
  ghost predicate Handles(bus: nat -> Reply, s: State, signal: Signal, s': State) {
    s'.pc.Idle? && exists n: nat :: Drive(bus, Begin(bus, s, signal), n) == s'
  }

  ghost predicate Start(s: State) {
    && s.pc == Idle(Nothing) && s.clock == 0 && s.w == map[] && s.history == []
    && forall i: nat :: !Present(s.t, i)
  }

  /** Hub packets carry the address of a hub. */
  predicate Addressed(signal: Signal) {
    signal.Packet? ==> signal.address != 0
  }

  /** A bus history: the idle states from one signal to the next. */
  ghost predicate BusRun(bus: nat -> Reply, signals: seq<Signal>, trace: seq<State>) {
    && |trace| == |signals| + 1 && Start(trace[0])
    && forall i :: 0 <= i < |signals| ==> Addressed(signals[i]) && Handles(bus, trace[i], signals[i], trace[i + 1])
  }

  // ---- clean histories, and what they promise ----

  /** No error or exhaustion between a port reset and its SET_ADDRESS. */
  ghost predicate Clean(history: seq<Record>) {
    forall k :: 0 <= k < |history| ==> Harmless(history[k])
  }

  predicate Harmless(r: Record) {
    r.Transfer? && (r.window ==> r.ok)
  }

  /** At every transfer: no two devices shared an address, and if it was to address 0 there was
    * exactly one device listening.
    */
  ghost predicate Orderly(history: seq<Record>) {
    forall k :: 0 <= k < |history| && history[k].Transfer? ==>
      && NoSharedAddress(history[k].w)
      && (history[k].address == 0 ==> |Listeners(history[k].w, 0)| == 1)
  }

  /** Nobody but what is on that port listens on address 0. */
  ghost predicate Lone(w: Wiring, hub: nat, port: nat) {
    && (forall y :: HasAddress(w, y, 0) ==> OnHubPort(w, y, hub, port))
    && (forall y, z :: HasAddress(w, y, 0) && HasAddress(w, z, 0) ==> y == z)
  }

  /** Nothing on that port has an address. */
  ghost predicate Vacated(w: Wiring, hub: nat, port: nat) {
    forall x :: x in w && OnHubPort(w, x, hub, port) ==> w[x].addr.None? || w[x].addr == Some(0)
  }

  predicate RealPort(hub: nat, port: nat) {
    port >= 1 && (hub == 0 ==> port == 1)
  }

  ghost predicate AllHubs(w: Wiring, isHub: bool) {
    forall y :: HasAddress(w, y, 0) ==> w[y].isHub == isHub
  }

  /** What holds where the host is. */
  ghost predicate PcSound(s: State) {
    match s.pc
    case Idle(event) => Quiet(s.w) && event != Crash
    case Ports(hub, _) => hub != 0 && Quiet(s.w)
    case Clearing(hub, _, port, _, connected) =>
      hub != 0 && Quiet(s.w) && (!connected ==> Vacated(s.w, hub, port))
    case Resetting(hub, _, port) => hub != 0 && Quiet(s.w)
    case Checking(hub, _, port) => hub != 0 && Lone(s.w, hub, port)
    case Describing(hub, port, _) => RealPort(hub, port) && Lone(s.w, hub, port)
    case Locating(hub, port, isHub) =>
      RealPort(hub, port) && Lone(s.w, hub, port) && AllHubs(s.w, isHub) && exists y :: HasAddress(s.w, y, 0)
    case Addressing(hub, port, isHub, given) =>
      && RealPort(hub, port) && Lone(s.w, hub, port) && AllHubs(s.w, isHub)
      && given != 0 && At(s.t, given, hub, port)
    case SettingUp(hub, port, given, _) => Quiet(s.w) && given != 0 && At(s.t, given, hub, port)
  }

  ghost predicate Sound(s: State) {
    InStep(s.w, s.t) && Orderly(s.history) && PcSound(s)
  }

  ghost predicate Good(s: State) {
    Clean(s.history) ==> Sound(s)
  }

  // ---- time passes ----

  lemma {:induction false} HappenedKeeps(w: Wiring, t: Table, happenings: seq<Happening>)
    requires InStep(w, t)
    ensures InStep(Happened(w, happenings), t) && Persist(w, Happened(w, happenings))
    decreases |happenings|
  {
    if happenings != [] {
      hide InStep, Possible, After;
      var w', h := Happened(w, happenings[..|happenings| - 1]), happenings[|happenings| - 1];
      HappenedKeeps(w, t, happenings[..|happenings| - 1]);
      if Possible(w', h) {
        HappeningKeeps(w', t, h);
        PersistOn(w, w', After(w', h));
      }
      hide Persist;
    }
  }

  lemma PersistOn(w: Wiring, w': Wiring, w'': Wiring)
    requires Persist(w, w') && Persist(w', w'')
    ensures Persist(w, w'')
  {
  }

  /** Whoever listens, and where, is as it was. */
  lemma ListensAsBefore(w: Wiring, w': Wiring, t: Table, x: nat, a: nat)
    requires Persist(w, w') && InStep(w', t) && HasAddress(w', x, a)
    ensures HasAddress(w, x, a) && w'[x] == w[x] && UpAddr(w', x) == UpAddr(w, x)
  {
    hide Forest, RootPortOne, Agrees, Wired;
    assert Heard(w', x);
  }

  lemma StaysQuiet(w: Wiring, w': Wiring)
    requires Persist(w, w') && Quiet(w)
    ensures Quiet(w')
  {
  }

  lemma StaysLone(w: Wiring, w': Wiring, t: Table, hub: nat, port: nat)
    requires Persist(w, w') && InStep(w', t) && Lone(w, hub, port)
    ensures Lone(w', hub, port)
    ensures forall isHub :: AllHubs(w, isHub) ==> AllHubs(w', isHub)
  {
    hide InStep, Persist, UpAddr;
    forall y | HasAddress(w', y, 0)
      ensures HasAddress(w, y, 0) && OnHubPort(w', y, hub, port) && w'[y] == w[y]
    {
      ListensAsBefore(w, w', t, y, 0);
      assert OnHubPort(w, y, hub, port);
    }
  }

  lemma StaysVacated(w: Wiring, w': Wiring, t: Table, hub: nat, port: nat)
    requires Persist(w, w') && InStep(w', t) && Vacated(w, hub, port)
    ensures Vacated(w', hub, port)
  {
    hide InStep, Persist, UpAddr;
    forall x | x in w' && OnHubPort(w', x, hub, port)
      ensures w'[x].addr.None? || w'[x].addr == Some(0)
    {
      if w'[x].addr.Some? {
        var a := w'[x].addr.value;
        assert HasAddress(w', x, a);
        ListensAsBefore(w, w', t, x, a);
        assert OnHubPort(w, x, hub, port);
      }
    }
  }

  /** After a transfer of a clean history, to a device that has an address. */
  lemma ToAddress(bus: nat -> Reply, s: State, address: nat, window: bool)
    requires InStep(s.w, s.t) && Orderly(s.history) && address != 0
    ensures var s' := Exchanged(bus, s, address, window);
      InStep(s'.w, s'.t) && Orderly(s'.history) && Persist(s.w, s'.w)
  {
    hide InStep, Persist, NoSharedAddress;
    HappenedKeeps(s.w, s.t, bus(s.clock).before);
    InStepUnique(Now(bus, s), s.t);
    hide Now, Listeners;
  }

  /** And to address 0, between a port reset and its SET_ADDRESS. */
  lemma ToZero(bus: nat -> Reply, s: State, hub: nat, port: nat)
    requires InStep(s.w, s.t) && Orderly(s.history) && Lone(s.w, hub, port)
    requires Goes(bus, s, 0)
    ensures var s' := Exchanged(bus, s, 0, true);
      && InStep(s'.w, s'.t) && Orderly(s'.history) && Lone(s'.w, hub, port)
      && (exists y :: HasAddress(s'.w, y, 0))
      && (forall isHub :: AllHubs(s.w, isHub) ==> AllHubs(s'.w, isHub))
  {
    hide InStep, Persist, NoSharedAddress, OnHubPort;
    HappenedKeeps(s.w, s.t, bus(s.clock).before);
    var w := Now(bus, s);
    InStepUnique(w, s.t);
    StaysLone(s.w, w, s.t, hub, port);
    var y :| y in w && HasAddress(w, y, 0);
    assert Listeners(w, 0) == {y};
    hide Now, Listeners, AllHubs;
  }

  lemma CleanSnoc(history: seq<Record>, r: Record)
    ensures Clean(history + [r]) <==> Clean(history) && Harmless(r)
  {
    var all := history + [r];
    if Clean(history) && Harmless(r) {
      forall k | 0 <= k < |all|
        ensures Harmless(all[k])
      {
        if k < |history| {
          assert all[k] == history[k];
        }
      }
    } else if Clean(all) {
      assert Harmless(all[|history|]);
      forall k | 0 <= k < |history|
        ensures Harmless(history[k])
      {
        assert all[k] == history[k];
      }
    }
  }

  // ---- port resets ----

  /** On a bus in step with the table there is one device on a port, at most. */
  lemma OneOnPort(w: Wiring, t: Table, hub: nat, port: nat, x: nat, y: nat)
    requires InStep(w, t) && OnHubPort(w, x, hub, port) && OnHubPort(w, y, hub, port)
    ensures x == y
  {
    hide Forest, RootPortOne;
    InStepUnique(w, t);
    assert Seated(w, x) && Seated(w, y);
    if hub != 0 {
      assert HasAddress(w, w[x].up.value, hub) && HasAddress(w, w[y].up.value, hub);
    }
    assert OnPort(w[x], w[y].up, w[y].port);
  }

  /** So a reset of the port is a reset of that device, if there is one. */
  lemma PortResetIs(w: Wiring, t: Table, hub: nat, port: nat, enabled: bool, x: nat)
    requires InStep(w, t) && OnHubPort(w, x, hub, port)
    ensures PortReset(w, hub, port, enabled) == Reset(w, x, enabled)
  {
    forall y | OnHubPort(w, y, hub, port)
      ensures y == x
    {
      OneOnPort(w, t, hub, port, x, y);
    }
    hide InStep, OnHubPort, Beneath;
  }

  lemma PortResetIdle(w: Wiring, hub: nat, port: nat, enabled: bool)
    requires !Occupied(w, hub, port)
    ensures PortReset(w, hub, port, enabled) == w
  {
    hide OnHubPort, Beneath;
  }

  /** A reset of a port on a quiet bus keeps step, and leaves only that port's device on 0. */
  lemma PortResetKeeps(w: Wiring, t: Table, hub: nat, port: nat, enabled: bool)
    requires InStep(w, t) && Quiet(w)
    ensures var w' := PortReset(w, hub, port, enabled); InStep(w', t) && Lone(w', hub, port)
  {
    hide InStep, Reset, PortReset;
    if Occupied(w, hub, port) {
      var x :| x in w && OnHubPort(w, x, hub, port);
      PortResetIs(w, t, hub, port, enabled, x);
      OnPortHeard(w, t, hub, port, x);
      ResetKeeps(w, t, x, enabled);
      ResetInPlace(w, t, x, enabled);
      hide UpAddr;
      var w' := Reset(w, x, enabled);
      forall y | HasAddress(w', y, 0)
        ensures y == x && OnHubPort(w', y, hub, port)
      {
      }
    } else {
      PortResetIdle(w, hub, port, enabled);
      hide OnHubPort;
    }
  }

  lemma OnPortHeard(w: Wiring, t: Table, hub: nat, port: nat, x: nat)
    requires InStep(w, t) && OnHubPort(w, x, hub, port)
    ensures Heard(w, x) && RealPort(hub, port)
  {
    hide Forest, RootPortOne, Agrees, Live;
    assert Seated(w, x);
  }

  lemma ResetInPlace(w: Wiring, t: Table, x: nat, enabled: bool)
    requires InStep(w, t) && x in w
    ensures var w' := Reset(w, x, enabled); x in w' && w'[x].up == w[x].up && w'[x].port == w[x].port
  {
    hide InStep, Beneath;
  }

  // ---- the steps ----

  lemma PortsKeeps(bus: nat -> Reply, s: State)
    requires s.pc.Ports? && Sound(s)
    ensures Sound(PortsStep(bus, s))
  {
    hide InStep, Orderly, Persist, Quiet, OnHubPort;
    ToAddress(bus, s, s.pc.hub, false);
    StaysQuiet(s.w, Now(bus, s));
    hide Now, Goes;
  }

  lemma ClearingKeeps(bus: nat -> Reply, s: State)
    requires s.pc.Clearing? && Sound(s)
    ensures Sound(ClearingStep(bus, s))
  {
    hide InStep, Orderly, Persist, Quiet, OnHubPort, Disconnected;
    var hub, port := s.pc.hub, s.pc.port;
    ToAddress(bus, s, hub, false);
    var w := Now(bus, s);
    StaysQuiet(s.w, w);
    if !s.pc.connected && Goes(bus, s, hub) {
      StaysVacated(s.w, w, s.t, hub, port);
      var h :| h in w && HasAddress(w, h, hub);
      VacatedThere(w, hub, port, h);
      DisconnectKeeps(w, s.t, Some(h), hub, port);
    }
    hide Now, Goes, Vacant, Vacated;
  }

  lemma VacatedThere(w: Wiring, hub: nat, port: nat, h: nat)
    requires Vacated(w, hub, port) && hub != 0 && HasAddress(w, h, hub)
    ensures Vacant(w, Some(h), port)
  {
    forall x | x in w && OnPort(w[x], Some(h), port)
      ensures w[x].addr.None? || w[x].addr == Some(0)
    {
      assert OnHubPort(w, x, hub, port);
    }
  }

  lemma ResettingKeeps(bus: nat -> Reply, s: State)
    requires s.pc.Resetting? && Sound(s) && Goes(bus, s, s.pc.hub)
    ensures Sound(ResettingStep(bus, s))
  {
    hide InStep, Orderly, Persist, Quiet, PortReset, Lone;
    ToAddress(bus, s, s.pc.hub, true);
    StaysQuiet(s.w, Now(bus, s));
    PortResetKeeps(Now(bus, s), s.t, s.pc.hub, s.pc.port, bus(s.clock).enables);
    hide Now, Goes;
  }

  lemma CheckingKeeps(bus: nat -> Reply, s: State)
    requires s.pc.Checking? && Sound(s) && Goes(bus, s, s.pc.hub)
    ensures Sound(CheckingStep(bus, s))
  {
    hide InStep, Orderly, Persist, AllHubs;
    var hub, port, w := s.pc.hub, s.pc.port, Now(bus, s);
    ToAddress(bus, s, hub, true);
    StaysLone(s.w, w, s.t, hub, port);
    if Enabled(w, hub, port) {
      var x :| x in w && OnHubPort(w, x, hub, port) && w[x].addr.Some?;
      OnPortHeard(w, s.t, hub, port, x);
    } else {
      forall y
        ensures !HasAddress(w, y, 0)
      {
      }
    }
    hide Now, Goes, OnHubPort;
  }

  lemma DescribingKeeps(bus: nat -> Reply, s: State)
    requires s.pc.Describing? && Sound(s) && Goes(bus, s, 0)
    ensures Sound(DescribingStep(bus, s))
  {
    hide InStep, Orderly, Persist, OnHubPort;
    ToZero(bus, s, s.pc.hub, s.pc.port);
    hide Now, Goes;
  }

  lemma LocatingKeeps(s: State)
    requires s.pc.Locating? && Sound(s)
    ensures LocatingStep(s).pc.Addressing? ==> Sound(LocatingStep(s))
    ensures s.pc.hub == 0 ==> LocatingStep(s).pc.Addressing?
  {
    var hub, port, isHub := s.pc.hub, s.pc.port, s.pc.isHub;
    var (t, given) := Connection(s.t, hub, port, isHub);
    ConnectionIs(s.t, t, hub, port, isHub, given);
    var y :| HasAddress(s.w, y, 0);
    assert OnHubPort(s.w, y, hub, port);
    assert hub != 0 ==> s.w[y].up.Some? && HasAddress(s.w, s.w[y].up.value, hub);
    hide InStep, Orderly, Connects, Connection, OnHubPort, Lone, AllHubs;
    ConnectKeeps(s.w, s.t, t, s.w[y].up, hub, port, isHub, given);
  }

  lemma AddressingKeeps(bus: nat -> Reply, s: State)
    requires s.pc.Addressing? && Sound(s) && Goes(bus, s, 0)
    ensures Sound(AddressingStep(bus, s))
  {
    hide InStep, Orderly, Persist, AllHubs, Assign, At, Quiet;
    var w, hub, port := Now(bus, s), s.pc.hub, s.pc.port;
    ToZero(bus, s, hub, port);
    var x :| HasAddress(w, x, 0);
    assert OnHubPort(w, x, hub, port);
    assert UpAddr(w, x) == Some(hub) && w[x].port == port;
    hide OnHubPort, UpAddr;
    AssignKeeps(w, s.t, x, s.pc.given);
    hide Now, Goes, Lone;
  }

  lemma SettingUpKeeps(bus: nat -> Reply, s: State)
    requires s.pc.SettingUp? && Sound(s)
    ensures Sound(SettingUpStep(bus, s))
  {
    hide InStep, Orderly, Persist, Quiet, At;
    ToAddress(bus, s, s.pc.given, false);
    StaysQuiet(s.w, Now(bus, s));
    hide Now, Goes;
  }

  /** A step that leaves the history clean came from a clean one, and within the window its
    * transfer succeeded.
    */
  lemma StepClean(bus: nat -> Reply, s: State)
    requires Clean(Step(bus, s).history)
    ensures Clean(s.history)
    ensures (s.pc.Resetting? || s.pc.Checking?) ==> Goes(bus, s, s.pc.hub)
    ensures (s.pc.Describing? || s.pc.Addressing?) ==> Goes(bus, s, 0)
    ensures s.pc.Locating? ==> LocatingStep(s).pc.Addressing?
  {
    var s' := Step(bus, s);
    hide Goes, Now, PortReset, Assign, Occupied, Enabled, Connection, Disconnected, Mask, Clean;
    if s'.history != s.history {
      var r := s'.history[|s.history|];
      assert s'.history == s.history + [r];
      CleanSnoc(s.history, r);
    }
  }

  lemma StepKeeps(bus: nat -> Reply, s: State)
    requires Good(s)
    ensures Good(Step(bus, s))
  {
    if Clean(Step(bus, s).history) {
      StepClean(bus, s);
      hide Sound, Clean, Goes, PortsStep, ClearingStep, ResettingStep, CheckingStep, DescribingStep, LocatingStep,
           AddressingStep, SettingUpStep;
      match s.pc
      case Idle(_) =>
      case Ports(_, _) => PortsKeeps(bus, s);
      case Clearing(_, _, _, _, _) => ClearingKeeps(bus, s);
      case Resetting(_, _, _) => ResettingKeeps(bus, s);
      case Checking(_, _, _) => CheckingKeeps(bus, s);
      case Describing(_, _, _) => DescribingKeeps(bus, s);
      case Locating(_, _, _) => LocatingKeeps(s);
      case Addressing(_, _, _, _) => AddressingKeeps(bus, s);
      case SettingUp(_, _, _, _) => SettingUpKeeps(bus, s);
    }
  }

  lemma BeginKeeps(bus: nat -> Reply, s: State, signal: Signal)
    requires s.pc.Idle? && Good(s) && Addressed(signal)
    ensures Good(Begin(bus, s, signal))
  {
    if Clean(s.history) {
      var w := Now(bus, s);
      HappenedKeeps(s.w, s.t, bus(s.clock).before);
      hide InStep, Persist, Orderly, Clean;
      StaysQuiet(s.w, w);
      PortResetKeeps(w, s.t, 0, 1, true);
      if signal.Root? && !Occupied(w, 0, 1) {
        RootVacant(w);
        DisconnectKeeps(w, s.t, None, 0, 1);
      }
      hide Now, PortReset, Occupied, Disconnected, Quiet, Lone;
    }
  }

  lemma RootVacant(w: Wiring)
    ensures Vacant(w, None, 1) || Occupied(w, 0, 1)
  {
    if !Vacant(w, None, 1) {
      var x :| x in w && OnPort(w[x], None, 1);
      assert OnHubPort(w, x, 0, 1);
    }
  }

  lemma {:induction false} DriveKeeps(bus: nat -> Reply, s: State, n: nat)
    requires Good(s)
    ensures Good(Drive(bus, s, n))
  {
    hide Good, Step;
    if n > 0 {
      DriveKeeps(bus, s, n - 1);
      StepKeeps(bus, Drive(bus, s, n - 1));
    }
  }

  lemma {:induction false} RunKeeps(bus: nat -> Reply, signals: seq<Signal>, trace: seq<State>, i: nat)
    requires BusRun(bus, signals, trace) && i < |trace|
    ensures Good(trace[i]) && trace[i].pc.Idle?
  {
    if i == 0 {
      EmptyForest(trace[0].t);
    } else {
      RunKeeps(bus, signals, trace, i - 1);
      assert Handles(bus, trace[i - 1], signals[i - 1], trace[i]);
      hide Good, Begin, Step, BusRun, Start;
      var n: nat :| Drive(bus, Begin(bus, trace[i - 1], signals[i - 1]), n) == trace[i];
      BeginKeeps(bus, trace[i - 1], signals[i - 1]);
      DriveKeeps(bus, Begin(bus, trace[i - 1], signals[i - 1]), n);
    }
  }

  // ---- what it comes to ----

  /** The state `n` steps into the i-th signal of a history. */
  ghost function Moment(bus: nat -> Reply, signals: seq<Signal>, trace: seq<State>, i: nat, n: nat): State
    requires i < |signals| < |trace|
  {
    Drive(bus, Begin(bus, trace[i], signals[i]), n)
  }

  /** At every moment of every bus history with no error or exhaustion between a port reset and
    * its SET_ADDRESS: each transfer to address 0 has had exactly one device listening; no two
    * devices share an address, then or at any transfer, nor will whatever comes or goes next;
    * nobody is left on address 0 between events; and the root connection has not failed.
    */
  lemma HistoryKeeps(bus: nat -> Reply, signals: seq<Signal>, trace: seq<State>, i: nat, n: nat)
    requires BusRun(bus, signals, trace) && i < |signals| < |trace|
    ensures var s := Moment(bus, signals, trace, i, n);
      Clean(s.history) ==>
        && Orderly(s.history)
        && (s.pc.Idle? ==> Quiet(s.w) && s.pc.event != Crash)
        && InStep(s.w, s.t)
        && forall j :: 0 <= j <= |bus(s.clock).before| ==> NoSharedAddress(Happened(s.w, bus(s.clock).before[..j]))
  {
    hide BusRun, Begin, Step;
    RunKeeps(bus, signals, trace, i);
    assert Addressed(signals[i]) by {
      RunSignals(bus, signals, trace, i);
    }
    BeginKeeps(bus, trace[i], signals[i]);
    DriveKeeps(bus, Begin(bus, trace[i], signals[i]), n);
    var s := Moment(bus, signals, trace, i, n);
    hide Moment, Drive, InStep, Orderly, Quiet;
    if Clean(s.history) {
      forall j | 0 <= j <= |bus(s.clock).before|
        ensures NoSharedAddress(Happened(s.w, bus(s.clock).before[..j]))
      {
        HappenedKeeps(s.w, s.t, bus(s.clock).before[..j]);
        InStepUnique(Happened(s.w, bus(s.clock).before[..j]), s.t);
      }
    }
  }

  lemma RunSignals(bus: nat -> Reply, signals: seq<Signal>, trace: seq<State>, i: nat)
    requires BusRun(bus, signals, trace) && i < |signals|
    ensures Addressed(signals[i]) && Handles(bus, trace[i], signals[i], trace[i + 1])
  {
    hide Handles, Start;
  }

  /** The errors after which somebody may be left on address 0. */
  predicate Harmful(pc: Pc) {
    pc.Idle? && (pc.event == Crash || (pc.event.EnumerationError? && pc.event.stage == BeforeAddress))
  }

  /** Since `before`, the history has gone wrong just if the last event says so. */
  ghost predicate ToldBy(before: seq<Record>, s: State) {
    before <= s.history && (Clean(s.history) <==> Clean(before) && !Harmful(s.pc))
  }

  /** A step from `s` to `s'` adds at most one record, and goes idle with a harmful event just
    * if that is a harmful one.
    */
  ghost predicate Records(s: State, s': State) {
    if s'.history == s.history then Harmful(s'.pc) <==> Harmful(s.pc)
    else
      && !Harmful(s.pc)
      && |s'.history| == |s.history| + 1 && s'.history == s.history + [s'.history[|s.history|]]
      && (Harmless(s'.history[|s.history|]) <==> !Harmful(s'.pc))
  }

  lemma WindowRecords(bus: nat -> Reply, s: State)
    ensures s.pc.Resetting? ==> Records(s, ResettingStep(bus, s))
    ensures s.pc.Checking? ==> Records(s, CheckingStep(bus, s))
    ensures s.pc.Describing? ==> Records(s, DescribingStep(bus, s))
    ensures s.pc.Addressing? ==> Records(s, AddressingStep(bus, s))
  {
    hide Goes, Now, PortReset, Assign, Occupied, Enabled;
  }

  lemma StepRecords(bus: nat -> Reply, s: State)
    ensures Records(s, Step(bus, s))
  {
    hide Goes, Now, Occupied, Connection, Disconnected, Mask, Trailing;
    hide ResettingStep, CheckingStep, DescribingStep, AddressingStep;
    WindowRecords(bus, s);
  }

  lemma StepTold(bus: nat -> Reply, before: seq<Record>, s: State)
    requires ToldBy(before, s)
    ensures ToldBy(before, Step(bus, s))
  {
    hide Step, Clean, Harmful, Harmless;
    StepRecords(bus, s);
    var s' := Step(bus, s);
    if s'.history != s.history {
      CleanSnoc(s.history, s'.history[|s.history|]);
    }
  }

  lemma {:induction false} DriveTold(bus: nat -> Reply, before: seq<Record>, s: State, n: nat)
    requires ToldBy(before, s)
    ensures ToldBy(before, Drive(bus, s, n))
  {
    hide ToldBy, Step;
    if n > 0 {
      DriveTold(bus, before, s, n - 1);
      StepTold(bus, before, Drive(bus, s, n - 1));
    }
  }

  lemma HandleTold(bus: nat -> Reply, s: State, signal: Signal, s': State)
    requires s.pc.Idle? && Handles(bus, s, signal, s')
    ensures ToldBy(s.history, s')
  {
    assert ToldBy(s.history, Begin(bus, s, signal)) by {
      hide Now, PortReset, Occupied, Disconnected, Clean;
    }
    hide Begin, ToldBy, Step;
    var n: nat :| Drive(bus, Begin(bus, s, signal), n) == s';
    DriveTold(bus, s.history, Begin(bus, s, signal), n);
  }

  /** A history is clean if and only if no event was an error between a port reset and its
    * SET_ADDRESS.
    */
  lemma {:induction false} CleanByEvents(bus: nat -> Reply, signals: seq<Signal>, trace: seq<State>, i: nat)
    requires BusRun(bus, signals, trace) && i < |trace|
    ensures Clean(trace[i].history) <==>
      forall k :: 0 < k <= i ==>
        trace[k].pc.Idle? && !(trace[k].pc.event.EnumerationError? && trace[k].pc.event.stage == BeforeAddress)
  {
    RunKeeps(bus, signals, trace, i);
    if i > 0 {
      RunSignals(bus, signals, trace, i - 1);
      RunKeeps(bus, signals, trace, i - 1);
      CleanByEvents(bus, signals, trace, i - 1);
      hide BusRun, Handles, Clean, InStep, Orderly, Quiet;
      HandleTold(bus, trace[i - 1], signals[i - 1], trace[i]);
      if Clean(trace[i - 1].history) {
        NoCrash(bus, signals, trace, i);
      }
    } else {
      hide Good;
    }
  }

  /** The root connection fails only once the history has already gone wrong. */
  lemma NoCrash(bus: nat -> Reply, signals: seq<Signal>, trace: seq<State>, i: nat)
    requires BusRun(bus, signals, trace) && 0 < i < |trace| && Clean(trace[i - 1].history)
    ensures trace[i].pc != Idle(Crash)
  {
    RunSignals(bus, signals, trace, i - 1);
    RunKeeps(bus, signals, trace, i - 1);
    BeginKeeps(bus, trace[i - 1], signals[i - 1]);
    hide BusRun, Begin, Step, Good;
    var b := Begin(bus, trace[i - 1], signals[i - 1]);
    var n: nat :| Drive(bus, b, n) == trace[i];
    assert b.pc != Idle(Crash) && Clean(b.history) by {
      BeginStaysClean(bus, trace[i - 1], signals[i - 1]);
    }
    DriveNoCrash(bus, b, n);
  }

  lemma BeginStaysClean(bus: nat -> Reply, s: State, signal: Signal)
    ensures var b := Begin(bus, s, signal); b.history == s.history && b.pc != Idle(Crash)
  {
    hide Now, PortReset, Occupied, Disconnected;
  }

  lemma {:induction false} DriveNoCrash(bus: nat -> Reply, b: State, n: nat)
    requires Good(b) && Clean(b.history) && b.pc != Idle(Crash)
    ensures Drive(bus, b, n).pc != Idle(Crash)
    ensures Clean(Drive(bus, b, n).history) || Drive(bus, b, n).pc.Idle?
  {
    hide Good, Step, Clean;
    if n > 0 {
      DriveNoCrash(bus, b, n - 1);
      DriveKeeps(bus, b, n - 1);
      StepNoCrash(bus, Drive(bus, b, n - 1));
    }
  }

  lemma StepNoCrash(bus: nat -> Reply, s: State)
    requires Good(s) && s.pc != Idle(Crash) && (Clean(s.history) || s.pc.Idle?)
    ensures Step(bus, s).pc != Idle(Crash)
    ensures Clean(Step(bus, s).history) || Step(bus, s).pc.Idle?
  {
    if s.pc.Locating? {
      LocatingKeeps(s);
    }
    if !s.pc.Idle? {
      StepTold(bus, s.history, s);
    }
    hide Clean, Sound, Goes, Now, PortReset, Assign, Occupied, Enabled, Connection, Disconnected, Mask;
  }

  // ---- what an event means ----

  /** A device that is no hub is on that port, with the address the table has for that place. */
  ghost predicate Attached(s: State, given: nat, hub: nat, port: nat) {
    && At(s.t, given, hub, port)
    && exists x :: HasAddress(s.w, x, given) && OnHubPort(s.w, x, hub, port) && !s.w[x].isHub
  }

  /** What the event of an idle state `s'` means, coming from `s`. */
  ghost predicate Means(s: State, s': State)
    requires s'.pc.Idle?
  {
    match s'.pc.event
    case Connect(given) => s.pc.Addressing? && Attached(s', given, s.pc.hub, s.pc.port)
    case HubConnect(given) => s.pc.SettingUp? && given != 0 && At(s'.t, given, s.pc.hub, s.pc.port)
    case Disconnect(mask) =>
      && s.pc.Clearing? && s'.t == Disconnected(s.t, s.pc.hub, s.pc.port)
      && (s.pc.hub < MAX_HUBS && s.pc.port < MAX_PORTS ==>
            Members(mask) == Downstream(s.t, s.pc.hub, s.pc.port))
    case EnumerationError(hub, port, stage) => stage == BeforeReset ==> s'.t == s.t
    case Nothing => s'.t == s.t
    case Crash => false
  }

  /** On a clean history each event means what it says. */
  lemma EventMeans(bus: nat -> Reply, s: State)
    requires Good(s) && !s.pc.Idle? && Step(bus, s).pc.Idle? && Clean(Step(bus, s).history)
    ensures Means(s, Step(bus, s))
  {
    StepClean(bus, s);
    StepKeeps(bus, s);
    if s.pc.Addressing? {
      AddressingMeans(bus, s);
    } else {
      if s.pc.Clearing? && s.pc.hub < MAX_HUBS && s.pc.port < MAX_PORTS {
        MaskMembers(s);
      }
      hide Goes, Now, PortReset, Assign, Occupied, Enabled, Connection, Disconnected, Mask, Clean, InStep, Orderly,
           Quiet, At;
    }
  }

  lemma MaskMembers(s: State)
    requires s.pc.Clearing? && s.pc.hub < MAX_HUBS && s.pc.port < MAX_PORTS
    ensures Members(Mask(s.t, s.pc.hub, s.pc.port)) == Downstream(s.t, s.pc.hub, s.pc.port)
  {
    hide Below;
  }

  lemma AddressingMeans(bus: nat -> Reply, s: State)
    requires s.pc.Addressing? && Sound(s) && Goes(bus, s, 0)
    ensures var s' := AddressingStep(bus, s);
      s'.pc.Idle? ==> s'.pc.event.Connect? && Attached(s', s'.pc.event.address, s.pc.hub, s.pc.port)
  {
    hide InStep, Orderly, Persist, At, Quiet;
    var w, hub, port := Now(bus, s), s.pc.hub, s.pc.port;
    ToZero(bus, s, hub, port);
    var x :| HasAddress(w, x, 0);
    assert OnHubPort(w, x, hub, port);
    assert AllHubs(w, s.pc.isHub);
    assert HasAddress(Assign(w, s.pc.given), x, s.pc.given);
    StaysOnPort(w, s.pc.given, hub, port, x);
    hide Now, Goes, Assign, OnHubPort;
  }

  /** Giving the device an address leaves it where it is: its hub is not on address 0. */
  lemma StaysOnPort(w: Wiring, given: nat, hub: nat, port: nat, x: nat)
    requires OnHubPort(w, x, hub, port)
    ensures OnHubPort(Assign(w, given), x, hub, port)
  {
  }

  /** A port that is not enabled after its reset has nothing that can be heard. */
  lemma NotEnabledSilent(bus: nat -> Reply, s: State)
    requires s.pc.Checking? && Step(bus, s).pc.Ports?
    ensures var w := Step(bus, s).w;
      forall x :: x in w && OnHubPort(w, x, s.pc.hub, s.pc.port) ==> w[x].addr.None?
  {
    hide Now, Goes, OnHubPort;
  }

  /** And if the root goes, so does the whole table. */
  lemma RootGone(bus: nat -> Reply, s: State)
    requires s.pc.Idle? && Good(s) && Clean(s.history)
    ensures var s' := Begin(bus, s, Root);
      s'.pc.Idle? <==> !Occupied(Now(bus, s), 0, 1)
    ensures var s' := Begin(bus, s, Root);
      s'.pc.Idle? ==> s'.pc.event.Disconnect? && forall i: nat :: !Present(s'.t, i)
  {
    hide Orderly, Quiet, Now, Occupied, PortReset;
    RootDisconnectEmpties(s.t);
  }

  lemma IdleStays(bus: nat -> Reply, s: State)
    requires s.pc.Idle?
    ensures Step(bus, s) == s
  {
  }

  /** The step that went idle. */
  lemma {:induction false} WentIdle(bus: nat -> Reply, b: State, n: nat) returns (m: nat)
    requires !b.pc.Idle? && Drive(bus, b, n).pc.Idle?
    ensures !Drive(bus, b, m).pc.Idle? && Step(bus, Drive(bus, b, m)) == Drive(bus, b, n)
  {
    hide Step;
    assert n > 0;
    var s := Drive(bus, b, n - 1);
    if s.pc.Idle? {
      IdleStays(bus, s);
      m := WentIdle(bus, b, n - 1);
    } else {
      m := n - 1;
    }
  }

  /** Every event of a clean history means what it says: the host got to it by a step of which
    * that is true, or on turning to the signal.
    */
  lemma HistoryMeans(bus: nat -> Reply, signals: seq<Signal>, trace: seq<State>, i: nat) returns (n: nat)
    requires BusRun(bus, signals, trace) && i < |signals| < |trace| && Clean(trace[i + 1].history)
    ensures Begin(bus, trace[i], signals[i]).pc.Idle? ==> trace[i + 1] == Begin(bus, trace[i], signals[i])
    ensures !Begin(bus, trace[i], signals[i]).pc.Idle? ==>
      var s := Moment(bus, signals, trace, i, n);
      !s.pc.Idle? && trace[i + 1] == Step(bus, s) && Means(s, trace[i + 1])
  {
    RunSignals(bus, signals, trace, i);
    RunKeeps(bus, signals, trace, i);
    BeginKeeps(bus, trace[i], signals[i]);
    hide BusRun, Begin, Good, Means, Clean;
    var b := Begin(bus, trace[i], signals[i]);
    var k: nat :| Drive(bus, b, k) == trace[i + 1];
    if b.pc.Idle? {
      StaysIdle(bus, b, k);
      n := 0;
    } else {
      n := WentIdle(bus, b, k);
      DriveKeeps(bus, b, n);
      hide Step;
      EventMeans(bus, Drive(bus, b, n));
    }
  }

  lemma {:induction false} StaysIdle(bus: nat -> Reply, b: State, n: nat)
    requires b.pc.Idle?
    ensures Drive(bus, b, n) == b
  {
    hide Step;
    if n > 0 {
      StaysIdle(bus, b, n - 1);
      IdleStays(bus, b);
    }
  }
}
