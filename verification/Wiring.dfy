/** The physical side of a USB bus: which devices are plugged in where, and the address
  * each listens on; and how that stays in step with the host's topology table.
  */
module Wirings {
  import opened Machine
  import opened Topologies

  /** A device is named by the order it was plugged in, so a hub's number is below those of
    * the devices on it. `up` is the hub it is on (None: the root port). `addr` is what it
    * answers to: None while its port is not enabled, 0 after a port reset.
    */
  datatype Device = Device(up: Option<nat>, port: nat, isHub: bool, addr: Option<nat>)

  type Wiring = map<nat, Device>

  predicate OnPort(d: Device, up: Option<nat>, port: nat) {
    d.up == up && d.port == port
  }

  /** On a port of a hub that is there, or on root port 1. */
  predicate Seated(w: Wiring, x: nat)
    requires x in w
  {
    && w[x].port >= 1
    && (w[x].up.None? ==> w[x].port == 1)
    && (w[x].up.Some? ==> w[x].up.value < x && w[x].up.value in w && w[w[x].up.value].isHub)
  }

  /** Every device is seated, and alone on its port. */
  ghost predicate Wired(w: Wiring) {
    && (forall x {:trigger Seated(w, x)} :: x in w ==> Seated(w, x))
    && (forall x, y {:trigger OnPort(w[x], w[y].up, w[y].port)} ::
          x in w && y in w && OnPort(w[x], w[y].up, w[y].port) ==> x == y)
  }

  /** The address of the hub a device is on, 0 for the root. */
  function UpAddr(w: Wiring, x: nat): Option<nat>
    requires x in w
  {
    match w[x].up
    case None => Some(0)
    case Some(h) => if h in w then w[h].addr else None
  }

  predicate Heard(w: Wiring, x: nat)
    requires x in w
  {
    UpAddr(w, x).Some? && (w[x].up.Some? ==> UpAddr(w, x).value != 0)
  }

  /** A device can be heard only through a hub that has itself been given an address. */
  ghost predicate Live(w: Wiring) {
    forall x {:trigger Heard(w, x)} :: x in w && w[x].addr.Some? ==> Heard(w, x)
  }

  predicate HasAddress(w: Wiring, x: nat, a: nat) {
    x in w && w[x].addr == Some(a)
  }

  /** The table has every addressed device at the place it is physically plugged in. */
  ghost predicate Agrees(w: Wiring, t: Table) {
    forall x, a: nat :: HasAddress(w, x, a) && a != 0 ==>
      UpAddr(w, x).Some? && At(t, a, UpAddr(w, x).value, w[x].port)
  }

  ghost predicate InStep(w: Wiring, t: Table) {
    Wired(w) && Live(w) && Agrees(w, t) && Forest(t) && RootPortOne(t)
  }

  /** Nobody listens on address 0. */
  ghost predicate Quiet(w: Wiring) {
    forall x :: !HasAddress(w, x, 0)
  }

  /** At most `x` listens on address 0. */
  ghost predicate OnlyAtZero(w: Wiring, x: nat) {
    forall y :: HasAddress(w, y, 0) ==> y == x
  }

  ghost function Listeners(w: Wiring, a: nat): set<nat> {
    set x | x in w && HasAddress(w, x, a)
  }

  ghost predicate NoSharedAddress(w: Wiring) {
    forall x, y, a: nat :: a != 0 && HasAddress(w, x, a) && HasAddress(w, y, a) ==> x == y
  }

  lemma {:induction false} SameAddressSameDevice(w: Wiring, t: Table, x: nat, y: nat, a: nat)
    requires InStep(w, t) && a != 0 && HasAddress(w, x, a) && HasAddress(w, y, a)
    ensures x == y
    decreases x
  {
    hide Forest, RootPortOne;
    assert Heard(w, x) && Heard(w, y) && Seated(w, x) && Seated(w, y);
    var h := UpAddr(w, x);
    assert At(t, a, h.value, w[x].port) && UpAddr(w, y) == h && w[y].port == w[x].port;
    if h.value != 0 {
      SameAddressSameDevice(w, t, w[x].up.value, w[y].up.value, h.value);
    }
    assert OnPort(w[x], w[y].up, w[y].port);
  }

  /** While host and bus are in step, no two attached devices share an address. */
  lemma InStepUnique(w: Wiring, t: Table)
    requires InStep(w, t)
    ensures NoSharedAddress(w)
  {
    forall x, y, a: nat | a != 0 && HasAddress(w, x, a) && HasAddress(w, y, a)
      ensures x == y
    {
      SameAddressSameDevice(w, t, x, y, a);
    }
  }

  // ---- plugging and unplugging ----

  /** `x` is `y` or is plugged in below it. */
  predicate Beneath(w: Wiring, x: nat, y: nat)
    requires x in w
    decreases x
  {
    || x == y
    || (w[x].up.Some? && w[x].up.value < x && w[x].up.value in w && Beneath(w, w[x].up.value, y))
  }

  datatype Happening = Plug(x: nat, d: Device) | Unplug(x: nat)

  predicate Possible(w: Wiring, h: Happening) {
    match h
    case Plug(x, d) =>
      && d.addr == None && d.port >= 1
      && (forall y :: y in w ==> y < x)
      && (d.up.None? ==> d.port == 1)
      && (d.up.Some? ==> d.up.value in w && w[d.up.value].isHub)
      && (forall y :: y in w ==> !OnPort(w[y], d.up, d.port))
    case Unplug(x) => x in w
  }

  function After(w: Wiring, h: Happening): Wiring
    requires Possible(w, h)
  {
    match h
    case Plug(x, d) => w[x := d]
    case Unplug(x) => map y | y in w && !Beneath(w, y, x) :: w[y]
  }

  /** The wiring after what is possible of these. */
  function Happened(w: Wiring, happenings: seq<Happening>): Wiring {
    if happenings == [] then w
    else
      var w' := Happened(w, happenings[..|happenings| - 1]);
      var h := happenings[|happenings| - 1];
      if Possible(w', h) then After(w', h) else w'
  }

  lemma PlugKeeps(w: Wiring, t: Table, p: nat, d: Device)
    requires InStep(w, t) && Possible(w, Plug(p, d))
    ensures InStep(w[p := d], t)
  {
    hide Forest, RootPortOne;
    var w' := w[p := d];
    forall x | x in w
      ensures Seated(w', x) && UpAddr(w', x) == UpAddr(w, x)
    {
      assert Seated(w, x);
    }
    assert Seated(w', p);
    forall x, y | x in w' && y in w' && OnPort(w'[x], w'[y].up, w'[y].port)
      ensures x == y
    {
      if x in w && y in w {
        assert OnPort(w[x], w[y].up, w[y].port);
      }
    }
    forall x | x in w' && w'[x].addr.Some?
      ensures Heard(w', x)
    {
      assert Heard(w, x);
    }
    forall x, a: nat | HasAddress(w', x, a) && a != 0
      ensures UpAddr(w', x).Some? && At(t, a, UpAddr(w', x).value, w'[x].port)
    {
      assert HasAddress(w, x, a);
    }
  }

  lemma UnplugKeeps(w: Wiring, t: Table, p: nat)
    requires InStep(w, t) && p in w
    ensures InStep(After(w, Unplug(p)), t)
  {
    hide Forest, RootPortOne;
    var w' := After(w, Unplug(p));
    forall x | x in w'
      ensures x in w && w'[x] == w[x] && Seated(w', x) && UpAddr(w', x) == UpAddr(w, x)
    {
      assert Seated(w, x);
      if w[x].up.Some? {
        assert !Beneath(w, w[x].up.value, p);
      }
    }
    forall x, y | x in w' && y in w' && OnPort(w'[x], w'[y].up, w'[y].port)
      ensures x == y
    {
      assert OnPort(w[x], w[y].up, w[y].port);
    }
    forall x | x in w' && w'[x].addr.Some?
      ensures Heard(w', x)
    {
      assert Heard(w, x);
    }
    forall x, a: nat | HasAddress(w', x, a) && a != 0
      ensures UpAddr(w', x).Some? && At(t, a, UpAddr(w', x).value, w'[x].port)
    {
      assert HasAddress(w, x, a);
    }
  }

  /** Whatever is plugged or unplugged, host and bus stay in step and nobody new listens. */
  lemma HappeningKeeps(w: Wiring, t: Table, h: Happening)
    requires InStep(w, t) && Possible(w, h)
    ensures InStep(After(w, h), t) && Persist(w, After(w, h))
  {
    match h
    case Plug(p, d) => PlugKeeps(w, t, p, d);
    case Unplug(p) => UnplugKeeps(w, t, p);
    hide InStep;
  }

  /** Whoever is heard afterwards was heard before: the same device, on the same port, with
    * the same hub address above it.
    */
  ghost predicate Persist(w: Wiring, w': Wiring) {
    forall x, a: nat :: HasAddress(w', x, a) ==>
      HasAddress(w, x, a) && w'[x] == w[x] && (UpAddr(w', x).Some? ==> UpAddr(w', x) == UpAddr(w, x))
  }

  // ---- what the host does to the bus ----

  /** A reset of the port `x` is on: `x` goes to address 0 if the port comes up enabled,
    * and everything below it falls silent.
    */
  function Reset(w: Wiring, x: nat, enabled: bool): Wiring {
    map y | y in w ::
      if y == x then w[y].(addr := if enabled then Some(0) else None)
      else if Beneath(w, y, x) then w[y].(addr := None)
      else w[y]
  }

  lemma ResetKeeps(w: Wiring, t: Table, x: nat, enabled: bool)
    requires InStep(w, t) && x in w && Heard(w, x)
    ensures InStep(Reset(w, x, enabled), t)
    ensures Quiet(w) ==> OnlyAtZero(Reset(w, x, enabled), x)
    ensures HasAddress(Reset(w, x, enabled), x, 0) <==> enabled
    ensures UpAddr(Reset(w, x, enabled), x) == UpAddr(w, x)
  {
    assert Seated(w, x);
    ResetUpAddr(w, x, enabled);
    ResetAtZero(w, x, enabled);
    var w' := Reset(w, x, enabled);
    hide Forest, RootPortOne, Reset;
    forall y | y in w
      ensures y in w' && Seated(w', y)
    {
      ResetFrame(w, x, enabled, y);
      if w[y].up.Some? {
        ResetFrame(w, x, enabled, w[y].up.value);
      }
    }
    ResetPorts(w, x, enabled);
    forall y | y in w' && w'[y].addr.Some?
      ensures Heard(w', y)
    {
      ResetFrame(w, x, enabled, y);
      assert Heard(w, y);
    }
    forall y, a: nat | HasAddress(w', y, a) && a != 0
      ensures UpAddr(w', y).Some? && At(t, a, UpAddr(w', y).value, w'[y].port)
    {
      ResetFrame(w, x, enabled, y);
      assert HasAddress(w, y, a);
    }
  }

  lemma ResetPorts(w: Wiring, x: nat, enabled: bool)
    requires Wired(w)
    ensures var w' := Reset(w, x, enabled);
      && w'.Keys == w.Keys
      && forall y, z {:trigger OnPort(w'[y], w'[z].up, w'[z].port)} ::
           y in w' && z in w' && OnPort(w'[y], w'[z].up, w'[z].port) ==> y == z
  {
    var w' := Reset(w, x, enabled);
    forall y, z | y in w' && z in w' && OnPort(w'[y], w'[z].up, w'[z].port)
      ensures y == z
    {
      assert OnPort(w[y], w[z].up, w[z].port);
    }
  }

  /** A reset moves nothing, and whoever is still heard afterwards is heard as before. */
  lemma ResetFrame(w: Wiring, x: nat, enabled: bool, y: nat)
    requires Wired(w) && y in w
    ensures var w' := Reset(w, x, enabled);
      && w'.Keys == w.Keys && Seated(w, y)
      && w'[y] == w[y].(addr := w'[y].addr)
      && (w'[y].addr.Some? ==> UpAddr(w', y) == UpAddr(w, y) && (w'[y].addr == w[y].addr || y == x))
      && (w'[y].addr.Some? && w'[y].addr != Some(0) ==> w'[y].addr == w[y].addr)
  {
    assert Seated(w, y);
    if w[y].up.Some? {
      if y == x {
        NotBeneathChild(w, w[y].up.value, x);
      } else if !Beneath(w, y, x) {
        assert !Beneath(w, w[y].up.value, x);
      }
    }
  }

  lemma ResetUpAddr(w: Wiring, x: nat, enabled: bool)
    requires x in w && Seated(w, x)
    ensures UpAddr(Reset(w, x, enabled), x) == UpAddr(w, x)
  {
    if w[x].up.Some? {
      NotBeneathChild(w, w[x].up.value, x);
    }
  }

  lemma ResetAtZero(w: Wiring, x: nat, enabled: bool)
    requires x in w
    ensures Quiet(w) ==> OnlyAtZero(Reset(w, x, enabled), x)
    ensures HasAddress(Reset(w, x, enabled), x, 0) <==> enabled
  {
    forall y | y != x && HasAddress(Reset(w, x, enabled), y, 0)
      ensures HasAddress(w, y, 0)
    {
    }
  }

  lemma {:induction false} NotBeneathChild(w: Wiring, h: nat, x: nat)
    requires h in w && h < x
    ensures !Beneath(w, h, x)
    decreases h
  {
    if w[h].up.Some? && w[h].up.value < h && w[h].up.value in w {
      NotBeneathChild(w, w[h].up.value, x);
    }
  }

  /** SET_ADDRESS sent to address 0: whoever listens there takes the address. */
  function Assign(w: Wiring, a: nat): Wiring {
    map y | y in w :: if w[y].addr == Some(0) then w[y].(addr := Some(a)) else w[y]
  }

  /** With one listener, at the place the table has the address for, SET_ADDRESS keeps step
    * and leaves address 0 quiet.
    */
  lemma AssignKeeps(w: Wiring, t: Table, x: nat, a: nat)
    requires InStep(w, t) && OnlyAtZero(w, x) && HasAddress(w, x, 0)
    requires a != 0 && UpAddr(w, x).Some? && At(t, a, UpAddr(w, x).value, w[x].port)
    ensures InStep(Assign(w, a), t) && Quiet(Assign(w, a)) && HasAddress(Assign(w, a), x, a)
  {
    AssignWired(w, x, a);
    hide Forest, RootPortOne, Wired;
    var w' := Assign(w, a);
    forall y | y in w' && w'[y].addr.Some?
      ensures Heard(w', y) && UpAddr(w', y) == UpAddr(w, y)
    {
      assert Heard(w, y);
      AssignUpAddr(w, x, a, y);
    }
    hide Assign;
    forall y, b: nat | HasAddress(w', y, b) && b != 0
      ensures UpAddr(w', y).Some? && At(t, b, UpAddr(w', y).value, w'[y].port)
    {
      assert Heard(w', y) && UpAddr(w', y) == UpAddr(w, y);
      if y != x {
        assert HasAddress(w, y, b);
      }
    }
  }

  /** The hub above a device that is heard is not the one on address 0. */
  lemma AssignUpAddr(w: Wiring, x: nat, a: nat, y: nat)
    requires OnlyAtZero(w, x) && y in w && Heard(w, y)
    ensures UpAddr(Assign(w, a), y) == UpAddr(w, y)
  {
  }

  lemma AssignWired(w: Wiring, x: nat, a: nat)
    requires Wired(w) && OnlyAtZero(w, x) && HasAddress(w, x, 0) && a != 0
    ensures var w' := Assign(w, a);
      && w'.Keys == w.Keys && Wired(w') && Quiet(w') && HasAddress(w', x, a)
      && forall y :: y in w ==> w'[y] == if y == x then w[y].(addr := Some(a)) else w[y]
  {
    var w' := Assign(w, a);
    forall y | y in w
      ensures y in w' && w'[y] == if y == x then w[y].(addr := Some(a)) else w[y]
    {
      assert HasAddress(w, y, 0) ==> y == x;
    }
    hide Assign;
    StaysWired(w, w');
    hide Wired;
  }

  /** Addresses do not matter for where things are. */
  lemma StaysWired(w: Wiring, w': Wiring)
    requires Wired(w) && w'.Keys == w.Keys
    requires forall y :: y in w ==> w'[y].up == w[y].up && w'[y].port == w[y].port && w'[y].isHub == w[y].isHub
    ensures Wired(w')
  {
    forall y | y in w'
      ensures Seated(w', y)
    {
      assert Seated(w, y);
    }
    forall y, z | y in w' && z in w' && OnPort(w'[y], w'[z].up, w'[z].port)
      ensures y == z
    {
      assert OnPort(w[y], w[z].up, w[z].port);
    }
  }

  // ---- what the host does to its table ----

  lemma {:induction false} NotDownstream(w: Wiring, t: Table, up: Option<nat>, hub: nat, port: nat,
                                         x: nat, a: nat, n: nat)
    requires InStep(w, t) && t[0] == 0 && Vacant(w, up, port)
    requires up.None? ==> hub == 0
    requires up.Some? ==> hub != 0 && HasAddress(w, up.value, hub)
    requires a != 0 && HasAddress(w, x, a)
    ensures !Leads(t, hub, port, a, n)
    decreases n
  {
    hide Forest, RootPortOne;
    if Leads(t, hub, port, a, n) {
      assert Heard(w, x) && Seated(w, x);
      var h := UpAddr(w, x).value;
      assert At(t, a, h, w[x].port);
      if n == 0 {
        if up.Some? {
          SameAddressSameDevice(w, t, w[x].up.value, up.value, hub);
        }
      } else if h != 0 {
        NotDownstream(w, t, up, hub, port, w[x].up.value, h, n - 1);
      }
    }
  }

  /** Nothing with an address is on that port. */
  ghost predicate Vacant(w: Wiring, up: Option<nat>, port: nat) {
    forall x :: x in w && OnPort(w[x], up, port) ==> w[x].addr.None? || w[x].addr == Some(0)
  }

  /** Forgetting everything below a port takes no address from a device still attached. */
  lemma DisconnectKeeps(w: Wiring, t: Table, up: Option<nat>, hub: nat, port: nat)
    requires InStep(w, t) && Vacant(w, up, port)
    requires up.None? ==> hub == 0
    requires up.Some? ==> hub != 0 && HasAddress(w, up.value, hub)
    ensures InStep(w, Disconnected(t, hub, port))
  {
    RemoveKeepsForest(t, hub, port);
    var t' := Disconnected(t, hub, port);
    forall x, a: nat | HasAddress(w, x, a) && a != 0
      ensures UpAddr(w, x).Some? && At(t', a, UpAddr(w, x).value, w[x].port)
    {
      forall n: nat
        ensures !Leads(t, hub, port, a, n)
      {
        NotDownstream(w, t, up, hub, port, x, a, n);
      }
      assert a !in Downstream(t, hub, port);
    }
  }

  /** Giving the device on a live port an address disturbs nobody else's. */
  lemma ConnectKeeps(w: Wiring, t: Table, t': Table, up: Option<nat>, hub: nat, port: nat, isHub: bool,
                     r: Option<nat>)
    requires InStep(w, t) && port >= 1 && Connects(t, t', hub, port, isHub, r)
    requires up.None? ==> hub == 0 && port == 1
    requires up.Some? ==> hub != 0 && HasAddress(w, up.value, hub)
    ensures InStep(w, t')
    ensures r.Some? ==> r.value != 0 && At(t', r.value, hub, port)
    ensures up.None? ==> r.Some?
  {
    if up.Some? {
      assert Present(t, hub);
    } else {
      RootConnectSucceeds(t, t', isHub, r);
    }
    ConnectKeepsForest(t, t', hub, port, isHub, r);
    ConnectAnswers(t, t', hub, port, isHub, r);
    forall x, a: nat | HasAddress(w, x, a) && a != 0
      ensures UpAddr(w, x).Some? && At(t', a, UpAddr(w, x).value, w[x].port)
    {
      assert At(t, a, UpAddr(w, x).value, w[x].port);
    }
  }

  /** Why the history must be clean. With one device left on address 0, the next port reset
    * puts two there if and only if it enables its port and is not one that takes the first
    * device off again.
    */
  lemma LeftoverCollides(w: Wiring, x: nat, y: nat, enabled: bool)
    requires x in w && OnlyAtZero(w, y) && HasAddress(w, y, 0)
    ensures |Listeners(Reset(w, x, enabled), 0)| >= 2 <==> enabled && y != x && !Beneath(w, y, x)
  {
    var all := Listeners(Reset(w, x, enabled), 0);
    forall z
      ensures z in all <==> (z == x && enabled) || (z == y && y != x && !Beneath(w, y, x))
    {
      ResetListens(w, x, z, enabled);
    }
    hide Reset, Listeners, OnlyAtZero;
    if y != x && !Beneath(w, y, x) {
      assert all == if enabled then {x, y} else {y};
    } else {
      assert all == if enabled then {x} else {};
    }
  }

  lemma ResetListens(w: Wiring, x: nat, z: nat, enabled: bool)
    requires x in w
    ensures z in Listeners(Reset(w, x, enabled), 0) <==>
      (z == x && enabled) || (z != x && HasAddress(w, z, 0) && !Beneath(w, z, x))
  {
  }
}
