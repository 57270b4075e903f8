/** The packed table of which device hangs off which hub port, and its two updates. */
module Topologies {
  import opened Machine
  import opened BitSets

  const MAX_DEVICES: nat := 32
  const MAX_PORTS: nat := 16
  const MAX_HUBS: nat := 16

  /** Entry `i` holds the hub (low nibble) and port (high nibble) of device `i`, or 0. */
  type Table = t: seq<u8> | |t| == MAX_DEVICES witness seq(MAX_DEVICES, _ => 0)

  function Entry(hub: nat, port: nat): u8
    requires hub < MAX_HUBS && port < MAX_PORTS
  {
    port * 16 + hub
  }

  function HubOf(entry: u8): nat {
    entry % 16
  }

  function PortOf(entry: u8): nat {
    entry / 16
  }

  predicate Present(t: Table, device: nat) {
    device < MAX_DEVICES && t[device] > 0
  }

  predicate At(t: Table, i: nat, hub: nat, port: nat) {
    Present(t, i) && HubOf(t[i]) == hub && PortOf(t[i]) == port
  }

  // ---- what a disconnection takes away ----

  /** Following `n` parent links up from device `i` arrives at something on that port. */
  ghost predicate Leads(t: Table, hub: nat, port: nat, i: nat, n: nat)
    decreases n
  {
    && Present(t, i)
    && if n == 0 then At(t, i, hub, port) else Leads(t, hub, port, HubOf(t[i]), n - 1)
  }

  ghost predicate Below(t: Table, hub: nat, port: nat, i: nat) {
    exists n: nat :: Leads(t, hub, port, i, n)
  }

  /** The device on that port and everything below it. */
  ghost function Downstream(t: Table, hub: nat, port: nat): set<nat> {
    set i: nat | i < MAX_DEVICES && Below(t, hub, port, i)
  }

  /** A set that holds the device on that port, and every child of each of its members. */
  ghost predicate Closed(t: Table, hub: nat, port: nat, s: set<nat>) {
    forall i: nat :: Present(t, i) && (At(t, i, hub, port) || HubOf(t[i]) in s) ==> i in s
  }

  function Cleared(t: Table, s: set<nat>): Table {
    seq(MAX_DEVICES, i requires 0 <= i < MAX_DEVICES => if i in s then 0 else t[i])
  }

  lemma {:induction false} LeadsInside(t: Table, hub: nat, port: nat, i: nat, n: nat, s: set<nat>)
    requires Leads(t, hub, port, i, n) && Closed(t, hub, port, s)
    ensures i in s
    decreases n
  {
    if n > 0 {
      LeadsInside(t, hub, port, HubOf(t[i]), n - 1, s);
    }
  }

  /** `Downstream` is the least closed set, whatever the table: cycles and orphans included. */
  lemma DownstreamLeast(t: Table, hub: nat, port: nat)
    ensures Closed(t, hub, port, Downstream(t, hub, port))
    ensures forall s :: Closed(t, hub, port, s) ==> Downstream(t, hub, port) <= s
  {
    var d := Downstream(t, hub, port);
    forall i: nat | Present(t, i) && (At(t, i, hub, port) || HubOf(t[i]) in d)
      ensures i in d
    {
      if At(t, i, hub, port) {
        assert Leads(t, hub, port, i, 0);
      } else {
        var n: nat :| Leads(t, hub, port, HubOf(t[i]), n);
        assert Leads(t, hub, port, i, n + 1);
      }
    }
    forall s | Closed(t, hub, port, s)
      ensures d <= s
    {
      forall i | i in d
        ensures i in s
      {
        var n: nat :| Leads(t, hub, port, i, n);
        LeadsInside(t, hub, port, i, n, s);
      }
    }
  }

  // ---- the table as a forest ----

  /** Device `i` is `n` links below the root. */
  ghost predicate Depth(t: Table, i: nat, n: nat)
    decreases n
  {
    && n > 0
    && Present(t, i)
    && if HubOf(t[i]) == 0 then n == 1 else Depth(t, HubOf(t[i]), n - 1)
  }

  ghost predicate Rooted(t: Table, i: nat) {
    exists n: nat :: Depth(t, i, n)
  }

  ghost predicate Distinct(t: Table) {
    forall i: nat, j: nat :: Present(t, i) && Present(t, j) && i != j ==> t[i] != t[j]
  }

  /** Address 0 is nobody's, no two devices share a port, and every device hangs, through
    * devices that are all present, from the root.
    */
  ghost predicate Forest(t: Table) {
    && t[0] == 0
    && Distinct(t)
    && forall i: nat :: Present(t, i) ==> Rooted(t, i)
  }

  /** Every device directly on the root is on its port 1. */
  ghost predicate RootPortOne(t: Table) {
    forall i: nat :: Present(t, i) && HubOf(t[i]) == 0 ==> PortOf(t[i]) == 1
  }

  lemma EmptyForest(t: Table)
    requires forall i: nat :: !Present(t, i)
    ensures Forest(t) && RootPortOne(t)
  {
    assert !Present(t, 0);
  }

  /** Filling a free entry disturbs nobody's path to the root. */
  lemma {:induction false} DepthSurvivesAdd(t: Table, i: nat, n: nat, a: nat, e: u8)
    requires Depth(t, i, n) && a < MAX_DEVICES && !Present(t, a)
    ensures Depth(t[a := e], i, n)
    decreases n
  {
    if HubOf(t[i]) != 0 {
      DepthSurvivesAdd(t, HubOf(t[i]), n - 1, a, e);
    }
  }

  /** A new device on an unused port, under the root or a device that is present, keeps the forest. */
  lemma AddKeepsForest(t: Table, a: nat, hub: nat, port: nat)
    requires Forest(t) && 0 < a < MAX_DEVICES && !Present(t, a)
    requires hub < MAX_HUBS && port < MAX_PORTS && Entry(hub, port) !in t
    requires hub == 0 || Present(t, hub)
    ensures Forest(t[a := Entry(hub, port)])
  {
    var t' := t[a := Entry(hub, port)];
    forall i: nat | Present(t', i)
      ensures Rooted(t', i)
    {
      if i == a {
        if hub == 0 {
          assert Depth(t', a, 1);
        } else {
          var n: nat :| Depth(t, hub, n);
          DepthSurvivesAdd(t, hub, n, a, Entry(hub, port));
          assert Depth(t', a, n + 1);
        }
      } else {
        assert Rooted(t, i);
        var n: nat :| Depth(t, i, n);
        DepthSurvivesAdd(t, i, n, a, Entry(hub, port));
      }
    }
  }

  lemma {:induction false} NoDepthThrough(t: Table, i: nat, n: nat, hub: nat)
    requires Present(t, i) && HubOf(t[i]) == hub != 0 && (!Present(t, hub) || hub == i)
    ensures !Depth(t, i, n)
    decreases n
  {
    if hub == i && n > 0 {
      NoDepthThrough(t, i, n - 1, hub);
    }
  }

  /** Under an absent hub, or as its own parent, the new device has no path to the root. */
  lemma OrphanBreaksForest(t: Table, a: nat, hub: nat, port: nat)
    requires Forest(t) && 0 < a < MAX_DEVICES && !Present(t, a)
    requires 0 < hub < MAX_HUBS && port < MAX_PORTS && !Present(t, hub)
    ensures !Forest(t[a := Entry(hub, port)])
  {
    var t' := t[a := Entry(hub, port)];
    forall n: nat
      ensures !Depth(t', a, n)
    {
      NoDepthThrough(t', a, n, hub);
    }
    assert Present(t', a) && !Rooted(t', a);
  }

  /** Whoever is not downstream keeps its whole path to the root. */
  lemma {:induction false} DepthSurvivesRemove(t: Table, i: nat, n: nat, hub: nat, port: nat)
    requires Depth(t, i, n) && i !in Downstream(t, hub, port)
    ensures Depth(Cleared(t, Downstream(t, hub, port)), i, n)
    decreases n
  {
    DownstreamLeast(t, hub, port);
    if HubOf(t[i]) != 0 {
      DepthSurvivesRemove(t, HubOf(t[i]), n - 1, hub, port);
    }
  }

  lemma RemoveKeepsForest(t: Table, hub: nat, port: nat)
    requires Forest(t)
    ensures Forest(Cleared(t, Downstream(t, hub, port)))
    ensures 0 !in Downstream(t, hub, port)
    ensures RootPortOne(t) ==> RootPortOne(Cleared(t, Downstream(t, hub, port)))
  {
    var s := Downstream(t, hub, port);
    var t' := Cleared(t, s);
    forall n: nat
      ensures !Leads(t, hub, port, 0, n)
    {
      assert !Present(t, 0);
    }
    forall i: nat | Present(t', i)
      ensures Rooted(t', i)
    {
      assert Rooted(t, i);
      var n: nat :| Depth(t, i, n);
      DepthSurvivesRemove(t, i, n, hub, port);
    }
    forall i: nat, j: nat | Present(t', i) && Present(t', j) && i != j
      ensures t'[i] != t'[j]
    {
      assert Present(t, i) && Present(t, j);
    }
  }

  lemma {:induction false} DepthLeadsToRoot(t: Table, i: nat, n: nat)
    requires Depth(t, i, n) && RootPortOne(t)
    ensures Leads(t, 0, 1, i, n - 1)
    decreases n
  {
    if HubOf(t[i]) != 0 {
      DepthLeadsToRoot(t, HubOf(t[i]), n - 1);
    }
  }

  /** With only root port 1 in use, unplugging it empties the table. */
  lemma RootDisconnectEmpties(t: Table)
    requires Forest(t) && RootPortOne(t)
    ensures forall i: nat :: !Present(Cleared(t, Downstream(t, 0, 1)), i)
  {
    forall i: nat | Present(t, i)
      ensures i in Downstream(t, 0, 1)
    {
      assert Rooted(t, i);
      var n: nat :| Depth(t, i, n);
      DepthLeadsToRoot(t, i, n);
    }
  }

  /** With only root port 1 in use, an unoccupied root means an empty table. */
  lemma NoRootNoDevices(t: Table)
    requires Forest(t) && RootPortOne(t) && Entry(0, 1) !in t
    ensures forall i: nat :: !Present(t, i)
  {
    forall i: nat | Present(t, i)
      ensures false
    {
      assert Rooted(t, i);
      var n: nat :| Depth(t, i, n);
      DepthLeadsToRoot(t, i, n);
      LeadsFromPort(t, 0, 1, i, n - 1);
    }
  }

  lemma {:induction false} LeadsFromPort(t: Table, hub: nat, port: nat, i: nat, n: nat)
    requires Leads(t, hub, port, i, n)
    ensures exists j: nat :: At(t, j, hub, port)
    decreases n
  {
    if n > 0 {
      LeadsFromPort(t, hub, port, HubOf(t[i]), n - 1);
    } else {
      assert At(t, i, hub, port);
    }
  }

  // ---- device_connect ----

  /** The address a new device gets: hubs the least free one below 16, others the greatest. */
  ghost predicate Chosen(t: Table, isHub: bool, a: nat) {
    if isHub then
      0 < a < MAX_HUBS && !Present(t, a) && forall i: nat :: 0 < i < a ==> Present(t, i)
    else
      0 < a < MAX_DEVICES && !Present(t, a) && forall i: nat :: a < i < MAX_DEVICES ==> Present(t, i)
  }

  ghost predicate Exhausted(t: Table, isHub: bool) {
    forall i: nat :: 0 < i < (if isHub then MAX_HUBS else MAX_DEVICES) ==> Present(t, i)
  }

  /** What `device_connect` may do to the table, and the answer it gives. */
  ghost predicate Connects(t: Table, t': Table, hub: nat, port: nat, isHub: bool, r: Option<nat>) {
    if hub >= MAX_HUBS || port >= MAX_PORTS then
      t' == t && r == None
    else if Entry(hub, port) in t then
      && t' == t && r.Some? && r.value < MAX_DEVICES && t[r.value] == Entry(hub, port)
      && forall i :: 0 <= i < r.value ==> t[i] != Entry(hub, port)
    else if r.None? then
      t' == t && Exhausted(t, isHub)
    else
      Chosen(t, isHub, r.value) && t' == t[r.value := Entry(hub, port)]
  }

  /** The first place from `i` on where the table has that entry. */
  ghost function FirstAt(t: Table, entry: u8, i: nat): (r: Option<nat>)
    requires i <= MAX_DEVICES
    ensures r.None? ==> forall k: nat :: i <= k < MAX_DEVICES ==> t[k] != entry
    ensures r.Some? ==> i <= r.value < MAX_DEVICES && t[r.value] == entry
                        && forall k: nat :: i <= k < r.value ==> t[k] != entry
    decreases MAX_DEVICES - i
  {
    if i == MAX_DEVICES then None else if t[i] == entry then Some(i) else FirstAt(t, entry, i + 1)
  }

  /** The least free address from `i` on that is below `limit`. */
  ghost function LowestFree(t: Table, i: nat, limit: nat): (r: Option<nat>)
    requires i <= limit <= MAX_DEVICES
    ensures r.None? ==> forall k: nat :: i <= k < limit ==> Present(t, k)
    ensures r.Some? ==> i <= r.value < limit && !Present(t, r.value)
                        && forall k: nat :: i <= k < r.value ==> Present(t, k)
    decreases limit - i
  {
    if i == limit then None else if !Present(t, i) then Some(i) else LowestFree(t, i + 1, limit)
  }

  /** The greatest free address below `i`, 0 excepted. */
  ghost function HighestFree(t: Table, i: nat): (r: Option<nat>)
    requires 0 < i <= MAX_DEVICES
    ensures r.None? ==> forall k: nat :: 0 < k < i ==> Present(t, k)
    ensures r.Some? ==> 0 < r.value < i && !Present(t, r.value)
                        && forall k: nat :: r.value < k < i ==> Present(t, k)
  {
    if i == 1 then None else if !Present(t, i - 1) then Some(i - 1) else HighestFree(t, i - 1)
  }

  /** The table after a connection, and its answer. */
  ghost function Connection(t: Table, hub: nat, port: nat, isHub: bool): (Table, Option<nat>) {
    if hub >= MAX_HUBS || port >= MAX_PORTS then (t, None)
    else
      var known := FirstAt(t, Entry(hub, port), 0);
      if known.Some? then (t, known)
      else
        match if isHub then LowestFree(t, 1, MAX_HUBS) else HighestFree(t, MAX_DEVICES)
        case None => (t, None)
        case Some(a) => (t[a := Entry(hub, port)], Some(a))
  }

  /** There is one thing a connection may do, and it does it. */
  lemma ConnectionIs(t: Table, t': Table, hub: nat, port: nat, isHub: bool, r: Option<nat>)
    ensures Connects(t, t', hub, port, isHub, r) <==> (t', r) == Connection(t, hub, port, isHub)
  {
    if hub < MAX_HUBS && port < MAX_PORTS {
      var known := FirstAt(t, Entry(hub, port), 0);
      assert known.Some? <==> Entry(hub, port) in t;
    }
  }

  /** On a forest, a connection is answered with 0 exactly for the location (0, 0); any
    * other address it answers is then in the table at that location, and a fresh one is
    * an address nobody had.
    */
  lemma ConnectAnswers(t: Table, t': Table, hub: nat, port: nat, isHub: bool, r: Option<nat>)
    requires Forest(t) && Connects(t, t', hub, port, isHub, r)
    ensures r == Some(0) <==> hub == 0 && port == 0
    ensures r.Some? && r.value != 0 ==> At(t', r.value, hub, port)
    ensures r.Some? && t' != t ==> !Present(t, r.value)
  {
    if hub < MAX_HUBS && port < MAX_PORTS && r.Some? && Entry(hub, port) in t && r.value != 0 {
      assert t[0] != Entry(hub, port);
    }
  }

  /** A connection keeps the forest exactly when it adds nothing, because the location is
    * impossible or occupied or no address is free, or its parent is there.
    */
  lemma ConnectKeepsForest(t: Table, t': Table, hub: nat, port: nat, isHub: bool, r: Option<nat>)
    requires Forest(t) && Connects(t, t', hub, port, isHub, r)
    ensures Forest(t') <==>
      || hub >= MAX_HUBS || port >= MAX_PORTS || Entry(hub, port) in t || Exhausted(t, isHub)
      || hub == 0 || Present(t, hub)
    ensures RootPortOne(t) && (hub != 0 || port == 1) ==> RootPortOne(t')
  {
    if t' != t {
      if hub == 0 || Present(t, hub) {
        AddKeepsForest(t, r.value, hub, port);
      } else {
        OrphanBreaksForest(t, r.value, hub, port);
      }
    }
  }

  /** "Root connect should always succeed". */
  lemma RootConnectSucceeds(t: Table, t': Table, isHub: bool, r: Option<nat>)
    requires Forest(t) && RootPortOne(t) && Connects(t, t', 0, 1, isHub, r)
    ensures r.Some? && r.value != 0
  {
    ConnectAnswers(t, t', 0, 1, isHub, r);
    if Entry(0, 1) !in t {
      NoRootNoDevices(t);
      assert !Present(t, 1);
    }
  }

  /** Hubs can always be named as parents, and devices leave them room while there is any. */
  lemma RoomForHubs(t: Table, t': Table, hub: nat, port: nat, isHub: bool, r: Option<nat>)
    requires Connects(t, t', hub, port, isHub, r) && r.Some? && t'[r.value] != t[r.value]
    ensures isHub ==> 1 <= r.value <= 15
    ensures !isHub && r.value <= 15 ==> forall i: nat :: 16 <= i <= 31 ==> Present(t, i)
    ensures HubOf(t'[r.value]) == hub && PortOf(t'[r.value]) == port
  {
  }

  // ---- whole runs ----

  datatype Change = Attach(hub: nat, port: nat, isHub: bool) | Detach(hub: nat, port: nat)

  ghost predicate Changes(t: Table, change: Change, t': Table) {
    match change
    case Attach(hub, port, isHub) =>
      && (hub == 0 || Present(t, hub))
      && exists r: Option<nat> :: Connects(t, t', hub, port, isHub, r)
    case Detach(hub, port) => t' == Disconnected(t, hub, port)
  }

  ghost function Disconnected(t: Table, hub: nat, port: nat): Table {
    if hub >= MAX_HUBS || port >= MAX_PORTS then t else Cleared(t, Downstream(t, hub, port))
  }

  ghost predicate UsesRootPortOne(change: Change) {
    change.Attach? && change.hub == 0 ==> change.port == 1
  }

  ghost predicate TableRun(tables: seq<Table>, changes: seq<Change>) {
    && |tables| == |changes| + 1
    && (forall i: nat :: !Present(tables[0], i))
    && forall k :: 0 <= k < |changes| ==> Changes(tables[k], changes[k], tables[k + 1])
  }

  /** Over every run of connections under present parents and of disconnections, the
    * table stays a forest; and if only root port 1 is ever used it stays so that the
    * root can always connect and its disconnection leaves nothing.
    */
  lemma {:induction false} RunKeepsForest(tables: seq<Table>, changes: seq<Change>, k: nat)
    requires TableRun(tables, changes) && k < |tables|
    ensures Forest(tables[k])
    ensures (forall j :: 0 <= j < |changes| ==> UsesRootPortOne(changes[j])) ==>
      && RootPortOne(tables[k])
      && (forall i: nat :: !Present(Disconnected(tables[k], 0, 1), i))
      && forall t': Table, isHub: bool, r: Option<nat> ::
           Connects(tables[k], t', 0, 1, isHub, r) ==> r.Some? && r.value != 0
  {
    var t := tables[k];
    if k == 0 {
      EmptyForest(t);
    } else {
      RunKeepsForest(tables, changes, k - 1);
      var before, change := tables[k - 1], changes[k - 1];
      assert Changes(before, change, t);
      match change
      case Attach(hub, port, isHub) =>
        var r: Option<nat> :| Connects(before, t, hub, port, isHub, r);
        ConnectKeepsForest(before, t, hub, port, isHub, r);
      case Detach(hub, port) =>
        RemoveKeepsForest(before, hub, port);
    }
    if RootPortOne(t) {
      RootDisconnectEmpties(t);
      forall t': Table, isHub: bool, r: Option<nat> | Connects(t, t', 0, 1, isHub, r)
        ensures r.Some? && r.value != 0
      {
        RootConnectSucceeds(t, t', isHub, r);
      }
    }
  }

  // ---- device_disconnect ----

  /** Part way through: the set found so far is right as far as it goes, and cleared. */
  ghost predicate Swept(t: Table, now: Table, hub: nat, port: nat, s: set<nat>) {
    s <= Downstream(t, hub, port) && now == Cleared(t, s)
  }

  /** The entries below `limit` have nothing to add to `s`. */
  ghost predicate Settled(t: Table, hub: nat, port: nat, s: set<nat>, limit: nat) {
    forall i: nat ::
      i < limit && Present(t, i) && (At(t, i, hub, port) || HubOf(t[i]) in s) ==> i in s
  }

  /** A pass that found nothing new has found everything. */
  lemma SettledIsDownstream(t: Table, now: Table, hub: nat, port: nat, s: set<nat>)
    requires Swept(t, now, hub, port, s) && Settled(t, hub, port, s, MAX_DEVICES)
    ensures s == Downstream(t, hub, port) && now == Cleared(t, s)
  {
    DownstreamLeast(t, hub, port);
    assert Closed(t, hub, port, s);
  }

  lemma {:induction false} SizeBelow(s: set<nat>, k: nat)
    requires forall n :: n in s ==> n < k
    ensures |s| <= k
  {
    if k == 0 {
      assert s == {};
    } else {
      SizeBelow(s - {k - 1}, k - 1);
    }
  }

  lemma {:induction false} SubsetSize<X>(a: set<X>, b: set<X>)
    requires a <= b
    ensures |a| <= |b|
    ensures a != b ==> |a| < |b|
  {
    assert b == a + (b - a);
    assert a != b ==> b - a != {};
  }

  class Topology {
    const parent: array<u8>

    ghost predicate Valid() {
      parent.Length == MAX_DEVICES
    }

    ghost function T(): Table
      requires Valid()
      reads parent
    {
      parent[..]
    }

    constructor ()
      ensures Valid() && fresh(parent)
      ensures forall i: nat :: !Present(T(), i)
    {
      parent := new u8[MAX_DEVICES](_ => 0);
    }

    predicate IsPresent(device: nat)
      requires Valid()
      reads parent
      ensures IsPresent(device) <==> Present(T(), device)
    {
      device < parent.Length && parent[device] > 0
    }

    method DeviceConnect(hub: nat, port: nat, isHub: bool) returns (r: Option<nat>)
      requires Valid()
      modifies parent
      ensures Connects(old(T()), T(), hub, port, isHub, r)
    {
      if hub >= MAX_HUBS || port >= MAX_PORTS {
        return None;
      }
      var entry := Entry(hub, port);
      for i := 0 to MAX_DEVICES
        invariant forall k :: 0 <= k < i ==> parent[k] != entry
      {
        if parent[i] == entry {
          assert T()[i] == entry;
          return Some(i);
        }
      }
      if isHub {
        for i := 1 to MAX_HUBS
          invariant forall k: nat :: 0 < k < i ==> Present(T(), k)
        {
          if !IsPresent(i) {
            parent[i] := entry;
            return Some(i);
          }
        }
      } else {
        for i := MAX_DEVICES downto 1
          invariant forall k: nat :: i <= k < MAX_DEVICES ==> Present(T(), k)
        {
          if !IsPresent(i) {
            parent[i] := entry;
            return Some(i);
          }
        }
      }
      return None;
    }

    /** The body of the inner loop: entry `i` joins the set, and is zeroed, if it must. */
    method Visit(bitset: BitSet, hub: nat, port: nat, i: nat, ghost t: Table)
      requires Valid() && i < MAX_DEVICES
      requires Swept(t, T(), hub, port, Members(bitset.bits))
      modifies parent, bitset
      ensures Swept(t, T(), hub, port, Members(bitset.bits))
      ensures old(Members(bitset.bits)) <= Members(bitset.bits)
      ensures Members(bitset.bits) == old(Members(bitset.bits)) ==>
        (Present(t, i) && (At(t, i, hub, port) || HubOf(t[i]) in Members(bitset.bits)) ==>
           i in Members(bitset.bits))
    {
      DownstreamLeast(t, hub, port);
      var entry := parent[i];
      if entry != 0 {
        ghost var s := Members(bitset.bits);
        if HubOf(entry) == hub && PortOf(entry) == port {
          bitset.Set(i);
          parent[i] := 0;
        }
        if bitset.Contains(HubOf(entry)) {
          bitset.Set(i);
          parent[i] := 0;
        }
        assert Members(bitset.bits) == s || Members(bitset.bits) == s + {i};
        assert T() == Cleared(t, Members(bitset.bits));
      }
    }

    /** Whatever the table holds, the answer is the device on that port with everything
      * downstream of it, exactly those entries are zeroed, and 33 passes are enough.
      */
    method DeviceDisconnect(hub: nat, port: nat) returns (r: Word, ghost passes: nat)
      requires Valid()
      modifies parent
      ensures T() == Disconnected(old(T()), hub, port)
      ensures Members(r) ==
        if hub >= MAX_HUBS || port >= MAX_PORTS then {} else Downstream(old(T()), hub, port)
      ensures passes <= 33
    {
      passes := 0;
      if hub >= MAX_HUBS || port >= MAX_PORTS {
        return Zero(), 0;
      }
      ghost var t := T();
      var bitset := new BitSet(Zero());
      while true
        invariant fresh(bitset)
        invariant Swept(t, T(), hub, port, Members(bitset.bits))
        invariant passes <= |Members(bitset.bits)| <= MAX_DEVICES
        decreases MAX_DEVICES - |Members(bitset.bits)|
      {
        ghost var before := Members(bitset.bits);
        var oldBits := bitset.bits;
        passes := passes + 1;
        hide Swept;
        for i := 0 to MAX_DEVICES
          invariant Swept(t, T(), hub, port, Members(bitset.bits))
          invariant before <= Members(bitset.bits)
          invariant before == Members(bitset.bits) ==> Settled(t, hub, port, before, i)
        {
          Visit(bitset, hub, port, i, t);
        }
        if oldBits == bitset.bits {
          SettledIsDownstream(t, T(), hub, port, before);
          return bitset.bits, passes;
        }
        if before == Members(bitset.bits) {
          MembersInjective(oldBits, bitset.bits);
        }
        SubsetSize(before, Members(bitset.bits));
        SizeBelow(Members(bitset.bits), 32);
      }
    }
  }
}
