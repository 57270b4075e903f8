/** The walk over a configuration-descriptor sequence, the visitor that collects one
  * configuration's endpoints, and opening those endpoints.
  */
module Descriptors {
  import opened Machine
  import opened BitSets

  const CONFIGURATION_DESCRIPTOR: u8 := 2
  const INTERFACE_DESCRIPTOR: u8 := 4
  const ENDPOINT_DESCRIPTOR: u8 := 5

  /** A callback on the visitor, with the descriptor's bytes. */
  datatype Visit =
    | OnConfiguration(bytes: seq<u8>)
    | OnInterface(bytes: seq<u8>)
    | OnEndpoint(bytes: seq<u8>)
    | OnOther(bytes: seq<u8>)

  /** The callback for one descriptor: the known types only at exactly their own size. */
  function VisitOf(d: seq<u8>): seq<Visit>
    requires |d| >= 2
  {
    if d[1] == CONFIGURATION_DESCRIPTOR then (if |d| == 9 then [OnConfiguration(d)] else [])
    else if d[1] == INTERFACE_DESCRIPTOR then (if |d| == 9 then [OnInterface(d)] else [])
    else if d[1] == ENDPOINT_DESCRIPTOR then (if |d| == 7 then [OnEndpoint(d)] else [])
    else [OnOther(d)]
  }

  /** A descriptor begins with its own length. */
  predicate WellFormed(d: seq<u8>) {
    |d| >= 2 && d[0] == |d|
  }

  ghost predicate AllWellFormed(ds: seq<seq<u8>>) {
    forall i :: 0 <= i < |ds| ==> WellFormed(ds[i])
  }

  ghost function Joined(ds: seq<seq<u8>>): seq<u8> {
    if ds == [] then [] else ds[0] + Joined(ds[1..])
  }

  ghost function VisitsOf(ds: seq<seq<u8>>): seq<Visit>
    requires AllWellFormed(ds)
  {
    if ds == [] then [] else VisitOf(ds[0]) + VisitsOf(ds[1..])
  }

  /** The callbacks the walk makes from position `index` on. */
  ghost function Walk(buf: seq<u8>, index: nat): seq<Visit>
    requires index <= |buf|
    decreases |buf| - index
  {
    if |buf| <= index + 2 then [] else
    var dlen := buf[index];
    if dlen < 2 || |buf| < index + dlen then []
    else VisitOf(buf[index..index + dlen]) + Walk(buf, index + dlen)
  }

  lemma WalkStep(visits: seq<Visit>, buf: seq<u8>, index: nat)
    requires index + 2 < |buf| && buf[index] >= 2 && index + buf[index] <= |buf|
    ensures visits + Walk(buf, index)
         == visits + VisitOf(buf[index..index + buf[index]]) + Walk(buf, index + buf[index])
    ensures Walk(buf, index) == VisitOf(buf[index..index + buf[index]]) + Walk(buf, index + buf[index])
  {
    hide VisitOf;
  }

  lemma WalkStops(visits: seq<Visit>, buf: seq<u8>, index: nat)
    requires index <= |buf|
    requires |buf| <= index + 2 || buf[index] < 2 || |buf| < index + buf[index]
    ensures Walk(buf, index) == [] && visits + Walk(buf, index) == visits
  {
  }

  /** The `match` on a descriptor's type. */
  method CallVisitor(visits: seq<Visit>, d: seq<u8>) returns (visits': seq<Visit>)
    requires |d| >= 2
    ensures visits' == visits + VisitOf(d)
  {
    visits' := visits;
    if d[1] == CONFIGURATION_DESCRIPTOR {
      if |d| == 9 {
        visits' := visits + [OnConfiguration(d)];
      }
    } else if d[1] == INTERFACE_DESCRIPTOR {
      if |d| == 9 {
        visits' := visits + [OnInterface(d)];
      }
    } else if d[1] == ENDPOINT_DESCRIPTOR {
      if |d| == 7 {
        visits' := visits + [OnEndpoint(d)];
      }
    } else {
      visits' := visits + [OnOther(d)];
    }
  }

  /** Any bytes at all: the walk stays in bounds and ends. */
  method ParseDescriptors(buf: seq<u8>) returns (visits: seq<Visit>)
    ensures visits == Walk(buf, 0)
  {
    hide Walk, VisitOf;
    visits := [];
    var index := 0;
    while |buf| > index + 2
      invariant 0 <= index <= |buf|
      invariant visits + Walk(buf, index) == Walk(buf, 0)
      decreases |buf| - index
    {
      var dlen := buf[index];
      if dlen < 2 || |buf| < index + dlen {
        WalkStops(visits, buf, index);
        return;
      }
      WalkStep(visits, buf, index);
      visits := CallVisitor(visits, buf[index..index + dlen]);
      index := index + dlen;
    }
    WalkStops(visits, buf, index);
  }

  /** The descriptors the loop's guard lets it reach: it stops short of a final one that is
    * no more than its two-byte header.
    */
  ghost function Reached(ds: seq<seq<u8>>): seq<seq<u8>> {
    if ds != [] && |ds[|ds| - 1]| == 2 then ds[..|ds| - 1] else ds
  }

  /** The walk visits every descriptor it reaches, once, in order. */
  lemma {:induction false} WalkVisitsAll(before: seq<u8>, ds: seq<seq<u8>>)
    requires AllWellFormed(ds)
    ensures Walk(before + Joined(ds), |before|) == VisitsOf(Reached(ds))
    decreases |ds|
  {
    hide VisitOf, Walk;
    var buf := before + Joined(ds);
    if ds == [] {
      WalkStops([], buf, |before|);
    } else {
      var d, rest := ds[0], ds[1..];
      JoinedSize(rest);
      assert buf == (before + d) + Joined(rest);
      if rest == [] && |d| == 2 {
        WalkStops([], buf, |before|);
        assert Reached(ds) == [];
      } else {
        assert buf[|before|] == d[0] && buf[|before|..|before| + |d|] == d;
        WalkStep([], buf, |before|);
        WalkVisitsAll(before + d, rest);
        ReachedCons(d, rest);
        assert ds == [d] + rest;
      }
    }
  }

  lemma ReachedCons(d: seq<u8>, rest: seq<seq<u8>>)
    requires AllWellFormed(rest) && WellFormed(d) && (rest != [] || |d| != 2)
    ensures AllWellFormed([d] + rest) && AllWellFormed(Reached(rest))
    ensures VisitsOf(Reached([d] + rest)) == VisitOf(d) + VisitsOf(Reached(rest))
  {
    hide VisitOf;
    var ds := [d] + rest;
    assert Reached(ds) == [d] + Reached(rest);
    assert ([d] + Reached(rest))[1..] == Reached(rest);
  }

  lemma {:induction false} JoinedSize(ds: seq<seq<u8>>)
    requires AllWellFormed(ds)
    ensures |Joined(ds)| >= 2 * |ds|
  {
    if ds != [] {
      JoinedSize(ds[1..]);
    }
  }

  /** Every descriptor is visited exactly when the last is longer than its two-byte header or
    * there are none.
    */
  lemma ParseComplete(ds: seq<seq<u8>>)
    requires AllWellFormed(ds)
    ensures Walk(Joined(ds), 0) == VisitsOf(ds) <==>
      ds == [] || |ds[|ds| - 1]| >= 3 || VisitOf(ds[|ds| - 1]) == []
  {
    WalkVisitsAll([], ds);
    assert [] + Joined(ds) == Joined(ds);
    hide Walk, Joined;
    if ds != [] && |ds[|ds| - 1]| == 2 {
      var init, last := ds[..|ds| - 1], ds[|ds| - 1];
      assert init + [last] == ds;
      VisitsSnoc(init, last);
      hide VisitsOf, VisitOf;
      assert |VisitsOf(ds)| == |VisitsOf(init)| + |VisitOf(last)|;
      if VisitOf(last) == [] {
        assert VisitsOf(ds) == VisitsOf(init);
      }
    }
  }

  lemma {:induction false} VisitsSnoc(ds: seq<seq<u8>>, d: seq<u8>)
    requires AllWellFormed(ds) && WellFormed(d)
    ensures AllWellFormed(ds + [d])
    ensures VisitsOf(ds + [d]) == VisitsOf(ds) + VisitOf(d)
  {
    hide VisitOf;
    if ds == [] {
      assert (ds + [d])[1..] == [];
    } else {
      assert (ds + [d])[1..] == ds[1..] + [d];
      VisitsSnoc(ds[1..], d);
    }
  }

  // ---- collecting a configuration's endpoints ----

  /** `bEndpointAddress`: bit 7 is the direction, the low four bits the number. */
  function EndpointNumber(e: seq<u8>): nat
    requires |e| == 7
  {
    e[2] % 16
  }

  predicate IsIn(e: seq<u8>)
    requires |e| == 7
  {
    e[2] >= 128
  }

  /** The configuration a visit falls in: that of the nearest configuration visit before it. */
  ghost function Section(visits: seq<Visit>, k: nat): Option<u8>
    requires k <= |visits| && Sized(visits)
  {
    if k == 0 then None
    else if visits[k - 1].OnConfiguration? then Some(visits[k - 1].bytes[5])
    else Section(visits, k - 1)
  }

  predicate SizedOne(v: Visit) {
    (v.OnConfiguration? ==> |v.bytes| == 9) && (v.OnEndpoint? ==> |v.bytes| == 7)
  }

  ghost predicate Sized(visits: seq<Visit>) {
    forall k :: 0 <= k < |visits| ==> SizedOne(visits[k])
  }

  ghost predicate Offers(visits: seq<Visit>, configuration: u8, incoming: bool, n: nat, k: nat)
    requires k < |visits| && Sized(visits)
  {
    && visits[k].OnEndpoint? && Section(visits, k) == Some(configuration)
    && IsIn(visits[k].bytes) == incoming && EndpointNumber(visits[k].bytes) == n
  }

  ghost predicate Offered(visits: seq<Visit>, configuration: u8, incoming: bool, n: nat)
    requires Sized(visits)
  {
    exists k :: 0 <= k < |visits| && Offers(visits, configuration, incoming, n, k)
  }

  /** The endpoints of the chosen configuration, in one direction. */
  ghost function Endpoints(visits: seq<Visit>, configuration: u8, incoming: bool): set<nat>
    requires Sized(visits)
  {
    set n: nat | n < 32 && Offered(visits, configuration, incoming, n)
  }

  /** One visit more adds its endpoint, if it is one in the chosen section and direction. */
  lemma EndpointsStep(visits: seq<Visit>, v: Visit, configuration: u8, incoming: bool)
    requires Sized(visits) && SizedOne(v)
    ensures Sized(visits + [v])
    ensures Endpoints(visits + [v], configuration, incoming)
         == Endpoints(visits, configuration, incoming)
            + if v.OnEndpoint? && Section(visits, |visits|) == Some(configuration) && IsIn(v.bytes) == incoming
              then {EndpointNumber(v.bytes)} else {}
  {
    var all := visits + [v];
    SectionPrefix(visits, v, |visits|);
    assert Offers(all, configuration, incoming, if v.OnEndpoint? then EndpointNumber(v.bytes) else 0, |visits|)
      <==> v.OnEndpoint? && Section(visits, |visits|) == Some(configuration) && IsIn(v.bytes) == incoming;
    forall n: nat
      ensures Offered(all, configuration, incoming, n) <==>
        Offered(visits, configuration, incoming, n) || Offers(all, configuration, incoming, n, |visits|)
    {
      OfferedStep(visits, v, configuration, incoming, n);
    }
    hide Offered, Section;
  }

  lemma OfferedStep(visits: seq<Visit>, v: Visit, configuration: u8, incoming: bool, n: nat)
    requires Sized(visits) && SizedOne(v) && Sized(visits + [v])
    ensures Offered(visits + [v], configuration, incoming, n) <==>
      Offered(visits, configuration, incoming, n) || Offers(visits + [v], configuration, incoming, n, |visits|)
  {
    var all := visits + [v];
    forall k | 0 <= k < |visits|
      ensures Offers(all, configuration, incoming, n, k) == Offers(visits, configuration, incoming, n, k)
    {
      SectionPrefix(visits, v, k);
    }
    hide Offers;
  }

  lemma {:induction false} SectionPrefix(visits: seq<Visit>, v: Visit, k: nat)
    requires Sized(visits) && Sized(visits + [v]) && k <= |visits|
    ensures Section(visits + [v], k) == Section(visits, k)
  {
    if k > 0 {
      SectionPrefix(visits, v, k - 1);
    }
  }

  lemma SectionStep(visits: seq<Visit>, v: Visit)
    requires Sized(visits) && SizedOne(v)
    ensures Sized(visits + [v])
    ensures Section(visits + [v], |visits| + 1) ==
      if v.OnConfiguration? then Some(v.bytes[5]) else Section(visits, |visits|)
  {
    SectionPrefix(visits, v, |visits|);
  }

  /** A walk makes its callbacks only with descriptors of the right size. */
  lemma {:induction false} WalkSized(buf: seq<u8>, index: nat)
    requires index <= |buf|
    ensures Sized(Walk(buf, index))
    decreases |buf| - index
  {
    if |buf| > index + 2 && buf[index] >= 2 && index + buf[index] <= |buf| {
      WalkSized(buf, index + buf[index]);
    }
  }

  // ---- what a configuration descriptor holds ----

  /** The descriptors as the USB 2.0 specification lays them out (sections 9.6.3, 9.6.5 and
    * 9.6.6), and any other bytes with a length in front.
    */
  datatype Item =
    | Configuration(before: seq<u8>, value: u8, after: seq<u8>)
    | Interface(body: seq<u8>)
    | Endpoint(number: nat, reserved: nat, incoming: bool, after: seq<u8>)
    | Foreign(kind: u8, body: seq<u8>)
  {
    /** Foreign descriptors may be of a known type, if their size is wrong for it. */
    ghost predicate Valid() {
      match this
      case Configuration(before, _, after) => |before| == 3 && |after| == 3
      case Interface(body) => |body| == 7
      case Endpoint(number, reserved, _, after) => number < 16 && reserved < 8 && |after| == 4
      case Foreign(kind, body) =>
        && |body| < 254
        && (kind == 2 || kind == 4 ==> |body| != 7)
        && (kind == 5 ==> |body| != 5)
    }

    ghost function Bytes(): seq<u8>
      requires Valid()
    {
      match this
      case Configuration(before, value, after) => [9, 2] + before + [value] + after
      case Interface(body) => [9, 4] + body
      case Endpoint(number, reserved, incoming, after) =>
        [7, 5, number + 16 * reserved + if incoming then 128 else 0] + after
      case Foreign(kind, body) => [|body| + 2, kind] + body
    }
  }

  ghost predicate AllValid(items: seq<Item>) {
    forall k :: 0 <= k < |items| ==> items[k].Valid()
  }

  ghost function AllBytes(items: seq<Item>): seq<seq<u8>>
    requires AllValid(items)
  {
    seq(|items|, k requires 0 <= k < |items| => items[k].Bytes())
  }

  /** Item `c` is the last configuration among the first `k`, and has this value. */
  ghost predicate ConfiguresAt(items: seq<Item>, value: u8, k: nat, c: nat)
    requires k <= |items|
  {
    && c < k && items[c].Configuration? && items[c].value == value
    && forall m :: c < m < k ==> !items[m].Configuration?
  }

  ghost predicate Configures(items: seq<Item>, value: u8, k: nat)
    requires k <= |items|
  {
    exists c: nat :: ConfiguresAt(items, value, k, c)
  }

  /** One of the configuration's endpoints has this direction and number. */
  ghost predicate Has(items: seq<Item>, value: u8, incoming: bool, n: nat) {
    exists k :: 0 <= k < |items| && items[k].Endpoint? && items[k].incoming == incoming
                && items[k].number == n && Configures(items, value, k)
  }

  /** What the visitor is called with for one item, and what it takes from it. */
  lemma ItemVisit(item: Item)
    requires item.Valid()
    ensures WellFormed(item.Bytes())
    ensures VisitOf(item.Bytes()) ==
      match item
      case Configuration(_, _, _) => [OnConfiguration(item.Bytes())]
      case Interface(_) => [OnInterface(item.Bytes())]
      case Endpoint(_, _, _, _) => [OnEndpoint(item.Bytes())]
      case Foreign(kind, _) => if kind == 2 || kind == 4 || kind == 5 then [] else [OnOther(item.Bytes())]
    ensures item.Configuration? ==> |item.Bytes()| == 9 && item.Bytes()[5] == item.value
    ensures item.Endpoint? ==>
      && |item.Bytes()| == 7
      && EndpointNumber(item.Bytes()) == item.number && IsIn(item.Bytes()) == item.incoming
  {
  }

  lemma ConfiguresPrefix(items: seq<Item>, item: Item, value: u8, k: nat)
    requires k <= |items|
    ensures Configures(items + [item], value, k) == Configures(items, value, k)
  {
    var all := items + [item];
    assert forall m :: 0 <= m < |items| ==> all[m] == items[m];
    assert forall c: nat :: ConfiguresAt(all, value, k, c) == ConfiguresAt(items, value, k, c);
  }

  lemma ConfiguresSnoc(items: seq<Item>, item: Item, value: u8)
    ensures Configures(items + [item], value, |items| + 1) <==>
      if item.Configuration? then item.value == value else Configures(items, value, |items|)
  {
    var all := items + [item];
    assert all[|items|] == item;
    if item.Configuration? {
      assert ConfiguresAt(all, item.value, |all|, |items|);
    } else {
      assert forall m :: 0 <= m < |items| ==> all[m] == items[m];
      assert forall c: nat :: ConfiguresAt(all, value, |all|, c) == ConfiguresAt(items, value, |items|, c);
    }
  }

  lemma HasSnoc(items: seq<Item>, item: Item, value: u8, incoming: bool, n: nat)
    ensures Has(items + [item], value, incoming, n) <==>
      || Has(items, value, incoming, n)
      || (item.Endpoint? && item.incoming == incoming && item.number == n && Configures(items, value, |items|))
  {
    forall k: nat | k <= |items|
      ensures Configures(items + [item], value, k) == Configures(items, value, k)
    {
      ConfiguresPrefix(items, item, value, k);
    }
    hide Configures;
    var all := items + [item];
    assert all[|items|] == item;
    if Has(items, value, incoming, n) {
      var k :| 0 <= k < |items| && items[k].Endpoint? && items[k].incoming == incoming
                && items[k].number == n && Configures(items, value, k);
      assert all[k] == items[k];
    }
  }

  /** The visits to a sequence of items are in the section, and offer the endpoints, that the
    * items themselves say.
    */
  ghost predicate Agree(items: seq<Item>, visits: seq<Visit>) {
    && Sized(visits)
    && (forall value: u8 ::
         Section(visits, |visits|) == Some(value) <==> Configures(items, value, |items|))
    && (forall value: u8, incoming: bool, n: nat ::
         n in Endpoints(visits, value, incoming) <==> Has(items, value, incoming, n))
  }

  lemma {:induction false} ItemsAgree(items: seq<Item>)
    requires AllValid(items)
    ensures AllWellFormed(AllBytes(items)) && Agree(items, VisitsOf(AllBytes(items)))
  {
    if items != [] {
      var init, last := items[..|items| - 1], items[|items| - 1];
      assert items == init + [last];
      ItemsAgree(init);
      ItemVisit(last);
      hide VisitOf, VisitsOf, Agree;
      assert AllBytes(items) == AllBytes(init) + [last.Bytes()];
      VisitsSnoc(AllBytes(init), last.Bytes());
      AgreeStep(init, last, VisitsOf(AllBytes(init)));
    }
  }

  lemma AgreeStep(items: seq<Item>, item: Item, visits: seq<Visit>)
    requires item.Valid() && Agree(items, visits)
    ensures Agree(items + [item], visits + VisitOf(item.Bytes()))
  {
    ItemVisit(item);
    hide VisitOf;
    if item.Foreign? && (item.kind == 2 || item.kind == 4 || item.kind == 5) {
      assert visits + [] == visits;
      AgreeSkip(items, item, visits);
    } else {
      AgreeVisit(items, item, visits, VisitOf(item.Bytes())[0]);
    }
  }

  lemma AgreeSkip(items: seq<Item>, item: Item, visits: seq<Visit>)
    requires item.Foreign? && Agree(items, visits)
    ensures Agree(items + [item], visits)
  {
    hide Section, Endpoints, Has, Configures;
    forall value: u8
      ensures Configures(items + [item], value, |items| + 1) == Configures(items, value, |items|)
    {
      ConfiguresSnoc(items, item, value);
    }
    forall value: u8, incoming: bool, n: nat
      ensures Has(items + [item], value, incoming, n) == Has(items, value, incoming, n)
    {
      HasSnoc(items, item, value, incoming, n);
    }
  }

  lemma AgreeVisit(items: seq<Item>, item: Item, visits: seq<Visit>, v: Visit)
    requires Agree(items, visits) && SizedOne(v)
    requires item.Configuration? == v.OnConfiguration? && item.Endpoint? == v.OnEndpoint?
    requires v.OnConfiguration? ==> v.bytes[5] == item.value
    requires v.OnEndpoint? ==> EndpointNumber(v.bytes) == item.number && IsIn(v.bytes) == item.incoming
    ensures Agree(items + [item], visits + [v])
  {
    SectionPrefix(visits, v, |visits|);
    hide Endpoints, Has, Configures;
    forall value: u8
      ensures Section(visits + [v], |visits| + 1) == Some(value) <==> Configures(items + [item], value, |items| + 1)
    {
      ConfiguresSnoc(items, item, value);
    }
    forall value: u8, incoming: bool, n: nat
      ensures n in Endpoints(visits + [v], value, incoming) <==> Has(items + [item], value, incoming, n)
    {
      HasSnoc(items, item, value, incoming, n);
      EndpointsStep(visits, v, value, incoming);
    }
  }

  lemma ReachedAgree(items: seq<Item>)
    requires AllValid(items)
    ensures var ds := AllBytes(items);
      AllWellFormed(ds) && AllWellFormed(Reached(ds)) && Agree(items, VisitsOf(Reached(ds)))
  {
    var ds := AllBytes(items);
    ItemsAgree(items);
    hide VisitsOf, Agree;
    if ds != [] && |ds[|ds| - 1]| == 2 {
      var init, last := items[..|items| - 1], items[|items| - 1];
      assert items == init + [last] && last.Foreign?;
      ItemsAgree(init);
      assert Reached(ds) == AllBytes(init);
      AgreeSkip(init, last, VisitsOf(AllBytes(init)));
    }
  }

  /** From the bytes of a device's descriptors to its endpoints: just those that stand between
    * the chosen configuration and the next, whatever else is there.
    */
  lemma ItemsEndpoints(items: seq<Item>, value: u8, incoming: bool)
    requires AllValid(items)
    ensures var visits := Walk(Joined(AllBytes(items)), 0);
      Sized(visits) && forall n: nat :: n in Endpoints(visits, value, incoming) <==> Has(items, value, incoming, n)
  {
    ReachedAgree(items);
    WalkVisitsAll([], AllBytes(items));
    assert [] + Joined(AllBytes(items)) == Joined(AllBytes(items));
    hide Walk, Joined, VisitsOf, Endpoints, Has, Configures, Section;
  }

  class SpecificConfiguration {
    const configurationValue: u8
    var ok: bool
    var inEndpoints: BitSet
    var outEndpoints: BitSet

    constructor (configurationValue: u8)
      ensures this.configurationValue == configurationValue && !ok
      ensures Members(inEndpoints.bits) == {} && Members(outEndpoints.bits) == {}
      ensures fresh(inEndpoints) && fresh(outEndpoints) && inEndpoints != outEndpoints
    {
      this.configurationValue := configurationValue;
      ok := false;
      inEndpoints := new BitSet(Zero());
      outEndpoints := new BitSet(Zero());
    }

    method OnConfiguration(c: seq<u8>)
      requires |c| == 9
      modifies this`ok
      ensures ok == (c[5] == configurationValue)
    {
      ok := c[5] == configurationValue;
    }

    method OnEndpoint(e: seq<u8>)
      requires |e| == 7 && inEndpoints != outEndpoints
      modifies inEndpoints, outEndpoints
      ensures Members(inEndpoints.bits) ==
        old(Members(inEndpoints.bits)) + (if ok && IsIn(e) then {EndpointNumber(e)} else {})
      ensures Members(outEndpoints.bits) ==
        old(Members(outEndpoints.bits)) + (if ok && !IsIn(e) then {EndpointNumber(e)} else {})
    {
      if ok {
        if e[2] >= 128 {
          inEndpoints.Set(e[2] % 16);
        } else {
          outEndpoints.Set(e[2] % 16);
        }
      }
    }

    /** Takes a callback, with the default of doing nothing. */
    method Accept(visit: Visit)
      requires SizedOne(visit) && inEndpoints != outEndpoints
      modifies this`ok, inEndpoints, outEndpoints
      ensures ok == if visit.OnConfiguration? then visit.bytes[5] == configurationValue else old(ok)
      ensures Members(inEndpoints.bits) == old(Members(inEndpoints.bits))
        + if visit.OnEndpoint? && old(ok) && IsIn(visit.bytes) then {EndpointNumber(visit.bytes)} else {}
      ensures Members(outEndpoints.bits) == old(Members(outEndpoints.bits))
        + if visit.OnEndpoint? && old(ok) && !IsIn(visit.bytes) then {EndpointNumber(visit.bytes)} else {}
    {
      match visit {
        case OnConfiguration(c) => OnConfiguration(c);
        case OnEndpoint(e) => OnEndpoint(e);
        case _ =>
      }
    }
  }

  /** `get_configuration` and the end of `configure`: the bitmaps of a configured device are
    * exactly the endpoints in the chosen configuration's part of the descriptors.
    */
  method Configure(buf: seq<u8>, configurationValue: u8) returns (device: UsbDevice)
    ensures Sized(Walk(buf, 0)) && fresh(device) && fresh(device.inBitmap) && fresh(device.outBitmap)
    ensures Members(device.inBitmap.bits) == Endpoints(Walk(buf, 0), configurationValue, true)
    ensures Members(device.outBitmap.bits) == Endpoints(Walk(buf, 0), configurationValue, false)
    ensures device.inBitmap != device.outBitmap && device.handedOut == {}
  {
    var visits := ParseDescriptors(buf);
    WalkSized(buf, 0);
    hide Walk;
    var v := new SpecificConfiguration(configurationValue);
    assert visits[..0] == [];
    for k := 0 to |visits|
      invariant fresh(v) && fresh(v.inEndpoints) && fresh(v.outEndpoints) && v.inEndpoints != v.outEndpoints
      invariant v.configurationValue == configurationValue
      invariant Sized(visits[..k]) && v.ok == (Section(visits[..k], k) == Some(configurationValue))
      invariant Members(v.inEndpoints.bits) == Endpoints(visits[..k], configurationValue, true)
      invariant Members(v.outEndpoints.bits) == Endpoints(visits[..k], configurationValue, false)
    {
      assert visits[..k + 1] == visits[..k] + [visits[k]];
      EndpointsStep(visits[..k], visits[k], configurationValue, true);
      EndpointsStep(visits[..k], visits[k], configurationValue, false);
      SectionStep(visits[..k], visits[k]);
      hide Endpoints, Section, Members, IsIn, EndpointNumber, Sized;
      v.Accept(visits[k]);
    }
    assert visits[..|visits|] == visits;
    device := new UsbDevice(v.inEndpoints, v.outEndpoints);
  }

  /** A configured device, with the endpoints not opened yet. */
  class UsbDevice {
    const inBitmap: BitSet
    const outBitmap: BitSet
    /** Every (direction, number) handed out so far. */
    ghost var handedOut: set<(bool, nat)>

    /** What has been handed out is no longer on offer. */
    ghost predicate Valid()
      reads this, inBitmap, outBitmap
    {
      && inBitmap != outBitmap
      && forall n: nat ::
           ((true, n) in handedOut ==> n !in Members(inBitmap.bits))
           && ((false, n) in handedOut ==> n !in Members(outBitmap.bits))
    }

    constructor (inBitmap: BitSet, outBitmap: BitSet)
      ensures this.inBitmap == inBitmap && this.outBitmap == outBitmap && handedOut == {}
    {
      this.inBitmap, this.outBitmap, handedOut := inBitmap, outBitmap, {};
    }

    /** `open_in_endpoint` (`incoming`) or `open_out_endpoint`. An endpoint opens if it is one
      * of the device's, is not number 0, and has not been opened before; then never again.
      */
    method Open(ep: nat, incoming: bool) returns (ok: bool)
      requires Valid()
      modifies this, inBitmap, outBitmap
      ensures Valid()
      ensures ok <==>
        && 0 < ep < 16
        && ep in (if incoming then old(Members(inBitmap.bits)) else old(Members(outBitmap.bits)))
      ensures ok ==> (incoming, ep) !in old(handedOut)
      ensures handedOut == old(handedOut) + (if ok then {(incoming, ep)} else {})
      ensures Members(inBitmap.bits) == old(Members(inBitmap.bits)) - (if ok && incoming then {ep} else {})
      ensures Members(outBitmap.bits) == old(Members(outBitmap.bits)) - (if ok && !incoming then {ep} else {})
    {
      var bitmap := if incoming then inBitmap else outBitmap;
      ok := ep > 0 && ep < 16 && bitmap.Contains(ep);
      if ok {
        bitmap.Clear(ep);
        handedOut := handedOut + {(incoming, ep)};
      }
    }
  }
}
