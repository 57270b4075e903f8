/** The SSDP engine's data, the datagrams it sends, and what its state must have to do with
  * what it has sent.
  */
module EngineState {
  import opened Machine
  import opened Targets
  import opened Messages
  import opened RefreshTimers

  const MAX_PACKET_SIZE: nat := 512

  datatype SocketAddr = SocketAddr(ip: Ip, port: nat)

  const MULTICAST: SocketAddr := SocketAddr(V4(239, 255, 255, 250), 1900)

  /** One call of `send_with`: destination, source address, and the text built. */
  datatype Datagram = Datagram(to: SocketAddr, from: Ip, text: string)

  datatype Interface = Interface(ips: seq<Ip>, up: bool)

  datatype ResponseNeeded =
    | NoResponse
    | Multicast(at: int)
    | Unicast(at: int, wasFrom: SocketAddr, wasTo: Ip, responseType: string)

  datatype Advert = Advert(notificationType: string, location: string, response: ResponseNeeded)

  /** What the engine sends from every address: an announcement, a search or a farewell. */
  datatype Kind =
    | AliveOf(usn: string, notificationType: string, location: string)
    | SearchOf(searchType: string)
    | ByeByeOf(uniqueServiceName: string, notificationType: string)

  function PiecesOf(kind: Kind, source: Ip): seq<string> {
    match kind
    case AliveOf(usn, nt, location) => NotifyPieces(nt, usn, RewriteHost(location, IpText(source)))
    case SearchOf(searchType) => SearchPieces(searchType)
    case ByeByeOf(uniqueServiceName, notificationType) =>
      // `byebye_on` hands these over in the order of its own parameter names, which is not
      // that of `build_byebye`
      ByeByePieces(uniqueServiceName, notificationType)
  }

  ghost function Sends(kind: Kind, source: Ip): Datagram {
    Datagram(MULTICAST, source, Written(MAX_PACKET_SIZE, PiecesOf(kind, source)))
  }

  ghost function Answers(usn: string, location: string, r: ResponseNeeded): Datagram
    requires r.Unicast?
  {
    Datagram(r.wasFrom, r.wasTo,
             Written(MAX_PACKET_SIZE,
                     ResponsePieces(r.responseType, usn, RewriteHost(location, IpText(r.wasTo)))))
  }

  /** `byebye_on_all` swaps the two names as well, so what `deadvertise` sends says goodbye
    * for the right type and the right service.
    */
  lemma ByeByeReads(notificationType: string, uniqueServiceName: string, source: Ip)
    requires Clean(notificationType) && Clean(uniqueServiceName)
    requires ByteLen(Concat(ByeByePieces(notificationType, uniqueServiceName))) <= MAX_PACKET_SIZE
    ensures Parsed(Some(Sends(ByeByeOf(notificationType, uniqueServiceName), source).text))
         == Ok(NotifyByeBye(notificationType, uniqueServiceName))
  {
    ByeByeRoundTrip(MAX_PACKET_SIZE, notificationType, uniqueServiceName);
  }

  /** What an announcement says to those who receive it, if it fits in a packet. */
  lemma AliveReads(usn: string, notificationType: string, location: string, source: Ip)
    requires var url := RewriteHost(location, IpText(source));
      && Clean(notificationType) && Clean(usn) && Clean(url)
      && ByteLen(Concat(NotifyPieces(notificationType, usn, url))) <= MAX_PACKET_SIZE
    ensures Parsed(Some(Sends(AliveOf(usn, notificationType, location), source).text))
         == Ok(NotifyAlive(notificationType, usn, RewriteHost(location, IpText(source))))
  {
    NotifyRoundTrip(MAX_PACKET_SIZE, notificationType, usn, RewriteHost(location, IpText(source)));
  }

  type Interfaces = map<nat, Interface>
  type Adverts = map<string, Advert>

  /** `ip` is an address of interface `ix`, and the interface is up. */
  predicate Current(interfaces: Interfaces, ix: nat, ip: Ip) {
    ix in interfaces && interfaces[ix].up && ip in interfaces[ix].ips
  }

  /** The position of the first occurrence of `ip`. */
  function Position(ips: seq<Ip>, ip: Ip): (r: Option<nat>)
    ensures r.None? ==> ip !in ips
    ensures r.Some? ==> r.value < |ips| && ips[r.value] == ip && ip !in ips[..r.value]
  {
    if ips == [] then None
    else if ips[0] == ip then Some(0)
    else
      match Position(ips[1..], ip)
      case None => None
      case Some(n) => assert ips[..n + 1] == [ips[0]] + ips[1..][..n]; Some(n + 1)
  }

  /** `swap_remove` of the first occurrence of the address, if there is one. */
  function WithoutIp(interface: Interface, ip: Ip): Interface {
    var ips := interface.ips;
    match Position(ips, ip)
    case None => interface
    case Some(n) => interface.(ips := ips[n := ips[|ips| - 1]][..|ips| - 1])
  }

  lemma SwapRemoves(ips: seq<Ip>, n: nat)
    requires n < |ips|
    ensures multiset(ips[n := ips[|ips| - 1]][..|ips| - 1]) == multiset(ips) - multiset{ips[n]}
    ensures forall x :: x in ips[n := ips[|ips| - 1]][..|ips| - 1] ==> x in ips
  {
    var last := |ips| - 1;
    var swapped := ips[n := ips[last]];
    assert ips == ips[..last] + [ips[last]];
    assert swapped == swapped[..last] + [ips[last]];
  }

  /** One occurrence of the address goes, the other addresses stay, whatever their order. */
  lemma WithoutIpMeans(interface: Interface, ip: Ip)
    ensures WithoutIp(interface, ip).up == interface.up
    ensures multiset(WithoutIp(interface, ip).ips) == multiset(interface.ips) - multiset{ip}
    ensures forall x :: x in WithoutIp(interface, ip).ips ==> x in interface.ips
  {
    var ips := interface.ips;
    if ip in ips {
      SwapRemoves(ips, Position(ips, ip).value);
    }
  }

  // ---- what has been sent ----

  /** `d` is in the log at or after position `start`. */
  ghost predicate Since(log: seq<Datagram>, start: nat, d: Datagram) {
    exists k :: start <= k < |log| && log[k] == d
  }

  /** `d` is what `kind` sends from some current address. */
  ghost predicate FromCurrent(interfaces: Interfaces, kind: Kind, d: Datagram) {
    exists ix: nat, ip :: Current(interfaces, ix, ip) && d == Sends(kind, ip)
  }

  lemma SinceGrows(log: seq<Datagram>, log': seq<Datagram>, start: nat, start': nat, d: Datagram)
    requires log <= log' && Since(log, start, d) && start' <= start
    ensures Since(log', start', d)
  {
    var k :| start <= k < |log| && log[k] == d;
    assert log'[k] == d;
  }

  /** Sent since position `start`: this, from every current address and nowhere else, and
    * nothing else.
    */
  ghost predicate Broadcast(interfaces: Interfaces, kind: Kind, log: seq<Datagram>, start: nat) {
    && (forall ix: nat, ip :: Current(interfaces, ix, ip) ==> Since(log, start, Sends(kind, ip)))
    && (forall k :: start <= k < |log| ==> FromCurrent(interfaces, kind, log[k]))
  }

  /** What `send_all` must have sent from `ip` since position `start`. */
  ghost predicate Introduced(adverts: Adverts, searches: seq<string>, log: seq<Datagram>, start: nat, ip: Ip) {
    && (forall usn :: usn in adverts ==>
          Since(log, start, Sends(AliveOf(usn, adverts[usn].notificationType, adverts[usn].location), ip)))
    && (forall j: nat :: j < |searches| ==>
          || Since(log, start, Sends(SearchOf(searches[j]), ip))
          || Since(log, start, Sends(SearchOf("ssdp:all"), ip)))
  }

  lemma IntroducedGrows(adverts: Adverts, searches: seq<string>, log: seq<Datagram>, log': seq<Datagram>,
                        start: nat, start': nat, ip: Ip)
    requires log <= log' && start' <= start && Introduced(adverts, searches, log, start, ip)
    ensures Introduced(adverts, searches, log', start', ip)
  {
    forall usn | usn in adverts
      ensures Since(log', start', Sends(AliveOf(usn, adverts[usn].notificationType, adverts[usn].location), ip))
    {
      SinceGrows(log, log', start, start',
                 Sends(AliveOf(usn, adverts[usn].notificationType, adverts[usn].location), ip));
    }
    forall j: nat | j < |searches|
      ensures Since(log', start', Sends(SearchOf(searches[j]), ip))
           || Since(log', start', Sends(SearchOf("ssdp:all"), ip))
    {
      if Since(log, start, Sends(SearchOf(searches[j]), ip)) {
        SinceGrows(log, log', start, start', Sends(SearchOf(searches[j]), ip));
      } else {
        SinceGrows(log, log', start, start', Sends(SearchOf("ssdp:all"), ip));
      }
    }
  }

  /** An announcement of some advertisement, or a search for some subscription. */
  ghost predicate Says(adverts: Adverts, searches: seq<string>, kind: Kind) {
    match kind
    case AliveOf(usn, nt, location) =>
      usn in adverts && adverts[usn].notificationType == nt && adverts[usn].location == location
    case SearchOf(searchType) => searchType in searches
    case ByeByeOf(_, _) => false
  }

  /** `d` is part of introducing `ip`. */
  ghost predicate Introduces(adverts: Adverts, searches: seq<string>, ip: Ip, d: Datagram) {
    exists kind :: Says(adverts, searches, kind) && d == Sends(kind, ip)
  }

  ghost predicate IntroducesOne(adverts: Adverts, searches: seq<string>, ips: seq<Ip>, d: Datagram) {
    exists ip :: ip in ips && Introduces(adverts, searches, ip, d)
  }

  /** `d` is part of introducing some current address. */
  ghost predicate IntroducesCurrent(interfaces: Interfaces, adverts: Adverts, searches: seq<string>,
                                    d: Datagram)
  {
    exists ix: nat, ip :: Current(interfaces, ix, ip) && Introduces(adverts, searches, ip, d)
  }

  lemma BroadcastIntroduces(interfaces: Interfaces, adverts: Adverts, searches: seq<string>, kind: Kind,
                            d: Datagram)
    requires Says(adverts, searches, kind) && FromCurrent(interfaces, kind, d)
    ensures IntroducesCurrent(interfaces, adverts, searches, d)
  {
    var ix: nat, ip :| Current(interfaces, ix, ip) && d == Sends(kind, ip);
    assert Introduces(adverts, searches, ip, d);
  }

  /** Announced again and then searched for again: introduced again. */
  lemma Reintroduced(adverts: Adverts, searches: seq<string>, before: seq<Datagram>,
                     announced: seq<Datagram>, log: seq<Datagram>, ip: Ip)
    requires before <= announced <= log
    requires forall usn :: usn in adverts ==>
      Since(announced, |before|,
            Sends(AliveOf(usn, adverts[usn].notificationType, adverts[usn].location), ip))
    requires forall j: nat :: j < |searches| ==>
      || Since(log, |announced|, Sends(SearchOf(searches[j]), ip))
      || Since(log, |announced|, Sends(SearchOf("ssdp:all"), ip))
    ensures Introduced(adverts, searches, log, |before|, ip)
  {
    forall usn | usn in adverts
      ensures Since(log, |before|, Sends(AliveOf(usn, adverts[usn].notificationType, adverts[usn].location), ip))
    {
      SinceGrows(announced, log, |before|, |before|,
                 Sends(AliveOf(usn, adverts[usn].notificationType, adverts[usn].location), ip));
    }
    forall j: nat | j < |searches|
      ensures Since(log, |before|, Sends(SearchOf(searches[j]), ip))
           || Since(log, |before|, Sends(SearchOf("ssdp:all"), ip))
    {
      if Since(log, |announced|, Sends(SearchOf(searches[j]), ip)) {
        SinceGrows(log, log, |announced|, |before|, Sends(SearchOf(searches[j]), ip));
      } else {
        SinceGrows(log, log, |announced|, |before|, Sends(SearchOf("ssdp:all"), ip));
      }
    }
  }

  ghost predicate NewlyCurrent(before: Interfaces, after: Interfaces, ix: nat, ip: Ip) {
    Current(after, ix, ip) && !Current(before, ix, ip)
  }

  ghost predicate IntroducesNew(before: Interfaces, after: Interfaces, adverts: Adverts, searches: seq<string>,
                                d: Datagram)
  {
    exists ix: nat, ip :: NewlyCurrent(before, after, ix, ip) && Introduces(adverts, searches, ip, d)
  }

  /** Sent since position `start`: introductions of just the addresses that have become current. */
  ghost predicate Welcomed(before: Interfaces, after: Interfaces, adverts: Adverts, searches: seq<string>,
                           log: seq<Datagram>, start: nat)
  {
    && (forall ix: nat, ip :: NewlyCurrent(before, after, ix, ip) ==>
          Introduced(adverts, searches, log, start, ip))
    && (forall k :: start <= k < |log| ==> IntroducesNew(before, after, adverts, searches, log[k]))
  }

  /** Sent since position `start`: introductions of all the current addresses. */
  ghost predicate Renewed(interfaces: Interfaces, adverts: Adverts, searches: seq<string>,
                          log: seq<Datagram>, start: nat)
  {
    && (forall ix: nat, ip :: Current(interfaces, ix, ip) ==> Introduced(adverts, searches, log, start, ip))
    && (forall k :: start <= k < |log| ==> IntroducesCurrent(interfaces, adverts, searches, log[k]))
  }

  // ---- searches and replies ----

  /** The delay `on_data` picks, in milliseconds, for a search with MX `mx` >= 1. */
  function Delay(seed: nat, mx: nat): nat
    requires mx >= 1
  {
    seed % (if mx * 1000 < 5000 then mx * 1000 else 5000) + 10
  }

  /** Ten milliseconds, and what is left of the seed after taking away whole windows. */
  lemma DelayBounds(seed: nat, mx: nat)
    requires mx >= 1
    ensures 10 <= Delay(seed, mx) <= Min(1000 * mx, 5000) + 9
    ensures exists q: nat :: seed == Product(q, Min(1000 * mx, 5000)) + (Delay(seed, mx) - 10)
  {
    var window := Min(1000 * mx, 5000);
    Remainder(seed, window);
    hide Product;
  }

  lemma Remainder(n: nat, d: nat)
    requires d > 0
    ensures n == Product(n / d, d) + n % d && n / d >= 0 && 0 <= n % d < d
  {
  }

  ghost function Product(a: nat, b: nat): nat {
    a * b
  }

  function ResponseType(target: string, notificationType: string): string {
    if target == "ssdp:all" then notificationType else target
  }

  /** What `on_data` does to one advertisement for a search. */
  function Scheduled(a: Advert, wasFrom: SocketAddr, wasTo: Ip, target: string, replyAt: int): Advert {
    if !TargetMatch(target, a.notificationType) then a else
    match a.response
    case NoResponse =>
      a.(response := Unicast(replyAt, wasFrom, wasTo, ResponseType(target, a.notificationType)))
    case Unicast(at, previous, _, _) =>
      if wasFrom != previous then a.(response := Multicast(at)) else a
    case Multicast(_) => a
  }

  /** When the reply is due, if one is. */
  function DueAt(r: ResponseNeeded): Option<int> {
    match r
    case NoResponse => None
    case Multicast(at) => Some(at)
    case Unicast(at, _, _, _) => Some(at)
  }

  predicate Due(r: ResponseNeeded, now: int) {
    DueAt(r).Some? && DueAt(r).value <= now
  }

  /** The advertisement after a flush at `now`. */
  function Flushed(a: Advert, now: int): Advert {
    if Due(a.response, now) then a.(response := NoResponse) else a
  }

  /** The reply has gone to the one searcher, or to everybody from every current address. */
  ghost predicate Answered(interfaces: Interfaces, usn: string, a: Advert, log: seq<Datagram>, start: nat) {
    match a.response
    case NoResponse => true
    case Unicast(_, _, _, _) => Since(log, start, Answers(usn, a.location, a.response))
    case Multicast(_) =>
      forall ix: nat, ip :: Current(interfaces, ix, ip) ==>
        Since(log, start, Sends(AliveOf(usn, a.notificationType, a.location), ip))
  }

  /** `d` is part of such a reply. */
  ghost predicate Replies(interfaces: Interfaces, usn: string, a: Advert, d: Datagram) {
    match a.response
    case NoResponse => false
    case Unicast(_, _, _, _) => d == Answers(usn, a.location, a.response)
    case Multicast(_) => FromCurrent(interfaces, AliveOf(usn, a.notificationType, a.location), d)
  }

  /** `d` is part of some reply that was due. */
  ghost predicate RepliesDue(interfaces: Interfaces, adverts: Adverts, now: int, d: Datagram) {
    exists usn :: usn in adverts && Due(adverts[usn].response, now) && Replies(interfaces, usn, adverts[usn], d)
  }

  lemma AnsweredGrows(interfaces: Interfaces, usn: string, a: Advert, log: seq<Datagram>, log': seq<Datagram>,
                      start: nat, start': nat)
    requires log <= log' && start' <= start && Answered(interfaces, usn, a, log, start)
    ensures Answered(interfaces, usn, a, log', start')
  {
    match a.response
    case NoResponse =>
    case Unicast(_, _, _, _) => SinceGrows(log, log', start, start', Answers(usn, a.location, a.response));
    case Multicast(_) =>
      forall ix: nat, ip | Current(interfaces, ix, ip)
        ensures Since(log', start', Sends(AliveOf(usn, a.notificationType, a.location), ip))
      {
        SinceGrows(log, log', start, start', Sends(AliveOf(usn, a.notificationType, a.location), ip));
      }
  }

  /** The replies of the advertisements not in `keys` that were due have been made, and
    * nothing else has been sent.
    */
  ghost predicate AnsweredUpTo(interfaces: Interfaces, ads: Adverts, keys: set<string>, now: int,
                               log: seq<Datagram>, start: nat)
  {
    && (forall usn :: usn in ads && usn !in keys && Due(ads[usn].response, now) ==>
          Answered(interfaces, usn, ads[usn], log, start))
    && (forall k :: start <= k < |log| ==> RepliesDue(interfaces, ads, now, log[k]))
  }

  /** One advertisement's turn, of which `log` was before and `log'` after. */
  ghost predicate AnsweredOne(interfaces: Interfaces, usn: string, a: Advert, now: int,
                              log: seq<Datagram>, log': seq<Datagram>)
  {
    if Due(a.response, now) then
      && log <= log' && Answered(interfaces, usn, a, log', |log|)
      && forall k :: |log| <= k < |log'| ==> Replies(interfaces, usn, a, log'[k])
    else log' == log
  }

  lemma AnswerStep(interfaces: Interfaces, ads: Adverts, keys: set<string>, now: int,
                   log: seq<Datagram>, log': seq<Datagram>, start: nat, key: string)
    requires AnsweredUpTo(interfaces, ads, keys, now, log, start) && start <= |log|
    requires key in ads && AnsweredOne(interfaces, key, ads[key], now, log, log')
    ensures AnsweredUpTo(interfaces, ads, keys - {key}, now, log', start)
  {
    hide Answered, Due, Replies;
    forall usn | usn in ads && usn !in keys - {key} && Due(ads[usn].response, now)
      ensures Answered(interfaces, usn, ads[usn], log', start)
    {
      if usn == key {
        AnsweredGrows(interfaces, usn, ads[usn], log', log', |log|, start);
      } else {
        AnsweredGrows(interfaces, usn, ads[usn], log, log', start, start);
      }
    }
    forall k | start <= k < |log'|
      ensures RepliesDue(interfaces, ads, now, log'[k])
    {
      if k < |log| {
        assert log'[k] == log[k];
      } else {
        assert Replies(interfaces, key, ads[key], log'[k]);
      }
    }
  }

  // ---- events ----

  datatype Notification =
    | Alive(notificationType: string, uniqueServiceName: string, location: string)
    | ByeBye(notificationType: string, uniqueServiceName: string)

  /** Everything that can be asked of an engine. `joins` and `leaves` are whether joining and
    * leaving the multicast group work.
    */
  datatype Event =
    | NewLink(ix: nat, multicast: bool, up: bool, joins: bool)
    | DelLink(ix: nat, leaves: bool)
    | NewAddr(ix: nat, ip: Ip)
    | DelAddr(ix: nat, ip: Ip)
    | Subscription(notificationType: string)
    | Advertisement(usn: string, notificationType: string, location: string)
    | Withdrawal(usn: string)
    | Timeout(now: int)
    | Refreshing
    | TimerReset(now: int)
    | Data(packet: Option<string>, wasTo: Ip, wasFrom: SocketAddr, now: int)

  /** An engine at one moment, with all it has sent and all the callbacks it has made. */
  datatype Snapshot = Snapshot(
    interfaces: Interfaces, searches: seq<string>, adverts: Adverts, nextSalvo: int, phase: Phase,
    log: seq<Datagram>, calls: seq<(nat, Notification)>)

  /** The subscriptions a notification is passed to, from number `j` on, in order. */
  ghost function CallsFrom(searches: seq<string>, n: Notification, j: nat): seq<(nat, Notification)>
    requires j <= |searches|
    decreases |searches| - j
  {
    if j == |searches| then []
    else
      (if TargetMatch(searches[j], n.notificationType) then [(j, n)] else [])
      + CallsFrom(searches, n, j + 1)
  }

  /** The notification in a message, if it is one. */
  function NotificationIn(m: Result<Message, Error>): Option<Notification> {
    match m
    case Ok(NotifyAlive(nt, usn, location)) => Some(Alive(nt, usn, location))
    case Ok(Response(st, usn, location)) => Some(Alive(st, usn, location))
    case Ok(NotifyByeBye(nt, usn)) => Some(ByeBye(nt, usn))
    case _ => None
  }

  /** The message is a search that can be scheduled; with MX 0 the delay divides by zero. */
  predicate Schedules(m: Result<Message, Error>) {
    m.Ok? && m.value.Search? && m.value.maximumWaitSec >= 1
  }

  predicate Panics(e: Event) {
    e.Data? && var m := Parsed(e.packet); m.Ok? && m.value.Search? && m.value.maximumWaitSec == 0
  }

  predicate IsSearch(e: Event) {
    e.Data? && Schedules(Parsed(e.packet))
  }

  function TargetOf(e: Event): string
    requires IsSearch(e)
  {
    Parsed(e.packet).value.searchTarget
  }

  /** When a search is to be answered. */
  function ReplyAt(seed: nat, e: Event): int
    requires IsSearch(e)
  {
    e.now + Delay(seed, Parsed(e.packet).value.maximumWaitSec)
  }

  function InterfacesAfter(interfaces: Interfaces, e: Event): Interfaces {
    match e
    case NewLink(ix, multicast, up, joins) =>
      if !multicast then interfaces
      else if ix in interfaces then interfaces[ix := interfaces[ix].(up := up)]
      else if joins then interfaces[ix := Interface([], up)]
      else interfaces
    case DelLink(ix, _) => interfaces - {ix}
    case NewAddr(ix, ip) =>
      if ip.V4? && ix in interfaces && ip !in interfaces[ix].ips
      then interfaces[ix := interfaces[ix].(ips := interfaces[ix].ips + [ip])]
      else interfaces
    case DelAddr(ix, ip) =>
      if ix in interfaces then interfaces[ix := WithoutIp(interfaces[ix], ip)] else interfaces
    case _ => interfaces
  }

  /** One advertisement after an event that is not about it by name. */
  function AdvertAfter(seed: nat, a: Advert, e: Event): Advert {
    match e
    case Timeout(now) => Flushed(a, now)
    case Data(_, wasTo, wasFrom, _) =>
      if IsSearch(e) then Scheduled(a, wasFrom, wasTo, TargetOf(e), ReplyAt(seed, e)) else a
    case _ => a
  }

  ghost predicate AdvertsAfter(seed: nat, adverts: Adverts, e: Event, adverts': Adverts) {
    match e
    case Advertisement(usn, nt, location) => adverts' == adverts[usn := Advert(nt, location, NoResponse)]
    case Withdrawal(usn) => adverts' == adverts - {usn}
    case _ =>
      && adverts'.Keys == adverts.Keys
      && forall usn :: usn in adverts ==> adverts'[usn] == AdvertAfter(seed, adverts[usn], e)
  }

  /** What an event makes the engine send. */
  ghost predicate Sent(s: Snapshot, e: Event, log: seq<Datagram>) {
    && s.log <= log
    && match e
       case Subscription(nt) => Broadcast(s.interfaces, SearchOf(nt), log, |s.log|)
       case Advertisement(usn, nt, location) => Broadcast(s.interfaces, AliveOf(usn, nt, location), log, |s.log|)
       case Withdrawal(usn) =>
         if usn in s.adverts
         then Broadcast(s.interfaces, ByeByeOf(s.adverts[usn].notificationType, usn), log, |s.log|)
         else log == s.log
       case Timeout(now) => SentAtTimeout(s, now, log)
       case Refreshing => Renewed(s.interfaces, s.adverts, s.searches, log, |s.log|)
       case _ =>
         Welcomed(s.interfaces, InterfacesAfter(s.interfaces, e), s.adverts, s.searches, log, |s.log|)
  }

  /** Everything again if a salvo is due; the replies that are due; nothing else. */
  ghost predicate SentAtTimeout(s: Snapshot, now: int, log: seq<Datagram>) {
    exists renewed ::
      && s.log <= renewed <= log
      && (if now >= s.nextSalvo then Renewed(s.interfaces, s.adverts, s.searches, renewed, |s.log|)
          else renewed == s.log)
      && AnsweredUpTo(s.interfaces, s.adverts, {}, now, log, |renewed|)
  }

  /** What an event does to an engine. */
  ghost predicate Step(seed: u32, s: Snapshot, e: Event, s': Snapshot) {
    && s'.interfaces == InterfacesAfter(s.interfaces, e)
    && s'.searches == (if e.Subscription? then s.searches + [e.notificationType] else s.searches)
    && AdvertsAfter(seed, s.adverts, e, s'.adverts)
    && (s'.nextSalvo, s'.phase) ==
         (if e.Timeout? && e.now >= s.nextSalvo then (s.nextSalvo + Period(seed, s.phase), NextPhase(s.phase))
          else if e.TimerReset? then (e.now, 0)
          else (s.nextSalvo, s.phase))
    && Sent(s, e, s'.log)
    && s'.calls ==
         (if e.Data? && NotificationIn(Parsed(e.packet)).Some?
          then s.calls + CallsFrom(s.searches, NotificationIn(Parsed(e.packet)).value, 0)
          else s.calls)
  }

  lemma TimeoutStep(seed: u32, s: Snapshot, now: int, s': Snapshot)
    requires s'.interfaces == s.interfaces && s'.searches == s.searches && s'.calls == s.calls
    requires s'.adverts.Keys == s.adverts.Keys
    requires forall usn :: usn in s.adverts ==> s'.adverts[usn] == Flushed(s.adverts[usn], now)
    requires (s'.nextSalvo, s'.phase) ==
      if now >= s.nextSalvo then (s.nextSalvo + Period(seed, s.phase), NextPhase(s.phase))
      else (s.nextSalvo, s.phase)
    requires s.log <= s'.log && SentAtTimeout(s, now, s'.log)
    ensures Step(seed, s, Timeout(now), s')
  {
    hide SentAtTimeout, Flushed, Period, NextPhase;
  }

  /** Taking an address away makes none current, so nothing is sent. */
  lemma DelAddrStep(seed: u32, s: Snapshot, ix: nat, ip: Ip)
    ensures Step(seed, s, DelAddr(ix, ip), s.(interfaces := InterfacesAfter(s.interfaces, DelAddr(ix, ip))))
  {
    hide Introduced, IntroducesNew, Parsed, WithoutIp;
    if ix in s.interfaces {
      WithoutIpMeans(s.interfaces[ix], ip);
    }
  }

  /** A timeout leaves no reply due, and the salvo where it was or at least six seconds on. */
  lemma TimeoutMoves(seed: u32, s: Snapshot, now: int, s': Snapshot)
    requires Step(seed, s, Timeout(now), s')
    ensures forall usn :: usn in s'.adverts ==> !Due(s'.adverts[usn].response, now)
    ensures now < s.nextSalvo ==> s'.nextSalvo == s.nextSalvo
    ensures now >= s.nextSalvo ==> s'.nextSalvo >= s.nextSalvo + 6000
  {
    hide Sent, Parsed;
    PeriodBounds(seed, s.phase);
  }

  ghost function Newborn(start: int): Snapshot {
    Snapshot(map[], [], map[], start, 0, [], [])
  }

  /** A run: the moments of an engine from its creation at `start` through those events. */
  ghost predicate EngineRun(seed: u32, start: int, events: seq<Event>, trace: seq<Snapshot>) {
    && |trace| == |events| + 1
    && trace[0] == Newborn(start)
    && forall i :: 0 <= i < |events| ==> !Panics(events[i]) && Step(seed, trace[i], events[i], trace[i + 1])
  }
}
