/** What an engine is and does, told from the events alone: which addresses are current, when the
  * next salvo is due, who is called back, and what those who receive its datagrams read.
  */
module EngineEvents {
  import opened Machine
  import opened Targets
  import opened Messages
  import opened RefreshTimers
  import opened EngineState
  import opened EngineRuns

  // ---- which addresses are current ----

  /** News of a link that takes multicast, of its going, and of its IPv4 addresses. */
  predicate Links(e: Event, ix: nat) {
    e.NewLink? && e.ix == ix && e.multicast
  }

  predicate Cuts(e: Event, ix: nat) {
    e.DelLink? && e.ix == ix
  }

  predicate Adds(e: Event, ix: nat, ip: Ip) {
    e.NewAddr? && e.ix == ix && e.ip == ip && ip.V4?
  }

  predicate Drops(e: Event, ix: nat, ip: Ip) {
    e.DelAddr? && e.ix == ix && e.ip == ip
  }

  predicate Joins(e: Event, ix: nat) {
    Links(e, ix) && e.joins
  }

  ghost predicate CutBetween(events: seq<Event>, j: nat, n: nat, ix: nat)
    requires n <= |events|
  {
    exists c: nat :: j < c < n && Cuts(events[c], ix)
  }

  /** At moment `n`, the link that is there was made by event `m`: the first to join the
    * multicast group since the link last went.
    */
  ghost predicate MadeBy(events: seq<Event>, n: nat, m: nat, ix: nat) {
    && m < n <= |events|
    && Joins(events[m], ix) && !CutBetween(events, m, n, ix)
    && forall j: nat :: j < m && Joins(events[j], ix) ==> CutBetween(events, j, m, ix)
  }

  /** Since then, the latest news of it was that it is up. */
  ghost predicate LastUp(events: seq<Event>, n: nat, m: nat, ix: nat)
    requires n <= |events|
  {
    exists u: nat :: m <= u < n && Links(events[u], ix) && events[u].up
      && forall j: nat :: u < j < n ==> !Links(events[j], ix)
  }

  /** Since then, the address was added, and has not been taken away again. */
  ghost predicate Holds(events: seq<Event>, n: nat, m: nat, ix: nat, ip: Ip)
    requires n <= |events|
  {
    exists a: nat :: m < a < n && Adds(events[a], ix, ip) && forall j: nat :: a < j < n ==> !Drops(events[j], ix, ip)
  }

  ghost predicate NoTwice(ips: seq<Ip>) {
    forall i, j :: 0 <= i < j < |ips| ==> ips[i] != ips[j]
  }

  lemma WithoutIpGone(interface: Interface, ip: Ip)
    requires NoTwice(interface.ips)
    ensures var after := WithoutIp(interface, ip);
      && after.up == interface.up && NoTwice(after.ips)
      && forall x :: x in after.ips <==> x in interface.ips && x != ip
  {
    var ips := interface.ips;
    match Position(ips, ip)
    case None =>
    case Some(n) =>
      var last := |ips| - 1;
      var after := ips[n := ips[last]][..last];
      assert forall i :: 0 <= i < last ==> after[i] == if i == n then ips[last] else ips[i];
      forall x
        ensures x in after <==> x in ips && x != ip
      {
        if x in ips && x != ip {
          var i :| 0 <= i < |ips| && ips[i] == x;
          assert after[if i == last then n else i] == x;
        }
      }
  }

  /** What one event does to an interface that is not there. */
  lemma AbsentStep(interfaces: Interfaces, e: Event, ix: nat)
    requires ix !in interfaces
    ensures var after := InterfacesAfter(interfaces, e);
      && (ix in after <==> Joins(e, ix))
      && (ix in after ==> after[ix] == Interface([], e.up))
  {
    hide WithoutIp;
  }

  /** And to one that is. */
  lemma PresentStep(interfaces: Interfaces, e: Event, ix: nat)
    requires ix in interfaces && NoTwice(interfaces[ix].ips)
    ensures var after := InterfacesAfter(interfaces, e);
      && (ix in after <==> !Cuts(e, ix))
      && (ix in after ==>
            && NoTwice(after[ix].ips)
            && after[ix].up == (if Links(e, ix) then e.up else interfaces[ix].up)
            && forall ip :: ip in after[ix].ips <==>
                 Adds(e, ix, ip) || (ip in interfaces[ix].ips && !Drops(e, ix, ip)))
  {
    if e.DelAddr? && e.ix == ix {
      WithoutIpGone(interfaces[ix], e.ip);
    }
    hide WithoutIp;
  }

  /** A link that has joined and not gone since was made by something. */
  lemma {:induction false} SomethingMade(events: seq<Event>, n: nat, j: nat, ix: nat) returns (m: nat)
    requires j < n <= |events| && Joins(events[j], ix) && !CutBetween(events, j, n, ix)
    ensures MadeBy(events, n, m, ix)
    decreases j
  {
    hide Joins;
    if i: nat :| i < j && Joins(events[i], ix) && !CutBetween(events, i, j, ix) {
      assert !CutBetween(events, i, n, ix) by {
        if CutBetween(events, i, n, ix) {
          var c: nat :| i < c < n && Cuts(events[c], ix);
          assert c == j;
          NotBoth(events[j], ix);
        }
      }
      m := SomethingMade(events, n, i, ix);
    } else {
      m := j;
    }
  }

  lemma NotBoth(e: Event, ix: nat)
    ensures !(Joins(e, ix) && Cuts(e, ix))
  {
  }

  ghost predicate Facts(events: seq<Event>, interfaces: Interfaces, n: nat, m: nat, ix: nat)
    requires n <= |events|
  {
    && ix in interfaces && NoTwice(interfaces[ix].ips)
    && (interfaces[ix].up <==> LastUp(events, n, m, ix))
    && forall ip :: ip in interfaces[ix].ips <==> Holds(events, n, m, ix, ip)
  }

  /** The interface that event `n` makes. */
  lemma FactsBegin(events: seq<Event>, interfaces: Interfaces, n: nat, ix: nat)
    requires n < |events| && ix !in interfaces && Joins(events[n], ix)
    ensures Facts(events, InterfacesAfter(interfaces, events[n]), n + 1, n, ix)
  {
    AbsentStep(interfaces, events[n], ix);
    hide InterfacesAfter;
    if events[n].up {
      assert LastUp(events, n + 1, n, ix);
    }
  }

  lemma LastUpStep(events: seq<Event>, n: nat, m: nat, ix: nat)
    requires m < n < |events|
    ensures LastUp(events, n + 1, m, ix) <==> if Links(events[n], ix) then events[n].up else LastUp(events, n, m, ix)
  {
    if Links(events[n], ix) && events[n].up {
      assert LastUp(events, n + 1, m, ix);
    }
  }

  lemma HoldsStep(events: seq<Event>, n: nat, m: nat, ix: nat, ip: Ip)
    requires m < n < |events|
    ensures Holds(events, n + 1, m, ix, ip) <==>
      Adds(events[n], ix, ip) || (Holds(events, n, m, ix, ip) && !Drops(events[n], ix, ip))
  {
    if Holds(events, n, m, ix, ip) && !Drops(events[n], ix, ip) {
      var a: nat :| m < a < n && Adds(events[a], ix, ip) && forall j: nat :: a < j < n ==> !Drops(events[j], ix, ip);
      assert Holds(events, n + 1, m, ix, ip);
    }
    hide Adds, Drops;
  }

  /** And what becomes of it. */
  lemma FactsStep(events: seq<Event>, interfaces: Interfaces, n: nat, m: nat, ix: nat)
    requires m < n < |events| && Facts(events, interfaces, n, m, ix) && !Cuts(events[n], ix)
    ensures Facts(events, InterfacesAfter(interfaces, events[n]), n + 1, m, ix)
  {
    PresentStep(interfaces, events[n], ix);
    LastUpStep(events, n, m, ix);
    hide InterfacesAfter, LastUp, Links, Cuts, NoTwice;
    var after := InterfacesAfter(interfaces, events[n]);
    forall ip
      ensures ip in after[ix].ips <==> Holds(events, n + 1, m, ix, ip)
    {
      HoldsStep(events, n, m, ix, ip);
    }
    hide Holds, Adds, Drops;
  }

  /** At every moment, an interface is in the table just if its link has been made, and then the
    * table has of it what the events say.
    */
  lemma {:induction false} LinksAre(seed: u32, start: int, events: seq<Event>, trace: seq<Snapshot>, n: nat, ix: nat)
    requires EngineRun(seed, start, events, trace) && n < |trace| == |events| + 1
    ensures forall m: nat :: MadeBy(events, n, m, ix) ==> Facts(events, trace[n].interfaces, n, m, ix)
    ensures ix in trace[n].interfaces ==> exists m: nat :: MadeBy(events, n, m, ix)
  {
    hide EngineRun, Facts, Step, InterfacesAfter;
    RunShape(seed, start, events, trace);
    if n > 0 {
      LinksAre(seed, start, events, trace, n - 1, ix);
      StepAt(seed, start, events, trace, n - 1);
      StepInterfaces(seed, trace[n - 1], events[n - 1], trace[n]);
      LinksStep(events, trace[n - 1].interfaces, n - 1, n, ix);
    } else {
      hide MadeBy;
      assert forall m: nat :: !MadeBy(events, 0, m, ix) by { NoneMade(events, ix); }
    }
  }

  lemma NoneMade(events: seq<Event>, ix: nat)
    ensures forall m: nat :: !MadeBy(events, 0, m, ix)
  {
  }

  lemma StepInterfaces(seed: u32, s: Snapshot, e: Event, s': Snapshot)
    requires Step(seed, s, e, s')
    ensures s'.interfaces == InterfacesAfter(s.interfaces, e)
  {
    hide Sent, AdvertsAfter, Parsed, InterfacesAfter;
  }

  lemma LinksStep(events: seq<Event>, interfaces: Interfaces, n: nat, n': nat, ix: nat)
    requires n < |events| && n' == n + 1
    requires forall m: nat :: MadeBy(events, n, m, ix) ==> Facts(events, interfaces, n, m, ix)
    requires ix in interfaces ==> exists m: nat :: MadeBy(events, n, m, ix)
    ensures var after := InterfacesAfter(interfaces, events[n]);
      && (forall m: nat :: MadeBy(events, n', m, ix) ==> Facts(events, after, n', m, ix))
      && (ix in after ==> exists m: nat :: MadeBy(events, n', m, ix))
  {
    var after := InterfacesAfter(interfaces, events[n]);
    hide InterfacesAfter, Facts;
    forall m: nat | MadeBy(events, n', m, ix)
      ensures Facts(events, after, n', m, ix)
    {
      if m < n {
        MadeBefore(events, n, m, ix);
        FactsStep(events, interfaces, n, m, ix);
      } else {
        AbsentBefore(events, interfaces, n, ix);
        FactsBegin(events, interfaces, n, ix);
      }
    }
    if ix in after {
      hide MadeBy, Joins, Cuts;
      if ix in interfaces {
        var m: nat :| MadeBy(events, n, m, ix);
        FactsThere(events, interfaces, n, m, ix);
        PresentStep(interfaces, events[n], ix);
        MadeStays(events, n, m, ix);
      } else {
        AbsentStep(interfaces, events[n], ix);
        JustJoined(events, n, ix);
        var m := SomethingMade(events, n', n, ix);
      }
    }
  }

  lemma AbsentBefore(events: seq<Event>, interfaces: Interfaces, n: nat, ix: nat)
    requires n < |events| && MadeBy(events, n + 1, n, ix)
    requires ix in interfaces ==> exists m: nat :: MadeBy(events, n, m, ix)
    ensures ix !in interfaces
  {
    hide MadeBy;
    if m: nat :| MadeBy(events, n, m, ix) {
      MadeOnce(events, n, m, ix);
    }
  }

  lemma FactsThere(events: seq<Event>, interfaces: Interfaces, n: nat, m: nat, ix: nat)
    requires n <= |events| && Facts(events, interfaces, n, m, ix)
    ensures ix in interfaces && NoTwice(interfaces[ix].ips)
  {
  }

  lemma MadeBefore(events: seq<Event>, n: nat, m: nat, ix: nat)
    requires MadeBy(events, n + 1, m, ix) && m < n < |events|
    ensures MadeBy(events, n, m, ix) && !Cuts(events[n], ix)
  {
    hide Joins, Cuts;
  }

  lemma MadeStays(events: seq<Event>, n: nat, m: nat, ix: nat)
    requires MadeBy(events, n, m, ix) && n < |events| && !Cuts(events[n], ix)
    ensures MadeBy(events, n + 1, m, ix)
  {
    hide Joins, Cuts;
  }

  /** A link that is there already is not made again. */
  lemma MadeOnce(events: seq<Event>, n: nat, m: nat, ix: nat)
    requires MadeBy(events, n, m, ix) && n < |events|
    ensures !MadeBy(events, n + 1, n, ix)
  {
    hide Joins, Cuts;
  }

  lemma JustJoined(events: seq<Event>, n: nat, ix: nat)
    requires n < |events|
    ensures !CutBetween(events, n, n + 1, ix)
  {
  }

  /** At every moment of every run, an address of an interface is current if and only if: the
    * link has joined the multicast group and not gone since; the latest news of it was that it
    * is up; and the address, an IPv4 one, was added since the link was made and has not been
    * taken away.
    */
  lemma CurrentByEvents(seed: u32, start: int, events: seq<Event>, trace: seq<Snapshot>, n: nat, ix: nat, ip: Ip)
    requires EngineRun(seed, start, events, trace) && n < |trace| == |events| + 1
    ensures Current(trace[n].interfaces, ix, ip) <==>
      exists m: nat :: MadeBy(events, n, m, ix) && LastUp(events, n, m, ix) && Holds(events, n, m, ix, ip)
  {
    hide EngineRun, MadeBy, LastUp, Holds;
    LinksAre(seed, start, events, trace, n, ix);
    if ix in trace[n].interfaces {
      var m: nat :| MadeBy(events, n, m, ix);
      assert Facts(events, trace[n].interfaces, n, m, ix);
    }
  }

  // ---- who is called back ----

  /** The calls made since are just these: one to each subscription whose type accepts `nt`, in
    * order, with that notification.
    */
  ghost predicate Calls(before: seq<(nat, Notification)>, after: seq<(nat, Notification)>, searches: seq<string>,
                        n: Notification, nt: string)
  {
    && before <= after
    && (forall i :: |before| <= i < |after| ==>
          after[i].1 == n && after[i].0 < |searches| && TargetMatch(searches[after[i].0], nt))
    && (forall i, j :: |before| <= i < j < |after| ==> after[i].0 < after[j].0)
    && (forall q: nat :: q < |searches| && TargetMatch(searches[q], nt) ==>
          exists i :: |before| <= i < |after| && after[i] == (q, n))
  }

  /** One call to each subscription from number `j` on whose type accepts it, in order. */
  ghost predicate CallsMean(searches: seq<string>, n: Notification, j: nat, calls: seq<(nat, Notification)>) {
    && (forall i :: 0 <= i < |calls| ==>
          calls[i].1 == n && j <= calls[i].0 < |searches| && TargetMatch(searches[calls[i].0], n.notificationType))
    && (forall i, k :: 0 <= i < k < |calls| ==> calls[i].0 < calls[k].0)
    && (forall q: nat :: j <= q < |searches| && TargetMatch(searches[q], n.notificationType) ==>
          exists i :: 0 <= i < |calls| && calls[i] == (q, n))
  }

  lemma CallsCons(searches: seq<string>, n: Notification, j: nat, rest: seq<(nat, Notification)>)
    requires j < |searches| && CallsMean(searches, n, j + 1, rest) && TargetMatch(searches[j], n.notificationType)
    ensures CallsMean(searches, n, j, [(j, n)] + rest)
  {
    hide TargetMatch;
    var calls := [(j, n)] + rest;
    assert forall i :: 0 < i < |calls| ==> calls[i] == rest[i - 1];
    forall q: nat | j <= q < |searches| && TargetMatch(searches[q], n.notificationType)
      ensures exists i :: 0 <= i < |calls| && calls[i] == (q, n)
    {
      if q == j {
        assert calls[0] == (q, n);
      } else {
        var i :| 0 <= i < |rest| && rest[i] == (q, n);
        assert calls[i + 1] == (q, n);
      }
    }
  }

  lemma CallsSkip(searches: seq<string>, n: Notification, j: nat, rest: seq<(nat, Notification)>)
    requires j < |searches| && CallsMean(searches, n, j + 1, rest) && !TargetMatch(searches[j], n.notificationType)
    ensures CallsMean(searches, n, j, rest)
  {
    hide TargetMatch;
  }

  lemma {:induction false} CallsFromMeans(searches: seq<string>, n: Notification, j: nat)
    requires j <= |searches|
    ensures CallsMean(searches, n, j, CallsFrom(searches, n, j))
    decreases |searches| - j
  {
    if j < |searches| {
      hide TargetMatch, CallsMean;
      CallsFromMeans(searches, n, j + 1);
      var rest := CallsFrom(searches, n, j + 1);
      if TargetMatch(searches[j], n.notificationType) {
        CallsCons(searches, n, j, rest);
      } else {
        CallsSkip(searches, n, j, rest);
        assert [] + rest == rest;
      }
    }
  }

  lemma CallsAre(before: seq<(nat, Notification)>, searches: seq<string>, n: Notification)
    ensures Calls(before, before + CallsFrom(searches, n, 0), searches, n, n.notificationType)
  {
    hide TargetMatch;
    CallsFromMeans(searches, n, 0);
    var calls := CallsFrom(searches, n, 0);
    var after := before + calls;
    forall q: nat | q < |searches| && TargetMatch(searches[q], n.notificationType)
      ensures exists i :: |before| <= i < |after| && after[i] == (q, n)
    {
      var i :| 0 <= i < |calls| && calls[i] == (q, n);
      assert after[|before| + i] == (q, n);
    }
    hide CallsFrom;
  }

  lemma WelcomedSomebody(before: Interfaces, after: Interfaces, adverts: Adverts, searches: seq<string>,
                         log: seq<Datagram>, start: nat)
    requires Welcomed(before, after, adverts, searches, log, start) && start < |log|
    ensures exists ix: nat, ip :: NewlyCurrent(before, after, ix, ip)
  {
    hide Introduced, Introduces, Current;
    assert IntroducesNew(before, after, adverts, searches, log[start]);
  }

  /** A datagram that reads as a notification calls back, and does nothing else. */
  lemma CallStep(seed: u32, s: Snapshot, e: Event, s': Snapshot, n: Notification)
    requires Step(seed, s, e, s') && e.Data? && NotificationIn(Parsed(e.packet)) == Some(n)
    ensures Calls(s.calls, s'.calls, s.searches, n, n.notificationType)
    ensures s'.adverts == s.adverts && s'.log == s.log
  {
    CallsAre(s.calls, s.searches, n);
    hide Parsed, Calls, CallsFrom, Introduced;
    assert !IsSearch(e);
    if |s'.log| > |s.log| {
      WelcomedSomebody(s.interfaces, s'.interfaces, s.adverts, s.searches, s'.log, |s.log|);
    }
  }

  /** A farewell received calls back with a farewell. */
  lemma ByeByeCalls(seed: u32, s: Snapshot, s': Snapshot, capacity: nat, nt: string, usn: string,
                    to: Ip, from: SocketAddr, now: int)
    requires Clean(nt) && Clean(usn) && ByteLen(Concat(ByeByePieces(nt, usn))) <= capacity
    requires Step(seed, s, Data(Some(Written(capacity, ByeByePieces(nt, usn))), to, from, now), s')
    ensures Calls(s.calls, s'.calls, s.searches, ByeBye(nt, usn), nt)
  {
    hide Step, Parsed, Clean, ByteLen, Concat, Written, Calls;
    ByeByeRoundTrip(capacity, nt, usn);
    CallStep(seed, s, Data(Some(Written(capacity, ByeByePieces(nt, usn))), to, from, now), s', ByeBye(nt, usn));
  }

  /** An announcement calls back with what it announces. */
  lemma NotifyCalls(seed: u32, s: Snapshot, s': Snapshot, capacity: nat, nt: string, usn: string, location: string,
                    to: Ip, from: SocketAddr, now: int)
    requires Clean(nt) && Clean(usn) && Clean(location)
    requires ByteLen(Concat(NotifyPieces(nt, usn, location))) <= capacity
    requires Step(seed, s, Data(Some(Written(capacity, NotifyPieces(nt, usn, location))), to, from, now), s')
    ensures Calls(s.calls, s'.calls, s.searches, Alive(nt, usn, location), nt)
  {
    hide Step, Parsed, Clean, ByteLen, Concat, Written, Calls;
    NotifyRoundTrip(capacity, nt, usn, location);
    CallStep(seed, s, Data(Some(Written(capacity, NotifyPieces(nt, usn, location))), to, from, now), s',
             Alive(nt, usn, location));
  }

  /** And so does a response. */
  lemma ResponseCalls(seed: u32, s: Snapshot, s': Snapshot, capacity: nat, st: string, usn: string, location: string,
                      to: Ip, from: SocketAddr, now: int)
    requires Clean(st) && Clean(usn) && Clean(location)
    requires ByteLen(Concat(ResponsePieces(st, usn, location))) <= capacity
    requires Step(seed, s, Data(Some(Written(capacity, ResponsePieces(st, usn, location))), to, from, now), s')
    ensures Calls(s.calls, s'.calls, s.searches, Alive(st, usn, location), st)
  {
    hide Step, Parsed, Clean, ByteLen, Concat, Written, Calls;
    ResponseRoundTrip(capacity, st, usn, location);
    CallStep(seed, s, Data(Some(Written(capacity, ResponsePieces(st, usn, location))), to, from, now), s',
             Alive(st, usn, location));
  }

  /** A search is no notification: it calls nobody, and with MX at least 1 it is no panic. */
  lemma SearchCalls(seed: u32, s: Snapshot, s': Snapshot, st: string, mx: string, to: Ip, from: SocketAddr, now: int)
    requires Clean(st) && Clean(mx) && ParseUnsigned(mx, 256).Some? && ParseUnsigned(mx, 256).value >= 1
    requires Step(seed, s, Data(Some(Text(SEARCH, [("MX", mx), ("ST", st)])), to, from, now), s')
    ensures s'.calls == s.calls && !Panics(Data(Some(Text(SEARCH, [("MX", mx), ("ST", st)])), to, from, now))
  {
    hide Parsed, Clean, ParseUnsigned, Text, Sent, AdvertsAfter;
    ForeignSearch(st, mx);
  }

  // ---- when the next salvo is due ----

  /** At moment `n` the timer was last set going by the event before `r`, or has been from the start. */
  ghost predicate SetGoing(events: seq<Event>, n: nat, r: nat) {
    && r <= n <= |events| && (r == 0 || events[r - 1].TimerReset?)
    && forall j :: r <= j < n ==> !events[j].TimerReset?
  }

  /** How many timeouts since then found a salvo due. */
  ghost function Salvos(events: seq<Event>, trace: seq<Snapshot>, n: nat, r: nat): nat
    requires r <= n <= |events| <= |trace|
  {
    if n == r then 0
    else Salvos(events, trace, n - 1, r)
         + if events[n - 1].Timeout? && events[n - 1].now >= trace[n - 1].nextSalvo then 1 else 0
  }

  lemma TimerStep(seed: u32, s: Snapshot, e: Event, s': Snapshot)
    requires Step(seed, s, e, s')
    ensures e.TimerReset? ==> s'.nextSalvo == e.now && s'.phase == 0
    ensures e.Timeout? && e.now >= s.nextSalvo ==>
      s'.nextSalvo == s.nextSalvo + Period(seed, s.phase) && s'.phase == (s.phase + 1) % 4
    ensures !e.TimerReset? && !(e.Timeout? && e.now >= s.nextSalvo) ==>
      s'.nextSalvo == s.nextSalvo && s'.phase == s.phase
  {
    hide Sent, AdvertsAfter, Parsed, Period;
  }

  /** At every moment the next salvo is due when the start, or the last reset, the seed and the
    * number of salvos since then put it.
    */
  lemma {:induction false} SalvoByEvents(seed: u32, start: int, events: seq<Event>, trace: seq<Snapshot>, n: nat, r: nat)
    requires EngineRun(seed, start, events, trace) && n < |trace| == |events| + 1 && SetGoing(events, n, r)
    ensures var count := Salvos(events, trace, n, r);
      && trace[n].nextSalvo == Salvo(if r == 0 then start else events[r - 1].now, seed, 0, count)
      && trace[n].phase == PhaseAfter(0, count)
  {
    hide EngineRun, Step, Period, Salvo, PhaseAfter;
    RunShape(seed, start, events, trace);
    NothingYet(if r == 0 then start else events[r - 1].now, seed, 0);
    if n > r {
      SalvoByEvents(seed, start, events, trace, n - 1, r);
      StepAt(seed, start, events, trace, n - 1);
      TimerStep(seed, trace[n - 1], events[n - 1], trace[n]);
      SalvoSnoc(if r == 0 then start else events[r - 1].now, seed, 0, Salvos(events, trace, n - 1, r));
      PhaseNext(0, Salvos(events, trace, n - 1, r));
    } else if n > 0 {
      StepAt(seed, start, events, trace, n - 1);
      TimerStep(seed, trace[n - 1], events[n - 1], trace[n]);
    }
  }

  // ---- what others read ----

  /** Since position `start`, a datagram has gone from there to there that reads as `m`. */
  ghost predicate Heard(log: seq<Datagram>, start: nat, from: Ip, to: SocketAddr, m: Message) {
    exists k :: start <= k < |log| && log[k].from == from && log[k].to == to && Parsed(Some(log[k].text)) == Ok(m)
  }

  /** A field that fits in a packet and survives being read. */
  ghost predicate Fits(pieces: seq<string>) {
    ByteLen(Concat(pieces)) <= MAX_PACKET_SIZE
  }

  lemma SinceHeard(log: seq<Datagram>, start: nat, d: Datagram, m: Message)
    requires Since(log, start, d) && Parsed(Some(d.text)) == Ok(m)
    ensures Heard(log, start, d.from, d.to, m)
  {
    hide Parsed;
  }

  const EVERYBODY: SocketAddr := SocketAddr(V4(239, 255, 255, 250), 1900)

  ghost predicate AliveFits(usn: string, nt: string, location: string, ip: Ip) {
    var url := RewriteHost(location, IpText(ip));
    Clean(nt) && Clean(usn) && Clean(url) && Fits(NotifyPieces(nt, usn, url))
  }

  ghost predicate SearchFits(searchType: string) {
    Clean(searchType) && Fits(SearchPieces(searchType))
  }

  lemma AliveHeard(log: seq<Datagram>, start: nat, usn: string, nt: string, location: string, ip: Ip)
    requires Since(log, start, Sends(AliveOf(usn, nt, location), ip)) && AliveFits(usn, nt, location, ip)
    ensures Heard(log, start, ip, EVERYBODY, NotifyAlive(nt, usn, RewriteHost(location, IpText(ip))))
  {
    var d := Sends(AliveOf(usn, nt, location), ip);
    assert d.from == ip && d.to == EVERYBODY;
    AliveReads(usn, nt, location, ip);
    hide Parsed, Sends, Since, Heard, RewriteHost, IpText, AliveFits;
    SinceHeard(log, start, d, NotifyAlive(nt, usn, RewriteHost(location, IpText(ip))));
  }

  lemma SearchHeard(log: seq<Datagram>, start: nat, searchType: string, ip: Ip)
    requires Since(log, start, Sends(SearchOf(searchType), ip)) && SearchFits(searchType)
    ensures Heard(log, start, ip, EVERYBODY, Search(searchType, 5))
  {
    var d := Sends(SearchOf(searchType), ip);
    assert d == Datagram(EVERYBODY, ip, Written(MAX_PACKET_SIZE, SearchPieces(searchType)));
    SearchRoundTrip(MAX_PACKET_SIZE, searchType);
    hide Parsed, Sends, Since, Heard, Written, SearchPieces;
    SinceHeard(log, start, d, Search(searchType, 5));
  }

  /** A withdrawal says goodbye for the right type and name from every current address; that of
    * an unknown name says nothing.
    */
  lemma WithdrawalHeard(seed: u32, s: Snapshot, usn: string, s': Snapshot, ix: nat, ip: Ip)
    requires Step(seed, s, Withdrawal(usn), s')
    ensures usn !in s.adverts ==> s'.log == s.log
    ensures usn in s.adverts && Current(s.interfaces, ix, ip) ==>
      var nt := s.adverts[usn].notificationType;
      Clean(nt) && Clean(usn) && Fits(ByeByePieces(nt, usn)) ==>
        Heard(s'.log, |s.log|, ip, EVERYBODY, NotifyByeBye(nt, usn))
  {
    hide Since, Parsed, AdvertsAfter, FromCurrent, Clean, ByteLen, Concat, ByeByePieces, Written, Heard;
    if usn in s.adverts && Current(s.interfaces, ix, ip) && Clean(s.adverts[usn].notificationType) && Clean(usn)
       && Fits(ByeByePieces(s.adverts[usn].notificationType, usn))
    {
      var nt := s.adverts[usn].notificationType;
      ByeByeReads(nt, usn, ip);
      SinceHeard(s'.log, |s.log|, Sends(ByeByeOf(nt, usn), ip), NotifyByeBye(nt, usn));
    }
  }

  /** An advertisement is announced, and a subscription searched for, from every current address. */
  lemma AnnouncementHeard(seed: u32, s: Snapshot, e: Event, s': Snapshot, ix: nat, ip: Ip)
    requires Step(seed, s, e, s') && Current(s.interfaces, ix, ip)
    ensures e.Advertisement? && AliveFits(e.usn, e.notificationType, e.location, ip) ==>
      Heard(s'.log, |s.log|, ip, EVERYBODY,
            NotifyAlive(e.notificationType, e.usn, RewriteHost(e.location, IpText(ip))))
    ensures e.Subscription? && SearchFits(e.notificationType) ==>
      Heard(s'.log, |s.log|, ip, EVERYBODY, Search(e.notificationType, 5))
  {
    AnnounceStep(seed, s, e, s', ix, ip);
    hide Step, Since, Sends, Heard, AliveFits, SearchFits, RewriteHost, IpText;
    if e.Advertisement? && AliveFits(e.usn, e.notificationType, e.location, ip) {
      AliveHeard(s'.log, |s.log|, e.usn, e.notificationType, e.location, ip);
    }
    if e.Subscription? && SearchFits(e.notificationType) {
      SearchHeard(s'.log, |s.log|, e.notificationType, ip);
    }
  }

  /** Everything that is advertised and subscribed to goes out from that address. */
  ghost predicate AllHeard(s: Snapshot, log: seq<Datagram>, ip: Ip) {
    && (forall usn :: usn in s.adverts
                      && AliveFits(usn, s.adverts[usn].notificationType, s.adverts[usn].location, ip) ==>
          Heard(log, |s.log|, ip, EVERYBODY,
                NotifyAlive(s.adverts[usn].notificationType, usn, RewriteHost(s.adverts[usn].location, IpText(ip)))))
    && (forall j: nat :: j < |s.searches| && SearchFits(s.searches[j]) && SearchFits("ssdp:all") ==>
          || Heard(log, |s.log|, ip, EVERYBODY, Search(s.searches[j], 5))
          || Heard(log, |s.log|, ip, EVERYBODY, Search("ssdp:all", 5)))
  }

  lemma IntroducedHeard(s: Snapshot, log: seq<Datagram>, ip: Ip)
    requires Introduced(s.adverts, s.searches, log, |s.log|, ip)
    ensures AllHeard(s, log, ip)
  {
    hide Since, Sends, Heard, AliveFits, SearchFits, RewriteHost, IpText;
    forall usn | usn in s.adverts
                 && AliveFits(usn, s.adverts[usn].notificationType, s.adverts[usn].location, ip)
      ensures Heard(log, |s.log|, ip, EVERYBODY,
                NotifyAlive(s.adverts[usn].notificationType, usn, RewriteHost(s.adverts[usn].location, IpText(ip))))
    {
      AliveHeard(log, |s.log|, usn, s.adverts[usn].notificationType, s.adverts[usn].location, ip);
    }
    forall j: nat | j < |s.searches| && SearchFits(s.searches[j]) && SearchFits("ssdp:all")
      ensures Heard(log, |s.log|, ip, EVERYBODY, Search(s.searches[j], 5))
           || Heard(log, |s.log|, ip, EVERYBODY, Search("ssdp:all", 5))
    {
      if Since(log, |s.log|, Sends(SearchOf(s.searches[j]), ip)) {
        SearchHeard(log, |s.log|, s.searches[j], ip);
      } else {
        SearchHeard(log, |s.log|, "ssdp:all", ip);
      }
    }
  }

  lemma RefreshIntroduces(seed: u32, s: Snapshot, s': Snapshot, ix: nat, ip: Ip)
    requires Step(seed, s, Refreshing, s') && (Current(s.interfaces, ix, ip) || Current(s'.interfaces, ix, ip))
    ensures Introduced(s.adverts, s.searches, s'.log, |s.log|, ip)
  {
    hide Introduced, IntroducesCurrent, AdvertsAfter, Parsed;
  }

  /** A timeout that finds a salvo due, a refresh, and becoming current: everything goes out. */
  lemma SalvoHeard(seed: u32, s: Snapshot, e: Event, s': Snapshot, ix: nat, ip: Ip)
    requires Step(seed, s, e, s')
    requires || (e.Timeout? && e.now >= s.nextSalvo && Current(s.interfaces, ix, ip))
             || (e.Refreshing? && Current(s.interfaces, ix, ip))
             || (!Current(s.interfaces, ix, ip) && Current(s'.interfaces, ix, ip))
    ensures AllHeard(s, s'.log, ip)
  {
    hide AllHeard;
    if e.Timeout? {
      hide Step;
      StepInterfaces(seed, s, e, s');
      TimeoutSent(seed, s, e.now, s');
      hide AnsweredUpTo, Introduced, IntroducesCurrent;
      var renewed :| s.log <= renewed <= s'.log
        && (if e.now >= s.nextSalvo then Renewed(s.interfaces, s.adverts, s.searches, renewed, |s.log|)
            else renewed == s.log)
        && AnsweredUpTo(s.interfaces, s.adverts, {}, e.now, s'.log, |renewed|);
      IntroducedGrows(s.adverts, s.searches, renewed, s'.log, |s.log|, |s.log|, ip);
    } else if e.Refreshing? {
      RefreshIntroduces(seed, s, s', ix, ip);
    } else {
      hide Step;
      WelcomeStep(seed, s, e, s', ix, ip);
    }
    hide Introduced, Step;
    IntroducedHeard(s, s'.log, ip);
  }

  /** Events that send nothing: what makes no address current and asks for nothing to be sent. */
  lemma NothingSent(seed: u32, s: Snapshot, e: Event, s': Snapshot)
    requires Step(seed, s, e, s') && (e.DelLink? || e.DelAddr? || e.TimerReset? || e.Data?)
    ensures s'.log == s.log
  {
    if e.DelAddr? && e.ix in s.interfaces {
      WithoutIpMeans(s.interfaces[e.ix], e.ip);
    }
    hide Introduced, Introduces, Parsed, AdvertsAfter, WithoutIp;
    if |s'.log| > |s.log| {
      WelcomedSomebody(s.interfaces, s'.interfaces, s.adverts, s.searches, s'.log, |s.log|);
    }
  }

  /** The reply to a single searcher, as that searcher reads it: from the address it asked, for
    * the type it asked for, or the advertisement's own if it asked for everything.
    */
  lemma ReplyHeard(seed: u32, start: int, events: seq<Event>, trace: seq<Snapshot>, n: nat, usn: string)
    returns (j: nat)
    requires EngineRun(seed, start, events, trace) && |trace| == |events| + 1
    requires n < |events| && events[n].Timeout? && usn in trace[n].adverts
    requires trace[n].adverts[usn].response.Unicast? && Due(trace[n].adverts[usn].response, events[n].now)
    ensures j < n && Asks(events, trace, j, usn)
    ensures
      var a, search := trace[n].adverts[usn], events[j];
      var st := if TargetOf(search) == "ssdp:all" then a.notificationType else TargetOf(search);
      var url := RewriteHost(a.location, IpText(search.wasTo));
      Clean(st) && Clean(usn) && Clean(url) && Fits(ResponsePieces(st, usn, url)) ==>
        Heard(trace[n + 1].log, |trace[n].log|, search.wasTo, search.wasFrom, Response(st, usn, url))
  {
    hide EngineRun, Step, Stands, Asks, Heard, Clean, RewriteHost, IpText, Parsed, Since, TargetMatch;
    var m := ClearBegan(seed, start, events, trace, n, usn);
    StandsSince(seed, start, events, trace, n, m, usn);
    StepAt(seed, start, events, trace, n);
    OneIsAnswered(seed, trace[n], events[n].now, trace[n + 1], usn);
    j := FirstOf(seed, events, trace, n, m, usn);
    AnswerHeard(events, trace[n + 1].log, |trace[n].log|, j, trace[n].adverts[usn], usn);
  }

  lemma FirstOf(seed: u32, events: seq<Event>, trace: seq<Snapshot>, n: nat, m: nat, usn: string) returns (j: nat)
    requires n <= |events| < |trace| && usn in trace[n].adverts && Stands(seed, events, trace, n, m, usn)
    requires trace[n].adverts[usn].response.Unicast?
    ensures var r := trace[n].adverts[usn].response;
      && j < n && Asks(events, trace, j, usn) && IsSearch(events[j])
      && r.wasFrom == events[j].wasFrom && r.wasTo == events[j].wasTo
      && r.responseType == ResponseType(TargetOf(events[j]), trace[n].adverts[usn].notificationType)
  {
    hide Askers, Parsed, TargetMatch, Delay;
    j :| FirstAsk(seed, events, trace, n, m, j, usn, trace[n].adverts[usn].response,
                  trace[n].adverts[usn].notificationType);
  }

  lemma AnswerHeard(events: seq<Event>, log: seq<Datagram>, from: nat, j: nat, a: Advert, usn: string)
    requires j < |events| && IsSearch(events[j]) && a.response.Unicast?
    requires a.response.wasFrom == events[j].wasFrom && a.response.wasTo == events[j].wasTo
    requires a.response.responseType == ResponseType(TargetOf(events[j]), a.notificationType)
    requires Since(log, from, Answers(usn, a.location, a.response))
    ensures
      var search := events[j];
      var st := if TargetOf(search) == "ssdp:all" then a.notificationType else TargetOf(search);
      var url := RewriteHost(a.location, IpText(search.wasTo));
      Clean(st) && Clean(usn) && Clean(url) && Fits(ResponsePieces(st, usn, url)) ==>
        Heard(log, from, search.wasTo, search.wasFrom, Response(st, usn, url))
  {
    hide Schedules, TargetOf, Since, Heard, Clean, RewriteHost, IpText, Parsed, Written, ResponsePieces;
    var search := events[j];
    var st := if TargetOf(search) == "ssdp:all" then a.notificationType else TargetOf(search);
    var url := RewriteHost(a.location, IpText(search.wasTo));
    assert st == a.response.responseType;
    if Clean(st) && Clean(usn) && Clean(url) && Fits(ResponsePieces(st, usn, url)) {
      ResponseRoundTrip(MAX_PACKET_SIZE, st, usn, url);
      SinceHeard(log, from, Answers(usn, a.location, a.response), Response(st, usn, url));
    }
  }

  // ---- constants that must agree ----

  /** What is written in the messages is what is used elsewhere: the multicast address and port
    * in HOST, and the age in CACHE-CONTROL, within which at least two salvos are sent.
    */
  lemma ConstantsAgree(seed: u32, phase: Phase)
    ensures HOST.1 == IpText(MULTICAST.ip) + ":" + Decimal(MULTICAST.port)
    ensures MAX_AGE.1 == "max-age=" + Decimal(MAX_AGE_SECONDS)
    ensures 2 * Period(seed, phase) < MAX_AGE_SECONDS * 1000
  {
    PeriodBounds(seed, phase);
    hide Period;
    Address();
    Age();
  }

  lemma Address()
    ensures IpText(MULTICAST.ip) == "239.255.255.250" && Decimal(MULTICAST.port) == "1900"
  {
    assert Decimal(23) == "23" && Decimal(239) == "239";
    assert Decimal(25) == "25" && Decimal(255) == "255" && Decimal(250) == "250";
    assert Decimal(19) == "19" && Decimal(190) == "190" && Decimal(1900) == "1900";
    hide Decimal;
    var s := "239" + "." + "255" + "." + "255" + "." + "250";
    assert s == "239.255.255.250";
  }

  lemma Age()
    ensures "max-age=" + Decimal(MAX_AGE_SECONDS) == "max-age=1800"
  {
    assert Decimal(18) == "18" && Decimal(180) == "180" && Decimal(1800) == "1800";
  }
}
