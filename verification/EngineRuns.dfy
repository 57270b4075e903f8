/** What holds at every moment of every run of the SSDP engine. */
module EngineRuns {
  import opened Machine
  import opened Targets
  import opened Messages
  import opened RefreshTimers
  import opened EngineState

  function Max(a: nat, b: nat): nat {
    if a < b then b else a
  }

  lemma RunShape(seed: u32, start: int, events: seq<Event>, trace: seq<Snapshot>)
    requires EngineRun(seed, start, events, trace)
    ensures |trace| == |events| + 1 && trace[0] == Newborn(start)
  {
    hide Step, Panics;
  }

  lemma StepAt(seed: u32, start: int, events: seq<Event>, trace: seq<Snapshot>, i: nat)
    requires EngineRun(seed, start, events, trace) && i < |events|
    ensures |trace| == |events| + 1 && Step(seed, trace[i], events[i], trace[i + 1]) && !Panics(events[i])
  {
    hide Step, Panics;
  }

  lemma StepGrows(seed: u32, s: Snapshot, e: Event, s': Snapshot)
    requires Step(seed, s, e, s')
    ensures s.log <= s'.log && s.searches <= s'.searches
    ensures s'.searches == if e.Subscription? then s.searches + [e.notificationType] else s.searches
  {
    hide Parsed, AdvertsAfter, Broadcast, Welcomed, Renewed, SentAtTimeout;
  }

  lemma {:induction false} LogGrows(seed: u32, start: int, events: seq<Event>, trace: seq<Snapshot>, i: nat,
                                    j: nat)
    requires EngineRun(seed, start, events, trace) && i <= j < |trace|
    ensures trace[i].log <= trace[j].log && trace[i].searches <= trace[j].searches
  {
    hide EngineRun, Step;
    RunShape(seed, start, events, trace);
    if i < j {
      LogGrows(seed, start, events, trace, i, j - 1);
      StepAt(seed, start, events, trace, j - 1);
      StepGrows(seed, trace[j - 1], events[j - 1], trace[j]);
    }
  }

  // ---- everything current has been sent ----

  /** At moment `n` the address has been current without a break since event `k`. */
  ghost predicate CurrentSince(trace: seq<Snapshot>, n: nat, k: nat, ix: nat, ip: Ip) {
    && k < n < |trace|
    && !Current(trace[k].interfaces, ix, ip)
    && forall j :: k < j <= n ==> Current(trace[j].interfaces, ix, ip)
  }

  /** The event is about the advertisement of that name. */
  predicate Names(e: Event, usn: string) {
    (e.Advertisement? || e.Withdrawal?) && e.usn == usn
  }

  /** At moment `n` event `m` is the last to have been about the advertisement, and made it. */
  ghost predicate AdvertisedSince(events: seq<Event>, n: nat, m: nat, usn: string, nt: string, location: string) {
    && m < n <= |events|
    && events[m] == Advertisement(usn, nt, location)
    && forall j :: m < j < n ==> !Names(events[j], usn)
  }

  /** At moment `n`: the advertisement has been announced from the address since the later of
    * the events that made each of them current.
    */
  ghost predicate AdvertCovered(events: seq<Event>, trace: seq<Snapshot>, n: nat, usn: string, ix: nat, ip: Ip)
    requires n < |trace| == |events| + 1 && usn in trace[n].adverts
  {
    var a := trace[n].adverts[usn];
    exists k, m ::
      && CurrentSince(trace, n, k, ix, ip)
      && AdvertisedSince(events, n, m, usn, a.notificationType, a.location)
      && Since(trace[n].log, |trace[Max(k, m)].log|, Sends(AliveOf(usn, a.notificationType, a.location), ip))
  }

  /** Likewise for subscription number `j` and a search for its type, or for everything. */
  ghost predicate SearchCovered(events: seq<Event>, trace: seq<Snapshot>, n: nat, j: nat, ix: nat, ip: Ip)
    requires n < |trace| == |events| + 1 && j < |trace[n].searches|
  {
    var searchType := trace[n].searches[j];
    exists k, m ::
      && CurrentSince(trace, n, k, ix, ip)
      && SubscribedBy(events, trace, n, m, j)
      && (|| Since(trace[n].log, |trace[Max(k, m)].log|, Sends(SearchOf(searchType), ip))
          || Since(trace[n].log, |trace[Max(k, m)].log|, Sends(SearchOf("ssdp:all"), ip)))
  }

  /** Event `m` made subscription number `j`. */
  ghost predicate SubscribedBy(events: seq<Event>, trace: seq<Snapshot>, n: nat, m: nat, j: nat)
    requires n < |trace| == |events| + 1 && j < |trace[n].searches|
  {
    m < n && |trace[m].searches| == j && events[m] == Subscription(trace[n].searches[j])
  }

  lemma {:induction false} CurrentBegan(seed: u32, start: int, events: seq<Event>, trace: seq<Snapshot>, n: nat,
                                        ix: nat, ip: Ip) returns (k: nat)
    requires EngineRun(seed, start, events, trace) && n < |trace| && Current(trace[n].interfaces, ix, ip)
    ensures CurrentSince(trace, n, k, ix, ip)
  {
    hide EngineRun;
    RunShape(seed, start, events, trace);
    if Current(trace[n - 1].interfaces, ix, ip) {
      k := CurrentBegan(seed, start, events, trace, n - 1, ix, ip);
    } else {
      k := n - 1;
    }
  }

  /** An event not about it by name leaves an advertisement there, and what it advertises. */
  lemma AdvertStays(seed: u32, s: Snapshot, e: Event, s': Snapshot, usn: string)
    requires Step(seed, s, e, s') && !Names(e, usn)
    ensures usn in s.adverts <==> usn in s'.adverts
    ensures usn in s.adverts ==>
      && s'.adverts[usn] == AdvertAfter(seed, s.adverts[usn], e)
      && s'.adverts[usn].notificationType == s.adverts[usn].notificationType
      && s'.adverts[usn].location == s.adverts[usn].location
  {
    hide Sent, Parsed, TargetMatch, Period, CallsFrom, Delay;
  }

  lemma AdvertNamed(seed: u32, s: Snapshot, e: Event, s': Snapshot, usn: string)
    requires Step(seed, s, e, s') && Names(e, usn)
    ensures usn in s'.adverts <==> e.Advertisement?
    ensures e.Advertisement? ==> s'.adverts[usn] == Advert(e.notificationType, e.location, NoResponse)
  {
    hide Sent, Parsed, TargetMatch, Period, CallsFrom;
  }

  lemma {:induction false} AdvertBegan(seed: u32, start: int, events: seq<Event>, trace: seq<Snapshot>, n: nat,
                                       usn: string) returns (m: nat)
    requires EngineRun(seed, start, events, trace) && n < |trace| && usn in trace[n].adverts
    ensures AdvertisedSince(events, n, m, usn, trace[n].adverts[usn].notificationType,
                            trace[n].adverts[usn].location)
  {
    hide EngineRun, Step, AdvertAfter;
    RunShape(seed, start, events, trace);
    StepAt(seed, start, events, trace, n - 1);
    if Names(events[n - 1], usn) {
      AdvertNamed(seed, trace[n - 1], events[n - 1], trace[n], usn);
      m := n - 1;
    } else {
      AdvertStays(seed, trace[n - 1], events[n - 1], trace[n], usn);
      m := AdvertBegan(seed, start, events, trace, n - 1, usn);
    }
  }

  lemma {:induction false} AdvertThere(seed: u32, start: int, events: seq<Event>, trace: seq<Snapshot>, n: nat,
                                       m: nat, usn: string, nt: string, location: string)
    requires EngineRun(seed, start, events, trace) && AdvertisedSince(events, n, m, usn, nt, location)
    ensures usn in trace[n].adverts
    ensures trace[n].adverts[usn].notificationType == nt && trace[n].adverts[usn].location == location
  {
    hide EngineRun, Step, AdvertAfter;
    StepAt(seed, start, events, trace, n - 1);
    if m == n - 1 {
      AdvertNamed(seed, trace[n - 1], events[n - 1], trace[n], usn);
    } else {
      AdvertThere(seed, start, events, trace, n - 1, m, usn, nt, location);
      AdvertStays(seed, trace[n - 1], events[n - 1], trace[n], usn);
    }
  }

  /** An address that becomes current is introduced. */
  lemma WelcomeStep(seed: u32, s: Snapshot, e: Event, s': Snapshot, ix: nat, ip: Ip)
    requires Step(seed, s, e, s') && NewlyCurrent(s.interfaces, s'.interfaces, ix, ip)
    ensures Introduced(s.adverts, s.searches, s'.log, |s.log|, ip)
  {
    hide Introduced, Parsed, IntroducesNew, AdvertsAfter;
  }

  /** Advertising and subscribing make no address current. */
  lemma NotByAnnouncing(seed: u32, s: Snapshot, e: Event, s': Snapshot)
    requires Step(seed, s, e, s') && (e.Advertisement? || e.Subscription?)
    ensures s'.interfaces == s.interfaces
  {
    hide Sent, Parsed, AdvertsAfter;
  }

  lemma AnnounceStep(seed: u32, s: Snapshot, e: Event, s': Snapshot, ix: nat, ip: Ip)
    requires Step(seed, s, e, s') && Current(s.interfaces, ix, ip)
    ensures e.Advertisement? ==>
      Since(s'.log, |s.log|, Sends(AliveOf(e.usn, e.notificationType, e.location), ip))
    ensures e.Subscription? ==> Since(s'.log, |s.log|, Sends(SearchOf(e.notificationType), ip))
  {
    hide Since, Sends, Parsed, AdvertsAfter;
  }

  lemma AdvertIsCovered(seed: u32, start: int, events: seq<Event>, trace: seq<Snapshot>, n: nat, usn: string,
                        ix: nat, ip: Ip)
    requires EngineRun(seed, start, events, trace) && n < |trace|
    requires usn in trace[n].adverts && Current(trace[n].interfaces, ix, ip)
    ensures AdvertCovered(events, trace, n, usn, ix, ip)
  {
    hide EngineRun, Step, Since, Sends;
    RunShape(seed, start, events, trace);
    var a := trace[n].adverts[usn];
    var k := CurrentBegan(seed, start, events, trace, n, ix, ip);
    var m := AdvertBegan(seed, start, events, trace, n, usn);
    var l := Max(k, m);
    StepAt(seed, start, events, trace, l);
    LogGrows(seed, start, events, trace, l + 1, n);
    if k <= m {
      assert Current(trace[m + 1].interfaces, ix, ip);
      NotByAnnouncing(seed, trace[m], events[m], trace[m + 1]);
    }
    if m < k {
      WelcomeStep(seed, trace[k], events[k], trace[k + 1], ix, ip);
      AdvertThere(seed, start, events, trace, k, m, usn, a.notificationType, a.location);
    } else {
      AnnounceStep(seed, trace[m], events[m], trace[m + 1], ix, ip);
    }
    SinceGrows(trace[l + 1].log, trace[n].log, |trace[l].log|, |trace[l].log|,
               Sends(AliveOf(usn, a.notificationType, a.location), ip));
  }

  lemma {:induction false} SearchBegan(seed: u32, start: int, events: seq<Event>, trace: seq<Snapshot>, n: nat,
                                       j: nat) returns (m: nat)
    requires EngineRun(seed, start, events, trace) && n < |trace| && j < |trace[n].searches|
    ensures SubscribedBy(events, trace, n, m, j)
  {
    hide EngineRun, Step;
    RunShape(seed, start, events, trace);
    StepAt(seed, start, events, trace, n - 1);
    StepGrows(seed, trace[n - 1], events[n - 1], trace[n]);
    if j < |trace[n - 1].searches| {
      m := SearchBegan(seed, start, events, trace, n - 1, j);
    } else {
      m := n - 1;
    }
  }

  lemma SearchIsCovered(seed: u32, start: int, events: seq<Event>, trace: seq<Snapshot>, n: nat, j: nat,
                        ix: nat, ip: Ip)
    requires EngineRun(seed, start, events, trace) && n < |trace|
    requires j < |trace[n].searches| && Current(trace[n].interfaces, ix, ip)
    ensures SearchCovered(events, trace, n, j, ix, ip)
  {
    hide EngineRun, Step, Since, Sends;
    RunShape(seed, start, events, trace);
    var searchType := trace[n].searches[j];
    var k := CurrentBegan(seed, start, events, trace, n, ix, ip);
    var m := SearchBegan(seed, start, events, trace, n, j);
    var l := Max(k, m);
    StepAt(seed, start, events, trace, l);
    LogGrows(seed, start, events, trace, l + 1, n);
    if k <= m {
      assert Current(trace[m + 1].interfaces, ix, ip);
      NotByAnnouncing(seed, trace[m], events[m], trace[m + 1]);
    }
    if m < k {
      StepAt(seed, start, events, trace, m);
      StepGrows(seed, trace[m], events[m], trace[m + 1]);
      LogGrows(seed, start, events, trace, m + 1, k);
      LogGrows(seed, start, events, trace, k, n);
      assert trace[k].searches[j] == searchType;
      WelcomeStep(seed, trace[k], events[k], trace[k + 1], ix, ip);
    } else {
      AnnounceStep(seed, trace[m], events[m], trace[m + 1], ix, ip);
    }
    var from := |trace[l].log|;
    if Since(trace[l + 1].log, from, Sends(SearchOf(searchType), ip)) {
      SinceGrows(trace[l + 1].log, trace[n].log, from, from, Sends(SearchOf(searchType), ip));
    } else {
      SinceGrows(trace[l + 1].log, trace[n].log, from, from, Sends(SearchOf("ssdp:all"), ip));
    }
  }

  ghost predicate CoveredAt(events: seq<Event>, trace: seq<Snapshot>, n: nat)
    requires n < |trace| == |events| + 1
  {
    && (forall usn, ix: nat, ip :: usn in trace[n].adverts && Current(trace[n].interfaces, ix, ip) ==>
          AdvertCovered(events, trace, n, usn, ix, ip))
    && (forall j: nat, ix: nat, ip :: j < |trace[n].searches| && Current(trace[n].interfaces, ix, ip) ==>
          SearchCovered(events, trace, n, j, ix, ip))
  }

  /** At every moment of every run, every advertisement has been announced, and every
    * subscription searched for, from each address of each interface that is up, since both
    * became current.
    */
  lemma AlwaysCovered(seed: u32, start: int, events: seq<Event>, trace: seq<Snapshot>, n: nat)
    requires EngineRun(seed, start, events, trace) && n < |trace|
    ensures CoveredAt(events, trace, n)
  {
    hide AdvertCovered, SearchCovered, EngineRun;
    RunShape(seed, start, events, trace);
    forall usn, ix: nat, ip | usn in trace[n].adverts && Current(trace[n].interfaces, ix, ip)
      ensures AdvertCovered(events, trace, n, usn, ix, ip)
    {
      AdvertIsCovered(seed, start, events, trace, n, usn, ix, ip);
    }
    forall j: nat, ix: nat, ip | j < |trace[n].searches| && Current(trace[n].interfaces, ix, ip)
      ensures SearchCovered(events, trace, n, j, ix, ip)
    {
      SearchIsCovered(seed, start, events, trace, n, j, ix, ip);
    }
  }

  // ---- every reply stands for the searchers waiting for it ----

  /** Event `j` answered or renewed the advertisement: whoever had asked is forgotten. */
  ghost predicate Clears(events: seq<Event>, trace: seq<Snapshot>, j: nat, usn: string)
    requires j < |events| < |trace|
  {
    || (events[j].Advertisement? && events[j].usn == usn)
    || (events[j].Timeout? && usn in trace[j].adverts && Due(trace[j].adverts[usn].response, events[j].now))
  }

  /** At moment `n`, event `m` was the last to clear the advertisement. */
  ghost predicate ClearedBy(events: seq<Event>, trace: seq<Snapshot>, n: nat, m: nat, usn: string)
    requires |trace| == |events| + 1
  {
    && m < n <= |events|
    && Clears(events, trace, m, usn)
    && forall j :: m < j < n ==> !Clears(events, trace, j, usn)
  }

  /** Event `j` is a search that the advertisement meets. */
  ghost predicate Asks(events: seq<Event>, trace: seq<Snapshot>, j: nat, usn: string)
    requires j < |events| < |trace|
  {
    && IsSearch(events[j])
    && usn in trace[j].adverts
    && TargetMatch(TargetOf(events[j]), trace[j].adverts[usn].notificationType)
  }

  /** Those who have asked for the advertisement between event `m` and moment `n`. */
  ghost function Askers(events: seq<Event>, trace: seq<Snapshot>, n: nat, m: nat, usn: string): set<SocketAddr>
    requires n <= |events| < |trace|
  {
    set j: nat | m < j < n && Asks(events, trace, j, usn) :: events[j].wasFrom
  }

  /** The first of them asked by event `j`, and the reply to be made is the one due to it. */
  ghost predicate FirstAsk(seed: u32, events: seq<Event>, trace: seq<Snapshot>, n: nat, m: nat, j: nat,
                           usn: string, r: ResponseNeeded, nt: string)
    requires n <= |events| < |trace|
  {
    && m < j < n
    && Asks(events, trace, j, usn)
    && (forall i :: m < i < j ==> !Asks(events, trace, i, usn))
    && DueAt(r) == Some(ReplyAt(seed, events[j]))
    && (r.Unicast? ==>
          && r.wasFrom == events[j].wasFrom && r.wasTo == events[j].wasTo
          && r.responseType == ResponseType(TargetOf(events[j]), nt))
  }

  /** The three-valued `response_needed` stands for those who have asked: none, exactly one,
    * or more; and it is due when the first was to be answered.
    */
  ghost predicate Stands(seed: u32, events: seq<Event>, trace: seq<Snapshot>, n: nat, m: nat, usn: string)
    requires n <= |events| < |trace| && usn in trace[n].adverts
  {
    var a := trace[n].adverts[usn];
    var askers := Askers(events, trace, n, m, usn);
    && (a.response.NoResponse? ==> askers == {})
    && (a.response.Unicast? ==> askers == {a.response.wasFrom})
    && (a.response.Multicast? ==> exists x, y :: x in askers && y in askers && x != y)
    && (!a.response.NoResponse? ==>
          exists j: nat :: FirstAsk(seed, events, trace, n, m, j, usn, a.response, a.notificationType))
  }

  lemma ClearStep(seed: u32, events: seq<Event>, trace: seq<Snapshot>, m: nat, usn: string)
    requires |trace| == |events| + 1 && m < |events| && Step(seed, trace[m], events[m], trace[m + 1])
    requires Clears(events, trace, m, usn)
    ensures usn in trace[m + 1].adverts && Stands(seed, events, trace, m + 1, m, usn)
  {
    hide Step, Asks;
    if Names(events[m], usn) {
      AdvertNamed(seed, trace[m], events[m], trace[m + 1], usn);
    } else {
      AdvertStays(seed, trace[m], events[m], trace[m + 1], usn);
    }
  }

  lemma AskersStep(events: seq<Event>, trace: seq<Snapshot>, n: nat, m: nat, usn: string)
    requires m < n < |events| < |trace|
    ensures Askers(events, trace, n + 1, m, usn) ==
      Askers(events, trace, n, m, usn) + if Asks(events, trace, n, usn) then {events[n].wasFrom} else {}
  {
    hide Asks;
  }

  /** Whoever asked first stays the first, also when one reply turns into one to all. */
  lemma FirstAskStays(seed: u32, events: seq<Event>, trace: seq<Snapshot>, n: nat, m: nat, j: nat, usn: string,
                      r: ResponseNeeded, r': ResponseNeeded, nt: string)
    requires n < |events| < |trace| && FirstAsk(seed, events, trace, n, m, j, usn, r, nt)
    requires r' == r || (r'.Multicast? && DueAt(r') == DueAt(r))
    ensures FirstAsk(seed, events, trace, n + 1, m, j, usn, r', nt)
  {
    hide Asks;
  }

  /** With nobody waiting, whoever asks is the first. */
  lemma FirstAskIs(seed: u32, events: seq<Event>, trace: seq<Snapshot>, n: nat, m: nat, usn: string,
                   r: ResponseNeeded, nt: string)
    requires m < n < |events| < |trace| && Askers(events, trace, n, m, usn) == {}
    requires Asks(events, trace, n, usn)
    requires r == Unicast(ReplyAt(seed, events[n]), events[n].wasFrom, events[n].wasTo,
                          ResponseType(TargetOf(events[n]), nt))
    ensures FirstAsk(seed, events, trace, n + 1, m, n, usn, r, nt)
  {
    forall i: nat | m < i < n && Asks(events, trace, i, usn)
      ensures false
    {
      NotAmong(events, trace, n, m, i, usn);
    }
    hide Asks;
  }

  lemma NotAmong(events: seq<Event>, trace: seq<Snapshot>, n: nat, m: nat, i: nat, usn: string)
    requires m < i < n <= |events| < |trace| && Asks(events, trace, i, usn)
    ensures Askers(events, trace, n, m, usn) != {}
  {
    assert events[i].wasFrom in Askers(events, trace, n, m, usn);
  }

  /** What one more event does to a reply that it does not clear. */
  lemma StandStep(seed: u32, events: seq<Event>, trace: seq<Snapshot>, n: nat, m: nat, usn: string)
    requires m < n < |events| < |trace| && usn in trace[n].adverts && usn in trace[n + 1].adverts
    requires Stands(seed, events, trace, n, m, usn)
    requires !Clears(events, trace, n, usn)
    requires trace[n + 1].adverts[usn] == AdvertAfter(seed, trace[n].adverts[usn], events[n])
    ensures Stands(seed, events, trace, n + 1, m, usn)
  {
    hide FirstAsk, Askers, TargetMatch, Parsed, Delay;
    var a, a', e := trace[n].adverts[usn], trace[n + 1].adverts[usn], events[n];
    var askers := Askers(events, trace, n, m, usn);
    AskersStep(events, trace, n, m, usn);
    if a.response.NoResponse? {
      if Asks(events, trace, n, usn) {
        FirstAskIs(seed, events, trace, n, m, usn, a'.response, a.notificationType);
      }
    } else {
      var j: nat :| FirstAsk(seed, events, trace, n, m, j, usn, a.response, a.notificationType);
      FirstAskStays(seed, events, trace, n, m, j, usn, a.response, a'.response, a.notificationType);
      if a.response.Multicast? {
        var x, y :| x in askers && y in askers && x != y;
        assert x in Askers(events, trace, n + 1, m, usn) && y in Askers(events, trace, n + 1, m, usn);
      } else if a'.response.Multicast? {
        assert e.wasFrom in Askers(events, trace, n + 1, m, usn);
        assert a.response.wasFrom in Askers(events, trace, n + 1, m, usn);
      }
    }
  }

  lemma {:induction false} StandsSince(seed: u32, start: int, events: seq<Event>, trace: seq<Snapshot>, n: nat,
                                       m: nat, usn: string)
    requires EngineRun(seed, start, events, trace) && |trace| == |events| + 1
    requires ClearedBy(events, trace, n, m, usn) && usn in trace[n].adverts
    ensures Stands(seed, events, trace, n, m, usn)
  {
    hide EngineRun, Step, Stands, Clears, AdvertAfter;
    StepAt(seed, start, events, trace, n - 1);
    if n == m + 1 {
      ClearStep(seed, events, trace, m, usn);
    } else {
      NotNamed(seed, events, trace, n - 1, usn);
      AdvertStays(seed, trace[n - 1], events[n - 1], trace[n], usn);
      StandsSince(seed, start, events, trace, n - 1, m, usn);
      StandStep(seed, events, trace, n - 1, m, usn);
    }
  }

  /** An event that leaves the advertisement there without clearing it is not about it. */
  lemma NotNamed(seed: u32, events: seq<Event>, trace: seq<Snapshot>, n: nat, usn: string)
    requires n < |events| < |trace| && !Clears(events, trace, n, usn)
    requires Step(seed, trace[n], events[n], trace[n + 1]) && usn in trace[n + 1].adverts
    ensures !Names(events[n], usn)
  {
    hide Step;
    if Names(events[n], usn) {
      AdvertNamed(seed, trace[n], events[n], trace[n + 1], usn);
    }
  }

  lemma {:induction false} ClearBegan(seed: u32, start: int, events: seq<Event>, trace: seq<Snapshot>, n: nat,
                                      usn: string) returns (m: nat)
    requires EngineRun(seed, start, events, trace) && |trace| == |events| + 1
    requires n < |trace| && usn in trace[n].adverts
    ensures ClearedBy(events, trace, n, m, usn)
  {
    hide EngineRun, Step, Clears, AdvertAfter;
    RunShape(seed, start, events, trace);
    StepAt(seed, start, events, trace, n - 1);
    if Clears(events, trace, n - 1, usn) {
      m := n - 1;
    } else {
      NotNamed(seed, events, trace, n - 1, usn);
      AdvertStays(seed, trace[n - 1], events[n - 1], trace[n], usn);
      m := ClearBegan(seed, start, events, trace, n - 1, usn);
    }
  }

  lemma TwoOrMore(s: set<SocketAddr>, x: SocketAddr, y: SocketAddr)
    requires x in s && y in s && x != y
    ensures |s| >= 2
  {
    assert |{x, y}| == 2 && {x, y} <= s;
    Subset({x, y}, s);
  }

  lemma {:induction false} Subset(a: set<SocketAddr>, b: set<SocketAddr>)
    requires a <= b
    ensures |a| <= |b|
  {
    if a != {} {
      var x :| x in a;
      Subset(a - {x}, b - {x});
    }
  }

  /** At every moment of every run: no reply is needed, one to a single searcher, or one to
    * all, exactly when none, one, or several searchers have asked for the advertisement
    * since it was last answered or renewed; and the reply is due 10 to
    * min(1000 MX, 5000) + 9 ms after the first of their searches came.
    */
  lemma RepliesStand(seed: u32, start: int, events: seq<Event>, trace: seq<Snapshot>, n: nat, usn: string)
    returns (m: nat)
    requires EngineRun(seed, start, events, trace) && |trace| == |events| + 1
    requires n < |trace| && usn in trace[n].adverts
    ensures ClearedBy(events, trace, n, m, usn) && Stands(seed, events, trace, n, m, usn)
    ensures var count := |Askers(events, trace, n, m, usn)|; var r := trace[n].adverts[usn].response;
      && (r.NoResponse? <==> count == 0)
      && (r.Unicast? <==> count == 1)
      && (r.Multicast? <==> count >= 2)
    ensures DueAt(trace[n].adverts[usn].response).Some? ==> exists j: nat ::
      && FirstAsk(seed, events, trace, n, m, j, usn, trace[n].adverts[usn].response,
                  trace[n].adverts[usn].notificationType)
      && var mx := Parsed(events[j].packet).value.maximumWaitSec;
         mx >= 1 && 10 <= DueAt(trace[n].adverts[usn].response).value - events[j].now <= Min(1000 * mx, 5000) + 9
  {
    hide EngineRun;
    m := ClearBegan(seed, start, events, trace, n, usn);
    StandsSince(seed, start, events, trace, n, m, usn);
    hide ClearedBy, Askers, Parsed, Delay, TargetMatch;
    var askers := Askers(events, trace, n, m, usn);
    var r := trace[n].adverts[usn].response;
    if r.Multicast? {
      var x, y :| x in askers && y in askers && x != y;
      TwoOrMore(askers, x, y);
    }
    if DueAt(r).Some? {
      var j: nat :| FirstAsk(seed, events, trace, n, m, j, usn, r, trace[n].adverts[usn].notificationType);
      DelayBounds(seed, Parsed(events[j].packet).value.maximumWaitSec);
    }
  }

  // ---- who is answered ----

  /** The reply for an advertisement made at a timeout, from state `s`, reached this searcher:
    * it went to that searcher, or was announced to all from some address.
    */
  ghost predicate Reached(s: Snapshot, usn: string, log: seq<Datagram>, searcher: SocketAddr)
    requires usn in s.adverts
  {
    var a := s.adverts[usn];
    || (a.response.Unicast? && a.response.wasFrom == searcher
        && Since(log, |s.log|, Answers(usn, a.location, a.response)))
    || exists ip :: Since(log, |s.log|, Sends(AliveOf(usn, a.notificationType, a.location), ip))
  }

  /** Some interface that is up has an address. */
  ghost predicate Connected(interfaces: Interfaces) {
    exists ix: nat, ip :: Current(interfaces, ix, ip)
  }

  /** What a timeout sends from nowhere is only replies to single searchers. */
  lemma SentUnconnected(seed: u32, s: Snapshot, now: int, s': Snapshot, usn: string, nt: string,
                        location: string, ip: Ip)
    requires Step(seed, s, Timeout(now), s') && !Connected(s.interfaces)
    ensures !Since(s'.log, |s.log|, Sends(AliveOf(usn, nt, location), ip))
  {
    hide Step;
    TimeoutSent(seed, s, now, s');
    var renewed :| s.log <= renewed <= s'.log
      && (if now >= s.nextSalvo then Renewed(s.interfaces, s.adverts, s.searches, renewed, |s.log|)
          else renewed == s.log)
      && AnsweredUpTo(s.interfaces, s.adverts, {}, now, s'.log, |renewed|);
    if |s.log| < |renewed| {
      RenewedFromSomewhere(s.interfaces, s.adverts, s.searches, renewed, |s.log|);
    }
    hide Connected, Renewed;
    forall k | |s.log| <= k < |s'.log|
      ensures s'.log[k] != Sends(AliveOf(usn, nt, location), ip)
    {
      assert RepliesDue(s.interfaces, s.adverts, now, s'.log[k]);
      ReplyIsNoAnnouncement(s.interfaces, s.adverts, now, s'.log[k], usn, nt, location, ip);
    }
  }

  lemma RenewedFromSomewhere(interfaces: Interfaces, adverts: Adverts, searches: seq<string>, log: seq<Datagram>,
                             start: nat)
    requires Renewed(interfaces, adverts, searches, log, start) && start < |log|
    ensures Connected(interfaces)
  {
    hide Introduces, Introduced, Current;
    assert IntroducesCurrent(interfaces, adverts, searches, log[start]);
  }

  lemma ReplyIsNoAnnouncement(interfaces: Interfaces, adverts: Adverts, now: int, d: Datagram,
                              usn: string, nt: string, location: string, ip: Ip)
    requires RepliesDue(interfaces, adverts, now, d) && !Connected(interfaces)
    ensures d != Sends(AliveOf(usn, nt, location), ip)
  {
    hide Due, Written, NotifyPieces, ResponsePieces, RewriteHost, IpText, Current;
    var u :| u in adverts && Due(adverts[u].response, now) && Replies(interfaces, u, adverts[u], d);
    var a := adverts[u];
    assert a.response.Unicast?;
    StartsDiffer(MAX_PACKET_SIZE, nt, usn, RewriteHost(location, IpText(ip)),
                 a.response.responseType, u, RewriteHost(a.location, IpText(a.response.wasTo)));
  }

  /** A reply that is due reaches every searcher it stands for if, and only if, there is just
    * one of them or there is an address to send from. With several searchers and no address
    * nothing is sent, and yet the reply is forgotten.
    */
  lemma WhoIsAnswered(seed: u32, start: int, events: seq<Event>, trace: seq<Snapshot>, n: nat, usn: string,
                      j: nat) returns (m: nat)
    requires EngineRun(seed, start, events, trace) && |trace| == |events| + 1
    requires n < |events| && events[n].Timeout? && usn in trace[n].adverts
    requires Due(trace[n].adverts[usn].response, events[n].now)
    ensures ClearedBy(events, trace, n, m, usn)
    ensures m < j < n && Asks(events, trace, j, usn) ==>
      (Reached(trace[n], usn, trace[n + 1].log, events[j].wasFrom)
       <==> trace[n].adverts[usn].response.Unicast? || Connected(trace[n].interfaces))
    ensures usn in trace[n + 1].adverts && trace[n + 1].adverts[usn].response == NoResponse
  {
    hide EngineRun, Stands, FirstAsk, ClearedBy, Parsed, TargetMatch;
    m := ClearBegan(seed, start, events, trace, n, usn);
    StandsSince(seed, start, events, trace, n, m, usn);
    StepAt(seed, start, events, trace, n);
    AdvertStays(seed, trace[n], events[n], trace[n + 1], usn);
    var s, s', a := trace[n], trace[n + 1], trace[n].adverts[usn];
    if m < j < n && Asks(events, trace, j, usn) {
      OneIsAnswered(seed, s, events[n].now, s', usn);
      if a.response.Unicast? {
        SoleAsker(seed, events, trace, n, m, usn, j);
      }
    }
    hide Step;
  }

  lemma SoleAsker(seed: u32, events: seq<Event>, trace: seq<Snapshot>, n: nat, m: nat, usn: string, j: nat)
    requires n <= |events| < |trace| && usn in trace[n].adverts && Stands(seed, events, trace, n, m, usn)
    requires trace[n].adverts[usn].response.Unicast? && m < j < n && Asks(events, trace, j, usn)
    ensures events[j].wasFrom == trace[n].adverts[usn].response.wasFrom
  {
    hide FirstAsk;
    assert events[j].wasFrom in Askers(events, trace, n, m, usn);
  }

  /** What a timeout has sent for one advertisement whose reply was due. */
  lemma OneIsAnswered(seed: u32, s: Snapshot, now: int, s': Snapshot, usn: string)
    requires Step(seed, s, Timeout(now), s') && usn in s.adverts && Due(s.adverts[usn].response, now)
    ensures var a := s.adverts[usn];
      && (a.response.Unicast? ==> Since(s'.log, |s.log|, Answers(usn, a.location, a.response)))
      && (a.response.Multicast? ==>
            ((exists ip :: Since(s'.log, |s.log|, Sends(AliveOf(usn, a.notificationType, a.location), ip)))
             <==> Connected(s.interfaces)))
  {
    hide Since, Sends, Answers, Step, Current;
    var a := s.adverts[usn];
    DueIsAnswered(seed, s, now, s', usn);
    if !Connected(s.interfaces) {
      hide Connected;
      forall ip
        ensures !Since(s'.log, |s.log|, Sends(AliveOf(usn, a.notificationType, a.location), ip))
      {
        SentUnconnected(seed, s, now, s', usn, a.notificationType, a.location, ip);
      }
    }
  }

  lemma DueIsAnswered(seed: u32, s: Snapshot, now: int, s': Snapshot, usn: string)
    requires Step(seed, s, Timeout(now), s') && usn in s.adverts && Due(s.adverts[usn].response, now)
    ensures Answered(s.interfaces, usn, s.adverts[usn], s'.log, |s.log|)
  {
    TimeoutSent(seed, s, now, s');
    hide Step, Answered, Due, RepliesDue, Renewed;
    var renewed :| s.log <= renewed <= s'.log
      && (if now >= s.nextSalvo then Renewed(s.interfaces, s.adverts, s.searches, renewed, |s.log|)
          else renewed == s.log)
      && AnsweredUpTo(s.interfaces, s.adverts, {}, now, s'.log, |renewed|);
    AnsweredGrows(s.interfaces, usn, s.adverts[usn], s'.log, s'.log, |renewed|, |s.log|);
  }

  lemma TimeoutSent(seed: u32, s: Snapshot, now: int, s': Snapshot)
    requires Step(seed, s, Timeout(now), s')
    ensures SentAtTimeout(s, now, s'.log)
  {
    hide SentAtTimeout, AdvertsAfter, Period;
  }

  // ---- failing inputs ----

  ghost function SearchText(mx: string): string {
    Text(SEARCH, [("MX", mx), ("ST", "ssdp:all")])
  }

  lemma SearchTextReads(mx: string)
    requires mx == "0" || mx == "1"
    ensures Parsed(Some(SearchText(mx))) == Ok(Search("ssdp:all", if mx == "0" then 0 else 1))
  {
    TrimFixed(mx);
    TrimFixed("ssdp:all");
    assert mx[0] in mx && mx[..0] == "" && forall c :: c in mx ==> IsDigit(c);
    assert Digits("") == 0 && Digits(mx) == DigitValue(mx[0]);
    hide Parsed, Text, Trim;
    ForeignSearch("ssdp:all", mx);
  }

  /** A datagram that makes `on_data` panic: an ordinary search, but with MX 0. */
  lemma ZeroMxPanics(wasTo: Ip, wasFrom: SocketAddr, now: int)
    ensures Panics(Data(Some(SearchText("0")), wasTo, wasFrom, now))
  {
    hide Parsed;
    SearchTextReads("0");
  }

  /** An engine without a network sends nothing, except to single searchers. */
  lemma SilentStep(seed: u32, s: Snapshot, e: Event, s': Snapshot)
    requires s.interfaces == map[] && s' == s.(adverts := s'.adverts)
    requires AdvertsAfter(seed, s.adverts, e, s'.adverts)
    requires e.Advertisement? || IsSearch(e) || e.Timeout?
    requires e.Timeout? ==> e.now < s.nextSalvo && forall usn :: usn in s.adverts ==> !s.adverts[usn].response.Unicast?
    ensures Step(seed, s, e, s')
  {
    hide Introduced, Introduces, Sends, Parsed, AdvertsAfter;
    if e.Timeout? {
      assert AnsweredUpTo(s.interfaces, s.adverts, {}, e.now, s.log, |s.log|);
    }
  }

  /** An engine with no network and one advertisement. */
  ghost function Lonely(start: int, usn: string, a: Advert): Snapshot {
    Newborn(start).(adverts := map[usn := a])
  }

  lemma LonelyStep(seed: u32, start: int, usn: string, a: Advert, e: Event)
    requires IsSearch(e) || (e.Timeout? && e.now < start && !a.response.Unicast?)
    ensures Step(seed, Lonely(start, usn, a), e, Lonely(start, usn, AdvertAfter(seed, a, e)))
  {
    hide AdvertAfter, Schedules;
    SilentStep(seed, Lonely(start, usn, a), e, Lonely(start, usn, AdvertAfter(seed, a, e)));
    hide Step;
  }

  lemma LonelyStarts(seed: u32, start: int, usn: string, nt: string, location: string)
    ensures Step(seed, Newborn(start), Advertisement(usn, nt, location),
                 Lonely(start, usn, Advert(nt, location, NoResponse)))
  {
    hide Schedules;
    SilentStep(seed, Newborn(start), Advertisement(usn, nt, location),
               Lonely(start, usn, Advert(nt, location, NoResponse)));
    hide Step;
  }

  /** What two searches for everything and a flush do to an advertisement. */
  lemma AskedTwice(seed: u32, a: Advert, e: Event, e': Event, now: int)
    requires IsSearch(e) && IsSearch(e') && e.wasFrom != e'.wasFrom && a.response.NoResponse?
    requires TargetOf(e) == TargetOf(e') == "ssdp:all" && ReplyAt(seed, e) <= now
    ensures var b := AdvertAfter(seed, a, e); var c := AdvertAfter(seed, b, e');
      c.response.Multicast? && AdvertAfter(seed, c, Timeout(now)) == a
    ensures AdvertAfter(seed, a, e).notificationType == a.notificationType
  {
    TargetMatchPreorder(a.notificationType, "", "");
    hide Parsed, TargetMatch, Schedules, TargetOf, ReplyAt;
  }

  lemma FourSteps(seed: u32, start: int, events: seq<Event>, trace: seq<Snapshot>)
    requires |events| == 4 && |trace| == 5 && trace[0] == Newborn(start)
    requires !Panics(events[0]) && !Panics(events[1]) && !Panics(events[2]) && !Panics(events[3])
    requires Step(seed, trace[0], events[0], trace[1]) && Step(seed, trace[1], events[1], trace[2])
    requires Step(seed, trace[2], events[2], trace[3]) && Step(seed, trace[3], events[3], trace[4])
    ensures EngineRun(seed, start, events, trace)
  {
    hide Step, Panics;
    forall i | 0 <= i < 4
      ensures !Panics(events[i]) && Step(seed, trace[i], events[i], trace[i + 1])
    {
      assert i == 0 || i == 1 || i == 2 || i == 3;
    }
  }

  lemma BothAsk(events: seq<Event>, trace: seq<Snapshot>, usn: string)
    requires |events| == 4 && |trace| == 5 && Asks(events, trace, 1, usn) && Asks(events, trace, 2, usn)
    ensures Askers(events, trace, 3, 0, usn) == {events[1].wasFrom, events[2].wasFrom}
  {
    hide Schedules, TargetOf, TargetMatch;
    assert Askers(events, trace, 1, 0, usn) == {};
    AskersStep(events, trace, 1, 0, usn);
    AskersStep(events, trace, 2, 0, usn);
    hide Asks, Askers;
  }

  /** A search for everything asks for any advertisement that is there. */
  lemma AllAsks(events: seq<Event>, trace: seq<Snapshot>, j: nat, usn: string)
    requires j < |events| < |trace| && usn in trace[j].adverts
    requires IsSearch(events[j]) && TargetOf(events[j]) == "ssdp:all"
    ensures Asks(events, trace, j, usn)
  {
    hide Schedules, TargetOf, TargetMatch;
    TargetMatchPreorder(trace[j].adverts[usn].notificationType, "", "");
  }

  lemma SearchSafe(e: Event)
    requires IsSearch(e)
    ensures !Panics(e)
  {
    hide Parsed;
  }

  /** The run of an engine with one advertisement, asked for everything twice and then flushed. */
  lemma LonelyRun(seed: u32, usn: string, a: Advert, e1: Event, e2: Event, now: int)
    returns (events: seq<Event>, trace: seq<Snapshot>)
    requires IsSearch(e1) && IsSearch(e2) && e1.wasFrom != e2.wasFrom && a.response.NoResponse?
    requires TargetOf(e1) == TargetOf(e2) == "ssdp:all" && ReplyAt(seed, e1) <= now
    ensures |trace| == 5 && |events| == 4 && EngineRun(seed, now + 1, events, trace)
    ensures events[1..] == [e1, e2, Timeout(now)]
    ensures usn in trace[1].adverts && usn in trace[2].adverts && usn in trace[3].adverts
    ensures trace[3].adverts[usn].response.Multicast?
    ensures trace[4] == Lonely(now + 1, usn, a)
  {
    hide Schedules, TargetOf, ReplyAt;
    SearchSafe(e1);
    SearchSafe(e2);
    hide AdvertAfter, Step, Panics;
    AskedTwice(seed, a, e1, e2, now);
    var b := AdvertAfter(seed, a, e1);
    var c := AdvertAfter(seed, b, e2);
    var start := now + 1;
    LonelyStarts(seed, start, usn, a.notificationType, a.location);
    LonelyStep(seed, start, usn, a, e1);
    LonelyStep(seed, start, usn, b, e2);
    LonelyStep(seed, start, usn, c, Timeout(now));
    events := [Advertisement(usn, a.notificationType, a.location), e1, e2, Timeout(now)];
    trace := [Newborn(start), Lonely(start, usn, a), Lonely(start, usn, b), Lonely(start, usn, c),
              Lonely(start, usn, a)];
    hide EngineRun;
    FourSteps(seed, start, events, trace);
  }

  /** A run in which two searchers are waiting, nobody is answered, and the reply is forgotten. */
  lemma DroppedReplies(seed: u32, usn: string, nt: string, location: string, x: SocketAddr, y: SocketAddr, to: Ip)
    returns (events: seq<Event>, trace: seq<Snapshot>)
    requires x != y
    ensures |trace| == 5 && |events| == 4 && EngineRun(seed, 1011, events, trace)
    ensures Askers(events, trace, 3, 0, usn) == {x, y} && events[3] == Timeout(1010)
    ensures trace[4].log == [] && usn in trace[4].adverts && trace[4].adverts[usn].response == NoResponse
  {
    hide Parsed, Delay, EngineRun, Askers, SearchText;
    var p := SearchText("1");
    SearchTextReads("1");
    DelayBounds(seed, 1);
    var e1, e2 := Data(Some(p), to, x, 0), Data(Some(p), to, y, 0);
    events, trace := LonelyRun(seed, usn, Advert(nt, location, NoResponse), e1, e2, 1010);
    assert events[1] == events[1..][0] && events[2] == events[1..][1] && events[3] == events[1..][2];
    AllAsks(events, trace, 1, usn);
    AllAsks(events, trace, 2, usn);
    BothAsk(events, trace, usn);
  }
}
