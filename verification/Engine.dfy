/** The SSDP engine: a state machine over interfaces, subscriptions, advertisements and
  * scheduled replies. Sockets are a log of what was sent; instants are milliseconds. Maps
  * are iterated in no particular order.
  */
module Engines {
  import opened Machine
  import opened Targets
  import opened Messages
  import opened RefreshTimers
  import opened EngineState
  import opened EngineRuns

  lemma CallsStep(calls: seq<(nat, Notification)>, searches: seq<string>, n: Notification, j: nat)
    requires j < |searches|
    ensures calls + CallsFrom(searches, n, j)
         == (if TargetMatch(searches[j], n.notificationType) then calls + [(j, n)] else calls)
            + CallsFrom(searches, n, j + 1)
  {
    hide TargetMatch;
  }

  /** Each moment is the one before after a timeout at `now`. */
  ghost predicate Timeouts(seed: u32, now: int, trace: seq<Snapshot>) {
    forall i :: 0 <= i < |trace| - 1 ==> Step(seed, trace[i], Timeout(now), trace[i + 1])
  }

  lemma TimeoutsNone(seed: u32, now: int, s: Snapshot)
    ensures Timeouts(seed, now, [s])
  {
    hide Step;
  }

  lemma TimeoutsMore(seed: u32, now: int, trace: seq<Snapshot>, s': Snapshot)
    requires |trace| > 0 && Timeouts(seed, now, trace) && Step(seed, trace[|trace| - 1], Timeout(now), s')
    ensures Timeouts(seed, now, trace + [s'])
  {
    hide Step;
  }

  class Engine {
    var interfaces: Interfaces
    var searches: seq<string>
    var adverts: Adverts
    const timer: RefreshTimer
    const randomSeed: u32
    ghost var log: seq<Datagram>
    ghost var calls: seq<(nat, Notification)>

    ghost predicate Valid() {
      timer.randomSeed == randomSeed
    }

    ghost function View(): Snapshot
      reads this, timer
    {
      Snapshot(interfaces, searches, adverts, timer.nextSalvo, timer.phase, log, calls)
    }

    constructor (randomSeed: u32, now: int)
      ensures Valid() && fresh(timer) && this.randomSeed == randomSeed
      ensures View() == Newborn(now)
    {
      interfaces, searches, adverts := map[], [], map[];
      timer := new RefreshTimer(randomSeed, now);
      this.randomSeed := randomSeed;
      log, calls := [], [];
    }

    // ---- sending ----

    ghost method Logged(d: Datagram)
      modifies this`log
      ensures log == old(log) + [d]
    {
      log := log + [d];
    }

    /** `notify_on`, `search_on` or `byebye_on`. */
    method SendOn(kind: Kind, source: Ip)
      modifies this`log
      ensures log == old(log) + [Sends(kind, source)]
    {
      var text := Build(MAX_PACKET_SIZE, PiecesOf(kind, source));
      Logged(Datagram(MULTICAST, source, text));
    }

    /** From every address of one interface. */
    method SendOnInterface(kind: Kind, ix: nat)
      requires ix in interfaces && interfaces[ix].up
      modifies this`log
      ensures old(log) <= log
      ensures forall ip :: ip in interfaces[ix].ips ==> Since(log, |old(log)|, Sends(kind, ip))
      ensures forall k :: |old(log)| <= k < |log| ==> FromCurrent(interfaces, kind, log[k])
    {
      hide Sends;
      var ips := interfaces[ix].ips;
      for i := 0 to |ips|
        invariant old(log) <= log
        invariant forall m :: 0 <= m < i ==> Since(log, |old(log)|, Sends(kind, ips[m]))
        invariant forall k :: |old(log)| <= k < |log| ==> FromCurrent(interfaces, kind, log[k])
      {
        ghost var was := log;
        SendOn(kind, ips[i]);
        assert log[|was|] == Sends(kind, ips[i]);
        assert FromCurrent(interfaces, kind, log[|was|]) by {
          assert Current(interfaces, ix, ips[i]);
        }
        hide FromCurrent;
        forall m | 0 <= m < i
          ensures Since(log, |old(log)|, Sends(kind, ips[m]))
        {
          SinceGrows(was, log, |old(log)|, |old(log)|, Sends(kind, ips[m]));
        }
      }
    }

    /** `notify_on_all`, `search_on_all` or `byebye_on_all`: from every address of every
      * interface that is up, and from nowhere else.
      */
    method SendOnAll(kind: Kind)
      modifies this`log
      ensures old(log) <= log && Broadcast(interfaces, kind, log, |old(log)|)
    {
      var keys := interfaces.Keys;
      while keys != {}
        invariant keys <= interfaces.Keys && old(log) <= log
        invariant forall ix: nat, ip :: ix !in keys && Current(interfaces, ix, ip) ==>
          Since(log, |old(log)|, Sends(kind, ip))
        invariant forall k :: |old(log)| <= k < |log| ==> FromCurrent(interfaces, kind, log[k])
        decreases keys
      {
        var ix :| ix in keys;
        keys := keys - {ix};
        ghost var was := log;
        if interfaces[ix].up {
          SendOnInterface(kind, ix);
        }
        forall jx: nat, ip | jx !in keys && Current(interfaces, jx, ip)
          ensures Since(log, |old(log)|, Sends(kind, ip))
        {
          if jx != ix {
            SinceGrows(was, log, |old(log)|, |old(log)|, Sends(kind, ip));
          } else {
            SinceGrows(log, log, |was|, |old(log)|, Sends(kind, ip));
          }
        }
      }
    }

    /** `send_all`: introduces each of these addresses to the network. */
    method SendAll(ips: seq<Ip>)
      modifies this`log
      ensures old(log) <= log
      ensures forall ip :: ip in ips ==> Introduced(adverts, searches, log, |old(log)|, ip)
      ensures forall k :: |old(log)| <= k < |log| ==> IntroducesOne(adverts, searches, ips, log[k])
    {
      hide Introduced, Introduces;
      for i := 0 to |ips|
        invariant old(log) <= log
        invariant forall m :: 0 <= m < i ==> Introduced(adverts, searches, log, |old(log)|, ips[m])
        invariant forall k :: |old(log)| <= k < |log| ==> IntroducesOne(adverts, searches, ips, log[k])
      {
        ghost var was := log;
        Introduce(ips[i]);
        forall m | 0 <= m < i
          ensures Introduced(adverts, searches, log, |old(log)|, ips[m])
        {
          IntroducedGrows(adverts, searches, was, log, |old(log)|, |old(log)|, ips[m]);
        }
        IntroducedGrows(adverts, searches, log, log, |was|, |old(log)|, ips[i]);
        assert forall k :: |was| <= k < |log| ==> IntroducesOne(adverts, searches, ips, log[k]);
        hide IntroducesOne;
      }
    }

    /** The body of `send_all`: one search for everything, or one for each type; and all the
      * advertisements.
      */
    method Introduce(ip: Ip)
      modifies this`log
      ensures old(log) <= log
      ensures Introduced(adverts, searches, log, |old(log)|, ip)
      ensures forall k :: |old(log)| <= k < |log| ==> Introduces(adverts, searches, ip, log[k])
    {
      hide Sends, Says;
      IntroduceSearches(ip);
      ghost var searched := log;
      IntroduceAdverts(ip);
      forall j: nat | j < |searches|
        ensures Since(log, |old(log)|, Sends(SearchOf(searches[j]), ip))
             || Since(log, |old(log)|, Sends(SearchOf("ssdp:all"), ip))
      {
        if Since(searched, |old(log)|, Sends(SearchOf("ssdp:all"), ip)) {
          SinceGrows(searched, log, |old(log)|, |old(log)|, Sends(SearchOf("ssdp:all"), ip));
        } else {
          SinceGrows(searched, log, |old(log)|, |old(log)|, Sends(SearchOf(searches[j]), ip));
        }
      }
      forall usn | usn in adverts
        ensures Since(log, |old(log)|, Sends(AliveOf(usn, adverts[usn].notificationType, adverts[usn].location), ip))
      {
        SinceGrows(log, log, |searched|, |old(log)|,
                   Sends(AliveOf(usn, adverts[usn].notificationType, adverts[usn].location), ip));
      }
      hide Introduces;
    }

    method IntroduceSearches(ip: Ip)
      modifies this`log
      ensures old(log) <= log
      ensures forall j: nat :: j < |searches| ==>
        || Since(log, |old(log)|, Sends(SearchOf(searches[j]), ip))
        || Since(log, |old(log)|, Sends(SearchOf("ssdp:all"), ip))
      ensures forall k :: |old(log)| <= k < |log| ==> Introduces(adverts, searches, ip, log[k])
    {
      hide Sends;
      if exists j :: 0 <= j < |searches| && searches[j] == "ssdp:all" {
        SendOn(SearchOf("ssdp:all"), ip);
        assert log[|old(log)|] == Sends(SearchOf("ssdp:all"), ip);
        assert Says(adverts, searches, SearchOf("ssdp:all"));
        return;
      }
      for j := 0 to |searches|
        invariant old(log) <= log
        invariant forall m :: 0 <= m < j ==> Since(log, |old(log)|, Sends(SearchOf(searches[m]), ip))
        invariant forall k :: |old(log)| <= k < |log| ==> Introduces(adverts, searches, ip, log[k])
      {
        ghost var was := log;
        SendOn(SearchOf(searches[j]), ip);
        assert log[|was|] == Sends(SearchOf(searches[j]), ip);
        assert Introduces(adverts, searches, ip, log[|was|]) by {
          assert Says(adverts, searches, SearchOf(searches[j]));
        }
        hide Introduces;
        forall m | 0 <= m < j
          ensures Since(log, |old(log)|, Sends(SearchOf(searches[m]), ip))
        {
          SinceGrows(was, log, |old(log)|, |old(log)|, Sends(SearchOf(searches[m]), ip));
        }
      }
    }

    method IntroduceAdverts(ip: Ip)
      modifies this`log
      ensures old(log) <= log
      ensures forall usn :: usn in adverts ==>
        Since(log, |old(log)|, Sends(AliveOf(usn, adverts[usn].notificationType, adverts[usn].location), ip))
      ensures forall k :: |old(log)| <= k < |log| ==> Introduces(adverts, searches, ip, log[k])
    {
      hide Sends;
      var keys := adverts.Keys;
      while keys != {}
        invariant keys <= adverts.Keys && old(log) <= log
        invariant forall usn :: usn in adverts && usn !in keys ==>
          Since(log, |old(log)|, Sends(AliveOf(usn, adverts[usn].notificationType, adverts[usn].location), ip))
        invariant forall k :: |old(log)| <= k < |log| ==> Introduces(adverts, searches, ip, log[k])
        decreases keys
      {
        var key :| key in keys;
        keys := keys - {key};
        ghost var was := log;
        var kind := AliveOf(key, adverts[key].notificationType, adverts[key].location);
        SendOn(kind, ip);
        assert log[|was|] == Sends(kind, ip);
        assert Introduces(adverts, searches, ip, log[|was|]) by {
          assert Says(adverts, searches, kind);
        }
        hide Introduces;
        forall usn | usn in adverts && usn !in keys && usn != key
          ensures Since(log, |old(log)|, Sends(AliveOf(usn, adverts[usn].notificationType, adverts[usn].location), ip))
        {
          SinceGrows(was, log, |old(log)|, |old(log)|,
                     Sends(AliveOf(usn, adverts[usn].notificationType, adverts[usn].location), ip));
        }
      }
    }

    // ---- advertisements, subscriptions and the network ----

    /** Announced at once from every current address; replaces any of the same name. */
    method Advertise(usn: string, notificationType: string, location: string)
      modifies this`log, this`adverts
      ensures Step(randomSeed, old(View()), Advertisement(usn, notificationType, location), View())
    {
      hide Broadcast, Parsed;
      SendOnAll(AliveOf(usn, notificationType, location));
      adverts := adverts[usn := Advert(notificationType, location, NoResponse)];
    }

    method Subscribe(notificationType: string)
      modifies this`log, this`searches
      ensures Step(randomSeed, old(View()), Subscription(notificationType), View())
    {
      hide Broadcast, Parsed;
      SendOnAll(SearchOf(notificationType));
      searches := searches + [notificationType];
    }

    /** `byebye_on_all`, with the arguments of its call of `byebye_on` in the order it has them. */
    method ByeByeOnAll(notificationType: string, uniqueServiceName: string)
      modifies this`log
      ensures old(log) <= log
      ensures Broadcast(interfaces, ByeByeOf(notificationType, uniqueServiceName), log, |old(log)|)
    {
      SendOnAll(ByeByeOf(notificationType, uniqueServiceName));
    }

    /** A farewell from every current address; nothing for a name that is not advertised. */
    method Deadvertise(usn: string)
      modifies this`log, this`adverts
      ensures Step(randomSeed, old(View()), Withdrawal(usn), View())
    {
      hide Broadcast, Parsed;
      if usn in adverts {
        var a := adverts[usn];
        adverts := adverts - {usn};
        ByeByeOnAll(a.notificationType, usn);
      }
    }

    /** `on_new_link_event`; `joins` is whether joining the multicast group works. */
    method OnNewLink(ix: nat, multicast: bool, up: bool, joins: bool) returns (ok: bool)
      modifies this`log, this`interfaces
      ensures Step(randomSeed, old(View()), NewLink(ix, multicast, up, joins), View())
      ensures ok == (!multicast || ix in old(interfaces) || joins)
    {
      hide Introduced, Introduces, Parsed;
      if !multicast {
        return true;
      }
      var doSend := false;
      if ix in interfaces {
        doSend := up && !interfaces[ix].up;
        interfaces := interfaces[ix := interfaces[ix].(up := up)];
      } else {
        if !joins {
          return false;
        }
        interfaces := interfaces[ix := Interface([], up)];
      }
      if doSend {
        NowCurrent(ix, interfaces[ix].ips, old(interfaces));
      }
      return true;
    }

    /** Introduces addresses of interface `ix` that have just become current. */
    method NowCurrent(ix: nat, ips: seq<Ip>, ghost before: Interfaces)
      requires forall i: nat, ip :: NewlyCurrent(before, interfaces, i, ip) <==> i == ix && ip in ips
      modifies this`log
      ensures old(log) <= log && Welcomed(before, interfaces, adverts, searches, log, |old(log)|)
    {
      hide Introduced, Introduces;
      SendAll(ips);
      forall k | |old(log)| <= k < |log|
        ensures IntroducesNew(before, interfaces, adverts, searches, log[k])
      {
        assert IntroducesOne(adverts, searches, ips, log[k]);
        ghost var ip :| ip in ips && Introduces(adverts, searches, ip, log[k]);
        assert NewlyCurrent(before, interfaces, ix, ip);
      }
    }

    method OnDelLink(ix: nat, leaves: bool) returns (ok: bool)
      modifies this`interfaces
      ensures Step(randomSeed, old(View()), DelLink(ix, leaves), View())
      ensures ok == (ix !in old(interfaces) || leaves)
    {
      hide Introduced, Parsed;
      if ix in interfaces {
        interfaces := interfaces - {ix};
        return leaves;
      }
      return true;
    }

    method OnNewAddr(ix: nat, ip: Ip)
      modifies this`log, this`interfaces
      ensures Step(randomSeed, old(View()), NewAddr(ix, ip), View())
    {
      hide Introduced, Introduces, Parsed;
      if ip.V4? && ix in interfaces && ip !in interfaces[ix].ips {
        interfaces := interfaces[ix := interfaces[ix].(ips := interfaces[ix].ips + [ip])];
        if interfaces[ix].up {
          NowCurrent(ix, [ip], old(interfaces));
        }
      }
    }

    method OnDelAddr(ix: nat, ip: Ip)
      modifies this`interfaces
      ensures Step(randomSeed, old(View()), DelAddr(ix, ip), View())
    {
      hide Step, WithoutIp;
      DelAddrStep(randomSeed, View(), ix, ip);
      if ix in interfaces {
        interfaces := interfaces[ix := WithoutIp(interfaces[ix], ip)];
      }
    }

    // ---- timeouts ----

    /** `refresh`: everything again, from everywhere current. */
    method Refresh()
      modifies this`log
      ensures old(log) <= log && Renewed(interfaces, adverts, searches, log, |old(log)|)
      ensures Step(randomSeed, old(View()), Refreshing, View())
    {
      hide IntroducesCurrent, Sends, Parsed;
      AnnounceAgain();
      ghost var announced := log;
      SearchAgain();
      forall ix: nat, ip | Current(interfaces, ix, ip)
        ensures Introduced(adverts, searches, log, |old(log)|, ip)
      {
        Reintroduced(adverts, searches, old(log), announced, log, ip);
      }
      hide Introduced, Since;
    }

    /** The announcing half of `refresh`. */
    method AnnounceAgain()
      modifies this`log
      ensures old(log) <= log
      ensures forall usn, ix: nat, ip :: usn in adverts && Current(interfaces, ix, ip) ==>
        Since(log, |old(log)|, Sends(AliveOf(usn, adverts[usn].notificationType, adverts[usn].location), ip))
      ensures forall k :: |old(log)| <= k < |log| ==> IntroducesCurrent(interfaces, adverts, searches, log[k])
    {
      hide Sends, IntroducesCurrent;
      var keys := adverts.Keys;
      while keys != {}
        invariant keys <= adverts.Keys && old(log) <= log
        invariant forall usn, ix: nat, ip :: usn in adverts && usn !in keys && Current(interfaces, ix, ip) ==>
          Since(log, |old(log)|, Sends(AliveOf(usn, adverts[usn].notificationType, adverts[usn].location), ip))
        invariant forall k :: |old(log)| <= k < |log| ==> IntroducesCurrent(interfaces, adverts, searches, log[k])
        decreases keys
      {
        var key :| key in keys;
        keys := keys - {key};
        ghost var was := log;
        var kind := AliveOf(key, adverts[key].notificationType, adverts[key].location);
        SendOnAll(kind);
        forall k | |was| <= k < |log|
          ensures IntroducesCurrent(interfaces, adverts, searches, log[k])
        {
          BroadcastIntroduces(interfaces, adverts, searches, kind, log[k]);
        }
        forall usn, ix: nat, ip | usn in adverts && usn !in keys && Current(interfaces, ix, ip)
          ensures Since(log, |old(log)|, Sends(AliveOf(usn, adverts[usn].notificationType, adverts[usn].location), ip))
        {
          var d := Sends(AliveOf(usn, adverts[usn].notificationType, adverts[usn].location), ip);
          if usn == key {
            SinceGrows(log, log, |was|, |old(log)|, d);
          } else {
            SinceGrows(was, log, |old(log)|, |old(log)|, d);
          }
        }
        hide FromCurrent;
      }
    }

    /** The searching half of `refresh`. */
    method SearchAgain()
      modifies this`log
      ensures old(log) <= log
      ensures forall j: nat, ix: nat, ip :: j < |searches| && Current(interfaces, ix, ip) ==>
        || Since(log, |old(log)|, Sends(SearchOf(searches[j]), ip))
        || Since(log, |old(log)|, Sends(SearchOf("ssdp:all"), ip))
      ensures forall k :: |old(log)| <= k < |log| ==> IntroducesCurrent(interfaces, adverts, searches, log[k])
    {
      hide Sends, IntroducesCurrent;
      if exists j :: 0 <= j < |searches| && searches[j] == "ssdp:all" {
        SendOnAll(SearchOf("ssdp:all"));
        forall k | |old(log)| <= k < |log|
          ensures IntroducesCurrent(interfaces, adverts, searches, log[k])
        {
          BroadcastIntroduces(interfaces, adverts, searches, SearchOf("ssdp:all"), log[k]);
        }
        return;
      }
      for j := 0 to |searches|
        invariant old(log) <= log
        invariant forall m: nat, ix: nat, ip :: m < j && Current(interfaces, ix, ip) ==>
          Since(log, |old(log)|, Sends(SearchOf(searches[m]), ip))
        invariant forall k :: |old(log)| <= k < |log| ==> IntroducesCurrent(interfaces, adverts, searches, log[k])
      {
        ghost var was := log;
        SendOnAll(SearchOf(searches[j]));
        forall k | |was| <= k < |log|
          ensures IntroducesCurrent(interfaces, adverts, searches, log[k])
        {
          BroadcastIntroduces(interfaces, adverts, searches, SearchOf(searches[j]), log[k]);
        }
        forall m: nat, ix: nat, ip | m < j + 1 && Current(interfaces, ix, ip)
          ensures Since(log, |old(log)|, Sends(SearchOf(searches[m]), ip))
        {
          if m == j {
            SinceGrows(log, log, |was|, |old(log)|, Sends(SearchOf(searches[m]), ip));
          } else {
            SinceGrows(was, log, |old(log)|, |old(log)|, Sends(SearchOf(searches[m]), ip));
          }
        }
        hide FromCurrent;
      }
    }

    method ResetRefreshTimer(now: int)
      modifies timer
      ensures Step(randomSeed, old(View()), TimerReset(now), View())
    {
      hide Introduced, Parsed;
      timer.Reset(now);
    }

    /** Answers one advertisement's reply if it is due. */
    method Flush(usn: string, now: int)
      requires usn in adverts
      modifies this`log, this`adverts
      ensures adverts == old(adverts)[usn := Flushed(old(adverts)[usn], now)]
      ensures AnsweredOne(interfaces, usn, old(adverts)[usn], now, old(log), log)
    {
      hide Sends, FromCurrent;
      var a := adverts[usn];
      match a.response {
        case Multicast(at) =>
          if now >= at {
            SendOnAll(AliveOf(usn, a.notificationType, a.location));
            adverts := adverts[usn := a.(response := NoResponse)];
          }
        case Unicast(at, wasFrom, wasTo, responseType) =>
          if now >= at {
            var text := Build(MAX_PACKET_SIZE,
                              ResponsePieces(responseType, usn, RewriteHost(a.location, IpText(wasTo))));
            Logged(Datagram(wasFrom, wasTo, text));
            assert log[|old(log)|] == Answers(usn, a.location, a.response);
            adverts := adverts[usn := a.(response := NoResponse)];
          }
        case NoResponse =>
      }
    }

    /** The loop of `handle_timeout` over the advertisements. */
    method FlushAll(now: int)
      modifies this`log, this`adverts
      ensures old(log) <= log
      ensures adverts.Keys == old(adverts).Keys
      ensures forall usn :: usn in adverts ==> adverts[usn] == Flushed(old(adverts)[usn], now)
      ensures AnsweredUpTo(interfaces, old(adverts), {}, now, log, |old(log)|)
    {
      hide Flushed, Due, Answered, Replies, RepliesDue;
      var keys := adverts.Keys;
      while keys != {}
        invariant keys <= adverts.Keys == old(adverts).Keys && old(log) <= log
        invariant forall usn :: usn in adverts ==>
          adverts[usn] == if usn in keys then old(adverts)[usn] else Flushed(old(adverts)[usn], now)
        invariant AnsweredUpTo(interfaces, old(adverts), keys, now, log, |old(log)|)
        decreases keys
      {
        var key :| key in keys;
        ghost var was := log;
        Flush(key, now);
        AnswerStep(interfaces, old(adverts), keys, now, was, log, |old(log)|, key);
        hide AnsweredUpTo;
        keys := keys - {key};
      }
    }

    /** Refreshes if that is due, and answers every searcher whose reply is due. */
    method HandleTimeout(now: int)
      requires Valid()
      modifies this`log, this`adverts, timer
      ensures Step(randomSeed, old(View()), Timeout(now), View())
    {
      hide Renewed, AnsweredUpTo, Flushed, Parsed, Period, NextPhase, Step;
      if now >= timer.NextRefresh() {
        Refresh();
        timer.UpdateRefresh(now);
      }
      ghost var renewed := log;
      FlushAll(now);
      assert SentAtTimeout(old(View()), now, log);
      TimeoutStep(randomSeed, old(View()), now, View());
    }

    /** The next instant at which `handle_timeout` has anything to do. */
    method PollTimeout() returns (wake: int)
      ensures wake <= timer.nextSalvo
      ensures forall usn :: usn in adverts && DueAt(adverts[usn].response).Some? ==>
        wake <= DueAt(adverts[usn].response).value
      ensures wake == timer.nextSalvo
        || exists usn :: usn in adverts && DueAt(adverts[usn].response) == Some(wake)
    {
      wake := timer.NextRefresh();
      var keys := adverts.Keys;
      while keys != {}
        invariant keys <= adverts.Keys && wake <= timer.nextSalvo
        invariant forall usn :: usn in adverts && usn !in keys && DueAt(adverts[usn].response).Some? ==>
          wake <= DueAt(adverts[usn].response).value
        invariant wake == timer.nextSalvo
          || exists usn :: usn in adverts && DueAt(adverts[usn].response) == Some(wake)
        decreases keys
      {
        var key :| key in keys;
        keys := keys - {key};
        match adverts[key].response {
          case Multicast(at) => wake := if at < wake then at else wake;
          case Unicast(at, _, _, _) => wake := if at < wake then at else wake;
          case NoResponse =>
        }
      }
    }

    /** The caller's loop: `while poll_timeout() <= now { handle_timeout(now) }`. It ends, after
      * at most one call more than the whole six-second periods overdue, with nothing due; and
      * it is nothing but that many timeouts.
      */
    method CatchUp(now: int) returns (n: nat, ghost trace: seq<Snapshot>)
      requires Valid()
      modifies this`log, this`adverts, timer
      ensures timer.nextSalvo > now
      ensures forall usn :: usn in adverts ==> !Due(adverts[usn].response, now)
      ensures n <= if old(timer.nextSalvo) > now then 1 else (now - old(timer.nextSalvo)) / 6000 + 1
      ensures |trace| == n + 1 && trace[0] == old(View()) && trace[n] == View()
      ensures Timeouts(randomSeed, now, trace)
    {
      hide Step, Timeouts;
      n := 0;
      trace := [View()];
      TimeoutsNone(randomSeed, now, View());
      var wake := PollTimeout();
      while wake <= now
        invariant |trace| == n + 1 && trace[0] == old(View()) && trace[n] == View()
        invariant Timeouts(randomSeed, now, trace)
        invariant wake <= timer.nextSalvo
        invariant wake > now ==> forall usn :: usn in adverts ==> !Due(adverts[usn].response, now)
        invariant n > 0 && wake <= now ==> timer.nextSalvo <= now
        invariant timer.nextSalvo >= old(timer.nextSalvo)
        invariant old(timer.nextSalvo) > now ==> timer.nextSalvo == old(timer.nextSalvo) && n <= 1
        invariant old(timer.nextSalvo) <= now ==>
          6000 * n <= (if n == 0 then 0 else timer.nextSalvo - old(timer.nextSalvo))
        invariant old(timer.nextSalvo) <= now ==> n <= (now - old(timer.nextSalvo)) / 6000 + 1
        invariant n == 0 ==> timer.nextSalvo == old(timer.nextSalvo)
        decreases if n == 0 then 1 else 0, now - timer.nextSalvo
      {
        ghost var s := View();
        HandleTimeout(now);
        TimeoutMoves(randomSeed, s, now, View());
        TimeoutsMore(randomSeed, now, trace, View());
        trace := trace + [View()];
        n := n + 1;
        wake := PollTimeout();
      }
    }

    // ---- incoming datagrams ----

    method CallSubscribers(notification: Notification)
      modifies this`calls
      ensures calls == old(calls) + CallsFrom(searches, notification, 0)
    {
      hide TargetMatch;
      ghost var all := CallsFrom(searches, notification, 0);
      for j := 0 to |searches|
        invariant calls + CallsFrom(searches, notification, j) == old(calls) + all
      {
        CallsStep(calls, searches, notification, j);
        if TargetMatch(searches[j], notification.notificationType) {
          calls := calls + [(j, notification)];
        }
      }
    }

    /** The loop of `on_data` over the advertisements, for a search. */
    method OnSearch(wasFrom: SocketAddr, wasTo: Ip, target: string, replyAt: int)
      modifies this`adverts
      ensures adverts.Keys == old(adverts).Keys
      ensures forall usn :: usn in adverts ==>
        adverts[usn] == Scheduled(old(adverts)[usn], wasFrom, wasTo, target, replyAt)
    {
      hide Scheduled;
      var keys := adverts.Keys;
      while keys != {}
        invariant keys <= adverts.Keys == old(adverts).Keys
        invariant forall usn :: usn in adverts ==>
          adverts[usn] == if usn in keys then old(adverts)[usn]
                          else Scheduled(old(adverts)[usn], wasFrom, wasTo, target, replyAt)
        decreases keys
      {
        var key :| key in keys;
        keys := keys - {key};
        adverts := adverts[key := Scheduled(adverts[key], wasFrom, wasTo, target, replyAt)];
      }
    }

    /** `on_data`. The reply delay is a remainder, so a search with MX 0 divides by zero. */
    method OnData(packet: Option<string>, wasTo: Ip, wasFrom: SocketAddr, now: int) returns (panicked: bool)
      modifies this`adverts, this`calls
      ensures panicked <==> Panics(Data(packet, wasTo, wasFrom, now))
      ensures panicked ==> View() == old(View())
      ensures !panicked ==> Step(randomSeed, old(View()), Data(packet, wasTo, wasFrom, now), View())
    {
      hide Parsed, Scheduled, CallsFrom, Delay, Introduced;
      var m := Parse(packet);
      panicked := false;
      match m {
        case Ok(NotifyAlive(nt, usn, location)) => CallSubscribers(Alive(nt, usn, location));
        case Ok(NotifyByeBye(nt, usn)) => CallSubscribers(ByeBye(nt, usn));
        case Ok(Response(st, usn, location)) => CallSubscribers(Alive(st, usn, location));
        case Ok(Search(target, mx)) =>
          if mx == 0 {
            return true;
          }
          OnSearch(wasFrom, wasTo, target, now + Delay(randomSeed, mx));
        case Err(_) =>
      }
    }

    /** One event, whichever it is. */
    method Handle(e: Event) returns (panicked: bool)
      requires Valid()
      modifies this, timer
      ensures panicked <==> Panics(e)
      ensures panicked ==> View() == old(View())
      ensures !panicked ==> Step(randomSeed, old(View()), e, View())
    {
      hide Step, Parsed;
      panicked := false;
      match e {
        case NewLink(ix, multicast, up, joins) => var _ := OnNewLink(ix, multicast, up, joins);
        case DelLink(ix, leaves) => var _ := OnDelLink(ix, leaves);
        case NewAddr(ix, ip) => OnNewAddr(ix, ip);
        case DelAddr(ix, ip) => OnDelAddr(ix, ip);
        case Subscription(notificationType) => Subscribe(notificationType);
        case Advertisement(usn, notificationType, location) => Advertise(usn, notificationType, location);
        case Withdrawal(usn) => Deadvertise(usn);
        case Timeout(now) => HandleTimeout(now);
        case Refreshing => Refresh();
        case TimerReset(now) => ResetRefreshTimer(now);
        case Data(packet, wasTo, wasFrom, now) => panicked := OnData(packet, wasTo, wasFrom, now);
      }
    }
  }

  lemma RunExtends(seed: u32, start: int, events: seq<Event>, trace: seq<Snapshot>, e: Event, s': Snapshot)
    requires EngineRun(seed, start, events, trace) && |trace| == |events| + 1
    requires !Panics(e) && Step(seed, trace[|events|], e, s')
    ensures EngineRun(seed, start, events + [e], trace + [s'])
  {
    hide Step, Panics;
    var events', trace' := events + [e], trace + [s'];
    forall i | 0 <= i < |events'|
      ensures !Panics(events'[i]) && Step(seed, trace'[i], events'[i], trace'[i + 1])
    {
      if i < |events| {
        assert events'[i] == events[i] && trace'[i] == trace[i] && trace'[i + 1] == trace[i + 1];
      }
    }
  }

  /** A new engine taken through any sequence of events, or as far as the first that makes it
    * panic: its moments are a run. So whatever happened, every current advertisement has been
    * announced, and every subscription searched for, from each address of each interface that
    * is up, since both became current; and each reply still to be made stands for exactly
    * those who have asked since the last.
    */
  method Run(seed: u32, start: int, events: seq<Event>)
    returns (engine: Engine, n: nat, ghost trace: seq<Snapshot>)
    ensures n <= |events| && (n < |events| ==> Panics(events[n]))
    ensures |trace| == n + 1 && EngineRun(seed, start, events[..n], trace) && trace[n] == engine.View()
    ensures CoveredAt(events[..n], trace, n)
    ensures forall usn :: usn in engine.adverts ==>
      exists m: nat :: ClearedBy(events[..n], trace, n, m, usn) && Stands(seed, events[..n], trace, n, m, usn)
  {
    hide Step, Panics, CoveredAt, ClearedBy, Stands;
    engine := new Engine(seed, start);
    trace := [engine.View()];
    n := 0;
    while n < |events|
      invariant n <= |events| && fresh(engine) && fresh(engine.timer)
      invariant engine.Valid() && engine.randomSeed == seed
      invariant |trace| == n + 1 && EngineRun(seed, start, events[..n], trace) && trace[n] == engine.View()
    {
      hide EngineRun;
      var panicked := engine.Handle(events[n]);
      if panicked {
        break;
      }
      RunExtends(seed, start, events[..n], trace, events[n], engine.View());
      trace := trace + [engine.View()];
      assert events[..n + 1] == events[..n] + [events[n]];
      n := n + 1;
    }
    hide EngineRun;
    AlwaysCovered(seed, start, events[..n], trace, n);
    forall usn | usn in engine.adverts
      ensures exists m: nat :: ClearedBy(events[..n], trace, n, m, usn) && Stands(seed, events[..n], trace, n, m, usn)
    {
      ghost var m := RepliesStand(seed, start, events[..n], trace, n, usn);
    }
  }
}
