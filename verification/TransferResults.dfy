/** What the transfer engine promises its callers: the main results about a single
  * transfer, and about an endpoint over an unbounded series of them.
  */
module TransferResults {
  import opened Machine
  import opened Packets
  import opened TransferProtocol
  import opened TransferSafety

  /** In every interleaving: at most two packets in flight, packets retired once each
    * and in the order they moved, and a packet that has moved but is not yet
    * retired is still intact in its slot.
    */
  lemma NothingLostOrRepeated(c: Config, run: seq<State>, i: nat)
    requires Runnable(c) && Run(c, c.toggle, run) && i < |run|
    ensures var s := run[i];
      && (s.pc != Done ==> s.inFlight == s.prepared - |s.retired|)
      && |s.retired| <= |s.sent| <= s.prepared <= |s.retired| + 2
      && s.retired <= s.sent
      && (forall k :: |s.retired| <= k < |s.sent| ==> s.regs.Get(k % 2).Payload() == s.sent[k])
  {
    RunKeeps(c, run, i);
    hide Run, Inv, PlanOf;
    InvCounts(c, PlanOf(c), run[i]);
    InvIntact(c, PlanOf(c), run[i]);
  }

  lemma InvCounts(c: Config, plan: seq<Packet>, s: State)
    requires Inv(c, plan, s)
    ensures s.pc != Done ==> s.inFlight == s.prepared - |s.retired|
    ensures |s.retired| <= |s.sent| <= s.prepared <= |s.retired| + 2
    ensures s.retired <= s.sent
  {
    hide Window, Moved, Completes, Tracks, Control;
  }

  lemma InvIntact(c: Config, plan: seq<Packet>, s: State)
    requires Inv(c, plan, s)
    ensures forall k :: |s.retired| <= k < |s.sent| ==> s.regs.Get(k % 2).Payload() == s.sent[k]
  {
    hide Moved, Completes, Tracks, Control, Retired;
    var r := |s.retired|;
    assert SlotShows(c, plan, s.regs, s.prepared, s.sent, r);
    assert SlotShows(c, plan, s.regs, s.prepared, s.sent, r + 1);
    forall k | r <= k < |s.sent|
      ensures s.regs.Get(k % 2).Payload() == s.sent[k]
    {
      assert k == r || k == r + 1;
    }
  }

  /** USB 2.0 section 8.6: PIDs alternate from the endpoint's toggle, each slot the
    * hardware picks up carries the PID the device is on, and no data-sequence error
    * or discarded duplicate ever comes of it.
    */
  lemma PidsInStep(c: Config, run: seq<State>, i: nat)
    requires Runnable(c) && Run(c, c.toggle, run) && i < |run|
    ensures var s := run[i];
      && (Ready(s) ==>
            && s.regs.Get(s.hwSlot).pid == s.devToggle == (c.toggle != Odd(|s.sent|))
            && |s.sent| < |PlanOf(c)|
            && s.regs.Get(s.hwSlot).last == (|s.sent| == |PlanOf(c)| - 1))
      && s.accepted == s.sent
      && s.error != Some(DataSeqError) && s.pc != Failed(DataSeqError)
  {
    RunKeeps(c, run, i);
    var s := run[i];
    if Ready(s) {
      ReadyShows(c, PlanOf(c), s);
      TransferPlan(c.size, c.packetSize, c.zlp);
    }
  }

  /** A successful IN: the buffer holds the bytes received, in order, cut to the size
    * asked for; beyond them it is untouched. The packets stop at the first short one
    * or at the last one planned.
    */
  lemma InSucceeds(c: Config, run: seq<State>, i: nat)
    requires Runnable(c) && Run(c, c.toggle, run) && i < |run|
    requires c.dir == In && run[i].pc == Done
    ensures var s := run[i]; var total := s.ret.offset; var received := Flat(s.sent);
      && s.retired == s.sent
      && total == Min(c.size, |received|)
      && s.buf == received[..total] + c.buf[total..]
      && 0 < |s.sent| <= |PlanOf(c)|
      && (forall k :: 0 <= k < |s.sent| - 1 ==> |s.sent[k]| == c.packetSize)
      && (|s.sent[|s.sent| - 1]| < c.packetSize || |s.sent| == |PlanOf(c)|)
  {
    RunKeeps(c, run, i);
    var s := run[i];
    TransferPlan(c.size, c.packetSize, c.zlp);
    forall k | 0 <= k < |s.sent| - 1
      ensures |s.sent[k]| == c.packetSize
    {
      assert !Ends(c, PlanOf(c), s.sent, k);
    }
    assert Ends(c, PlanOf(c), s.sent, |s.sent| - 1);
  }

  /** A successful OUT: the device took every packet, and together they are the buffer. */
  lemma OutSucceeds(c: Config, run: seq<State>, i: nat)
    requires Runnable(c) && Run(c, c.toggle, run) && i < |run|
    requires c.dir == Out && run[i].pc == Done
    ensures var s := run[i];
      && Flat(s.accepted) == c.buf[..c.size]
      && |s.accepted| == |PlanOf(c)|
      && s.retired == s.sent && s.buf == c.buf
  {
    RunKeeps(c, run, i);
    var s := run[i];
    var plan := PlanOf(c);
    TransferPlan(c.size, c.packetSize, c.zlp);
    assert Ends(c, plan, s.sent, |s.sent| - 1);
    assert plan[..|plan|] == plan;
  }

  /** `bulk_out_transfer` reports data.len(), but cuts the length to 16 bits first: what
    * it reports is what the device took exactly when the length fits.
    */
  lemma BulkOutCount(packetSize: PacketSize, data: seq<u8>, zlp: ZeroLengthPacket, toggle: bool,
                     others: bool, run: seq<State>, i: nat)
    requires var c := Config(Out, AsU16(|data|), |data|, packetSize, zlp, toggle, data, others);
      Run(c, toggle, run) && i < |run| && run[i].pc == Done
    ensures Flat(run[i].accepted) == data[..AsU16(|data|)]
    ensures |Flat(run[i].accepted)| == |data| <==> |data| <= 65535
  {
    var c := Config(Out, AsU16(|data|), |data|, packetSize, zlp, toggle, data, others);
    OutSucceeds(c, run, i);
  }

  /** A run that panics had such a transfer to do, and such a transfer never succeeds. */
  lemma PanicsOnly(c: Config, run: seq<State>, i: nat)
    requires Runnable(c) && Run(c, c.toggle, run) && i < |run|
    ensures run[i].pc == Panicked ==> IndexesPastEnd(c)
    ensures run[i].pc == Done ==> !IndexesPastEnd(c)
  {
    RunKeeps(c, run, i);
    if run[i].pc == Done {
      TransferPlan(c.size, c.packetSize, c.zlp);
      assert Ends(c, PlanOf(c), run[i].sent, |run[i].sent| - 1);
    }
  }

  /** The shortest such transfer panics before the hardware is even started: a
    * variable-size OUT of exactly one packet.
    */
  lemma PanicsAtOnce(c: Config, s: State)
    requires c.dir == Out && c.zlp.AsNeeded? && c.size == c.packetSize == |c.buf|
    requires Init(c, c.toggle, s)
    ensures IndexesPastEnd(c)
    ensures DriverStep(c, DriverStep(c, s)).pc == Panicked
  {
    DivStep(c.size, c.packetSize);
    DivUnique(0, c.packetSize, 0, 0);
    var s1 := DriverStep(c, s);
    assert s1.pc == Prepare2 && s1.prep == Prep(1, 0, true) && s1.offset == |c.buf|;
  }

  // ---- interrupts and progress ----

  /** Between preparing and waiting, the driver has used every slot it can. */
  ghost predicate Filled(plan: seq<Packet>, s: State) {
    && (s.pc == Prepare2 ==> s.inFlight >= 1 || s.prepared == |plan|)
    && (s.pc == Pc.Arm || s.pc == Await || s.pc.Polled? ==> s.inFlight >= 2 || s.prepared == |plan|)
    && (s.started && |plan| <= 2 ==> s.prepared == |plan|)
  }

  /** What a `prepare` step does to the counters: it succeeds, or panics, whenever a slot is
    * free and the plan has more.
    */
  ghost predicate Counted(plan: seq<Packet>, s: State, s': State, next: Pc) {
    && s'.started == s.started
    && if s.inFlight < 2 && s.prepared < |plan| then
         || (s'.pc == Panicked && s'.prepared == s.prepared)
         || (s'.pc == next && s'.prepared == s.prepared + 1 && s'.inFlight == s.inFlight + 1)
       else
         s'.pc == next && s'.prepared == s.prepared && s'.inFlight == s.inFlight
  }

  lemma PrepareAdvances(c: Config, plan: seq<Packet>, s: State)
    requires plan == PlanOf(c) && Inv(c, plan, s) && s.inFlight < 2 && s.prepared < |plan|
    requires s.pc == Prepare1 || s.pc == Prepare2
    ensures !Prepare(c, s).Idle?
  {
    hide Inv, Prepare, Armed, PlanOf;
    if c.dir == In {
      var _ := PrepareInDoes(c, plan, s);
    } else if CopyFails(s.prepared % 2, plan[s.prepared].len, Offset(plan, s.prepared), c.buf) {
      PrepareOutFails(c, plan, s);
    } else {
      var _ := PrepareOutDoes(c, plan, s);
    }
  }

  lemma PrepareIdles(c: Config, plan: seq<Packet>, s: State)
    requires plan == PlanOf(c) && Inv(c, plan, s) && s.inFlight < 2 && s.prepared == |plan|
    requires s.pc == Prepare1 || s.pc == Prepare2
    ensures Prepare(c, s) == Idle
  {
    hide Inv, Prepare, Armed, PlanOf;
    if c.dir == In {
      var _ := PrepareInDoes(c, plan, s);
    } else {
      var _ := PrepareOutDoes(c, plan, s);
    }
  }

  lemma TryPrepareCounts(c: Config, s: State, next: Pc)
    ensures var s' := TryPrepare(c, s, next);
      && s'.started == s.started
      && if s.inFlight >= 2 || Prepare(c, s).Idle? then
           s'.pc == next && s'.prepared == s.prepared && s'.inFlight == s.inFlight
         else
           || (s'.pc == Panicked && s'.prepared == s.prepared)
           || (s'.pc == next && s'.prepared == s.prepared + 1 && s'.inFlight == s.inFlight + 1)
  {
    hide Prepare, TryPrepare;
    TryPrepareIs(c, s, next);
  }

  lemma PrepareCounts(c: Config, plan: seq<Packet>, s: State, next: Pc)
    requires plan == PlanOf(c) && Inv(c, plan, s) && (s.pc == Prepare1 || s.pc == Prepare2)
    ensures Counted(plan, s, TryPrepare(c, s, next), next)
  {
    assert s.prepared <= |plan|;
    hide Inv, PlanOf, Prepare, TryPrepare;
    TryPrepareCounts(c, s, next);
    if s.inFlight < 2 {
      if s.prepared < |plan| {
        PrepareAdvances(c, plan, s);
      } else {
        PrepareIdles(c, plan, s);
      }
    }
  }

  lemma PrepareFills(c: Config, plan: seq<Packet>, s: State, next: Pc)
    requires plan == PlanOf(c) && Inv(c, plan, s) && Filled(plan, s)
    requires (s.pc == Prepare1 && next == Prepare2) || (s.pc == Prepare2 && next == Pc.Arm)
    ensures Filled(plan, TryPrepare(c, s, next))
  {
    PrepareCounts(c, plan, s, next);
    assert s.inFlight <= s.prepared <= |plan|;
    hide Inv, PlanOf, TryPrepare;
  }

  lemma RetireFills(c: Config, plan: seq<Packet>, s: State, next: Pc, lowered: nat)
    requires Filled(plan, s)
    requires next == Retire2 || next == Prepare1 || next == Finish2 || next == Done
    ensures Filled(plan, TryRetire(c, s, next, lowered))
  {
    RetireFrame(c, s, next, lowered);
    hide TryRetire;
  }

  /** What a `retire` leaves alone. */
  ghost predicate Framed(s: State, s': State) {
    && s'.started == s.started && s'.sent == s.sent && s'.halted == s.halted && s'.complete == s.complete
    && s'.error == s.error && s'.done == s.done && s'.stray == s.stray
    && |s'.retired| >= |s.retired|
  }

  lemma RetireFrame(c: Config, s: State, next: Pc, lowered: nat)
    ensures var s' := TryRetire(c, s, next, lowered);
      Framed(s, s') && (s'.pc == next || s'.pc == Panicked) && s'.prepared == s.prepared
  {
    hide Retire, Slot.Payload, Regs.Get;
    var s' := TryRetire(c, s, next, lowered);
    if s.inFlight == 0 || Retire(c, s).Idle? {
      assert s' == s.(pc := next);
    } else if Retire(c, s).Did? {
      assert s' == s.(pc := next, ret := s'.ret, buf := s'.buf, retired := s'.retired, inFlight := s'.inFlight);
      assert |s'.retired| == |s.retired| + 1;
    } else {
      assert s' == s.(pc := Panicked);
    }
    hide TryRetire;
  }

  /** Steps other than `prepare` neither start with nor lead to a claim they could break. */
  lemma OtherFills(c: Config, plan: seq<Packet>, s: State, s': State)
    requires Filled(plan, s) && s.pc != Prepare1 && s.pc != Prepare2
    requires s.prepared <= |plan| && (s.pc == Pc.Arm ==> s.inFlight <= s.prepared)
    requires s' == DriverStep(c, s)
    ensures Filled(plan, s')
  {
    hide TryRetire;
    match s.pc
    case Retire1 => RetireFills(c, plan, s, Retire2, 1);
    case Retire2 => RetireFills(c, plan, s, Prepare1, 1);
    case Finish1 => RetireFills(c, plan, s, Finish2, 1);
    case Finish2 => RetireFills(c, plan, s, Done, 0);
    case _ =>
  }

  lemma NextFills(c: Config, plan: seq<Packet>, s: State, s': State)
    requires plan == PlanOf(c) && Inv(c, plan, s) && Filled(plan, s) && Next(c, s, s')
    ensures Filled(plan, s')
  {
    assert s.prepared <= |plan| && (s.pc == Pc.Arm ==> s.inFlight <= s.prepared);
    hide Inv, PlanOf;
    if s' == DriverStep(c, s) {
      hide TryPrepare;
      if s.pc == Prepare1 {
        PrepareFills(c, plan, s, Prepare2);
      } else if s.pc == Prepare2 {
        PrepareFills(c, plan, s, Pc.Arm);
      } else {
        OtherFills(c, plan, s, s');
      }
    } else {
      HardwareFills(c, plan, s, s');
    }
  }

  lemma HardwareFills(c: Config, plan: seq<Packet>, s: State, s': State)
    requires Filled(plan, s) && (OthersNext(c, s, s') || HardwareNext(c, s, s'))
    ensures Filled(plan, s')
  {
    assert s' == s.(regs := s'.regs, hwSlot := s'.hwSlot, complete := s'.complete, error := s'.error,
                    halted := s'.halted, devToggle := s'.devToggle, sent := s'.sent,
                    accepted := s'.accepted, done := s'.done, stray := s'.stray);
    hide OthersNext, HardwareNext;
  }

  lemma {:induction false} RunFills(c: Config, run: seq<State>, i: nat)
    requires Runnable(c) && Run(c, c.toggle, run) && i < |run|
    ensures Filled(PlanOf(c), run[i])
  {
    if i > 0 {
      RunFills(c, run, i - 1);
      RunKeeps(c, run, i - 1);
      NextFills(c, PlanOf(c), run[i - 1], run[i]);
    }
  }

  /** `packets > 1` decides double buffering and `packets > 2` the buff_status
    * interrupt: slot 1 is armed only if the first was set, and without the second
    * every packet is prepared before the hardware starts.
    */
  lemma BufferingEnabled(c: Config, run: seq<State>, i: nat)
    requires Runnable(c) && Run(c, c.toggle, run) && i < |run|
    ensures var s := run[i];
      && (s.prepared > 1 ==> Estimate(c.whole, c.packetSize) > 1)
      && (s.regs.slot1.available ==> Estimate(c.whole, c.packetSize) > 1)
      && (s.started && Estimate(c.whole, c.packetSize) <= 2 ==> s.prepared == |PlanOf(c)|)
  {
    RunKeeps(c, run, i);
    RunFills(c, run, i);
    TransferPlan(c.size, c.packetSize, c.zlp);
    EstimateGrows(c.size, c.whole, c.packetSize);
    SecondSlotUsed(c, PlanOf(c), run[i]);
    hide Inv, PlanOf;
  }

  lemma SecondSlotUsed(c: Config, plan: seq<Packet>, s: State)
    requires Inv(c, plan, s)
    ensures s.prepared <= |plan|
    ensures s.regs.slot1.available ==> s.prepared > 1
  {
    assert SlotShows(c, plan, s.regs, s.prepared, s.sent, |s.retired|);
    assert SlotShows(c, plan, s.regs, s.prepared, s.sent, |s.retired| + 1);
    hide Moved, Completes, Retired, Tracks, Control;
  }

  /** How many packets have been processed and not yet retired. */
  ghost function Unretired(s: State): int {
    |s.sent| - |s.retired|
  }

  /** Of the completions of packets not yet retired, the driver has cleared away at most those
    * it is about to retire, and one.
    */
  ghost predicate Announced(s: State) {
    && (s.pc in {Prepare1, Prepare2, Pc.Arm} ==> s.done >= Unretired(s))
    && (s.pc == Await || s.pc.Polled? || s.pc == Retire2 ==> s.done >= Unretired(s) - 1)
  }

  lemma PrepareAnnounced(c: Config, s: State, next: Pc)
    requires Announced(s) && s.pc in {Prepare1, Prepare2} && next in {Prepare2, Pc.Arm}
    ensures Announced(TryPrepare(c, s, next))
  {
    hide Prepare, TryPrepare;
    TryPrepareIs(c, s, next);
  }

  lemma FewUnretired(c: Config, plan: seq<Packet>, s: State)
    requires Inv(c, plan, s)
    ensures 0 <= Unretired(s) <= 2
  {
    hide Window, Moved, Retired, Completes, Tracks, Control;
  }

  lemma RetireAnnounced(c: Config, plan: seq<Packet>, s: State, next: Pc)
    requires Inv(c, plan, s) && Announced(s)
    requires (s.pc == Retire1 && next == Retire2) || (s.pc == Retire2 && next == Prepare1)
    ensures Announced(TryRetire(c, s, next, 1))
  {
    hide Inv, TryRetire, RetiredState;
    FewUnretired(c, plan, s);
    RetireFrame(c, s, next, 1);
    if |s.retired| < |s.sent| {
      RetireTakes(c, plan, s, next, 1);
    }
  }

  lemma NextAnnounced(c: Config, plan: seq<Packet>, s: State, s': State)
    requires Inv(c, plan, s) && Announced(s) && Next(c, s, s') && Estimate(c.whole, c.packetSize) > 1
    ensures Announced(s')
  {
    hide HardwareNext, OthersNext;
    if s' == DriverStep(c, s) {
      DriverAnnounced(c, plan, s);
    } else {
      hide Inv, DriverStep;
      HardwareAnnounces(c, s, s');
    }
  }

  lemma DriverAnnounced(c: Config, plan: seq<Packet>, s: State)
    requires Inv(c, plan, s) && Announced(s)
    ensures Announced(DriverStep(c, s))
  {
    hide TryPrepare, TryRetire, Inv;
    match s.pc
    case Prepare1 => PrepareAnnounced(c, s, Prepare2);
    case Prepare2 => PrepareAnnounced(c, s, Pc.Arm);
    case Retire1 => RetireAnnounced(c, plan, s, Retire2);
    case Retire2 => RetireAnnounced(c, plan, s, Prepare1);
    case Finish1 => RetireFrame(c, s, Finish2, 1);
    case Finish2 => RetireFrame(c, s, Done, 0);
    case _ =>
  }

  /** Each packet the hardware processes is announced. */
  lemma HardwareAnnounces(c: Config, s: State, s': State)
    requires (OthersNext(c, s, s') || HardwareNext(c, s, s')) && Estimate(c.whole, c.packetSize) > 1
    ensures s'.pc == s.pc && s'.retired == s.retired
    ensures s'.done - s.done == |s'.sent| - |s.sent|
  {
    hide Estimate, Slot.Received, Slot.Sent;
  }

  lemma {:induction false} RunAnnounced(c: Config, run: seq<State>, i: nat)
    requires Runnable(c) && Run(c, c.toggle, run) && i < |run| && Estimate(c.whole, c.packetSize) > 1
    ensures Announced(run[i])
  {
    hide Next, Inv, Estimate, PlanOf;
    if i > 0 {
      RunAnnounced(c, run, i - 1);
      RunKeeps(c, run, i - 1);
      assert Next(c, run[i - 1], run[i]);
      hide Run, Announced;
      NextAnnounced(c, PlanOf(c), run[i - 1], run[i]);
    }
  }

  /** No deadlock: while the driver waits and the hardware has neither ended nor stopped,
    * either the hardware has a slot to work on, or there is a packet to retire, and the
    * driver's poll sees its completion and the interrupt for that is enabled.
    */
  lemma NeverStuck(c: Config, run: seq<State>, i: nat)
    requires Runnable(c) && Run(c, c.toggle, run) && i < |run|
    requires run[i].pc == Await && !run[i].complete && !run[i].halted
    ensures var s := run[i];
      || Ready(s)
      || (|s.retired| < |s.sent| && s.inFlight > 0 && s.done > 0 && Estimate(c.whole, c.packetSize) > 2)
  {
    RunKeeps(c, run, i);
    RunFills(c, run, i);
    TransferPlan(c.size, c.packetSize, c.zlp);
    EstimateGrows(c.size, c.whole, c.packetSize);
    WaitsForSomething(c, PlanOf(c), run[i]);
    if !Ready(run[i]) {
      RunAnnounced(c, run, i);
    }
    hide Inv, Run, PlanOf, Estimate;
  }

  lemma WaitsForSomething(c: Config, plan: seq<Packet>, s: State)
    requires Inv(c, plan, s) && Filled(plan, s) && |plan| > 0 && plan[|plan| - 1].last
    requires s.pc == Await && !s.complete && !s.halted
    ensures Ready(s) || (Unretired(s) >= 2 && s.inFlight > 0 && |plan| > 2)
  {
    if |s.sent| < s.prepared {
      assert SlotShows(c, plan, s.regs, s.prepared, s.sent, |s.sent|);
    }
  }

  // ---- data toggles over an endpoint's whole life ----

  /** On success, flipping the host's toggle by the depacketiser's parity lands on the
    * device's; on failure the host's is left alone, which is right exactly when an
    * even number of packets had moved.
    */
  lemma ToggleAfter(c: Config, run: seq<State>, i: nat)
    requires Runnable(c) && Run(c, c.toggle, run) && i < |run|
    ensures run[i].pc == Done ==> (c.toggle != run[i].ret.parity) == run[i].devToggle
    ensures c.toggle == run[i].devToggle <==> !Odd(|run[i].sent|)
  {
    RunKeeps(c, run, i);
  }

  datatype Toggles = Toggles(host: bool, device: bool)

  /** One use of a bulk endpoint: a transfer that succeeds, or an IN transfer that
    * stalls and is followed by a successful `clear_halt`.
    */
  datatype Episode =
    | Succeeds(c: Config, run: seq<State>)
    | StallsThenClears(c: Config, run: seq<State>)

  ghost predicate Follows(e: Episode, before: Toggles, after: Toggles) {
    && Runnable(e.c) && e.c.toggle == before.host
    && Run(e.c, before.device, e.run)
    && var end := e.run[|e.run| - 1];
       match e
       case Succeeds(c, _) =>
         end.pc == Done && after == Toggles(c.toggle != end.ret.parity, end.devToggle)
       case StallsThenClears(c, _) =>
         c.dir == In && end.pc == Failed(Stall) && after == Toggles(false, false)
  }

  /** From the moment an endpoint is opened, the two ends agree between any two transfers. */
  lemma {:induction false} TogglesStayInStep(episodes: seq<Episode>, toggles: seq<Toggles>, i: nat)
    requires |toggles| == |episodes| + 1 && toggles[0] == Toggles(false, false)
    requires forall k :: 0 <= k < |episodes| ==> Follows(episodes[k], toggles[k], toggles[k + 1])
    requires i < |toggles|
    ensures toggles[i].host == toggles[i].device
  {
    if i > 0 {
      TogglesStayInStep(episodes, toggles, i - 1);
      var e := episodes[i - 1];
      assert Follows(e, toggles[i - 1], toggles[i]);
      ToggleAfter(e.c, e.run, |e.run| - 1);
    }
  }
}
