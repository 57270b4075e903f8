/** What every interleaving of the transfer protocol keeps, and what a transfer
  * that succeeds has done.
  */
module TransferSafety {
  import opened Machine
  import opened Packets
  import opened TransferProtocol

  ghost function PlanOf(c: Config): seq<Packet> {
    Plan(Start(c.size, c.packetSize, c.zlp), c.packetSize)
  }

  /** Concatenation of a packet history. */
  ghost function Flat(packets: seq<seq<u8>>): seq<u8> {
    if packets == [] then [] else Flat(packets[..|packets| - 1]) + packets[|packets| - 1]
  }

  lemma FlatSnoc(packets: seq<seq<u8>>, x: seq<u8>)
    ensures Flat(packets + [x]) == Flat(packets) + x
  {
    assert (packets + [x])[..|packets|] == packets;
  }

  lemma {:induction false} TotalSnoc(packets: seq<Packet>, x: Packet)
    ensures Total(packets + [x]) == Total(packets) + x.len
  {
    if packets != [] {
      assert (packets + [x])[1..] == packets[1..] + [x];
      TotalSnoc(packets[1..], x);
    }
  }

  lemma {:induction false} TotalSplit(packets: seq<Packet>, k: nat)
    requires k <= |packets|
    ensures Total(packets) == Total(packets[..k]) + Total(packets[k..])
  {
    if k == 0 {
      assert packets[0..] == packets;
    } else {
      TotalSplit(packets[1..], k - 1);
      assert packets[..k][1..] == packets[1..][..k - 1];
      assert packets[k..] == packets[1..][k - 1..];
    }
  }

  /** Where packet `k` of a plan starts in the buffer. */
  ghost function Offset(plan: seq<Packet>, k: nat): nat
    requires k <= |plan|
  {
    Total(plan[..k])
  }

  lemma OffsetStep(plan: seq<Packet>, k: nat)
    requires k < |plan|
    ensures Offset(plan, k + 1) == Offset(plan, k) + plan[k].len <= Total(plan)
  {
    assert plan[..k + 1] == plan[..k] + [plan[k]];
    TotalSnoc(plan[..k], plan[k]);
    TotalSplit(plan, k + 1);
  }

  /** The one transfer the driver cannot carry out: a variable-size OUT of an odd
    * number of full packets from a buffer with nothing after them.
    */
  predicate IndexesPastEnd(c: Config) {
    && c.dir == Out && c.zlp.AsNeeded?
    && c.size % c.packetSize == 0 && Odd(c.size / c.packetSize)
    && |c.buf| == c.size
  }

  predicate Odd(n: nat) {
    n % 2 == 1
  }

  ghost predicate Chunk(c: Config, plan: seq<Packet>, k: nat, payload: seq<u8>)
    requires k < |plan|
  {
    && Offset(plan, k) + plan[k].len <= |c.buf|
    && payload == c.buf[Offset(plan, k)..Offset(plan, k) + plan[k].len]
  }

  ghost predicate Armed(c: Config, plan: seq<Packet>, slot: Slot, k: nat) {
    && k < |plan|
    && slot.available
    && slot.pid == (c.toggle != Odd(k))
    && slot.last == plan[k].last
    && slot.full == (c.dir == Out)
    && (c.dir == In ==> slot.length == c.packetSize)
    && (c.dir == Out ==> slot.length == plan[k].len && Chunk(c, plan, k, slot.Payload()))
  }

  ghost predicate Processed(c: Config, slot: Slot, payload: seq<u8>) {
    && !slot.available
    && slot.full == (c.dir == In)
    && slot.Payload() == payload
  }

  /** Packet `k` as the register slot of its parity must show it. */
  ghost predicate SlotShows(c: Config, plan: seq<Packet>, regs: Regs, prepared: nat,
                            sent: seq<seq<u8>>, k: nat)
  {
    var slot := regs.Get(k % 2);
    if k >= prepared then !slot.available
    else if k >= |sent| then Armed(c, plan, slot, k)
    else Processed(c, slot, sent[k])
  }

  /** Both slots, as the two packets from the first unretired one on. */
  ghost predicate Window(c: Config, plan: seq<Packet>, regs: Regs, prepared: nat,
                         sent: seq<seq<u8>>, retired: nat)
  {
    && SlotShows(c, plan, regs, prepared, sent, retired)
    && SlotShows(c, plan, regs, prepared, sent, retired + 1)
  }

  ghost predicate Counts(plan: seq<Packet>, s: State) {
    && |s.retired| <= |s.sent| <= s.prepared <= |plan|
    && s.prepared <= |s.retired| + 2
    && (s.pc != Done ==> s.inFlight == s.prepared - |s.retired|)
    && s.prep.slot == s.prepared % 2
    && s.ret.slot == |s.retired| % 2
    && s.hwSlot == |s.sent| % 2
  }

  /** The packetiser has exactly the rest of the plan ahead of it. */
  ghost predicate Tracks(c: Config, plan: seq<Packet>, prep: Prep, offset: nat, prepared: nat) {
    && prepared <= |plan|
    && Total(plan) == c.size
    && Plan(prep, c.packetSize) == plan[prepared..]
    && (c.dir == Out ==> offset == Offset(plan, prepared))
    && (IndexesPastEnd(c) ==> prepared < |plan|)
  }

  /** What has gone over the bus: everything sent was taken, and the PIDs agreed. */
  ghost predicate Moved(c: Config, plan: seq<Packet>, sent: seq<seq<u8>>,
                        accepted: seq<seq<u8>>, devToggle: bool)
  {
    && accepted == sent
    && devToggle == (c.toggle != Odd(|sent|))
    && (c.dir == In ==> forall k :: 0 <= k < |sent| ==> |sent[k]| <= c.packetSize)
    && (c.dir == Out ==> |sent| <= |plan| && Offset(plan, |sent|) <= |c.buf|
                         && Flat(sent) == c.buf[..Offset(plan, |sent|)])
  }

  ghost predicate Retired(c: Config, sent: seq<seq<u8>>, retired: seq<seq<u8>>, ret: Ret, buf: seq<u8>)
    requires Runnable(c)
  {
    && retired <= sent
    && ret.parity == Odd(|retired|)
    && (c.dir == Out ==> buf == c.buf)
    && (c.dir == In ==>
          && ret.offset == Min(c.size, |Flat(retired)|)
          && ret.remain == c.size - ret.offset
          && buf == Flat(retired)[..ret.offset] + c.buf[ret.offset..])
  }

  /** Packet `k` ends the transfer: it is marked last, or it came in short. */
  ghost predicate Ends(c: Config, plan: seq<Packet>, sent: seq<seq<u8>>, k: nat)
    requires k < |sent| <= |plan|
  {
    plan[k].last || (c.dir == In && |sent[k]| < c.packetSize)
  }

  /** The hardware reports completion with, and never before, the packet that ends the transfer. */
  ghost predicate Completes(c: Config, plan: seq<Packet>, sent: seq<seq<u8>>, complete: bool) {
    && |sent| <= |plan|
    && (complete <==> |sent| > 0 && Ends(c, plan, sent, |sent| - 1))
    && (forall k :: 0 <= k < |sent| - 1 ==> !Ends(c, plan, sent, k))
  }

  ghost predicate Control(c: Config, pc: Pc, started: bool, complete: bool,
                          error: Option<UsbError>, sent: nat, retired: nat)
  {
    && (!started ==> sent == 0 && pc in {Prepare1, Prepare2, Arm, Panicked})
    && (pc.Polled? || pc.Woken? ==> (pc.complete ==> complete) && pc.status != Some(DataSeqError))
    && (pc in {Finish1, Finish2, Done} ==> complete)
    && (pc == Finish2 ==> sent <= retired + 1)
    && (pc == Done ==> sent <= retired)
    && (pc == Panicked ==> IndexesPastEnd(c))
    && error != Some(DataSeqError)
    && pc != Failed(DataSeqError)
  }

  ghost predicate Runnable(c: Config) {
    c.size <= |c.buf| && c.size <= c.whole
  }

  ghost predicate Inv(c: Config, plan: seq<Packet>, s: State) {
    && Runnable(c)
    && Counts(plan, s)
    && Tracks(c, plan, s.prep, s.offset, s.prepared)
    && Window(c, plan, s.regs, s.prepared, s.sent, |s.retired|)
    && Moved(c, plan, s.sent, s.accepted, s.devToggle)
    && Retired(c, s.sent, s.retired, s.ret, s.buf)
    && Completes(c, plan, s.sent, s.complete)
    && Control(c, s.pc, s.started, s.complete, s.error, |s.sent|, |s.retired|)
  }

  lemma InitHolds(c: Config, s: State)
    requires Runnable(c) && Init(c, c.toggle, s)
    ensures Inv(c, PlanOf(c), s)
  {
    TransferPlan(c.size, c.packetSize, c.zlp);
    assert PlanOf(c)[0..] == PlanOf(c);
  }

  lemma NextOfPlan(c: Config, plan: seq<Packet>, prep: Prep, offset: nat, prepared: nat)
    requires Tracks(c, plan, prep, offset, prepared)
    ensures prepared == |plan| <==> NextPacket(prep, c.packetSize).None?
    ensures prepared < |plan| ==>
      && NextPacket(prep, c.packetSize) == Some(plan[prepared])
      && Plan(Issue(prep, c.packetSize), c.packetSize) == plan[prepared + 1..]
      && Offset(plan, prepared + 1) == Offset(plan, prepared) + plan[prepared].len <= c.size
  {
    if prepared < |plan| {
      assert plan[prepared..] == [plan[prepared]] + plan[prepared + 1..];
      OffsetStep(plan, prepared);
    }
  }

  /** The packet a panicking `prepare` would have copied is the empty one that ends the plan. */
  lemma CopyFailsWhen(c: Config, k: nat)
    requires Runnable(c) && c.dir == Out && k < |PlanOf(c)|
    ensures CopyFails(k % 2, PlanOf(c)[k].len, Offset(PlanOf(c), k), c.buf)
      <==> IndexesPastEnd(c) && k == |PlanOf(c)| - 1
  {
    var plan := PlanOf(c);
    TransferPlan(c.size, c.packetSize, c.zlp);
    OffsetStep(plan, k);
    if k == |plan| - 1 {
      assert plan[..k + 1] == plan;
    }
  }

  /** A prepared slot joins the window; the other slot of the window is untouched. */
  lemma WindowArmed(c: Config, plan: seq<Packet>, regs: Regs, prepared: nat,
                    sent: seq<seq<u8>>, retired: nat, slot: Slot)
    requires Window(c, plan, regs, prepared, sent, retired)
    requires retired <= |sent| <= prepared < retired + 2
    requires Armed(c, plan, slot, prepared)
    ensures Window(c, plan, regs.Set(prepared % 2, slot), prepared + 1, sent, retired)
  {
    assert retired % 2 != (retired + 1) % 2;
  }

  /** The slot `prepare` looks at is free whenever fewer than two packets are in flight. */
  lemma FreeSlot(c: Config, plan: seq<Packet>, s: State)
    requires Inv(c, plan, s) && s.pc != Done && s.inFlight < 2
    ensures !s.regs.Get(s.prep.slot).available
  {
    assert SlotShows(c, plan, s.regs, s.prepared, s.sent, s.prepared);
  }

  /** The control points a driver step may lead to when it changes nothing else. */
  ghost predicate Falls(c: Config, s: State, next: Pc) {
    match s.pc
    case Prepare1 => next == Prepare2 || (next == Panicked && IndexesPastEnd(c))
    case Prepare2 => next == Pc.Arm || (next == Panicked && IndexesPastEnd(c))
    case Retire1 => next == Retire2
    case Retire2 => next == Prepare1
    case Finish1 => next == Finish2 && |s.sent| <= |s.retired| + 1
    case Finish2 => next == Done && |s.sent| <= |s.retired|
    case Await => next == Polled(s.complete, s.error)
    case Polled(complete, status) => next == Await || next == Woken(complete, status)
    case Woken(complete, status) => next == After(complete, status)
    case _ => next == s.pc
  }

  lemma FallsKeeps(c: Config, plan: seq<Packet>, s: State, next: Pc)
    requires Inv(c, plan, s) && Falls(c, s, next)
    ensures Inv(c, plan, s.(pc := next))
  {
    hide Window, Moved, Retired, Completes, Tracks;
  }

  lemma ArmKeeps(c: Config, plan: seq<Packet>, s: State)
    requires Inv(c, plan, s) && s.pc == Pc.Arm
    ensures Inv(c, plan, s.(pc := Await, started := true, error := None))
  {
    hide Window, Moved, Retired, Completes, Tracks;
  }

  /** Nothing in the invariant depends on the interrupts, nor on an error being shown. */
  lemma SignalsKeep(c: Config, plan: seq<Packet>, s: State, error: Option<UsbError>, done: nat, stray: bool)
    requires Inv(c, plan, s) && error != Some(DataSeqError)
    ensures Inv(c, plan, s.(error := error, done := done, stray := stray))
  {
    hide Window, Moved, Retired, Completes, Tracks;
  }

  lemma PreparedTracks(c: Config, plan: seq<Packet>, prep: Prep, offset: nat, offset': nat, prepared: nat)
    requires Tracks(c, plan, prep, offset, prepared) && prepared < |plan|
    requires IndexesPastEnd(c) ==> prepared + 1 < |plan|
    requires c.dir == Out ==> offset' == offset + plan[prepared].len
    ensures NextPacket(prep, c.packetSize) == Some(plan[prepared])
    ensures Tracks(c, plan, Issue(prep, c.packetSize), offset', prepared + 1)
  {
    NextOfPlan(c, plan, prep, offset, prepared);
  }

  lemma PreparedKeeps(c: Config, plan: seq<Packet>, s: State, s': State, slot: Slot)
    requires Inv(c, plan, s) && s.pc in {Prepare1, Prepare2} && s'.pc in {Prepare2, Arm}
    requires s.inFlight < 2 && s.prepared < |plan|
    requires IndexesPastEnd(c) ==> s.prepared + 1 < |plan|
    requires Armed(c, plan, slot, s.prepared)
    requires NextPacket(s.prep, c.packetSize) == Some(plan[s.prepared])
    requires c.dir == Out ==> s'.offset == s.offset + plan[s.prepared].len
    requires s' == s.(pc := s'.pc, prep := Issue(s.prep, c.packetSize), offset := s'.offset,
                      regs := s.regs.Set(s.prep.slot, slot), inFlight := s.inFlight + 1,
                      prepared := s.prepared + 1)
    ensures Inv(c, plan, s')
  {
    hide Moved, Retired, Completes, Armed, Tracks;
    PreparedTracks(c, plan, s.prep, s.offset, s'.offset, s.prepared);
    WindowArmed(c, plan, s.regs, s.prepared, s.sent, |s.retired|, slot);
    hide Window;
    assert Counts(plan, s');
    assert Control(c, s'.pc, s'.started, s'.complete, s'.error, |s'.sent|, |s'.retired|);
    hide Counts, Control;
  }

  lemma PrepareInDoes(c: Config, plan: seq<Packet>, s: State) returns (slot: Slot)
    requires Inv(c, plan, s) && c.dir == In && s.pc in {Prepare1, Prepare2} && s.inFlight < 2
    ensures s.prepared == |plan| ==> Prepare(c, s) == Idle
    ensures s.prepared < |plan| ==>
      && NextPacket(s.prep, c.packetSize) == Some(plan[s.prepared])
      && Armed(c, plan, slot, s.prepared)
      && Prepare(c, s)
         == Did((Issue(s.prep, c.packetSize), s.offset, s.regs.Set(s.prep.slot, slot)))
  {
    NextOfPlan(c, plan, s.prep, s.offset, s.prepared);
    FreeSlot(c, plan, s);
    slot := s.regs.Get(s.prep.slot).(full := false, pid := c.toggle != (s.prep.slot != 0),
      last := s.prepared < |plan| && plan[s.prepared].last, length := c.packetSize, available := true);
  }

  lemma PrepareOutDoes(c: Config, plan: seq<Packet>, s: State) returns (slot: Slot)
    requires Inv(c, plan, s) && c.dir == Out && s.pc in {Prepare1, Prepare2} && s.inFlight < 2
    requires s.prepared < |plan| ==>
      !CopyFails(s.prepared % 2, plan[s.prepared].len, Offset(plan, s.prepared), c.buf)
    ensures s.prepared == |plan| ==> Prepare(c, s) == Idle
    ensures s.prepared < |plan| ==>
      && NextPacket(s.prep, c.packetSize) == Some(plan[s.prepared])
      && Armed(c, plan, slot, s.prepared)
      && Prepare(c, s)
         == Did((Issue(s.prep, c.packetSize), s.offset + plan[s.prepared].len,
                 s.regs.Set(s.prep.slot, slot)))
  {
    hide Window, Moved, Completes, Control;
    NextOfPlan(c, plan, s.prep, s.offset, s.prepared);
    FreeSlot(c, plan, s);
    hide Tracks;
    var k, was := s.prepared, s.regs.Get(s.prep.slot);
    slot := was;
    if k < |plan| {
      var len := plan[k].len;
      slot := was.(full := true, pid := c.toggle != (s.prep.slot != 0), last := plan[k].last,
        length := len, available := true, data := Copied(was.data, len, s.offset, c.buf));
      assert slot.Payload() == c.buf[s.offset..s.offset + len];
    }
  }

  lemma PrepareOutFails(c: Config, plan: seq<Packet>, s: State)
    requires Inv(c, plan, s) && c.dir == Out && s.pc in {Prepare1, Prepare2} && s.inFlight < 2
    requires s.prepared < |plan|
    requires CopyFails(s.prepared % 2, plan[s.prepared].len, Offset(plan, s.prepared), c.buf)
    ensures Prepare(c, s) == OutOfBounds
  {
    NextOfPlan(c, plan, s.prep, s.offset, s.prepared);
    FreeSlot(c, plan, s);
  }

  /** The state after a `prepare` that did something. */
  function PreparedState(s: State, next: Pc, prep: Prep, offset: nat, regs: Regs): State {
    s.(pc := next, prep := prep, offset := offset, regs := regs,
       inFlight := s.inFlight + 1, prepared := s.prepared + 1)
  }

  lemma TryPrepareIs(c: Config, s: State, next: Pc)
    ensures s.inFlight >= 2 || Prepare(c, s).Idle? ==> TryPrepare(c, s, next) == s.(pc := next)
    ensures s.inFlight < 2 && Prepare(c, s).OutOfBounds? ==> TryPrepare(c, s, next) == s.(pc := Panicked)
    ensures s.inFlight < 2 && Prepare(c, s).Did? ==> var did := Prepare(c, s).value;
      TryPrepare(c, s, next) == PreparedState(s, next, did.0, did.1, did.2)
  {
    hide Prepare;
  }

  lemma PrepareInKeeps(c: Config, plan: seq<Packet>, s: State, next: Pc)
    requires Inv(c, plan, s) && c.dir == In
    requires (s.pc == Prepare1 && next == Prepare2) || (s.pc == Prepare2 && next == Pc.Arm)
    ensures Inv(c, plan, TryPrepare(c, s, next))
  {
    assert s.prepared <= |plan|;
    hide Inv, Armed, Prepare;
    if s.inFlight < 2 {
      TryPrepareIs(c, s, next);
      hide TryPrepare;
      var slot := PrepareInDoes(c, plan, s);
      if s.prepared < |plan| {
        PreparedKeeps(c, plan, s, TryPrepare(c, s, next), slot);
      } else {
        FallsKeeps(c, plan, s, next);
      }
    } else {
      FallsKeeps(c, plan, s, next);
    }
  }

  lemma PrepareOutKeeps(c: Config, plan: seq<Packet>, s: State, next: Pc)
    requires plan == PlanOf(c) && Inv(c, plan, s) && c.dir == Out
    requires (s.pc == Prepare1 && next == Prepare2) || (s.pc == Prepare2 && next == Pc.Arm)
    ensures Inv(c, plan, TryPrepare(c, s, next))
  {
    assert s.prepared <= |plan| && Runnable(c);
    hide Inv, Armed, Prepare, TryPrepare, PlanOf;
    TryPrepareIs(c, s, next);
    if s.inFlight >= 2 {
      FallsKeeps(c, plan, s, next);
    } else if s.prepared == |plan| {
      var _ := PrepareOutDoes(c, plan, s);
      FallsKeeps(c, plan, s, next);
    } else {
      CopyFailsWhen(c, s.prepared);
      hide CopyFails, IndexesPastEnd, Offset;
      if IndexesPastEnd(c) && s.prepared == |plan| - 1 {
        PrepareOutFails(c, plan, s);
        FallsKeeps(c, plan, s, Panicked);
      } else {
        PrepareOutArms(c, plan, s, next);
      }
    }
  }

  lemma PrepareOutArms(c: Config, plan: seq<Packet>, s: State, next: Pc)
    requires Inv(c, plan, s) && c.dir == Out && s.inFlight < 2 && s.prepared < |plan|
    requires (s.pc == Prepare1 && next == Prepare2) || (s.pc == Prepare2 && next == Pc.Arm)
    requires !CopyFails(s.prepared % 2, plan[s.prepared].len, Offset(plan, s.prepared), c.buf)
    requires IndexesPastEnd(c) ==> s.prepared + 1 < |plan|
    ensures Inv(c, plan, TryPrepare(c, s, next))
  {
    hide Inv, Armed, Prepare, TryPrepare, CopyFails, IndexesPastEnd, Offset;
    TryPrepareIs(c, s, next);
    var slot := PrepareOutDoes(c, plan, s);
    PreparedKeeps(c, plan, s, TryPrepare(c, s, next), slot);
  }

  /** Retiring moves the window on by one; the slot it frees is not armed again yet. */
  lemma WindowRetired(c: Config, plan: seq<Packet>, regs: Regs, prepared: nat,
                      sent: seq<seq<u8>>, retired: nat)
    requires Window(c, plan, regs, prepared, sent, retired)
    requires retired < |sent| <= prepared <= retired + 2
    ensures Window(c, plan, regs, prepared, sent, retired + 1)
  {
    assert (retired + 2) % 2 == retired % 2;
  }

  /** What the guard of `retire` finds: the oldest packet in flight has been processed, or has not. */
  lemma RetireGuard(c: Config, plan: seq<Packet>, s: State)
    requires Inv(c, plan, s) && s.prepared > |s.retired|
    ensures (s.regs.Get(s.ret.slot).full == (c.dir == In)) <==> |s.retired| < |s.sent|
    ensures |s.retired| < |s.sent| ==> s.regs.Get(s.ret.slot).Payload() == s.sent[|s.retired|]
  {
    assert SlotShows(c, plan, s.regs, s.prepared, s.sent, |s.retired|);
  }

  /** Where the four calls of `retire` sit in the loop. */
  predicate RetiresAt(pc: Pc, next: Pc) {
    || (pc == Retire1 && next == Retire2) || (pc == Retire2 && next == Prepare1)
    || (pc == Finish1 && next == Finish2) || (pc == Finish2 && next == Done)
  }

  lemma RetiredKeeps(c: Config, plan: seq<Packet>, s: State, s': State, payload: seq<u8>)
    requires Inv(c, plan, s) && |s.retired| < |s.sent| && payload == s.sent[|s.retired|]
    requires s' == s.(pc := s'.pc, ret := s'.ret, buf := s'.buf, inFlight := s'.inFlight,
                      retired := s.retired + [payload])
    requires s'.ret.slot == Other(s.ret.slot)
    requires Retired(c, s'.sent, s'.retired, s'.ret, s'.buf)
    requires s'.pc == Done || s'.inFlight == s.inFlight - 1
    requires RetiresAt(s.pc, s'.pc)
    ensures Inv(c, plan, s')
  {
    hide Moved, Retired, Completes, Tracks;
    WindowRetired(c, plan, s.regs, s.prepared, s.sent, |s.retired|);
    hide Window;
    assert Counts(plan, s');
    assert Control(c, s'.pc, s'.started, s'.complete, s'.error, |s'.sent|, |s'.retired|);
    hide Counts, Control;
  }

  /** Bytes put after those already in place. */
  lemma JoinAt(got: seq<u8>, more: seq<u8>, buf: seq<u8>, offset: nat, n: nat)
    requires offset <= |got| && n <= |more| && offset + n <= |buf| && (n > 0 ==> offset == |got|)
    ensures var was := got[..offset] + buf[offset..];
      was[..offset] + more[..n] + was[offset + n..] == (got + more)[..offset + n] + buf[offset + n..]
  {
    var was := got[..offset] + buf[offset..];
    assert was[..offset] == got[..offset] && was[offset + n..] == buf[offset + n..];
    assert got[..offset] + more[..n] == (got + more)[..offset + n];
  }

  lemma RetireInBuffer(c: Config, sent: seq<seq<u8>>, retired: seq<seq<u8>>, ret: Ret, buf: seq<u8>,
                       slot: Slot)
    requires Runnable(c) && c.dir == In && Retired(c, sent, retired, ret, buf)
    requires |retired| < |sent| && slot.Payload() == sent[|retired|]
    ensures var n := Min(ret.remain, slot.length);
      && ret.offset + n <= |buf|
      && Retired(c, sent, retired + [slot.Payload()],
                 Ret(Other(ret.slot), !ret.parity, ret.remain - n, ret.offset + n),
                 buf[..ret.offset] + slot.data[..n] + buf[ret.offset + n..])
  {
    var x := slot.Payload();
    var n := Min(ret.remain, slot.length);
    FlatSnoc(retired, x);
    hide Flat;
    assert slot.data[..n] == x[..n];
    JoinAt(Flat(retired), x, c.buf, ret.offset, n);
  }

  /** The fields a successful `retire` writes. */
  lemma RetireDoes(c: Config, s: State)
    requires Runnable(c) && Retired(c, s.sent, s.retired, s.ret, s.buf) && |s.retired| < |s.sent|
    requires var slot := s.regs.Get(s.ret.slot);
      slot.full == (c.dir == In) && slot.Payload() == s.sent[|s.retired|]
    ensures var did := Retire(c, s);
      && did.Did? && did.value.0.slot == Other(s.ret.slot)
      && Retired(c, s.sent, s.retired + [s.regs.Get(s.ret.slot).Payload()], did.value.0, did.value.1)
  {
    if c.dir == In {
      RetireInBuffer(c, s.sent, s.retired, s.ret, s.buf, s.regs.Get(s.ret.slot));
    }
  }

  lemma RetireIdle(c: Config, s: State)
    requires s.regs.Get(s.ret.slot).full != (c.dir == In)
    ensures Retire(c, s) == Idle
  {
  }

  /** The state after a `retire` that did something. */
  function RetiredState(s: State, next: Pc, lowered: nat, ret: Ret, buf: seq<u8>): State
    requires lowered <= s.inFlight
  {
    s.(pc := next, ret := ret, buf := buf,
       retired := s.retired + [s.regs.Get(s.ret.slot).Payload()],
       inFlight := s.inFlight - lowered)
  }

  lemma TryRetireIs(c: Config, s: State, next: Pc, lowered: nat)
    requires lowered <= 1
    ensures s.inFlight == 0 || Retire(c, s).Idle? ==> TryRetire(c, s, next, lowered) == s.(pc := next)
    ensures s.inFlight > 0 && Retire(c, s).OutOfBounds? ==> TryRetire(c, s, next, lowered) == s.(pc := Panicked)
    ensures s.inFlight > 0 && Retire(c, s).Did? ==> var did := Retire(c, s).value;
      TryRetire(c, s, next, lowered) == RetiredState(s, next, lowered, did.0, did.1)
  {
    hide Retire;
  }

  lemma RetireKeeps(c: Config, plan: seq<Packet>, s: State, next: Pc, lowered: nat)
    requires Inv(c, plan, s) && RetiresAt(s.pc, next) && lowered == (if next == Done then 0 else 1)
    ensures Inv(c, plan, TryRetire(c, s, next, lowered))
  {
    var r := |s.retired|;
    assert s.inFlight == s.prepared - r && r <= |s.sent| <= s.prepared;
    hide Inv, Retire, RetiresAt, Falls, TryRetire;
    TryRetireIs(c, s, next, lowered);
    if s.inFlight == 0 || r == |s.sent| {
      if s.inFlight > 0 {
        RetireGuard(c, plan, s);
        RetireIdle(c, s);
      }
      RetireFalls(c, plan, s, next);
      FallsKeeps(c, plan, s, next);
    } else {
      RetireTakes(c, plan, s, next, lowered);
    }
  }

  /** A processed packet that is not yet retired is, if it is tried. */
  lemma RetireTakes(c: Config, plan: seq<Packet>, s: State, next: Pc, lowered: nat)
    requires Inv(c, plan, s) && RetiresAt(s.pc, next) && lowered == (if next == Done then 0 else 1)
    requires |s.retired| < |s.sent|
    ensures Inv(c, plan, TryRetire(c, s, next, lowered))
    ensures |TryRetire(c, s, next, lowered).retired| == |s.retired| + 1
  {
    assert s.inFlight == s.prepared - |s.retired| && |s.sent| <= s.prepared;
    assert Runnable(c) && Retired(c, s.sent, s.retired, s.ret, s.buf);
    hide Inv, Retired, Retire, RetiresAt, TryRetire, Slot.Payload;
    RetireGuard(c, plan, s);
    RetireDoes(c, s);
    var did := Retire(c, s).value;
    RetiredStateKeeps(c, plan, s, next, lowered, did.0, did.1);
    hide RetiredState;
    TryRetireIs(c, s, next, lowered);
  }

  lemma RetiredStateKeeps(c: Config, plan: seq<Packet>, s: State, next: Pc, lowered: nat, ret: Ret, buf: seq<u8>)
    requires Inv(c, plan, s) && RetiresAt(s.pc, next) && lowered == (if next == Done then 0 else 1)
    requires lowered <= s.inFlight && |s.retired| < |s.sent| && ret.slot == Other(s.ret.slot)
    requires s.regs.Get(s.ret.slot).Payload() == s.sent[|s.retired|]
    requires Retired(c, s.sent, s.retired + [s.regs.Get(s.ret.slot).Payload()], ret, buf)
    ensures Inv(c, plan, RetiredState(s, next, lowered, ret, buf))
    ensures |RetiredState(s, next, lowered, ret, buf).retired| == |s.retired| + 1
  {
    hide Inv, Retired, RetiresAt, Slot.Payload, Regs.Get;
    RetiredKeeps(c, plan, s, RetiredState(s, next, lowered, ret, buf), s.regs.Get(s.ret.slot).Payload());
  }

  lemma RetireFalls(c: Config, plan: seq<Packet>, s: State, next: Pc)
    requires Inv(c, plan, s) && RetiresAt(s.pc, next)
    requires s.inFlight == 0 || |s.retired| == |s.sent|
    ensures Falls(c, s, next)
  {
  }

  /** The steps round the wait. */
  lemma WaitKeeps(c: Config, plan: seq<Packet>, s: State)
    requires Inv(c, plan, s) && s.pc !in {Prepare1, Prepare2, Retire1, Retire2, Finish1, Finish2}
    ensures Inv(c, plan, DriverStep(c, s))
  {
    assert s.error != Some(DataSeqError);
    hide Inv, TryPrepare, TryRetire;
    var s' := DriverStep(c, s);
    match s.pc
    case Arm =>
      ArmKeeps(c, plan, s);
      SignalsKeep(c, plan, s.(pc := Await, started := true, error := None), None, s'.done, s.stray);
    case Polled(_, _) =>
      FallsKeeps(c, plan, s, s'.pc);
      SignalsKeep(c, plan, s.(pc := s'.pc), None, s.done, s.stray);
    case Woken(_, _) =>
      FallsKeeps(c, plan, s, s'.pc);
      SignalsKeep(c, plan, s.(pc := s'.pc), s.error, s'.done, s.stray);
    case _ => FallsKeeps(c, plan, s, s'.pc);
  }

  lemma DriverKeeps(c: Config, plan: seq<Packet>, s: State, s': State)
    requires plan == PlanOf(c) && Inv(c, plan, s) && s' == DriverStep(c, s)
    ensures Inv(c, plan, s')
  {
    hide Inv, TryPrepare, TryRetire;
    match s.pc
    case Prepare1 =>
      if c.dir == In { PrepareInKeeps(c, plan, s, Prepare2); } else { PrepareOutKeeps(c, plan, s, Prepare2); }
    case Prepare2 =>
      if c.dir == In { PrepareInKeeps(c, plan, s, Pc.Arm); } else { PrepareOutKeeps(c, plan, s, Pc.Arm); }
    case Retire1 => RetireKeeps(c, plan, s, Retire2, 1);
    case Retire2 => RetireKeeps(c, plan, s, Prepare1, 1);
    case Finish1 => RetireKeeps(c, plan, s, Finish2, 1);
    case Finish2 => RetireKeeps(c, plan, s, Done, 0);
    case _ => WaitKeeps(c, plan, s);
  }

  /** The slot the hardware is about to process shows the next packet of the plan,
    * under the PID the device expects.
    */
  lemma ReadyShows(c: Config, plan: seq<Packet>, s: State)
    requires Inv(c, plan, s) && Ready(s)
    ensures |s.sent| < s.prepared <= |plan|
    ensures Armed(c, plan, s.regs.Get(s.hwSlot), |s.sent|)
    ensures s.regs.Get(s.hwSlot).pid == s.devToggle
  {
    var r := |s.retired|;
    assert SlotShows(c, plan, s.regs, s.prepared, s.sent, r);
    assert SlotShows(c, plan, s.regs, s.prepared, s.sent, r + 1);
    assert (r + 2) % 2 == r % 2;
  }

  lemma WindowProcessed(c: Config, plan: seq<Packet>, regs: Regs, prepared: nat,
                        sent: seq<seq<u8>>, retired: nat, slot: Slot, payload: seq<u8>)
    requires Window(c, plan, regs, prepared, sent, retired)
    requires retired <= |sent| < prepared <= retired + 2
    requires Processed(c, slot, payload)
    ensures Window(c, plan, regs.Set(|sent| % 2, slot), prepared, sent + [payload], retired)
  {
    assert retired % 2 != (retired + 1) % 2;
  }

  lemma EndsAppend(c: Config, plan: seq<Packet>, sent: seq<seq<u8>>, payload: seq<u8>, complete: bool)
    requires Completes(c, plan, sent, false) && |sent| < |plan|
    requires complete == (plan[|sent|].last || (c.dir == In && |payload| < c.packetSize))
    ensures Completes(c, plan, sent + [payload], complete)
  {
    var sent' := sent + [payload];
    forall k | 0 <= k < |sent'| - 1
      ensures !Ends(c, plan, sent', k)
    {
      assert !Ends(c, plan, sent, k);
    }
  }

  lemma ProcessedKeeps(c: Config, plan: seq<Packet>, s: State, s': State, slot: Slot, payload: seq<u8>)
    requires Inv(c, plan, s) && Ready(s) && |s.sent| < s.prepared && |s.sent| < |plan|
    requires Processed(c, slot, payload)
    requires s' == s.(regs := s.regs.Set(s.hwSlot, slot), hwSlot := Other(s.hwSlot),
                      devToggle := !s.devToggle, sent := s.sent + [payload],
                      accepted := s.accepted + [payload], complete := s'.complete, done := s'.done)
    requires Moved(c, plan, s'.sent, s'.accepted, s'.devToggle)
    requires Completes(c, plan, s'.sent, s'.complete)
    ensures Inv(c, plan, s')
  {
    WindowProcessed(c, plan, s.regs, s.prepared, s.sent, |s.retired|, slot, payload);
    assert Counts(plan, s');
    assert Retired(c, s'.sent, s'.retired, s'.ret, s'.buf);
    hide Window, Moved, Completes;
  }

  lemma ReceiveKeeps(c: Config, plan: seq<Packet>, s: State, data: seq<u8>)
    requires Inv(c, plan, s) && Ready(s) && c.dir == In && |data| <= s.regs.Get(s.hwSlot).length
    ensures Inv(c, plan, Receive(c, s, data))
  {
    hide Window, Retired, Tracks, Control;
    ReadyShows(c, plan, s);
    var s' := Receive(c, s, data);
    var slot := s'.regs.Get(s.hwSlot);
    assert slot.Payload() == data;
    assert Moved(c, plan, s'.sent, s'.accepted, s'.devToggle);
    EndsAppend(c, plan, s.sent, data, s'.complete);
    assert Processed(c, slot, data);
    hide Inv, Moved, Completes, Processed;
    ProcessedKeeps(c, plan, s, s', slot, data);
  }

  lemma TransmitKeeps(c: Config, plan: seq<Packet>, s: State)
    requires Inv(c, plan, s) && Ready(s) && c.dir == Out
    ensures Inv(c, plan, Transmit(c, s))
  {
    hide Window, Retired, Tracks, Control;
    ReadyShows(c, plan, s);
    var s' := Transmit(c, s);
    var h, payload := |s.sent|, s.regs.Get(s.hwSlot).Payload();
    var slot := s'.regs.Get(s.hwSlot);
    OffsetStep(plan, h);
    FlatSnoc(s.sent, payload);
    assert Moved(c, plan, s'.sent, s'.accepted, s'.devToggle);
    EndsAppend(c, plan, s.sent, payload, s'.complete);
    assert Processed(c, slot, payload);
    hide Inv, Moved, Completes, Processed;
    ProcessedKeeps(c, plan, s, s', slot, payload);
  }

  lemma FaultKeeps(c: Config, plan: seq<Packet>, s: State, e: UsbError)
    requires Inv(c, plan, s) && e != DataSeqError
    ensures Inv(c, plan, s.(error := Some(e), halted := true))
  {
  }

  lemma NextKeeps(c: Config, plan: seq<Packet>, s: State, s': State)
    requires plan == PlanOf(c) && Inv(c, plan, s) && Next(c, s, s')
    ensures Inv(c, plan, s')
  {
    assert s.error != Some(DataSeqError);
    hide Inv;
    if s' == DriverStep(c, s) {
      DriverKeeps(c, plan, s, s');
    } else if OthersNext(c, s, s') {
      SignalsKeep(c, plan, s, s.error, s.done, s'.stray);
    } else if c.dir == In && exists data: seq<u8> :: |data| <= s.regs.Get(s.hwSlot).length && s' == Receive(c, s, data) {
      var data: seq<u8> :| |data| <= s.regs.Get(s.hwSlot).length && s' == Receive(c, s, data);
      ReceiveKeeps(c, plan, s, data);
    } else if c.dir == Out && s' == Transmit(c, s) {
      TransmitKeeps(c, plan, s);
    } else {
      var e: UsbError :| e != DataSeqError && s' == s.(error := Some(e), halted := true);
      FaultKeeps(c, plan, s, e);
    }
  }

  /** Every reachable state satisfies the invariant. */
  lemma {:induction false} RunKeeps(c: Config, run: seq<State>, i: nat)
    requires Runnable(c) && Run(c, c.toggle, run) && i < |run|
    ensures Inv(c, PlanOf(c), run[i])
  {
    if i == 0 {
      InitHolds(c, run[0]);
    } else {
      RunKeeps(c, run, i - 1);
      hide Inv;
      NextKeeps(c, PlanOf(c), run[i - 1], run[i]);
    }
  }
}
