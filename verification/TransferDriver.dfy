/** The driver's own objects and loop, as the source has them: packetisers and
  * depacketisers whose fields and buffers are updated in place, and the loop of
  * `control_transfer_inner`. Each is proved to take exactly the steps of
  * TransferProtocol, so the results about runs are results about this code.
  */
module TransferDriver {
  import opened Machine
  import opened Packets
  import opened TransferProtocol
  import opened TransferSafety
  import opened TransferResults
  import opened TransferProgress

  /** The EP_BUFFER_CONTROL register pair and the memory behind it. */
  class BufferControl {
    var regs: Regs

    constructor (regs: Regs)
      ensures this.regs == regs
    {
      this.regs := regs;
    }
  }

  /** InPacketiser and OutPacketiser: the `dir` field picks the implementation of the trait. */
  class Packetiser {
    const dir: Direction
    const initialToggle: bool
    const packetSize: PacketSize
    const buf: seq<u8>
    var nextPrep: nat
    var remain: nat
    var offset: nat
    var needZlp: bool

    constructor (dir: Direction, size: nat, packetSize: PacketSize, buf: seq<u8>, toggle: bool,
                 zlp: ZeroLengthPacket)
      ensures this.dir == dir && this.packetSize == packetSize && this.buf == buf
      ensures initialToggle == toggle && offset == 0
      ensures View() == Start(size, packetSize, zlp)
    {
      this.dir, this.packetSize, this.buf, initialToggle := dir, packetSize, buf, toggle;
      nextPrep, remain, offset := 0, size, 0;
      needZlp := match zlp case Never => size == 0 case AsNeeded => size % packetSize == 0;
    }

    ghost function View(): Prep
      reads this
    {
      Prep(nextPrep, remain, needZlp)
    }

    method NextPacket() returns (packet: Option<Packet>)
      modifies this`needZlp
      ensures packet == Packets.NextPacket(old(View()), packetSize)
      ensures needZlp == (old(needZlp) && remain != 0)
    {
      if remain == 0 {
        if needZlp {
          needZlp := false;
          return Some(Packet(0, true));
        }
        return None;
      }
      if remain < packetSize {
        return Some(Packet(remain, true));
      }
      if remain > packetSize {
        return Some(Packet(packetSize, false));
      }
      return Some(Packet(remain, !needZlp));
    }

    method PrepareIn(reg: BufferControl) returns (done: bool)
      modifies this`nextPrep, this`remain, this`needZlp, reg
      ensures match TransferProtocol.PrepareIn(old(View()), packetSize, initialToggle, old(reg.regs))
        case Idle => !done && View() == old(View()) && reg.regs == old(reg.regs)
        case Did((prep, regs)) => done && View() == prep && reg.regs == regs
        case OutOfBounds => false
    {
      var slot := reg.regs.Get(nextPrep);
      if slot.available {
        return false;
      }
      var packet := NextPacket();
      if packet.None? {
        return false;
      }
      remain := remain - packet.value.len;
      slot := slot.(full := false, pid := initialToggle != (nextPrep != 0), last := packet.value.last,
                    length := packetSize);
      reg.regs := reg.regs.Set(nextPrep, slot.(available := true));
      nextPrep := if nextPrep == 0 then 1 else 0;
      return true;
    }

    /** `done` is what the source returns; `panicked` is the out-of-bounds index. */
    method PrepareOut(reg: BufferControl) returns (done: bool, panicked: bool)
      modifies this`nextPrep, this`remain, this`needZlp, this`offset, reg
      ensures match TransferProtocol.PrepareOut(old(View()), old(offset), packetSize, initialToggle, buf,
                                                old(reg.regs))
        case Idle =>
          !done && !panicked && View() == old(View()) && offset == old(offset) && reg.regs == old(reg.regs)
        case OutOfBounds => !done && panicked
        case Did((prep, offset', regs)) =>
          done && !panicked && View() == prep && offset == offset' && reg.regs == regs
    {
      var slot := reg.regs.Get(nextPrep);
      if slot.available {
        return false, false;
      }
      var packet := NextPacket();
      if packet.None? {
        return false, false;
      }
      var len := packet.value.len;
      if nextPrep != 0 || len > 0 {
        // the index &self.buf[self.offset], and the bytes copied from there
        if offset >= |buf| || offset + len > |buf| {
          return false, true;
        }
      }
      slot := slot.(data := Copied(slot.data, len, offset, buf));
      slot := slot.(full := true, pid := initialToggle != (nextPrep != 0), last := packet.value.last,
                    length := len);
      reg.regs := reg.regs.Set(nextPrep, slot.(available := true));
      remain := remain - len;
      offset := offset + len;
      nextPrep := if nextPrep == 0 then 1 else 0;
      return true, false;
    }
  }

  /** InDepacketiser and OutDepacketiser. */
  class Depacketiser {
    const dir: Direction
    const buf: array<u8>
    var nextRetire: nat
    var packetParity: bool
    var remain: nat
    var offset: nat

    constructor (dir: Direction, size: nat, buf: array<u8>)
      ensures this.dir == dir && this.buf == buf
      ensures View() == Ret(0, false, size, 0)
    {
      this.dir, this.buf := dir, buf;
      nextRetire, packetParity, remain, offset := 0, false, size, 0;
    }

    ghost function View(): Ret
      reads this
    {
      Ret(nextRetire, packetParity, remain, offset)
    }

    /** Copies `data` into the caller's buffer at the current offset, byte by byte. */
    method CopyIn(data: seq<u8>)
      requires offset + |data| <= buf.Length
      modifies buf
      ensures buf[..] == old(buf[..offset]) + data + old(buf[offset + |data|..])
    {
      for i := 0 to |data|
        invariant forall k :: 0 <= k < offset ==> buf[k] == old(buf[k])
        invariant forall k :: 0 <= k < i ==> buf[offset + k] == data[k]
        invariant forall k :: offset + i <= k < buf.Length ==> buf[k] == old(buf[k])
      {
        buf[offset + i] := data[i];
      }
    }

    method RetireIn(reg: BufferControl) returns (done: bool, panicked: bool)
      modifies this, buf
      ensures match TransferProtocol.RetireIn(old(View()), old(buf[..]), reg.regs)
        case Idle => !done && !panicked && View() == old(View()) && buf[..] == old(buf[..])
        case OutOfBounds => !done && panicked
        case Did((ret, buf')) => done && !panicked && View() == ret && buf[..] == buf'
    {
      var slot := reg.regs.Get(nextRetire);
      if !slot.full {
        return false, false;
      }
      packetParity := !packetParity;
      var thisPacket := Min(remain, slot.length);
      if offset + thisPacket > buf.Length {
        return false, true;
      }
      CopyIn(slot.data[..thisPacket]);
      remain := remain - thisPacket;
      offset := offset + thisPacket;
      nextRetire := if nextRetire == 0 then 1 else 0;
      return true, false;
    }

    method RetireOut(reg: BufferControl) returns (done: bool)
      modifies this
      ensures match TransferProtocol.RetireOut(old(View()), reg.regs)
        case Idle => !done && View() == old(View())
        case Did(ret) => done && View() == ret
        case OutOfBounds => false
    {
      if reg.regs.Get(nextRetire).full {
        return false;
      }
      packetParity := !packetParity;
      nextRetire := if nextRetire == 0 then 1 else 0;
      return true;
    }
  }

  /** What may happen at some moment: the device answers an IN, takes an OUT, or fails; or
    * another endpoint's completion shows in buff_status, or no longer does.
    */
  datatype Action = Reply(data: seq<u8>) | Accept | Fault(error: UsbError) | Stray(shows: bool)

  datatype End = Pending | Finished | FailedWith(error: UsbError) | Crashed

  /** The state after `a`, if it is possible; otherwise nothing happens. */
  function Acted(c: Config, s: State, a: Action): State {
    match a
    case Reply(data) =>
      if Ready(s) && c.dir == In && |data| <= s.regs.Get(s.hwSlot).length then Receive(c, s, data) else s
    case Accept => if Ready(s) && c.dir == Out then Transmit(c, s) else s
    case Fault(e) => if Ready(s) && e != DataSeqError then s.(error := Some(e), halted := true) else s
    case Stray(shows) => if c.others then s.(stray := shows) else s
  }

  function AllActed(c: Config, s: State, actions: seq<Action>): State {
    if actions == [] then s
    else Acted(c, AllActed(c, s, actions[..|actions| - 1]), actions[|actions| - 1])
  }

  /** The state after `n` driver steps, with `bus(t)` happening before the t-th of them. */
  ghost function Driven(c: Config, s: State, bus: nat -> seq<Action>, n: nat): State {
    if n == 0 then s else DriverStep(c, AllActed(c, Driven(c, s, bus, n - 1), bus(n - 1)))
  }

  lemma DrivenNone(c: Config, s: State, bus: nat -> seq<Action>)
    ensures Driven(c, s, bus, 0) == s
  {
  }

  lemma DrivenStep(c: Config, s: State, bus: nat -> seq<Action>, n: nat)
    ensures Driven(c, s, bus, n + 1) == DriverStep(c, AllActed(c, Driven(c, s, bus, n), bus(n)))
  {
    hide DriverStep, AllActed;
  }

  /** The start of a transfer, whatever was in the registers, and with `left` completions of
    * earlier transfers not yet cleared away.
    */
  function Begin(c: Config, regs: Regs, left: nat): State {
    State(Prepare1, Start(c.size, c.packetSize, c.zlp), 0, Ret(0, false, c.size, 0), c.buf, 0, false,
          Regs(regs.slot0.(available := false, full := false), regs.slot1.(available := false, full := false)),
          0, false, None, false, left, false, c.toggle, 0, [], [], [])
  }

  lemma ActedIsNext(c: Config, s: State, a: Action)
    ensures Acted(c, s, a) == s || Next(c, s, Acted(c, s, a))
  {
    hide DriverStep, Receive, Transmit;
  }

  lemma {:induction false} ActedRuns(c: Config, device: bool, run: seq<State>, actions: seq<Action>)
    returns (run': seq<State>)
    requires Run(c, device, run)
    ensures Run(c, device, run') && |run'| > 0
    ensures run'[|run'| - 1] == AllActed(c, run[|run| - 1], actions)
    decreases |actions|
  {
    assert |run| > 0;
    hide Run, Acted, Next;
    if actions == [] {
      run' := run;
    } else {
      run' := ActedRuns(c, device, run, actions[..|actions| - 1]);
      var s := run'[|run'| - 1];
      var a := actions[|actions| - 1];
      ActedIsNext(c, s, a);
      if Acted(c, s, a) != s {
        RunExtends(c, device, run', Acted(c, s, a));
        run' := run' + [Acted(c, s, a)];
      }
    }
  }

  /** Whatever the bus does, the driver goes through a run of the protocol. */
  lemma {:induction false} DrivenRuns(c: Config, regs: Regs, left: nat, bus: nat -> seq<Action>, n: nat)
    returns (run: seq<State>)
    ensures Run(c, c.toggle, run) && |run| > 0 && run[|run| - 1] == Driven(c, Begin(c, regs, left), bus, n)
    decreases n
  {
    if n == 0 {
      run := [Begin(c, regs, left)];
    } else {
      hide Run, AllActed, Begin;
      run := DrivenRuns(c, regs, left, bus, n - 1);
      run := ActedRuns(c, c.toggle, run, bus(n - 1));
      var s' := DriverStep(c, run[|run| - 1]);
      hide DriverStep;
      RunExtends(c, c.toggle, run, s');
      run := run + [s'];
    }
  }

  function MovedOn(s: State, next: Pc): State {
    s.(pc := next)
  }

  function TookBack(s: State, ret: Ret, buf: seq<u8>): State {
    s.(ret := ret, buf := buf)
  }

  ghost function CountedOff(s: State, lowered: nat, payload: seq<u8>): State
    requires lowered <= s.inFlight
  {
    s.(inFlight := s.inFlight - lowered, retired := s.retired + [payload])
  }

  lemma RetiredStateIs(s: State, next: Pc, lowered: nat, ret: Ret, buf: seq<u8>)
    requires lowered <= s.inFlight
    ensures MovedOn(TookBack(s, ret, buf), next).inFlight == s.inFlight
    ensures RetiredState(s, next, lowered, ret, buf)
         == CountedOff(MovedOn(TookBack(s, ret, buf), next), lowered, s.regs.Get(s.ret.slot).Payload())
  {
  }

  /** The hardware's own variables, and the device's toggle. */
  datatype Hardware = Hardware(
    slot: nat, complete: bool, error: Option<UsbError>, halted: bool, done: nat, stray: bool, devToggle: bool)

  datatype History = History(
    prepared: nat, sent: seq<seq<u8>>, accepted: seq<seq<u8>>, retired: seq<seq<u8>>)

  /** One transfer in progress: the driver's variables and the hardware's. */
  class Transfer {
    const c: Config
    const pk: Packetiser
    const dp: Depacketiser
    const reg: BufferControl
    var inFlight: nat
    var started: bool
    var hw: Hardware
    ghost var past: History

    ghost function Current(pc: Pc): State
      reads this, pk, dp, dp.buf, reg
    {
      State(pc, pk.View(), pk.offset, dp.View(), if c.dir == In then dp.buf[..] else pk.buf,
            inFlight, started, reg.regs, hw.slot, hw.complete, hw.error, hw.halted, hw.done, hw.stray,
            hw.devToggle, past.prepared, past.sent, past.accepted, past.retired)
    }

    /** The packetiser and depacketiser were made for this transfer. */
    ghost predicate Owns() {
      && pk.dir == dp.dir == c.dir
      && pk.packetSize == c.packetSize && pk.initialToggle == c.toggle
      && (c.dir == Out ==> pk.buf == c.buf)
    }

    constructor (c: Config, buf: array<u8>, regs: Regs, left: nat)
      requires c.dir == In ==> buf[..] == c.buf
      ensures this.c == c && dp.buf == buf && fresh(pk) && fresh(dp) && fresh(reg)
      ensures Owns() && Current(Prepare1) == Begin(c, regs, left)
    {
      this.c := c;
      pk := new Packetiser(c.dir, c.size, c.packetSize, c.buf, c.toggle, c.zlp);
      dp := new Depacketiser(c.dir, c.size, buf);
      reg := new BufferControl(Regs(regs.slot0.(available := false, full := false),
                                    regs.slot1.(available := false, full := false)));
      inFlight, started := 0, false;
      hw := Hardware(0, false, None, false, left, false, c.toggle);
      past := History(0, [], [], []);
    }

    /** The device answers with a PID other than the one expected. */
    method HardwareRejects(data: seq<u8>, ghost pc: Pc)
      requires |data| <= reg.regs.Get(hw.slot).length && reg.regs.Get(hw.slot).pid != hw.devToggle
      modifies this
      ensures Current(pc) == Receive(c, old(Current(pc)), data)
    {
      hw := hw.(error := Some(DataSeqError), halted := true);
    }

    /** The hardware is done with its slot. */
    method SlotDone(slot: Slot, hw': Hardware, ghost past': History, ghost pc: Pc)
      requires hw'.error == hw.error && hw'.halted == hw.halted && hw'.stray == hw.stray
      requires past' == past.(sent := past'.sent, accepted := past'.accepted)
      modifies this, reg
      ensures Current(pc) == old(Current(pc)).(
        regs := old(reg.regs).Set(old(hw.slot), slot), hwSlot := hw'.slot, complete := hw'.complete, done := hw'.done,
        devToggle := hw'.devToggle, sent := past'.sent, accepted := past'.accepted)
    {
      hide Regs.Set;
      ghost var filled := dp.buf[..];
      reg.regs := reg.regs.Set(hw.slot, slot);
      hw, past := hw', past';
      assert dp.buf[..] == filled;
    }

    /** The device answers the slot the hardware is on. */
    method HardwareReceives(data: seq<u8>, ghost pc: Pc)
      requires |data| <= reg.regs.Get(hw.slot).length && reg.regs.Get(hw.slot).pid == hw.devToggle
      modifies this, reg
      ensures Current(pc) == Receive(c, old(Current(pc)), data)
    {
      hide Slot.Received, Completed, Regs.Set;
      var slot := reg.regs.Get(hw.slot);
      SlotDone(slot.Received(data),
               hw.(slot := Other(hw.slot), complete := slot.last || |data| < slot.length,
                   done := Completed(c, hw.done), devToggle := !hw.devToggle),
               past.(sent := past.sent + [data], accepted := past.accepted + [data]), pc);
    }

    /** The device takes the slot the hardware is on. */
    method HardwareTransmits(ghost pc: Pc)
      modifies this, reg
      ensures Current(pc) == Transmit(c, old(Current(pc)))
    {
      hide Slot.Sent, Slot.Payload, Completed, Regs.Set;
      var slot := reg.regs.Get(hw.slot);
      ghost var payload := slot.Payload();
      var hw' := hw.(slot := Other(hw.slot), complete := slot.last, done := Completed(c, hw.done));
      ghost var past' := past.(sent := past.sent + [payload]);
      if slot.pid == hw.devToggle {
        SlotDone(slot.Sent(), hw'.(devToggle := !hw.devToggle), past'.(accepted := past.accepted + [payload]), pc);
      } else {
        SlotDone(slot.Sent(), hw', past', pc);
      }
    }

    /** `a` happens if it can. */
    method Act(a: Action, ghost pc: Pc)
      modifies this, reg
      ensures Current(pc) == Acted(c, old(Current(pc)), a)
    {
      hide Receive, Transmit;
      var slot := reg.regs.Get(hw.slot);
      var ready := started && !hw.complete && !hw.halted && slot.available;
      if a.Reply? && ready && c.dir == In && |a.data| <= slot.length {
        if slot.pid == hw.devToggle {
          HardwareReceives(a.data, pc);
        } else {
          HardwareRejects(a.data, pc);
        }
      } else if a.Accept? && ready && c.dir == Out {
        HardwareTransmits(pc);
      } else if a.Fault? && ready && a.error != DataSeqError {
        hw := hw.(error := Some(a.error), halted := true);
      } else if a.Stray? && c.others {
        hw := hw.(stray := a.shows);
      }
    }

    /** All of these happen, in order. */
    method Interfere(actions: seq<Action>, ghost pc: Pc)
      modifies this, reg
      ensures Current(pc) == AllActed(c, old(Current(pc)), actions)
    {
      hide Acted, Transfer.Current;
      assert actions[..0] == [];
      for i := 0 to |actions|
        invariant Current(pc) == AllActed(c, old(Current(pc)), actions[..i])
      {
        Act(actions[i], pc);
        assert actions[..i + 1][..i] == actions[..i];
      }
      assert actions[..|actions|] == actions;
    }

    /** `packetiser.prepare(reg)` */
    method CallPrepare(ghost pc: Pc) returns (done: bool, crashed: bool)
      requires Owns()
      modifies pk, reg
      ensures match Prepare(c, old(Current(pc)))
        case Idle => !done && !crashed && Current(pc) == old(Current(pc))
        case OutOfBounds => !done && crashed
        case Did((prep, offset, regs)) =>
          && done && !crashed
          && Current(pc) == old(Current(pc)).(prep := prep, offset := offset, regs := regs)
    {
      crashed := false;
      if c.dir == In {
        done := pk.PrepareIn(reg);
      } else {
        done, crashed := pk.PrepareOut(reg);
      }
    }

    /** `depacketiser.retire(reg)` */
    method CallRetire(ghost pc: Pc) returns (done: bool, crashed: bool)
      requires Owns()
      modifies dp, dp.buf
      ensures match Retire(c, old(Current(pc)))
        case Idle => !done && !crashed && Current(pc) == old(Current(pc))
        case OutOfBounds => !done && crashed
        case Did((ret, buf)) => done && !crashed && Current(pc) == TookBack(old(Current(pc)), ret, buf)
    {
      crashed := false;
      if c.dir == In {
        done, crashed := dp.RetireIn(reg);
      } else {
        done := dp.RetireOut(reg);
      }
    }

    /** `if in_flight < 2 && packetiser.prepare(..) { in_flight += 1; }` */
    method PrepareStep(ghost pc: Pc, ghost next: Pc) returns (crashed: bool)
      requires Owns()
      modifies this`inFlight, this`past, pk, reg
      ensures var s' := TryPrepare(c, old(Current(pc)), next);
        if crashed then s'.pc == Panicked else Current(next) == s'
    {
      hide Prepare, TryPrepare;
      ghost var s := Current(pc);
      TryPrepareIs(c, s, next);
      if inFlight >= 2 {
        assert Current(next) == s.(pc := next);
        return false;
      }
      var done;
      done, crashed := CallPrepare(pc);
      if crashed {
        return;
      }
      if done {
        ghost var did := Prepare(c, s).value;
        inFlight, past := inFlight + 1, past.(prepared := past.prepared + 1);
        assert Current(next) == PreparedState(s, next, did.0, did.1, did.2);
      } else {
        assert Current(next) == s.(pc := next);
      }
      hide Transfer.Current, PreparedState;
    }

    /** `if in_flight > 0 && depacketiser.retire(..) { in_flight -= lowered; }` */
    method RetireStep(ghost pc: Pc, ghost next: Pc, lowered: nat) returns (crashed: bool)
      requires Owns() && lowered <= 1
      modifies this`inFlight, this`past, dp, dp.buf
      ensures var s' := TryRetire(c, old(Current(pc)), next, lowered);
        if crashed then s'.pc == Panicked else Current(next) == s'
    {
      hide TryRetire, Retire;
      TryRetireIs(c, Current(pc), next, lowered);
      if inFlight > 0 {
        crashed := RetireOne(pc, next, lowered);
      } else {
        crashed := false;
      }
    }

    method RetireOne(ghost pc: Pc, ghost next: Pc, lowered: nat) returns (crashed: bool)
      requires Owns() && lowered <= 1 && inFlight > 0
      modifies this`inFlight, this`past, dp, dp.buf
      ensures var s := old(Current(pc)); var tried := Retire(c, s);
        && (crashed <==> tried.OutOfBounds?)
        && (tried.Idle? ==> Current(next) == MovedOn(s, next))
        && (tried.Did? ==> Current(next) == RetiredState(s, next, lowered, tried.value.0, tried.value.1))
    {
      hide Retire, Slot.Payload, RetiredState, MovedOn, TookBack, CountedOff;
      ghost var s := Current(pc);
      assert s.inFlight == inFlight;
      hide Transfer.Current;
      var done;
      done, crashed := CallRetire(pc);
      CurrentMoves(pc, next);
      if done {
        ghost var did := Retire(c, s).value;
        RetiredStateIs(s, next, lowered, did.0, did.1);
        Advance(next, lowered, s.regs.Get(s.ret.slot).Payload());
      }
    }

    lemma CurrentMoves(pc: Pc, next: Pc)
      ensures Current(next) == MovedOn(Current(pc), next)
    {
    }

    /** The driver's own part of a `retire`. */
    method Advance(ghost pc: Pc, lowered: nat, ghost payload: seq<u8>)
      requires lowered <= inFlight
      modifies this`inFlight, this`past
      ensures old(Current(pc)).inFlight == old(inFlight)
      ensures Current(pc) == CountedOff(old(Current(pc)), lowered, payload)
    {
      ghost var filled := dp.buf[..];
      inFlight, past := inFlight - lowered, past.(retired := past.retired + [payload]);
      assert dp.buf[..] == filled;
    }

    /** What happens first, and then a `prepare`. */
    method PrepareAt(ghost pc: Pc, ghost next: Pc, actions: seq<Action>) returns (crashed: bool)
      requires Owns()
      requires (pc == Prepare1 && next == Prepare2) || (pc == Prepare2 && next == Pc.Arm)
      modifies this, pk, reg
      ensures var s' := DriverStep(c, AllActed(c, old(Current(pc)), actions));
        if crashed then s'.pc == Panicked else Current(next) == s'
    {
      hide AllActed, TryPrepare;
      Interfere(actions, pc);
      crashed := PrepareStep(pc, next);
    }

    /** What happens first, and then a `retire`. */
    method RetireAt(ghost pc: Pc, ghost next: Pc, lowered: nat, actions: seq<Action>) returns (crashed: bool)
      requires Owns() && RetiresAt(pc, next) && lowered == (if next == Done then 0 else 1)
      modifies this, dp, dp.buf, reg
      ensures var s' := DriverStep(c, AllActed(c, old(Current(pc)), actions));
        if crashed then s'.pc == Panicked else Current(next) == s'
    {
      hide AllActed, TryRetire;
      Interfere(actions, pc);
      crashed := RetireStep(pc, next, lowered);
    }

    /** What happens first; then the error bits and buff_status are cleared and, the first time,
      * the hardware is started.
      */
    method ArmAt(actions: seq<Action>)
      modifies this, reg
      ensures Current(Await) == DriverStep(c, AllActed(c, old(Current(Pc.Arm)), actions))
    {
      hide AllActed;
      Interfere(actions, Pc.Arm);
      hw := hw.(error := None, done := Acknowledged(hw.done));
      started := true;
    }

    /** The first half of `poll`: the status is read. */
    method StatusAt(actions: seq<Action>) returns (wasComplete: bool, status: Option<UsbError>)
      modifies this, reg
      ensures Current(Polled(wasComplete, status)) == DriverStep(c, AllActed(c, old(Current(Await)), actions))
    {
      hide AllActed;
      Interfere(actions, Await);
      return hw.complete, hw.error;
    }

    /** The second half: whether it is ready, by the interrupts; the error bits are cleared. */
    method InterruptsAt(ghost wasComplete: bool, ghost status: Option<UsbError>, actions: seq<Action>)
      returns (ready: bool)
      modifies this, reg
      ensures Current(if ready then Woken(wasComplete, status) else Await)
           == DriverStep(c, AllActed(c, old(Current(Polled(wasComplete, status))), actions))
    {
      hide AllActed;
      Interfere(actions, Polled(wasComplete, status));
      ready := hw.complete || hw.done > 0 || hw.stray || (hw.error.Some? && Rousing(hw.error.value));
      hw := hw.(error := None);
    }

    /** After the wait: buff_status is cleared. */
    method WokenAt(ghost wasComplete: bool, ghost status: Option<UsbError>, actions: seq<Action>)
      modifies this, reg
      ensures Current(After(wasComplete, status))
           == DriverStep(c, AllActed(c, old(Current(Woken(wasComplete, status))), actions))
    {
      hide AllActed;
      Interfere(actions, Woken(wasComplete, status));
      hw := hw.(done := Acknowledged(hw.done));
    }

    /** How far a transfer has got, in `n` steps. It is left pending only after `steps` of them. */
    ghost predicate Reached(end: End, s: State, steps: nat, n: nat)
      reads this, pk, dp, dp.buf, reg
    {
      match end
      case Pending => (s == Current(Prepare1) || s == Current(Await)) && n >= steps
      case Finished => s == Current(Done)
      case FailedWith(e) => s == Current(Failed(e))
      case Crashed => s.pc == Panicked
    }

    /** The loop of `control_transfer_inner`: the driver steps of the protocol, with what the bus
      * does at each moment in between.
      */
    method ControlTransferInner(steps: nat, bus: nat -> seq<Action>) returns (end: End, n: nat)
      requires Owns()
      modifies this, pk, dp, dp.buf, reg
      ensures Reached(end, Driven(c, old(Current(Prepare1)), bus, n), steps, n)
    {
      hide DriverStep, AllActed, Driven, Transfer.Current;
      n := 0;
      ghost var start := Current(Prepare1);
      DrivenNone(c, start, bus);
      while n < steps
        invariant Current(Prepare1) == Driven(c, start, bus, n)
        decreases steps - n
      {
        var e;
        e, n := Pass(bus, n, steps, start);
        if e.Some? {
          return e.value, n;
        }
      }
      return Pending, n;
    }

    /** One time round the loop; None: go round again. */
    method Pass(bus: nat -> seq<Action>, t: nat, steps: nat, ghost start: State)
      returns (end: Option<End>, n: nat)
      requires Owns() && Current(Prepare1) == Driven(c, start, bus, t)
      modifies this, pk, dp, dp.buf, reg
      ensures end.None? ==> n > t && Current(Prepare1) == Driven(c, start, bus, n)
      ensures end.Some? ==> Reached(end.value, Driven(c, start, bus, n), steps, n)
    {
      hide DriverStep, AllActed, Driven, Transfer.Current;
      var crashed;
      crashed, n := Fill(bus, t, start);
      if crashed {
        return Some(Crashed), n;
      }
      var woken, wasComplete, status;
      woken, wasComplete, status, n := Wait(bus, n, steps, start);
      if !woken {
        return Some(Pending), n;
      }
      WokenAt(wasComplete, status, bus(n));
      DrivenStep(c, start, bus, n);
      n := n + 1;
      if wasComplete {
        crashed, n := RetireTwice(Finish1, Finish2, Done, 0, bus, n, start);
        end := Some(if crashed then Crashed else Finished);
        return;
      }
      if status.Some? {
        end := Some(FailedWith(status.value));
        return;
      }
      crashed, n := RetireTwice(Retire1, Retire2, Prepare1, 1, bus, n, start);
      end := if crashed then Some(Crashed) else None;
    }

    /** As far as the wait. */
    method Fill(bus: nat -> seq<Action>, t: nat, ghost start: State) returns (crashed: bool, n: nat)
      requires Owns() && Current(Prepare1) == Driven(c, start, bus, t)
      modifies this, pk, reg
      ensures n > t
      ensures if crashed then Driven(c, start, bus, n).pc == Panicked else Current(Await) == Driven(c, start, bus, n)
    {
      hide DriverStep, AllActed, Driven, Transfer.Current;
      crashed := PrepareAt(Prepare1, Prepare2, bus(t));
      DrivenStep(c, start, bus, t);
      if crashed {
        return true, t + 1;
      }
      crashed := PrepareAt(Prepare2, Pc.Arm, bus(t + 1));
      DrivenStep(c, start, bus, t + 1);
      if crashed {
        return true, t + 2;
      }
      ArmAt(bus(t + 2));
      DrivenStep(c, start, bus, t + 2);
      return false, t + 3;
    }

    /** `f.await`: polled until it is ready, or time is up. */
    method Wait(bus: nat -> seq<Action>, t: nat, steps: nat, ghost start: State)
      returns (woken: bool, wasComplete: bool, status: Option<UsbError>, n: nat)
      requires Current(Await) == Driven(c, start, bus, t)
      modifies this, reg
      ensures n >= t
      ensures if woken then Current(Woken(wasComplete, status)) == Driven(c, start, bus, n)
              else n >= steps && Current(Await) == Driven(c, start, bus, n)
    {
      hide DriverStep, AllActed, Driven, Transfer.Current;
      n, woken, wasComplete, status := t, false, false, None;
      while n < steps
        invariant n >= t && Current(Await) == Driven(c, start, bus, n)
        decreases steps - n
      {
        wasComplete, status := StatusAt(bus(n));
        DrivenStep(c, start, bus, n);
        woken := InterruptsAt(wasComplete, status, bus(n + 1));
        DrivenStep(c, start, bus, n + 1);
        n := n + 2;
        if woken {
          return;
        }
      }
      woken := false;
    }

    /** The two retires of the loop, or of its end. */
    method RetireTwice(ghost pc: Pc, ghost mid: Pc, ghost next: Pc, lowered: nat, bus: nat -> seq<Action>, t: nat,
                       ghost start: State)
      returns (crashed: bool, n: nat)
      requires Owns() && Current(pc) == Driven(c, start, bus, t)
      requires (pc == Retire1 && mid == Retire2 && next == Prepare1 && lowered == 1)
            || (pc == Finish1 && mid == Finish2 && next == Done && lowered == 0)
      modifies this, dp, dp.buf, reg
      ensures n > t
      ensures if crashed then Driven(c, start, bus, n).pc == Panicked else Current(next) == Driven(c, start, bus, n)
    {
      hide DriverStep, AllActed, Driven, Transfer.Current;
      crashed := RetireAt(pc, mid, 1, bus(t));
      DrivenStep(c, start, bus, t);
      if crashed {
        return true, t + 1;
      }
      crashed := RetireAt(mid, next, lowered, bus(t + 1));
      DrivenStep(c, start, bus, t + 1);
      return crashed, t + 2;
    }
  }

  /** The `Cell<bool>` an endpoint keeps its data toggle in. */
  class DataToggle {
    var value: bool

    constructor ()
      ensures !value
    {
      value := false;
    }
  }

  /** Where a transfer is that ended so. */
  predicate EndsAt(end: End, pc: Pc) {
    match end
    case Pending => pc == Prepare1 || pc == Await
    case Finished => pc == Done
    case FailedWith(e) => pc == Failed(e)
    case Crashed => pc == Panicked
  }

  /** `bulk_in_transfer`. It goes where the protocol goes with what the bus does. Success means
    * the bytes received are in `data` and the endpoint's toggle is the one the device has
    * moved to; anything else leaves the toggle alone.
    */
  method BulkInTransfer(packetSize: PacketSize, data: array<u8>, zlp: ZeroLengthPacket, toggle: DataToggle,
                        others: bool, regs: Regs, left: nat, steps: nat, bus: nat -> seq<Action>)
    returns (end: End, total: nat, n: nat)
    modifies data, toggle
    ensures
      var c := Config(In, AsU16(data.Length), AsU16(data.Length), packetSize, zlp, old(toggle.value),
                      old(data[..]), others);
      var s := Driven(c, Begin(c, regs, left), bus, n);
      && EndsAt(end, s.pc) && (end.Pending? ==> n >= steps)
      && (end.Finished? ==>
            && total == Min(AsU16(data.Length), |Flat(s.sent)|)
            && data[..] == Flat(s.sent)[..total] + old(data[..])[total..]
            && toggle.value == s.devToggle)
      && (!end.Finished? ==> toggle.value == old(toggle.value))
      && !end.Crashed?
      && EndsInTime(c, Begin(c, regs, left), bus, steps, end)
  {
    hide Run, Driven, Begin, Flat;
    var c := Config(In, AsU16(data.Length), AsU16(data.Length), packetSize, zlp, toggle.value, data[..], others);
    var transfer := new Transfer(c, data, regs, left);
    end, n := transfer.ControlTransferInner(steps, bus);
    total := transfer.dp.offset;
    ghost var run := DrivenRuns(c, regs, left, bus, n);
    BulkInEnds(c, run);
    hide EndsInTime;
    InTime(c, regs, left, bus, steps, end, n);
    ghost var filled := data[..];
    if end.Finished? {
      toggle.value := toggle.value != transfer.dp.packetParity;
      assert data[..] == filled;
    }
  }

  lemma BulkInEnds(c: Config, run: seq<State>)
    requires Runnable(c) && Run(c, c.toggle, run) && c.dir == In
    ensures var s := run[|run| - 1];
      && s.pc != Panicked
      && (s.pc == Done ==>
            && s.ret.offset == Min(c.size, |Flat(s.sent)|)
            && s.buf == Flat(s.sent)[..s.ret.offset] + c.buf[s.ret.offset..]
            && (c.toggle != s.ret.parity) == s.devToggle)
  {
    assert |run| > 0;
    hide Run;
    PanicsOnly(c, run, |run| - 1);
    if run[|run| - 1].pc == Done {
      InSucceeds(c, run, |run| - 1);
      ToggleAfter(c, run, |run| - 1);
    }
  }

  /** `bulk_out_transfer`: success means the device has taken the data, and the toggles
    * agree. It crashes only on the transfer it cannot index.
    */
  method BulkOutTransfer(packetSize: PacketSize, data: seq<u8>, zlp: ZeroLengthPacket, toggle: DataToggle,
                         others: bool, regs: Regs, left: nat, steps: nat, bus: nat -> seq<Action>)
    returns (end: End, total: nat, n: nat)
    modifies toggle
    ensures
      var c := Config(Out, AsU16(|data|), |data|, packetSize, zlp, old(toggle.value), data, others);
      var s := Driven(c, Begin(c, regs, left), bus, n);
      && EndsAt(end, s.pc) && (end.Pending? ==> n >= steps)
      && (end.Finished? ==>
            && Flat(s.accepted) == data[..AsU16(|data|)]
            && total == |data|
            && toggle.value == s.devToggle)
      && (!end.Finished? ==> toggle.value == old(toggle.value))
      && (end.Crashed? ==> IndexesPastEnd(c))
      && EndsInTime(c, Begin(c, regs, left), bus, steps, end)
  {
    hide Run, Driven, Begin, Flat;
    var c := Config(Out, AsU16(|data|), |data|, packetSize, zlp, toggle.value, data, others);
    var none := new u8[0];
    var transfer := new Transfer(c, none, regs, left);
    end, n := transfer.ControlTransferInner(steps, bus);
    total := |data|;
    ghost var run := DrivenRuns(c, regs, left, bus, n);
    BulkOutEnds(c, run);
    hide EndsInTime;
    InTime(c, regs, left, bus, steps, end, n);
    if end.Finished? {
      toggle.value := toggle.value != transfer.dp.packetParity;
    }
  }

  lemma BulkOutEnds(c: Config, run: seq<State>)
    requires Runnable(c) && Run(c, c.toggle, run) && c.dir == Out
    ensures var s := run[|run| - 1];
      && (s.pc == Panicked ==> IndexesPastEnd(c))
      && (s.pc == Done ==> Flat(s.accepted) == c.buf[..c.size] && (c.toggle != s.ret.parity) == s.devToggle)
  {
    assert |run| > 0;
    hide Run, IndexesPastEnd;
    PanicsOnly(c, run, |run| - 1);
    if run[|run| - 1].pc == Done {
      OutSucceeds(c, run, |run| - 1);
      ToggleAfter(c, run, |run| - 1);
    }
  }

  // ---- when a transfer ends ----

  /** Nothing happens to a transfer that is over. */
  predicate Final(pc: Pc) {
    pc == Done || pc.Failed? || pc == Panicked
  }

  /** The wait has come to an error that is always reported. */
  ghost predicate SeesError(s: State, e: UsbError) {
    s.pc == Await && !s.complete && s.error == Some(e) && (e == Timeout || e == Stall)
  }

  lemma {:induction false} ActedKeepsPc(c: Config, s: State, actions: seq<Action>)
    ensures AllActed(c, s, actions).pc == s.pc
    decreases |actions|
  {
    hide Receive, Transmit;
    if actions != [] {
      ActedKeepsPc(c, s, actions[..|actions| - 1]);
      ReceiveKeepsPc(c, AllActed(c, s, actions[..|actions| - 1]), actions[|actions| - 1]);
    }
  }

  lemma ReceiveKeepsPc(c: Config, s: State, a: Action)
    ensures Acted(c, s, a).pc == s.pc
  {
    hide Slot.Received, Slot.Sent, Slot.Payload, Completed;
  }

  lemma {:induction false} FinalStays(c: Config, start: State, bus: nat -> seq<Action>, m: nat, n: nat)
    requires m <= n && Final(Driven(c, start, bus, m).pc)
    ensures Driven(c, start, bus, n).pc == Driven(c, start, bus, m).pc
    decreases n
  {
    hide AllActed, Driven, TryPrepare, TryRetire;
    if m < n {
      FinalStays(c, start, bus, m, n - 1);
      DrivenStep(c, start, bus, n - 1);
      ActedKeepsPc(c, Driven(c, start, bus, n - 1), bus(n - 1));
    }
  }

  /** A hardware that has stopped only lets other endpoints' completions come and go. */
  lemma {:induction false} HaltedActs(c: Config, s: State, actions: seq<Action>)
    requires s.halted
    ensures var s' := AllActed(c, s, actions); s' == s.(stray := s'.stray)
    decreases |actions|
  {
    hide Receive, Transmit;
    if actions != [] {
      HaltedActs(c, s, actions[..|actions| - 1]);
    }
  }

  /** A stall or a timeout seen in a wait is the transfer's result three steps on, whatever the
    * bus does in between.
    */
  lemma SeenIsReported(c: Config, regs: Regs, left: nat, bus: nat -> seq<Action>, m: nat, e: UsbError)
    requires SeesError(AllActed(c, Driven(c, Begin(c, regs, left), bus, m), bus(m)), e)
    ensures Driven(c, Begin(c, regs, left), bus, m + 3).pc == Failed(e)
  {
    var start := Begin(c, regs, left);
    var s0 := AllActed(c, Driven(c, start, bus, m), bus(m));
    var run := DrivenRuns(c, regs, left, bus, m);
    var run' := ActedRuns(c, c.toggle, run, bus(m));
    RunPlausible(c, run', |run'| - 1);
    hide Run, Begin, AllActed, Driven, DriverStep;
    DrivenStep(c, start, bus, m);
    DrivenStep(c, start, bus, m + 1);
    DrivenStep(c, start, bus, m + 2);
    ReportSteps(c, s0, e);
    var s1 := DriverStep(c, s0);
    HaltedActs(c, s1, bus(m + 1));
    var s1' := AllActed(c, s1, bus(m + 1));
    ReportSteps(c, s1', e);
    HaltedActs(c, DriverStep(c, s1'), bus(m + 2));
    ReportSteps(c, AllActed(c, DriverStep(c, s1'), bus(m + 2)), e);
  }

  lemma ReportSteps(c: Config, s: State, e: UsbError)
    requires !s.complete && (e == Timeout || e == Stall)
    ensures s.pc == Await && s.error == Some(e) ==> DriverStep(c, s) == s.(pc := Polled(false, Some(e)))
    ensures s.pc == Polled(false, Some(e)) && s.error == Some(e) ==>
      DriverStep(c, s) == s.(pc := Woken(false, Some(e)), error := None)
    ensures s.pc == Woken(false, Some(e)) ==> DriverStep(c, s).pc == Failed(e)
  {
    hide TryPrepare, TryRetire;
  }

  /** How a call that was given time for `steps` ends, of a transfer that goes so. */
  ghost predicate EndsInTime(c: Config, start: State, bus: nat -> seq<Action>, steps: nat, end: End) {
    && (forall m: nat :: m <= steps && Final(Driven(c, start, bus, m).pc) ==> EndsAt(end, Driven(c, start, bus, m).pc))
    && (forall m: nat, e :: m + 3 <= steps && SeesError(AllActed(c, Driven(c, start, bus, m), bus(m)), e) ==>
          end == FailedWith(e))
  }

  lemma InTime(c: Config, regs: Regs, left: nat, bus: nat -> seq<Action>, steps: nat, end: End, n: nat)
    requires EndsAt(end, Driven(c, Begin(c, regs, left), bus, n).pc) && (end.Pending? ==> n >= steps)
    ensures EndsInTime(c, Begin(c, regs, left), bus, steps, end)
  {
    var start := Begin(c, regs, left);
    hide Begin, AllActed, Driven;
    forall m: nat | m <= steps && Final(Driven(c, start, bus, m).pc)
      ensures EndsAt(end, Driven(c, start, bus, m).pc)
    {
      if m <= n {
        FinalStays(c, start, bus, m, n);
      } else {
        FinalStays(c, start, bus, n, m);
      }
    }
    forall m: nat, e | m + 3 <= steps && SeesError(AllActed(c, Driven(c, start, bus, m), bus(m)), e)
      ensures end == FailedWith(e)
    {
      SeenIsReported(c, regs, left, bus, m, e);
      assert EndsAt(end, Driven(c, start, bus, m + 3).pc);
    }
  }

  /** The device that never answers: its first packet times out, and that is what is reported. */
  lemma SilentDevice(c: Config, regs: Regs, left: nat, bus: nat -> seq<Action>)
    requires c.size <= |c.buf| && c.size <= c.whole && !IndexesPastEnd(c)
    requires bus(0) == bus(1) == bus(2) == [] && bus(3) == [Fault(Timeout)]
    ensures Driven(c, Begin(c, regs, left), bus, 6).pc == Failed(Timeout)
  {
    var start := Begin(c, regs, left);
    var s := Driven(c, start, bus, 3);
    var run := DrivenRuns(c, regs, left, bus, 3);
    WaitsFirst(c, regs, left, bus);
    hide Begin, DriverStep, Driven;
    NeverStuck(c, run, |run| - 1);
    NothingLostOrRepeated(c, run, |run| - 1);
    assert Ready(s);
    assert [Fault(Timeout)][..0] == [];
    assert AllActed(c, s, [Fault(Timeout)]) == s.(error := Some(Timeout), halted := true);
    SeenIsReported(c, regs, left, bus, 3, Timeout);
  }

  lemma WaitsFirst(c: Config, regs: Regs, left: nat, bus: nat -> seq<Action>)
    requires c.size <= |c.buf| && c.size <= c.whole && !IndexesPastEnd(c)
    requires bus(0) == bus(1) == bus(2) == []
    ensures var s := Driven(c, Begin(c, regs, left), bus, 3);
      s.pc == Await && s.sent == [] && !s.complete && !s.halted
  {
    var start := Begin(c, regs, left);
    var run1 := DrivenRuns(c, regs, left, bus, 1);
    var run2 := DrivenRuns(c, regs, left, bus, 2);
    var run3 := DrivenRuns(c, regs, left, bus, 3);
    assert start.pc == Prepare1 && start.sent == [] && !start.complete && !start.halted;
    hide Begin, DriverStep, Run;
    PanicsOnly(c, run1, |run1| - 1);
    PanicsOnly(c, run2, |run2| - 1);
    RoundStep(c, start);
    RoundStep(c, Driven(c, start, bus, 1));
    RoundStep(c, Driven(c, start, bus, 2));
    assert Driven(c, start, bus, 0) == start;
    DrivenStep(c, start, bus, 0);
    DrivenStep(c, start, bus, 1);
    DrivenStep(c, start, bus, 2);
  }

  /** A length that is cut to nothing: with a device that takes what it is sent, the transfer
    * succeeds, and `bulk_out_transfer` reports all of `data` although none of it went out.
    */
  lemma LongOutDropsAll(packetSize: PacketSize, data: seq<u8>, zlp: ZeroLengthPacket, toggle: bool, others: bool,
                        regs: Regs, left: nat)
    requires |data| == 65536
    ensures var c := Config(Out, AsU16(|data|), |data|, packetSize, zlp, toggle, data, others);
      var s := Driven(c, Begin(c, regs, left), (t: nat) => if t == 3 then [Accept] else [], 8);
      s.pc == Done && s.accepted == [[]] && |Flat(s.accepted)| == 0
  {
    var c := Config(Out, AsU16(|data|), |data|, packetSize, zlp, toggle, data, others);
    var bus := (t: nat) => if t == 3 then [Accept] else [];
    var s0 := Begin(c, regs, left);
    var s3 := LongOutStarts(c, regs, left);
    assert AllActed(c, s3, [Accept]) == Transmit(c, s3) by {
      assert [Accept][..0] == [] && Ready(s3);
    }
    LongOutEnds(c, Transmit(c, s3));
    assert Flat([[]]) == [];
    hide DriverStep, Transmit, Begin, AllActed;
    UndisturbedSteps(c, s0, bus, s3, Transmit(c, s3));
  }

  /** Up to the wait: the one packet, an empty one, is ready to go. */
  lemma LongOutStarts(c: Config, regs: Regs, left: nat) returns (s: State)
    requires c.dir == Out && c.size == 0
    ensures s == DriverStep(c, DriverStep(c, DriverStep(c, Begin(c, regs, left))))
    ensures Ready(s) && s.pc == Await && s.inFlight == 1 && s.hwSlot == 0 && s.ret.slot == 0
    ensures s.devToggle == c.toggle && s.accepted == []
    ensures var slot := s.regs.slot0;
      slot.full && slot.last && slot.length == 0 && slot.pid == s.devToggle
  {
    var s1 := DriverStep(c, Begin(c, regs, left));
    assert s1.pc == Prepare2 && s1.prep == Prep(1, 0, false) && s1.inFlight == 1;
    var s2 := DriverStep(c, s1);
    assert s2 == s1.(pc := Pc.Arm);
    s := DriverStep(c, s2);
  }

  /** After it: the packet has gone, and is retired. */
  lemma LongOutEnds(c: Config, s: State)
    requires c.dir == Out && s.complete && s.pc == Await && s.inFlight == 1
    requires !s.regs.Get(s.ret.slot).full
    ensures var s' := DriverStep(c, DriverStep(c, DriverStep(c, DriverStep(c, DriverStep(c, s)))));
      s'.pc == Done && s'.accepted == s.accepted
  {
    var s1 := DriverStep(c, DriverStep(c, DriverStep(c, s)));
    LongOutWakes(c, s);
    var s2 := DriverStep(c, s1);
    assert s2.pc == Finish2 && s2.inFlight == 0 && s2.accepted == s.accepted;
  }

  lemma LongOutWakes(c: Config, s: State)
    requires s.pc == Await && s.complete
    ensures DriverStep(c, DriverStep(c, DriverStep(c, s)))
         == s.(pc := Finish1, error := None, done := Acknowledged(s.done))
  {
    hide TryPrepare, TryRetire;
  }

  lemma UndisturbedSteps(c: Config, s0: State, bus: nat -> seq<Action>, s3: State, s: State)
    requires forall t: nat :: t != 3 ==> bus(t) == []
    requires s3 == DriverStep(c, DriverStep(c, DriverStep(c, s0)))
    requires s == AllActed(c, s3, bus(3))
    ensures Driven(c, s0, bus, 8)
         == DriverStep(c, DriverStep(c, DriverStep(c, DriverStep(c, DriverStep(c, s)))))
  {
    hide DriverStep, Acted;
    assert Driven(c, s0, bus, 1) == DriverStep(c, s0);
    assert Driven(c, s0, bus, 2) == DriverStep(c, DriverStep(c, s0));
    assert Driven(c, s0, bus, 3) == s3;
    assert Driven(c, s0, bus, 4) == DriverStep(c, s);
    assert Driven(c, s0, bus, 5) == DriverStep(c, DriverStep(c, s));
    assert Driven(c, s0, bus, 6) == DriverStep(c, DriverStep(c, DriverStep(c, s)));
    assert Driven(c, s0, bus, 7) == DriverStep(c, DriverStep(c, DriverStep(c, DriverStep(c, s))));
  }
}
