/** The double-buffered transfer protocol between the RP2040 driver loop and the
  * USB hardware, as a state machine whose driver and hardware steps interleave
  * in any order.
  *
  * The shared state is the EPX buffer-control register (two slots) and the two
  * 64-byte buffers behind it. The driver's steps are the statements of
  * `control_transfer_inner`; the hardware's are those of a host controller that
  * works through the slots alternately.
  */
module TransferProtocol {
  import opened Machine
  import opened Packets

  datatype Direction = In | Out

  datatype UsbError = Stall | Timeout | Overflow | BitStuffError | CrcError | DataSeqError

  type PacketSize = x: int | 1 <= x <= 64 witness 64

  type SlotLength = x: int | 0 <= x <= 64

  type Buffer64 = s: seq<u8> | |s| == 64 witness seq(64, _ => 0)

  /** One half of EP_BUFFER_CONTROL, and the 64 bytes of DPRAM it governs. */
  datatype Slot = Slot(
    available: bool, full: bool, pid: bool, last: bool, length: SlotLength, data: Buffer64)
  {
    function Payload(): seq<u8> {
      data[..length]
    }

    /** After the hardware has written a packet here. */
    function Received(packet: seq<u8>): Slot
      requires |packet| <= length
    {
      this.(available := false, full := true, length := |packet|, data := packet + data[|packet|..])
    }

    /** After the hardware has sent the packet here. */
    function Sent(): Slot {
      this.(available := false, full := false)
    }
  }

  datatype Regs = Regs(slot0: Slot, slot1: Slot) {
    function Get(i: nat): Slot {
      if i == 0 then slot0 else slot1
    }

    function Set(i: nat, s: Slot): Regs {
      if i == 0 then Regs(s, slot1) else Regs(slot0, s)
    }
  }

  function Other(slot: nat): nat {
    if slot == 0 then 1 else 0
  }

  /** What a call of `prepare` or `retire` did. OutOfBounds is the slice-index panic. */
  datatype Outcome<+T> = Idle | Did(value: T) | OutOfBounds

  function PrepareIn(p: Prep, packetSize: PacketSize, toggle: bool, regs: Regs)
    : Outcome<(Prep, Regs)>
  {
    var slot := regs.Get(p.slot);
    if slot.available then Idle else
    match NextPacket(p, packetSize)
    case None => Idle
    case Some(packet) =>
      var slot' := slot.(full := false, pid := toggle != (p.slot != 0), last := packet.last,
                         length := packetSize, available := true);
      Did((Issue(p, packetSize), regs.Set(p.slot, slot')))
  }

  /** Slot 1 indexes the source buffer even for an empty packet; slot 0 does not. */
  predicate CopyFails(slot: nat, len: nat, offset: nat, buf: seq<u8>) {
    (slot != 0 || len > 0) && (offset >= |buf| || offset + len > |buf|)
  }

  /** The slot's memory after `len` bytes from `offset` on have been copied to its start. */
  function Copied(data: Buffer64, len: SlotLength, offset: nat, buf: seq<u8>): Buffer64
    requires len > 0 ==> offset + len <= |buf|
  {
    if len == 0 then data else buf[offset..offset + len] + data[len..]
  }

  function PrepareOut(p: Prep, offset: nat, packetSize: PacketSize, toggle: bool,
                      buf: seq<u8>, regs: Regs): Outcome<(Prep, nat, Regs)>
  {
    var slot := regs.Get(p.slot);
    if slot.available then Idle else
    match NextPacket(p, packetSize)
    case None => Idle
    case Some(packet) =>
      if CopyFails(p.slot, packet.len, offset, buf) then OutOfBounds else
      var slot' := slot.(full := true, pid := toggle != (p.slot != 0), last := packet.last,
                         length := packet.len, available := true,
                         data := Copied(slot.data, packet.len, offset, buf));
      Did((Issue(p, packetSize), offset + packet.len, regs.Set(p.slot, slot')))
  }

  /** The depacketiser fields; OutDepacketiser has only the first two. `slot` is `next_retire`. */
  datatype Ret = Ret(slot: nat, parity: bool, remain: nat, offset: nat)

  function RetireIn(r: Ret, buf: seq<u8>, regs: Regs): Outcome<(Ret, seq<u8>)> {
    var slot := regs.Get(r.slot);
    if !slot.full then Idle else
    var n := Min(r.remain, slot.length);
    if r.offset + n > |buf| then OutOfBounds else
    Did((Ret(Other(r.slot), !r.parity, r.remain - n, r.offset + n),
         buf[..r.offset] + slot.data[..n] + buf[r.offset + n..]))
  }

  function RetireOut(r: Ret, regs: Regs): Outcome<Ret> {
    if regs.Get(r.slot).full then Idle
    else Did(r.(slot := Other(r.slot), parity := !r.parity))
  }

  /** What one transfer is asked to do. `whole` is the length the buffering is chosen for, which
    * `bulk_out_transfer` does not cut to 16 bits as it does `size`. `toggle` is the endpoint's
    * data toggle on entry. `others`: other endpoints may complete packets meanwhile.
    */
  datatype Config = Config(
    dir: Direction, size: nat, whole: nat, packetSize: PacketSize, zlp: ZeroLengthPacket, toggle: bool,
    buf: seq<u8>, others: bool)

  /** Where the driver is. Polled: `poll` has read the status and is about to look at the
    * interrupts. Woken: the wait is over, with the status that was read.
    */
  datatype Pc =
    | Prepare1 | Prepare2 | Arm
    | Await | Polled(complete: bool, status: Option<UsbError>) | Woken(complete: bool, status: Option<UsbError>)
    | Retire1 | Retire2 | Finish1 | Finish2
    | Done | Failed(error: UsbError) | Panicked

  /** Driver variables, shared registers, hardware, device, and three histories:
    * packets the hardware moved, packets their receiver took, packets retired. `done` is how
    * many completed buffers the buff_status register still has to show for this endpoint;
    * `stray`: it shows another endpoint's.
    */
  datatype State = State(
    pc: Pc, prep: Prep, offset: nat, ret: Ret, buf: seq<u8>, inFlight: nat, started: bool,
    regs: Regs,
    hwSlot: nat, complete: bool, error: Option<UsbError>, halted: bool, done: nat, stray: bool,
    devToggle: bool,
    prepared: nat, sent: seq<seq<u8>>, accepted: seq<seq<u8>>, retired: seq<seq<u8>>)

  /** The start of a transfer to a device whose own toggle for the endpoint is `device`. */
  ghost predicate Init(c: Config, device: bool, s: State) {
    && s.pc == Prepare1
    && s.prep == Start(c.size, c.packetSize, c.zlp)
    && s.offset == 0
    && s.ret == Ret(0, false, c.size, 0)
    && s.buf == c.buf
    && s.inFlight == 0 && !s.started
    && !s.regs.slot0.available && !s.regs.slot0.full
    && !s.regs.slot1.available && !s.regs.slot1.full
    && s.hwSlot == 0 && !s.complete && s.error == None && !s.halted
    && (s.stray ==> c.others)
    && s.devToggle == device
    && s.prepared == 0 && s.sent == [] && s.accepted == [] && s.retired == []
  }

  // ---- driver steps ----

  /** `packetiser.prepare` of whichever packetiser the transfer has. */
  function Prepare(c: Config, s: State): Outcome<(Prep, nat, Regs)> {
    match c.dir
    case In =>
      (match PrepareIn(s.prep, c.packetSize, c.toggle, s.regs)
       case Did((prep, regs)) => Did((prep, s.offset, regs))
       case _ => Idle)
    case Out => PrepareOut(s.prep, s.offset, c.packetSize, c.toggle, s.buf, s.regs)
  }

  /** `depacketiser.retire` of whichever depacketiser the transfer has. */
  function Retire(c: Config, s: State): Outcome<(Ret, seq<u8>)> {
    match c.dir
    case In => RetireIn(s.ret, s.buf, s.regs)
    case Out =>
      (match RetireOut(s.ret, s.regs)
       case Did(ret) => Did((ret, s.buf))
       case _ => Idle)
  }

  function TryPrepare(c: Config, s: State, next: Pc): State {
    if s.inFlight >= 2 then s.(pc := next) else
    match Prepare(c, s)
    case Idle => s.(pc := next)
    case OutOfBounds => s.(pc := Panicked)
    case Did((prep, offset, regs)) =>
      s.(pc := next, prep := prep, offset := offset, regs := regs,
         inFlight := s.inFlight + 1, prepared := s.prepared + 1)
  }

  /** The last retire of a transfer leaves `in_flight` as it was: `lowered` is then 0. */
  function TryRetire(c: Config, s: State, next: Pc, lowered: nat): State {
    if s.inFlight == 0 then s.(pc := next) else
    match Retire(c, s)
    case Idle => s.(pc := next)
    case OutOfBounds => s.(pc := Panicked)
    case Did((ret, buf)) =>
      s.(pc := next, ret := ret, buf := buf,
         retired := s.retired + [s.regs.Get(s.ret.slot).Payload()],
         inFlight := if lowered <= s.inFlight then s.inFlight - lowered else 0)
  }

  /** An error whose interrupt `poll` takes for a reason to wake up; it ignores the others. */
  predicate Rousing(e: UsbError) {
    e == Stall || e == Timeout
  }

  /** One of the interrupts `poll` looks for is raised. */
  predicate Roused(s: State) {
    s.complete || s.done > 0 || s.stray || (s.error.Some? && Rousing(s.error.value))
  }

  /** Clearing buff_status acknowledges one buffer; a second shows at once. */
  function Acknowledged(done: nat): nat {
    if done == 0 then 0 else done - 1
  }

  /** Where the driver goes after its wait. */
  function After(complete: bool, status: Option<UsbError>): Pc {
    if complete then Finish1 else if status.Some? then Failed(status.value) else Retire1
  }

  /** A buffer's completion shows in buff_status when the driver has asked for that, as it does
    * together with double buffering.
    */
  function Completed(c: Config, done: nat): nat {
    if Estimate(c.whole, c.packetSize) > 1 then done + 1 else done
  }

  function DriverStep(c: Config, s: State): State {
    match s.pc
    case Prepare1 => TryPrepare(c, s, Prepare2)
    case Prepare2 => TryPrepare(c, s, Arm)
    case Arm => s.(pc := Await, started := true, error := None, done := Acknowledged(s.done))
    case Await => s.(pc := Polled(s.complete, s.error))
    case Polled(complete, status) =>
      s.(pc := if Roused(s) then Woken(complete, status) else Await, error := None)
    case Woken(complete, status) => s.(pc := After(complete, status), done := Acknowledged(s.done))
    case Retire1 => TryRetire(c, s, Retire2, 1)
    case Retire2 => TryRetire(c, s, Prepare1, 1)
    case Finish1 => TryRetire(c, s, Finish2, 1)
    case Finish2 => TryRetire(c, s, Done, 0)
    case _ => s
  }

  // ---- hardware steps ----

  /** The hardware works on its current slot only once started, and only while it is available. */
  predicate Ready(s: State) {
    s.started && !s.complete && !s.halted && s.regs.Get(s.hwSlot).available
  }

  /** The device answers with `data`. USB 2.0 section 8.6: the host takes the packet
    * if the PID is the expected one, and both ends then move on to the other PID.
    */
  function Receive(c: Config, s: State, data: seq<u8>): State
    requires |data| <= s.regs.Get(s.hwSlot).length
  {
    var slot := s.regs.Get(s.hwSlot);
    if slot.pid != s.devToggle then
      s.(error := Some(DataSeqError), halted := true)
    else
      s.(regs := s.regs.Set(s.hwSlot, slot.Received(data)), hwSlot := Other(s.hwSlot),
         devToggle := !s.devToggle, sent := s.sent + [data], accepted := s.accepted + [data],
         complete := slot.last || |data| < slot.length, done := Completed(c, s.done))
  }

  /** The device acknowledges every packet, but discards one whose PID it has already seen. */
  function Transmit(c: Config, s: State): State {
    var slot := s.regs.Get(s.hwSlot);
    var taken := slot.pid == s.devToggle;
    s.(regs := s.regs.Set(s.hwSlot, slot.Sent()),
       hwSlot := Other(s.hwSlot),
       devToggle := if taken then !s.devToggle else s.devToggle,
       sent := s.sent + [slot.Payload()],
       accepted := if taken then s.accepted + [slot.Payload()] else s.accepted,
       complete := slot.last, done := Completed(c, s.done))
  }

  ghost predicate HardwareNext(c: Config, s: State, s': State) {
    && Ready(s)
    && (|| (c.dir == In && exists data: seq<u8> ::
              |data| <= s.regs.Get(s.hwSlot).length && s' == Receive(c, s, data))
        || (c.dir == Out && s' == Transmit(c, s))
        || (exists e: UsbError :: e != DataSeqError && s' == s.(error := Some(e), halted := true)))
  }

  /** Another endpoint completes a packet, or the interrupt handler clears that away. */
  ghost predicate OthersNext(c: Config, s: State, s': State) {
    c.others && s' == s.(stray := s'.stray)
  }

  ghost predicate Next(c: Config, s: State, s': State) {
    s' == DriverStep(c, s) || HardwareNext(c, s, s') || OthersNext(c, s, s')
  }

  /** A run: any interleaving of driver and hardware steps from the initial state. */
  ghost predicate Run(c: Config, device: bool, run: seq<State>) {
    && |run| > 0
    && Init(c, device, run[0])
    && forall i :: 0 <= i < |run| - 1 ==> Next(c, run[i], run[i + 1])
  }

  lemma RunExtends(c: Config, device: bool, run: seq<State>, s': State)
    requires Run(c, device, run) && Next(c, run[|run| - 1], s')
    ensures Run(c, device, run + [s'])
  {
  }
}
