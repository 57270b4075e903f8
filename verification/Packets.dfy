/** How a transfer is cut into packets: `next_packet` of InPacketiser and
  * OutPacketiser (the two are the same code over different integer types), and
  * what the whole sequence of packets it issues looks like.
  */
module Packets {
  import opened Machine

  datatype ZeroLengthPacket = AsNeeded | Never

  datatype Packet = Packet(len: nat, last: bool)

  /** The packetiser fields that decide what is issued next. `slot` is `next_prep`. */
  datatype Prep = Prep(slot: nat, remain: nat, needZlp: bool)

  function Start(size: nat, packetSize: nat, zlp: ZeroLengthPacket): Prep
    requires packetSize > 0
  {
    Prep(0, size, match zlp case Never => size == 0 case AsNeeded => size % packetSize == 0)
  }

  function NextPacket(p: Prep, packetSize: nat): Option<Packet> {
    if p.remain == 0 then
      if p.needZlp then Some(Packet(0, true)) else None
    else if p.remain < packetSize then
      Some(Packet(p.remain, true))
    else if p.remain > packetSize then
      Some(Packet(packetSize, false))
    else
      Some(Packet(p.remain, !p.needZlp))
  }

  /** The packetiser after it has prepared the packet `NextPacket` names. */
  function Issue(p: Prep, packetSize: nat): Prep
    requires NextPacket(p, packetSize).Some?
  {
    var packet := NextPacket(p, packetSize).value;
    Prep(if p.slot == 0 then 1 else 0, p.remain - packet.len, p.needZlp && p.remain != 0)
  }

  /** Every packet still to come, in order. */
  ghost function Plan(p: Prep, packetSize: nat): seq<Packet>
    requires packetSize > 0
    decreases p.remain, p.needZlp
  {
    match NextPacket(p, packetSize)
    case None => []
    case Some(packet) => [packet] + Plan(Issue(p, packetSize), packetSize)
  }

  ghost function Total(packets: seq<Packet>): nat {
    if packets == [] then 0 else packets[0].len + Total(packets[1..])
  }

  /** The number of packets `control_transfer_inner` sizes its buffering for. */
  function Estimate(size: nat, packetSize: nat): nat
    requires packetSize > 0
  {
    size / packetSize + 1
  }

  lemma DivStep(n: nat, d: nat)
    requires d > 0 && n >= d
    ensures n / d == (n - d) / d + 1
    ensures n % d == (n - d) % d
  {
    var q, r := (n - d) / d, (n - d) % d;
    assert n - d == d * q + r;
    assert n == d * (q + 1) + r;
    DivUnique(n, d, q + 1, r);
  }

  lemma DivUnique(n: nat, d: nat, q: nat, r: nat)
    requires d > 0 && r < d && n == d * q + r
    ensures n / d == q && n % d == r
  {
    var q', r' := n / d, n % d;
    assert d * q' + r' == d * q + r;
    assert d * (q - q') == d * q - d * q' == r' - r;
    if q > q' {
      MulGrows(d, q - q');
    } else if q < q' {
      MulGrows(d, q' - q);
    }
  }

  lemma {:induction false} MulGrows(d: nat, k: nat)
    requires k > 0
    ensures d * k >= d
  {
    if k > 1 {
      MulGrows(d, k - 1);
      assert d * k == d * (k - 1) + d;
    }
  }

  /** A greater length is never estimated at fewer packets. */
  lemma EstimateGrows(size: nat, whole: nat, packetSize: nat)
    requires packetSize > 0 && size <= whole
    ensures Estimate(size, packetSize) <= Estimate(whole, packetSize)
  {
    var q, q' := size / packetSize, whole / packetSize;
    assert packetSize * (q - q') == packetSize * q - packetSize * q';
    if q > q' {
      MulGrows(packetSize, q - q');
    }
  }

  /** The packets add up to exactly the bytes asked for. */
  lemma {:induction false} PlanTotal(p: Prep, packetSize: nat)
    requires packetSize > 0
    ensures Total(Plan(p, packetSize)) == p.remain
    decreases p.remain, p.needZlp
  {
    if NextPacket(p, packetSize).Some? {
      PlanTotal(Issue(p, packetSize), packetSize);
    }
  }

  /** Every packet but the final one is full; exactly the final one carries `last`;
    * and a zero-length packet is issued when, and only when, the flag asked for one.
    */
  lemma {:induction false} PlanShape(p: Prep, packetSize: nat)
    requires packetSize > 0 && (p.remain > 0 || p.needZlp)
    requires p.needZlp ==> p.remain % packetSize == 0
    ensures var plan := Plan(p, packetSize);
      && |plan| > 0
      && (forall k :: 0 <= k < |plan| ==> plan[k].last == (k == |plan| - 1))
      && (forall k :: 0 <= k < |plan| - 1 ==> plan[k].len == packetSize)
      && plan[|plan| - 1].len <= packetSize
      && (plan[|plan| - 1].len == 0 <==> p.needZlp)
    ensures |Plan(p, packetSize)| ==
      p.remain / packetSize + (if p.needZlp || p.remain % packetSize != 0 then 1 else 0)
    decreases p.remain, p.needZlp
  {
    var q := Issue(p, packetSize);
    var plan := Plan(p, packetSize);
    if p.remain == 0 {
      assert Plan(q, packetSize) == [];
      DivUnique(0, packetSize, 0, 0);
    } else if p.remain < packetSize {
      DivUnique(p.remain, packetSize, 0, p.remain);
      assert Plan(q, packetSize) == [];
    } else {
      DivStep(p.remain, packetSize);
      if p.remain == packetSize && !p.needZlp {
        DivUnique(0, packetSize, 0, 0);
        assert Plan(q, packetSize) == [];
      } else {
        PlanShape(q, packetSize);
        assert plan == [plan[0]] + Plan(q, packetSize);
        assert forall k :: 1 <= k < |plan| ==> plan[k] == Plan(q, packetSize)[k - 1];
      }
    }
  }

  /** A whole transfer: USB 2.0 section 5.3.2's rule for ending a transfer, and the
    * count that `control_transfer_inner` must not underestimate. It is one too many just for
    * whole packets with no empty one after them.
    */
  lemma TransferPlan(size: nat, packetSize: nat, zlp: ZeroLengthPacket)
    requires packetSize > 0
    ensures var plan := Plan(Start(size, packetSize, zlp), packetSize);
      && |plan| > 0
      && Total(plan) == size
      && (forall k :: 0 <= k < |plan| ==> plan[k].last == (k == |plan| - 1))
      && (forall k :: 0 <= k < |plan| - 1 ==> plan[k].len == packetSize)
      && plan[|plan| - 1].len <= packetSize
      && ((exists k :: 0 <= k < |plan| && plan[k].len == 0)
          <==> size == 0 || (zlp.AsNeeded? && size % packetSize == 0))
    ensures |Plan(Start(size, packetSize, zlp), packetSize)| ==
      if size == 0 then 1
      else if zlp.AsNeeded? || size % packetSize != 0 then size / packetSize + 1
      else size / packetSize
    ensures Estimate(size, packetSize) == |Plan(Start(size, packetSize, zlp), packetSize)|
      + if size > 0 && size % packetSize == 0 && zlp.Never? then 1 else 0
  {
    var p := Start(size, packetSize, zlp);
    if size == 0 {
      DivUnique(0, packetSize, 0, 0);
    }
    PlanTotal(p, packetSize);
    PlanShape(p, packetSize);
    var plan := Plan(p, packetSize);
    assert plan[|plan| - 1].len == 0 <==> p.needZlp;
  }
}
