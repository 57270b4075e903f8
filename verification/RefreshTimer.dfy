/** The SSDP retransmit timer. Instants and durations are whole milliseconds. */
module RefreshTimers {

  type u32 = x: int | 0 <= x < 0x1_0000_0000

  type Phase = p: nat | p < 4

  /** `(random_seed >> (phase * 8)) & 255` */
  function SeedByte(seed: u32, phase: Phase): nat {
    (if phase == 0 then seed
     else if phase == 1 then seed / 0x100
     else if phase == 2 then seed / 0x1_0000
     else seed / 0x100_0000) % 256
  }

  /** The gap to the next salvo: three short ones, then a long one, each a little random. */
  function Period(seed: u32, phase: Phase): nat {
    (if phase == 3 then 800_000 else 6_000) + SeedByte(seed, phase) * 10
  }

  function NextPhase(phase: Phase): Phase {
    (phase + 1) % 4
  }

  /** The instant of the n-th salvo after one that is due at `start` in `phase`. */
  ghost function Salvo(start: int, seed: u32, phase: Phase, n: nat): int
    decreases n
  {
    if n == 0 then start else Salvo(start + Period(seed, phase), seed, NextPhase(phase), n - 1)
  }

  ghost function PhaseAfter(phase: Phase, n: nat): Phase {
    (phase + n) % 4
  }

  ghost function Cycle(seed: u32): nat {
    818_000
    + 10 * (SeedByte(seed, 0) + SeedByte(seed, 1) + SeedByte(seed, 2) + SeedByte(seed, 3))
  }

  /** How long an advertisement is good for, in seconds: the `max-age` it is sent with. */
  const MAX_AGE_SECONDS := 1800

  /** Salvos are at least six seconds apart, and never so far apart that an advertisement
    * good for `MAX_AGE_SECONDS` would miss two in a row.
    */
  lemma PeriodBounds(seed: u32, phase: Phase)
    ensures 6_000 <= Period(seed, phase) <= 802_550
    ensures 2 * Period(seed, phase) < MAX_AGE_SECONDS * 1000
  {
  }

  lemma LowByte(b: nat, rest: nat)
    requires b < 256
    ensures (b + 0x100 * rest) % 256 == b && (b + 0x100 * rest) / 0x100 == rest
  {
  }

  lemma DivTwice(n: nat)
    ensures n / 0x1_0000 == n / 0x100 / 0x100 && n / 0x100_0000 == n / 0x1_0000 / 0x100
  {
  }

  /** The four bytes of a seed, least significant first. */
  lemma SeedBytes(b0: nat, b1: nat, b2: nat, b3: nat)
    requires b0 < 256 && b1 < 256 && b2 < 256 && b3 < 256
    ensures var seed := b0 + 0x100 * b1 + 0x1_0000 * b2 + 0x100_0000 * b3;
      SeedByte(seed, 0) == b0 && SeedByte(seed, 1) == b1 && SeedByte(seed, 2) == b2 && SeedByte(seed, 3) == b3
  {
    var rest2 := b2 + 0x100 * b3;
    var rest1 := b1 + 0x100 * rest2;
    LowByte(b0, rest1);
    LowByte(b1, rest2);
    LowByte(b2, b3);
    DivTwice(b0 + 0x100 * rest1);
  }

  /** After a reset: three short gaps and a long one, each longer by ten milliseconds for each
    * unit of its own byte of the seed.
    */
  lemma FirstSalvos(start: int, b0: nat, b1: nat, b2: nat, b3: nat)
    requires b0 < 256 && b1 < 256 && b2 < 256 && b3 < 256
    ensures var seed := b0 + 0x100 * b1 + 0x1_0000 * b2 + 0x100_0000 * b3;
      && Salvo(start, seed, 0, 1) == start + 6_000 + 10 * b0
      && Salvo(start, seed, 0, 2) == start + 12_000 + 10 * (b0 + b1)
      && Salvo(start, seed, 0, 3) == start + 18_000 + 10 * (b0 + b1 + b2)
      && Salvo(start, seed, 0, 4) == start + 818_000 + 10 * (b0 + b1 + b2 + b3)
  {
    var seed := b0 + 0x100 * b1 + 0x1_0000 * b2 + 0x100_0000 * b3;
    SeedBytes(b0, b1, b2, b3);
    hide SeedByte;
    SalvoSnoc(start, seed, 0, 0);
    SalvoSnoc(start, seed, 0, 1);
    SalvoSnoc(start, seed, 0, 2);
    SalvoSnoc(start, seed, 0, 3);
  }

  /** Of the gaps after a reset the fourth is long, and every fourth from there; the others are
    * under nine seconds.
    */
  lemma WhichGapIsLong(start: int, seed: u32, n: nat)
    ensures var gap := Salvo(start, seed, 0, n + 1) - Salvo(start, seed, 0, n);
      if n % 4 == 3 then 800_000 <= gap <= 802_550 else 6_000 <= gap <= 8_550
  {
    SalvoSnoc(start, seed, 0, n);
  }

  lemma {:induction false} SalvoSnoc(start: int, seed: u32, phase: Phase, n: nat)
    ensures Salvo(start, seed, phase, n + 1)
         == Salvo(start, seed, phase, n) + Period(seed, PhaseAfter(phase, n))
    decreases n
  {
    if n > 0 {
      SalvoSnoc(start + Period(seed, phase), seed, NextPhase(phase), n - 1);
      assert PhaseAfter(NextPhase(phase), n - 1) == PhaseAfter(phase, n);
    }
  }

  lemma NothingYet(start: int, seed: u32, phase: Phase)
    ensures Salvo(start, seed, phase, 0) == start && PhaseAfter(phase, 0) == phase
  {
  }

  lemma PhaseNext(phase: Phase, n: nat)
    ensures PhaseAfter(phase, n + 1) == NextPhase(PhaseAfter(phase, n))
  {
  }

  /** From any phase, four salvos take exactly one cycle. */
  lemma FourSalvos(start: int, seed: u32, phase: Phase)
    ensures Salvo(start, seed, phase, 4) == start + Cycle(seed)
  {
    hide SeedByte;
    SalvoSnoc(start, seed, phase, 3);
    SalvoSnoc(start, seed, phase, 2);
    SalvoSnoc(start, seed, phase, 1);
    SalvoSnoc(start, seed, phase, 0);
  }

  /** No drift: any number of whole cycles takes exactly that many times one cycle, and any
    * four consecutive salvos, wherever they start, advance by one.
    */
  lemma {:induction false} SalvoCycles(start: int, seed: u32, phase: Phase, n: nat)
    ensures Salvo(start, seed, phase, n + 4) == Salvo(start, seed, phase, n) + Cycle(seed)
    decreases n
  {
    if n == 0 {
      FourSalvos(start, seed, phase);
    } else {
      SalvoCycles(start + Period(seed, phase), seed, NextPhase(phase), n - 1);
    }
  }

  class RefreshTimer {
    const randomSeed: u32
    var nextSalvo: int
    var phase: Phase

    constructor (randomSeed: u32, now: int)
      ensures this.randomSeed == randomSeed && nextSalvo == now && phase == 0
    {
      this.randomSeed, nextSalvo, phase := randomSeed, now, 0;
    }

    method Reset(now: int)
      modifies this`nextSalvo, this`phase
      ensures nextSalvo == now && phase == 0
    {
      nextSalvo := now;
      phase := 0;
    }

    function NextRefresh(): int
      reads this
    {
      nextSalvo
    }

    method UpdateRefresh(now: int)
      modifies this`nextSalvo, this`phase
      ensures now < old(nextSalvo) ==> nextSalvo == old(nextSalvo) && phase == old(phase)
      ensures now >= old(nextSalvo) ==>
        nextSalvo == old(nextSalvo) + Period(randomSeed, old(phase)) && phase == NextPhase(old(phase))
    {
      if now < nextSalvo {
        return;
      }
      var randomOffset := SeedByte(randomSeed, phase) * 10;
      var period := (if phase == 3 then 800_000 else 6_000) + randomOffset;
      nextSalvo := nextSalvo + period;
      phase := (phase + 1) % 4;
    }

    /** Updated at whatever instants, however late, the timer ends where its start, its seed
      * and the number of updates that took effect put it: lateness does not accumulate.
      */
    method UpdateAt(instants: seq<int>) returns (n: nat)
      modifies this`nextSalvo, this`phase
      ensures n <= |instants|
      ensures nextSalvo == Salvo(old(nextSalvo), randomSeed, old(phase), n)
      ensures phase == PhaseAfter(old(phase), n)
    {
      hide Period, Salvo, PhaseAfter, NextPhase;
      n := 0;
      assert PhaseAfter(phase, 0) == phase && Salvo(nextSalvo, randomSeed, phase, 0) == nextSalvo by {
        NothingYet(nextSalvo, randomSeed, phase);
      }
      for i := 0 to |instants|
        invariant n <= i
        invariant nextSalvo == Salvo(old(nextSalvo), randomSeed, old(phase), n)
        invariant phase == PhaseAfter(old(phase), n)
      {
        var due := nextSalvo <= instants[i];
        UpdateRefresh(instants[i]);
        if due {
          SalvoSnoc(old(nextSalvo), randomSeed, old(phase), n);
          PhaseNext(old(phase), n);
          n := n + 1;
        }
      }
    }
  }
}
