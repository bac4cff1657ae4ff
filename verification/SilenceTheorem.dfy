/** What the packetizer does when its write pointer wraps: the level is a difference of registers, so
    the ring un-primes, and the talker is silent until the writer has come round to its reader. */
module SilenceTheorem {
  import opened Bytes
  import opened Geometry
  import opened Packetizer
  import R = SampleRing
  import P = MediaPacer

  /** Un-primed in the middle of a stream. */
  ghost predicate Unprimed(s: Regs) {
    s.Valid() && R.Aligned(s.ring) && !s.ring.primed && s.alignedOnce
  }

  /** Un-primed, with the reader so high in its 32-bit register that no writer register value can
      ever show half a ring of samples ahead of it. */
  ghost predicate Stuck(s: Regs) {
    Unprimed(s) && s.pacer.rd + R.CENTER > TWO32 - R.CH
  }

  /** Whether some writer position primes the ring for a reader standing at rd. */
  lemma PrimesIff(rd: nat)
    requires rd < TWO32
    ensures (exists b: nat :: PrimingBase(b, rd)) <==> rd + R.CENTER <= TWO32 - R.CH
  {
    if rd + R.CENTER <= TWO32 - R.CH {
      assert (TWO32 - R.CH) % R.CH == 0;
      assert PrimingBase(TWO32 - R.CH, rd);
    }
  }

  predicate PrimingBase(b: nat, rd: nat) {
    b % R.CH == 0 && b < TWO32 && R.Level(b, rd) >= R.CENTER
  }

  // ---- one cycle ------------------------------------------------------------------------------------

  lemma UnprimedRing(s: R.Regs, i: R.Inputs)
    requires R.Aligned(s) && i.Valid() && !s.primed && i.en
    ensures R.Aligned(R.Next(s, i)) && (R.Next(s, i).primed <==> R.Level(s.frameBase, i.rd) >= R.CENTER)
  {
    R.WriteAddrChannel(s);
  }

  lemma UnprimedPacer(s: P.Regs, i: P.Inputs)
    requires s.Valid() && i.Valid() && !i.primed && i.anchor.NoAnchor?
    ensures P.Next(s, i).rd == s.rd
    ensures P.Next(s, i).underruns == if P.Strobe(i) then (s.underruns + 1) % TWO32 else s.underruns
  {
  }

  /** An un-primed cycle: the reader stands, a media tick is an underrun, and the ring primes exactly
      if the level has reached half of it. */
  lemma UnprimedStepAt(st: seq<Regs>, ins: seq<Inputs>, j: nat)
    requires Trace(st, ins) && j < |ins| && Unprimed(st[j]) && ins[j].en
    ensures st[j + 1].pacer.rd == st[j].pacer.rd
    ensures st[j + 1].pacer.underruns == if ins[j].tick then (st[j].pacer.underruns + 1) % TWO32 else st[j].pacer.underruns
    ensures st[j + 1].ring.primed <==> R.Level(st[j].ring.frameBase, st[j].pacer.rd) >= R.CENTER
    ensures !st[j + 1].ring.primed ==> Unprimed(st[j + 1])
  {
    UnprimedRing(st[j].ring, RingIn(st[j], ins[j]));
    UnprimedPacer(st[j].pacer, PacerIn(st[j], ins[j]));
    assert StepsAt(st, ins, j);
  }

  // ---- silence --------------------------------------------------------------------------------------

  ghost function Ticks(ins: seq<Inputs>, a: nat, n: nat): nat
    requires a <= n <= |ins|
  {
    if n == a then 0 else Ticks(ins, a, n - 1) + if ins[n - 1].tick then 1 else 0
  }

  /** From cycle a to cycle n: un-primed, the reader where it was, every media tick an underrun. */
  ghost predicate Silent(st: seq<Regs>, ins: seq<Inputs>, a: nat, n: nat)
    requires Trace(st, ins) && a <= n <= |ins|
  {
    Unprimed(st[n]) && st[n].pacer.rd == st[a].pacer.rd
    && st[n].pacer.underruns % TWO32 == (st[a].pacer.underruns + Ticks(ins, a, n)) % TWO32
  }

  ghost predicate Enabled(ins: seq<Inputs>, a: nat, n: nat)
    requires a <= n <= |ins|
  {
    forall j :: a <= j < n ==> ins[j].en
  }

  /** Fill level of cycle j over the reader's position at cycle a. */
  function LevelOver(st: seq<Regs>, a: nat, j: nat): int
    requires a < |st| && j < |st|
  {
    R.Level(st[j].ring.frameBase, st[a].pacer.rd)
  }

  lemma CountsOn(u: nat, u0: nat, ticks: nat)
    requires u % TWO32 == (u0 + ticks) % TWO32
    ensures (u + 1) % TWO32 % TWO32 == (u0 + (ticks + 1)) % TWO32
  {
  }

  lemma SilentStepAt(st: seq<Regs>, ins: seq<Inputs>, a: nat, j: nat)
    requires Trace(st, ins) && a <= j < |ins| && Silent(st, ins, a, j) && ins[j].en && LevelOver(st, a, j) < R.CENTER
    ensures Silent(st, ins, a, j + 1)
  {
    UnprimedStepAt(st, ins, j);
    CountsOn(st[j].pacer.underruns, st[a].pacer.underruns, Ticks(ins, a, j));
  }

  ghost predicate LowThrough(st: seq<Regs>, a: nat, n: nat)
    requires a <= n < |st|
  {
    forall j :: a <= j < n ==> LevelOver(st, a, j) < R.CENTER
  }

  /** While the level stays under half a ring nothing is sent but silence. */
  lemma {:induction false} SilentUntil(st: seq<Regs>, ins: seq<Inputs>, a: nat, n: nat)
    requires Trace(st, ins) && a <= n <= |ins| && Unprimed(st[a]) && Enabled(ins, a, n)
    requires LowThrough(st, a, n)
    ensures Silent(st, ins, a, n)
    decreases n
  {
    if a < n {
      SilentUntil(st, ins, a, n - 1);
      SilentStepAt(st, ins, a, n - 1);
    }
  }

  ghost predicate UnprimedThrough(st: seq<Regs>, a: nat, n: nat)
    requires a <= n < |st|
  {
    forall j :: a <= j <= n ==> !st[j].ring.primed
  }

  /** And exactly so long: an enabled talker stays un-primed through cycle n if and only if the level
      over its standing reader has not reached half a ring before. */
  lemma {:induction false} SilentUntilIff(st: seq<Regs>, ins: seq<Inputs>, a: nat, n: nat)
    requires Trace(st, ins) && a <= n <= |ins| && Unprimed(st[a]) && Enabled(ins, a, n)
    ensures UnprimedThrough(st, a, n) <==> LowThrough(st, a, n)
    decreases n
  {
    if a < n {
      SilentUntilIff(st, ins, a, n - 1);
      if LowThrough(st, a, n - 1) {
        SilentUntil(st, ins, a, n - 1);
        UnprimedStepAt(st, ins, n - 1);
        assert st[n].ring.primed <==> LevelOver(st, a, n - 1) >= R.CENTER;
      }
      assert UnprimedThrough(st, a, n) <==> UnprimedThrough(st, a, n - 1) && !st[n].ring.primed;
      assert LowThrough(st, a, n) <==> LowThrough(st, a, n - 1) && LevelOver(st, a, n - 1) < R.CENTER;
    }
  }

  /** A stuck talker is silent for as long as it stays enabled, whatever the host sends. */
  lemma {:induction false} SilentWhileEnabled(st: seq<Regs>, ins: seq<Inputs>, a: nat, n: nat)
    requires Trace(st, ins) && a <= n <= |ins| && Stuck(st[a]) && Enabled(ins, a, n)
    ensures Silent(st, ins, a, n) && Stuck(st[n])
    decreases n
  {
    if a < n {
      SilentWhileEnabled(st, ins, a, n - 1);
      LowBase(st[n - 1].ring.frameBase);
      SilentStepAt(st, ins, a, n - 1);
    }
  }

  lemma LowBase(b: nat)
    requires b < TWO32 && b % R.CH == 0
    ensures b <= TWO32 - R.CH
  {
  }

  // ---- how long ---------------------------------------------------------------------------------------

  /** Frames the writer starts in cycles a..n. */
  ghost function Frames(st: seq<Regs>, a: nat, n: nat): nat
    requires a <= n < |st|
  {
    if n == a then 0 else Frames(st, a, n - 1) + if R.NewFrame(st[n - 1].ring) then 1 else 0
  }

  lemma {:induction false} FramesGrow(st: seq<Regs>, a: nat, m: nat, n: nat)
    requires a <= m <= n < |st|
    ensures Frames(st, a, m) <= Frames(st, a, n)
    decreases n
  {
    if m < n {
      FramesGrow(st, a, m, n - 1);
    }
  }

  lemma {:induction false} BaseBound(st: seq<Regs>, ins: seq<Inputs>, a: nat, n: nat)
    requires Trace(st, ins) && a <= n <= |ins|
    ensures st[n].ring.frameBase <= st[a].ring.frameBase + R.CH * Frames(st, a, n)
    decreases n
  {
    if a < n {
      BaseBound(st, ins, a, n - 1);
      BaseStep(st[n - 1], ins[n - 1]);
      assert StepsAt(st, ins, n - 1);
    }
  }

  lemma BaseStep(s: Regs, i: Inputs)
    requires s.Valid() && i.Valid()
    ensures Next(s, i).ring.frameBase <= s.ring.frameBase + if R.NewFrame(s.ring) then R.CH else 0
  {
    RingBase(s.ring, RingIn(s, i));
  }

  lemma RingBase(s: R.Regs, i: R.Inputs)
    requires s.Valid() && i.Valid()
    ensures R.Next(s, i).frameBase <= s.frameBase + if R.NewFrame(s) then R.CH else 0
  {
  }

  /** However the samples come, no sound before the writer has started frames enough to be half a
      ring above the reader. */
  lemma SilentForFrames(st: seq<Regs>, ins: seq<Inputs>, a: nat, n: nat)
    requires Trace(st, ins) && a <= n <= |ins| && Unprimed(st[a]) && Enabled(ins, a, n)
    requires st[a].ring.frameBase + R.CH * Frames(st, a, n) < st[a].pacer.rd + R.CENTER
    ensures Silent(st, ins, a, n)
  {
    forall j | a <= j < n
      ensures LevelOver(st, a, j) < R.CENTER
    {
      BaseBound(st, ins, a, j);
      FramesGrow(st, a, j, n);
    }
    SilentUntil(st, ins, a, n);
  }

  // ---- the wrap -----------------------------------------------------------------------------------------

  lemma ReaderForward(s: P.Regs, i: P.Inputs)
    requires s.Valid() && i.Valid() && i.anchor.NoAnchor? && s.rd + 8 < TWO32
    ensures P.Next(s, i).rd >= s.rd
  {
  }

  lemma WrappedRing(s: R.Regs, i: R.Inputs, writer: nat)
    requires R.Aligned(s) && i.Valid() && s.frameBase == writer % TWO32 && TWO32 <= writer < TWO32 + R.CH
    requires R.FRAME_SAMPLES <= writer - i.rd <= RING_DEPTH
    ensures R.Aligned(R.Next(s, i)) && !R.Next(s, i).primed && R.Next(s, i).frameBase <= R.CH
  {
    R.WrapUnprimes(s, i, writer);
    R.WriteAddrChannel(s);
  }

  /** A streaming talker whose writer has just wrapped is left un-primed with its reader near the top,
      and stuck there if the writer was no more than half a ring ahead. */
  lemma WrapStrands(s: Regs, i: Inputs, writer: nat)
    requires s.Valid() && i.Valid() && i.en && s.alignedOnce && s.ring.primed && R.Aligned(s.ring)
    requires s.ring.frameBase == writer % TWO32 && TWO32 <= writer < TWO32 + R.CH
    requires R.FRAME_SAMPLES <= writer - s.pacer.rd <= RING_DEPTH
    ensures var t := Next(s, i);
      Unprimed(t) && t.pacer.rd >= s.pacer.rd && t.ring.frameBase <= R.CH
      && (writer - s.pacer.rd <= R.CENTER ==> Stuck(t))
  {
    WrappedRing(s.ring, RingIn(s, i), writer);
    ReaderForward(s.pacer, PacerIn(s, i));
  }

  const ROUND := 0x2000_0000  // frames in one turn of the write pointer

  /** So whatever the level at the wrap, silence for all but 129 frames of a whole turn of the write
      pointer, three hours at 48 kHz, unless the talker is disabled. */
  lemma SilentAfterWrap(st: seq<Regs>, ins: seq<Inputs>, a: nat, n: nat, writer: nat)
    requires Trace(st, ins) && a < n <= |ins| && Enabled(ins, a, n)
    requires st[a].alignedOnce && st[a].ring.primed && R.Aligned(st[a].ring)
    requires st[a].ring.frameBase == writer % TWO32 && TWO32 <= writer < TWO32 + R.CH
    requires R.FRAME_SAMPLES <= writer - st[a].pacer.rd <= RING_DEPTH
    requires Frames(st, a + 1, n) < ROUND - 129
    ensures Silent(st, ins, a + 1, n)
  {
    WrapStrands(st[a], ins[a], writer);
    assert StepsAt(st, ins, a);
    SilentForFrames(st, ins, a + 1, n);
  }
}
