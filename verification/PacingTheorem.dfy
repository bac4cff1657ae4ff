/** From the oscillator to the pending latch: at every rate the servo can set, flows whose frames the
    builder has time for lose no due. */
module PacingTheorem {
  import opened Bytes
  import opened Geometry
  import opened Packetizer
  import opened StreamTheorem
  import Nco
  import RateServo
  import W = WalkTheorem

  // ---- the builder against the pacer ------------------------------------------------------------------

  ghost predicate AlwaysReady(bi: seq<F.Inputs>) {
    forall j :: 0 <= j < |bi| ==> bi[j].ready
  }

  lemma {:induction false} ActiveWhenReady(bs: seq<F.Regs>, bi: seq<F.Inputs>, a: nat, b: nat)
    requires F.Trace(bs, bi) && a <= b <= |bi| && AlwaysReady(bi)
    ensures W.Active(bs, bi, a, b) == b - a
    decreases b
  {
    if a < b {
      ActiveWhenReady(bs, bi, a, b - 1);
    }
  }

  /** The builder's dues of context k are the pacer's. */
  ghost predicate DuesMatch(bi: seq<F.Inputs>, ps: seq<P.Regs>, pi: seq<P.Inputs>, k: nat) {
    P.Trace(ps, pi) && |bi| == |pi| && k < N_CTX && (forall j :: 0 <= j < |bi| ==> bi[j].Valid())
    && forall j :: 0 <= j < |bi| && W.Due(bi[j], k) ==> P.DueCycle(ps, pi, k, j)
  }

  lemma PacedFrom(ps: seq<P.Regs>, pi: seq<P.Inputs>, k: nat, f: nat, a: nat, b: nat)
    requires P.Trace(ps, pi) && a <= b <= |pi| && P.Paced(ps, pi, k, f, 0, |pi|)
    ensures P.Paced(ps, pi, k, f, a, b)
  {
    P.PhaseCountsStrobes(ps, pi, k, f, 0, a);
  }

  lemma DuesFarApart(ps: seq<P.Regs>, pi: seq<P.Inputs>, k: nat, f: nat, d: nat, a: nat, b: nat)
    requires P.Trace(ps, pi) && a < b < |pi| && P.Paced(ps, pi, k, f, 0, |pi|) && P.Spaced(pi, d)
    requires P.DueCycle(ps, pi, k, a) && P.DueCycle(ps, pi, k, b)
    ensures b - a >= f * d
  {
    PacedFrom(ps, pi, k, f, a, b);
    P.DuesAtLeast(ps, pi, k, f, a, b);
    P.SpacedStrobes(pi, d, a, b);
    AtLeast(P.Strobes(pi, a, b), f, d);
  }

  lemma AtLeast(n: nat, f: nat, d: nat)
    requires n >= f
    ensures n * d >= f * d
  {
    assert n * d == f * d + (n - f) * d;
  }

  lemma {:induction false} FarEnough(bs: seq<F.Regs>, bi: seq<F.Inputs>, ps: seq<P.Regs>, pi: seq<P.Inputs>,
                  k: nat, f: nat, d: nat, wait: nat, a: nat, b: nat)
    requires F.Trace(bs, bi) && DuesMatch(bi, ps, pi, k) && AlwaysReady(bi)
    requires P.Paced(ps, pi, k, f, 0, |pi|) && P.Spaced(pi, d) && f * d > wait
    requires a < b < |bi| && W.Due(bi[a], k) && W.Due(bi[b], k)
    ensures W.Active(bs, bi, a + 1, b) >= wait
  {
    DuesFarApart(ps, pi, k, f, d, a, b);
    ActiveWhenReady(bs, bi, a + 1, b);
  }

  /** With fpp strobes between dues and d cycles between strobes, a builder that takes less than fpp * d
      cycles for a whole wait merges nothing. */
  lemma {:induction false} PacedBuilder(bs: seq<F.Regs>, bi: seq<F.Inputs>, ps: seq<P.Regs>, pi: seq<P.Inputs>,
                     cs: seq<W.Shape>, k: nat, f: nat, d: nat)
    requires F.Trace(bs, bi) && DuesMatch(bi, ps, pi, k) && AlwaysReady(bi) && W.AllFixed(bi, cs) && W.Shapes(cs)
    requires P.Paced(ps, pi, k, f, 0, |pi|) && P.Spaced(pi, d) && f * d > W.MaxWait(cs)
    requires W.InFrame(bs[0], cs[bs[0].ctx]) && cs[k].nslots != 0 && !bs[0].pend[k]
    ensures W.Count(bs, bi, k, |bi|).merged == 0
  {
    var n := |bi|;
    forall a, b | 0 <= a < b < n && W.Due(bi[a], k) && W.Due(bi[b], k)
      ensures W.Active(bs, bi, a + 1, b) >= W.MaxWait(cs)
    {
      FarEnough(bs, bi, ps, pi, k, f, d, W.MaxWait(cs), a, b);
    }
    W.NothingMerged(bs, bi, cs, k, n);
  }

  // ---- on the packetizer --------------------------------------------------------------------------------

  /** The frame a context calls for. */
  function ShapeOf(c: Context): W.Shape
    requires c.Valid()
  {
    W.Shape(c.nslots, (HDR_LEN + PayLen(c.nslots, c.fppIdx)) % 2048, (12 + PayLen(c.nslots, c.fppIdx) / 4) % 512)
  }

  ghost predicate ShapedAt(ins: seq<Inputs>, cs: seq<W.Shape>, j: nat) {
    j < |ins| && ins[j].Valid() && |cs| == N_CTX && forall k :: 0 <= k < N_CTX ==> ShapeOf(ins[j].ctxs[k]) == cs[k]
  }

  /** Nothing is bound or unbound during the run, only addresses, maps and stamps may change. */
  ghost predicate KeepsShapes(ins: seq<Inputs>, cs: seq<W.Shape>) {
    forall j :: 0 <= j < |ins| ==> ShapedAt(ins, cs, j)
  }

  lemma FixedView(st: seq<Regs>, ins: seq<Inputs>, cs: seq<W.Shape>, j: nat)
    requires Trace(st, ins) && ShapedAt(ins, cs, j) && W.Shapes(cs)
    ensures W.Fixed(BuildIn(st[j], ins[j]), cs)
  {
    forall k | 0 <= k < N_CTX
      ensures var v := BuildIn(st[j], ins[j]).views[k]; cs[k] == W.Shape(v.nslots, v.total, v.lastIdx)
    {
      ViewAt(st[j], ins[j], k);
    }
  }

  lemma DueBoth(s: Regs, i: Inputs, k: nat)
    requires s.Valid() && i.Valid() && k < N_CTX
    ensures W.Due(BuildIn(s, i), k) <==> P.Strobe(PacerIn(s, i)) && P.DueAt(s.pacer, PacerIn(s, i), k)
  {
  }

  ghost predicate Ready(ins: seq<Inputs>) {
    forall j :: 0 <= j < |ins| ==> ins[j].ready
  }

  lemma BuilderSees(st: seq<Regs>, ins: seq<Inputs>, cs: seq<W.Shape>, k: nat)
    requires Trace(st, ins) && KeepsShapes(ins, cs) && W.Shapes(cs) && Ready(ins) && k < N_CTX
    ensures var bi := BuildIns(st, ins, 0);
      F.Trace(BuildSt(st, 0), bi) && AlwaysReady(bi) && W.AllFixed(bi, cs)
      && DuesMatch(bi, PacerSt(st), PacerIns(st, ins), k)
  {
    var bi := BuildIns(st, ins, 0);
    BuildRun(st, ins, 0);
    PacerRun(st, ins);
    forall j | 0 <= j < |bi|
      ensures W.Fixed(bi[j], cs)
    {
      FixedView(st, ins, cs, 0 + j);
    }
    forall j | 0 <= j < |bi| && W.Due(bi[j], k)
      ensures P.DueCycle(PacerSt(st), PacerIns(st, ins), k, j)
    {
      DueBoth(st[0 + j], ins[0 + j], k);
    }
  }

  /** Dues of a run that found one of their own context still pending. */
  ghost function Merged(st: seq<Regs>, ins: seq<Inputs>, k: nat): nat
    requires Trace(st, ins) && k < N_CTX
  {
    BuildRun(st, ins, 0);
    W.Count(BuildSt(st, 0), BuildIns(st, ins, 0), k, |ins|).merged
  }

  /** Context k starts the run with no due pending and its phase in range, keeps its fpp f, and is
      not reseeded. */
  ghost predicate StartsClean(st: seq<Regs>, ins: seq<Inputs>, cs: seq<W.Shape>, k: nat, f: nat)
    requires Trace(st, ins) && |cs| == N_CTX
  {
    PacerRun(st, ins);
    k < N_CTX && P.Paced(PacerSt(st), PacerIns(st, ins), k, f, 0, |ins|)
    && W.InFrame(st[0].build, cs[st[0].build.ctx]) && cs[k].nslots != 0 && !st[0].build.pend[k]
  }

  /** A flow of fpp f merges no due on a sink that is always ready, if strobes are d cycles apart and
      f * d cycles are more than the longest wait the shapes of all six contexts make. */
  lemma {:induction false} NoDueMerged(st: seq<Regs>, ins: seq<Inputs>, cs: seq<W.Shape>, k: nat, f: nat, d: nat)
    requires Trace(st, ins) && KeepsShapes(ins, cs) && W.Shapes(cs) && Ready(ins) && StartsClean(st, ins, cs, k, f)
    requires P.Spaced(PacerIns(st, ins), d) && f * d > W.MaxWait(cs)
    ensures Merged(st, ins, k) == 0
  {
    BuilderSees(st, ins, cs, k);
    assert BuildSt(st, 0)[0] == st[0 + 0].build;
    PacedBuilder(BuildSt(st, 0), BuildIns(st, ins, 0), PacerSt(st), PacerIns(st, ins), cs, k, f, d);
  }

  // ---- with the oscillator ------------------------------------------------------------------------------

  /** The media tick is the oscillator's strobe, from its reset on. */
  ghost predicate Driven(ins: seq<Inputs>, ns: seq<Nco.Regs>, rs: seq<Nco.Rate>) {
    Nco.Trace(ns, rs) && |rs| == |ins| && !ns[0].strobe && forall j :: 0 <= j < |ins| ==> ins[j].tick == ns[j].strobe
  }

  lemma TicksSpaced(st: seq<Regs>, ins: seq<Inputs>, ns: seq<Nco.Regs>, rs: seq<Nco.Rate>, d: nat)
    requires Trace(st, ins) && Driven(ins, ns, rs) && Nco.AtMost(rs, d) && 1 <= d
    ensures P.Spaced(PacerIns(st, ins), d)
  {
    var pi := PacerIns(st, ins);
    forall i, j | 0 <= i < j < |pi| && P.Strobe(pi[i]) && P.Strobe(pi[j])
      ensures j - i >= d
    {
      assert ins[i].tick && ins[j].tick;
      Nco.StrobesSpaced(ns, rs, d, i, j);
    }
  }

  const BUILT_CLK := 50_000_000
  const BUILT_FS := 48_000

  /** Every increment the servo can write at the built clock keeps strobes at least 1041 cycles apart. */
  lemma ServoRateSpaced(ppb: int)
    requires -RateServo.MAX_PPB <= ppb <= RateServo.MAX_PPB
    ensures (RateServo.IncFor(RateServo.BaseInc(BUILT_FS, BUILT_CLK), ppb) + 1) * 1041 <= TWO32
  {
    assert RateServo.BaseInc(BUILT_FS, BUILT_CLK) == 4123169;
    if ppb >= 0 {
      assert 4123169 * ppb <= 4123169 * RateServo.MAX_PPB;
    }
  }

  /** The increments are some the servo writes. */
  ghost predicate ServoRates(rs: seq<Nco.Rate>) {
    forall j :: 0 <= j < |rs| ==> exists ppb ::
      -RateServo.MAX_PPB <= ppb <= RateServo.MAX_PPB
      && rs[j].inc == RateServo.IncFor(RateServo.BaseInc(BUILT_FS, BUILT_CLK), ppb)
  }

  /** SIX FULL FLOWS. All six contexts eight slots at fpp 16, the built clock, any rates the servo
      writes, however it moves between them, a sink that is always ready: in no run of the packetizer
      is a due merged into another. With the conservation of dues, each gets a packet of its own. */
  lemma {:induction false} SixFlowsLoseNothing(st: seq<Regs>, ins: seq<Inputs>, cs: seq<W.Shape>, k: nat,
                            ns: seq<Nco.Regs>, rs: seq<Nco.Rate>)
    requires Trace(st, ins) && |cs| == N_CTX && KeepsShapes(ins, cs) && Ready(ins)
    requires forall j :: 0 <= j < N_CTX ==> cs[j] == W.Shape(8, HDR_LEN + PayLen(8, 1), 12 + PayLen(8, 1) / 4)
    requires StartsClean(st, ins, cs, k, 16) && Driven(ins, ns, rs) && ServoRates(rs)
    ensures Merged(st, ins, k) == 0
  {
    W.FullMulticastFits(cs);
    forall j | 0 <= j < |rs|
      ensures (rs[j].inc + 1) * 1041 <= TWO32
    {
      var ppb :| -RateServo.MAX_PPB <= ppb <= RateServo.MAX_PPB
        && rs[j].inc == RateServo.IncFor(RateServo.BaseInc(BUILT_FS, BUILT_CLK), ppb);
      ServoRateSpaced(ppb);
    }
    TicksSpaced(st, ins, ns, rs, 1041);
    NoDueMerged(st, ins, cs, k, 16, 1041);
  }
}
