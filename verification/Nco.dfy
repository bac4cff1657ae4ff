/** MCRNco of avb_soc.py: the 32-bit phase accumulator with an eight-bit fractional increment whose
    carry out is the media sample strobe. */
module Nco {
  import opened Arith
  import opened Bytes

  /** The two increment registers. */
  datatype Rate = Rate(inc: nat, frac: nat)
  {
    ghost predicate Valid() { inc < TWO32 && frac < 256 }
  }

  datatype Regs = Regs(phase: nat, acc: nat, strobe: bool, count: nat)
  {
    ghost predicate Valid() { phase < TWO32 && acc < 512 && count < TWO32 }
  }

  /** The accumulator's carry bit of this cycle. */
  function Carry(s: Regs): nat {
    s.acc / 256
  }

  function NextPhase(s: Regs, r: Rate): nat {
    s.phase + r.inc + Carry(s)
  }

  function Next(s: Regs, r: Rate): (t: Regs)
    requires s.Valid() && r.Valid()
    ensures t.Valid()
  {
    Regs(NextPhase(s, r) % TWO32, s.acc % 256 + r.frac, NextPhase(s, r) >= TWO32,
         if s.strobe then (s.count + 1) % TWO32 else s.count)
  }

  ghost predicate Trace(st: seq<Regs>, rs: seq<Rate>) {
    |st| == |rs| + 1
    && (forall j :: 0 <= j < |st| ==> st[j].Valid())
    && (forall j :: 0 <= j < |rs| ==> rs[j].Valid())
    && (forall j :: 0 <= j < |rs| ==> StepsAt(st, rs, j))
  }

  ghost predicate StepsAt(st: seq<Regs>, rs: seq<Rate>, j: nat)
    requires j < |rs| && j + 1 < |st| && st[j].Valid() && rs[j].Valid()
  {
    st[j + 1] == Next(st[j], rs[j])
  }

  /** The hardware. */
  class Nco {
    var phase: nat
    var acc: nat
    var strobe: bool
    var count: nat

    ghost function Abs(): Regs
      reads this
    {
      Regs(phase, acc, strobe, count)
    }

    constructor ()
      ensures Abs() == Regs(0, 0, false, 0)
    {
      phase, acc, strobe, count := 0, 0, false, 0;
    }

    method Clock(r: Rate)
      requires Abs().Valid() && r.Valid()
      modifies this
      ensures Abs().Valid() && Abs() == Next(old(Abs()), r)
    {
      var next := phase + r.inc + acc / 256;
      if strobe {
        count := (count + 1) % TWO32;
      }
      acc := acc % 256 + r.frac;
      phase, strobe := next % TWO32, next >= TWO32;
    }
  }

  // ---- conservation of phase ----------------------------------------------------------------------

  /** Strobes raised by cycles a..b (each visible one cycle later). */
  ghost function Strobes(st: seq<Regs>, a: nat, b: nat): nat
    requires a <= b < |st|
  {
    if a == b then 0 else Strobes(st, a, b - 1) + if st[b].strobe then 1 else 0
  }

  /** Phase put in over cycles a..b. */
  ghost function PhaseIn(st: seq<Regs>, rs: seq<Rate>, a: nat, b: nat): nat
    requires a <= b <= |rs| < |st|
  {
    if a == b then 0 else PhaseIn(st, rs, a, b - 1) + rs[b - 1].inc + Carry(st[b - 1])
  }

  /** No phase is lost or made up, however the servo moves the registers: every 2^32 put in is one
      strobe out, the remainder is in the accumulator. */
  lemma {:induction false} PhaseConserved(st: seq<Regs>, rs: seq<Rate>, a: nat, b: nat)
    requires Trace(st, rs) && a <= b <= |rs|
    ensures st[b].phase + TWO32 * Strobes(st, a, b) == st[a].phase + PhaseIn(st, rs, a, b)
    ensures Strobes(st, a, b) == (st[a].phase + PhaseIn(st, rs, a, b)) / TWO32
    decreases b
  {
    if a < b {
      PhaseConserved(st, rs, a, b - 1);
      assert StepsAt(st, rs, b - 1);
    }
    DivMod(st[a].phase + PhaseIn(st, rs, a, b), TWO32, Strobes(st, a, b), st[b].phase);
  }

  /** The sample counter counts them, one cycle behind. */
  lemma {:induction false} CountCountsStrobes(st: seq<Regs>, rs: seq<Rate>, n: nat)
    requires Trace(st, rs) && 1 <= n <= |rs|
    ensures st[n].count == (st[0].count + (if st[0].strobe then 1 else 0) + Strobes(st, 0, n - 1)) % TWO32
  {
    assert StepsAt(st, rs, n - 1);
    if n > 1 {
      CountCountsStrobes(st, rs, n - 1);
    }
  }

  // ---- a constant rate ----------------------------------------------------------------------------

  ghost predicate Steady(rs: seq<Rate>, r: Rate, a: nat, b: nat)
    requires a <= b <= |rs|
  {
    r.Valid() && forall j :: a <= j < b ==> rs[j] == r
  }

  /** Fractional carries of n cycles from accumulator value acc: the first cycle spends the carry
      already there, the rest the fractions added since. */
  function Carries(acc: nat, frac: nat, n: nat): nat {
    if n == 0 then 0 else acc / 256 + (acc % 256 + (n - 1) * frac) / 256
  }

  lemma CarryStep(acc: nat, frac: nat, n: nat)
    requires n >= 1
    ensures var low := (acc % 256 + (n - 1) * frac) % 256;
      Carries(acc, frac, n + 1) == Carries(acc, frac, n) + (low + frac) / 256
      && (acc % 256 + n * frac) % 256 == (low + frac) % 256
  {
    var x := acc % 256 + (n - 1) * frac;
    assert n * frac == (n - 1) * frac + frac;
  }

  /** The accumulator after the first cycle of a constant rate. */
  function AccAfter(acc: nat, frac: nat, n: nat): nat
    requires n >= 1
  {
    (acc % 256 + (n - 1) * frac) % 256 + frac
  }

  lemma AccStep(acc: nat, frac: nat, n: nat)
    requires n >= 1
    ensures AccAfter(acc, frac, n) % 256 + frac == AccAfter(acc, frac, n + 1)
    ensures Carries(acc, frac, n + 1) == Carries(acc, frac, n) + AccAfter(acc, frac, n) / 256
  {
    CarryStep(acc, frac, n);
  }

  lemma {:induction false} AccExact(st: seq<Regs>, rs: seq<Rate>, r: Rate, a: nat, b: nat)
    requires Trace(st, rs) && a < b <= |rs| && Steady(rs, r, a, b)
    ensures st[b].acc == AccAfter(st[a].acc, r.frac, b - a)
    decreases b
  {
    assert StepsAt(st, rs, b - 1);
    if a < b - 1 {
      AccExact(st, rs, r, a, b - 1);
      AccStep(st[a].acc, r.frac, b - 1 - a);
    }
  }

  /** The carry spent by the last of the cycles a..b. */
  lemma CarryAt(st: seq<Regs>, rs: seq<Rate>, r: Rate, a: nat, b: nat)
    requires Trace(st, rs) && a < b <= |rs| && Steady(rs, r, a, b)
    ensures Carries(st[a].acc, r.frac, b - a) == Carries(st[a].acc, r.frac, b - 1 - a) + Carry(st[b - 1])
  {
    if a < b - 1 {
      AccExact(st, rs, r, a, b - 1);
      AccStep(st[a].acc, r.frac, b - 1 - a);
    }
  }

  lemma OneMore(n: nat, x: nat)
    ensures (n + 1) * x == n * x + x
  {
  }

  /** Phase put in at a constant rate, in closed form. */
  lemma {:induction false} PhaseInExact(st: seq<Regs>, rs: seq<Rate>, r: Rate, a: nat, b: nat)
    requires Trace(st, rs) && a <= b <= |rs| && Steady(rs, r, a, b)
    ensures PhaseIn(st, rs, a, b) == (b - a) * r.inc + Carries(st[a].acc, r.frac, b - a)
    decreases b
  {
    if a < b {
      PhaseInExact(st, rs, r, a, b - 1);
      OneMore(b - 1 - a, r.inc);
      CarryAt(st, rs, r, a, b);
    }
  }

  /** Strobes of n cycles at a constant rate: the accumulated phase over 2^32, exactly. */
  lemma StrobesExact(st: seq<Regs>, rs: seq<Rate>, r: Rate, a: nat, n: nat)
    requires Trace(st, rs) && a + n <= |rs| && Steady(rs, r, a, a + n)
    ensures Strobes(st, a, a + n) == (st[a].phase + n * r.inc + Carries(st[a].acc, r.frac, n)) / TWO32
  {
    PhaseConserved(st, rs, a, a + n);
    PhaseInExact(st, rs, r, a, a + n);
  }

  /** Once the fraction is in the accumulator, two windows of n cycles carry the same or one more. */
  lemma CarriesClose(acc: nat, acc': nat, frac: nat, n: nat)
    requires frac < 256 && frac <= acc < frac + 256 && frac <= acc' < frac + 256
    ensures -1 <= Carries(acc, frac, n) - Carries(acc', frac, n) <= 1
  {
    if n > 0 {
      CarriesFrom(acc, frac, n);
      CarriesFrom(acc', frac, n);
    }
  }

  lemma CarriesFrom(acc: nat, frac: nat, n: nat)
    requires n > 0
    ensures Carries(acc, frac, n) == (acc + (n - 1) * frac) / 256
  {
    assert acc + (n - 1) * frac == acc % 256 + (n - 1) * frac + (acc / 256) * 256;
  }

  lemma QuotientsClose(p: nat, x: nat, q: nat, y: nat)
    requires p < TWO32 && q < TWO32 && -1 <= x - y <= 1
    ensures -1 <= (p + x) / TWO32 - (q + y) / TWO32 <= 1
  {
  }

  /** Any two equally long windows at one rate hold the same number of strobes, give or take one. */
  lemma WindowsNearlyEqual(st: seq<Regs>, rs: seq<Rate>, r: Rate, a: nat, b: nat, n: nat)
    requires Trace(st, rs) && 1 <= a && 1 <= b && a + n <= |rs| && b + n <= |rs|
    requires Steady(rs, r, a - 1, a + n) && Steady(rs, r, b - 1, b + n)
    ensures -1 <= Strobes(st, a, a + n) - Strobes(st, b, b + n) <= 1
  {
    assert rs[a - 1] == r && rs[b - 1] == r;
    assert StepsAt(st, rs, a - 1) && StepsAt(st, rs, b - 1);
    StrobesExact(st, rs, r, a, n);
    StrobesExact(st, rs, r, b, n);
    CarriesClose(st[a].acc, st[b].acc, r.frac, n);
    assert n * r.inc >= 0;
    QuotientsClose(st[a].phase, n * r.inc + Carries(st[a].acc, r.frac, n),
                   st[b].phase, n * r.inc + Carries(st[b].acc, r.frac, n));
  }

  /** The mean rate is (inc + frac / 256) / 2^32 strobes a cycle: over any n cycles the strobes are
      less than two off, however large n is. */
  lemma MeanRate(st: seq<Regs>, rs: seq<Rate>, r: Rate, a: nat, n: nat)
    requires Trace(st, rs) && a + n <= |rs| && Steady(rs, r, a, a + n)
    ensures var error := 256 * TWO32 * Strobes(st, a, a + n) - (256 * (n * r.inc) + n * r.frac);
      -256 * TWO32 - 256 < error < 256 * TWO32 + 512
  {
    PhaseConserved(st, rs, a, a + n);
    PhaseInExact(st, rs, r, a, a + n);
    if n > 0 {
      CarriesFrom(st[a].acc, r.frac, n);
      assert n * r.frac == (n - 1) * r.frac + r.frac;
    }
  }

  // ---- strobes are never close together -----------------------------------------------------------------

  /** No rate of the run puts in more than 1/d of 2^32 in a cycle, a fractional carry included. */
  ghost predicate AtMost(rs: seq<Rate>, d: nat) {
    forall j :: 0 <= j < |rs| ==> (rs[j].inc + 1) * d <= TWO32
  }

  lemma InputBound(s: Regs, r: Rate, d: nat)
    requires s.Valid() && r.Valid() && (r.inc + 1) * d <= TWO32
    ensures (r.inc + Carry(s)) * d <= TWO32
  {
    assert Carry(s) <= 1;
    if Carry(s) == 0 {
      assert (r.inc + 1) * d == r.inc * d + d;
    }
  }

  lemma {:induction false} PhaseInBound(st: seq<Regs>, rs: seq<Rate>, d: nat, a: nat, b: nat)
    requires Trace(st, rs) && AtMost(rs, d) && a <= b <= |rs|
    ensures PhaseIn(st, rs, a, b) * d <= (b - a) * TWO32
    decreases b
  {
    if a < b {
      var x, y := PhaseIn(st, rs, a, b - 1), rs[b - 1].inc + Carry(st[b - 1]);
      PhaseInBound(st, rs, d, a, b - 1);
      InputBound(st[b - 1], rs[b - 1], d);
      assert (x + y) * d == x * d + y * d;
    }
  }

  /** A strobe leaves less than one cycle's input in the accumulator. */
  lemma PhaseAfterStrobe(s: Regs, r: Rate, d: nat)
    requires s.Valid() && r.Valid() && 1 <= d && (r.inc + 1) * d <= TWO32 && Next(s, r).strobe
    ensures Next(s, r).phase * d < TWO32
  {
    InputBound(s, r, d);
    Leftover(s.phase, r.inc + Carry(s), d);
  }

  lemma Leftover(s: nat, y: nat, d: nat)
    requires s < TWO32 && 1 <= d && y * d <= TWO32 && s + y >= TWO32
    ensures (s + y) % TWO32 * d < TWO32
  {
    var p := s + y - TWO32;
    MulSign(d, y);
    DivMod(s + y, TWO32, 1, p);
    MulSign(y - p, d);
    assert y * d == p * d + (y - p) * d;
  }

  lemma Room(p: nat, x: nat, d: nat, n: nat)
    requires 1 <= d && p * d < TWO32 && x * d <= n * TWO32 && p + x >= TWO32
    ensures n >= d
  {
    assert (p + x) * d == p * d + x * d;
    assert TWO32 * d <= (p + x) * d;
  }

  /** However the increment moves below that bound, two strobes are at least d cycles apart. */
  lemma StrobesSpaced(st: seq<Regs>, rs: seq<Rate>, d: nat, a: nat, b: nat)
    requires Trace(st, rs) && AtMost(rs, d) && 1 <= d && 1 <= a < b <= |rs| && st[a].strobe && st[b].strobe
    ensures b - a >= d
  {
    assert StepsAt(st, rs, a - 1);
    PhaseAfterStrobe(st[a - 1], rs[a - 1], d);
    PhaseConserved(st, rs, a, b);
    PhaseInBound(st, rs, d, a, b);
    assert Strobes(st, a, b) >= 1;
    Room(st[a].phase, PhaseIn(st, rs, a, b), d, b - a);
  }
}
