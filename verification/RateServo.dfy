/** mcr_dante.c: the slew-limited servo that owns the NCO increment register. */
module RateServo {
  import opened Arith
  import opened Bytes

  const UPDATE_MS := 1000
  const SLEW := 100
  const MAX_PPB := 100000
  const TRIP_ABOVE := 4800
  const NO_SOURCE := 24000
  const RING_ACTIVE := 32
  const TRIP_STREAK := 45
  const NV_SAVE_MS := 600000
  const NV_DELTA := 200
  const READY_PPB := 250
  const PHASE_TARGET := -24
  const PHASE_MAX := 2000
  const PHASE_KI := 10
  const PHASE_KP := 30
  const PHASE_SCALE := 1024
  const PHASE_OUTLIER := 2400
  const SETTLE_MS := 15000
  const BILLION := 1_000_000_000

  // ---- arithmetic ---------------------------------------------------------------------------------

  /** C division: towards zero. */
  function TruncDiv(a: int, b: nat): int
    requires b > 0
  {
    if a >= 0 then a / b else -((0 - a) / b)
  }

  function Clamp(x: int, lo: int, hi: int): int {
    if x < lo then lo else if x > hi then hi else x
  }

  /** inc_for_ppb. */
  function IncFor(base: nat, ppb: int): (r: nat)
    ensures 1 <= r < TWO32
  {
    Clamp(base + TruncDiv(base * ppb, BILLION), 1, TWO32 - 1)
  }

  /** The nominal increment: fs * 2^32 over the system clock, rounded. */
  function BaseInc(fs: nat, clk: nat): nat
    requires clk > 0
  {
    var x := fs * TWO32;
    x / clk + if x % clk > clk / 2 then 1 else 0
  }

  // ---- state ----------------------------------------------------------------------------------------

  /** The NCO: nominal increment, the rate applied, its increment, the last one written, the
      register itself, and the number of writes. */
  datatype Clock = Clock(base: nat, ppb: int, inc: nat, written: nat, reg: nat, writes: nat)

  /** The open one-second window of ring levels, and what the last closed one showed. */
  datatype Window = Window(n: nat, sum: nat, min: nat, max: nat)

  datatype Levels = Levels(min: nat, max: nat, avg: nat)

  const EMPTY := Window(0, 0, TWO16 - 1, 0)

  /** The auto-disable guard. */
  datatype Guard = Guard(streak: nat, trips: nat, lastUnderrun: nat, win: Window, lvl: Levels)

  /** The phase loop. */
  datatype Pll = Pll(on: bool, ppb: int, integ: int, valid: bool, armMs: nat, seen: nat)

  /** The rate kept in flash for the next boot. */
  datatype Saved = Saved(valid: bool, ppb: int)

  datatype Servo = Servo(on: bool, target: int, lastMs: nat, clk: Clock, guard: Guard, pll: Pll,
                         nv: Saved, lastNvMs: nat)

  /** What one poll reads: uptime, the underrun counter, emitted minus PTP samples, PTP lock and rate,
      whether the talker is on, and the number of re-anchors so far. */
  datatype Reading = Reading(now: nat, underrun: nat, drift: int, locked: bool, ratePpb: int,
                             talkerOn: bool, anchors: nat)

  // ---- the pieces of one poll -----------------------------------------------------------------------

  function Elapsed(now: nat, last: nat): (e: nat)
    ensures e < TWO32
  {
    (now - last) % TWO32
  }

  /** Underruns a second since the last poll. */
  function UnderrunRate(s: Servo, i: Reading): nat
    requires Elapsed(i.now, s.lastMs) > 0
  {
    Elapsed(i.underrun, s.guard.lastUnderrun) * 1000 / Elapsed(i.now, s.lastMs)
  }

  function Closed(g: Guard): Levels {
    if g.win.n > 0 then Levels(g.win.min, g.win.max, g.win.sum / g.win.n % TWO16) else g.lvl
  }

  /** A partial underrun with the ring active, while the servo drives the clock. */
  predicate Bad(s: Servo, i: Reading) {
    s.on && Elapsed(i.now, s.lastMs) > 0
    && TRIP_ABOVE < UnderrunRate(s, i) < NO_SOURCE && Closed(s.guard).max >= RING_ACTIVE
  }

  function Streak(s: Servo, i: Reading): nat {
    if Bad(s, i) then s.guard.streak + 1 else 0
  }

  predicate Runs(s: Servo, i: Reading) {
    Elapsed(i.now, s.lastMs) >= UPDATE_MS
  }

  predicate Trips(s: Servo, i: Reading) {
    Runs(s, i) && Streak(s, i) >= TRIP_STREAK
  }

  function NextGuard(s: Servo, i: Reading): Guard {
    var trip := Streak(s, i) >= TRIP_STREAK;
    Guard(if trip then 0 else Streak(s, i), if trip then (s.guard.trips + 1) % TWO32 else s.guard.trips,
          i.underrun, EMPTY, Closed(s.guard))
  }

  /** A re-anchor drops the setpoint and the integral; the setpoint returns 15 s later. */
  function Latch(p: Pll, i: Reading): Pll {
    var q := if i.anchors == p.seen then p
             else p.(seen := i.anchors, valid := false, armMs := (i.now + SETTLE_MS) % TWO32, integ := 0);
    if !q.valid && i.talkerOn && i.locked && Elapsed(i.now, q.armMs) < TWO32 / 2 then q.(valid := true) else q
  }

  /** Phase error in samples; positive is ahead. */
  function PhaseErr(i: Reading): int {
    i.drift - PHASE_TARGET
  }

  const INTEG_MAX := PHASE_MAX * PHASE_SCALE

  function NextPll(p: Pll, i: Reading): Pll {
    var q := Latch(p, i);
    if !q.on || !q.valid || !i.locked then q.(ppb := 0)
    else if PhaseErr(i) > PHASE_OUTLIER || PhaseErr(i) < -PHASE_OUTLIER then q.(ppb := 0)
    else
      var integ := Clamp(q.integ - PhaseErr(i) * PHASE_KI, -INTEG_MAX, INTEG_MAX);
      q.(integ := integ,
         ppb := Clamp(0 - PhaseErr(i) * PHASE_KP + TruncDiv(integ, PHASE_SCALE), -PHASE_MAX, PHASE_MAX))
  }

  function NextTarget(p: Pll, i: Reading): int {
    Clamp(i.ratePpb + p.ppb, -MAX_PPB, MAX_PPB)
  }

  /** One slew step, and the register write if it changes the increment. */
  function Slewed(c: Clock, target: int): Clock {
    var ppb := c.ppb + Clamp(target - c.ppb, -SLEW, SLEW);
    var inc := IncFor(c.base, ppb);
    if inc != c.written then
      c.(ppb := ppb, inc := inc, written := inc, reg := inc, writes := (c.writes + 1) % TWO32)
    else c.(ppb := ppb, inc := inc)
  }

  predicate SavesNow(s: Servo, c: Clock, target: int, now: nat) {
    c.ppb == target && (!s.nv.valid || Elapsed(now, s.lastNvMs) >= NV_SAVE_MS)
  }

  function NextSaved(nv: Saved, ppb: int): Saved {
    if !nv.valid || nv.ppb - ppb > NV_DELTA || nv.ppb - ppb < -NV_DELTA then Saved(true, ppb) else nv
  }

  // ---- the operations -------------------------------------------------------------------------------

  /** mcr_dante_init: start at the saved rate, armed, if there is one strictly inside the clamp. */
  function Boot(base: nat, nv: Saved, now: nat, underrun: nat): Servo {
    var warm := nv.valid && -MAX_PPB < nv.ppb < MAX_PPB;
    var ppb := if warm then nv.ppb else 0;
    var inc := if warm then IncFor(base, nv.ppb) else base;
    Servo(warm, 0, now, Clock(base, ppb, inc, inc, inc, 0), Guard(0, 0, underrun, EMPTY, Levels(0, 0, 0)),
          Pll(false, 0, 0, false, 0, 0), nv, 0)
  }

  /** mcr_dante_set_enabled. */
  function Armed(s: Servo, on: bool): Servo {
    var c := s.clk;
    if on then
      var inc := IncFor(c.base, c.ppb);
      s.(on := true, clk := c.(inc := inc, written := inc, reg := inc))
    else
      s.(on := false,
         clk := c.(ppb := 0, inc := c.base, written := c.base, reg := c.base, writes := (c.writes + 1) % TWO32))
  }

  /** The part of a poll after the guard: phase loop, target, and if locked and armed the slew. */
  function Steered(s: Servo, i: Reading): Servo {
    var p := NextPll(s.pll, i);
    var target := NextTarget(p, i);
    var t := s.(pll := p, target := target);
    if !i.locked then t
    else if !s.on then t.(clk := s.clk.(ppb := 0, inc := s.clk.base))
    else
      var c := Slewed(s.clk, target);
      if SavesNow(s, c, target, i.now) then t.(clk := c, lastNvMs := i.now, nv := NextSaved(s.nv, c.ppb))
      else t.(clk := c)
  }

  /** mcr_dante_poll. */
  function Polled(s: Servo, i: Reading): Servo {
    if !Runs(s, i) then s
    else
      var t := s.(lastMs := i.now, guard := NextGuard(s, i));
      if Trips(s, i) then Armed(t, false) else Steered(t, i)
  }

  /** mcr_dante_level_sample: minimum and maximum kept in 16 bits, sum and count in 32. */
  function Sampled(g: Guard, level: nat): Guard {
    var w := g.win;
    g.(win := Window((w.n + 1) % TWO32, (w.sum + level) % TWO32,
                     if level < w.min then level % TWO16 else w.min,
                     if level > w.max then level % TWO16 else w.max))
  }

  /** mcr_dante_rate_ready. */
  predicate RateReady(s: Servo, locked: bool) {
    !s.on || (locked && -READY_PPB < s.target - s.clk.ppb < READY_PPB)
  }

  /** The module's statics. */
  class MediaClock {
    var on: bool
    var target: int
    var lastMs: nat
    var clk: Clock
    var guard: Guard
    var pll: Pll
    var nv: Saved
    var lastNvMs: nat

    ghost function Abs(): Servo
      reads this
    {
      Servo(on, target, lastMs, clk, guard, pll, nv, lastNvMs)
    }

    constructor (base: nat, saved: Saved, now: nat, underrun: nat)
      requires 1 <= base < TWO32
      ensures Abs() == Boot(base, saved, now, underrun)
    {
      on, target, lastMs, nv, lastNvMs := false, 0, now, saved, 0;
      clk := Clock(base, 0, base, base, base, 0);
      guard := Guard(0, 0, underrun, EMPTY, Levels(0, 0, 0));
      pll := Pll(false, 0, 0, false, 0, 0);
      if saved.valid && saved.ppb < MAX_PPB && saved.ppb > -MAX_PPB {
        var inc := IncFor(base, saved.ppb);
        clk := Clock(base, saved.ppb, inc, inc, inc, 0);
        on := true;
      }
    }

    method SetEnabled(arm: bool)
      modifies this`on, this`clk
      ensures Abs() == Armed(old(Abs()), arm)
    {
      on := arm;
      if !on {
        clk := clk.(ppb := 0, inc := clk.base, written := clk.base, reg := clk.base, writes := (clk.writes + 1) % TWO32);
      } else {
        var inc := IncFor(clk.base, clk.ppb);
        clk := clk.(inc := inc, written := inc, reg := inc);
      }
    }

    method LevelSample(level: nat)
      modifies this`guard
      ensures guard == Sampled(old(guard), level)
    {
      var w := guard.win;
      if level < w.min {
        w := w.(min := level % TWO16);
      }
      if level > w.max {
        w := w.(max := level % TWO16);
      }
      guard := guard.(win := w.(n := (w.n + 1) % TWO32, sum := (w.sum + level) % TWO32));
    }

    /** Close the level window, take the underrun rate, count the streak. */
    method CheckGuard(i: Reading) returns (trip: bool)
      requires Runs(Abs(), i)
      modifies this`guard, this`lastMs
      ensures trip == Trips(old(Abs()), i) && guard == NextGuard(old(Abs()), i) && lastMs == i.now
    {
      var elapsed := (i.now - lastMs) % TWO32;
      lastMs := i.now;
      var lvl, w := guard.lvl, guard.win;
      if w.n > 0 {
        lvl := Levels(w.min, w.max, w.sum / w.n % TWO16);
      }
      var du := (i.underrun - guard.lastUnderrun) % TWO32;
      var rate := du * 1000 / elapsed;
      var streak := 0;
      if on && rate > TRIP_ABOVE && rate < NO_SOURCE && lvl.max >= RING_ACTIVE {
        streak := guard.streak + 1;
      }
      trip := streak >= TRIP_STREAK;
      guard := Guard(if trip then 0 else streak, if trip then (guard.trips + 1) % TWO32 else guard.trips,
                     i.underrun, EMPTY, lvl);
    }

    /** Setpoint and phase term. */
    method StepPll(i: Reading)
      modifies this`pll
      ensures pll == NextPll(old(pll), i)
    {
      if i.anchors != pll.seen {
        pll := pll.(seen := i.anchors, valid := false, armMs := (i.now + SETTLE_MS) % TWO32, integ := 0);
      }
      if !pll.valid && i.talkerOn && i.locked && (i.now - pll.armMs) % TWO32 < TWO32 / 2 {
        pll := pll.(valid := true);
      }
      if !pll.on || !pll.valid || !i.locked {
        pll := pll.(ppb := 0);
        return;
      }
      var err := i.drift - PHASE_TARGET;
      if err > PHASE_OUTLIER || err < -PHASE_OUTLIER {
        pll := pll.(ppb := 0);
        return;
      }
      var integ := Clamp(pll.integ + -err * PHASE_KI, -INTEG_MAX, INTEG_MAX);
      var p := -(err * PHASE_KP);
      pll := pll.(integ := integ, ppb := Clamp(p + TruncDiv(integ, PHASE_SCALE), -PHASE_MAX, PHASE_MAX));
    }

    /** Slew towards the target, write the register if it changes, save the rate once converged. */
    method Slew(now: nat)
      modifies this`clk, this`nv, this`lastNvMs
      ensures clk == Slewed(old(clk), target)
      ensures var saves := SavesNow(old(Abs()), clk, target, now);
        nv == (if saves then NextSaved(old(nv), clk.ppb) else old(nv)) && lastNvMs == if saves then now else old(lastNvMs)
    {
      var d := Clamp(target - clk.ppb, -SLEW, SLEW);
      clk := clk.(ppb := clk.ppb + d);
      clk := clk.(inc := IncFor(clk.base, clk.ppb));
      if clk.inc != clk.written {
        clk := clk.(written := clk.inc, reg := clk.inc, writes := (clk.writes + 1) % TWO32);
      }
      if clk.ppb == target && (!nv.valid || (now - lastNvMs) % TWO32 >= NV_SAVE_MS) {
        lastNvMs := now;
        var moved := nv.ppb - clk.ppb;
        if !nv.valid || moved > NV_DELTA || moved < -NV_DELTA {
          nv := Saved(true, clk.ppb);
        }
      }
    }

    method Poll(i: Reading)
      modifies this
      ensures Abs() == Polled(old(Abs()), i)
    {
      if (i.now - lastMs) % TWO32 < UPDATE_MS {
        return;
      }
      var trip := CheckGuard(i);
      if trip {
        SetEnabled(false);
        return;
      }
      StepPll(i);
      target := Clamp(i.ratePpb + pll.ppb, -MAX_PPB, MAX_PPB);
      if !i.locked {
        return;
      }
      if !on {
        clk := clk.(ppb := 0, inc := clk.base);
        return;
      }
      Slew(i.now);
    }
  }

  // ---- what every run keeps -------------------------------------------------------------------------

  datatype Event = Poll(i: Reading) | Arm(on: bool) | PhaseTerm(on: bool) | Level(level: nat)

  function Step(s: Servo, e: Event): Servo {
    match e
    case Poll(i) => Polled(s, i)
    case Arm(on) => Armed(s, on)
    case PhaseTerm(on) => s.(pll := s.pll.(on := on, ppb := if on then s.pll.ppb else 0))
    case Level(l) => s.(guard := Sampled(s.guard, l))
  }

  function Run(s: Servo, es: seq<Event>): Servo {
    if es == [] then s else Step(Run(s, es[..|es| - 1]), es[|es| - 1])
  }

  /** The register is the increment of the applied rate, which describes the hardware at all times;
      everything is inside its clamp. */
  ghost predicate Good(s: Servo) {
    1 <= s.clk.base < TWO32
    && s.clk.reg == s.clk.written == IncFor(s.clk.base, s.clk.ppb)
    && (!s.on ==> s.clk.ppb == 0)
    && -MAX_PPB <= s.clk.ppb <= MAX_PPB && -MAX_PPB <= s.target <= MAX_PPB
    && -PHASE_MAX <= s.pll.ppb <= PHASE_MAX && -INTEG_MAX <= s.pll.integ <= INTEG_MAX
    && s.guard.streak < TRIP_STREAK
  }

  lemma NominalInc(base: nat)
    requires 1 <= base < TWO32
    ensures IncFor(base, 0) == base
  {
  }

  lemma BootGood(base: nat, nv: Saved, now: nat, underrun: nat)
    requires 1 <= base < TWO32
    ensures Good(Boot(base, nv, now, underrun))
  {
    NominalInc(base);
  }

  lemma StepGood(s: Servo, e: Event)
    requires Good(s)
    ensures Good(Step(s, e)) && Step(s, e).clk.base == s.clk.base
  {
    NominalInc(s.clk.base);
    if e.Poll? {
      SlewedGood(s.clk, NextTarget(NextPll(s.pll, e.i), e.i));
      PllGood(s.pll, e.i);
    }
  }

  lemma SlewedGood(c: Clock, target: int)
    requires c.reg == c.written && -MAX_PPB <= c.ppb <= MAX_PPB && -MAX_PPB <= target <= MAX_PPB
    ensures var d := Slewed(c, target);
      d.base == c.base && d.reg == d.written == IncFor(c.base, d.ppb) && -MAX_PPB <= d.ppb <= MAX_PPB
  {
  }

  lemma PllGood(p: Pll, i: Reading)
    requires -PHASE_MAX <= p.ppb <= PHASE_MAX && -INTEG_MAX <= p.integ <= INTEG_MAX
    ensures -PHASE_MAX <= NextPll(p, i).ppb <= PHASE_MAX && -INTEG_MAX <= NextPll(p, i).integ <= INTEG_MAX
  {
  }

  /** In every run, in any order of polls, arming, phase-term switches and level samples, the NCO
      register is exactly inc_for_ppb of the applied rate, and every clamp holds. */
  lemma {:induction false} RegisterTracksRate(s: Servo, es: seq<Event>)
    requires Good(s)
    ensures Good(Run(s, es)) && Run(s, es).clk.base == s.clk.base
  {
    if es != [] {
      RegisterTracksRate(s, es[..|es| - 1]);
      StepGood(Run(s, es[..|es| - 1]), es[|es| - 1]);
    }
  }

  // ---- how fast the clock moves ---------------------------------------------------------------------

  lemma FloorClose(x: nat, y: nat, b: nat)
    requires b > 0 && y <= x <= y + b
    ensures y / b <= x / b <= y / b + 1
  {
    var d := x / b - y / b;
    assert x == (x / b) * b + x % b && y == (y / b) * b + y % b;
    assert d * b == (x / b) * b - (y / b) * b;
    MulSign(d, b);
    MulSign(d - 1, b);
    assert (d - 1) * b == d * b - b;
  }

  /** Values at most b apart have C quotients at most one apart, across zero too. */
  lemma TruncClose(x: int, y: int, b: nat)
    requires b > 0 && y <= x <= y + b
    ensures TruncDiv(y, b) <= TruncDiv(x, b) <= TruncDiv(y, b) + 1
  {
    if y >= 0 {
      FloorClose(x, y, b);
    } else if x < 0 {
      FloorClose(-y, -x, b);
    } else {
      DivMod(x, b, 0, x);
      QuotientBound(-y, b, 1);
    }
  }

  lemma ProductGrows(base: nat, d: nat, m: nat)
    requires d <= m
    ensures base * d <= base * m
  {
    assert base * m == base * d + base * (m - d);
  }

  lemma SmallSlew(base: nat, low: int, high: int)
    requires base * SLEW <= BILLION && low <= high <= low + SLEW
    ensures base * low <= base * high <= base * low + BILLION
  {
    var d := high - low;
    ProductGrows(base, d, SLEW);
    assert base * high == base * low + base * d;
  }

  /** A poll that leaves the servo armed moves the rate by at most 100 ppb, and the register, at any
      nominal increment up to ten million, by at most one unit. */
  lemma PollSlewLimited(s: Servo, i: Reading)
    requires Good(s) && Polled(s, i).on
    ensures -SLEW <= Polled(s, i).clk.ppb - s.clk.ppb <= SLEW
    ensures s.clk.base * SLEW <= BILLION ==> -1 <= Polled(s, i).clk.reg - s.clk.reg <= 1
  {
    var t := Polled(s, i);
    StepGood(s, Poll(i));
    if s.clk.base * SLEW <= BILLION {
      var low, high := if t.clk.ppb < s.clk.ppb then t.clk.ppb else s.clk.ppb,
                       if t.clk.ppb < s.clk.ppb then s.clk.ppb else t.clk.ppb;
      SmallSlew(s.clk.base, low, high);
      TruncClose(s.clk.base * high, s.clk.base * low, BILLION);
    }
  }

  /** The nominal increment is the nearest there is: half a clock period of phase off at most. */
  lemma BaseNearest(fs: nat, clk: nat)
    requires clk > 0
    ensures 0 - clk <= 2 * (BaseInc(fs, clk) * clk - fs * TWO32) <= clk
  {
    var x := fs * TWO32;
    assert x == (x / clk) * clk + x % clk;
    assert (x / clk + 1) * clk == (x / clk) * clk + clk;
  }

  /** An unlocked poll changes nothing of the clock, short of a trip. */
  lemma UnlockedHolds(s: Servo, i: Reading)
    requires !i.locked && !Trips(s, i)
    ensures Polled(s, i).clk == s.clk && Polled(s, i).on == s.on && Polled(s, i).nv == s.nv
  {
  }

  // ---- convergence ----------------------------------------------------------------------------------

  /** A poll that steers an armed, locked servo towards target t. */
  ghost predicate Steers(s: Servo, i: Reading, t: int) {
    s.on && Runs(s, i) && !Trips(s, i) && i.locked && Polled(s, i).target == t
  }

  function Dist(x: int, y: int): nat {
    if x >= y then x - y else y - x
  }

  ghost function PollAll(s: Servo, rs: seq<Reading>): Servo {
    if rs == [] then s else Polled(PollAll(s, rs[..|rs| - 1]), rs[|rs| - 1])
  }

  ghost predicate SteersAt(s: Servo, rs: seq<Reading>, t: int, n: nat)
    requires n < |rs|
  {
    Steers(PollAll(s, rs[..n]), rs[n], t)
  }

  lemma SteerStep(s: Servo, i: Reading, t: int)
    requires Steers(s, i, t)
    ensures Polled(s, i).on
    ensures Dist(t, Polled(s, i).clk.ppb) == if Dist(t, s.clk.ppb) <= SLEW then 0 else Dist(t, s.clk.ppb) - SLEW
  {
  }

  /** Under a constant target the distance shrinks by exactly 100 ppb a poll until it is gone. */
  lemma {:induction false} Converges(s: Servo, rs: seq<Reading>, t: int)
    requires s.on && forall n :: 0 <= n < |rs| ==> SteersAt(s, rs, t, n)
    ensures PollAll(s, rs).on
    ensures Dist(t, PollAll(s, rs).clk.ppb)
      == if Dist(t, s.clk.ppb) <= SLEW * |rs| then 0 else Dist(t, s.clk.ppb) - SLEW * |rs|
  {
    if rs != [] {
      var n := |rs| - 1;
      forall k | 0 <= k < n
        ensures SteersAt(s, rs[..n], t, k)
      {
        assert rs[..n][..k] == rs[..k];
        assert SteersAt(s, rs, t, k);
      }
      Converges(s, rs[..n], t);
      assert SteersAt(s, rs, t, n);
      SteerStep(PollAll(s, rs[..n]), rs[n], t);
    }
  }

  /** It is reached in exactly the ceiling of a hundredth of the distance. */
  lemma ReachedExactly(s: Servo, rs: seq<Reading>, t: int)
    requires s.on && forall n :: 0 <= n < |rs| ==> SteersAt(s, rs, t, n)
    ensures PollAll(s, rs).clk.ppb == t <==> |rs| >= (Dist(t, s.clk.ppb) + SLEW - 1) / SLEW
  {
    Converges(s, rs, t);
  }

  // ---- trips ----------------------------------------------------------------------------------------

  /** How many of the latest polls that ran were bad ones. */
  ghost function BadRun(s: Servo, es: seq<Event>): nat {
    if es == [] then 0
    else
      var prev, e := es[..|es| - 1], es[|es| - 1];
      if !e.Poll? || !Runs(Run(s, prev), e.i) then BadRun(s, prev)
      else if Bad(Run(s, prev), e.i) then BadRun(s, prev) + 1
      else 0
  }

  lemma {:induction false} StreakBounded(s: Servo, es: seq<Event>)
    requires s.guard.streak == 0
    ensures Run(s, es).guard.streak <= BadRun(s, es)
  {
    if es != [] {
      StreakBounded(s, es[..|es| - 1]);
    }
  }

  /** The guard never fires on fewer than 45 consecutive bad polls, whatever else happens between. */
  lemma TripNeedsPersistence(s: Servo, es: seq<Event>, i: Reading)
    requires s.guard.streak == 0 && Trips(Run(s, es), i)
    ensures BadRun(s, es + [Poll(i)]) >= TRIP_STREAK
  {
    StreakBounded(s, es);
    assert (es + [Poll(i)])[..|es|] == es;
  }

  /** A trip restores the nominal rate at once and leaves the servo disarmed. */
  lemma TripReverts(s: Servo, i: Reading)
    requires Good(s) && Trips(s, i)
    ensures var t := Polled(s, i);
      !t.on && t.clk.ppb == 0 && t.clk.reg == s.clk.base && RateReady(t, i.locked)
      && t.guard.trips == (s.guard.trips + 1) % TWO32
  {
  }

  // ---- the saved rate ---------------------------------------------------------------------------------

  /** Rates a poll saves. */
  lemma SavedRate(s: Servo, i: Reading)
    requires Good(s) && Polled(s, i).nv != s.nv
    ensures var t := Polled(s, i);
      t.nv == Saved(true, t.clk.ppb) && t.clk.ppb == t.target && i.locked && t.on
      && (s.nv.valid ==> Dist(s.nv.ppb, t.clk.ppb) > NV_DELTA && Elapsed(i.now, s.lastNvMs) >= NV_SAVE_MS)
  {
  }

  /** The next boot resumes at the saved rate, armed and ready once locked on it, exactly when that
      rate is not at the clamp itself, which the servo can reach and save. */
  lemma BootResumesIff(s: Servo, i: Reading, now: nat, underrun: nat)
    requires Good(s) && Polled(s, i).nv != s.nv
    ensures var t := Polled(s, i);
      var b := Boot(t.clk.base, t.nv, now, underrun);
      (b.on && b.clk.ppb == t.clk.ppb && b.clk.reg == t.clk.reg) <==> -MAX_PPB < t.clk.ppb < MAX_PPB
  {
    StepGood(s, Poll(i));
  }

  /** Poll n of a servo switched on at boot, one a second, on a rate estimate at the clamp. */
  function ClampReading(n: nat): Reading {
    Reading(UPDATE_MS * (n + 1), 0, 0, true, MAX_PPB, true, 0)
  }

  /** A cold boot, switched on, and n such polls. */
  ghost function Climb(base: nat, n: nat): Servo {
    if n == 0 then Armed(Boot(base, Saved(false, 0), 0, 0), true) else Polled(Climb(base, n - 1), ClampReading(n - 1))
  }

  ghost predicate Climbing(s: Servo, base: nat, n: nat) {
    s.on && s.clk.base == base && s.clk.ppb == SLEW * n && !s.nv.valid && s.lastMs == UPDATE_MS * n
    && s.guard.lastUnderrun == 0 && s.guard.streak == 0 && !s.pll.on && s.pll.seen == 0
  }

  lemma ClimbStep(s: Servo, base: nat, n: nat)
    requires Climbing(s, base, n) && n < 1000
    ensures var t := Polled(s, ClampReading(n));
      if n < 999 then Climbing(t, base, n + 1) else t.on && t.nv == Saved(true, MAX_PPB) && t.clk.ppb == MAX_PPB
  {
  }

  lemma {:induction false} ClimbsOn(base: nat, n: nat)
    requires n < 1000
    ensures Climbing(Climb(base, n), base, n)
  {
    if n > 0 {
      ClimbsOn(base, n - 1);
      ClimbStep(Climb(base, n - 1), base, n - 1);
    }
  }

  /** It happens: after a thousand polls the clamp itself is saved, and the next boot starts at the
      nominal rate, disarmed. */
  lemma ClampSavedThenIgnored(base: nat, now: nat, underrun: nat)
    requires 1 <= base < TWO32
    ensures var t := Climb(base, 1000);
      t.nv == Saved(true, MAX_PPB) && t.on && t.clk.ppb == MAX_PPB
      && var b := Boot(base, t.nv, now, underrun); !b.on && b.clk.ppb == 0 && b.clk.reg == base
  {
    ClimbsOn(base, 999);
    ClimbStep(Climb(base, 999), base, 999);
  }
}
