/** The builder's walk: no due is lost or served twice, and every walk ends. */
module WalkTheorem {
  import opened Geometry
  import opened FrameBuilder

  // ---- conservation of dues ---------------------------------------------------------------------

  predicate Due(i: Inputs, k: nat)
    requires |i.due| == N_CTX && k < N_CTX
  {
    i.strobe && i.due[k]
  }

  predicate ServeOf(s: Regs, i: Inputs, k: nat)
    requires s.Valid() && i.Valid()
  {
    Serve(s, i) && s.ctx == k
  }

  /** Dues of context k, frames of k completed, and dues that found one still pending, over the
      first n cycles of a run. */
  datatype Tally = Tally(dues: nat, served: nat, merged: nat)

  ghost function Count(st: seq<Regs>, ins: seq<Inputs>, k: nat, n: nat): Tally
    requires Trace(st, ins) && n <= |ins| && k < N_CTX
  {
    if n == 0 then Tally(0, 0, 0) else
      var s, i := st[n - 1], ins[n - 1];
      var c := Count(st, ins, k, n - 1);
      Tally(c.dues + if Due(i, k) then 1 else 0,
            c.served + if ServeOf(s, i, k) then 1 else 0,
            c.merged + if Due(i, k) && s.pend[k] && !ServeOf(s, i, k) then 1 else 0)
  }

  /** A context being built or streamed still has its due pending. */
  ghost predicate OwnsDue(s: Regs) {
    s.Valid() && (s.fsm in {Build, Prefetch, Stream} ==> s.pend[s.ctx])
  }

  lemma OwnsDueKept(s: Regs, i: Inputs)
    requires OwnsDue(s) && i.Valid()
    ensures OwnsDue(Next(s, i))
  {
  }

  function Bit(b: bool): nat {
    if b then 1 else 0
  }

  lemma PendStep(s: Regs, i: Inputs, k: nat)
    requires s.Valid() && i.Valid() && k < N_CTX
    ensures Next(s, i).pend[k] == (Due(i, k) || (s.pend[k] && !ServeOf(s, i, k)))
  {
  }

  /** Every due of every context is served, still pending, or merged into an earlier one that was
      still pending, in any run at all: any strobes, any configuration writes, any backpressure. */
  lemma {:induction false} DuesConserved(st: seq<Regs>, ins: seq<Inputs>, k: nat, n: nat)
    requires Trace(st, ins) && n <= |ins| && k < N_CTX && OwnsDue(st[0])
    ensures OwnsDue(st[n])
    ensures var c := Count(st, ins, k, n);
      c.dues + Bit(st[0].pend[k]) == c.served + Bit(st[n].pend[k]) + c.merged
  {
    if n > 0 {
      var s, i := st[n - 1], ins[n - 1];
      DuesConserved(st, ins, k, n - 1);
      assert OwnsDue(st[n]) && st[n].pend[k] == (Due(i, k) || (s.pend[k] && !ServeOf(s, i, k))) by {
        assert StepsAt(st, ins, n - 1);
        OwnsDueKept(s, i);
        PendStep(s, i, k);
      }
    }
  }

  // ---- progress -----------------------------------------------------------------------------------

  /** The sink holds the builder up. */
  predicate Stalled(s: Regs, i: Inputs) {
    s.fsm == Stream && !i.ready
  }

  const MAX_TOTAL := 1491
  const MAX_WORDS := 373

  /** The shape a context keeps while the run lasts: off, or a frame that fits. */
  datatype Shape = Shape(nslots: nat, total: nat, lastIdx: nat)
  {
    ghost predicate Valid() {
      nslots != 0 ==> 0 < total <= MAX_TOTAL && lastIdx < MAX_WORDS
    }

    /** Unstalled cycles the walk spends on the context at most: CHECK, BUILD, PREFETCH and STREAM of
        its frame, or CHECK and SKIP. */
    function Cost(): (n: nat)
      ensures n >= 2 && n == if nslots == 0 then 2 else 1 + total + 1 + lastIdx + 1
    {
      if nslots == 0 then 2 else total + lastIdx + 3
    }
  }

  /** Of contexts a..b. */
  function Costs(cs: seq<Shape>, a: nat, b: nat): (n: nat)
    requires a <= b <= |cs|
    decreases b - a
  {
    if a == b then 0 else cs[a].Cost() + Costs(cs, a + 1, b)
  }

  lemma {:induction false} CostsSplit(cs: seq<Shape>, a: nat, b: nat, c: nat)
    requires a <= b <= c <= |cs|
    ensures Costs(cs, a, c) == Costs(cs, a, b) + Costs(cs, b, c)
    decreases b - a
  {
    if a < b {
      CostsSplit(cs, a + 1, b, c);
    }
  }

  ghost predicate Shapes(cs: seq<Shape>) {
    |cs| == N_CTX && forall k :: 0 <= k < N_CTX ==> cs[k].Valid()
  }

  ghost predicate Fixed(i: Inputs, cs: seq<Shape>) {
    i.Valid() && Shapes(cs)
    && forall k :: 0 <= k < N_CTX ==>
      cs[k] == Shape(i.views[k].nslots, i.views[k].total, i.views[k].lastIdx)
  }

  /** Build and stream positions are inside the frame of the selected context. */
  ghost predicate InFrame(s: Regs, c: Shape) {
    s.Valid() && c.Valid()
    && (s.fsm in {Build, Prefetch, Stream} ==> c.nslots != 0)
    && (s.fsm == Check ==> s.cnt.byteIdx == 0)
    && (s.fsm == Build ==> s.cnt.byteIdx < c.total)
    && (s.fsm == Prefetch ==> s.rdIdx == 0)
    && (s.fsm == Stream ==> s.rdIdx <= c.lastIdx)
  }

  /** Cycles the selected context can still take, stalls apart. */
  function Left(s: Regs, c: Shape): int {
    match s.fsm
    case Idle => 0
    case Check => c.Cost()
    case Skip => 1
    case Build => c.total - s.cnt.byteIdx + c.lastIdx + 2
    case Prefetch => c.lastIdx + 2
    case Stream => c.lastIdx + 1 - s.rdIdx
  }

  /** A context is left: its walk goes on to the next one, or is over. */
  predicate Leaves(s: Regs, i: Inputs)
    requires s.Valid() && i.Valid()
  {
    s.fsm == Skip || Serve(s, i)
  }

  /** One cycle inside a context: the position stays inside the frame and the work left shrinks. */
  lemma LeftShrinks(s: Regs, i: Inputs, cs: seq<Shape>)
    requires s.Valid() && Fixed(i, cs) && InFrame(s, cs[s.ctx]) && s.fsm != Idle && !Leaves(s, i)
    ensures var t := Next(s, i);
      t.ctx == s.ctx && t.fsm != Idle && InFrame(t, cs[t.ctx])
      && Left(t, cs[t.ctx]) + Bit(!Stalled(s, i)) <= Left(s, cs[s.ctx])
  {
    if s.fsm == Build {
      BuildPosition(s, i);
      LastByteOf(cs[s.ctx].total, s.cnt.byteIdx, i.views[s.ctx]);
    }
  }

  /** Where one byte of BUILD goes on. */
  lemma BuildPosition(s: Regs, i: Inputs)
    requires s.Valid() && i.Valid() && s.fsm == Build
    ensures var t, last := Next(s, i), IsLastByte(s.cnt.byteIdx, i.views[s.ctx]);
      t.Valid() && t.ctx == s.ctx && t.fsm == (if last then Prefetch else Build)
      && t.cnt.byteIdx == (if last then s.cnt.byteIdx else (s.cnt.byteIdx + 1) % 2048) && (last ==> t.rdIdx == 0)
  {
  }

  lemma LastByteOf(total: nat, b: nat, v: View)
    requires v.Valid() && v.total == total && 0 < total <= MAX_TOTAL && b < total
    ensures IsLastByte(b, v) <==> b == total - 1
  {
  }

  lemma LeftBounds(s: Regs, c: Shape)
    requires InFrame(s, c) && s.fsm != Idle
    ensures 1 <= Left(s, c) <= c.Cost()
  {
  }

  /** The cycle that leaves a context, or starts a walk. */
  lemma MovesOn(s: Regs, i: Inputs, cs: seq<Shape>)
    requires s.Valid() && Fixed(i, cs) && InFrame(s, cs[s.ctx])
    requires s.fsm == Idle || Leaves(s, i)
    ensures var t := Next(s, i);
      InFrame(t, cs[t.ctx])
      && if s.fsm == Idle then (if AnyPend(s) then t.fsm == Check && t.ctx == 0 else t.fsm == Idle && t.ctx == s.ctx)
         else if s.ctx == N_CTX - 1 then t.fsm == Idle else t.fsm == Check && t.ctx == s.ctx + 1
  {
  }

  /** Cycles the walk can still take, stalls apart. */
  function Remaining(s: Regs, cs: seq<Shape>): int
    requires s.Valid() && |cs| == N_CTX
  {
    if s.fsm == Idle then 0 else Left(s, cs[s.ctx]) + Costs(cs, s.ctx + 1, N_CTX)
  }

  /** Leaving a context costs the cycle it takes. */
  lemma LeaveShrinks(s: Regs, i: Inputs, cs: seq<Shape>)
    requires s.Valid() && Fixed(i, cs) && InFrame(s, cs[s.ctx]) && s.fsm != Idle && Leaves(s, i)
    ensures var t := Next(s, i);
      InFrame(t, cs[t.ctx]) && 0 <= Remaining(t, cs) && Remaining(t, cs) + 1 <= Remaining(s, cs)
  {
    LeftBounds(s, cs[s.ctx]);
    MovesOn(s, i, cs);
    var t := Next(s, i);
    if t.fsm != Idle {
      assert Costs(cs, t.ctx, N_CTX) == cs[t.ctx].Cost() + Costs(cs, t.ctx + 1, N_CTX);
    }
  }

  lemma RemainingShrinks(s: Regs, i: Inputs, cs: seq<Shape>)
    requires s.Valid() && Fixed(i, cs) && InFrame(s, cs[s.ctx]) && s.fsm != Idle
    ensures var t := Next(s, i);
      InFrame(t, cs[t.ctx]) && 0 <= Remaining(t, cs) && Remaining(t, cs) + Bit(!Stalled(s, i)) <= Remaining(s, cs)
  {
    if Leaves(s, i) {
      LeaveShrinks(s, i, cs);
    } else {
      LeftShrinks(s, i, cs);
      LeftBounds(Next(s, i), cs[s.ctx]);
    }
  }

  /** Cycles among a..b in which the sink does not hold the builder up. */
  ghost function Active(st: seq<Regs>, ins: seq<Inputs>, a: nat, b: nat): nat
    requires Trace(st, ins) && a <= b <= |ins|
  {
    if a == b then 0 else Active(st, ins, a, b - 1) + Bit(!Stalled(st[b - 1], ins[b - 1]))
  }

  ghost predicate AllFixed(ins: seq<Inputs>, cs: seq<Shape>) {
    forall j :: 0 <= j < |ins| ==> Fixed(ins[j], cs)
  }

  lemma RemainingBound(s: Regs, cs: seq<Shape>)
    requires s.Valid() && Shapes(cs) && InFrame(s, cs[s.ctx])
    ensures 0 <= Remaining(s, cs) <= Costs(cs, 0, N_CTX)
  {
    if s.fsm != Idle {
      LeftBounds(s, cs[s.ctx]);
      CostsSplit(cs, 0, s.ctx, N_CTX);
    }
  }

  /** Every walk ends: away from IDLE the builder has at most Remaining unstalled cycles, hence at
      most the sum of its contexts' costs, and a sink that is ready often enough brings it back. */
  lemma {:induction false} WalkEnds(st: seq<Regs>, ins: seq<Inputs>, cs: seq<Shape>, n: nat)
    requires Trace(st, ins) && n <= |ins| && AllFixed(ins, cs) && Shapes(cs) && InFrame(st[0], cs[st[0].ctx])
    requires forall j :: 0 <= j < n ==> st[j].fsm != Idle
    ensures InFrame(st[n], cs[st[n].ctx])
    ensures 0 <= Remaining(st[n], cs) && Active(st, ins, 0, n) + Remaining(st[n], cs) <= Remaining(st[0], cs)
    ensures Remaining(st[0], cs) <= Costs(cs, 0, N_CTX)
  {
    RemainingBound(st[0], cs);
    if n > 0 {
      WalkEnds(st, ins, cs, n - 1);
      assert Fixed(ins[n - 1], cs);
      RemainingShrinks(st[n - 1], ins[n - 1], cs);
      assert StepsAt(st, ins, n - 1);
    }
  }

  // ---- service --------------------------------------------------------------------------------------

  /** The walk is at context k, or before it. */
  predicate Before(s: Regs, k: nat) {
    s.ctx < k || (s.ctx == k && s.fsm != Skip)
  }

  /** Unstalled cycles before context k, pending and configured, can have its frame completed: what
      is left of this walk if the walk has passed k, then a walk up to and including k. */
  function Wait(s: Regs, cs: seq<Shape>, k: nat): int
    requires s.Valid() && |cs| == N_CTX && k < N_CTX
  {
    if s.fsm == Idle then 1 + Costs(cs, 0, k + 1)
    else if Before(s, k) then Left(s, cs[s.ctx]) + Costs(cs, s.ctx + 1, k + 1)
    else Remaining(s, cs) + 1 + Costs(cs, 0, k + 1)
  }

  /** The longest any context can have to wait: the rest of one walk and the whole of another, each
      context at the cost of its own frame. */
  function MaxWait(cs: seq<Shape>): nat
    requires |cs| == N_CTX
  {
    2 * Costs(cs, 0, N_CTX) + 1
  }

  lemma WaitBounds(s: Regs, cs: seq<Shape>, k: nat)
    requires s.Valid() && k < N_CTX && Shapes(cs) && InFrame(s, cs[s.ctx])
    ensures 1 <= Wait(s, cs, k) <= MaxWait(cs)
  {
    RemainingBound(s, cs);
    CostsSplit(cs, 0, k + 1, N_CTX);
    if s.fsm != Idle {
      LeftBounds(s, cs[s.ctx]);
      if Before(s, k) {
        CostsSplit(cs, 0, s.ctx, k + 1);
      }
    }
  }

  /** The wait across the end of a context, or the start of a walk. */
  lemma WaitMovesOn(s: Regs, i: Inputs, cs: seq<Shape>, k: nat)
    requires s.Valid() && k < N_CTX && Fixed(i, cs) && InFrame(s, cs[s.ctx]) && AnyPend(s) && !ServeOf(s, i, k)
    requires s.fsm == Idle || Leaves(s, i)
    ensures var t := Next(s, i); InFrame(t, cs[t.ctx]) && Wait(t, cs, k) + 1 <= Wait(s, cs, k)
  {
    var t := Next(s, i);
    MovesOn(s, i, cs);
    if s.fsm == Idle {
      assert Costs(cs, 0, k + 1) == cs[0].Cost() + Costs(cs, 1, k + 1);
    } else {
      LeftBounds(s, cs[s.ctx]);
      if t.fsm != Idle && Before(t, k) {
        assert Costs(cs, t.ctx, k + 1) == cs[t.ctx].Cost() + Costs(cs, t.ctx + 1, k + 1);
      } else {
        LeaveShrinks(s, i, cs);
      }
    }
  }

  lemma WaitInside(s: Regs, i: Inputs, cs: seq<Shape>, k: nat)
    requires s.Valid() && k < N_CTX && Fixed(i, cs) && InFrame(s, cs[s.ctx])
    requires s.pend[k] && cs[k].nslots != 0 && s.fsm != Idle && !Leaves(s, i)
    ensures var t := Next(s, i); InFrame(t, cs[t.ctx]) && Wait(t, cs, k) + Bit(!Stalled(s, i)) <= Wait(s, cs, k)
  {
    LeftShrinks(s, i, cs);
    if Next(s, i).fsm == Skip {
      SkipsOnlyIdleContexts(s, i, cs);
    }
  }

  /** CHECK goes to SKIP only over a context that is off or has nothing pending. */
  lemma SkipsOnlyIdleContexts(s: Regs, i: Inputs, cs: seq<Shape>)
    requires s.Valid() && Fixed(i, cs) && s.fsm != Idle && !Leaves(s, i) && Next(s, i).fsm == Skip
    ensures s.fsm == Check && (cs[s.ctx].nslots == 0 || !s.pend[s.ctx])
  {
  }

  /** While k is pending and configured, every unstalled cycle brings its frame nearer. */
  lemma WaitShrinks(s: Regs, i: Inputs, cs: seq<Shape>, k: nat)
    requires s.Valid() && k < N_CTX && Fixed(i, cs) && InFrame(s, cs[s.ctx])
    requires s.pend[k] && cs[k].nslots != 0 && !ServeOf(s, i, k)
    ensures var t := Next(s, i);
      InFrame(t, cs[t.ctx]) && t.pend[k] && Wait(t, cs, k) + Bit(!Stalled(s, i)) <= Wait(s, cs, k)
  {
    PendStep(s, i, k);
    if s.fsm == Idle || Leaves(s, i) {
      WaitMovesOn(s, i, cs, k);
    } else {
      WaitInside(s, i, cs, k);
    }
  }

  lemma WaitStepAt(st: seq<Regs>, ins: seq<Inputs>, cs: seq<Shape>, k: nat, j: nat)
    requires Trace(st, ins) && j < |ins| && k < N_CTX && Fixed(ins[j], cs) && InFrame(st[j], cs[st[j].ctx])
    requires st[j].pend[k] && cs[k].nslots != 0 && !ServeOf(st[j], ins[j], k)
    ensures InFrame(st[j + 1], cs[st[j + 1].ctx]) && st[j + 1].pend[k]
    ensures Wait(st[j + 1], cs, k) + Bit(!Stalled(st[j], ins[j])) <= Wait(st[j], cs, k)
  {
    WaitShrinks(st[j], ins[j], cs, k);
    assert StepsAt(st, ins, j);
  }

  /** From cycle a to cycle b the wait has shrunk with every unstalled cycle. */
  ghost predicate WaitedSince(st: seq<Regs>, ins: seq<Inputs>, cs: seq<Shape>, k: nat, a: nat, b: nat)
    requires Trace(st, ins) && a <= b <= |ins| && k < N_CTX && Shapes(cs)
  {
    InFrame(st[b], cs[st[b].ctx]) && st[b].pend[k]
    && Active(st, ins, a, b) + Wait(st[b], cs, k) <= Wait(st[a], cs, k)
  }

  lemma WaitedOn(st: seq<Regs>, ins: seq<Inputs>, cs: seq<Shape>, k: nat, a: nat, b: nat)
    requires Trace(st, ins) && a < b <= |ins| && k < N_CTX && Fixed(ins[b - 1], cs) && cs[k].nslots != 0
    requires WaitedSince(st, ins, cs, k, a, b - 1) && !ServeOf(st[b - 1], ins[b - 1], k)
    ensures WaitedSince(st, ins, cs, k, a, b)
  {
    WaitStepAt(st, ins, cs, k, b - 1);
  }

  lemma {:induction false} WaitedThroughout(st: seq<Regs>, ins: seq<Inputs>, cs: seq<Shape>, k: nat, a: nat, b: nat)
    requires Trace(st, ins) && a <= b <= |ins| && k < N_CTX && AllFixed(ins, cs) && Shapes(cs) && cs[k].nslots != 0
    requires WaitedSince(st, ins, cs, k, a, a)
    requires forall j :: a <= j < b ==> !ServeOf(st[j], ins[j], k)
    ensures WaitedSince(st, ins, cs, k, a, b)
    decreases b
  {
    if a < b {
      WaitedThroughout(st, ins, cs, k, a, b - 1);
      assert Fixed(ins[b - 1], cs);
      WaitedOn(st, ins, cs, k, a, b);
    }
  }

  /** A pending, configured context has a frame completed within MaxWait unstalled cycles. */
  lemma ServedWithin(st: seq<Regs>, ins: seq<Inputs>, cs: seq<Shape>, k: nat, a: nat, b: nat)
    requires Trace(st, ins) && a <= b <= |ins| && k < N_CTX && AllFixed(ins, cs) && Shapes(cs)
    requires InFrame(st[a], cs[st[a].ctx]) && st[a].pend[k] && cs[k].nslots != 0
    requires forall j :: a <= j < b ==> !ServeOf(st[j], ins[j], k)
    ensures WaitedSince(st, ins, cs, k, a, b) && Wait(st[a], cs, k) <= MaxWait(cs)
    ensures Active(st, ins, a, b) < MaxWait(cs)
  {
    WaitedThroughout(st, ins, cs, k, a, b);
    WaitBounds(st[a], cs, k);
    WaitBounds(st[b], cs, k);
  }

  /** Six flows of eight slots at fpp 16 wait at most 6553 cycles, less than seven periods of a
      48 kHz strobe under a 50 MHz clock: with a sink that keeps up, dues eight or more strobes apart
      are spaced widely enough for what follows. */
  lemma FullMulticastFits(cs: seq<Shape>)
    requires |cs| == N_CTX
    requires forall k :: 0 <= k < N_CTX ==> cs[k] == Shape(8, HDR_LEN + PayLen(8, 1), 12 + PayLen(8, 1) / 4)
    ensures Shapes(cs) && MaxWait(cs) == 6553 < 7 * (50_000_000 / 48_000)
  {
    assert cs[0].Cost() == 546;
    forall a | 0 <= a <= N_CTX
      ensures Costs(cs, a, N_CTX) == 546 * (N_CTX - a)
    {
      EqualCosts(cs, 546, a);
    }
  }

  lemma {:induction false} EqualCosts(cs: seq<Shape>, n: nat, a: nat)
    requires |cs| == N_CTX && a <= N_CTX && forall k :: 0 <= k < N_CTX ==> cs[k].Cost() == n
    ensures Costs(cs, a, N_CTX) == n * (N_CTX - a)
    decreases N_CTX - a
  {
    if a < N_CTX {
      EqualCosts(cs, n, a + 1);
    }
  }

  lemma {:induction false} StaysInFrame(st: seq<Regs>, ins: seq<Inputs>, cs: seq<Shape>, n: nat)
    requires Trace(st, ins) && n <= |ins| && AllFixed(ins, cs) && Shapes(cs) && InFrame(st[0], cs[st[0].ctx])
    ensures InFrame(st[n], cs[st[n].ctx])
  {
    if n > 0 {
      StaysInFrame(st, ins, cs, n - 1);
      assert Fixed(ins[n - 1], cs);
      var s := st[n - 1];
      if s.fsm == Idle || Leaves(s, ins[n - 1]) {
        MovesOn(s, ins[n - 1], cs);
      } else {
        LeftShrinks(s, ins[n - 1], cs);
      }
      assert StepsAt(st, ins, n - 1);
    }
  }

  /** A pending bit goes back to a due that has not been served since. */
  lemma {:induction false} PendingSince(st: seq<Regs>, ins: seq<Inputs>, k: nat, n: nat) returns (a: nat)
    requires Trace(st, ins) && n <= |ins| && k < N_CTX && !st[0].pend[k] && st[n].pend[k]
    ensures a < n && Due(ins[a], k) && st[a + 1].pend[k]
    ensures forall j :: a < j < n ==> !ServeOf(st[j], ins[j], k)
  {
    assert n > 0;
    assert StepsAt(st, ins, n - 1);
    PendStep(st[n - 1], ins[n - 1], k);
    if Due(ins[n - 1], k) {
      a := n - 1;
    } else {
      a := PendingSince(st, ins, k, n - 1);
    }
  }

  /** Dues of a context that are MaxWait unstalled cycles apart are never merged: with the
      conservation law, each of them gets a packet of its own. */
  lemma {:induction false} NothingMerged(st: seq<Regs>, ins: seq<Inputs>, cs: seq<Shape>, k: nat, n: nat)
    requires Trace(st, ins) && n <= |ins| && k < N_CTX && AllFixed(ins, cs) && Shapes(cs)
    requires InFrame(st[0], cs[st[0].ctx]) && cs[k].nslots != 0 && !st[0].pend[k]
    requires forall a, b :: 0 <= a < b < n && Due(ins[a], k) && Due(ins[b], k) ==> Active(st, ins, a + 1, b) >= MaxWait(cs)
    ensures Count(st, ins, k, n).merged == 0
  {
    if n > 0 {
      var b := n - 1;
      NothingMerged(st, ins, cs, k, b);
      if Due(ins[b], k) && st[b].pend[k] && !ServeOf(st[b], ins[b], k) {
        var a := PendingSince(st, ins, k, b);
        StaysInFrame(st, ins, cs, a + 1);
        ServedWithin(st, ins, cs, k, a + 1, b);
        assert false;
      }
    }
  }

  /** Context k is pending and not being sent. */
  ghost predicate Orphan(s: Regs, k: nat) {
    s.Valid() && k < N_CTX && s.pend[k] && !(s.ctx == k && s.fsm in {Build, Prefetch, Stream})
  }

  lemma OrphanStep(s: Regs, i: Inputs, k: nat)
    requires Orphan(s, k) && i.Valid() && i.views[k].nslots == 0
    ensures Orphan(Next(s, i), k) && !ServeOf(s, i, k)
  {
    PendStep(s, i, k);
  }

  /** A context unbound with its due still pending, and not already being sent, keeps that due for
      ever: every walk skips it and nothing else clears it. */
  lemma {:induction false} OrphanNeverCleared(st: seq<Regs>, ins: seq<Inputs>, k: nat, n: nat)
    requires Trace(st, ins) && n <= |ins| && Orphan(st[0], k)
    requires forall j :: 0 <= j < n ==> ins[j].views[k].nslots == 0
    ensures Orphan(st[n], k) && Count(st, ins, k, n).served == 0
  {
    if n > 0 {
      OrphanNeverCleared(st, ins, k, n - 1);
      OrphanStep(st[n - 1], ins[n - 1], k);
      assert StepsAt(st, ins, n - 1);
    }
  }
}
