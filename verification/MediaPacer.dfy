/** Media-clock pacing of dante_packetizer.py: the seconds/sub-seconds counter, the per-context
    phase counters, the read pointer, and the snapshot registers a packet is stamped from. */
module MediaPacer {
  import opened Arith
  import opened Bytes
  import opened Geometry

  /** What one cycle shows the pacer: enable and NCO strobe, the ring's prime state, slot count
      and fpp of every context, the timestamp load registers, a phase seed, and a read re-anchor. */
  datatype Inputs = Inputs(en: bool, tick: bool, primed: bool, nslots: seq<nat>, fpp: seq<nat>,
                           loadRe: bool, loadSec: nat, loadSub: nat, tsOffset: nat,
                           seed: Seed, anchor: Anchor)
  {
    ghost predicate Valid() {
      |nslots| == N_CTX && |fpp| == N_CTX && (forall k :: 0 <= k < N_CTX ==> 2 <= fpp[k] <= 60)
      && loadSec < TWO32 && loadSub < TWO32 && tsOffset < TWO32
      && (seed.SeedPhase? ==> seed.ctx < N_CTX) && (anchor.AnchorTo? ==> anchor.rd < TWO32)
    }
  }

  datatype Seed = NoSeed | SeedPhase(ctx: nat, phase: nat)

  datatype Anchor = NoAnchor | AnchorTo(rd: nat)

  datatype Regs = Regs(sec: nat, sub: nat, loadPending: bool, phase: seq<nat>, rd: nat,
                       rdSnap: nat, secEmit: nat, subEmit: nat, sendReq: bool, underruns: nat)
  {
    ghost predicate Valid() {
      sec < TWO32 && sub < TWO32 && rd < TWO32 && rdSnap < TWO32 && secEmit < TWO32 && subEmit < TWO32
      && |phase| == N_CTX && forall k :: 0 <= k < N_CTX ==> phase[k] < 64
    }
  }

  predicate Strobe(i: Inputs) {
    i.tick && i.en
  }

  /** due_arr: a configured context completes its group of fpp samples. */
  predicate DueAt(s: Regs, i: Inputs, k: nat)
    requires s.Valid() && i.Valid() && k < N_CTX
  {
    i.nslots[k] != 0 && s.phase[k] == i.fpp[k] - 1
  }

  function Dues(s: Regs, i: Inputs): (d: seq<bool>)
    requires s.Valid() && i.Valid()
    ensures |d| == N_CTX
  {
    seq(N_CTX, k requires 0 <= k < N_CTX => DueAt(s, i, k))
  }

  predicate AnyDue(s: Regs, i: Inputs)
    requires s.Valid() && i.Valid()
  {
    exists k :: 0 <= k < N_CTX && DueAt(s, i, k)
  }

  /** The strobe that takes the snapshot. */
  predicate Snaps(s: Regs, i: Inputs)
    requires s.Valid() && i.Valid()
  {
    Strobe(i) && AnyDue(s, i)
  }

  function NextPhase(phase: nat, fpp: nat): nat {
    if phase == fpp - 1 then 0 else (phase + 1) % 64
  }

  function NextPhases(s: Regs, i: Inputs): (p: seq<nat>)
    requires s.Valid() && i.Valid()
    ensures |p| == N_CTX && forall k :: 0 <= k < N_CTX ==> p[k] < 64
  {
    seq(N_CTX, k requires 0 <= k < N_CTX =>
      if i.seed.SeedPhase? && i.seed.ctx == k then i.seed.phase % 64
      else if Strobe(i) then NextPhase(s.phase[k], i.fpp[k]) else s.phase[k])
  }

  function NextSec(s: Regs, i: Inputs): nat {
    if !Strobe(i) then s.sec
    else if s.loadPending then i.loadSec
    else if s.sub == SUBSEC_MAX - 1 then (s.sec + 1) % TWO32 else s.sec
  }

  function NextSub(s: Regs, i: Inputs): nat {
    if !Strobe(i) then s.sub
    else if s.loadPending then i.loadSub
    else if s.sub == SUBSEC_MAX - 1 then 0 else (s.sub + 1) % TWO32
  }

  /** The state machine's re-anchor stands after the per-strobe advance and wins. */
  function NextRd(s: Regs, i: Inputs): nat {
    if i.anchor.AnchorTo? then i.anchor.rd
    else if Strobe(i) && i.primed then (s.rd + 8) % TWO32 else s.rd
  }

  function Next(s: Regs, i: Inputs): (t: Regs)
    requires s.Valid() && i.Valid()
    ensures t.Valid()
  {
    var snap := Snaps(s, i);
    Regs(NextSec(s, i), NextSub(s, i),
         if Strobe(i) && s.loadPending then false else s.loadPending || i.loadRe,
         NextPhases(s, i), NextRd(s, i),
         if snap then s.rd else s.rdSnap,
         if snap then s.sec else s.secEmit,
         if snap then (s.sub + i.tsOffset) % TWO32 else s.subEmit,
         snap,
         if Strobe(i) && !i.primed then (s.underruns + 1) % TWO32 else s.underruns)
  }

  ghost predicate Trace(st: seq<Regs>, ins: seq<Inputs>) {
    |st| == |ins| + 1
    && (forall j :: 0 <= j < |st| ==> st[j].Valid())
    && (forall j :: 0 <= j < |ins| ==> ins[j].Valid())
    && (forall j :: 0 <= j < |ins| ==> StepsAt(st, ins, j))
  }

  ghost predicate StepsAt(st: seq<Regs>, ins: seq<Inputs>, j: nat)
    requires j < |ins| && j + 1 < |st| && st[j].Valid() && ins[j].Valid()
  {
    st[j + 1] == Next(st[j], ins[j])
  }

  /** The hardware. */
  class Pacer {
    var sec: nat
    var sub: nat
    var loadPending: bool
    const phase: array<nat>
    var rd: nat
    var rdSnap: nat
    var secEmit: nat
    var subEmit: nat
    var sendReq: bool
    var underruns: nat

    ghost function Abs(): Regs
      reads this, phase
    {
      Regs(sec, sub, loadPending, phase[..], rd, rdSnap, secEmit, subEmit, sendReq, underruns)
    }

    ghost predicate Valid()
      reads this, phase
    {
      Abs().Valid()
    }

    constructor ()
      ensures Valid() && fresh(phase) && Abs() == Regs(0, 0, false, seq(N_CTX, _ => 0), 0, 0, 0, 0, false, 0)
    {
      sec, sub, loadPending, rd, rdSnap := 0, 0, false, 0, 0;
      secEmit, subEmit, sendReq, underruns := 0, 0, false, 0;
      phase := new nat[N_CTX](_ => 0);
    }

    /** Each context's phase counter: a seed wins over counting. */
    method StepPhases(i: Inputs)
      requires Valid() && i.Valid()
      modifies phase
      ensures phase[..] == NextPhases(old(Abs()), i)
    {
      var k := 0;
      while k < N_CTX
        invariant 0 <= k <= N_CTX
        invariant forall j :: 0 <= j < k ==> phase[j] == NextPhases(old(Abs()), i)[j]
        invariant forall j :: k <= j < N_CTX ==> phase[j] == old(phase[j])
      {
        if i.seed.SeedPhase? && i.seed.ctx == k {
          phase[k] := i.seed.phase % 64;
        } else if i.tick && i.en {
          if phase[k] == i.fpp[k] - 1 {
            phase[k] := 0;
          } else {
            phase[k] := (phase[k] + 1) % 64;
          }
        }
        k := k + 1;
      }
    }

    method FindDue(i: Inputs) returns (any: bool)
      requires Valid() && i.Valid()
      ensures any == AnyDue(Abs(), i)
    {
      any := false;
      for k := 0 to N_CTX
        invariant any == exists j :: 0 <= j < k && DueAt(Abs(), i, j)
      {
        if i.nslots[k] != 0 && phase[k] == i.fpp[k] - 1 {
          assert DueAt(Abs(), i, k);
          any := true;
        }
      }
    }

    method DueBits(i: Inputs) returns (d: seq<bool>)
      requires Valid() && i.Valid()
      ensures d == Dues(Abs(), i)
    {
      d := seq(N_CTX, k requires 0 <= k < N_CTX && Valid() && i.Valid() reads this, phase =>
        i.nslots[k] != 0 && phase[k] == i.fpp[k] - 1);
    }

    /** The timestamp counter: a pending load is adopted at a strobe. */
    method StepCounter(i: Inputs)
      modifies this`sec, this`sub, this`loadPending
      ensures sec == NextSec(old(Abs()), i) && sub == NextSub(old(Abs()), i)
      ensures loadPending == if Strobe(i) && old(loadPending) then false else old(loadPending) || i.loadRe
    {
      var load := loadPending;
      if i.loadRe {
        loadPending := true;
      }
      if i.tick && i.en {
        if load {
          sec, sub, loadPending := i.loadSec, i.loadSub, false;
        } else if sub == SUBSEC_MAX - 1 {
          sub, sec := 0, (sec + 1) % TWO32;
        } else {
          sub := (sub + 1) % TWO32;
        }
      }
    }

    /** The snapshot a due strobe takes of the counter and the read pointer. */
    method StepSnapshot(i: Inputs, any: bool)
      modifies this`sendReq, this`rdSnap, this`secEmit, this`subEmit
      ensures sendReq == (Strobe(i) && any)
      ensures rdSnap == (if sendReq then rd else old(rdSnap)) && secEmit == (if sendReq then sec else old(secEmit))
      ensures subEmit == if sendReq then (sub + i.tsOffset) % TWO32 else old(subEmit)
    {
      sendReq := false;
      if i.tick && i.en && any {
        sendReq, rdSnap, secEmit, subEmit := true, rd, sec, (sub + i.tsOffset) % TWO32;
      }
    }

    method StepRead(i: Inputs)
      modifies this`rd, this`underruns
      ensures rd == NextRd(old(Abs()), i)
      ensures underruns == if Strobe(i) && !i.primed then (old(underruns) + 1) % TWO32 else old(underruns)
    {
      if i.tick && i.en {
        if i.primed {
          rd := (rd + 8) % TWO32;
        } else {
          underruns := (underruns + 1) % TWO32;
        }
      }
      if i.anchor.AnchorTo? {
        rd := i.anchor.rd;
      }
    }

    /** Every register's next value. */
    method Edge(i: Inputs)
      requires Valid() && i.Valid()
      modifies this, phase
      ensures sec == NextSec(old(Abs()), i) && sub == NextSub(old(Abs()), i) && rd == NextRd(old(Abs()), i)
      ensures phase[..] == NextPhases(old(Abs()), i)
      ensures loadPending == if Strobe(i) && old(loadPending) then false else old(loadPending) || i.loadRe
      ensures sendReq == Snaps(old(Abs()), i) && rdSnap == if sendReq then old(rd) else old(rdSnap)
      ensures secEmit == (if sendReq then old(sec) else old(secEmit))
      ensures subEmit == if sendReq then (old(sub) + i.tsOffset) % TWO32 else old(subEmit)
      ensures underruns == if Strobe(i) && !i.primed then (old(underruns) + 1) % TWO32 else old(underruns)
    {
      var any := FindDue(i);
      StepSnapshot(i, any);
      StepPhases(i);
      StepCounter(i);
      StepRead(i);
    }

    method Clock(i: Inputs)
      requires Valid() && i.Valid()
      modifies this, phase
      ensures Valid() && Abs() == Next(old(Abs()), i)
    {
      ghost var t := Next(Abs(), i);
      Edge(i);
      assert Abs() == t;
    }
  }

  // ---- strobes, and the state as a function of how many have passed -------------------------------

  /** Strobes among cycles a..b. */
  ghost function Strobes(ins: seq<Inputs>, a: nat, b: nat): nat
    requires a <= b <= |ins|
  {
    if a == b then 0 else Strobes(ins, a, b - 1) + if Strobe(ins[b - 1]) then 1 else 0
  }

  const TOTAL := SUBSEC_MAX * TWO32

  /** The timestamp as one sample index, modulo the range of the seconds register. */
  function Index(sec: nat, sub: nat): nat {
    sec * SUBSEC_MAX + sub
  }

  /** Over cycles a..b nothing loads the counter. */
  ghost predicate Unloaded(st: seq<Regs>, ins: seq<Inputs>, a: nat, b: nat)
    requires Trace(st, ins) && a <= b <= |ins|
  {
    !st[a].loadPending && st[a].sub < SUBSEC_MAX && forall j :: a <= j < b ==> !ins[j].loadRe
  }

  lemma CounterStep(s: Regs, i: Inputs)
    requires s.Valid() && i.Valid() && !s.loadPending && s.sub < SUBSEC_MAX
    ensures var t := Next(s, i);
      t.sub < SUBSEC_MAX
      && Index(t.sec, t.sub) == (Index(s.sec, s.sub) + if Strobe(i) then 1 else 0) % TOTAL
      && t.sub % SUBSEC_MAX == (s.sub + if Strobe(i) then 1 else 0) % SUBSEC_MAX
  {
  }

  lemma AddMod(x: nat, y: nat, m: nat)
    requires m > 0
    ensures (x % m + y) % m == (x + y) % m
  {
    assert x + y == x % m + y + (x / m) * m;
    ModAdd(x % m + y, x / m, m);
  }

  lemma IndexStepAt(st: seq<Regs>, ins: seq<Inputs>, x: nat, n: nat, j: nat)
    requires Trace(st, ins) && j < |ins| && !st[j].loadPending && st[j].sub < SUBSEC_MAX && !ins[j].loadRe
    requires Index(st[j].sec, st[j].sub) == (x + n) % TOTAL
    ensures !st[j + 1].loadPending && st[j + 1].sub < SUBSEC_MAX
    ensures Index(st[j + 1].sec, st[j + 1].sub) == (x + n + if Strobe(ins[j]) then 1 else 0) % TOTAL
  {
    assert StepsAt(st, ins, j);
    CounterStep(st[j], ins[j]);
    AddMod(x + n, if Strobe(ins[j]) then 1 else 0, TOTAL);
  }

  /** The sample index counts strobes, across every wrap of the sub-second counter. */
  lemma {:induction false} IndexCountsStrobes(st: seq<Regs>, ins: seq<Inputs>, a: nat, b: nat)
    requires Trace(st, ins) && a <= b <= |ins| && Unloaded(st, ins, a, b)
    ensures !st[b].loadPending && st[b].sub < SUBSEC_MAX
    ensures Index(st[b].sec, st[b].sub) == (Index(st[a].sec, st[a].sub) + Strobes(ins, a, b)) % TOTAL
    decreases b
  {
    if a == b {
      assert st[a].sec * SUBSEC_MAX <= (TWO32 - 1) * SUBSEC_MAX;
    } else {
      IndexCountsStrobes(st, ins, a, b - 1);
      IndexStepAt(st, ins, Index(st[a].sec, st[a].sub), Strobes(ins, a, b - 1), b - 1);
    }
  }

  /** Over cycles a..b context k keeps fpp f and is not reseeded. */
  ghost predicate Paced(st: seq<Regs>, ins: seq<Inputs>, k: nat, f: nat, a: nat, b: nat)
    requires Trace(st, ins) && a <= b <= |ins|
  {
    k < N_CTX && 2 <= f <= 60 && st[a].phase[k] < f
    && forall j :: a <= j < b ==> ins[j].fpp[k] == f && !(ins[j].seed.SeedPhase? && ins[j].seed.ctx == k)
  }

  lemma PhaseStep(p: nat, f: nat)
    requires 2 <= f <= 60 && p < f
    ensures NextPhase(p, f) == (p + 1) % f
  {
  }

  /** So does each phase counter, modulo its own fpp, power of two or not. */
  lemma {:induction false} PhaseCountsStrobes(st: seq<Regs>, ins: seq<Inputs>, k: nat, f: nat, a: nat, b: nat)
    requires Trace(st, ins) && a <= b <= |ins| && Paced(st, ins, k, f, a, b)
    ensures st[b].phase[k] == (st[a].phase[k] + Strobes(ins, a, b)) % f
    decreases b
  {
    if a == b {
      DivMod(st[a].phase[k], f, 0, st[a].phase[k]);
    } else {
      PhaseCountsStrobes(st, ins, k, f, a, b - 1);
      assert StepsAt(st, ins, b - 1);
      var p := st[b - 1].phase[k];
      PhaseStep(p, f);
      AddMod(st[a].phase[k] + Strobes(ins, a, b - 1), 1, f);
    }
  }

  /** Over cycles a..b the ring is primed and the reader is not re-anchored. */
  ghost predicate Reading(ins: seq<Inputs>, a: nat, b: nat)
    requires a <= b <= |ins|
  {
    forall j :: a <= j < b ==> ins[j].primed && ins[j].anchor.NoAnchor?
  }

  lemma ReaderStep(s: Regs, i: Inputs, r: nat, n: nat)
    requires s.Valid() && i.Valid() && i.primed && i.anchor.NoAnchor? && s.rd == (r + 8 * n) % TWO32
    ensures Next(s, i).rd == (r + 8 * (n + if Strobe(i) then 1 else 0)) % TWO32
  {
    AddMod(r + 8 * n, 8, TWO32);
  }

  lemma {:induction false} ReaderCountsStrobes(st: seq<Regs>, ins: seq<Inputs>, a: nat, b: nat)
    requires Trace(st, ins) && a <= b <= |ins| && Reading(ins, a, b)
    ensures st[b].rd == (st[a].rd + 8 * Strobes(ins, a, b)) % TWO32
    decreases b
  {
    if a < b {
      ReaderCountsStrobes(st, ins, a, b - 1);
      ReaderStep(st[b - 1], ins[b - 1], st[a].rd, Strobes(ins, a, b - 1));
      assert StepsAt(st, ins, b - 1);
    }
  }

  // ---- alignment ------------------------------------------------------------------------------------

  /** A context's offset from the sample counter. */
  function Residue(s: Regs, k: nat, f: nat): nat
    requires k < |s.phase| && f > 0
  {
    (s.sub - s.phase[k]) % f
  }

  /** Every table entry divides the second. */
  lemma TableDividesSecond(i: nat)
    requires i < 8
    ensures SUBSEC_MAX % Fpp(i) == 0
  {
  }

  lemma CongruentAdd(x: int, y: int, m: nat, f: nat)
    requires f > 0 && m > 0 && m % f == 0 && x % m == y % m
    ensures x % f == y % f
  {
    var q := (x / m - y / m) * (m / f);
    assert x - y == q * f by {
      assert x - y == (x / m - y / m) * m;
      assert m == (m / f) * f;
      assert (x / m - y / m) * ((m / f) * f) == ((x / m - y / m) * (m / f)) * f;
    }
    ModAdd(y, q, f);
  }

  /** The counter and one phase, a cycle on. */
  lemma PairStep(s: Regs, i: Inputs, k: nat)
    requires s.Valid() && i.Valid() && k < N_CTX && !s.loadPending && s.sub < SUBSEC_MAX
    requires !(i.seed.SeedPhase? && i.seed.ctx == k)
    ensures var t := Next(s, i);
      t.phase[k] == (if Strobe(i) then NextPhase(s.phase[k], i.fpp[k]) else s.phase[k])
      && t.sub == if Strobe(i) then (s.sub + 1) % SUBSEC_MAX else s.sub
  {
  }

  lemma ResidueStep(s: Regs, i: Inputs, k: nat, f: nat)
    requires s.Valid() && i.Valid() && k < N_CTX && !s.loadPending && s.sub < SUBSEC_MAX
    requires 2 <= f <= 60 && SUBSEC_MAX % f == 0 && s.phase[k] < f && i.fpp[k] == f
    requires !(i.seed.SeedPhase? && i.seed.ctx == k)
    ensures Residue(Next(s, i), k, f) == Residue(s, k, f) && Next(s, i).phase[k] < f
  {
    PairStep(s, i, k);
    StepTogether(s.sub, s.phase[k], f);
  }

  /** A counter and a phase that wraps with it keep their offset. */
  lemma StepTogether(s: nat, p: nat, f: nat)
    requires p < f <= 60 && SUBSEC_MAX % f == 0
    ensures NextPhase(p, f) < f && ((s + 1) % SUBSEC_MAX - NextPhase(p, f)) % f == (s - p) % f
  {
    var t := (s + 1) % SUBSEC_MAX;
    AddMod(s + 1, 0, SUBSEC_MAX);
    CongruentAdd(t, s + 1, SUBSEC_MAX, f);
    ModDiff(t, s + 1, f);
    if p == f - 1 {
      SumOfMultiples(t - (s + 1), s - p + f, f);
      ModAdd(s - p, 1, f);
    } else {
      SumOfMultiples(t - (s + 1), s - p, f);
    }
  }

  lemma SumOfMultiples(x: int, y: int, f: nat)
    requires f > 0 && x % f == 0
    ensures (x + y) % f == y % f
  {
    assert x == (x / f) * f;
    ModAdd(y, x / f, f);
  }

  /** The offset of a context from the counter never changes while nothing reloads either of them,
      across the wrap from 47999 to 0, because the fpp divides 48000. */
  lemma {:induction false} ResidueConstant(st: seq<Regs>, ins: seq<Inputs>, k: nat, f: nat, a: nat, b: nat)
    requires Trace(st, ins) && a <= b <= |ins| && Unloaded(st, ins, a, b) && Paced(st, ins, k, f, a, b)
    requires SUBSEC_MAX % f == 0
    ensures Residue(st[b], k, f) == Residue(st[a], k, f) && st[b].phase[k] < f
    decreases b
  {
    if a < b {
      ResidueConstant(st, ins, k, f, a, b - 1);
      IndexCountsStrobes(st, ins, a, b - 1);
      assert StepsAt(st, ins, b - 1);
      ResidueStep(st[b - 1], ins[b - 1], k, f);
    }
  }

  // ---- consecutive packets ----------------------------------------------------------------------

  /** At cycle j a strobe completes a group of context k. */
  ghost predicate DueCycle(st: seq<Regs>, ins: seq<Inputs>, k: nat, j: nat)
    requires Trace(st, ins) && k < N_CTX && j < |ins|
  {
    Strobe(ins[j]) && DueAt(st[j], ins[j], k)
  }

  lemma StrobesSplit(ins: seq<Inputs>, a: nat, b: nat, c: nat)
    requires a <= b <= c <= |ins|
    ensures Strobes(ins, a, c) == Strobes(ins, a, b) + Strobes(ins, b, c)
    decreases c
  {
    if b < c {
      StrobesSplit(ins, a, b, c - 1);
    }
  }

  /** The cycle of the strobe that follows m strobes. */
  lemma NthStrobe(ins: seq<Inputs>, a: nat, b: nat, m: nat) returns (j: nat)
    requires a <= b <= |ins| && Strobes(ins, a, b) > m
    ensures a <= j < b && Strobe(ins[j]) && Strobes(ins, a, j) == m
    decreases b
  {
    if Strobes(ins, a, b - 1) > m {
      j := NthStrobe(ins, a, b - 1, m);
    } else {
      j := b - 1;
    }
  }

  /** Between consecutive dues of a context pass exactly fpp strobes. */
  lemma DuesApart(st: seq<Regs>, ins: seq<Inputs>, k: nat, f: nat, a: nat, b: nat)
    requires Trace(st, ins) && a < b < |ins| && Paced(st, ins, k, f, a, b) && ins[b].fpp[k] == f
    requires DueCycle(st, ins, k, a) && DueCycle(st, ins, k, b)
    requires forall j :: a < j < b ==> ins[j].nslots[k] != 0 && !DueCycle(st, ins, k, j)
    ensures Strobes(ins, a, b) == f
  {
    var n := Strobes(ins, a, b);
    PhaseCountsStrobes(st, ins, k, f, a, b);
    assert Strobes(ins, a, a + 1) == 1;
    StrobesSplit(ins, a, a + 1, b);
    MultipleOf(n, f);
    if n > f {
      var j := NthStrobe(ins, a, b, f);
      PhaseCountsStrobes(st, ins, k, f, a, j);
      ModAdd(f - 1, 1, f);
      DivMod(f - 1, f, 0, f - 1);
      assert DueCycle(st, ins, k, j);
    }
  }

  /** Between any two dues pass at least fpp. */
  lemma DuesAtLeast(st: seq<Regs>, ins: seq<Inputs>, k: nat, f: nat, a: nat, b: nat)
    requires Trace(st, ins) && a < b < |ins| && Paced(st, ins, k, f, a, b) && ins[b].fpp[k] == f
    requires DueCycle(st, ins, k, a) && DueCycle(st, ins, k, b)
    ensures Strobes(ins, a, b) >= f
  {
    PhaseCountsStrobes(st, ins, k, f, a, b);
    assert Strobes(ins, a, a + 1) == 1;
    StrobesSplit(ins, a, a + 1, b);
    MultipleOf(Strobes(ins, a, b), f);
  }

  /** No two strobes are fewer than d cycles apart. */
  ghost predicate Spaced(ins: seq<Inputs>, d: nat) {
    forall i, j :: 0 <= i < j < |ins| && Strobe(ins[i]) && Strobe(ins[j]) ==> j - i >= d
  }

  /** Then n strobes take n * d cycles. */
  lemma {:induction false} SpacedStrobes(ins: seq<Inputs>, d: nat, a: nat, b: nat)
    requires Spaced(ins, d) && a <= b < |ins| && Strobe(ins[a]) && Strobe(ins[b])
    ensures b - a >= Strobes(ins, a, b) * d
    decreases b
  {
    if a < b {
      var c := LastStrobe(ins, a, b);
      SpacedStrobes(ins, d, a, c);
      StrobesSplit(ins, a, c, b);
      assert (Strobes(ins, a, c) + 1) * d == Strobes(ins, a, c) * d + d;
    }
  }

  lemma LastStrobe(ins: seq<Inputs>, a: nat, b: nat) returns (c: nat)
    requires a < b <= |ins| && Strobe(ins[a])
    ensures a <= c < b && Strobe(ins[c]) && Strobes(ins, c, b) == 1
    decreases b
  {
    if Strobe(ins[b - 1]) {
      c := b - 1;
    } else {
      c := LastStrobe(ins, a, b - 1);
    }
  }

  lemma MultipleOf(n: nat, f: nat)
    requires f > 0 && n > 0 && (f - 1 + n) % f == f - 1
    ensures n >= f
  {
    if n < f {
      DivMod(f - 1 + n, f, 1, n - 1);
    }
  }

  /** The stamp of a packet latched at (sec, sub): a sub-second value in range, and the index of
      the window's first sample, whether or not a second is borrowed. */
  lemma StampIndex(sec: nat, sub: nat, f: nat)
    requires sec < TWO32 && sub < SUBSEC_MAX && 2 <= f <= 60
    ensures StampSub(sub, f) < SUBSEC_MAX
    ensures Index(StampSec(sec, sub, f), StampSub(sub, f)) == (Index(sec, sub) - (f - 1)) % TOTAL
  {
    var x := Index(sec, sub) - (f - 1);
    if x < 0 {
      DivMod(x, TOTAL, -1, x + TOTAL);
    } else {
      DivMod(x, TOTAL, 0, x);
    }
  }

  /** The register values a due strobe at cycle j leaves for the builder. */
  lemma SnapshotTaken(st: seq<Regs>, ins: seq<Inputs>, k: nat, j: nat)
    requires Trace(st, ins) && k < N_CTX && j < |ins| && DueCycle(st, ins, k, j)
    ensures Snaps(st[j], ins[j]) && st[j + 1].rdSnap == st[j].rd && st[j + 1].secEmit == st[j].sec
    ensures st[j + 1].subEmit == (st[j].sub + ins[j].tsOffset) % TWO32
  {
    assert StepsAt(st, ins, j);
    assert DueAt(st[j], ins[j], k);
  }

  ghost function StampOf(s: Regs, f: nat): nat
    requires 2 <= f <= 60
  {
    Index(StampSec(s.secEmit, s.subEmit, f), StampSub(s.subEmit, f))
  }

  /** Cycles a and b are consecutive dues of context k, which keeps its fpp in between. */
  ghost predicate Consecutive(st: seq<Regs>, ins: seq<Inputs>, k: nat, f: nat, a: nat, b: nat)
    requires Trace(st, ins)
  {
    a < b < |ins| && Paced(st, ins, k, f, a, b) && ins[b].fpp[k] == f
    && DueCycle(st, ins, k, a) && DueCycle(st, ins, k, b)
    && forall j :: a < j < b ==> ins[j].nslots[k] != 0 && !DueCycle(st, ins, k, j)
  }

  /** The stamp of the packet due at cycle j. */
  lemma StampAt(st: seq<Regs>, ins: seq<Inputs>, k: nat, f: nat, j: nat)
    requires Trace(st, ins) && k < N_CTX && j < |ins| && DueCycle(st, ins, k, j) && ins[j].tsOffset == 0
    requires 2 <= f <= 60 && st[j].sub < SUBSEC_MAX
    ensures StampOf(st[j + 1], f) == (Index(st[j].sec, st[j].sub) - (f - 1)) % TOTAL
    ensures StampSub(st[j + 1].subEmit, f) < SUBSEC_MAX
  {
    SnapshotTaken(st, ins, k, j);
    StampIndex(st[j].sec, st[j].sub, f);
  }

  /** Consecutive packets of a context are stamped exactly fpp samples apart, sub-second in range. */
  lemma StampsStepByFpp(st: seq<Regs>, ins: seq<Inputs>, k: nat, f: nat, a: nat, b: nat)
    requires Trace(st, ins) && Consecutive(st, ins, k, f, a, b) && Unloaded(st, ins, a, b)
    requires ins[a].tsOffset == 0 && ins[b].tsOffset == 0
    ensures StampOf(st[b + 1], f) == (StampOf(st[a + 1], f) + f) % TOTAL
    ensures StampSub(st[b + 1].subEmit, f) < SUBSEC_MAX
  {
    DuesApart(st, ins, k, f, a, b);
    IndexCountsStrobes(st, ins, a, b);
    StampAt(st, ins, k, f, a);
    StampAt(st, ins, k, f, b);
    StampAdvance(Index(st[a].sec, st[a].sub), f, Index(st[b].sec, st[b].sub), StampOf(st[a + 1], f), StampOf(st[b + 1], f));
  }

  /** While the ring stays primed, their read windows, 8 * fpp addresses up to each snapshot, meet
      end to start: no gap and no overlap, across every wrap of the pointer. */
  lemma WindowsTile(st: seq<Regs>, ins: seq<Inputs>, k: nat, f: nat, a: nat, b: nat)
    requires Trace(st, ins) && Consecutive(st, ins, k, f, a, b) && Reading(ins, a, b)
    ensures (st[b + 1].rdSnap - 8 * f) % TWO32 == st[a + 1].rdSnap
  {
    DuesApart(st, ins, k, f, a, b);
    SnapshotTaken(st, ins, k, a);
    SnapshotTaken(st, ins, k, b);
    ReaderCountsStrobes(st, ins, a, b);
    RewindPointer(st[a].rd, 8 * f);
  }

  /** Indices f apart have stamps f apart. */
  lemma StampAdvance(x: nat, f: nat, y: nat, p: nat, q: nat)
    requires f >= 1 && y == (x + f) % TOTAL && p == (x - (f - 1)) % TOTAL && q == (y - (f - 1)) % TOTAL
    ensures q == (p + f) % TOTAL
  {
    SubMod(x + f, f - 1, TOTAL);
    SubMod(x - (f - 1), 0 - f, TOTAL);
  }

  lemma SubMod(x: int, y: int, m: nat)
    requires m > 0
    ensures (x % m - y) % m == (x - y) % m
  {
    assert x - y == x % m - y + (x / m) * m;
    ModAdd(x % m - y, x / m, m);
  }

  lemma RewindPointer(r: nat, d: nat)
    requires r < TWO32
    ensures ((r + d) % TWO32 - d) % TWO32 == r
  {
    SubMod(r + d, d, TWO32);
  }

  // ---- the snapshot is shared -------------------------------------------------------------------

  ghost predicate SnapsAt(st: seq<Regs>, ins: seq<Inputs>, j: nat)
    requires Trace(st, ins) && j < |ins|
  {
    Snaps(st[j], ins[j])
  }

  ghost predicate NoSnapBetween(st: seq<Regs>, ins: seq<Inputs>, a: nat, m: nat)
    requires Trace(st, ins) && a < m <= |ins|
  {
    forall j :: a < j < m ==> !SnapsAt(st, ins, j)
  }

  /** Until another context's due, the snapshot is the one this due took. */
  lemma {:induction false} SnapshotHeld(st: seq<Regs>, ins: seq<Inputs>, a: nat, m: nat)
    requires Trace(st, ins) && a < m <= |ins| && SnapsAt(st, ins, a) && NoSnapBetween(st, ins, a, m)
    ensures st[m].rdSnap == st[a].rd && st[m].secEmit == st[a].sec
    ensures st[m].subEmit == (st[a].sub + ins[a].tsOffset) % TWO32
    decreases m
  {
    assert StepsAt(st, ins, m - 1);
    if m > a + 1 {
      assert !SnapsAt(st, ins, m - 1);
      SnapshotHeld(st, ins, a, m - 1);
    }
  }

  lemma LaterIndexDiffers(st: seq<Regs>, ins: seq<Inputs>, a: nat, b: nat)
    requires Trace(st, ins) && a < b < |ins| && SnapsAt(st, ins, a) && Unloaded(st, ins, a, b)
    requires Strobes(ins, a, b) < TOTAL
    ensures Index(st[b].sec, st[b].sub) != Index(st[a].sec, st[a].sub)
  {
    IndexCountsStrobes(st, ins, a, b);
    StrobesSplit(ins, a, a + 1, b);
    assert Strobes(ins, a, a + 1) == 1;
    DistinctIndex(Index(st[a].sec, st[a].sub), Strobes(ins, a, b));
  }

  lemma SnapshotStale(st: seq<Regs>, ins: seq<Inputs>, a: nat, b: nat, m: nat)
    requires Trace(st, ins) && a < b < m <= |ins| && SnapsAt(st, ins, a) && Unloaded(st, ins, a, m)
    requires SnapsAt(st, ins, b) && NoSnapBetween(st, ins, b, m) && ins[b].tsOffset == 0
    requires Strobes(ins, a, m) < TOTAL
    ensures Index(st[m].secEmit, st[m].subEmit) != Index(st[a].sec, st[a].sub)
  {
    SnapshotHeld(st, ins, b, m);
    StrobesSplit(ins, a, b, m);
    LaterIndexDiffers(st, ins, a, b);
  }

  /** The snapshot registers are one set for all contexts: at a later cycle they still describe the
      due at cycle a exactly when no strobe in between found any context due. */
  lemma SnapshotIntactIff(st: seq<Regs>, ins: seq<Inputs>, a: nat, m: nat)
    requires Trace(st, ins) && a < m <= |ins| && SnapsAt(st, ins, a) && Unloaded(st, ins, a, m)
    requires forall j :: a <= j < m ==> ins[j].tsOffset == 0
    requires Strobes(ins, a, m) < TOTAL
    ensures Index(st[m].secEmit, st[m].subEmit) == Index(st[a].sec, st[a].sub) <==> NoSnapBetween(st, ins, a, m)
  {
    if NoSnapBetween(st, ins, a, m) {
      SnapshotHeld(st, ins, a, m);
    } else {
      var b := LastSnap(st, ins, a, m);
      SnapshotStale(st, ins, a, b, m);
    }
  }

  lemma LastSnap(st: seq<Regs>, ins: seq<Inputs>, a: nat, m: nat) returns (b: nat)
    requires Trace(st, ins) && a < m <= |ins| && !NoSnapBetween(st, ins, a, m)
    ensures a < b < m && SnapsAt(st, ins, b) && NoSnapBetween(st, ins, b, m)
    decreases m
  {
    b := m - 1;
    if !SnapsAt(st, ins, b) {
      b := LastSnap(st, ins, a, m - 1);
    }
  }

  lemma DistinctIndex(x: nat, n: nat)
    requires x < TOTAL && 0 < n < TOTAL
    ensures (x + n) % TOTAL != x
  {
    if x + n < TOTAL {
      DivMod(x + n, TOTAL, 0, x + n);
    } else {
      DivMod(x + n, TOTAL, 1, x + n - TOTAL);
    }
  }

  // ---- seeding ------------------------------------------------------------------------------------

  /** A context seeded at cycle j from the counter as read at cycle r: it ends up as many samples
      from the aligned position as strobes pass in between, the one at j included. */
  lemma SeedResidue(st: seq<Regs>, ins: seq<Inputs>, r: nat, j: nat, k: nat, f: nat, adj: nat)
    requires Trace(st, ins) && r <= j < |ins| && k < N_CTX && 2 <= f <= 60 && SUBSEC_MAX % f == 0
    requires Unloaded(st, ins, r, j + 1) && ins[j].seed == SeedPhase(k, (st[r].sub + adj) % f)
    ensures var d := Strobes(ins, r, j + 1);
      st[j + 1].phase[k] < f && Residue(st[j + 1], k, f) == (d - adj) % f
      && (Residue(st[j + 1], k, f) == (0 - adj) % f <==> d % f == 0)
  {
    var s, d := st[r].sub, Strobes(ins, r, j + 1);
    SubCountsStrobes(st, ins, r, j + 1);
    assert st[j + 1].phase[k] == (s + adj) % f by {
      assert StepsAt(st, ins, j);
      assert (s + adj) % f < 64;
    }
    SeedArithmetic(s, d, adj, f);
  }

  /** The sub-second counter alone counts strobes modulo 48000. */
  lemma SubCountsStrobes(st: seq<Regs>, ins: seq<Inputs>, a: nat, b: nat)
    requires Trace(st, ins) && a <= b <= |ins| && Unloaded(st, ins, a, b)
    ensures st[b].sub == (st[a].sub + Strobes(ins, a, b)) % SUBSEC_MAX
  {
    IndexCountsStrobes(st, ins, a, b);
    var x := Index(st[a].sec, st[a].sub) + Strobes(ins, a, b);
    ModMod(x, SUBSEC_MAX, TWO32);
    ModAdd(st[b].sub, st[b].sec, SUBSEC_MAX);
    ModAdd(st[a].sub + Strobes(ins, a, b), st[a].sec, SUBSEC_MAX);
  }

  lemma SeedArithmetic(s: nat, d: nat, adj: nat, f: nat)
    requires 2 <= f && SUBSEC_MAX % f == 0
    ensures ((s + d) % SUBSEC_MAX - (s + adj) % f) % f == (d - adj) % f
    ensures (d - adj) % f == (0 - adj) % f <==> d % f == 0
  {
    AddMod(s + d, 0, SUBSEC_MAX);
    CongruentAdd((s + d) % SUBSEC_MAX, s + d, SUBSEC_MAX, f);
    Difference((s + d) % SUBSEC_MAX, s + d, s + adj, f);
    assert s + d - (s + adj) == d - adj;
    ModDiff(d - adj, 0 - adj, f);
  }

  /** Two equal readings of the counter less than a second apart: it has not moved in between. */
  lemma SteadyCounter(st: seq<Regs>, ins: seq<Inputs>, r: nat, q: nat)
    requires Trace(st, ins) && r <= q <= |ins| && Unloaded(st, ins, r, q) && st[q].sub == st[r].sub
    requires Strobes(ins, r, q) < SUBSEC_MAX
    ensures Strobes(ins, r, q) == 0
  {
    SubCountsStrobes(st, ins, r, q);
    SameReading(st[r].sub, Strobes(ins, r, q));
  }

  lemma SameReading(s: nat, n: nat)
    requires s < SUBSEC_MAX && n < SUBSEC_MAX && (s + n) % SUBSEC_MAX == s
    ensures n == 0
  {
    ModDiff(s + n, s, SUBSEC_MAX);
  }

  /** A try of the bind path (dante_tx.c:714-721): the counter read at cycle r, the seed computed from
      that reading written at j, the counter read again at q and found the same, all within a second.
      The context is then aligned, up to the adjustment. */
  lemma BindSeeds(st: seq<Regs>, ins: seq<Inputs>, r: nat, j: nat, q: nat, k: nat, f: nat, adj: nat)
    requires Trace(st, ins) && r <= j < q <= |ins| && k < N_CTX && 2 <= f <= 60 && SUBSEC_MAX % f == 0
    requires Unloaded(st, ins, r, q) && ins[j].seed == SeedPhase(k, (st[r].sub + adj) % f)
    requires st[q].sub == st[r].sub && Strobes(ins, r, q) < SUBSEC_MAX
    ensures Residue(st[j + 1], k, f) == (0 - adj) % f && st[j + 1].phase[k] < f
  {
    SteadyCounter(st, ins, r, q);
    StrobesSplit(ins, r, j + 1, q);
    SeedResidue(st, ins, r, j, k, f, adj);
  }

  /** Equal remainders have equal negated remainders. */
  lemma NegateMod(x: int, y: int, f: nat)
    requires f > 0 && x % f == y % f
    ensures -x % f == -y % f
  {
    ModDiff(x, y, f);
    assert x - y == ((x - y) / f) * f;
    ModAdd(-x, (x - y) / f, f);
    assert -y == -x + (x - y);
  }

  /** A load requested at cycle a is adopted at the first strobe after it. */
  lemma {:induction false} LoadAdopted(st: seq<Regs>, ins: seq<Inputs>, a: nat, n: nat, load: nat)
    requires Trace(st, ins) && a < n <= |ins| && !st[a].loadPending && ins[a].loadRe && load < SUBSEC_MAX
    requires forall j :: a < j < n ==> !ins[j].loadRe && ins[j].loadSub == load
    ensures Adopting(st[n], load, Strobes(ins, a + 1, n))
    decreases n
  {
    if n == a + 1 {
      assert StepsAt(st, ins, a);
    } else {
      LoadAdopted(st, ins, a, n - 1, load);
      LoadStep(st, ins, n - 1, load, Strobes(ins, a + 1, n - 1));
    }
  }

  /** A load still pending, or adopted t strobes ago. */
  ghost predicate Adopting(s: Regs, load: nat, t: nat) {
    if t == 0 then s.loadPending else !s.loadPending && s.sub == (load + t - 1) % SUBSEC_MAX
  }

  lemma LoadStep(st: seq<Regs>, ins: seq<Inputs>, j: nat, load: nat, t: nat)
    requires Trace(st, ins) && j < |ins| && load < SUBSEC_MAX && Adopting(st[j], load, t)
    requires !ins[j].loadRe && ins[j].loadSub == load
    ensures Adopting(st[j + 1], load, t + if Strobe(ins[j]) then 1 else 0)
  {
    assert StepsAt(st, ins, j);
    if t > 0 {
      CounterStep(st[j], ins[j]);
      AddMod(load + t - 1, if Strobe(ins[j]) then 1 else 0, SUBSEC_MAX);
    } else {
      DivMod(load, SUBSEC_MAX, 0, load);
    }
  }

  /** The anchor path (dante_tx.c:299-319, 748-752): the counter is told to adopt a value at the
      next strobe, and the phase is seeded one lower than that value. With d strobes between the
      request and the end of the seeding write the context ends up d samples from where the bind
      path puts it: the two paths agree exactly when fpp divides d. */
  lemma AnchorSeeds(st: seq<Regs>, ins: seq<Inputs>, a: nat, c: nat, n: nat, k: nat, f: nat, load: nat, adj: nat)
    requires Trace(st, ins) && a < c < n <= |ins| && k < N_CTX && 2 <= f <= 60 && SUBSEC_MAX % f == 0
    requires !st[a].loadPending && ins[a].loadRe && load < SUBSEC_MAX
    requires forall j :: a < j < n ==> !ins[j].loadRe && ins[j].loadSub == load
    requires ins[c].seed == SeedPhase(k, (load + adj + f - 1) % f)
    requires forall j :: c < j < n ==> ins[j].fpp[k] == f && !(ins[j].seed.SeedPhase? && ins[j].seed.ctx == k)
    requires Strobes(ins, a + 1, n) >= 1
    ensures var d := Strobes(ins, a + 1, c + 1);
      Residue(st[n], k, f) == (d - adj) % f
      && (Residue(st[n], k, f) == (0 - adj) % f <==> d % f == 0)
  {
    var d, e := Strobes(ins, a + 1, c + 1), Strobes(ins, c + 1, n);
    StrobesSplit(ins, a + 1, c + 1, n);
    LoadAdopted(st, ins, a, n, load);
    SeededPhase(st, ins, c, n, k, f, (load + adj + f - 1) % f);
    AnchorArithmetic(load, d, e, adj, f);
  }

  lemma SeededPhase(st: seq<Regs>, ins: seq<Inputs>, c: nat, n: nat, k: nat, f: nat, p: nat)
    requires Trace(st, ins) && c < n <= |ins| && k < N_CTX && p < f && 2 <= f <= 60
    requires ins[c].seed == SeedPhase(k, p)
    requires forall j :: c < j < n ==> ins[j].fpp[k] == f && !(ins[j].seed.SeedPhase? && ins[j].seed.ctx == k)
    ensures st[n].phase[k] == (p + Strobes(ins, c + 1, n)) % f
  {
    assert StepsAt(st, ins, c);
    PhaseCountsStrobes(st, ins, k, f, c + 1, n);
  }

  lemma AnchorArithmetic(load: nat, d: nat, e: nat, adj: nat, f: nat)
    requires 2 <= f && SUBSEC_MAX % f == 0 && d + e >= 1
    ensures ((load + d + e - 1) % SUBSEC_MAX - ((load + adj + f - 1) % f + e) % f) % f == (d - adj) % f
    ensures (d - adj) % f == (0 - adj) % f <==> d % f == 0
  {
    var sub, phase := load + d + e - 1, load + adj + f - 1 + e;
    AddMod(load + adj + f - 1, e, f);
    AddMod(sub, 0, SUBSEC_MAX);
    CongruentAdd(sub % SUBSEC_MAX, sub, SUBSEC_MAX, f);
    Difference(sub % SUBSEC_MAX, sub, phase, f);
    assert sub - phase == d - adj + -1 * f;
    ModAdd(d - adj, -1, f);
    ModDiff(d - adj, 0 - adj, f);
  }

  lemma Difference(x: int, x': int, y: int, f: nat)
    requires f > 0 && x % f == x' % f
    ensures (x - y % f) % f == (x' - y) % f
  {
    ModDiff(x, x', f);
    SumOfMultiples(x - x', x' - y % f, f);
    NegateMod(y % f - x', y - x', f) by {
      SubMod(y, x', f);
    }
  }

  /** A packet's sub-second stamp has the context's residue: stamps are multiples of fpp exactly
      when the context is aligned with the counter. */
  lemma StampResidue(s: Regs, i: Inputs, k: nat)
    requires s.Valid() && i.Valid() && k < N_CTX && DueAt(s, i, k) && s.sub < SUBSEC_MAX
    requires SUBSEC_MAX % i.fpp[k] == 0
    ensures var f := i.fpp[k];
      StampSub(s.sub, f) % f == Residue(s, k, f)
      && (StampSub(s.sub, f) % f == 0 <==> Residue(s, k, f) == 0)
  {
    var f := i.fpp[k];
    if s.sub < f - 1 {
      SumOfMultiples(SUBSEC_MAX, s.sub - (f - 1), f);
    }
  }

  predicate StampInRange(sub: nat, off: nat, f: nat)
    requires 2 <= f <= 60
  {
    StampSub((sub + off) % TWO32, f) < SUBSEC_MAX
  }

  /** The offset register has no carry into the seconds. A stamp's sub-second field stays in range
      at every counter value exactly when the offset is below fpp. */
  lemma OffsetSafeIff(off: nat, f: nat)
    requires off < TWO32 && 2 <= f <= 60
    ensures (forall sub: nat | sub < SUBSEC_MAX :: StampInRange(sub, off, f)) <==> off < f
  {
    if off >= f {
      if off < TWO32 - (SUBSEC_MAX - 1) {
        assert !StampInRange(SUBSEC_MAX - 1, off, f);
      } else {
        assert !StampInRange(0, off, f);
      }
    }
  }
}
