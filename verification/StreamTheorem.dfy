/** Runs of the whole packetizer: what reaches the wire is what the host wrote, on the channel it
    wrote it to, stamped with the samples it was taken from. */
module StreamTheorem {
  import opened Arith
  import opened Bytes
  import opened Geometry
  import opened Packetizer
  import R = SampleRing
  import P = MediaPacer
  import F = FrameBuilder
  import T = FrameTheorem

  // ---- the three parts' own runs, from cycle m on -----------------------------------------------

  ghost function RingSt(st: seq<Regs>): (r: seq<R.Regs>)
    ensures |r| == |st| && forall j :: 0 <= j < |r| ==> r[j] == st[j].ring
  {
    seq(|st|, j requires 0 <= j < |st| => st[j].ring)
  }

  ghost function RingIns(st: seq<Regs>, ins: seq<Inputs>): (r: seq<R.Inputs>)
    requires Trace(st, ins)
    ensures |r| == |ins| && forall j :: 0 <= j < |r| ==> r[j] == RingIn(st[j], ins[j])
  {
    seq(|ins|, j requires 0 <= j < |ins| => RingIn(st[j], ins[j]))
  }

  ghost function PacerSt(st: seq<Regs>): (r: seq<P.Regs>)
    ensures |r| == |st| && forall j :: 0 <= j < |r| ==> r[j] == st[j].pacer
  {
    seq(|st|, j requires 0 <= j < |st| => st[j].pacer)
  }

  ghost function PacerIns(st: seq<Regs>, ins: seq<Inputs>): (r: seq<P.Inputs>)
    requires Trace(st, ins)
    ensures |r| == |ins| && forall j :: 0 <= j < |r| ==> r[j] == PacerIn(st[j], ins[j])
  {
    seq(|ins|, j requires 0 <= j < |ins| => PacerIn(st[j], ins[j]))
  }

  ghost function BuildSt(st: seq<Regs>, m: nat): (r: seq<F.Regs>)
    requires m <= |st|
    ensures |r| == |st| - m && forall j :: 0 <= j < |r| ==> r[j] == st[m + j].build
  {
    seq(|st| - m, j requires 0 <= j < |st| - m => st[m + j].build)
  }

  ghost function BuildIns(st: seq<Regs>, ins: seq<Inputs>, m: nat): (r: seq<F.Inputs>)
    requires Trace(st, ins) && m <= |ins|
    ensures |r| == |ins| - m && forall j :: 0 <= j < |r| ==> r[j] == BuildIn(st[m + j], ins[m + j])
  {
    seq(|ins| - m, j requires 0 <= j < |ins| - m => BuildIn(st[m + j], ins[m + j]))
  }

  lemma RingRun(st: seq<Regs>, ins: seq<Inputs>)
    requires Trace(st, ins)
    ensures R.Trace(RingSt(st), RingIns(st, ins))
  {
    forall j | 0 <= j < |ins|
      ensures RingSt(st)[j + 1] == R.Next(RingSt(st)[j], RingIns(st, ins)[j])
    {
      assert StepsAt(st, ins, j);
    }
  }

  lemma PacerRun(st: seq<Regs>, ins: seq<Inputs>)
    requires Trace(st, ins)
    ensures P.Trace(PacerSt(st), PacerIns(st, ins))
  {
    forall j | 0 <= j < |ins|
      ensures PacerSt(st)[j + 1] == P.Next(PacerSt(st)[j], PacerIns(st, ins)[j])
    {
      assert StepsAt(st, ins, j);
    }
  }

  lemma BuildRun(st: seq<Regs>, ins: seq<Inputs>, m: nat)
    requires Trace(st, ins) && m <= |ins|
    ensures F.Trace(BuildSt(st, m), BuildIns(st, ins, m))
  {
    forall j | 0 <= j < |ins| - m
      ensures BuildSt(st, m)[j + 1] == F.Next(BuildSt(st, m)[j], BuildIns(st, ins, m)[j])
    {
      assert StepsAt(st, ins, m + j);
    }
  }

  // ---- no slot ever carries another channel -----------------------------------------------------

  /** Writer and reader pointers sit on frame boundaries. */
  ghost predicate Grid(s: Regs) {
    s.Valid() && R.Aligned(s.ring) && s.pacer.rd % R.CH == 0 && s.pacer.rdSnap % R.CH == 0
  }

  lemma GridStep(s: Regs, i: Inputs)
    requires Grid(s) && i.Valid()
    ensures Next(s, i).pacer.rd % R.CH == 0 && Next(s, i).pacer.rdSnap % R.CH == 0
  {
    PacerPointers(s.pacer, PacerIn(s, i));
    DivMod(s.pacer.rd + 8, 8, s.pacer.rd / 8 + 1, 0);
    ModMod(s.pacer.rd + 8, 8, TWO32 / 8);
  }

  lemma PacerPointers(s: P.Regs, i: P.Inputs)
    requires s.Valid() && i.Valid()
    ensures var t := P.Next(s, i);
      t.rd in {s.rd, (s.rd + 8) % TWO32, if i.anchor.AnchorTo? then i.anchor.rd else s.rd}
      && t.rdSnap in {s.rd, s.rdSnap}
  {
  }

  lemma RingAddrChannel(snap: nat, fpp: nat, samp: nat, ch: nat)
    requires snap % R.CH == 0
    ensures F.RingAddr(snap, fpp, samp, ch) % R.CH == ch % R.CH
  {
    var base, a := (snap - 8 * fpp) % TWO32, (snap - 8 * fpp) % TWO32 + 8 * samp + ch % 8;
    ModMod(snap - 8 * fpp, 8, TWO32 / 8);
    DivMod(snap - 8 * fpp, 8, snap / 8 - fpp, 0);
    DivMod(a, 8, base / 8 + samp, ch % 8);
    ModMod(a, 8, TWO32 / 8);
    ModMod(a % TWO32, 8, RING_DEPTH / 8);
  }

  /** Every sample the host sends before cycle n satisfies p at its channel. */
  ghost predicate HostSends(ins: seq<Inputs>, n: nat, p: (nat, Word) -> bool)
    requires n <= |ins|
  {
    forall j :: 0 <= j < n && ins[j].readable ==> p(ins[j].usb.chan, ins[j].usb.word)
  }

  ghost predicate CleanStart(s: Regs, p: (nat, Word) -> bool) {
    Grid(s) && R.Pure(s.ring.rings, p) && (s.ring.vld ==> p(s.ring.samp.chan, s.ring.samp.word))
  }

  lemma {:induction false} GridKept(st: seq<Regs>, ins: seq<Inputs>, n: nat, p: (nat, Word) -> bool)
    requires Trace(st, ins) && n <= |ins| && CleanStart(st[0], p) && HostSends(ins, n, p)
    ensures CleanStart(st[n], p)
    decreases n
  {
    if n > 0 {
      GridKept(st, ins, n - 1, p);
      GridStep(st[n - 1], ins[n - 1]);
      RingRun(st, ins);
      assert StepsAt(st, ins, n - 1);
      R.PureStep(st[n - 1].ring, RingIn(st[n - 1], ins[n - 1]), p);
    }
  }

  /** In every run, with any drops, overruns, rebinding, re-anchoring and pacing: the word any
      context would fetch for a slot mapped to channel ch satisfies whatever the host's samples for
      channel ch satisfy. No slot ever carries another channel. */
  lemma NoCrosstalk(st: seq<Regs>, ins: seq<Inputs>, n: nat, p: (nat, Word) -> bool,
                    fpp: nat, samp: nat, ch: nat)
    requires Trace(st, ins) && n <= |ins| && CleanStart(st[0], p) && HostSends(ins, n, p) && ch < CHANNELS
    ensures p(ch, st[n].ring.rings[ch / 8][F.RingAddr(st[n].pacer.rdSnap, fpp, samp, ch)])
  {
    GridKept(st, ins, n, p);
    RingAddrChannel(st[n].pacer.rdSnap, fpp, samp, ch);
    assert R.CH * (ch / 8) + ch % 8 == ch;
  }

  /** The slot-map entry the builder has selected in a cycle. */
  function Shown(s: Regs, i: Inputs): Slot
    requires s.Valid() && i.Valid()
  {
    F.MapEntry(F.Cfg(s.build, BuildIn(s, i)), s.build.cnt.slot)
  }

  /** w may be sent for entry e: silence if unmapped, else a word of the entry's channel. */
  ghost predicate Carries(e: Slot, w: Word, p: (nat, Word) -> bool) {
    if e.valid then e.ch < CHANNELS ==> p(e.ch, w) else w == SILENCE
  }

  lemma FetchedIs(s: F.Regs, i: F.Inputs)
    requires s.Valid() && i.Valid()
    ensures var e := F.MapEntry(F.Cfg(s, i), s.cnt.slot);
      F.Fetched(F.Next(s, i).pipe) ==
      if e.valid then i.rings[if e.ch / 8 < STREAMS then e.ch / 8 else STREAMS - 1][F.ReadAddr(s, i)] else SILENCE
  {
  }

  /** The word leaving the read pipeline is of the channel of the entry shown one cycle before,
      whatever context, map, anchor and snapshot the next cycle shows. */
  lemma FetchedCarries(st: seq<Regs>, ins: seq<Inputs>, n: nat, p: (nat, Word) -> bool)
    requires Trace(st, ins) && n < |ins| && CleanStart(st[0], p) && HostSends(ins, n, p)
    ensures Carries(Shown(st[n], ins[n]), F.Fetched(st[n + 1].build.pipe), p)
  {
    var s, i := st[n].build, BuildIn(st[n], ins[n]);
    var e := Shown(st[n], ins[n]);
    FetchedIs(s, i);
    assert StepsAt(st, ins, n);
    if e.valid && e.ch < CHANNELS {
      NoCrosstalk(st, ins, n, p, F.Cfg(s, i).fpp, s.cnt.samp, e.ch);
    }
  }

  /** The word the builder takes for its next sample is of the channel that the map, as it stood one
      cycle earlier, gave that sample's slot. */
  lemma TakenCarries(st: seq<Regs>, ins: seq<Inputs>, n: nat, p: (nat, Word) -> bool)
    requires Trace(st, ins) && n + 1 < |ins| && CleanStart(st[0], p) && HostSends(ins, n, p)
    requires var s := st[n + 1].build; s.fsm == F.Build && s.pktPrimed && (s.cnt.byteIdx == 1 || F.EndOfSample(s.cnt))
    ensures Carries(Shown(st[n], ins[n]), st[n + 2].build.pipe.hold, p)
  {
    FetchedCarries(st, ins, n, p);
    assert StepsAt(st, ins, n + 1);
  }

  /** w left the read pipeline after cycle x, and is of the channel of the entry shown in it. */
  ghost predicate FetchedIn(st: seq<Regs>, ins: seq<Inputs>, x: nat, w: Word, p: (nat, Word) -> bool)
    requires Trace(st, ins) && x < |ins|
  {
    w == F.Fetched(st[x + 1].build.pipe) && Carries(Shown(st[x], ins[x]), w, p)
  }

  lemma HoldStep(s: F.Regs, i: F.Inputs)
    requires s.Valid() && i.Valid()
    ensures F.Next(s, i).pipe.hold in {s.pipe.hold, SILENCE, F.Fetched(s.pipe)}
  {
  }

  /** The word being cut into payload bytes is silence, or was fetched for the entry of some earlier
      cycle and is of that entry's channel: also when maps are latched anew in the middle of BUILD. */
  lemma {:induction false} HeldCarries(st: seq<Regs>, ins: seq<Inputs>, n: nat, p: (nat, Word) -> bool)
    requires Trace(st, ins) && n <= |ins| && CleanStart(st[0], p) && HostSends(ins, n, p)
    requires st[0].build.pipe.hold == SILENCE == F.Fetched(st[0].build.pipe)
    ensures st[n].build.pipe.hold != SILENCE ==>
      exists x: nat :: x < n && FetchedIn(st, ins, x, st[n].build.pipe.hold, p)
  {
    if n > 0 {
      HeldCarries(st, ins, n - 1, p);
      assert StepsAt(st, ins, n - 1);
      HoldStep(st[n - 1].build, BuildIn(st[n - 1], ins[n - 1]));
      if n > 1 && st[n].build.pipe.hold == F.Fetched(st[n - 1].build.pipe) {
        FetchedCarries(st, ins, n - 2, p);
        assert FetchedIn(st, ins, n - 2, st[n].build.pipe.hold, p);
      }
    }
  }

  // ---- from a due to the frame on the wire --------------------------------------------------------

  /** One packet's life: due at cycle a, handed to BUILD at m, watched up to n; its context, and
      the reader's position on an unbounded pointer when it fell due. */
  datatype Episode = Episode(a: nat, m: nat, n: nat, k: nat, ctx: Context, sh: Shared, reader: nat)

  /** The writer as it would be on unbounded pointers, and what it wrote. */
  ghost function Written(st: seq<Regs>, ins: seq<Inputs>, h0: R.History, n: nat): R.History
    requires Trace(st, ins) && n <= |ins|
  {
    RingRun(st, ins);
    R.Histories(RingSt(st), RingIns(st, ins), h0, n)
  }

  /** Unbounded address of sample q of the packet. */
  function Address(e: Episode, q: nat): int
    requires e.ctx.WellShaped()
  {
    e.reader - 8 * Fpp(e.ctx.fppIdx) + 8 * (q / e.ctx.nslots) + e.ctx.slots[q % e.ctx.nslots].ch % 8
  }

  ghost predicate FallsDue(st: seq<Regs>, ins: seq<Inputs>, e: Episode, h0: R.History)
    requires Trace(st, ins)
  {
    e.a < e.m <= e.n < |ins| && e.k < N_CTX && e.ctx.WellShaped() && e.sh.Valid() && R.Fresh(st[0].ring, h0)
    && P.Strobe(PacerIn(st[e.a], ins[e.a])) && P.DueAt(st[e.a].pacer, PacerIn(st[e.a], ins[e.a]), e.k)
    && e.reader % 8 == 0 && st[e.a].pacer.rd == e.reader % TWO32
    && 8 * Fpp(e.ctx.fppIdx) <= e.reader <= Written(st, ins, h0, e.a).base
    && st[e.m].build.fsm == F.Build && st[e.m].build.ctx == e.k && st[e.m].build.cnt == F.RESTART
  }

  /** At cycle j the context is as configured; and while BUILD is reading, no other due has taken
      the shared snapshot and the writer has not come round to the window. */
  ghost predicate Undisturbed(st: seq<Regs>, ins: seq<Inputs>, e: Episode, h0: R.History, j: nat)
    requires Trace(st, ins) && FallsDue(st, ins, e, h0) && e.m <= j <= e.n
  {
    ins[j].ctxs[e.k] == e.ctx && ins[j].shared == e.sh
    && (st[j].build.fsm == F.Build ==>
      QuietBetween(st, ins, e.a, j)
      && Written(st, ins, h0, j).base - e.reader <= RING_DEPTH - 8 * (Fpp(e.ctx.fppIdx) + 1))
  }

  ghost predicate SnapsAt(st: seq<Regs>, ins: seq<Inputs>, x: nat)
    requires Trace(st, ins) && x < |ins|
  {
    P.Snaps(st[x].pacer, PacerIn(st[x], ins[x]))
  }

  ghost predicate QuietBetween(st: seq<Regs>, ins: seq<Inputs>, a: nat, j: nat)
    requires Trace(st, ins) && a < j <= |ins|
  {
    forall x :: a < x < j ==> !SnapsAt(st, ins, x)
  }

  ghost predicate Episodic(st: seq<Regs>, ins: seq<Inputs>, e: Episode, h0: R.History)
    requires Trace(st, ins)
  {
    FallsDue(st, ins, e, h0) && forall j :: e.m <= j <= e.n ==> Undisturbed(st, ins, e, h0, j)
  }

  /** The emit registers still hold what the strobe that took the snapshot latched. */
  lemma SnapshotStands(st: seq<Regs>, ins: seq<Inputs>, a: nat, j: nat)
    requires Trace(st, ins) && a < j <= |ins| && QuietBetween(st, ins, a, j)
    requires SnapsAt(st, ins, a)
    ensures st[j].pacer.rdSnap == st[a].pacer.rd && st[j].pacer.secEmit == st[a].pacer.sec
    ensures st[j].pacer.subEmit == (st[a].pacer.sub + ins[a].load.offset) % TWO32
  {
    var ps, pi := PacerSt(st), PacerIns(st, ins);
    PacerRun(st, ins);
    assert P.SnapsAt(ps, pi, a);
    forall x | a < x < j
      ensures !P.SnapsAt(ps, pi, x)
    {
      assert !SnapsAt(st, ins, x);
    }
    P.SnapshotHeld(ps, pi, a, j);
  }

  /** The hardware address of sample q is its unbounded address, folded. */
  lemma WindowCell(reader: nat, fpp: nat, samp: nat, ch: nat)
    requires 8 * fpp <= reader
    ensures F.RingAddr(reader % TWO32, fpp, samp, ch) == (reader - 8 * fpp + 8 * samp + ch % 8) % RING_DEPTH
  {
    var base := reader - 8 * fpp;
    P.SubMod(reader, 8 * fpp, TWO32);
    P.AddMod(base, 8 * samp + ch % 8, TWO32);
    ModMod(base + 8 * samp + ch % 8, RING_DEPTH, TWO32 / RING_DEPTH);
  }

  // ---- the window stays as written ------------------------------------------------------------------

  /** While the episode is undisturbed, the cell of sample q is the one BUILD started from, and
      holds the last word written to its address, if any was. */
  lemma CellStands(st: seq<Regs>, ins: seq<Inputs>, e: Episode, h0: R.History, j: nat, k: nat, at: nat)
    requires Trace(st, ins) && FallsDue(st, ins, e, h0) && e.m <= j <= e.n && k < STREAMS
    requires e.reader - 8 * Fpp(e.ctx.fppIdx) <= at < e.reader
    requires Written(st, ins, h0, j).base - e.reader <= RING_DEPTH - 8 * (Fpp(e.ctx.fppIdx) + 1)
    ensures st[j].ring.rings[k][at % RING_DEPTH] == st[e.a].ring.rings[k][at % RING_DEPTH]
    ensures var h := Written(st, ins, h0, e.a).last;
      (k, at) in h ==> st[j].ring.rings[k][at % RING_DEPTH] == h[(k, at)]
  {
    var rs, ri := RingSt(st), RingIns(st, ins);
    RingRun(st, ins);
    R.Frozen(rs, ri, h0, e.a, j, k, at);
    R.RingKeepsLastWrites(rs, ri, h0, j);
  }

  // ---- the packet ------------------------------------------------------------------------------------

  /** The view the due leaves for the builder: configuration, and the stamp of the due. */
  ghost function DueView(st: seq<Regs>, ins: seq<Inputs>, e: Episode): (v: View)
    requires Trace(st, ins) && e.a < |ins| && e.ctx.Valid() && e.sh.Valid()
    ensures v.Valid() && v.nslots == e.ctx.nslots && v.slots == e.ctx.slots && v.fpp == Fpp(e.ctx.fppIdx)
  {
    ViewOf(e.ctx, e.sh, st[e.a].pacer.sec, (st[e.a].pacer.sub + ins[e.a].load.offset) % TWO32)
  }

  function SlotOf(e: Episode, q: nat): Slot
    requires e.ctx.WellShaped()
  {
    e.ctx.slots[q % e.ctx.nslots]
  }

  lemma AddressInWindow(e: Episode, q: nat)
    requires e.ctx.WellShaped() && 8 * Fpp(e.ctx.fppIdx) <= e.reader && q < Samples(e.ctx.nslots, e.ctx.fppIdx)
    ensures q / e.ctx.nslots < Fpp(e.ctx.fppIdx)
    ensures e.reader - 8 * Fpp(e.ctx.fppIdx) <= Address(e, q) < e.reader
  {
    SamplesIsProduct(e.ctx.nslots, e.ctx.fppIdx);
    QuotientBelow(q, e.ctx.nslots, Fpp(e.ctx.fppIdx));
    InsideFrame(e.reader, Fpp(e.ctx.fppIdx), q / e.ctx.nslots, SlotOf(e, q).ch % 8);
  }

  lemma InsideFrame(reader: nat, f: nat, x: nat, c: nat)
    requires x < f && c < 8 && 8 * f <= reader
    ensures reader - 8 * f <= reader - 8 * f + 8 * x + c < reader
  {
  }

  /** The word the builder reads for sample q at cycle j. */
  ghost function ReadWord(st: seq<Regs>, e: Episode, j: nat, q: nat): Word
    requires e.ctx.WellShaped() && j < |st| && st[j].Valid() && 8 * Fpp(e.ctx.fppIdx) <= e.reader
    requires q < Samples(e.ctx.nslots, e.ctx.fppIdx)
  {
    AddressInWindow(e, q);
    if SlotOf(e, q).valid then st[j].ring.rings[SlotOf(e, q).ch / 8][Address(e, q) % RING_DEPTH] else SILENCE
  }

  lemma ReadsCell(st: seq<Regs>, e: Episode, v: View, j: nat, q: nat)
    requires e.ctx.WellShaped() && j < |st| && st[j].Valid() && 8 * Fpp(e.ctx.fppIdx) <= e.reader
    requires q < Samples(e.ctx.nslots, e.ctx.fppIdx)
    requires v.Valid() && v.nslots == e.ctx.nslots && v.slots == e.ctx.slots && v.fpp == Fpp(e.ctx.fppIdx)
    ensures T.WindowWord(st[j].ring.rings, e.reader % TWO32, v, q) == ReadWord(st, e, j, q)
  {
    AddressInWindow(e, q);
    WindowCell(e.reader, v.fpp, q / e.ctx.nslots, SlotOf(e, q).ch);
  }

  /** What the packet carries: the window as it stood when BUILD began, or silence. */
  ghost function PacketOf(st: seq<Regs>, ins: seq<Inputs>, e: Episode, h0: R.History): (p: T.Packet)
    requires Trace(st, ins) && FallsDue(st, ins, e, h0)
    ensures p.c == DueView(st, ins, e) && |p.w| == Samples(e.ctx.nslots, e.ctx.fppIdx)
    ensures forall q :: 0 <= q < |p.w| ==>
      p.w[q] == if st[e.m].build.pktPrimed then ReadWord(st, e, e.m, q) else SILENCE
  {
    T.Packet(DueView(st, ins, e),
             seq(Samples(e.ctx.nslots, e.ctx.fppIdx), q requires 0 <= q < Samples(e.ctx.nslots, e.ctx.fppIdx) =>
               if st[e.m].build.pktPrimed then ReadWord(st, e, e.m, q) else SILENCE))
  }

  lemma PacketFrames(st: seq<Regs>, ins: seq<Inputs>, e: Episode, h0: R.History)
    requires Trace(st, ins) && FallsDue(st, ins, e, h0)
    ensures PacketOf(st, ins, e, h0).Valid()
  {
    ShapeFrames(e.ctx, DueView(st, ins, e));
  }

  lemma SameRead(st: seq<Regs>, ins: seq<Inputs>, e: Episode, h0: R.History, j: nat, q: nat)
    requires Trace(st, ins) && FallsDue(st, ins, e, h0) && e.m <= j <= e.n
    requires Undisturbed(st, ins, e, h0, e.m) && Undisturbed(st, ins, e, h0, j) && st[j].build.fsm == F.Build
    requires q < Samples(e.ctx.nslots, e.ctx.fppIdx)
    ensures ReadWord(st, e, j, q) == ReadWord(st, e, e.m, q)
  {
    AddressInWindow(e, q);
    if SlotOf(e, q).valid {
      CellStands(st, ins, e, h0, e.m, SlotOf(e, q).ch / 8, Address(e, q));
      CellStands(st, ins, e, h0, j, SlotOf(e, q).ch / 8, Address(e, q));
    }
  }

  lemma ViewAt(s: Regs, i: Inputs, k: nat)
    requires s.Valid() && i.Valid() && k < N_CTX
    ensures BuildIn(s, i).views[k] == ViewOf(i.ctxs[k], i.shared, s.pacer.secEmit, s.pacer.subEmit)
    ensures BuildIn(s, i).rdSnap == s.pacer.rdSnap
  {
  }

  /** A frame's length does not depend on its stamp. */
  lemma LengthApart(s: Regs, i: Inputs, k: nat, sec: nat, sub: nat)
    requires s.Valid() && i.Valid() && k < N_CTX
    ensures BuildIn(s, i).views[k].lastIdx == ViewOf(i.ctxs[k], i.shared, sec, sub).lastIdx
  {
    ViewAt(s, i, k);
  }

  lemma ViewLength(st: seq<Regs>, ins: seq<Inputs>, e: Episode, h0: R.History, j: nat)
    requires Trace(st, ins) && FallsDue(st, ins, e, h0) && e.m <= j <= e.n
    requires Undisturbed(st, ins, e, h0, j)
    ensures BuildIn(st[j], ins[j]).views[e.k].lastIdx == DueView(st, ins, e).lastIdx
  {
    LengthApart(st[j], ins[j], e.k, st[e.a].pacer.sec, (st[e.a].pacer.sub + ins[e.a].load.offset) % TWO32);
  }

  lemma ViewStands(st: seq<Regs>, ins: seq<Inputs>, e: Episode, h0: R.History, j: nat)
    requires Trace(st, ins) && FallsDue(st, ins, e, h0) && e.m <= j <= e.n
    requires Undisturbed(st, ins, e, h0, j) && st[j].build.fsm == F.Build
    ensures BuildIn(st[j], ins[j]).views[e.k] == DueView(st, ins, e)
    ensures BuildIn(st[j], ins[j]).rdSnap == e.reader % TWO32
  {
    SnapshotStands(st, ins, e.a, j);
    ViewFrom(st, ins, e, st[j], ins[j]);
  }

  /** A cycle that shows the configuration and the stamp of the due shows its view. */
  lemma ViewFrom(st: seq<Regs>, ins: seq<Inputs>, e: Episode, s: Regs, i: Inputs)
    requires Trace(st, ins) && e.a < |ins| && e.ctx.Valid() && e.sh.Valid()
    requires s.Valid() && i.Valid() && e.k < N_CTX && i.ctxs[e.k] == e.ctx && i.shared == e.sh
    requires s.pacer.secEmit == st[e.a].pacer.sec
    requires s.pacer.subEmit == (st[e.a].pacer.sub + ins[e.a].load.offset) % TWO32
    ensures BuildIn(s, i).views[e.k] == DueView(st, ins, e) && BuildIn(s, i).rdSnap == s.pacer.rdSnap
  {
    ViewAt(s, i, e.k);
  }

  lemma PacketShown(st: seq<Regs>, ins: seq<Inputs>, e: Episode, h0: R.History, j: nat)
    requires Trace(st, ins) && FallsDue(st, ins, e, h0) && e.m <= j <= e.n
    requires Undisturbed(st, ins, e, h0, e.m) && Undisturbed(st, ins, e, h0, j) && st[j].build.fsm == F.Build
    ensures T.Shows(BuildIn(st[j], ins[j]), e.k, PacketOf(st, ins, e, h0), st[e.m].build.pktPrimed)
  {
    var p, i := PacketOf(st, ins, e, h0), BuildIn(st[j], ins[j]);
    PacketFrames(st, ins, e, h0);
    ViewStands(st, ins, e, h0, j);
    forall q | 0 <= q < |p.w|
      ensures p.w[q] == if st[e.m].build.pktPrimed then T.WindowWord(i.rings, i.rdSnap, p.c, q) else SILENCE
    {
      ReadsCell(st, e, p.c, j, q);
      SameRead(st, ins, e, h0, j, q);
    }
  }

  /** THE STREAM THEOREM. Context k falls due at cycle a and is handed to BUILD at cycle m. If until
      BUILD is over no other due retakes the shared snapshot, and the fill above the window leaves
      fpp + 1 frames of the ring free, then up to cycle n the sink has accepted a proper prefix of
      the packet's frame, and the completion ends exactly that frame. Its header carries the stamp
      of the due; each mapped slot of each sample carries the last word the host wrote to that
      channel at that sample; an unmapped slot, or an un-primed packet, carries zeros. */
  lemma HostToWire(st: seq<Regs>, ins: seq<Inputs>, e: Episode, h0: R.History) returns (p: T.Packet)
    requires Trace(st, ins) && Episodic(st, ins, e, h0) && Unserved(st, ins, e.m, e.n)
    ensures p.c == DueView(st, ins, e)
    ensures |p.w| == Samples(e.ctx.nslots, e.ctx.fppIdx)
    ensures forall q :: 0 <= q < |p.w| ==> CarriesSample(st, ins, e, h0, p.w[q], q)
    ensures Delivers(BuildSt(st, e.m), BuildIns(st, ins, e.m), e.n - e.m, p)
  {
    p := PacketOf(st, ins, e, h0);
    PacketDelivered(st, ins, e, h0);
    forall q | 0 <= q < |p.w|
      ensures CarriesSample(st, ins, e, h0, p.w[q], q)
    {
      WordCarried(st, ins, e, h0, q);
    }
  }

  /** Word w is what sample q of the packet should carry. */
  ghost predicate CarriesSample(st: seq<Regs>, ins: seq<Inputs>, e: Episode, h0: R.History, w: Word, q: nat)
    requires Trace(st, ins) && FallsDue(st, ins, e, h0) && q < Samples(e.ctx.nslots, e.ctx.fppIdx)
  {
    AddressInWindow(e, q);
    var slot, h := SlotOf(e, q), Written(st, ins, h0, e.a).last;
    if !st[e.m].build.pktPrimed || !slot.valid then w == SILENCE
    else (slot.ch / 8, Address(e, q)) in h ==> w == h[(slot.ch / 8, Address(e, q))]
  }

  lemma WordCarried(st: seq<Regs>, ins: seq<Inputs>, e: Episode, h0: R.History, q: nat)
    requires Trace(st, ins) && Episodic(st, ins, e, h0) && q < Samples(e.ctx.nslots, e.ctx.fppIdx)
    ensures CarriesSample(st, ins, e, h0, PacketOf(st, ins, e, h0).w[q], q)
  {
    AddressInWindow(e, q);
    assert Undisturbed(st, ins, e, h0, e.m);
    if st[e.m].build.pktPrimed && SlotOf(e, q).valid {
      CellStands(st, ins, e, h0, e.m, SlotOf(e, q).ch / 8, Address(e, q));
    }
  }

  /** Nothing completes between the hand-over and cycle n. */
  ghost predicate Unserved(st: seq<Regs>, ins: seq<Inputs>, m: nat, n: nat)
    requires Trace(st, ins) && m <= n <= |ins|
  {
    forall j :: m <= j < n ==> !ServesAt(st, ins, j)
  }

  ghost predicate ServesAt(st: seq<Regs>, ins: seq<Inputs>, j: nat)
    requires Trace(st, ins) && j < |ins|
  {
    F.Serve(st[j].build, BuildIn(st[j], ins[j]))
  }

  lemma BuildUnserved(st: seq<Regs>, ins: seq<Inputs>, m: nat, n: nat)
    requires Trace(st, ins) && m <= n <= |ins| && Unserved(st, ins, m, n)
    ensures F.Trace(BuildSt(st, m), BuildIns(st, ins, m))
    ensures T.NoServeBefore(BuildSt(st, m), BuildIns(st, ins, m), n - m)
  {
    var bs, bi := BuildSt(st, m), BuildIns(st, ins, m);
    BuildRun(st, ins, m);
    forall j | 0 <= j < n - m
      ensures !F.Serve(bs[j], bi[j])
    {
      assert !ServesAt(st, ins, m + j);
    }
  }

  lemma PrimedAt(st: seq<Regs>, ins: seq<Inputs>, m: nat, j: nat)
    requires Trace(st, ins) && m <= j <= |ins| && Unserved(st, ins, m, j) && st[m].build.fsm == F.Build
    ensures st[j].build.pktPrimed == st[m].build.pktPrimed
  {
    BuildUnserved(st, ins, m, j);
    T.PrimedThroughout(BuildSt(st, m), BuildIns(st, ins, m), j - m);
  }

  lemma ShownThere(st: seq<Regs>, ins: seq<Inputs>, e: Episode, h0: R.History, j: nat)
    requires Trace(st, ins) && Episodic(st, ins, e, h0) && e.m <= j <= e.n && Unserved(st, ins, e.m, j)
    ensures T.ShowsWhileBuilt(st[j].build, BuildIn(st[j], ins[j]), e.k, PacketOf(st, ins, e, h0))
  {
    assert Undisturbed(st, ins, e, h0, e.m) && Undisturbed(st, ins, e, h0, j);
    ViewLength(st, ins, e, h0, j);
    PrimedAt(st, ins, e.m, j);
    if st[j].build.fsm == F.Build {
      PacketShown(st, ins, e, h0, j);
    }
  }

  ghost predicate ShownThroughout(bs: seq<F.Regs>, bi: seq<F.Inputs>, n: nat, k: nat, p: T.Packet)
  {
    F.Trace(bs, bi) && n < |bi| && k < N_CTX && T.NoServeBefore(bs, bi, n)
    && forall j :: 0 <= j <= n ==> T.ShownAt(bs, bi, j, k, p)
  }

  lemma ShownInRun(st: seq<Regs>, ins: seq<Inputs>, e: Episode, h0: R.History, x: nat, p: T.Packet,
                   bs: seq<F.Regs>, bi: seq<F.Inputs>, j: nat)
    requires Trace(st, ins) && Episodic(st, ins, e, h0) && Unserved(st, ins, e.m, e.n) && e.m <= x <= e.n
    requires F.Trace(bs, bi) && j < |bi| && bs[j] == st[x].build && bi[j] == BuildIn(st[x], ins[x])
    requires p == PacketOf(st, ins, e, h0)
    ensures T.ShownAt(bs, bi, j, e.k, p)
  {
    ShownThere(st, ins, e, h0, x);
  }

  lemma AllShown(st: seq<Regs>, ins: seq<Inputs>, e: Episode, h0: R.History, p: T.Packet,
                 bs: seq<F.Regs>, bi: seq<F.Inputs>)
    requires Trace(st, ins) && Episodic(st, ins, e, h0) && Unserved(st, ins, e.m, e.n)
    requires p == PacketOf(st, ins, e, h0) && bs == BuildSt(st, e.m) && bi == BuildIns(st, ins, e.m)
    requires F.Trace(bs, bi) && T.NoServeBefore(bs, bi, e.n - e.m)
    ensures ShownThroughout(bs, bi, e.n - e.m, e.k, p)
  {
    forall j | 0 <= j <= e.n - e.m
      ensures T.ShownAt(bs, bi, j, e.k, p)
    {
      var x := e.m + j;
      ShownInRun(st, ins, e, h0, x, p, bs, bi, j);
    }
  }

  ghost predicate Begins(bs: seq<F.Regs>, k: nat) {
    bs != [] && bs[0].ctx == k && bs[0].fsm == F.Build && bs[0].cnt == F.RESTART
  }

  ghost predicate Handled(bs: seq<F.Regs>, bi: seq<F.Inputs>, n: nat, k: nat, p: T.Packet) {
    p.Valid() && Begins(bs, k) && ShownThroughout(bs, bi, n, k, p)
  }

  /** The words the sink has accepted before cycle n of the builder's run. */
  ghost function OnWire(bs: seq<F.Regs>, bi: seq<F.Inputs>, n: nat): seq<F.Beat>
    requires F.Trace(bs, bi) && n <= |bi|
  {
    F.Sent(bs, bi, n)
  }

  /** From a hand-over to BUILD to cycle n of the builder's run: a proper prefix of the packet's
      frame has been accepted, and a completion in cycle n ends exactly the frame. */
  ghost predicate Delivers(bs: seq<F.Regs>, bi: seq<F.Inputs>, n: nat, p: T.Packet) {
    p.Valid() && |p.w| > 0 && F.Trace(bs, bi) && n < |bi|
    && OnWire(bs, bi, n) < p.Beats()
    && (F.Serve(bs[n], bi[n]) ==> OnWire(bs, bi, n + 1) == p.Beats())
  }

  lemma Delivered(bs: seq<F.Regs>, bi: seq<F.Inputs>, n: nat, k: nat, p: T.Packet)
    requires Handled(bs, bi, n, k, p)
    ensures Delivers(bs, bi, n, p)
  {
    T.FrameOnTheWire(bs, bi, n, k, p);
  }

  lemma PacketDelivered(st: seq<Regs>, ins: seq<Inputs>, e: Episode, h0: R.History)
    requires Trace(st, ins) && Episodic(st, ins, e, h0) && Unserved(st, ins, e.m, e.n)
    ensures Delivers(BuildSt(st, e.m), BuildIns(st, ins, e.m), e.n - e.m, PacketOf(st, ins, e, h0))
  {
    ShownInBuild(st, ins, e, h0);
    Delivered(BuildSt(st, e.m), BuildIns(st, ins, e.m), e.n - e.m, e.k, PacketOf(st, ins, e, h0));
  }

  lemma ShownInBuild(st: seq<Regs>, ins: seq<Inputs>, e: Episode, h0: R.History)
    requires Trace(st, ins) && Episodic(st, ins, e, h0) && Unserved(st, ins, e.m, e.n)
    ensures Handled(BuildSt(st, e.m), BuildIns(st, ins, e.m), e.n - e.m, e.k, PacketOf(st, ins, e, h0))
  {
    PacketFrames(st, ins, e, h0);
    HandedOver(st, ins, e, h0);
    BuildUnserved(st, ins, e.m, e.n);
    AllShown(st, ins, e, h0, PacketOf(st, ins, e, h0), BuildSt(st, e.m), BuildIns(st, ins, e.m));
  }

  lemma HandedOver(st: seq<Regs>, ins: seq<Inputs>, e: Episode, h0: R.History)
    requires Trace(st, ins) && FallsDue(st, ins, e, h0)
    ensures Begins(BuildSt(st, e.m), e.k)
  {
    assert BuildSt(st, e.m)[0] == st[e.m + 0].build;
  }
}
