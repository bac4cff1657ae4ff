/** dante_packetizer.py as one clocked machine: the sample rings, the pacer and the builder wired
    together, with the read anchor that starts a stream. The results of the three parts meet here:
    what a receiver gets is what the host wrote. */
module Packetizer {
  import opened Bytes
  import opened Geometry
  import R = SampleRing
  import P = MediaPacer
  import F = FrameBuilder

  /** One cycle's inputs: enable, NCO strobe, the USB bridge, the latched contexts and shared
      fields, the timestamp registers, a phase seed, and the sink's ready. */
  datatype Inputs = Inputs(en: bool, tick: bool, readable: bool, usb: R.Sample,
                           ctxs: seq<Context>, shared: Shared,
                           load: Load, seed: P.Seed, ready: bool)
  {
    ghost predicate Valid() {
      usb.Valid() && |ctxs| == N_CTX && (forall k :: 0 <= k < N_CTX ==> ctxs[k].Valid()) && shared.Valid()
      && load.Valid() && (seed.SeedPhase? ==> seed.ctx < N_CTX)
    }
  }

  datatype Load = Load(re: bool, sec: nat, sub: nat, offset: nat)
  {
    ghost predicate Valid() { sec < TWO32 && sub < TWO32 && offset < TWO32 }
  }

  /** The stamp of the last emission, for the firmware to read. */
  datatype Stamp = Stamp(sec: nat, sub: nat)

  datatype Regs = Regs(ring: R.Regs, pacer: P.Regs, build: F.Regs, alignedOnce: bool, emitted: Stamp)
  {
    ghost predicate Valid() { ring.Valid() && pacer.Valid() && build.Valid() }
  }

  // ---- the wires --------------------------------------------------------------------------------

  /** do_emit: a due has just been latched and the builder is idle. */
  predicate DoEmit(s: Regs) {
    s.pacer.sendReq && s.build.fsm == F.Idle
  }

  function AnchorNow(s: Regs): P.Anchor {
    if s.build.fsm == F.Idle && F.AnyPend(s.build) && !s.alignedOnce then P.AnchorTo(s.ring.rdAnchor)
    else P.NoAnchor
  }

  function NextAligned(s: Regs, en: bool): bool {
    if !en then false else s.alignedOnce || DoEmit(s)
  }

  function NextEmitted(s: Regs, en: bool): Stamp {
    if en && DoEmit(s) then Stamp(s.pacer.secEmit, s.pacer.subEmit) else s.emitted
  }

  function RingIn(s: Regs, i: Inputs): (r: R.Inputs)
    requires s.Valid() && i.Valid()
    ensures r.Valid()
  {
    R.Inputs(i.en, i.readable, i.usb, s.pacer.rd)
  }

  function Slots(ctxs: seq<Context>): (n: seq<nat>)
    ensures |n| == |ctxs| && forall k :: 0 <= k < |n| ==> n[k] == ctxs[k].nslots
  {
    seq(|ctxs|, k requires 0 <= k < |ctxs| => ctxs[k].nslots)
  }

  function FppOf(c: Context): (f: nat)
    requires c.Valid()
    ensures 2 <= f <= 60 && f == Fpp(c.fppIdx)
  {
    Fpp(c.fppIdx)
  }

  function Fpps(ctxs: seq<Context>): (n: seq<nat>)
    requires forall k :: 0 <= k < |ctxs| ==> ctxs[k].Valid()
    ensures |n| == |ctxs| && forall k :: 0 <= k < |n| ==> n[k] == FppOf(ctxs[k])
  {
    seq(|ctxs|, k requires 0 <= k < |ctxs| => FppOf(ctxs[k]))
  }

  function Views(ctxs: seq<Context>, sh: Shared, sec: nat, sub: nat): (v: seq<View>)
    requires sh.Valid() && forall k :: 0 <= k < |ctxs| ==> ctxs[k].Valid()
    ensures |v| == |ctxs| && forall k :: 0 <= k < |v| ==> v[k].Valid()
  {
    seq(|ctxs|, k requires 0 <= k < |ctxs| => ViewOf(ctxs[k], sh, sec, sub))
  }

  function PacerIn(s: Regs, i: Inputs): (p: P.Inputs)
    requires s.Valid() && i.Valid()
    ensures p.Valid()
  {
    P.Inputs(i.en, i.tick, s.ring.primed, Slots(i.ctxs), Fpps(i.ctxs),
             i.load.re, i.load.sec, i.load.sub, i.load.offset, i.seed, AnchorNow(s))
  }

  function BuildIn(s: Regs, i: Inputs): (f: F.Inputs)
    requires s.Valid() && i.Valid()
    ensures f.Valid()
  {
    F.Inputs(i.tick && i.en, P.Dues(s.pacer, PacerIn(s, i)),
             Views(i.ctxs, i.shared, s.pacer.secEmit, s.pacer.subEmit),
             s.ring.primed, s.pacer.rdSnap, s.ring.rings, i.ready)
  }

  function Next(s: Regs, i: Inputs): (t: Regs)
    requires s.Valid() && i.Valid()
    ensures t.Valid()
  {
    Regs(R.Next(s.ring, RingIn(s, i)), P.Next(s.pacer, PacerIn(s, i)), F.Next(s.build, BuildIn(s, i)),
         NextAligned(s, i.en), NextEmitted(s, i.en))
  }

  ghost predicate Trace(st: seq<Regs>, ins: seq<Inputs>) {
    |st| == |ins| + 1
    && (forall j :: 0 <= j < |st| ==> st[j].Valid())
    && (forall j :: 0 <= j < |ins| ==> ins[j].Valid())
    && (forall j :: 0 <= j < |ins| ==> StepsAt(st, ins, j))
  }

  ghost predicate StepsAt(st: seq<Regs>, ins: seq<Inputs>, j: nat)
    requires j < |ins| && j + 1 < |st| && st[j].Valid() && ins[j].Valid()
  {
    st[j + 1] == Next(st[j], ins[j])
  }

  /** The hardware. */
  class Core {
    const ring: R.Rings
    const pacer: P.Pacer
    const build: F.Builder
    var alignedOnce: bool
    var emitted: Stamp

    ghost function Abs(): Regs
      reads this, ring, ring.mems, pacer, pacer.phase, build, build.frameMem
    {
      Regs(ring.Abs(), pacer.Abs(), build.Abs(), alignedOnce, emitted)
    }

    ghost predicate Valid()
      reads this, ring, ring.mems, pacer, pacer.phase, build, build.frameMem
    {
      ring.Valid() && pacer.Valid() && build.Valid()
    }

    constructor ()
      ensures Valid() && fresh(ring) && fresh(ring.mems) && fresh(pacer) && fresh(pacer.phase)
      ensures fresh(build) && fresh(build.frameMem) && !alignedOnce
    {
      ring := new R.Rings();
      pacer := new P.Pacer();
      build := new F.Builder();
      alignedOnce, emitted := false, Stamp(0, 0);
    }

    /** The read anchor of the first block. */
    method AnchorWire() returns (a: P.Anchor)
      requires Valid()
      ensures a == AnchorNow(Abs())
    {
      a := P.NoAnchor;
      if build.fsm == F.Idle && true in build.pend && !alignedOnce {
        a := P.AnchorTo(ring.rdAnchor);
      }
    }

    method PacerWires(i: Inputs) returns (p: P.Inputs)
      requires Valid() && i.Valid()
      ensures p == PacerIn(Abs(), i)
    {
      var anchor := AnchorWire();
      p := P.Inputs(i.en, i.tick, ring.primed, Slots(i.ctxs), Fpps(i.ctxs),
                    i.load.re, i.load.sec, i.load.sub, i.load.offset, i.seed, anchor);
    }

    /** What the three parts see this cycle. */
    method Wires(i: Inputs) returns (r: R.Inputs, p: P.Inputs, f: F.Inputs)
      requires Valid() && i.Valid()
      ensures r == RingIn(Abs(), i) && p == PacerIn(Abs(), i) && f == BuildIn(Abs(), i)
    {
      r := R.Inputs(i.en, i.readable, i.usb, pacer.rd);
      p := PacerWires(i);
      var dues := pacer.DueBits(p);
      f := F.Inputs(i.tick && i.en, dues, Views(i.ctxs, i.shared, pacer.secEmit, pacer.subEmit),
                    ring.primed, pacer.rdSnap, ring.Rows(), i.ready);
    }

    /** All three parts step together. */
    method Edge(r: R.Inputs, p: P.Inputs, f: F.Inputs) returns (out: F.Output)
      requires Valid() && r.Valid() && p.Valid() && f.Valid()
      modifies ring, ring.mems, pacer, pacer.phase, build, build.frameMem
      ensures Valid() && ring.Abs() == R.Next(old(ring.Abs()), r)
      ensures pacer.Abs() == P.Next(old(pacer.Abs()), p)
      ensures build.Abs() == F.Next(old(build.Abs()), f) && out == F.Out(old(build.Abs()), f)
    {
      ring.Clock(r);
      pacer.Clock(p);
      out := build.Clock(f);
    }

    /** One clock edge of the whole packetizer. */
    method Clock(i: Inputs) returns (out: F.Output)
      requires Valid() && i.Valid()
      modifies this, ring, ring.mems, pacer, pacer.phase, build, build.frameMem
      ensures Valid() && Abs() == Next(old(Abs()), i)
      ensures out == F.Out(old(Abs()).build, BuildIn(old(Abs()), i))
    {
      var r, p, f := Wires(i);
      if !i.en {
        alignedOnce := false;
      } else if pacer.sendReq && build.fsm == F.Idle {
        alignedOnce, emitted := true, Stamp(pacer.secEmit, pacer.subEmit);
      }
      out := Edge(r, p, f);
    }
  }
}
