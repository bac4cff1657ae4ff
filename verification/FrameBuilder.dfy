/** The builder of dante_packetizer.py: the pending-emit latch, the walk over the flow contexts
    (IDLE, CHECK, SKIP), the byte-per-cycle frame build with its one-cycle-latency RAM pipelines
    (BUILD, PREFETCH) and the backpressured output (STREAM). Each register's next value is a
    function of the registers and the cycle's inputs; Builder is the same hardware with the
    state machine written out, and is proved to step by those functions. */
module FrameBuilder {
  import opened Bytes
  import opened Geometry

  datatype Fsm = Idle | Check | Skip | Build | Prefetch | Stream

  /** What the rest of the packetizer shows the builder during one clock cycle; views[k] is
      context k as the geometry block derives it from the registers. */
  datatype Inputs = Inputs(strobe: bool, due: seq<bool>, views: seq<View>,
                           primed: bool, rdSnap: nat, rings: seq<seq<Word>>, ready: bool)
  {
    ghost predicate Valid() {
      |due| == N_CTX && |views| == N_CTX && |rings| == STREAMS
      && (forall k :: 0 <= k < N_CTX ==> views[k].Valid())
      && (forall k :: 0 <= k < STREAMS ==> |rings[k]| == RING_DEPTH)
    }
  }

  datatype Beat = Beat(data: Word, last: bool, lastBe: nat)

  datatype Output = NoBeat | Offer(beat: Beat)

  /** Per-packet counters: byte on the wire, byte within the sample, and the fetch position. */
  datatype Counters = Counters(byteIdx: nat, bph: nat, slot: nat, samp: nat)

  const RESTART := Counters(0, 0, 0, 0)

  /** Lanes 0..2 of the word being assembled. */
  datatype Lanes = Lanes(w0: byte, w1: byte, w2: byte)

  /** The ring read pipeline: which ring, mapped or silent, the registered read data, and the
      sample being sent. */
  datatype Pipe = Pipe(memD: nat, vldD: bool, dat: seq<Word>, hold: Word)

  datatype Regs = Regs(fsm: Fsm, ctx: nat, pend: seq<bool>, cnt: Counters, lanes: Lanes, pipe: Pipe,
                       pktPrimed: bool, rdIdx: nat, frame: seq<Word>, frDat: Word, pktCount: nat)
  {
    ghost predicate Valid() {
      ctx < N_CTX && |pend| == N_CTX && cnt.byteIdx < 2048 && cnt.bph < 4 && cnt.slot < 16
      && cnt.samp < 256 && |pipe.dat| == STREAMS && rdIdx < 512 && |frame| == 512
    }
  }

  // ---- combinational signals; c is always the selected context's latched configuration ---------

  function Cfg(s: Regs, i: Inputs): (c: View)
    requires s.Valid() && i.Valid()
    ensures c.Valid()
  {
    i.views[s.ctx]
  }

  predicate AnyPend(s: Regs) {
    true in s.pend
  }

  function MapEntry(c: View, slot: nat): Slot
    requires c.Valid()
  {
    c.slots[if slot < 8 then slot else 7]
  }

  /** Ring address of (sample, channel) in the window that ends at the snapshot; 32-bit pointers. */
  function RingAddr(snap: nat, fpp: nat, samp: nat, ch: nat): (a: nat)
    ensures a < RING_DEPTH
  {
    var base := (snap - 8 * fpp) % TWO32;
    (base + 8 * samp + ch % 8) % TWO32 % RING_DEPTH
  }

  function ReadAddr(s: Regs, i: Inputs): (a: nat)
    requires s.Valid() && i.Valid()
    ensures a < RING_DEPTH
  {
    RingAddr(i.rdSnap, Cfg(s, i).fpp, s.cnt.samp, MapEntry(Cfg(s, i), s.cnt.slot).ch)
  }

  /** The sample leaving the read pipeline this cycle, zeros for an unmapped slot. */
  function Fetched(p: Pipe): Word
    requires |p.dat| == STREAMS
  {
    if p.vldD then p.dat[if p.memD < STREAMS then p.memD else STREAMS - 1] else SILENCE
  }

  /** Byte p of a sample on the wire: most significant first, the lowest byte never sent. */
  function SampleByte(w: Word, p: nat): byte {
    if p == 0 then w.b3 else if p == 1 then w.b2 else if p == 2 then w.b1 else 0
  }

  function CurByte(byteIdx: nat, bph: nat, hold: Word, header: seq<byte>): byte
    requires |header| == HDR_LEN
  {
    if byteIdx < HDR_LEN then header[byteIdx] else SampleByte(hold, bph)
  }

  predicate IsLastByte(byteIdx: nat, c: View)
    requires c.Valid()
  {
    byteIdx == (c.total + 2047) % 2048
  }

  predicate AtLastWord(s: Regs, c: View)
    requires c.Valid()
  {
    s.rdIdx == c.lastIdx
  }

  /** serve_now: the last word of a frame is accepted. */
  predicate Serve(s: Regs, i: Inputs)
    requires s.Valid() && i.Valid()
  {
    s.fsm == Stream && i.ready && AtLastWord(s, Cfg(s, i))
  }

  function Out(s: Regs, i: Inputs): Output
    requires s.Valid() && i.Valid()
  {
    if s.fsm != Stream then NoBeat
    else
      var last := AtLastWord(s, Cfg(s, i));
      Offer(Beat(s.frDat, last, if last then 4 else 15))
  }

  // ---- next values ----------------------------------------------------------------------------

  predicate Skipping(s: Regs, c: View)
    requires s.Valid()
  {
    c.nslots == 0 || !s.pend[s.ctx]
  }

  /** The pending-emit latches: a fresh due wins over the clear of the context being served. */
  function NextPend(pend: seq<bool>, ctx: nat, strobe: bool, due: seq<bool>, serve: bool): (p: seq<bool>)
    requires |pend| == N_CTX && |due| == N_CTX
    ensures |p| == N_CTX
  {
    seq(N_CTX, k requires 0 <= k < N_CTX =>
      if strobe && due[k] then true else if serve && ctx == k then false else pend[k])
  }

  /** The next fetch position in wire order: slot fastest, wrapping at the flow's slot count. */
  function NextSlot(c: View, slot: nat): nat {
    if slot == (c.nslots + 15) % 16 then 0 else (slot + 1) % 16
  }

  function NextSamp(c: View, slot: nat, samp: nat): nat {
    if slot == (c.nslots + 15) % 16 then (samp + 1) % 256 else samp
  }

  predicate EndOfSample(n: Counters) {
    n.byteIdx >= HDR_LEN && n.bph == 2
  }

  /** The counters after one byte of BUILD; the fetch position moves at the first byte and at the
      last byte of each sample. */
  function NextCounters(n: Counters, c: View, primed: bool): Counters
    requires c.Valid()
  {
    var go := primed && (n.byteIdx == 0 || EndOfSample(n));
    Counters(if IsLastByte(n.byteIdx, c) then n.byteIdx else (n.byteIdx + 1) % 2048,
             if n.byteIdx < HDR_LEN then n.bph else if n.bph == 2 then 0 else (n.bph + 1) % 4,
             if go then NextSlot(c, n.slot) else n.slot,
             if go then NextSamp(c, n.slot, n.samp) else n.samp)
  }

  function NextHold(n: Counters, p: Pipe, primed: bool): Word
    requires |p.dat| == STREAMS
  {
    if !primed then SILENCE
    else if n.byteIdx == 1 || EndOfSample(n) then Fetched(p)
    else p.hold
  }

  function NextLanes(l: Lanes, byteIdx: nat, b: byte): Lanes {
    match byteIdx % 4
    case 0 => l.(w0 := b)
    case 1 => l.(w1 := b)
    case 2 => l.(w2 := b)
    case _ => l
  }

  /** The frame RAM after byte b: a full word every fourth byte, and on the last byte a word with
      that byte in lane 1 after lane 0 and the other lanes zero. The last-byte write stands later
      among the state's statements and wins. */
  function NextFrame(frame: seq<Word>, byteIdx: nat, l: Lanes, b: byte, c: View): (f: seq<Word>)
    requires |frame| == 512 && byteIdx < 2048 && c.Valid()
    ensures |f| == 512
  {
    if IsLastByte(byteIdx, c) then frame[c.lastIdx := Word(l.w0, b, 0, 0)]
    else if byteIdx % 4 == 3 then frame[byteIdx / 4 := Word(l.w0, l.w1, l.w2, b)]
    else frame
  }

  /** Frame RAM read address: one ahead of the word presented. */
  function FrameReadAddr(fsm: Fsm, rdIdx: nat, ready: bool): nat {
    if fsm == Prefetch then 0 else if fsm == Stream && ready then (rdIdx + 1) % 512 else rdIdx
  }

  function NextDat(rings: seq<seq<Word>>, addr: nat): (d: seq<Word>)
    requires |rings| == STREAMS && addr < RING_DEPTH
    requires forall k :: 0 <= k < STREAMS ==> |rings[k]| == RING_DEPTH
    ensures |d| == STREAMS
  {
    seq(STREAMS, k requires 0 <= k < STREAMS => rings[k][addr])
  }

  /** A context is selected: its per-packet counters restart. */
  function Select(s: Regs, k: nat): Regs {
    s.(ctx := k, cnt := RESTART)
  }

  /** On to the next context of the walk, or back to IDLE after the last. */
  function Advance(s: Regs): Regs {
    if s.ctx == N_CTX - 1 then s.(fsm := Idle) else Select(s, s.ctx + 1).(fsm := Check)
  }

  /** One byte of BUILD. */
  function BuildByte(s: Regs, c: View, b: byte): (t: Regs)
    requires s.Valid() && c.Valid()
    ensures t.Valid()
  {
    var last := IsLastByte(s.cnt.byteIdx, c);
    s.(frame := NextFrame(s.frame, s.cnt.byteIdx, s.lanes, b, c),
       lanes := NextLanes(s.lanes, s.cnt.byteIdx, b),
       pipe := s.pipe.(hold := NextHold(s.cnt, s.pipe, s.pktPrimed)),
       cnt := NextCounters(s.cnt, c, s.pktPrimed),
       rdIdx := if last then 0 else s.rdIdx,
       fsm := if last then Prefetch else Build)
  }

  /** One word of STREAM accepted. */
  function StreamWord(s: Regs, c: View): (t: Regs)
    requires s.Valid() && c.Valid()
    ensures t.Valid()
  {
    if AtLastWord(s, c) then Advance(s.(pktCount := (s.pktCount + 1) % TWO32))
    else s.(rdIdx := (s.rdIdx + 1) % 512)
  }

  /** The state machine's register writes. */
  function StepFsm(s: Regs, c: View, b: byte, primed: bool, ready: bool): (t: Regs)
    requires s.Valid() && c.Valid()
    ensures t.Valid()
  {
    match s.fsm
    case Idle => if AnyPend(s) then Select(s, 0).(pktPrimed := primed, fsm := Check) else s
    case Check => s.(fsm := if Skipping(s, c) then Skip else Build)
    case Skip => Advance(s)
    case Build => BuildByte(s, c, b)
    case Prefetch => s.(fsm := Stream)
    case Stream => if ready then StreamWord(s, c) else s
  }

  /** One clock edge. RAM read ports register the word before the edge's write. */
  function Next(s: Regs, i: Inputs): (t: Regs)
    requires s.Valid() && i.Valid()
    ensures t.Valid()
  {
    var c := Cfg(s, i);
    var b := CurByte(s.cnt.byteIdx, s.cnt.bph, s.pipe.hold, c.header);
    var e := MapEntry(c, s.cnt.slot);
    var u := StepFsm(s, c, b, i.primed, i.ready);
    u.(
      pend := NextPend(s.pend, s.ctx, i.strobe, i.due, Serve(s, i)),
      pipe := Pipe(e.ch / 8, e.valid, NextDat(i.rings, ReadAddr(s, i)), u.pipe.hold),
      frDat := s.frame[FrameReadAddr(s.fsm, s.rdIdx, i.ready)])
  }

  /** The words the sink accepts in a cycle. */
  function Accepted(s: Regs, i: Inputs): seq<Beat>
    requires s.Valid() && i.Valid()
  {
    if Out(s, i).Offer? && i.ready then [Out(s, i).beat] else []
  }

  /** A run of the builder: the register values before each cycle, and after the last. */
  ghost predicate Trace(st: seq<Regs>, ins: seq<Inputs>) {
    |st| == |ins| + 1
    && (forall j :: 0 <= j < |st| ==> st[j].Valid())
    && (forall j :: 0 <= j < |ins| ==> ins[j].Valid())
    && (forall j :: 0 <= j < |ins| ==> StepsAt(st, ins, j))
  }

  ghost predicate StepsAt(st: seq<Regs>, ins: seq<Inputs>, j: nat)
    requires j < |ins| && j + 1 < |st| && st[j].Valid() && ins[j].Valid()
  {
    st[j + 1] == Next(st[j], ins[j])
  }

  /** The words accepted during the first n cycles. */
  ghost function Sent(st: seq<Regs>, ins: seq<Inputs>, n: nat): seq<Beat>
    requires Trace(st, ins) && n <= |ins|
  {
    if n == 0 then [] else Sent(st, ins, n - 1) + Accepted(st[n - 1], ins[n - 1])
  }

  /** The hardware: registers, a 512-word frame RAM written in place, and the state machine. */
  class Builder {
    var fsm: Fsm
    var ctx: nat
    var pend: seq<bool>
    var cnt: Counters
    var lanes: Lanes
    var pipe: Pipe
    var pktPrimed: bool
    var rdIdx: nat
    const frameMem: array<Word>
    var frDat: Word
    var pktCount: nat

    ghost function Abs(): Regs
      reads this, frameMem
    {
      Regs(fsm, ctx, pend, cnt, lanes, pipe, pktPrimed, rdIdx, frameMem[..], frDat, pktCount)
    }

    ghost predicate Valid()
      reads this, frameMem
    {
      Abs().Valid()
    }

    /** Reset: idle, nothing pending. */
    constructor ()
      ensures Valid() && fresh(frameMem)
      ensures fsm == Idle && pend == seq(N_CTX, _ => false)
    {
      fsm, ctx, pend := Idle, 0, seq(N_CTX, _ => false);
      cnt, lanes := RESTART, Lanes(0, 0, 0);
      pipe := Pipe(0, false, seq(STREAMS, _ => SILENCE), SILENCE);
      pktPrimed, rdIdx, frDat, pktCount := false, 0, SILENCE, 0;
      frameMem := new Word[512](_ => SILENCE);
    }

    method NextContext()
      modifies this`fsm, this`ctx, this`cnt
      ensures Abs() == Advance(old(Abs()))
    {
      if ctx != N_CTX - 1 {
        ctx, cnt, fsm := ctx + 1, RESTART, Check;
      } else {
        fsm := Idle;
      }
    }

    /** BUILD's writes: a word into the frame RAM when one is full, the byte into its lane. */
    method CommitByte(b: byte, c: View)
      requires frameMem.Length == 512 && cnt.byteIdx < 2048 && c.Valid()
      modifies this`lanes, frameMem
      ensures frameMem[..] == NextFrame(old(frameMem[..]), cnt.byteIdx, old(lanes), b, c)
      ensures lanes == NextLanes(old(lanes), cnt.byteIdx, b)
    {
      if IsLastByte(cnt.byteIdx, c) {
        frameMem[c.lastIdx] := Word(lanes.w0, b, 0, 0);
      } else if cnt.byteIdx % 4 == 3 {
        frameMem[cnt.byteIdx / 4] := Word(lanes.w0, lanes.w1, lanes.w2, b);
      }
      lanes := NextLanes(lanes, cnt.byteIdx, b);
    }

    /** BUILD's counters and ring pipeline: latch the sample that has arrived, move on. */
    method CountByte(c: View)
      requires |pipe.dat| == STREAMS && c.Valid()
      modifies this`cnt, this`pipe
      ensures cnt == NextCounters(old(cnt), c, pktPrimed)
      ensures pipe == old(pipe).(hold := NextHold(old(cnt), old(pipe), pktPrimed))
    {
      var fetched := Fetched(pipe);
      if pktPrimed {
        var move := cnt.byteIdx == 0;
        if cnt.byteIdx == 1 {
          pipe := pipe.(hold := fetched);
        }
        if cnt.byteIdx >= HDR_LEN && cnt.bph == 2 {
          pipe := pipe.(hold := fetched);
          move := true;
        }
        if move {
          cnt := cnt.(slot := NextSlot(c, cnt.slot), samp := NextSamp(c, cnt.slot, cnt.samp));
        }
      } else {
        pipe := pipe.(hold := SILENCE);
      }
      if cnt.byteIdx >= HDR_LEN {
        cnt := cnt.(bph := if cnt.bph == 2 then 0 else (cnt.bph + 1) % 4);
      }
      if !IsLastByte(cnt.byteIdx, c) {
        cnt := cnt.(byteIdx := (cnt.byteIdx + 1) % 2048);
      }
    }

    method BuildState(c: View, b: byte)
      requires Valid() && c.Valid() && fsm == Build
      modifies this`fsm, this`cnt, this`lanes, this`pipe, this`rdIdx, frameMem
      ensures Abs() == BuildByte(old(Abs()), c, b)
    {
      var last := IsLastByte(cnt.byteIdx, c);
      CommitByte(b, c);
      CountByte(c);
      if last {
        rdIdx, fsm := 0, Prefetch;
      }
    }

    method StreamState(c: View)
      requires Valid() && c.Valid() && fsm == Stream
      modifies this`fsm, this`ctx, this`cnt, this`rdIdx, this`pktCount
      ensures Abs() == StreamWord(old(Abs()), c)
    {
      if rdIdx == c.lastIdx {
        pktCount := (pktCount + 1) % TWO32;
        NextContext();
      } else {
        rdIdx := (rdIdx + 1) % 512;
      }
    }

    method FsmState(c: View, b: byte, primed: bool, ready: bool)
      requires Valid() && c.Valid()
      modifies this`fsm, this`ctx, this`cnt, this`lanes, this`pipe, this`pktPrimed, this`rdIdx,
               this`pktCount, frameMem
      ensures Abs() == StepFsm(old(Abs()), c, b, primed, ready)
    {
      match fsm {
        case Idle =>
          if true in pend {
            ctx, cnt, pktPrimed, fsm := 0, RESTART, primed, Check;
          }
        case Check =>
          fsm := if c.nslots == 0 || !pend[ctx] then Skip else Build;
        case Skip =>
          NextContext();
        case Build =>
          BuildState(c, b);
        case Prefetch =>
          fsm := Stream;
        case Stream =>
          if ready {
            StreamState(c);
          }
      }
    }

    /** One clock edge of the whole builder. */
    method Clock(i: Inputs) returns (out: Output)
      requires Valid() && i.Valid()
      modifies this, frameMem
      ensures Valid() && Abs() == Next(old(Abs()), i) && out == Out(old(Abs()), i)
    {
      var c := i.views[ctx];
      var e := MapEntry(c, cnt.slot);
      var arriving := NextDat(i.rings, RingAddr(i.rdSnap, c.fpp, cnt.samp, e.ch));
      var word := frameMem[FrameReadAddr(fsm, rdIdx, i.ready)];
      var last := rdIdx == c.lastIdx;
      out := if fsm == Stream then Offer(Beat(frDat, last, if last then 4 else 15)) else NoBeat;
      var latched := NextPend(pend, ctx, i.strobe, i.due, fsm == Stream && i.ready && last);
      FsmState(c, CurByte(cnt.byteIdx, cnt.bph, pipe.hold, c.header), i.primed, i.ready);
      pend, frDat := latched, word;
      pipe := Pipe(e.ch / 8, e.valid, arriving, pipe.hold);
    }
  }
}
