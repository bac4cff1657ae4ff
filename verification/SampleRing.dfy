/** The write side of dante_packetizer.py: channel-addressed sample rings, the fill level, the
    prime hysteresis and the read anchor. */
module SampleRing {
  import opened Arith
  import opened Bytes
  import opened Geometry
  import F = FrameBuilder

  const FRAME_SAMPLES := 128  // un-prime below this level
  const CENTER := 1024        // prime at this level
  const CH := 8               // channels per ring

  /** One USB sample as the bridge labels it: channel 0..63 and the start-of-frame marker. */
  datatype Sample = Sample(word: Word, chan: nat, first: bool)
  {
    ghost predicate Valid() { chan < 64 }
  }

  const NO_SAMPLE := Sample(SILENCE, 0, false)

  datatype Inputs = Inputs(en: bool, readable: bool, usb: Sample, rd: nat)
  {
    ghost predicate Valid() { usb.Valid() && rd < TWO32 }
  }

  datatype Regs = Regs(vld: bool, samp: Sample, started: bool, frameBase: nat, rdAnchor: nat,
                       primed: bool, drops: nat, rings: seq<seq<Word>>)
  {
    ghost predicate Valid() {
      samp.Valid() && frameBase < TWO32 && rdAnchor < TWO32 && |rings| == STREAMS
      && forall k :: 0 <= k < STREAMS ==> |rings[k]| == RING_DEPTH
    }
  }

  /** wr - rd of two 32-bit pointers, into a wider signed register: the true difference of the
      register values, not the difference modulo 2^32. */
  function Level(wr: nat, rd: nat): int {
    wr - rd
  }

  predicate HaveSpace(level: int) {
    level < RING_DEPTH - 2
  }

  /** A start-of-frame sample is in the input register. */
  predicate NewFrame(s: Regs) {
    s.vld && s.samp.first
  }

  function NewBase(s: Regs): nat {
    (s.frameBase + CH) % TWO32
  }

  function BaseNow(s: Regs): nat {
    if NewFrame(s) then NewBase(s) else s.frameBase
  }

  function WriteAddr(s: Regs): (a: nat)
    ensures a < RING_DEPTH
  {
    (BaseNow(s) + s.samp.chan % CH) % TWO32 % RING_DEPTH
  }

  /** The sample may be stored if there is room for it. */
  predicate WantsWrite(s: Regs, i: Inputs) {
    i.en && s.vld && (s.started || s.samp.first)
  }

  predicate Writes(s: Regs, i: Inputs) {
    WantsWrite(s, i) && HaveSpace(Level(s.frameBase, i.rd))
  }

  /** Only the ring of the sample's bundle takes the write. */
  function NextRings(s: Regs, i: Inputs): (r: seq<seq<Word>>)
    requires s.Valid()
    ensures |r| == STREAMS && forall k :: 0 <= k < STREAMS ==> |r[k]| == RING_DEPTH
  {
    var k := s.samp.chan / CH;
    if Writes(s, i) && k < STREAMS then s.rings[k := s.rings[k][WriteAddr(s) := s.samp.word]] else s.rings
  }

  function NextPrimed(s: Regs, i: Inputs): bool {
    var level := Level(s.frameBase, i.rd);
    if !i.en then false else if level >= CENTER then true else if level < FRAME_SAMPLES then false else s.primed
  }

  function Next(s: Regs, i: Inputs): (t: Regs)
    requires s.Valid() && i.Valid()
    ensures t.Valid()
  {
    Regs(i.readable, if i.readable then i.usb else s.samp,
         i.en && (s.started || NewFrame(s)),
         BaseNow(s),
         if !i.en || (!s.started && NewFrame(s)) then NewBase(s) else s.rdAnchor,
         NextPrimed(s, i),
         if WantsWrite(s, i) && !HaveSpace(Level(s.frameBase, i.rd)) then (s.drops + 1) % TWO32 else s.drops,
         NextRings(s, i))
  }

  ghost predicate Trace(st: seq<Regs>, ins: seq<Inputs>) {
    |st| == |ins| + 1
    && (forall j :: 0 <= j < |st| ==> st[j].Valid())
    && (forall j :: 0 <= j < |ins| ==> ins[j].Valid())
    && (forall j :: 0 <= j < |ins| ==> StepsAt(st, ins, j))
  }

  ghost predicate StepsAt(st: seq<Regs>, ins: seq<Inputs>, j: nat)
    requires j < |ins| && j + 1 < |st| && st[j].Valid() && ins[j].Valid()
  {
    st[j + 1] == Next(st[j], ins[j])
  }

  /** The hardware: six block RAMs written in place, and the write-side registers. */
  class Rings {
    var vld: bool
    var samp: Sample
    var started: bool
    var frameBase: nat
    var rdAnchor: nat
    var primed: bool
    var drops: nat
    const mems: array2<Word>

    /** The contents of the block RAMs. */
    function Rows(): (r: seq<seq<Word>>)
      reads mems
      ensures |r| == mems.Length0 && forall k :: 0 <= k < |r| ==> |r[k]| == mems.Length1
      ensures forall k, a :: 0 <= k < |r| && 0 <= a < mems.Length1 ==> r[k][a] == mems[k, a]
    {
      seq(mems.Length0, k requires 0 <= k < mems.Length0 reads mems =>
        seq(mems.Length1, a requires 0 <= a < mems.Length1 reads mems => mems[k, a]))
    }

    ghost function Abs(): Regs
      reads this, mems
    {
      Regs(vld, samp, started, frameBase, rdAnchor, primed, drops, Rows())
    }

    ghost predicate Valid()
      reads this, mems
    {
      mems.Length0 == STREAMS && mems.Length1 == RING_DEPTH && Abs().Valid()
    }

    constructor ()
      ensures Valid() && fresh(mems) && !vld && !primed && !started && frameBase == 0 && rdAnchor == 0
    {
      vld, samp, started, primed := false, NO_SAMPLE, false, false;
      frameBase, rdAnchor, drops := 0, 0, 0;
      mems := new Word[STREAMS, RING_DEPTH]((_, _) => SILENCE);
    }

    method Store(k: nat, a: nat, w: Word)
      requires k < mems.Length0 && a < mems.Length1
      modifies mems
      ensures Rows() == old(Rows())[k := old(Rows())[k][a := w]]
    {
      ghost var was := Rows();
      mems[k, a] := w;
      forall j | 0 <= j < mems.Length0
        ensures Rows()[j] == was[k := was[k][a := w]][j]
      {
      }
    }

    /** The write port: store the registered sample, or count the drop. */
    method WriteSample(i: Inputs, base: nat)
      requires Valid() && i.Valid() && base == BaseNow(Abs())
      modifies this`drops, mems
      ensures Rows() == NextRings(old(Abs()), i)
      ensures drops == Next(old(Abs()), i).drops
    {
      var bundle := samp.chan / CH;
      if i.en && vld && (started || samp.first) {
        if frameBase - i.rd < RING_DEPTH - 2 {
          if bundle < STREAMS {
            Store(bundle, (base + samp.chan % CH) % TWO32 % RING_DEPTH, samp.word);
          }
        } else {
          drops := (drops + 1) % TWO32;
        }
      }
    }

    method Clock(i: Inputs)
      requires Valid() && i.Valid()
      modifies this, mems
      ensures Valid() && Abs() == Next(old(Abs()), i)
    {
      var level := frameBase - i.rd;
      var first := vld && samp.first;
      var newBase := (frameBase + CH) % TWO32;
      var base := if first then newBase else frameBase;
      WriteSample(i, base);
      if !i.en {
        primed, started, rdAnchor := false, false, newBase;
      } else {
        if first {
          rdAnchor := if started then rdAnchor else newBase;
          started := true;
        }
        if level >= CENTER {
          primed := true;
        } else if level < FRAME_SAMPLES {
          primed := false;
        }
      }
      frameBase, vld := base, i.readable;
      if i.readable {
        samp := i.usb;
      }
    }
  }

  // ---- a slot never carries another channel -----------------------------------------------------

  /** Every word of every ring satisfies p at the channel its address stands for. Since p is
      arbitrary, this says which channel's samples the word can have come from. */
  ghost predicate Pure(rings: seq<seq<Word>>, p: (nat, Word) -> bool) {
    forall k, a :: 0 <= k < |rings| && 0 <= a < |rings[k]| ==> p(CH * k + a % CH, rings[k][a])
  }

  ghost predicate Aligned(s: Regs) {
    s.Valid() && s.frameBase % CH == 0 && s.rdAnchor % CH == 0
  }

  lemma WriteAddrChannel(s: Regs)
    requires Aligned(s)
    ensures BaseNow(s) % CH == 0 && NewBase(s) % CH == 0 && WriteAddr(s) % CH == s.samp.chan % CH
  {
    ModMod(s.frameBase + CH, CH, TWO32 / CH);
    DivMod(s.frameBase + CH, CH, s.frameBase / CH + 1, 0);
    var b, c := BaseNow(s), s.samp.chan % CH;
    assert b == CH * (b / CH);
    DivMod(b + c, CH, b / CH, c);
    ModMod(b + c, CH, TWO32 / CH);
    ModMod((b + c) % TWO32, CH, RING_DEPTH / CH);
  }

  lemma PureStep(s: Regs, i: Inputs, p: (nat, Word) -> bool)
    requires Aligned(s) && i.Valid() && Pure(s.rings, p) && (s.vld ==> p(s.samp.chan, s.samp.word))
    ensures Aligned(Next(s, i)) && Pure(Next(s, i).rings, p)
  {
    WriteAddrChannel(s);
    assert s.samp.chan == CH * (s.samp.chan / CH) + s.samp.chan % CH;
  }

  /** Whatever the host sends, whatever is dropped, however reads and writes interleave: address a
      of ring k only ever holds samples of channel 8k + a mod 8, and the grid stays aligned. */
  lemma {:induction false} ChannelPurity(st: seq<Regs>, ins: seq<Inputs>, n: nat, p: (nat, Word) -> bool)
    requires Trace(st, ins) && n <= |ins| && Aligned(st[0]) && Pure(st[0].rings, p)
    requires st[0].vld ==> p(st[0].samp.chan, st[0].samp.word)
    requires forall j :: 0 <= j < n && ins[j].readable ==> p(ins[j].usb.chan, ins[j].usb.word)
    ensures Aligned(st[n]) && Pure(st[n].rings, p)
    ensures st[n].vld ==> p(st[n].samp.chan, st[n].samp.word)
  {
    if n > 0 {
      ChannelPurity(st, ins, n - 1, p);
      assert StepsAt(st, ins, n - 1);
      PureStep(st[n - 1], ins[n - 1], p);
    }
  }

  // ---- freshness ------------------------------------------------------------------------------------

  /** The same run on unbounded pointers: the writer's base, and the last word written to each
      (ring, address). */
  datatype History = History(base: nat, last: map<(nat, nat), Word>)

  function TrueBase(s: Regs, h: History): nat {
    if NewFrame(s) then h.base + CH else h.base
  }

  function Record(h: History, s: Regs, i: Inputs): History {
    var now := TrueBase(s, h);
    var k := s.samp.chan / CH;
    History(now, if Writes(s, i) && k < STREAMS then h.last[(k, now + s.samp.chan % CH) := s.samp.word] else h.last)
  }

  ghost function Histories(st: seq<Regs>, ins: seq<Inputs>, h0: History, n: nat): History
    requires Trace(st, ins) && n <= |ins|
  {
    if n == 0 then h0 else Record(Histories(st, ins, h0, n - 1), st[n - 1], ins[n - 1])
  }

  /** The writer has not come round to unbounded address a again. */
  predicate NotLapped(base: nat, a: nat) {
    a + RING_DEPTH >= base + CH
  }

  ghost predicate Holds(rings: seq<seq<Word>>, h: History) {
    |rings| == STREAMS && (forall k :: 0 <= k < STREAMS ==> |rings[k]| == RING_DEPTH)
    && forall k, a :: (k, a) in h.last ==>
      k < STREAMS && a < h.base + CH
      && (NotLapped(h.base, a) ==> rings[k][a % RING_DEPTH] == h.last[(k, a)])
  }

  ghost predicate Fresh(s: Regs, h: History) {
    s.Valid() && s.frameBase == h.base % TWO32 && h.base % CH == 0 && Holds(s.rings, h)
  }

  /** One write inside the writer's current frame. */
  lemma HoldsWrite(rings: seq<seq<Word>>, h: History, k: nat, at: nat, w: Word)
    requires Holds(rings, h) && k < STREAMS && h.base <= at < h.base + CH
    ensures Holds(rings[k := rings[k][at % RING_DEPTH := w]], h.(last := h.last[(k, at) := w]))
  {
    forall a: nat | a < h.base + CH && NotLapped(h.base, a) && a != at
      ensures a % RING_DEPTH != at % RING_DEPTH
    {
      SameCell(a, at);
    }
  }

  lemma FreshPointers(s: Regs, h: History)
    requires s.frameBase == h.base % TWO32 && h.base % CH == 0
    ensures BaseNow(s) == TrueBase(s, h) % TWO32 && TrueBase(s, h) % CH == 0
    ensures WriteAddr(s) == (TrueBase(s, h) + s.samp.chan % CH) % RING_DEPTH
  {
    PointerWrap(h.base, s.frameBase);
    ModWithin(TrueBase(s, h), s.samp.chan % CH);
  }

  lemma FreshStep(s: Regs, i: Inputs, h: History)
    requires Fresh(s, h) && i.Valid()
    ensures Fresh(Next(s, i), Record(h, s, i))
  {
    var g := h.(base := TrueBase(s, h));
    var k := s.samp.chan / CH;
    FreshPointers(s, h);
    assert Holds(s.rings, g);
    if Writes(s, i) && k < STREAMS {
      HoldsWrite(s.rings, g, k, g.base + s.samp.chan % CH, s.samp.word);
    }
  }

  lemma ModWithin(x: int, c: nat)
    ensures (x % TWO32 + c) % TWO32 % RING_DEPTH == (x + c) % RING_DEPTH
  {
    var q := x / TWO32;
    ModMod(x % TWO32 + c, RING_DEPTH, TWO32 / RING_DEPTH);
    assert x + c == x % TWO32 + c + (q * 0x20_0000) * RING_DEPTH;
    ModAdd(x % TWO32 + c, q * 0x20_0000, RING_DEPTH);
  }

  /** A frame further on, on the register and on the unbounded pointer. */
  lemma PointerWrap(p: nat, r: nat)
    requires r == p % TWO32 && p % CH == 0
    ensures (r + CH) % TWO32 == (p + CH) % TWO32 && (p + CH) % CH == 0
  {
    var q := p / TWO32;
    assert p + CH == r + CH + q * TWO32;
    ModAdd(r + CH, q, TWO32);
    DivMod(p + CH, CH, p / CH + 1, 0);
  }

  /** Two addresses within one turn of the ring share a cell only if they are equal. */
  lemma SameCell(a: nat, b: nat)
    requires a != b && a < b + CH && a + RING_DEPTH > b
    ensures a % RING_DEPTH != b % RING_DEPTH
  {
  }

  /** In every run, a word read back before the writer has lapped its address is the last sample
      stored there. */
  lemma {:induction false} RingKeepsLastWrites(st: seq<Regs>, ins: seq<Inputs>, h0: History, n: nat)
    requires Trace(st, ins) && n <= |ins| && Fresh(st[0], h0)
    ensures Fresh(st[n], Histories(st, ins, h0, n))
  {
    if n > 0 {
      RingKeepsLastWrites(st, ins, h0, n - 1);
      assert StepsAt(st, ins, n - 1);
      FreshStep(st[n - 1], ins[n - 1], Histories(st, ins, h0, n - 1));
    }
  }

  lemma FrozenStep(s: Regs, i: Inputs, h: History, k: nat, at: nat)
    requires Fresh(s, h) && i.Valid() && k < STREAMS && at < h.base && NotLapped(Record(h, s, i).base, at)
    ensures Next(s, i).rings[k][at % RING_DEPTH] == s.rings[k][at % RING_DEPTH]
    ensures var g := Record(h, s, i);
      ((k, at) in g.last <==> (k, at) in h.last) && ((k, at) in h.last ==> g.last[(k, at)] == h.last[(k, at)])
  {
    var now := TrueBase(s, h) + s.samp.chan % CH;
    FreshPointers(s, h);
    SameCell(at, now);
  }

  lemma BaseGrows(st: seq<Regs>, ins: seq<Inputs>, h0: History, a: nat, b: nat)
    requires Trace(st, ins) && a <= b <= |ins|
    ensures Histories(st, ins, h0, a).base <= Histories(st, ins, h0, b).base
    decreases b
  {
    if a < b {
      BaseGrows(st, ins, h0, a, b - 1);
    }
  }

  /** An address behind the writer keeps its word, and its history, until it is lapped. */
  lemma {:induction false} Frozen(st: seq<Regs>, ins: seq<Inputs>, h0: History, a: nat, b: nat, k: nat, at: nat)
    requires Trace(st, ins) && a <= b <= |ins| && k < STREAMS && Fresh(st[0], h0)
    requires at < Histories(st, ins, h0, a).base && NotLapped(Histories(st, ins, h0, b).base, at)
    ensures st[b].rings[k][at % RING_DEPTH] == st[a].rings[k][at % RING_DEPTH]
    ensures var g, h := Histories(st, ins, h0, b).last, Histories(st, ins, h0, a).last;
      ((k, at) in g <==> (k, at) in h) && ((k, at) in h ==> g[(k, at)] == h[(k, at)])
    decreases b
  {
    if a < b {
      BaseGrows(st, ins, h0, b - 1, b);
      BaseGrows(st, ins, h0, a, b - 1);
      Frozen(st, ins, h0, a, b - 1, k, at);
      RingKeepsLastWrites(st, ins, h0, b - 1);
      FrozenStep(st[b - 1], ins[b - 1], Histories(st, ins, h0, b - 1), k, at);
      assert StepsAt(st, ins, b - 1);
    }
  }

  /** A packet's look-back window of fpp frames behind the reader is intact exactly when the fill
      level leaves fpp + 1 frames of the ring free. */
  lemma LookBackIff(writer: nat, reader: nat, fpp: nat)
    requires writer % CH == 0 && reader % CH == 0 && 1 <= fpp && CH * fpp <= reader <= writer
    ensures (forall a :: reader - CH * fpp <= a < reader ==> NotLapped(writer, a))
      <==> writer - reader <= RING_DEPTH - CH * (fpp + 1)
  {
    if forall a :: reader - CH * fpp <= a < reader ==> NotLapped(writer, a) {
      assert NotLapped(writer, reader - CH * fpp);
    }
  }

  /** How far ahead of the reader the frame being written starts. */
  function Ahead(s: Regs, i: Inputs): int {
    Level(s.frameBase, i.rd) + if NewFrame(s) then CH else 0
  }

  lemma CellNow(s: Regs)
    ensures WriteAddr(s) == (s.frameBase + (if NewFrame(s) then CH else 0) + s.samp.chan % CH) % RING_DEPTH
  {
    var d, c := if NewFrame(s) then CH else 0, s.samp.chan % CH;
    if NewFrame(s) {
      ModWithin(s.frameBase + CH, c);
    } else {
      ModMod(s.frameBase + c, RING_DEPTH, TWO32 / RING_DEPTH);
    }
  }

  /** The write of this cycle and sample x of the window of f samples behind the reader, for the
      sample's own channel, share a cell exactly when the writer is that many frames short of a turn. */
  lemma SharesCellIff(s: Regs, i: Inputs, f: nat, x: nat)
    requires x < f <= 60 && 0 <= Ahead(s, i) <= RING_DEPTH
    ensures WriteAddr(s) == F.RingAddr(i.rd, f, x, s.samp.chan) <==> Ahead(s, i) == RING_DEPTH - CH * (f - x)
  {
    CellNow(s);
    CellsMeet(s.frameBase + (if NewFrame(s) then CH else 0), i.rd, s.samp.chan % CH, f, x);
  }

  lemma CellsMeet(writer: nat, rd: nat, c: nat, f: nat, x: nat)
    requires x < f <= 60 && 0 <= writer - rd <= RING_DEPTH
    ensures (writer + c) % RING_DEPTH == ((rd - CH * f) % TWO32 + CH * x + c) % TWO32 % RING_DEPTH
      <==> writer - rd == RING_DEPTH - CH * (f - x)
  {
    ModWithin(rd - CH * f, CH * x + c);
    ModDiff(writer + c, rd - CH * f + CH * x + c, RING_DEPTH);
    TurnIff(writer - rd + CH * (f - x));
  }

  lemma TurnIff(d: nat)
    requires 0 < d < 2 * RING_DEPTH
    ensures d % RING_DEPTH == 0 <==> d == RING_DEPTH
  {
  }

  /** A sample let through the gate overwrites one of the f samples of its channel behind the reader
      exactly when the frame it is written to starts fewer than f frames short of a turn ahead. */
  lemma WriteClobbersIff(s: Regs, i: Inputs, f: nat)
    requires Aligned(s) && i.Valid() && i.rd % CH == 0 && f <= 60 && Writes(s, i) && 0 <= Level(s.frameBase, i.rd)
    ensures (exists x: nat :: x < f && WriteAddr(s) == F.RingAddr(i.rd, f, x, s.samp.chan))
      <==> RING_DEPTH - CH * f <= Ahead(s, i) < RING_DEPTH
  {
    AheadAligned(s.frameBase, i.rd, NewFrame(s));
    forall x: nat | x < f
      ensures WriteAddr(s) == F.RingAddr(i.rd, f, x, s.samp.chan) <==> Ahead(s, i) == RING_DEPTH - CH * (f - x)
    {
      SharesCellIff(s, i, f, x);
    }
    if RING_DEPTH - CH * f <= Ahead(s, i) < RING_DEPTH {
      var x := f - (RING_DEPTH - Ahead(s, i)) / CH;
      assert WriteAddr(s) == F.RingAddr(i.rd, f, x, s.samp.chan);
    }
  }

  lemma AheadAligned(base: nat, rd: nat, first: bool)
    requires base % CH == 0 && rd % CH == 0 && HaveSpace(base - rd)
    ensures (base - rd) % CH == 0 && base - rd + (if first then CH else 0) <= RING_DEPTH
  {
    ModDiff(base, rd, CH);
  }

  /** The gate does not see to the look-back. At a level of 2040 it lets the rest of a frame through,
      and for every table entry the new word lands on the last sample the reader's window holds. */
  lemma HaveSpaceTooWide(s: Regs, i: Inputs, fppIdx: nat)
    requires Aligned(s) && i.Valid() && i.rd % CH == 0 && fppIdx < 8
    requires i.en && s.vld && s.started && !s.samp.first && s.samp.chan < CHANNELS
    requires Level(s.frameBase, i.rd) == 2040
    ensures Writes(s, i)
    ensures var at := F.RingAddr(i.rd, Fpp(fppIdx), Fpp(fppIdx) - 1, s.samp.chan);
      Next(s, i).rings[s.samp.chan / CH][at] == s.samp.word
  {
    SharesCellIff(s, i, Fpp(fppIdx), Fpp(fppIdx) - 1);
  }

  // ---- the level and the 32-bit wrap --------------------------------------------------------------

  /** The level register is the fill exactly when both pointers are on the same turn of their
      32-bit registers. */
  lemma LevelExactIff(writer: nat, reader: nat)
    ensures Level(writer % TWO32, reader % TWO32) == writer - reader <==> writer / TWO32 == reader / TWO32
  {
  }

  /** Once the writer has wrapped and the reader has not, the level of any healthy ring reads as a
      large negative number: the next edge un-primes it. */
  lemma WrapUnprimes(s: Regs, i: Inputs, writer: nat)
    requires s.Valid() && i.Valid() && s.frameBase == writer % TWO32
    requires writer / TWO32 == 1 && i.rd <= writer <= i.rd + RING_DEPTH
    ensures Level(s.frameBase, i.rd) < FRAME_SAMPLES && !Next(s, i).primed
  {
  }
}
