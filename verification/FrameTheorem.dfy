/** What BUILD, PREFETCH and STREAM put on the wire: for every shape, map, ring contents and
    ready pattern, the words of one frame, each once and in order. */
module FrameTheorem {
  import opened Arith
  import opened Bytes
  import opened Geometry
  import opened FrameBuilder

  // ---- the specified frame, by division rather than by counters ---------------------------------

  /** A flow as the geometry block shows it, and its payload samples in wire order. */
  datatype Packet = Packet(c: View, w: seq<Word>)
  {
    ghost predicate Valid() {
      FramesSamples(c, |w|)
    }

    /** Whole words before the last three bytes; every valid packet is. */
    ghost predicate Framed() {
      |c.header| == HDR_LEN && |w| > 0 && |w| % 4 == 0
    }

    function Total(): nat { HDR_LEN + 3 * |w| }

    function Last(): nat { 12 + 3 * (|w| / 4) }

    /** Byte k: the header, then three bytes a sample, most significant first. */
    function ByteAt(k: nat): byte
      requires |c.header| == HDR_LEN && k < Total()
    {
      if k < HDR_LEN then c.header[k] else SampleByte(w[(k - HDR_LEN) / 3], (k - HDR_LEN) % 3)
    }

    /** Word k of the frame RAM. The final word is what the last-byte write leaves there. */
    function WordAt(k: nat): Word
      requires |c.header| == HDR_LEN && |w| > 0 && k <= Last()
    {
      if k < Last() then Word(ByteAt(4 * k), ByteAt(4 * k + 1), ByteAt(4 * k + 2), ByteAt(4 * k + 3))
      else Word(ByteAt(Total() - 3), ByteAt(Total() - 1), 0, 0)
    }

    function BeatAt(k: nat): Beat
      requires |c.header| == HDR_LEN && |w| > 0 && k <= Last()
    {
      Beat(WordAt(k), k == Last(), if k == Last() then 4 else 15)
    }

    function Beats(): (b: seq<Beat>)
      requires |c.header| == HDR_LEN && |w| > 0
      ensures |b| == Last() + 1
    {
      seq(Last() + 1, k requires 0 <= k <= Last() => BeatAt(k))
    }
  }

  /** Sample j of the window that ends at the snapshot: slot j % nslots of sample j / nslots. */
  function WindowWord(rings: seq<seq<Word>>, snap: nat, c: View, j: nat): Word
    requires c.Valid() && 1 <= c.nslots <= 8 && |rings| == STREAMS
    requires forall k :: 0 <= k < 8 ==> c.slots[k].ch < CHANNELS
    requires forall k :: 0 <= k < STREAMS ==> |rings[k]| == RING_DEPTH
  {
    var e := c.slots[j % c.nslots];
    if e.valid then rings[e.ch / 8][RingAddr(snap, c.fpp, j / c.nslots, e.ch)] else SILENCE
  }

  /** During this cycle context k still shows packet p: same configuration and header, and the
      ring still holds its window; an un-primed packet is silence whatever the ring holds. */
  ghost predicate Shows(i: Inputs, k: nat, p: Packet, primed: bool)
    requires k < N_CTX
  {
    i.Valid() && p.Valid() && i.views[k] == p.c
    && forall j :: 0 <= j < |p.w| ==>
      p.w[j] == if primed then WindowWord(i.rings, i.rdSnap, p.c, j) else SILENCE
  }

  /** The same for a builder that has reached state s: the packet has to be shown only while BUILD
      reads it; from PREFETCH on the frame is in its RAM and only its length still counts. */
  ghost predicate ShowsWhileBuilt(s: Regs, i: Inputs, k: nat, p: Packet)
    requires k < N_CTX
  {
    i.Valid() && i.views[k].lastIdx == p.c.lastIdx && (s.fsm == Build ==> Shows(i, k, p, s.pktPrimed))
  }

  // ---- where the pipeline stands at byte b ------------------------------------------------------

  /** Samples whose address has been put on the ring by byte b. */
  function FetchPos(b: nat): nat {
    if b == 0 then 0 else if b <= HDR_LEN then 1 else 1 + (b - HDR_LEN) / 3
  }

  /** The sample byte b belongs to (the first one while the header goes out). */
  function SamplePos(b: nat): nat {
    if b < HDR_LEN then 0 else (b - HDR_LEN) / 3
  }

  ghost predicate CountersAt(n: Counters, p: Packet, primed: bool)
    requires p.Valid()
  {
    n.byteIdx < p.Total()
    && n.bph == (if n.byteIdx < HDR_LEN then 0 else (n.byteIdx - HDR_LEN) % 3)
    && (primed ==> n.slot == FetchPos(n.byteIdx) % p.c.nslots && n.samp == FetchPos(n.byteIdx) / p.c.nslots)
  }

  ghost predicate PipeAt(q: Pipe, b: nat, p: Packet, primed: bool)
    requires p.Valid() && b < p.Total() && |q.dat| == STREAMS
  {
    (primed && b >= 1 && FetchPos(b - 1) < |p.w| ==> Fetched(q) == p.w[FetchPos(b - 1)])
    && (b >= 2 && SamplePos(b) < |p.w| ==> q.hold == p.w[SamplePos(b)])
  }

  ghost predicate LanesAt(l: Lanes, b: nat, p: Packet)
    requires p.Valid() && b < p.Total()
  {
    (b % 4 >= 1 ==> l.w0 == p.ByteAt(b - b % 4))
    && (b % 4 >= 2 ==> l.w1 == p.ByteAt(b - b % 4 + 1))
    && (b % 4 == 3 ==> l.w2 == p.ByteAt(b - 1))
  }

  ghost predicate WordsUpTo(frame: seq<Word>, n: nat, p: Packet)
    requires p.Valid() && |frame| == 512
  {
    |p.w| > 0 && n <= p.Last() + 1 <= 512 && forall q :: 0 <= q < n ==> frame[q] == p.WordAt(q)
  }

  /** Context k of packet p is being built or streamed. */
  ghost predicate Serving(s: Regs, k: nat, p: Packet)
  {
    s.Valid() && p.Valid() && s.ctx == k && k < N_CTX
    && match s.fsm
       case Build =>
         CountersAt(s.cnt, p, s.pktPrimed) && PipeAt(s.pipe, s.cnt.byteIdx, p, s.pktPrimed)
         && LanesAt(s.lanes, s.cnt.byteIdx, p) && WordsUpTo(s.frame, s.cnt.byteIdx / 4, p)
       case Prefetch => s.rdIdx == 0 && WordsUpTo(s.frame, p.Last() + 1, p)
       case Stream => s.rdIdx <= p.Last() && WordsUpTo(s.frame, p.Last() + 1, p) && s.frDat == s.frame[s.rdIdx]
       case _ => false
  }

  /** Words of the frame already accepted. */
  function Position(s: Regs): nat {
    if s.fsm == Stream then s.rdIdx else 0
  }

  /** The slot and sample registers count through the window, sixteen-slot and 256-sample wraps
      never being reached. */
  lemma FetchStep(f: nat, c: View)
    requires 1 <= c.nslots <= 8 && f <= 60 * c.nslots
    ensures NextSlot(c, f % c.nslots) == (f + 1) % c.nslots
    ensures NextSamp(c, f % c.nslots, f / c.nslots) == (f + 1) / c.nslots
  {
    var n := c.nslots;
    NextPosition(f, n);
    QuotientBound(f, n, 60);
  }

  /** FetchPos and the byte phase, one byte on. */
  lemma BytePhase(b: nat)
    ensures FetchPos(b + 1) == FetchPos(b) + if b == 0 || (b >= HDR_LEN && (b - HDR_LEN) % 3 == 2) then 1 else 0
    ensures b >= HDR_LEN ==> SamplePos(b + 1) == SamplePos(b) + if (b - HDR_LEN) % 3 == 2 then 1 else 0
    ensures b >= HDR_LEN ==>
      (b + 1 - HDR_LEN) % 3 == if (b - HDR_LEN) % 3 == 2 then 0 else (b - HDR_LEN) % 3 + 1
  {
  }

  lemma FetchBound(b: nat, m: nat)
    requires b < HDR_LEN + 3 * m && m > 0
    ensures SamplePos(b) < m && FetchPos(b) <= m
  {
  }

  /** Not the last byte: both counters of the wire move on. */
  lemma WireCounters(n: Counters, p: Packet, primed: bool)
    requires p.Valid() && n.byteIdx + 1 < p.Total()
    requires n.bph == (if n.byteIdx < HDR_LEN then 0 else (n.byteIdx - HDR_LEN) % 3)
    ensures var m := NextCounters(n, p.c, primed);
      m.byteIdx == n.byteIdx + 1 && m.bph == (if m.byteIdx < HDR_LEN then 0 else (m.byteIdx - HDR_LEN) % 3)
  {
    LastIndex(p.c.total);
    BytePhase(n.byteIdx);
    assert n.byteIdx + 1 < 2048 && n.bph < 3;
  }

  lemma LastIndex(total: nat)
    requires 1 <= total < 2048
    ensures (total + 2047) % 2048 == total - 1
  {
  }

  lemma CountersStep(n: Counters, p: Packet, primed: bool)
    requires p.Valid() && CountersAt(n, p, primed) && n.byteIdx + 1 < p.Total()
    ensures CountersAt(NextCounters(n, p.c, primed), p, primed)
    ensures NextCounters(n, p.c, primed).byteIdx == n.byteIdx + 1
  {
    var b := n.byteIdx;
    WireCounters(n, p, primed);
    FetchBound(b, |p.w|);
    FetchStep(FetchPos(b), p.c);
    BytePhase(b);
  }

  /** The word whose address went out this cycle is the window's word at the fetch position. */
  lemma FetchedWord(s: Regs, i: Inputs, k: nat, p: Packet)
    requires s.Valid() && k < N_CTX && s.ctx == k && Shows(i, k, p, true)
    requires CountersAt(s.cnt, p, true) && FetchPos(s.cnt.byteIdx) < |p.w|
    ensures var e := MapEntry(p.c, s.cnt.slot);
      Fetched(Pipe(e.ch / 8, e.valid, NextDat(i.rings, ReadAddr(s, i)), s.pipe.hold)) == p.w[FetchPos(s.cnt.byteIdx)]
  {
    var f := FetchPos(s.cnt.byteIdx);
    assert p.w[f] == WindowWord(i.rings, i.rdSnap, p.c, f);
    assert s.cnt.slot == f % p.c.nslots < 8;
  }

  lemma PipeStep(s: Regs, i: Inputs, k: nat, p: Packet)
    requires s.Valid() && k < N_CTX && s.ctx == k && Shows(i, k, p, s.pktPrimed)
    requires CountersAt(s.cnt, p, s.pktPrimed) && PipeAt(s.pipe, s.cnt.byteIdx, p, s.pktPrimed)
    requires s.cnt.byteIdx + 1 < p.Total()
    ensures var e := MapEntry(p.c, s.cnt.slot);
      PipeAt(Pipe(e.ch / 8, e.valid, NextDat(i.rings, ReadAddr(s, i)), NextHold(s.cnt, s.pipe, s.pktPrimed)),
             s.cnt.byteIdx + 1, p, s.pktPrimed)
  {
    var b := s.cnt.byteIdx;
    FetchBound(b, |p.w|);
    BytePhase(b);
    if b >= 1 {
      BytePhase(b - 1);
    }
    if s.pktPrimed && FetchPos(b) < |p.w| {
      FetchedWord(s, i, k, p);
    }
  }

  /** The byte leaving BUILD is the frame's byte. */
  lemma BuiltByte(s: Regs, i: Inputs, k: nat, p: Packet)
    requires s.Valid() && k < N_CTX && s.ctx == k && Shows(i, k, p, s.pktPrimed)
    requires CountersAt(s.cnt, p, s.pktPrimed) && PipeAt(s.pipe, s.cnt.byteIdx, p, s.pktPrimed)
    ensures CurByte(s.cnt.byteIdx, s.cnt.bph, s.pipe.hold, p.c.header) == p.ByteAt(s.cnt.byteIdx)
  {
    FetchBound(s.cnt.byteIdx, |p.w|);
  }

  lemma LanesStep(l: Lanes, b: nat, p: Packet)
    requires p.Valid() && b + 1 < p.Total() && LanesAt(l, b, p)
    ensures LanesAt(NextLanes(l, b, p.ByteAt(b)), b + 1, p)
  {
    NextPosition(b, 4);
  }

  lemma WordStep(frame: seq<Word>, l: Lanes, b: nat, p: Packet)
    requires p.Valid() && b < p.Total() && b < 2048 && LanesAt(l, b, p) && |frame| == 512
    requires WordsUpTo(frame, b / 4, p)
    ensures b + 1 < p.Total() ==> WordsUpTo(NextFrame(frame, b, l, p.ByteAt(b), p.c), (b + 1) / 4, p)
    ensures b + 1 == p.Total() ==> WordsUpTo(NextFrame(frame, b, l, p.ByteAt(b), p.c), p.Last() + 1, p)
  {
    NextPosition(b, 4);
    var q := b / 4;
    assert b == 4 * q + b % 4;
    if b + 1 == p.Total() {
      assert b == 4 * p.Last() + 2;
      DivMod(b, 4, p.Last(), 2);
    } else if b % 4 == 3 {
      assert q < p.Last();
    }
  }

  /** Ready to go: CHECK has just sent context k to BUILD. */
  lemma ServingStarts(s: Regs, k: nat, p: Packet)
    requires s.Valid() && p.Valid() && k < N_CTX && s.ctx == k && s.fsm == Build && s.cnt == RESTART
    ensures Serving(s, k, p)
  {
  }

  lemma BuildStepMid(s: Regs, i: Inputs, k: nat, p: Packet)
    requires Serving(s, k, p) && s.fsm == Build && Shows(i, k, p, s.pktPrimed)
    requires s.cnt.byteIdx + 1 < p.Total()
    ensures Serving(Next(s, i), k, p) && Next(s, i).fsm == Build
  {
    var b := s.cnt.byteIdx;
    BuiltByte(s, i, k, p);
    WordStep(s.frame, s.lanes, b, p);
    CountersStep(s.cnt, p, s.pktPrimed);
    PipeStep(s, i, k, p);
    LanesStep(s.lanes, b, p);
  }

  /** Registers after the last byte of BUILD. */
  lemma LastByteRegs(s: Regs, i: Inputs)
    requires s.Valid() && i.Valid() && s.fsm == Build && IsLastByte(s.cnt.byteIdx, Cfg(s, i))
    ensures var t, c := Next(s, i), Cfg(s, i);
      t.fsm == Prefetch && t.ctx == s.ctx && t.rdIdx == 0
      && t.frame == NextFrame(s.frame, s.cnt.byteIdx, s.lanes, CurByte(s.cnt.byteIdx, s.cnt.bph, s.pipe.hold, c.header), c)
  {
  }

  lemma BuildStepLast(s: Regs, i: Inputs, k: nat, p: Packet)
    requires Serving(s, k, p) && s.fsm == Build && Shows(i, k, p, s.pktPrimed)
    requires s.cnt.byteIdx + 1 == p.Total()
    ensures Serving(Next(s, i), k, p) && Next(s, i).fsm == Prefetch
  {
    LastIndex(p.c.total);
    LastByteRegs(s, i);
    BuiltByte(s, i, k, p);
    WordStep(s.frame, s.lanes, s.cnt.byteIdx, p);
  }

  lemma FillStep(s: Regs, i: Inputs, k: nat, p: Packet)
    requires Serving(s, k, p) && s.fsm != Stream && ShowsWhileBuilt(s, i, k, p)
    ensures Serving(Next(s, i), k, p) && Position(Next(s, i)) == 0
    ensures !Serve(s, i) && Accepted(s, i) == []
  {
    if s.fsm == Build {
      if s.cnt.byteIdx + 1 < p.Total() {
        BuildStepMid(s, i, k, p);
      } else {
        BuildStepLast(s, i, k, p);
      }
    }
  }

  lemma StreamOut(s: Regs, i: Inputs, k: nat, p: Packet)
    requires Serving(s, k, p) && s.fsm == Stream && i.Valid() && i.views[k].lastIdx == p.c.lastIdx
    ensures |p.w| > 0 && s.rdIdx <= p.Last()
    ensures Accepted(s, i) == if i.ready then [p.BeatAt(s.rdIdx)] else []
    ensures Serve(s, i) <==> i.ready && s.rdIdx == p.Last()
  {
    assert s.frDat == p.WordAt(s.rdIdx);
  }

  /** Registers of a step of STREAM that does not complete the frame. */
  lemma StreamRegs(s: Regs, i: Inputs)
    requires s.Valid() && i.Valid() && s.fsm == Stream && !Serve(s, i) && s.rdIdx < 511
    ensures var t := Next(s, i);
      t.fsm == Stream && t.ctx == s.ctx && t.frame == s.frame
      && t.rdIdx == s.rdIdx + (if i.ready then 1 else 0) && t.frDat == s.frame[t.rdIdx]
  {
  }

  lemma StreamStep(s: Regs, i: Inputs, k: nat, p: Packet)
    requires Serving(s, k, p) && s.fsm == Stream && i.Valid() && i.views[k].lastIdx == p.c.lastIdx
    ensures |p.w| > 0 && s.rdIdx <= p.Last()
    ensures Accepted(s, i) == if i.ready then [p.BeatAt(s.rdIdx)] else []
    ensures Serve(s, i) <==> i.ready && s.rdIdx == p.Last()
    ensures !Serve(s, i) ==> Serving(Next(s, i), k, p) && Next(s, i).fsm == Stream
    ensures !Serve(s, i) ==> Next(s, i).rdIdx == s.rdIdx + if i.ready then 1 else 0
  {
    StreamOut(s, i, k, p);
    if !Serve(s, i) {
      StreamRegs(s, i);
    }
  }

  lemma NextBeats(p: Packet, x: nat, ready: bool)
    requires p.Valid() && |p.w| > 0 && x <= p.Last()
    ensures (if ready then [p.BeatAt(x)] else []) == p.Beats()[x..x + if ready then 1 else 0]
  {
  }

  /** One cycle of a frame in progress: it stays in progress and the words accepted are the next
      ones of the frame, or its last word is accepted now. */
  lemma ServeStep(s: Regs, i: Inputs, k: nat, p: Packet)
    requires Serving(s, k, p) && ShowsWhileBuilt(s, i, k, p)
    ensures |p.w| > 0 && Position(s) <= p.Last()
    ensures Serve(s, i) ==> Position(s) == p.Last() && Accepted(s, i) == [p.BeatAt(p.Last())]
    ensures !Serve(s, i) ==> Serving(Next(s, i), k, p)
    ensures !Serve(s, i) ==> Position(s) <= Position(Next(s, i)) <= p.Last()
    ensures !Serve(s, i) ==> Accepted(s, i) == p.Beats()[Position(s)..Position(Next(s, i))]
  {
    if s.fsm == Stream {
      StreamStep(s, i, k, p);
      NextBeats(p, s.rdIdx, i.ready);
    } else {
      FillStep(s, i, k, p);
    }
  }

  lemma PrimedStays(s: Regs, i: Inputs, k: nat, p: Packet)
    requires Serving(s, k, p) && i.Valid()
    ensures Next(s, i).pktPrimed == s.pktPrimed
  {
  }

  /** No frame is completed in the first n cycles. */
  ghost predicate NoServeBefore(st: seq<Regs>, ins: seq<Inputs>, n: nat)
    requires Trace(st, ins) && n <= |ins|
  {
    forall j :: 0 <= j < n ==> !Serve(st[j], ins[j])
  }

  ghost predicate UnderWay(s: Regs) {
    s.fsm in {Build, Prefetch, Stream}
  }

  lemma UnderWayStep(s: Regs, i: Inputs)
    requires s.Valid() && i.Valid() && UnderWay(s) && !Serve(s, i)
    ensures UnderWay(Next(s, i)) && Next(s, i).pktPrimed == s.pktPrimed
  {
  }

  /** A packet is silence or audio as a whole. */
  lemma {:induction false} PrimedThroughout(st: seq<Regs>, ins: seq<Inputs>, n: nat)
    requires Trace(st, ins) && n <= |ins| && UnderWay(st[0]) && NoServeBefore(st, ins, n)
    ensures UnderWay(st[n]) && st[n].pktPrimed == st[0].pktPrimed
  {
    if n > 0 {
      PrimedThroughout(st, ins, n - 1);
      UnderWayStep(st[n - 1], ins[n - 1]);
      assert StepsAt(st, ins, n - 1);
    }
  }

  /** At cycle j context k still shows packet p, as far as the builder still needs it. */
  ghost predicate ShownAt(st: seq<Regs>, ins: seq<Inputs>, j: nat, k: nat, p: Packet)
    requires Trace(st, ins) && j < |ins| && k < N_CTX
  {
    ShowsWhileBuilt(st[j], ins[j], k, p)
  }

  lemma Splice(b: seq<Beat>, x: nat, y: nat)
    requires x <= y <= |b|
    ensures b[..x] + b[x..y] == b[..y]
  {
  }

  lemma ServeStepAt(st: seq<Regs>, ins: seq<Inputs>, j: nat, k: nat, p: Packet)
    requires Trace(st, ins) && j < |ins| && Serving(st[j], k, p) && ShownAt(st, ins, j, k, p)
    requires !Serve(st[j], ins[j])
    ensures Serving(st[j + 1], k, p) && st[j + 1].pktPrimed == st[j].pktPrimed && |p.w| > 0
    ensures Position(st[j]) <= Position(st[j + 1]) <= p.Last()
    ensures Accepted(st[j], ins[j]) == p.Beats()[Position(st[j])..Position(st[j + 1])]
  {
    assert StepsAt(st, ins, j);
    ServeStep(st[j], ins[j], k, p);
    PrimedStays(st[j], ins[j], k, p);
  }

  /** Accepted so far, and now. */
  lemma SentStep(st: seq<Regs>, ins: seq<Inputs>, n: nat, b: seq<Beat>, x: nat, y: nat)
    requires Trace(st, ins) && 0 < n <= |ins| && x <= y <= |b|
    requires Sent(st, ins, n - 1) == b[..x] && Accepted(st[n - 1], ins[n - 1]) == b[x..y]
    ensures Sent(st, ins, n) == b[..y]
  {
    Splice(b, x, y);
  }

  /** The frame is under way and what has been accepted is its beginning. */
  ghost predicate SentPrefix(st: seq<Regs>, ins: seq<Inputs>, n: nat, k: nat, p: Packet)
    requires Trace(st, ins) && n <= |ins|
  {
    Serving(st[n], k, p) && st[n].pktPrimed == st[0].pktPrimed
    && |p.w| > 0 && Position(st[n]) <= p.Last() && Sent(st, ins, n) == p.Beats()[..Position(st[n])]
  }

  lemma SentPrefixStep(st: seq<Regs>, ins: seq<Inputs>, n: nat, k: nat, p: Packet)
    requires Trace(st, ins) && 0 < n <= |ins| && SentPrefix(st, ins, n - 1, k, p)
    requires !Serve(st[n - 1], ins[n - 1]) && k < N_CTX && ShownAt(st, ins, n - 1, k, p)
    ensures SentPrefix(st, ins, n, k, p)
  {
    ServeStepAt(st, ins, n - 1, k, p);
    SentStep(st, ins, n, p.Beats(), Position(st[n - 1]), Position(st[n]));
  }

  /** Until it completes, what has been accepted is a prefix of the frame. */
  lemma {:induction false} FrameInProgress(st: seq<Regs>, ins: seq<Inputs>, n: nat, k: nat, p: Packet)
    requires Trace(st, ins) && n <= |ins| && Serving(st[0], k, p) && st[0].fsm != Stream
    requires NoServeBefore(st, ins, n)
    requires forall j :: 0 <= j < n ==> ShownAt(st, ins, j, k, p)
    ensures SentPrefix(st, ins, n, k, p)
  {
    if n > 0 {
      FrameInProgress(st, ins, n - 1, k, p);
      SentPrefixStep(st, ins, n, k, p);
    }
  }

  /** THE FRAME THEOREM. From the cycle CHECK has handed context k to BUILD, and while k shows one
      packet to the end of BUILD: up to any cycle n with no completion before it the sink has
      accepted a proper prefix of the packet's frame, and the completion at cycle n ends exactly the
      frame: every word once and in order, whatever the ready pattern. */
  lemma FrameOnTheWire(st: seq<Regs>, ins: seq<Inputs>, n: nat, k: nat, p: Packet)
    requires Trace(st, ins) && n < |ins| && k < N_CTX && p.Valid()
    requires st[0].ctx == k && st[0].fsm == Build && st[0].cnt == RESTART
    requires NoServeBefore(st, ins, n)
    requires forall j :: 0 <= j <= n ==> ShownAt(st, ins, j, k, p)
    ensures |p.w| > 0 && Sent(st, ins, n) < p.Beats()
    ensures Serve(st[n], ins[n]) ==> Sent(st, ins, n + 1) == p.Beats()
  {
    ServingStarts(st[0], k, p);
    FrameInProgress(st, ins, n, k, p);
    assert ShownAt(st, ins, n, k, p);
    ServeStep(st[n], ins[n], k, p);
    Splice(p.Beats(), p.Last(), p.Last() + 1);
  }

  // ---- the bytes a receiver gets ----------------------------------------------------------------

  /** The bytes of a beat that the MAC puts on the wire: last_be is a one-hot of the last one. */
  function BeatBytes(b: Beat): seq<byte> {
    if b.lastBe == 4 then [b.data.b0, b.data.b1, b.data.b2]
    else [b.data.b0, b.data.b1, b.data.b2, b.data.b3]
  }

  function WireBytes(bs: seq<Beat>): seq<byte> {
    if bs == [] then [] else WireBytes(bs[..|bs| - 1]) + BeatBytes(bs[|bs| - 1])
  }

  /** The frame as specified: all its bytes in order. */
  function FrameBytes(p: Packet): (s: seq<byte>)
    requires |p.c.header| == HDR_LEN
    ensures |s| == p.Total()
  {
    seq(p.Total(), k requires 0 <= k < p.Total() => p.ByteAt(k))
  }

  function Four(f: seq<byte>, k: nat): seq<byte>
    requires k + 4 <= |f|
  {
    [f[k], f[k + 1], f[k + 2], f[k + 3]]
  }

  lemma {:induction false} WholeWords(bs: seq<Beat>, f: seq<byte>)
    requires 4 * |bs| <= |f|
    requires forall q :: 0 <= q < |bs| ==> BeatBytes(bs[q]) == Four(f, 4 * q)
    ensures WireBytes(bs) == f[..4 * |bs|]
  {
    if bs != [] {
      var n := |bs| - 1;
      WholeWords(bs[..n], f);
      assert f[..4 * n] + Four(f, 4 * n) == f[..4 * n + 4];
    }
  }

  lemma BytesOfBeat(p: Packet, q: nat)
    requires p.Framed() && q < p.Last() && 4 * q + 4 <= p.Total()
    ensures BeatBytes(p.BeatAt(q)) == Four(FrameBytes(p), 4 * q)
  {
  }

  lemma HeadBytes(p: Packet)
    requires p.Framed()
    ensures 4 * p.Last() + 3 == p.Total()
    ensures WireBytes(p.Beats()[..p.Last()]) == FrameBytes(p)[..4 * p.Last()]
  {
    var head := p.Beats()[..p.Last()];
    forall q | 0 <= q < |head|
      ensures BeatBytes(head[q]) == Four(FrameBytes(p), 4 * q)
    {
      BytesOfBeat(p, q);
    }
    WholeWords(head, FrameBytes(p));
  }

  /** n whole words, then the last beat: byte 4n, the last byte and a zero. */
  lemma LastBeat(b: seq<Beat>, n: nat, f: seq<byte>)
    requires |b| == n + 1 && |f| == 4 * n + 3 && WireBytes(b[..n]) == f[..4 * n]
    requires b[n] == Beat(Word(f[4 * n], f[4 * n + 2], 0, 0), true, 4)
    ensures WireBytes(b) == f[..4 * n + 1] + [f[4 * n + 2], 0]
    ensures f == f[..4 * n + 1] + [f[4 * n + 1], f[4 * n + 2]]
  {
    assert f[..4 * n + 1] == f[..4 * n] + [f[4 * n]];
  }

  lemma LastBeatData(p: Packet)
    requires p.Framed()
    ensures var n, f := p.Last(), FrameBytes(p);
      |f| == 4 * n + 3 && p.Beats()[n] == Beat(Word(f[4 * n], f[4 * n + 2], 0, 0), true, 4)
  {
  }

  /** The frame as specified and as sent differ in their last two bytes, c and d, at most. */
  lemma Ends(p: Packet) returns (rest: seq<byte>, c: byte, d: byte)
    requires p.Framed()
    ensures FrameBytes(p) == rest + [c, d] && WireBytes(p.Beats()) == rest + [d, 0]
  {
    var n, f := p.Last(), FrameBytes(p);
    HeadBytes(p);
    LastBeatData(p);
    LastBeat(p.Beats(), n, f);
    rest, c, d := f[..4 * n + 1], f[4 * n + 1], f[4 * n + 2];
  }

  /** What the last-byte write does to the frame: the length is right, every byte before the last
      two is right, and in place of the last two go the last one and a zero. */
  lemma FrameAsSent(p: Packet)
    requires p.Framed()
    ensures WireBytes(p.Beats()) == FrameBytes(p)[..p.Total() - 2] + [p.ByteAt(p.Total() - 1), 0]
  {
    var rest, c, d := Ends(p);
    assert FrameBytes(p)[..p.Total() - 2] == rest && FrameBytes(p)[p.Total() - 1] == d;
  }

  /** The last two bytes of the specified frame. */
  lemma LastTwo(p: Packet, rest: seq<byte>, c: byte, d: byte)
    requires p.Framed() && FrameBytes(p) == rest + [c, d]
    ensures c == p.w[|p.w| - 1].b2 && d == p.w[|p.w| - 1].b1
  {
    var n, m := p.Total(), |p.w| - 1;
    assert FrameBytes(p)[n - 2] == c && FrameBytes(p)[n - 1] == d;
    DivMod(n - 2 - HDR_LEN, 3, m, 1);
    DivMod(n - 1 - HDR_LEN, 3, m, 2);
  }

  /** The frame on the wire is the specified one exactly when the last sample of the packet has
      nothing in the two lower bytes that are sent. */
  lemma FrameIntactIff(p: Packet)
    requires p.Framed()
    ensures WireBytes(p.Beats()) == FrameBytes(p) <==> p.w[|p.w| - 1].b2 == 0 && p.w[|p.w| - 1].b1 == 0
  {
    var rest, c, d := Ends(p);
    LastTwo(p, rest, c, d);
    SameTail(rest, [d, 0], [c, d]);
  }

  lemma SameTail(rest: seq<byte>, a: seq<byte>, b: seq<byte>)
    requires |a| == 2 && |b| == 2
    ensures rest + a == rest + b <==> a[0] == b[0] && a[1] == b[1]
  {
    if rest + a == rest + b {
      assert a == (rest + a)[|rest|..] == (rest + b)[|rest|..] == b;
    } else {
      assert a == [a[0], a[1]] && b == [b[0], b[1]];
    }
  }
}
