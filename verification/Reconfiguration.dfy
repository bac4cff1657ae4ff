/** What a flow_cfg write in the middle of a frame does to it. The builder compares its byte and word
    indices with the lengths its context shows in the same cycle, for equality: an index already past
    a length that shrinks runs round its register. */
module Reconfiguration {
  import opened Arith
  import opened Geometry
  import opened FrameBuilder

  const WORDS := 512   // states of the word index
  const BYTES := 2048  // of the byte index

  /** An unbound context shows a header and no payload. */
  lemma UnboundShape(c: Context, sh: Shared, sec: nat, sub: nat)
    requires c.Valid() && sh.Valid() && c.nslots == 0
    ensures var v := ViewOf(c, sh, sec, sub); v.total == HDR_LEN && v.lastIdx == 12
  {
    assert PayLen(0, c.fppIdx) == 0;
  }

  // ---- in STREAM ------------------------------------------------------------------------------------

  /** Last word index shown to the builder in cycle j. */
  function LastAt(st: seq<Regs>, ins: seq<Inputs>, j: nat): nat
    requires j < |st| && j < |ins| && st[j].Valid() && ins[j].Valid()
  {
    Cfg(st[j], ins[j]).lastIdx
  }

  /** Cycles a..n in which the sink takes a word. */
  ghost function Taken(ins: seq<Inputs>, a: nat, n: nat): nat
    requires a <= n <= |ins|
  {
    if a == n then 0 else Taken(ins, a, n - 1) + if ins[n - 1].ready then 1 else 0
  }

  /** STREAM starts in cycle a, and its frame is not complete before cycle n. */
  ghost predicate Sending(st: seq<Regs>, ins: seq<Inputs>, a: nat, n: nat)
    requires Trace(st, ins)
  {
    a <= n < |ins| && st[a].fsm == Stream && st[a].rdIdx == 0 && forall j :: a <= j < n ==> !ServesAt(st, ins, j)
  }

  ghost predicate ServesAt(st: seq<Regs>, ins: seq<Inputs>, j: nat)
    requires Trace(st, ins) && j < |ins|
  {
    Serve(st[j], ins[j])
  }

  lemma WordStep(s: Regs, i: Inputs)
    requires s.Valid() && i.Valid() && s.fsm == Stream && !Serve(s, i)
    ensures var t := Next(s, i);
      t.fsm == Stream && t.ctx == s.ctx && t.rdIdx == (s.rdIdx + if i.ready then 1 else 0) % WORDS
  {
  }

  lemma OneOn(x: nat, d: nat)
    requires d <= 1
    ensures (x % WORDS + d) % WORDS == (x + d) % WORDS
  {
  }

  /** The word index is the number of words taken, as far as it goes; the frame completes when the two
      meet the last index shown at that moment. */
  lemma {:induction false} WordsTaken(st: seq<Regs>, ins: seq<Inputs>, a: nat, n: nat)
    requires Trace(st, ins) && Sending(st, ins, a, n)
    ensures st[n].fsm == Stream && st[n].ctx == st[a].ctx && st[n].rdIdx == Taken(ins, a, n) % WORDS
    ensures ServesAt(st, ins, n) <==> ins[n].ready && Taken(ins, a, n) % WORDS == LastAt(st, ins, n)
    decreases n
  {
    if a < n {
      WordsTaken(st, ins, a, n - 1);
      assert !ServesAt(st, ins, n - 1) && StepsAt(st, ins, n - 1);
      WordStep(st[n - 1], ins[n - 1]);
      OneOn(Taken(ins, a, n - 1), if ins[n - 1].ready then 1 else 0);
    }
  }

  /** Each of them is a word of one and the same frame: none is marked as its last. */
  lemma {:induction false} WordsSent(st: seq<Regs>, ins: seq<Inputs>, a: nat, n: nat)
    requires Trace(st, ins) && Sending(st, ins, a, n)
    ensures |Sent(st, ins, n)| == |Sent(st, ins, a)| + Taken(ins, a, n) && Sent(st, ins, a) <= Sent(st, ins, n)
    ensures forall k :: |Sent(st, ins, a)| <= k < |Sent(st, ins, n)| ==> !Sent(st, ins, n)[k].last
    decreases n
  {
    if a < n {
      WordsSent(st, ins, a, n - 1);
      WordsTaken(st, ins, a, n - 1);
      assert !ServesAt(st, ins, n - 1);
      MidWord(st[n - 1], ins[n - 1]);
    }
  }

  lemma MidWord(s: Regs, i: Inputs)
    requires s.Valid() && i.Valid() && s.fsm == Stream && !Serve(s, i)
    ensures |Accepted(s, i)| == if i.ready then 1 else 0
    ensures i.ready ==> !Accepted(s, i)[0].last
  {
  }

  /** Words of the frame that completes in cycle n: one for every cycle the sink took one. */
  ghost function FrameWords(ins: seq<Inputs>, a: nat, n: nat): nat
    requires a <= n < |ins|
  {
    Taken(ins, a, n) + 1
  }

  /** A frame ends with the words its context then calls for, or whole turns of 512 more; it is of
      the length called for exactly when it has not gone round. */
  lemma FrameLengthIff(st: seq<Regs>, ins: seq<Inputs>, a: nat, n: nat)
    requires Trace(st, ins) && Sending(st, ins, a, n) && ServesAt(st, ins, n)
    ensures FrameWords(ins, a, n) == LastAt(st, ins, n) + 1 + WORDS * (Taken(ins, a, n) / WORDS)
    ensures FrameWords(ins, a, n) == LastAt(st, ins, n) + 1 <==> Taken(ins, a, n) < WORDS
  {
    WordsTaken(st, ins, a, n);
  }

  ghost predicate IndexInside(st: seq<Regs>, ins: seq<Inputs>, a: nat, n: nat)
    requires Trace(st, ins) && a <= n < |ins|
  {
    forall j :: a <= j <= n ==> st[j].rdIdx <= LastAt(st, ins, j)
  }

  ghost predicate WordsInside(st: seq<Regs>, ins: seq<Inputs>, a: nat, n: nat)
    requires Trace(st, ins) && a <= n < |ins|
  {
    forall j :: a <= j <= n ==> Taken(ins, a, j) <= LastAt(st, ins, j)
  }

  lemma NotYetRound(st: seq<Regs>, ins: seq<Inputs>, a: nat, n: nat)
    requires Trace(st, ins) && Sending(st, ins, a, n) && (a < n ==> Taken(ins, a, n - 1) <= LastAt(st, ins, n - 1))
    ensures st[n].rdIdx == Taken(ins, a, n)
  {
    WordsTaken(st, ins, a, n);
    if a < n {
      WordsTaken(st, ins, a, n - 1);
      assert !ServesAt(st, ins, n - 1);
    }
  }

  /** A frame in progress never exceeds what its context calls for exactly when the last index shown
      is never behind the word index. */
  lemma {:induction false} NeverTooLongIff(st: seq<Regs>, ins: seq<Inputs>, a: nat, n: nat)
    requires Trace(st, ins) && Sending(st, ins, a, n)
    ensures WordsInside(st, ins, a, n) <==> IndexInside(st, ins, a, n)
    decreases n
  {
    if a == n {
      NotYetRound(st, ins, a, n);
    } else {
      NeverTooLongIff(st, ins, a, n - 1);
      InsideStep(st, ins, a, n);
      if WordsInside(st, ins, a, n - 1) {
        NotYetRound(st, ins, a, n);
      }
    }
  }

  lemma InsideStep(st: seq<Regs>, ins: seq<Inputs>, a: nat, n: nat)
    requires Trace(st, ins) && a < n < |ins|
    ensures WordsInside(st, ins, a, n) <==> WordsInside(st, ins, a, n - 1) && Taken(ins, a, n) <= LastAt(st, ins, n)
    ensures IndexInside(st, ins, a, n) <==> IndexInside(st, ins, a, n - 1) && st[n].rdIdx <= LastAt(st, ins, n)
  {
  }

  /** From cycle c on the builder is shown last index l. */
  ghost predicate Shows(st: seq<Regs>, ins: seq<Inputs>, c: nat, n: nat, l: nat)
    requires Trace(st, ins) && c <= n < |ins|
  {
    forall j :: c <= j <= n ==> LastAt(st, ins, j) == l
  }

  lemma {:induction false} NotRound(st: seq<Regs>, ins: seq<Inputs>, a: nat, c: nat, n: nat, l: nat, base: nat)
    requires Trace(st, ins) && Sending(st, ins, a, n) && a <= c <= n && Shows(st, ins, c, n, l)
    requires base <= Taken(ins, a, c) <= base + l && base % WORDS == 0
    ensures base <= Taken(ins, a, n) <= base + l
    decreases n
  {
    if c < n {
      NotRound(st, ins, a, c, n - 1, l, base);
      WordsTaken(st, ins, a, n - 1);
      assert !ServesAt(st, ins, n - 1) && LastAt(st, ins, n - 1) == l;
    }
  }

  /** The shape changes in cycle c, with w words taken, for one of last index l. If w is not past l the
      frame ends with l + 1 words; otherwise it runs on through word 511 and round to l, and has 512
      words more. */
  lemma ShapeChanged(st: seq<Regs>, ins: seq<Inputs>, a: nat, c: nat, n: nat, l: nat)
    requires Trace(st, ins) && Sending(st, ins, a, n) && a <= c <= n && Shows(st, ins, c, n, l)
    requires Taken(ins, a, c) < WORDS && ServesAt(st, ins, n)
    ensures FrameWords(ins, a, n) == if Taken(ins, a, c) <= l then l + 1 else l + 1 + WORDS
  {
    WordsTaken(st, ins, a, n);
    assert LastAt(st, ins, n) == l;
    if Taken(ins, a, c) <= l {
      NotRound(st, ins, a, c, n, l, 0);
    } else {
      RoundOnce(st, ins, a, c, n, l);
    }
  }

  lemma {:induction false} RoundOnce(st: seq<Regs>, ins: seq<Inputs>, a: nat, c: nat, n: nat, l: nat)
    requires Trace(st, ins) && Sending(st, ins, a, n) && a <= c <= n && Shows(st, ins, c, n, l)
    requires l < Taken(ins, a, c) < WORDS
    ensures l < Taken(ins, a, n) <= l + WORDS
    decreases n
  {
    if c < n {
      RoundOnce(st, ins, a, c, n - 1, l);
      WordsTaken(st, ins, a, n - 1);
      assert !ServesAt(st, ins, n - 1) && LastAt(st, ins, n - 1) == l;
    }
  }

  /** What the builder is shown of its context in cycle j is context cs[j], off, with some stamp. */
  ghost predicate OffAt(st: seq<Regs>, ins: seq<Inputs>, cs: seq<Context>, sh: Shared, stamps: seq<(nat, nat)>, j: nat)
    requires Trace(st, ins)
  {
    j < |ins| && j < |cs| && j < |stamps| && cs[j].Valid() && sh.Valid() && cs[j].nslots == 0
    && Cfg(st[j], ins[j]) == ViewOf(cs[j], sh, stamps[j].0, stamps[j].1)
  }

  /** A flow unbound with its thirteenth word gone and more to come is sent as one frame of 525 words. */
  lemma UnboundInStream(st: seq<Regs>, ins: seq<Inputs>, a: nat, c: nat, n: nat,
                        cs: seq<Context>, sh: Shared, stamps: seq<(nat, nat)>)
    requires Trace(st, ins) && Sending(st, ins, a, n) && a <= c <= n && ServesAt(st, ins, n)
    requires forall j :: c <= j <= n ==> OffAt(st, ins, cs, sh, stamps, j)
    requires 12 < Taken(ins, a, c) < WORDS
    ensures FrameWords(ins, a, n) == 525
  {
    forall j | c <= j <= n
      ensures LastAt(st, ins, j) == 12
    {
      assert OffAt(st, ins, cs, sh, stamps, j);
      UnboundShape(cs[j], sh, stamps[j].0, stamps[j].1);
    }
    ShapeChanged(st, ins, a, c, n, 12);
  }

  // ---- in BUILD -------------------------------------------------------------------------------------

  lemma ByteStep(s: Regs, i: Inputs)
    requires s.Valid() && i.Valid() && s.fsm == Build
    ensures var t, last := Next(s, i), s.cnt.byteIdx == (Cfg(s, i).total + BYTES - 1) % BYTES;
      t.ctx == s.ctx && t.fsm == (if last then Prefetch else Build)
      && t.cnt.byteIdx == if last then s.cnt.byteIdx else (s.cnt.byteIdx + 1) % BYTES
  {
  }

  /** Cycles BUILD goes on with its byte index at b and the frame's length at total: through the last
      byte if that is still to come, otherwise round the eleven-bit index to it. */
  function BuildCycles(b: nat, total: nat): nat
    requires b < BYTES
  {
    if b < total then total - b else total - b + BYTES
  }

  ghost predicate Totals(st: seq<Regs>, ins: seq<Inputs>, a: nat, n: nat, total: nat)
    requires Trace(st, ins) && a <= n <= |ins|
  {
    forall j :: a <= j < n ==> Cfg(st[j], ins[j]).total == total
  }

  /** From cycle a, in BUILD at byte b, the builder is shown length total: BUILD lasts exactly that
      long, on through byte 2047 and over the header again if b is past the end. */
  lemma {:induction false} BuildLasts(st: seq<Regs>, ins: seq<Inputs>, a: nat, n: nat, b: nat, total: nat)
    requires Trace(st, ins) && a <= n <= |ins| && st[a].fsm == Build && st[a].cnt.byteIdx == b
    requires b < BYTES && 0 < total < BYTES && Totals(st, ins, a, n, total) && n - a <= BuildCycles(b, total)
    ensures n - a < BuildCycles(b, total) ==> st[n].fsm == Build && st[n].cnt.byteIdx == (b + (n - a)) % BYTES
    ensures n - a == BuildCycles(b, total) ==> st[n].fsm == Prefetch
    decreases n
  {
    if a < n {
      BuildLasts(st, ins, a, n - 1, b, total);
      assert StepsAt(st, ins, n - 1) && Cfg(st[n - 1], ins[n - 1]).total == total;
      ByteOn(st[n - 1], ins[n - 1], b, n - 1 - a, total);
    }
  }

  /** BUILD, k cycles after byte b. */
  lemma ByteOn(s: Regs, i: Inputs, b: nat, k: nat, total: nat)
    requires s.Valid() && i.Valid() && s.fsm == Build && b < BYTES && s.cnt.byteIdx == (b + k) % BYTES
    requires Cfg(s, i).total == total && 0 < total < BYTES && k < BuildCycles(b, total)
    ensures var t := Next(s, i);
      if k + 1 == BuildCycles(b, total) then t.fsm == Prefetch
      else t.fsm == Build && t.cnt.byteIdx == (b + (k + 1)) % BYTES
  {
    ByteStep(s, i);
    Landing(b, k, total);
  }

  lemma Landing(b: nat, k: nat, total: nat)
    requires b < BYTES && 0 < total < BYTES && k < BuildCycles(b, total)
    ensures (b + k) % BYTES == (total + BYTES - 1) % BYTES <==> k == BuildCycles(b, total) - 1
    ensures ((b + k) % BYTES + 1) % BYTES == (b + (k + 1)) % BYTES
  {
  }
}
