/** dante_tx_read_emitted: reading a pair of registers, which the gateware updates together, one
    register at a time. */
module Seqlock {
  import opened Bytes
  import opened Geometry
  import K = Packetizer
  import P = MediaPacer
  import S = StreamTheorem

  const TRIES := 4
  const READS := 3 * TRIES + 2

  /** The writer's seconds never go back. */
  ghost predicate Monotone(regs: seq<K.Stamp>) {
    forall j, k :: 0 <= j <= k < |regs| ==> regs[j].sec <= regs[k].sec
  }

  predicate Agrees(regs: seq<K.Stamp>, i: nat)
    requires |regs| == READS && i < TRIES
  {
    regs[3 * i].sec == regs[3 * i + 2].sec
  }

  /** Up to four tries, then an unprotected read; regs is what the two registers hold at each of the
      reader's accesses, under any interleaving with the writer. tries is the try that agreed, or 4. */
  method ReadEmitted(regs: seq<K.Stamp>) returns (sec: nat, sub: nat, tries: nat)
    requires |regs| == READS
    ensures tries <= TRIES && forall j :: 0 <= j < tries ==> !Agrees(regs, j)
    ensures tries < TRIES ==> Agrees(regs, tries) && sec == regs[3 * tries].sec && sub == regs[3 * tries + 1].sub
    ensures tries < TRIES && Monotone(regs) ==> K.Stamp(sec, sub) == regs[3 * tries + 1]
    ensures tries == TRIES ==> sec == regs[READS - 2].sec && sub == regs[READS - 1].sub
    ensures tries == TRIES && Monotone(regs) ==> regs[READS - 2].sec >= regs[0].sec + TRIES
  {
    tries := 0;
    while tries < TRIES
      invariant tries <= TRIES && forall j :: 0 <= j < tries ==> !Agrees(regs, j)
      invariant Monotone(regs) && tries > 0 ==> regs[3 * tries - 1].sec >= regs[0].sec + tries
    {
      var s1 := regs[3 * tries].sec;
      var sb := regs[3 * tries + 1].sub;
      var s2 := regs[3 * tries + 2].sec;
      if s1 == s2 {
        return s1, sb, tries;
      }
      tries := tries + 1;
    }
    sec, sub := regs[READS - 2].sec, regs[READS - 1].sub;
  }

  // ---- the writer ---------------------------------------------------------------------------------

  /** From cycle a on nothing loads the media counter, and its seconds do not reach the top of their
      register. */
  ghost predicate Undisturbed(st: seq<K.Regs>, ins: seq<K.Inputs>, a: nat)
    requires K.Trace(st, ins) && a <= |ins|
  {
    !st[a].pacer.loadPending && forall j :: a <= j < |ins| ==> !ins[j].load.re && st[j].pacer.sec < TWO32 - 1
  }

  /** Emitted, about to be emitted, and live seconds, in that order. */
  ghost predicate Ordered(s: K.Regs) {
    !s.pacer.loadPending && s.emitted.sec <= s.pacer.secEmit <= s.pacer.sec
  }

  lemma CounterForward(s: P.Regs, i: P.Inputs)
    requires s.Valid() && i.Valid() && !s.loadPending && !i.loadRe && s.sec < TWO32 - 1
    ensures var t := P.Next(s, i);
      !t.loadPending && s.sec <= t.sec && t.secEmit in {s.sec, s.secEmit}
  {
  }

  lemma OrderedStep(s: K.Regs, i: K.Inputs)
    requires s.Valid() && i.Valid() && Ordered(s) && !i.load.re && s.pacer.sec < TWO32 - 1
    ensures Ordered(K.Next(s, i)) && s.emitted.sec <= K.Next(s, i).emitted.sec
  {
    CounterForward(s.pacer, K.PacerIn(s, i));
  }

  lemma OrderedStepAt(st: seq<K.Regs>, ins: seq<K.Inputs>, a: nat, j: nat)
    requires K.Trace(st, ins) && a <= j < |ins| && Undisturbed(st, ins, a) && Ordered(st[j])
    ensures Ordered(st[j + 1]) && st[j].emitted.sec <= st[j + 1].emitted.sec
  {
    OrderedStep(st[j], ins[j]);
    assert K.StepsAt(st, ins, j);
  }

  lemma {:induction false} EmittedForward(st: seq<K.Regs>, ins: seq<K.Inputs>, a: nat, b: nat, c: nat)
    requires K.Trace(st, ins) && a <= b <= c <= |ins| && Undisturbed(st, ins, a) && Ordered(st[a])
    ensures Ordered(st[c]) && st[b].emitted.sec <= st[c].emitted.sec
    decreases c
  {
    if a < c {
      EmittedForward(st, ins, a, if b < c then b else a, c - 1);
      OrderedStepAt(st, ins, a, c - 1);
    }
  }

  /** The firmware's accesses fall in increasing clock cycles of a run. */
  ghost predicate ReadsAt(st: seq<K.Regs>, at: seq<nat>, regs: seq<K.Stamp>, a: nat) {
    |at| == READS && |regs| == READS
    && (forall k :: 0 <= k < READS ==> a <= at[k] < |st| && regs[k] == st[at[k]].emitted)
    && forall j, k :: 0 <= j <= k < READS ==> at[j] <= at[k]
  }

  /** What try i would return was in the registers together, at its middle access. */
  predicate HeldTogether(regs: seq<K.Stamp>, i: nat)
    requires |regs| == READS && i < TRIES
  {
    K.Stamp(regs[3 * i].sec, regs[3 * i + 1].sub) == regs[3 * i + 1]
  }

  /** The emit registers hold e before cycle j. */
  ghost predicate Holds(st: seq<K.Regs>, j: nat, e: K.Stamp) {
    j < |st| && st[j].emitted == e
  }

  /** A reader that finds e in the registers, then f, then g, with e and g of one second and f of
      another, agrees; the pair it returns was in the registers at none of its accesses, unless the
      samples of f are those of e or g as well. */
  lemma GoingBackFools(st: seq<K.Regs>, a: nat, b: nat, c: nat, e: K.Stamp, f: K.Stamp, g: K.Stamp)
    returns (at: seq<nat>, regs: seq<K.Stamp>)
    requires a <= b <= c && Holds(st, a, e) && Holds(st, b, f) && Holds(st, c, g) && e.sec == g.sec != f.sec
    ensures ReadsAt(st, at, regs, a) && Agrees(regs, 0) && !HeldTogether(regs, 0)
    ensures K.Stamp(regs[0].sec, regs[1].sub) == K.Stamp(e.sec, f.sub)
    ensures K.Stamp(e.sec, f.sub) in regs <==> f.sub in {e.sub, g.sub}
  {
    at := seq(READS, k => if k == 0 then a else if k == 1 then b else c);
    regs := seq(READS, k => if k == 0 then e else if k == 1 then f else g);
    assert regs[0] == e && regs[1] == f && regs[2] == g;
  }

  /** From cycle a on the emitted seconds never come back to a value they have left. */
  ghost predicate NeverReturns(st: seq<K.Regs>, a: nat) {
    forall x, y, z :: a <= x <= y <= z < |st| && st[x].emitted.sec == st[z].emitted.sec ==>
      st[y].emitted.sec == st[x].emitted.sec
  }

  lemma ReadsFromEarlier(st: seq<K.Regs>, at: seq<nat>, regs: seq<K.Stamp>, x: nat, a: nat)
    requires ReadsAt(st, at, regs, x) && a <= x
    ensures ReadsAt(st, at, regs, a)
  {
  }

  /** Agreement is worth something exactly when the seconds never come back: every agreeing try of
      every read, whatever the cycles of its accesses, gives a pair held together, if and only if. */
  lemma AgreementSoundIff(st: seq<K.Regs>, a: nat)
    ensures (forall at, regs, i :: ReadsAt(st, at, regs, a) && 0 <= i < TRIES && Agrees(regs, i) ==> HeldTogether(regs, i))
      <==> NeverReturns(st, a)
  {
    if NeverReturns(st, a) {
      forall at, regs, i | ReadsAt(st, at, regs, a) && 0 <= i < TRIES && Agrees(regs, i)
        ensures HeldTogether(regs, i)
      {
        assert at[3 * i] <= at[3 * i + 1] <= at[3 * i + 2];
      }
    } else {
      var x, y, z :| a <= x <= y <= z < |st| && st[x].emitted.sec == st[z].emitted.sec != st[y].emitted.sec;
      var at, regs := GoingBackFools(st, x, y, z, st[x].emitted, st[y].emitted, st[z].emitted);
      ReadsFromEarlier(st, at, regs, x, a);
    }
  }

  /** Between re-anchors the gateware's seconds never come back. */
  lemma GatewareNeverReturns(st: seq<K.Regs>, ins: seq<K.Inputs>, a: nat)
    requires K.Trace(st, ins) && a <= |ins| && Undisturbed(st, ins, a) && Ordered(st[a])
    ensures NeverReturns(st, a)
  {
    forall x, y, z | a <= x <= y <= z < |st| && st[x].emitted.sec == st[z].emitted.sec
      ensures st[y].emitted.sec == st[x].emitted.sec
    {
      EmittedForward(st, ins, a, x, y);
      EmittedForward(st, ins, a, y, z);
    }
  }

  /** So then, whatever the cycles of its accesses, a read that agrees returns a stamp the emit
      registers really held. */
  lemma AgreementAgainstGateware(st: seq<K.Regs>, ins: seq<K.Inputs>, a: nat, at: seq<nat>, regs: seq<K.Stamp>, i: nat)
    requires K.Trace(st, ins) && a <= |ins| && Undisturbed(st, ins, a) && Ordered(st[a])
    requires ReadsAt(st, at, regs, a) && i < TRIES && Agrees(regs, i)
    ensures K.Stamp(regs[3 * i].sec, regs[3 * i + 1].sub) == st[at[3 * i + 1]].emitted
  {
    GatewareNeverReturns(st, ins, a);
    AgreementSoundIff(st, a);
    assert HeldTogether(regs, i);
  }

  // ---- and a re-anchor that takes the seconds back ---------------------------------------------------

  /** The live counter of a cycle, with the offset added. */
  function StampOf(s: K.Regs, i: K.Inputs): K.Stamp {
    K.Stamp(s.pacer.sec, (s.pacer.sub + i.load.offset) % TWO32)
  }

  /** The strobe of cycle j takes a snapshot, e, that the idle builder hands to the emit registers. */
  ghost predicate Emits(st: seq<K.Regs>, ins: seq<K.Inputs>, j: nat, e: K.Stamp)
    requires K.Trace(st, ins)
  {
    j + 1 < |ins| && K.DoEmit(st[j + 1]) && ins[j + 1].en && e == StampOf(st[j], ins[j])
  }

  lemma SnapStep(s: K.Regs, i: K.Inputs)
    requires s.Valid() && i.Valid() && K.Next(s, i).pacer.sendReq
    ensures var t := K.Next(s, i); K.Stamp(t.pacer.secEmit, t.pacer.subEmit) == StampOf(s, i)
  {
  }

  lemma EmitStep(s: K.Regs, i: K.Inputs)
    requires s.Valid() && i.Valid() && K.DoEmit(s) && i.en
    ensures K.Next(s, i).emitted == K.Stamp(s.pacer.secEmit, s.pacer.subEmit)
  {
  }

  lemma EmittedIs(st: seq<K.Regs>, ins: seq<K.Inputs>, j: nat, e: K.Stamp)
    requires K.Trace(st, ins) && Emits(st, ins, j, e)
    ensures Holds(st, j + 2, e)
  {
    assert K.StepsAt(st, ins, j) && K.StepsAt(st, ins, j + 1);
    SnapStep(st[j], ins[j]);
    EmitStep(st[j + 1], ins[j + 1]);
  }

  lemma LoadTaken(s: P.Regs, i: P.Inputs)
    requires s.Valid() && i.Valid() && s.loadPending && P.Strobe(i)
    ensures var t := P.Next(s, i); t.sec == i.loadSec && t.sub == i.loadSub && !t.loadPending
  {
  }

  /** A pending load is adopted at cycle w, and the second loaded does not end before z. */
  ghost predicate LoadLasts(ps: seq<P.Regs>, pi: seq<P.Inputs>, w: nat, z: nat)
    requires P.Trace(ps, pi)
  {
    w < z <= |pi| && ps[w].loadPending && P.Strobe(pi[w])
    && (forall j :: w < j < z ==> !pi[j].loadRe)
    && pi[w].loadSub + P.Strobes(pi, w + 1, z) < SUBSEC_MAX
  }

  /** At w the seconds go to sec, and they stay there until z. */
  ghost predicate Reanchored(st: seq<K.Regs>, ins: seq<K.Inputs>, w: nat, z: nat, sec: nat)
    requires K.Trace(st, ins)
  {
    S.PacerRun(st, ins);
    LoadLasts(S.PacerSt(st), S.PacerIns(st, ins), w, z) && ins[w].load.sec == sec
  }

  /** Up to the end of the second loaded, the live seconds are those loaded. */
  lemma SecondsLoaded(ps: seq<P.Regs>, pi: seq<P.Inputs>, w: nat, z: nat)
    requires P.Trace(ps, pi) && LoadLasts(ps, pi, w, z)
    ensures ps[z].sec == pi[w].loadSec
  {
    LoadTaken(ps[w], pi[w]);
    assert P.StepsAt(ps, pi, w);
    P.IndexCountsStrobes(ps, pi, w + 1, z);
    SameSecond(pi[w].loadSec, pi[w].loadSub, P.Strobes(pi, w + 1, z), ps[z].sec, ps[z].sub);
  }

  lemma SecondsBack(st: seq<K.Regs>, ins: seq<K.Inputs>, w: nat, z: nat, sec: nat, g: K.Stamp)
    requires K.Trace(st, ins) && Reanchored(st, ins, w, z, sec) && Emits(st, ins, z, g)
    ensures g.sec == sec
  {
    S.PacerRun(st, ins);
    SecondsLoaded(S.PacerSt(st), S.PacerIns(st, ins), w, z);
  }

  lemma SameSecond(sec: nat, sub: nat, n: nat, toSec: nat, toSub: nat)
    requires sec < TWO32 && sub + n < SUBSEC_MAX && toSub < SUBSEC_MAX
    requires P.Index(toSec, toSub) == (P.Index(sec, sub) + n) % P.TOTAL
    ensures toSec == sec
  {
  }

  /** The gateware gets there: it emits e at x and f at y, is re-anchored back to the second of e at
      w, and emits g at z before that second ends. */
  lemma ReanchorGoesBack(st: seq<K.Regs>, ins: seq<K.Inputs>, x: nat, y: nat, w: nat, z: nat,
                         e: K.Stamp, f: K.Stamp, g: K.Stamp)
    requires K.Trace(st, ins) && x < y < w < z
    requires Emits(st, ins, x, e) && Emits(st, ins, y, f) && Emits(st, ins, z, g)
    requires Reanchored(st, ins, w, z, e.sec)
    ensures Holds(st, x + 2, e) && Holds(st, y + 2, f) && Holds(st, z + 2, g) && e.sec == g.sec
    ensures e.sec != f.sec ==> !NeverReturns(st, x)
  {
    EmittedIs(st, ins, x, e);
    EmittedIs(st, ins, y, f);
    EmittedIs(st, ins, z, g);
    SecondsBack(st, ins, w, z, e.sec, g);
  }
}
