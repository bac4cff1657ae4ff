/** TXFrameArbiter of dante_packetizer.py: several frame sources, one MAC sink, lowest index first,
    a grant held to the end of the frame. */
module TxArbiter {
  import opened Bytes

  datatype Beat = Beat(data: Word, lastBe: nat, error: nat, last: bool)

  datatype Offer = Idle | Valid(beat: Beat)

  /** One cycle: what every source drives, and the sink's ready. */
  datatype Inputs = Inputs(offers: seq<Offer>, ready: bool)

  datatype Regs = Regs(sel: nat, busy: bool)

  /** A beat the sink accepted, and the source it came from. */
  datatype Sent = Sent(src: nat, beat: Beat)

  predicate AnyValid(offers: seq<Offer>) {
    exists k :: 0 <= k < |offers| && offers[k].Valid?
  }

  /** k is the first source with something to send. */
  predicate Lowest(offers: seq<Offer>, k: nat) {
    k < |offers| && offers[k].Valid? && forall j :: 0 <= j < k ==> offers[j].Idle?
  }

  function FirstValid(offers: seq<Offer>): (k: nat)
    ensures if AnyValid(offers) then Lowest(offers, k) else k == |offers|
  {
    if offers == [] then 0
    else if offers[0].Valid? then 0
    else
      assert forall j :: 0 <= j < |offers| - 1 ==> offers[1..][j] == offers[j + 1];
      1 + FirstValid(offers[1..])
  }

  /** The granted source drives the output. */
  function Out(s: Regs, i: Inputs): Offer {
    if s.busy && s.sel < |i.offers| then i.offers[s.sel] else Idle
  }

  predicate ReadyTo(s: Regs, i: Inputs, k: nat) {
    s.busy && s.sel == k && i.ready
  }

  predicate EndsFrame(s: Regs, i: Inputs) {
    Out(s, i).Valid? && i.ready && Out(s, i).beat.last
  }

  function Next(s: Regs, i: Inputs): Regs {
    if !s.busy then (if AnyValid(i.offers) then Regs(FirstValid(i.offers), true) else s)
    else if EndsFrame(s, i) then s.(busy := false) else s
  }

  /** A run of n sources. */
  ghost predicate Trace(st: seq<Regs>, ins: seq<Inputs>, n: nat) {
    |st| == |ins| + 1 && st[0].sel < n
    && (forall j :: 0 <= j < |ins| ==> |ins[j].offers| == n)
    && (forall j :: 0 <= j < |ins| ==> StepsAt(st, ins, j))
  }

  ghost predicate StepsAt(st: seq<Regs>, ins: seq<Inputs>, j: nat)
    requires j < |ins| && j + 1 < |st|
  {
    st[j + 1] == Next(st[j], ins[j])
  }

  /** The hardware. */
  class Arbiter {
    var sel: nat
    var busy: bool

    ghost function Abs(): Regs
      reads this
    {
      Regs(sel, busy)
    }

    constructor ()
      ensures Abs() == Regs(0, false)
    {
      sel, busy := 0, false;
    }

    /** The priority encoder, from the highest index down. */
    method NextSel(offers: seq<Offer>) returns (k: nat, any: bool)
      ensures any == AnyValid(offers) && (any ==> Lowest(offers, k))
    {
      k, any := 0, false;
      for i := |offers| downto 0
        invariant any == exists j :: i <= j < |offers| && offers[j].Valid?
        invariant any ==> i <= k < |offers| && offers[k].Valid? && forall j :: i <= j < k ==> offers[j].Idle?
      {
        if offers[i].Valid? {
          k, any := i, true;
        }
      }
    }

    method Clock(i: Inputs) returns (out: Offer)
      modifies this
      ensures Abs() == Next(old(Abs()), i) && out == Out(old(Abs()), i)
    {
      out := if busy && sel < |i.offers| then i.offers[sel] else Idle;
      if !busy {
        var k, any := NextSel(i.offers);
        if any {
          sel, busy := k, true;
        }
      } else if out.Valid? && i.ready && out.beat.last {
        busy := false;
      }
    }
  }

  // ---- what crosses ------------------------------------------------------------------------------

  /** The beats the sink accepted in the first n cycles. */
  ghost function Log(st: seq<Regs>, ins: seq<Inputs>, n: nat): seq<Sent>
    requires n <= |ins| < |st|
  {
    if n == 0 then []
    else
      var s, i := st[n - 1], ins[n - 1];
      Log(st, ins, n - 1) + if Out(s, i).Valid? && i.ready then [Sent(s.sel, Out(s, i).beat)] else []
  }

  /** The beats source k handed over in the first n cycles, by its own valid-and-ready handshake. */
  ghost function Given(st: seq<Regs>, ins: seq<Inputs>, k: nat, n: nat): seq<Beat>
    requires n <= |ins| < |st|
  {
    if n == 0 then []
    else
      var s, i := st[n - 1], ins[n - 1];
      Given(st, ins, k, n - 1)
      + if k < |i.offers| && i.offers[k].Valid? && ReadyTo(s, i, k) then [i.offers[k].beat] else []
  }

  /** Source k's beats of a log, in order. */
  function Of(log: seq<Sent>, k: nat): seq<Beat> {
    if log == [] then []
    else Of(log[..|log| - 1], k) + if log[|log| - 1].src == k then [log[|log| - 1].beat] else []
  }

  lemma OfSnoc(log: seq<Sent>, x: Sent, k: nat)
    ensures Of(log + [x], k) == Of(log, k) + if x.src == k then [x.beat] else []
  {
    assert (log + [x])[..|log|] == log;
  }

  /** Nothing is lost, made up, reordered or changed: each source's share of the output is exactly
      the beats it handed over. */
  lemma {:induction false} SharesIntact(st: seq<Regs>, ins: seq<Inputs>, n: nat, k: nat)
    requires n <= |ins| < |st|
    ensures Of(Log(st, ins, n), k) == Given(st, ins, k, n)
  {
    if n > 0 {
      var s, i := st[n - 1], ins[n - 1];
      SharesIntact(st, ins, n - 1, k);
      if Out(s, i).Valid? && i.ready {
        OfSnoc(Log(st, ins, n - 1), Sent(s.sel, Out(s, i).beat), k);
      } else {
        assert Log(st, ins, n) == Log(st, ins, n - 1);
      }
    }
  }

  /** After a beat that does not end a frame comes a beat of the same source. */
  ghost predicate WholeFrames(log: seq<Sent>) {
    forall j :: 0 <= j < |log| - 1 && !log[j].beat.last ==> log[j + 1].src == log[j].src
  }

  predicate MidFrame(log: seq<Sent>) {
    log != [] && !log[|log| - 1].beat.last
  }

  /** No beat of another source ever falls inside a frame. */
  lemma {:induction false} FramesStayWhole(st: seq<Regs>, ins: seq<Inputs>, n: nat, sources: nat)
    requires Trace(st, ins, sources) && n <= |ins|
    ensures WholeFrames(Log(st, ins, n))
    ensures MidFrame(Log(st, ins, n)) ==> st[n].busy && st[n].sel == Log(st, ins, n)[|Log(st, ins, n)| - 1].src
  {
    if n > 0 {
      FramesStayWhole(st, ins, n - 1, sources);
      assert StepsAt(st, ins, n - 1);
    }
  }

  // ---- the firmware's wait ----------------------------------------------------------------------

  /** Source 0 has a beat to send throughout cycles a..b. */
  ghost predicate Offering(ins: seq<Inputs>, a: nat, b: nat)
    requires a <= b <= |ins|
  {
    forall j :: a <= j < b ==> |ins[j].offers| > 0 && ins[j].offers[0].Valid?
  }

  ghost predicate EndsAt(st: seq<Regs>, ins: seq<Inputs>, j: nat)
    requires j < |ins| < |st|
  {
    EndsFrame(st[j], ins[j])
  }

  /** From cycle a, when the firmware starts offering: either it holds the grant, or the frame in
      flight at cycle a is still going, or that frame ended in the last cycle and the firmware is
      granted next. An idle arbiter grants it at once. */
  lemma {:induction false} FirmwareWaits(st: seq<Regs>, ins: seq<Inputs>, a: nat, b: nat, sources: nat)
    requires Trace(st, ins, sources) && a <= b <= |ins| && Offering(ins, a, b)
    requires forall j :: a <= j < b && st[j].busy && st[j].sel == 0 ==> !EndsAt(st, ins, j)
    ensures (st[b].busy && st[b].sel == 0)
      || (st[b] == st[a] && (st[a].busy ==> forall j :: a <= j < b ==> !EndsAt(st, ins, j)) && (!st[a].busy ==> a == b))
      || (a < b && !st[b].busy && st[b - 1] == st[a] && st[a].busy && EndsAt(st, ins, b - 1)
          && forall j :: a <= j < b - 1 ==> !EndsAt(st, ins, j))
    decreases b
  {
    if a < b {
      FirmwareWaits(st, ins, a, b - 1, sources);
      assert StepsAt(st, ins, b - 1);
      assert !AnyValid(ins[b - 1].offers) || Lowest(ins[b - 1].offers, FirstValid(ins[b - 1].offers));
      assert ins[b - 1].offers[0].Valid?;
    }
  }

  /** Beats of other sources accepted in cycles a..b. */
  ghost function Foreign(st: seq<Regs>, ins: seq<Inputs>, a: nat, b: nat): seq<Sent>
    requires a <= b <= |ins| < |st|
  {
    if a == b then []
    else
      var s, i := st[b - 1], ins[b - 1];
      Foreign(st, ins, a, b - 1)
      + if s.sel != 0 && Out(s, i).Valid? && i.ready then [Sent(s.sel, Out(s, i).beat)] else []
  }

  /** A piece of one frame of source k, complete or not. */
  ghost predicate PieceOfFrame(log: seq<Sent>, k: nat) {
    forall j :: 0 <= j < |log| ==> log[j].src == k && (log[j].beat.last ==> j == |log| - 1)
  }

  /** While the firmware keeps offering and has not finished a frame of its own, other sources get
      at most the rest of the one frame that was in flight. */
  lemma {:induction false} AtMostOneFrameAhead(st: seq<Regs>, ins: seq<Inputs>, a: nat, b: nat, sources: nat)
    requires Trace(st, ins, sources) && a <= b <= |ins| && Offering(ins, a, b)
    requires forall j :: a <= j < b && st[j].busy && st[j].sel == 0 ==> !EndsAt(st, ins, j)
    ensures PieceOfFrame(Foreign(st, ins, a, b), st[a].sel)
    ensures Foreign(st, ins, a, b) != [] ==> st[a].busy
    ensures st[b].busy && st[b].sel != 0 ==>
      forall j :: 0 <= j < |Foreign(st, ins, a, b)| ==> !Foreign(st, ins, a, b)[j].beat.last
    decreases b
  {
    if a < b {
      AtMostOneFrameAhead(st, ins, a, b - 1, sources);
      FirmwareWaits(st, ins, a, b - 1, sources);
      assert StepsAt(st, ins, b - 1);
      FirmwareWaits(st, ins, a, b, sources);
    }
  }
}
