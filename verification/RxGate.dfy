/** rx_gate.py: an observer of the receive stream that decides, by destination MAC, whether the SRAM
    writer drops the frame at its last beat; and the software filter of main.c it must not tighten. */
module RxGate {
  import opened Bytes

  const BROADCAST: Mac := [0xFF, 0xFF, 0xFF, 0xFF, 0xFF, 0xFF]
  const UNSET: Mac := [0, 0, 0, 0, 0, 0]
  const PTPV1: Mac := [0x01, 0x00, 0x5E, 0x00, 0x01, 0x81]

  /** The control registers: arm, our own address, two spare slots. */
  datatype Config = Config(enable: bool, local: Mac, spare0: Mac, spare1: Mac)

  /** One cycle of the stream. */
  datatype Inputs = Inputs(valid: bool, ready: bool, data: Word, last: bool, cfg: Config)

  datatype Counts = Counts(matched: nat, unmatched: nat, discarded: nat)

  datatype Regs = Regs(beat: nat, w0: Word, w1: (byte, byte), mac: Mac, allow: bool, armed: bool,
                       counts: Counts, lastDrop: Mac)

  predicate Accepts(i: Inputs) {
    i.valid && i.ready
  }

  predicate Eof(i: Inputs) {
    Accepts(i) && i.last
  }

  /** The allow terms: broadcast, our own address, three masked rules, the spares. */
  predicate Allows(c: Config, m: Mac) {
    m == BROADCAST || m == c.local
    || m[..4] == [0x01, 0x00, 0x5E, 0x00] || m == PTPV1 || m[..3] == [0x01, 0x80, 0xC2]
    || (c.spare0 != UNSET && m == c.spare0) || (c.spare1 != UNSET && m == c.spare1)
  }

  predicate Decided(s: Regs) {
    s.beat >= 4
  }

  /** The wire to the SRAM writer, which looks at it only at the last beat. */
  predicate Discard(s: Regs) {
    s.armed && Decided(s) && !s.allow
  }

  function NextCounts(s: Regs, i: Inputs): Counts {
    if !Eof(i) || !Decided(s) then s.counts
    else if s.allow then s.counts.(matched := (s.counts.matched + 1) % TWO32)
    else s.counts.(unmatched := (s.counts.unmatched + 1) % TWO32,
                   discarded := if s.armed then (s.counts.discarded + 1) % TWO32 else s.counts.discarded)
  }

  function Next(s: Regs, i: Inputs): Regs {
    var a := Accepts(i);
    Regs(if !a then s.beat else if i.last then 0 else if s.beat != 7 then s.beat + 1 else s.beat,
         if a && s.beat == 0 then i.data else s.w0,
         if a && s.beat == 1 then (i.data.b0, i.data.b1) else s.w1,
         if a && s.beat == 2 then [s.w0.b0, s.w0.b1, s.w0.b2, s.w0.b3, s.w1.0, s.w1.1] else s.mac,
         if a && s.beat == 3 then Allows(i.cfg, s.mac) else s.allow,
         i.cfg.enable && i.cfg.local != UNSET,
         NextCounts(s, i),
         if Eof(i) && Decided(s) && !s.allow then s.mac else s.lastDrop)
  }

  /** The hardware. */
  class Gate {
    var beat: nat
    var w0: Word
    var w1: (byte, byte)
    var mac: Mac
    var allow: bool
    var armed: bool
    var counts: Counts
    var lastDrop: Mac

    ghost function Abs(): Regs
      reads this
    {
      Regs(beat, w0, w1, mac, allow, armed, counts, lastDrop)
    }

    constructor ()
      ensures Abs() == RESET
    {
      beat, w0, w1, mac, allow, armed := 0, SILENCE, (0, 0), UNSET, false, false;
      counts, lastDrop := Counts(0, 0, 0), UNSET;
    }

    method Account()
      modifies this`counts, this`lastDrop
      ensures counts == (if !Decided(old(Abs())) then old(counts)
                         else NextCounts(old(Abs()), Inputs(true, true, SILENCE, true, NO_CONFIG)))
      ensures lastDrop == if Decided(old(Abs())) && !allow then mac else old(lastDrop)
    {
      if beat >= 4 {
        if allow {
          counts := counts.(matched := (counts.matched + 1) % TWO32);
        } else {
          counts := counts.(unmatched := (counts.unmatched + 1) % TWO32);
          lastDrop := mac;
          if armed {
            counts := counts.(discarded := (counts.discarded + 1) % TWO32);
          }
        }
      }
    }

    method Clock(i: Inputs) returns (discard: bool)
      modifies this
      ensures Abs() == Next(old(Abs()), i) && discard == Discard(old(Abs()))
    {
      discard := armed && beat >= 4 && !allow;
      if i.valid && i.ready {
        if i.last {
          Account();
        }
        match beat {
          case 0 => w0 := i.data;
          case 1 => w1 := (i.data.b0, i.data.b1);
          case 2 => mac := [w0.b0, w0.b1, w0.b2, w0.b3, w1.0, w1.1];
          case 3 => allow := Allows(i.cfg, mac);
          case _ =>
        }
        if i.last {
          beat := 0;
        } else if beat != 7 {
          beat := beat + 1;
        }
      }
      armed := i.cfg.enable && i.cfg.local != UNSET;
    }
  }

  const NO_CONFIG := Config(false, UNSET, UNSET, UNSET)
  const RESET := Regs(0, SILENCE, (0, 0), UNSET, false, false, Counts(0, 0, 0), UNSET)

  // ---- every verdict is the frame's own -----------------------------------------------------------

  /** A run from reset. */
  ghost function State(ins: seq<Inputs>, n: nat): Regs
    requires n <= |ins|
  {
    if n == 0 then RESET else Next(State(ins, n - 1), ins[n - 1])
  }

  /** The beats of the current frame accepted before cycle n. */
  function Frame(ins: seq<Inputs>, n: nat): seq<Inputs>
    requires n <= |ins|
  {
    if n == 0 then []
    else
      var i := ins[n - 1];
      if !Accepts(i) then Frame(ins, n - 1) else if i.last then [] else Frame(ins, n - 1) + [i]
  }

  /** The first six bytes of a frame on the wire. */
  function DstMac(fr: seq<Inputs>): Mac
    requires |fr| >= 2
  {
    var a, b := fr[0].data, fr[1].data;
    [a.b0, a.b1, a.b2, a.b3, b.b0, b.b1]
  }

  /** What the registers know of the frame so far. */
  ghost predicate Knows(s: Regs, fr: seq<Inputs>) {
    s.beat == (if |fr| < 7 then |fr| else 7)
    && (|fr| >= 1 ==> s.w0 == fr[0].data)
    && (|fr| >= 2 ==> s.w1 == (fr[1].data.b0, fr[1].data.b1))
    && (|fr| >= 3 ==> s.mac == DstMac(fr))
    && (|fr| >= 4 ==> s.allow == Allows(fr[3].cfg, DstMac(fr)))
  }

  lemma KnowsStep(s: Regs, fr: seq<Inputs>, i: Inputs)
    requires Knows(s, fr)
    ensures Knows(Next(s, i), if !Accepts(i) then fr else if i.last then [] else fr + [i])
  {
  }

  lemma {:induction false} AlwaysKnows(ins: seq<Inputs>, n: nat)
    requires n <= |ins|
    ensures Knows(State(ins, n), Frame(ins, n))
  {
    if n > 0 {
      AlwaysKnows(ins, n - 1);
      KnowsStep(State(ins, n - 1), Frame(ins, n - 1), ins[n - 1]);
    }
  }

  /** The gate was armed when the last clock edge passed. */
  predicate ArmedBefore(ins: seq<Inputs>, n: nat)
    requires n <= |ins|
  {
    n > 0 && ins[n - 1].cfg.enable && ins[n - 1].cfg.local != UNSET
  }

  /** At the last beat of any frame, in any stream with any gaps and any register writes: it is
      discarded exactly when the gate is armed, the frame has at least five beats, and its own
      destination, by the list in force at its fourth beat, is not allowed. */
  lemma DiscardedIff(ins: seq<Inputs>, n: nat)
    requires n < |ins| && Eof(ins[n])
    ensures var fr := Frame(ins, n) + [ins[n]];
      Discard(State(ins, n)) <==> ArmedBefore(ins, n) && |fr| >= 5 && !Allows(fr[3].cfg, DstMac(fr))
  {
    AlwaysKnows(ins, n);
    ArmedRegister(ins, n);
  }

  lemma ArmedRegister(ins: seq<Inputs>, n: nat)
    requires n <= |ins|
    ensures State(ins, n).armed == ArmedBefore(ins, n)
  {
  }

  /** Frames of at least five beats ended in the first n cycles: all, those whose own destination
      was allowed, and those the writer was told to drop. */
  datatype Tally = Tally(whole: nat, allowed: nat, dropped: nat)

  function Tallied(t: Tally, i: Inputs, before: seq<Inputs>, armed: bool): Tally {
    var fr := before + [i];
    if !Eof(i) || |fr| < 5 then t
    else if Allows(fr[3].cfg, DstMac(fr)) then t.(whole := t.whole + 1, allowed := t.allowed + 1)
    else t.(whole := t.whole + 1, dropped := t.dropped + if armed then 1 else 0)
  }

  ghost function Ended(ins: seq<Inputs>, n: nat): Tally
    requires n <= |ins|
  {
    if n == 0 then Tally(0, 0, 0)
    else Tallied(Ended(ins, n - 1), ins[n - 1], Frame(ins, n - 1), ArmedBefore(ins, n - 1))
  }

  ghost predicate Counting(c: Counts, t: Tally) {
    t.allowed <= t.whole && c.matched == t.allowed % TWO32 && c.discarded == t.dropped % TWO32
    && c.unmatched == (t.whole - t.allowed) % TWO32
  }

  lemma CountStep(s: Regs, i: Inputs, before: seq<Inputs>, t: Tally)
    requires Knows(s, before) && Counting(s.counts, t)
    ensures Counting(Next(s, i).counts, Tallied(t, i, before, s.armed))
  {
    var d := TallyStep(t, Eof(i) && Decided(s), s.allow, s.armed);
    CountsOn(s, i, t, d);
    if Eof(i) && |before| >= 4 {
      assert (before + [i])[3] == before[3] && DstMac(before + [i]) == DstMac(before);
    }
  }

  /** One frame more, if one of at least five beats ends. */
  function TallyStep(t: Tally, ends: bool, ok: bool, armed: bool): Tally {
    if !ends then t
    else if ok then t.(whole := t.whole + 1, allowed := t.allowed + 1)
    else t.(whole := t.whole + 1, dropped := t.dropped + if armed then 1 else 0)
  }

  lemma CountsOn(s: Regs, i: Inputs, t: Tally, d: Tally)
    requires Counting(s.counts, t) && d == TallyStep(t, Eof(i) && Decided(s), s.allow, s.armed)
    ensures Counting(NextCounts(s, i), d)
  {
    OneMore(t.allowed);
    OneMore(t.dropped);
    OneMore(t.whole - t.allowed);
  }

  lemma OneMore(n: nat)
    ensures (n % TWO32 + 1) % TWO32 == (n + 1) % TWO32
  {
  }

  /** Matches and non-matches add up to the frames classified. */
  lemma CountsAddUp(c: Counts, t: Tally)
    requires Counting(c, t)
    ensures (c.matched + c.unmatched) % TWO32 == t.whole % TWO32
  {
  }

  /** In every stream the three counters count exactly the frames whose own destination the list
      allowed, those it did not, and those dropped. */
  lemma {:induction false} CountersExact(ins: seq<Inputs>, n: nat)
    requires n <= |ins|
    ensures Counting(State(ins, n).counts, Ended(ins, n))
  {
    if n > 0 {
      CountersExact(ins, n - 1);
      AlwaysKnows(ins, n - 1);
      ArmedRegister(ins, n - 1);
      CountStep(State(ins, n - 1), ins[n - 1], Frame(ins, n - 1), Ended(ins, n - 1));
      assert State(ins, n) == Next(State(ins, n - 1), ins[n - 1]);
    }
  }

  // ---- the software filter --------------------------------------------------------------------------

  /** dispatch_rx's peek at the destination: unicast is kept, and these groups. */
  predicate SoftwareKeeps(m: Mac) {
    if m[0] % 2 == 0 then true
    else if m[0] == 0xFF && m[1] == 0xFF && m[2] == 0xFF then true
    else if m[0] == 0x01 && m[1] == 0x00 && m[2] == 0x5E then
      (m[3] == 0 && m[4] == 0) || (m[3] == 0 && m[4] == 1 && m[5] == 0x81)
    else m[0] == 0x01 && m[1] == 0x80 && m[2] == 0xC2
  }

  predicate Programmed(c: Config, m: Mac) {
    m == c.local || (c.spare0 != UNSET && m == c.spare0) || (c.spare1 != UNSET && m == c.spare1)
  }

  /** Of the group addresses the software keeps, the gate allows every one except FF:FF:FF:x:x:x
      that is not broadcast and not programmed into a register. */
  lemma SupersetIff(c: Config, m: Mac)
    requires m[0] % 2 == 1 && SoftwareKeeps(m)
    ensures Allows(c, m) <==> !(m[..3] == [0xFF, 0xFF, 0xFF] && m != BROADCAST && !Programmed(c, m))
  {
    assert m[..4] == [m[0], m[1], m[2], m[3]] && m[..3] == [m[0], m[1], m[2]];
    assert m == [m[0], m[1], m[2], m[3], m[4], m[5]];
  }

  /** The link-local rule compares four bytes, not five: the gate also lets through every group
      01:00:5E:00:x:x, of which the software keeps the 01:00:5E:00:00:x and the PTPv1 one. */
  lemma LinkLocalRuleWide(c: Config, m: Mac)
    requires m[..4] == [0x01, 0x00, 0x5E, 0x00]
    ensures Allows(c, m) && (SoftwareKeeps(m) <==> m[4] == 0 || (m[4] == 1 && m[5] == 0x81))
  {
    assert m[..4][0] == m[0] && m[..4][1] == m[1] && m[..4][2] == m[2] && m[..4][3] == m[3];
  }

  /** Of unicast, an armed gate allows only what is programmed. */
  lemma UnicastNarrowed(c: Config, m: Mac)
    requires m[0] % 2 == 0
    ensures Allows(c, m) <==> Programmed(c, m)
  {
    assert m[0] == m[..4][0] == m[..3][0];
  }
}
