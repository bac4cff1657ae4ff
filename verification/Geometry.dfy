/** Packet geometry shared by the gateware packetizer and the firmware: the table of
    samples per packet, the payload length, and the 51-byte header. */
module Geometry {
  import opened Arith
  import opened Bytes

  const N_CTX := 6           // flow contexts
  const STREAMS := 6         // sample rings, eight channels each
  const CHANNELS := 48
  const RING_DEPTH := 2048
  const HDR_LEN := 51
  const SUBSEC_MAX := 48000

  /** FPP_TABLE / k_fpp_table. */
  function Fpp(i: nat): nat
    requires i < 8
  {
    match i
    case 0 => 8
    case 1 => 16
    case 2 => 24
    case 3 => 32
    case 4 => 60
    case 5 => 4
    case 6 => 2
    case 7 => 48
  }

  /** One byte of the slot map: bits 5..0 the channel, bit 7 valid. */
  datatype Slot = Slot(ch: nat, valid: bool)

  const NO_SLOT := Slot(0, false)

  /** What one flow context has latched. */
  datatype Context = Context(nslots: nat, fppIdx: nat, slots: seq<Slot>,
                             dmac: seq<byte>, dip: seq<byte>, csum: nat, sport: nat, dport: nat)
  {
    /** The register widths. */
    ghost predicate Valid() {
      nslots < 16 && fppIdx < 8 && |slots| == 8 && |dmac| == 6 && |dip| == 4
      && csum < TWO16 && sport < TWO16 && dport < TWO16
      && forall k :: 0 <= k < 8 ==> slots[k].ch < 64
    }

    /** A flow the builder can frame: at most eight slots of existing channels, and a payload of
        whole words. Firmware refuses requests for anything else (dante_flows.c:126-139). */
    ghost predicate WellShaped() {
      Valid() && 1 <= nslots <= 8
      && !(Fpp(fppIdx) == 2 && nslots % 2 == 1)
      && forall k :: 0 <= k < 8 ==> slots[k].ch < CHANNELS
    }
  }

  /** The CSR fields every context shares. */
  datatype Shared = Shared(srcMac: seq<byte>, srcIp: seq<byte>, tos: byte, ttl: byte)
  {
    ghost predicate Valid() { |srcMac| == 6 && |srcIp| == 4 }
  }

  /** nslots * 3 * fpp from shifts and adds, in an 11-bit register. */
  function PayLen(nslots: nat, fppIdx: nat): (r: nat)
    requires fppIdx < 8
    ensures r < 2048
  {
    var ns3 := (nslots + 2 * nslots) % 64;
    var v := match fppIdx
      case 0 => 8 * ns3
      case 1 => 16 * ns3
      case 2 => 16 * ns3 + 8 * ns3
      case 3 => 32 * ns3
      case 4 => 64 * ns3 - 4 * ns3
      case 5 => 4 * ns3
      case 6 => 2 * ns3
      case 7 => 32 * ns3 + 16 * ns3;
    v % 2048
  }

  /** Samples in one packet: slots times samples per slot, one linear form per table entry. */
  function Samples(nslots: nat, fppIdx: nat): nat
    requires fppIdx < 8
  {
    match fppIdx
    case 0 => 8 * nslots
    case 1 => 16 * nslots
    case 2 => 24 * nslots
    case 3 => 32 * nslots
    case 4 => 60 * nslots
    case 5 => 4 * nslots
    case 6 => 2 * nslots
    case 7 => 48 * nslots
  }

  lemma SamplesIsProduct(nslots: nat, fppIdx: nat)
    requires fppIdx < 8
    ensures Samples(nslots, fppIdx) == nslots * Fpp(fppIdx)
  {
  }

  /** The shift network multiplies, for every slot count a flow can have. */
  lemma PayLenIsProduct(nslots: nat, fppIdx: nat)
    requires nslots <= 8 && fppIdx < 8
    ensures PayLen(nslots, fppIdx) == 3 * Samples(nslots, fppIdx) <= 1440
  {
    assert (nslots + 2 * nslots) % 64 == 3 * nslots;
    assert Samples(nslots, fppIdx) <= 480;
  }

  /** The payload is whole words exactly when it is not two samples of an odd number of slots. */
  lemma WholeWordsIff(nslots: nat, fppIdx: nat)
    requires nslots <= 8 && fppIdx < 8
    ensures PayLen(nslots, fppIdx) % 4 == 0 <==> !(Fpp(fppIdx) == 2 && nslots % 2 == 1)
  {
    PayLenIsProduct(nslots, fppIdx);
    if fppIdx == 6 {
      SixSamples(nslots);
    } else {
      var g := Groups(nslots, fppIdx);
      assert PayLen(nslots, fppIdx) == 12 * g;
    }
  }

  lemma SixSamples(nslots: nat)
    ensures 6 * nslots % 4 == 0 <==> nslots % 2 == 0
  {
    var h := nslots / 2;
    if nslots % 2 == 0 {
      DivMod(6 * nslots, 4, 3 * h, 0);
    } else {
      DivMod(6 * nslots, 4, 3 * h + 1, 2);
    }
  }

  /** Except at two samples per packet, samples come in groups of four. */
  lemma Groups(nslots: nat, fppIdx: nat) returns (g: nat)
    requires nslots <= 8 && fppIdx < 8 && fppIdx != 6
    ensures Samples(nslots, fppIdx) == 4 * g && (1 <= nslots ==> 1 <= g) && g <= 120
  {
    g := match fppIdx
      case 0 => 2 * nslots
      case 1 => 4 * nslots
      case 2 => 6 * nslots
      case 3 => 8 * nslots
      case 4 => 15 * nslots
      case 5 => nslots
      case 7 => 12 * nslots;
  }

  /** Sample count of a packet in groups of four: the frame is whole words after its header. */
  lemma PacketGroups(c: Context) returns (g: nat)
    requires c.WellShaped()
    ensures Samples(c.nslots, c.fppIdx) == 4 * g && 1 <= g <= 120
    ensures PayLen(c.nslots, c.fppIdx) == 12 * g
  {
    PayLenIsProduct(c.nslots, c.fppIdx);
    if c.fppIdx == 6 {
      g := c.nslots / 2;
    } else {
      g := Groups(c.nslots, c.fppIdx);
    }
  }

  /** The timestamp of a packet: the latched counter minus fpp - 1 samples, borrowing a second
      when that would go below zero; all in 32-bit registers. */
  function StampSub(subEmit: nat, fpp: nat): nat
    requires 1 <= fpp <= 60
  {
    if subEmit < fpp - 1 then subEmit + SUBSEC_MAX - (fpp - 1) else subEmit - (fpp - 1)
  }

  function StampSec(secEmit: nat, subEmit: nat, fpp: nat): nat
    requires 1 <= fpp <= 60
  {
    if subEmit < fpp - 1 then (secEmit + TWO32 - 1) % TWO32 else secEmit
  }

  /** The twenty IPv4 header bytes, as the gateware emits them. */
  function IpHeader(c: Context, sh: Shared): (h: seq<byte>)
    requires c.Valid() && sh.Valid()
    ensures |h| == 20
  {
    [0x45, sh.tos] + Be16(37 + PayLen(c.nslots, c.fppIdx)) + [0, 0, 0, 0]
    + [sh.ttl, 17] + Be16(c.csum) + sh.srcIp + c.dip
  }

  /** The whole header: Ethernet, IPv4, UDP and the nine Dante bytes. */
  function Header(c: Context, sh: Shared, sec: nat, sub: nat): (h: seq<byte>)
    requires c.Valid() && sh.Valid()
    ensures |h| == HDR_LEN && h[14..34] == IpHeader(c, sh)
  {
    var eth := c.dmac + sh.srcMac + [0x08, 0x00];
    var udp := Be16(c.sport) + Be16(c.dport) + Be16(17 + PayLen(c.nslots, c.fppIdx)) + [0, 0];
    var tag := [0x02] + Be32(sec) + Be32(sub);
    eth + IpHeader(c, sh) + udp + tag
  }

  /** What the geometry block derives from a context and the emit registers, every cycle. */
  datatype View = View(nslots: nat, fpp: nat, slots: seq<Slot>, total: nat, lastIdx: nat, header: seq<byte>)
  {
    ghost predicate Valid() {
      nslots < 16 && 2 <= fpp <= 60 && |slots| == 8 && total < 2048 && lastIdx < 512 && |header| == HDR_LEN
    }
  }

  function ViewOf(c: Context, sh: Shared, secEmit: nat, subEmit: nat): (v: View)
    requires c.Valid() && sh.Valid()
    ensures v.Valid()
  {
    var fpp := Fpp(c.fppIdx);
    var pay := PayLen(c.nslots, c.fppIdx);
    View(c.nslots, fpp, c.slots, (HDR_LEN + pay) % 2048, (12 + pay / 4) % 512,
         Header(c, sh, StampSec(secEmit, subEmit, fpp), StampSub(subEmit, fpp)))
  }

  /** A view the builder can frame: m samples, whole words after the header. */
  ghost predicate FramesSamples(v: View, m: nat) {
    v.Valid() && 1 <= v.nslots <= 8 && (forall k :: 0 <= k < 8 ==> v.slots[k].ch < CHANNELS)
    && 4 <= m <= 480 && m % 4 == 0 && m <= 60 * v.nslots
    && v.total == HDR_LEN + 3 * m && v.lastIdx == 12 + 3 * (m / 4)
  }

  lemma ShapeNumbers(c: Context)
    requires c.WellShaped()
    ensures var m, pay := Samples(c.nslots, c.fppIdx), PayLen(c.nslots, c.fppIdx);
      4 <= m <= 480 && m % 4 == 0 && m <= 60 * c.nslots
      && (HDR_LEN + pay) % 2048 == HDR_LEN + 3 * m && (12 + pay / 4) % 512 == 12 + 3 * (m / 4)
  {
    var g := PacketGroups(c);
    Quarter(g);
  }

  lemma Quarter(g: nat)
    ensures 12 * g / 4 == 3 * g && 4 * g / 4 == g && 4 * g % 4 == 0
  {
  }

  /** Every shape the firmware binds is one. */
  lemma ShapeFrames(c: Context, v: View)
    requires c.WellShaped() && v.Valid() && v.nslots == c.nslots && v.slots == c.slots
    requires v.total == (HDR_LEN + PayLen(c.nslots, c.fppIdx)) % 2048
    requires v.lastIdx == (12 + PayLen(c.nslots, c.fppIdx) / 4) % 512
    ensures FramesSamples(v, Samples(c.nslots, c.fppIdx))
  {
    ShapeNumbers(c);
  }
}
