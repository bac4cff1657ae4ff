/** Ones-complement checksums (RFC 1071 section 1): the general one of net.c, the IPv4 header one of
    dante_tx.c, and the header the gateware emits with it. */
module Checksum {
  import opened Arith
  import opened Bytes
  import opened Geometry

  /** End-around carry until the sum fits sixteen bits. */
  function Fold(sum: nat): (r: nat)
    ensures r < TWO16 && r % 65535 == sum % 65535 && (sum > 0 ==> r > 0)
  {
    if sum < TWO16 then sum else Fold(sum % TWO16 + sum / TWO16)
  }

  /** The carry loop of both C functions; the sum lives in 32 bits. */
  method FoldSum(start: nat) returns (sum: nat)
    requires start < TWO32
    ensures sum == Fold(start)
  {
    sum := start;
    while sum / TWO16 != 0
      invariant sum < TWO32 && Fold(sum) == Fold(start)
      decreases sum
    {
      sum := sum % TWO16 + sum / TWO16;
    }
  }

  /** Big-endian words, an odd last byte padded with zero. */
  function WordSum(b: seq<byte>): nat {
    if |b| == 0 then 0
    else if |b| == 1 then 256 * b[0]
    else Rd16(b[0], b[1]) + WordSum(b[2..])
  }

  lemma {:induction false} WordSumBound(b: seq<byte>)
    ensures WordSum(b) <= 65535 * |b|
  {
    if |b| >= 2 {
      WordSumBound(b[2..]);
    }
  }

  lemma {:induction false} WordSumAppend(a: seq<byte>, b: seq<byte>)
    requires |a| % 2 == 0
    ensures WordSum(a + b) == WordSum(a) + WordSum(b)
  {
    if a == [] {
      assert a + b == b;
    } else {
      WordSumAppend(a[2..], b);
      assert (a + b)[2..] == a[2..] + b;
    }
  }

  /** One word added in a 32-bit register. */
  function Add32(s: nat, w: nat): (t: nat)
    ensures t < TWO32
  {
    (s + w) % TWO32
  }

  /** net_checksum: the words are added in a 32-bit accumulator, the carries folded in afterwards. */
  method NetChecksum(data: seq<byte>, initial: nat) returns (c: nat)
    requires initial < TWO32
    ensures c == 65535 - Fold(Add32(initial, WordSum(data))) && c < TWO16
  {
    var sum: nat, k: nat := initial, 0;
    while |data| - k > 1
      invariant k <= |data| && sum < TWO32
      invariant Add32(sum, WordSum(data[k..])) == Add32(initial, WordSum(data))
    {
      WordAdded(data, k, sum);
      sum := Add32(sum, Rd16(data[k], data[k + 1]));
      k := k + 2;
    }
    if k < |data| {
      sum := Add32(sum, Rd16(data[k], 0));
    }
    assert sum == Add32(initial, WordSum(data));
    sum := FoldSum(sum);
    c := 65535 - sum;
  }

  /** Nothing is lost of a block of up to 65537 words and odd byte, such as any one frame. */
  lemma ShortDataFits(data: seq<byte>)
    requires |data| <= 65537
    ensures Add32(0, WordSum(data)) == WordSum(data)
  {
    WordSumBound(data);
  }

  /** Adding the next word of the block to the accumulator leaves the rest to add. */
  lemma WordAdded(data: seq<byte>, k: nat, s: nat)
    requires k + 1 < |data|
    ensures Add32(Add32(s, Rd16(data[k], data[k + 1])), WordSum(data[k + 2..])) == Add32(s, WordSum(data[k..]))
  {
    assert data[k..][2..] == data[k + 2..];
    Accumulates(s, Rd16(data[k], data[k + 1]), WordSum(data[k + 2..]));
  }

  lemma Accumulates(s: nat, w: nat, rest: nat)
    ensures Add32(Add32(s, w), rest) == Add32(s, w + rest)
  {
    assert s + (w + rest) == Add32(s, w) + rest + (s + w) / TWO32 * TWO32;
    ModAdd(Add32(s, w) + rest, (s + w) / TWO32, TWO32);
  }

  /** The accumulator's lost carries do no harm exactly when none is lost, or a multiple of 65535 of
      them is and something remains. */
  lemma AccumulatorExactIff(s: nat)
    ensures Fold(s % TWO32) == Fold(s) <==> s < TWO32 || (s % TWO32 > 0 && s / TWO32 % 65535 == 0)
  {
    var q, r := s / TWO32, s % TWO32;
    if q > 0 && r > 0 {
      CarriesLost(q, r);
      SameResidue(Fold(r), Fold(s));
    }
  }

  lemma CarriesLost(q: nat, r: nat)
    ensures (r + q * TWO32) % 65535 == r % 65535 <==> q % 65535 == 0
  {
    assert r + q * TWO32 == r + q + (q * 65537) * 65535;
    ModAdd(r + q, q * 65537, 65535);
    ModDiff(r + q, r, 65535);
  }

  lemma SameResidue(x: nat, y: nat)
    requires 0 < x < TWO16 && 0 < y < TWO16
    ensures x == y <==> x % 65535 == y % 65535
  {
  }

  /** What a receiver requires of a checksummed block: it sums to all ones. */
  ghost predicate Verifies(b: seq<byte>) {
    Fold(WordSum(b)) == 0xFFFF
  }

  lemma ComplementCancels(t: nat)
    requires t > 0
    ensures Fold(t + (65535 - Fold(t))) == 0xFFFF
  {
    var f := Fold(t);
    var q, p := t / 65535, f / 65535;
    assert t == q * 65535 + t % 65535 && f == p * 65535 + f % 65535;
    assert t + (65535 - f) == (q - p + 1) * 65535;
    DivMod(t + (65535 - f), 65535, q - p + 1, 0);
  }

  /** A checksum computed over a block with a zeroed field makes the block verify, wherever on an
      even offset the field is. */
  lemma InsertedChecksumVerifies(a: seq<byte>, b: seq<byte>, c: nat)
    requires |a| % 2 == 0 && WordSum(a + [0, 0] + b) > 0 && c == 65535 - Fold(WordSum(a + [0, 0] + b))
    ensures Verifies(a + Be16(c) + b)
  {
    WordSumAppend(a + [0, 0], b);
    WordSumAppend(a, [0, 0]);
    WordSumAppend(a + Be16(c), b);
    WordSumAppend(a, Be16(c));
    TwoBytes(c);
    TwoBytes(0);
    assert Be16(0) == [0, 0];
    ComplementCancels(WordSum(a + [0, 0] + b));
  }

  lemma TwoBytes(c: nat)
    requires c < TWO16
    ensures WordSum(Be16(c)) == c
  {
    assert Be16(c)[2..] == [];
  }

  // ---- the IPv4 header --------------------------------------------------------------------------

  /** The terms ip_header_checksum adds up. */
  function HeaderTerms(src: seq<byte>, dst: seq<byte>, total: nat, tos: byte, ttl: byte): nat
    requires |src| == 4 && |dst| == 4
  {
    0x4500 + tos + total + 256 * ttl + 17
    + Rd16(src[0], src[1]) + Rd16(src[2], src[3]) + Rd16(dst[0], dst[1]) + Rd16(dst[2], dst[3])
  }

  function HeaderChecksum(src: seq<byte>, dst: seq<byte>, total: nat, tos: byte, ttl: byte): (c: nat)
    requires |src| == 4 && |dst| == 4
    ensures c < TWO16
  {
    65535 - Fold(HeaderTerms(src, dst, total, tos, ttl))
  }

  method IpHeaderChecksum(src: seq<byte>, dst: seq<byte>, total: nat, tos: byte, ttl: byte) returns (c: nat)
    requires |src| == 4 && |dst| == 4 && total < TWO16
    ensures c == HeaderChecksum(src, dst, total, tos, ttl)
  {
    var sum := 0x4500 + tos;
    sum := sum + total;
    sum := sum + 256 * ttl + 17;
    sum := sum + Rd16(src[0], src[1]);
    sum := sum + Rd16(src[2], src[3]);
    sum := sum + Rd16(dst[0], dst[1]);
    sum := sum + Rd16(dst[2], dst[3]);
    sum := FoldSum(sum);
    c := 65535 - sum;
  }

  /** Total length as the firmware computes it from the flow's slots and samples per packet. */
  function IpTotal(nslots: nat, fpp: nat): nat {
    20 + 8 + 9 + nslots * fpp * 3
  }

  /** The firmware's total length is the one the gateware derives from the fpp index. */
  lemma TotalsAgree(nslots: nat, fppIdx: nat)
    requires nslots <= 8 && fppIdx < 8
    ensures IpTotal(nslots, Fpp(fppIdx)) == 37 + PayLen(nslots, fppIdx) <= 1477
  {
    PayLenIsProduct(nslots, fppIdx);
    SamplesIsProduct(nslots, fppIdx);
  }

  /** Whatever the table entry, the total fits its sixteen bits. */
  lemma QuickTotal(nslots: nat, fppIdx: nat)
    requires nslots <= 8 && fppIdx < 8
    ensures IpTotal(nslots, Fpp(fppIdx)) < TWO16
  {
    TotalsAgree(nslots, fppIdx);
  }

  lemma Be16Value(v: nat)
    requires v < TWO16
    ensures Rd16(Be16(v)[0], Be16(v)[1]) == v
  {
  }

  /** Ten words. */
  lemma WordSumTen(h: seq<byte>)
    requires |h| == 20
    ensures WordSum(h) == Rd16(h[0], h[1]) + Rd16(h[2], h[3]) + Rd16(h[4], h[5]) + Rd16(h[6], h[7])
      + Rd16(h[8], h[9]) + Rd16(h[10], h[11]) + Rd16(h[12], h[13]) + Rd16(h[14], h[15])
      + Rd16(h[16], h[17]) + Rd16(h[18], h[19])
  {
    WordSumFive(h[..10]);
    WordSumFive(h[10..]);
    WordSumAppend(h[..10], h[10..]);
    assert h[..10] + h[10..] == h;
  }

  lemma WordSumFive(h: seq<byte>)
    requires |h| == 10
    ensures WordSum(h) == Rd16(h[0], h[1]) + Rd16(h[2], h[3]) + Rd16(h[4], h[5]) + Rd16(h[6], h[7]) + Rd16(h[8], h[9])
  {
    assert h[8..][2..] == [] && h[6..][2..] == h[8..] && h[4..][2..] == h[6..] && h[2..][2..] == h[4..];
    assert WordSum(h[8..]) == Rd16(h[8], h[9]);
    assert WordSum(h[6..]) == Rd16(h[6], h[7]) + WordSum(h[8..]);
    assert WordSum(h[4..]) == Rd16(h[4], h[5]) + WordSum(h[6..]);
    assert WordSum(h[2..]) == Rd16(h[2], h[3]) + WordSum(h[4..]);
  }

  lemma HeaderWords(c: Context, sh: Shared)
    requires c.Valid() && sh.Valid() && PayLen(c.nslots, c.fppIdx) <= 1440
    ensures WordSum(IpHeader(c, sh))
      == HeaderTerms(sh.srcIp, c.dip, 37 + PayLen(c.nslots, c.fppIdx), sh.tos, sh.ttl) + c.csum
  {
    WordSumTen(IpHeader(c, sh));
    Be16Value(37 + PayLen(c.nslots, c.fppIdx));
    Be16Value(c.csum);
  }

  /** The twenty header bytes on the wire, for every address and every flow shape, verify with the
      checksum the firmware wrote (RFC 791 section 3.1). */
  lemma EmittedHeaderVerifies(c: Context, sh: Shared, sec: nat, sub: nat)
    requires c.Valid() && sh.Valid() && c.nslots <= 8
    requires c.csum == HeaderChecksum(sh.srcIp, c.dip, IpTotal(c.nslots, Fpp(c.fppIdx)), sh.tos, sh.ttl)
    ensures Verifies(Header(c, sh, sec, sub)[14..34])
  {
    TotalsAgree(c.nslots, c.fppIdx);
    HeaderWords(c, sh);
    ComplementCancels(HeaderTerms(sh.srcIp, c.dip, IpTotal(c.nslots, Fpp(c.fppIdx)), sh.tos, sh.ttl));
  }

  /** It takes no other length: a table in which firmware and gateware disagree about the samples
      per packet breaks the header of every flow. */
  lemma WrongLengthFails(c: Context, sh: Shared, total: nat)
    requires c.Valid() && sh.Valid() && c.nslots <= 8 && total <= 1477 && total != 37 + PayLen(c.nslots, c.fppIdx)
    requires c.csum == HeaderChecksum(sh.srcIp, c.dip, total, sh.tos, sh.ttl)
    ensures !Verifies(IpHeader(c, sh))
  {
    TotalsAgree(c.nslots, c.fppIdx);
    HeaderWords(c, sh);
    var t := HeaderTerms(sh.srcIp, c.dip, total, sh.tos, sh.ttl);
    var d := 37 + PayLen(c.nslots, c.fppIdx) - total;
    var q, p := t / 65535, Fold(t) / 65535;
    assert WordSum(IpHeader(c, sh)) == d + (q - p + 1) * 65535;
    ModAdd(d, q - p + 1, 65535);
    if d > 0 {
      DivMod(d, 65535, 0, d);
    } else {
      DivMod(d, 65535, -1, d + 65535);
    }
  }
}
