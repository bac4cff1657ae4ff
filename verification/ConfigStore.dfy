/** config.c and cfgflash.c: the checksummed configuration record in a flash sector that erases to
    ones and programs by clearing bits. */
module ConfigStore {
  import opened Arith
  import opened Bytes

  const RECORD := 120
  const CRC_AT := 116
  const MAGIC := 0xCFA50701
  const VERSION := 4
  const CRC_SEED := 0x1357BD13
  const FLASH_SIZE := 0x1000000
  const SECTOR := 4096
  const CONFIG_ADDR := 0xFFF000
  const IP_AT := 36
  const PREFIX_AT := 40

  // ---- the checksum -------------------------------------------------------------------------------

  function CrcStep(s: nat, b: byte): (t: nat)
    ensures t < TWO32
  {
    (s * 31 + b) % TWO32
  }

  /** Rolling checksum of bytes p, from state s. */
  function CrcFrom(s: nat, p: seq<byte>): nat {
    if p == [] then s else CrcStep(CrcFrom(s, p[..|p| - 1]), p[|p| - 1])
  }

  function Crc(c: seq<byte>): (r: nat)
    requires |c| == RECORD
    ensures r < TWO32
  {
    CrcFrom(CRC_SEED, c[..CRC_AT])
  }

  const INVERSE := 3186588639  // of 31 modulo 2^32

  /** Different states stay different under the same byte: 31 is invertible. */
  lemma StatesStayApart(s: nat, t: nat, b: byte)
    requires s < TWO32 && t < TWO32 && CrcStep(s, b) == CrcStep(t, b)
    ensures s == t
  {
    assert 31 * INVERSE == 23 * TWO32 + 1;
    var q := (s * 31 + b) / TWO32 - (t * 31 + b) / TWO32;
    assert 31 * (s - t) == q * TWO32;
    assert s - t == (INVERSE * q - 23 * (s - t)) * TWO32;
  }

  lemma BytesTellApart(s: nat, b: byte, c: byte)
    requires CrcStep(s, b) == CrcStep(s, c)
    ensures b == c
  {
  }

  lemma {:induction false} CrcApart(s: nat, t: nat, p: seq<byte>)
    requires s < TWO32 && t < TWO32 && s != t
    ensures CrcFrom(s, p) != CrcFrom(t, p) && CrcFrom(s, p) < TWO32 && CrcFrom(t, p) < TWO32
  {
    if p != [] {
      CrcApart(s, t, p[..|p| - 1]);
      if CrcFrom(s, p) == CrcFrom(t, p) {
        StatesStayApart(CrcFrom(s, p[..|p| - 1]), CrcFrom(t, p[..|p| - 1]), p[|p| - 1]);
      }
    }
  }

  lemma {:induction false} CrcSplit(s: nat, p: seq<byte>, q: seq<byte>)
    ensures CrcFrom(s, p + q) == CrcFrom(CrcFrom(s, p), q)
  {
    if q == [] {
      assert p + q == p;
    } else {
      CrcSplit(s, p, q[..|q| - 1]);
      assert (p + q)[..|p + q| - 1] == p + q[..|q| - 1];
    }
  }

  /** A change of one byte always changes the checksum. */
  lemma OneByteChangesCrc(s: nat, p: seq<byte>, k: nat, b: byte)
    requires s < TWO32 && k < |p| && b != p[k]
    ensures CrcFrom(s, p[k := b]) != CrcFrom(s, p)
  {
    var r := CrcFrom(s, p[..k]);
    assert p == p[..k] + [p[k]] + p[k + 1..];
    assert p[k := b] == p[..k] + [b] + p[k + 1..];
    CrcSplit(s, p[..k] + [p[k]], p[k + 1..]);
    CrcSplit(s, p[..k] + [b], p[k + 1..]);
    CrcSplit(s, p[..k], [p[k]]);
    CrcSplit(s, p[..k], [b]);
    assert [p[k]][..0] == [] && [b][..0] == [];
    if CrcStep(r, p[k]) == CrcStep(r, b) {
      BytesTellApart(r, p[k], b);
    }
    CrcApart(CrcStep(r, p[k]), CrcStep(r, b), p[k + 1..]);
  }

  /** 31 to the n. */
  function Pow(n: nat): nat {
    if n == 0 then 1 else 31 * Pow(n - 1)
  }

  /** Congruent modulo 2^32. */
  predicate Same(x: int, y: int) {
    x % TWO32 == y % TWO32
  }

  lemma Scale(x: int, y: int, m: int)
    requires Same(x, y)
    ensures Same(m * x, m * y)
  {
    ModDiff(x, y, TWO32);
    var q := (x - y) / TWO32;
    assert m * x == m * y + (m * q) * TWO32 by {
      assert x == y + q * TWO32;
      assert m * (y + q * TWO32) == m * y + m * (q * TWO32);
      assert m * (q * TWO32) == (m * q) * TWO32;
    }
    ModAdd(m * y, m * q, TWO32);
  }

  lemma Shift(x: int, y: int, d: int)
    requires Same(x, y)
    ensures Same(x + d, y + d)
  {
    ModDiff(x, y, TWO32);
    ModDiff(x + d, y + d, TWO32);
  }

  /** Two states, one byte on: their difference 31 times as large, and that of the bytes. */
  lemma StepDifference(x: nat, y: nat, b: byte, c: byte)
    ensures Same(CrcStep(x, b) - CrcStep(y, c), 31 * (x - y) + (b - c))
  {
    var q := (x * 31 + b) / TWO32 - (y * 31 + c) / TWO32;
    assert 31 * (x - y) + (b - c) == CrcStep(x, b) - CrcStep(y, c) + q * TWO32;
    ModAdd(CrcStep(x, b) - CrcStep(y, c), q, TWO32);
  }

  /** Differences chained: d carried on by m, then by 31, and one more byte's difference. */
  lemma Chained(d: int, m: int, x: int, u: int, e: int)
    requires Same(x, m * d) && Same(u, 31 * x + e)
    ensures Same(u, (31 * m) * d + e)
  {
    Scale(x, m * d, 31);
    Shift(31 * x, 31 * (m * d), e);
    assert 31 * (m * d) == (31 * m) * d;
  }

  /** n bytes carry the difference of two states on 31^n times as large. */
  lemma {:induction false} DifferenceGrows(s: nat, t: nat, p: seq<byte>)
    ensures Same(CrcFrom(s, p) - CrcFrom(t, p), Pow(|p|) * (s - t))
  {
    if p != [] {
      var n := |p| - 1;
      DifferenceGrows(s, t, p[..n]);
      StepDifference(CrcFrom(s, p[..n]), CrcFrom(t, p[..n]), p[n], p[n]);
      Chained(s - t, Pow(n), CrcFrom(s, p[..n]) - CrcFrom(t, p[..n]), CrcFrom(s, p) - CrcFrom(t, p), 0);
    }
  }

  /** The first byte of a piece changes to b and the last to c: how far the state after it moves. */
  lemma PieceDifference(r: nat, p: seq<byte>, b: byte, c: byte)
    requires |p| >= 2
    ensures Same(CrcFrom(r, p[0 := b][|p| - 1 := c]) - CrcFrom(r, p), Pow(|p| - 1) * (b - p[0]) + (c - p[|p| - 1]))
  {
    PieceFrom(r, p, p[0], p[|p| - 1]);
    PieceFrom(r, p, b, c);
    assert p[0 := p[0]][|p| - 1 := p[|p| - 1]] == p;
    BothEnds(r, b, p[0], p[1..|p| - 1], c, p[|p| - 1]);
  }

  /** The same for the runs themselves: the first byte b or b0, the last c or c0, mid between them. */
  lemma BothEnds(r: nat, b: byte, b0: byte, mid: seq<byte>, c: byte, c0: byte)
    ensures Same(CrcStep(CrcFrom(CrcStep(r, b), mid), c) - CrcStep(CrcFrom(CrcStep(r, b0), mid), c0),
                 Pow(|mid| + 1) * (b - b0) + (c - c0))
  {
    var s, t := CrcStep(r, b), CrcStep(r, b0);
    var x, y := CrcFrom(s, mid), CrcFrom(t, mid);
    var first: int, last: int := b as int - b0, c as int - c0;
    var before: int, after: int := x as int - y, CrcStep(x, c) as int - CrcStep(y, c0);
    StepDifference(r, r, b, b0);
    DifferenceGrows(s, t, mid);
    StepDifference(x, y, c, c0);
    Scale(s as int - t, first, Pow(|mid|));
    Chained(first, Pow(|mid|), before, after, last);
  }

  lemma PieceFrom(r: nat, p: seq<byte>, b: byte, c: byte)
    requires |p| >= 2
    ensures CrcFrom(r, p[0 := b][|p| - 1 := c]) == CrcStep(CrcFrom(CrcStep(r, b), p[1..|p| - 1]), c)
  {
    var n := |p| - 1;
    var first: seq<byte>, d: seq<byte> := [b], p[0 := b][n := c];
    assert d[..n] == first + p[1..n] && first[..0] == [];
    assert CrcFrom(r, first) == CrcStep(r, b);
    CrcSplit(r, first, p[1..n]);
  }

  /** Changing two bytes leaves the checksum exactly when their differences, the earlier one weighted
      by 31 for every byte between it and the later one and for that one, cancel modulo 2^32. */
  lemma TwoBytesEscapeIff(s: nat, p: seq<byte>, i: nat, j: nat, b: byte, c: byte)
    requires s < TWO32 && i < j < |p|
    ensures CrcFrom(s, p[i := b][j := c]) == CrcFrom(s, p) <==> (Pow(j - i) * (b - p[i]) + (c - p[j])) % TWO32 == 0
  {
    var piece, r := p[i..j + 1], CrcFrom(s, p[..i]);
    var changed: seq<byte> := piece[0 := b][j - i := c];
    assert p == p[..i] + piece + p[j + 1..];
    assert p[i := b][j := c] == p[..i] + changed + p[j + 1..];
    PieceDifference(r, piece, b, c);
    PieceDecides(s, p[..i], piece, changed, p[j + 1..], Pow(j - i) * (b - p[i]) + (c - p[j]));
  }

  /** Whether a piece is changed unseen is decided by the state right after it. */
  lemma PieceDecides(s: nat, head: seq<byte>, x: seq<byte>, y: seq<byte>, rest: seq<byte>, d: int)
    requires x != [] && y != [] && Same(CrcFrom(CrcFrom(s, head), y) - CrcFrom(CrcFrom(s, head), x), d)
    ensures CrcFrom(s, head + y + rest) == CrcFrom(s, head + x + rest) <==> d % TWO32 == 0
  {
    var r := CrcFrom(s, head);
    ThreeParts(s, head, x, rest);
    ThreeParts(s, head, y, rest);
    CrcBelow(r, x);
    CrcBelow(r, y);
    StatesDecide(CrcFrom(r, y), CrcFrom(r, x), rest, d);
  }

  lemma ThreeParts(s: nat, head: seq<byte>, x: seq<byte>, rest: seq<byte>)
    ensures CrcFrom(s, head + x + rest) == CrcFrom(CrcFrom(CrcFrom(s, head), x), rest)
  {
    CrcSplit(s, head + x, rest);
    CrcSplit(s, head, x);
  }

  lemma StatesDecide(u: nat, v: nat, rest: seq<byte>, d: int)
    requires u < TWO32 && v < TWO32 && Same(u - v, d)
    ensures CrcFrom(u, rest) == CrcFrom(v, rest) <==> d % TWO32 == 0
  {
    SameMeansZero(u, v, d);
    if u != v {
      CrcApart(u, v, rest);
    }
  }

  lemma CrcBelow(r: nat, p: seq<byte>)
    requires p != []
    ensures CrcFrom(r, p) < TWO32
  {
  }

  lemma SameMeansZero(x: nat, y: nat, d: int)
    requires x < TWO32 && y < TWO32 && Same(x - y, d)
    ensures x == y <==> d % TWO32 == 0
  {
    if x >= y {
      DivMod(x - y, TWO32, 0, x - y);
    } else {
      DivMod(x - y, TWO32, -1, x - y + TWO32);
    }
  }

  /** Adjacent bytes cancel exactly when the second goes down by 31 for each one the first goes up. */
  lemma NeighboursEscapeIff(s: nat, p: seq<byte>, k: nat, b: byte, c: byte)
    requires s < TWO32 && k + 1 < |p|
    ensures CrcFrom(s, p[k := b][k + 1 := c]) == CrcFrom(s, p) <==> 31 * (b - p[k]) + (c - p[k + 1]) == 0
  {
    TwoBytesEscapeIff(s, p, k, k + 1, b, c);
    assert Pow(1) == 31;
    SmallIsZero(31 * (b - p[k]) + (c - p[k + 1]));
  }

  lemma SmallIsZero(d: int)
    requires -TWO32 < d < TWO32
    ensures d % TWO32 == 0 <==> d == 0
  {
  }

  // ---- the flash ------------------------------------------------------------------------------------

  /** Bitwise and of two bytes. */
  function And(a: byte, b: byte): (r: byte) {
    AndBits(a, b, 8)
  }

  function AndBits(a: nat, b: nat, n: nat): (r: nat)
    ensures r <= b
  {
    if n == 0 then 0 else (if a % 2 == 1 && b % 2 == 1 then 1 else 0) + 2 * AndBits(a / 2, b / 2, n - 1)
  }

  lemma {:induction false} AndOnes(b: nat, n: nat, ones: nat)
    requires b <= ones && ones == Ones(n)
    ensures AndBits(ones, b, n) == b
  {
    if n > 0 {
      assert ones % 2 == 1 && ones / 2 == Ones(n - 1);
      AndOnes(b / 2, n - 1, ones / 2);
    }
  }

  function Ones(n: nat): nat {
    if n == 0 then 0 else 1 + 2 * Ones(n - 1)
  }

  /** Programming an erased byte stores it. */
  lemma ErasedTakes(b: byte)
    ensures And(255, b) == b
  {
    assert Ones(8) == 255 by {
      assert Ones(1) == 1 && Ones(2) == 3 && Ones(4) == 15 && Ones(6) == 63;
    }
    AndOnes(b, 8, 255);
  }

  /** Bit k of a. */
  function BitOf(a: nat, k: nat): bool {
    if k == 0 then a % 2 == 1 else BitOf(a / 2, k - 1)
  }

  lemma {:induction false} AndBit(a: nat, b: nat, n: nat, k: nat)
    requires k < n
    ensures BitOf(AndBits(a, b, n), k) <==> BitOf(a, k) && BitOf(b, k)
  {
    var low, high := if a % 2 == 1 && b % 2 == 1 then 1 else 0, AndBits(a / 2, b / 2, n - 1);
    assert (low + 2 * high) % 2 == low && (low + 2 * high) / 2 == high;
    if k > 0 {
      AndBit(a / 2, b / 2, n - 1, k - 1);
    }
  }

  /** Every bit of a programmed cell is set exactly if it was set and is set in the byte programmed:
      programming clears bits and sets none. */
  lemma ProgramOnlyClears(a: byte, b: byte)
    ensures forall k :: 0 <= k < 8 ==> (BitOf(And(a, b), k) <==> BitOf(a, k) && BitOf(b, k))
  {
    forall k | 0 <= k < 8
      ensures BitOf(And(a, b), k) <==> BitOf(a, k) && BitOf(b, k)
    {
      AndBit(a, b, 8, k);
    }
  }

  class Flash {
    const cells: array<byte>

    ghost predicate Valid()
      reads this
    {
      cells.Length == FLASH_SIZE
    }

    constructor ()
      ensures Valid() && fresh(cells)
    {
      cells := new byte[FLASH_SIZE](_ => 255);
    }

    /** The sector the address is in goes to ones. */
    method Erase4k(addr: nat)
      requires Valid() && addr < FLASH_SIZE
      modifies cells
      ensures forall a :: 0 <= a < FLASH_SIZE ==>
        cells[a] == if a / SECTOR == addr / SECTOR then 255 else old(cells[a])
    {
      var base := addr / SECTOR * SECTOR;
      var k := 0;
      while k < SECTOR
        invariant k <= SECTOR
        invariant forall a :: 0 <= a < FLASH_SIZE ==> cells[a] == if base <= a < base + k then 255 else old(cells[a])
      {
        cells[base + k] := 255;
        k := k + 1;
      }
    }

    /** One byte a command; addresses wrap at 24 bits. */
    method Program(addr: nat, b: seq<byte>)
      requires Valid() && addr + |b| <= FLASH_SIZE
      modifies cells
      ensures forall a :: 0 <= a < FLASH_SIZE ==>
        cells[a] == if addr <= a < addr + |b| then And(old(cells[a]), b[a - addr]) else old(cells[a])
    {
      var k := 0;
      while k < |b|
        invariant k <= |b|
        invariant forall a :: 0 <= a < FLASH_SIZE ==>
          cells[a] == if addr <= a < addr + k then And(old(cells[a]), b[a - addr]) else old(cells[a])
      {
        var a := (addr + k) % FLASH_SIZE;
        cells[a] := And(cells[a], b[k]);
        k := k + 1;
      }
    }

    method Read(addr: nat, n: nat) returns (b: seq<byte>)
      requires Valid() && addr + n <= FLASH_SIZE
      ensures b == cells[addr..addr + n]
    {
      b := [];
      while |b| < n
        invariant |b| <= n && b == cells[addr..addr + |b|]
      {
        b := b + [cells[(addr + |b|) % FLASH_SIZE]];
      }
    }
  }

  // ---- the record -----------------------------------------------------------------------------------

  /** Little-endian words, as the CPU stores them. */
  function Le16(v: nat): (s: seq<byte>)
    ensures |s| == 2
  {
    [ByteOf(v, 0), ByteOf(v, 1)]
  }

  function Le32(v: nat): (s: seq<byte>)
    ensures |s| == 4
  {
    [ByteOf(v, 0), ByteOf(v, 1), ByteOf(v, 2), ByteOf(v, 3)]
  }

  function Magic(c: seq<byte>): nat
    requires |c| == RECORD
  {
    Rd32(c[3], c[2], c[1], c[0])
  }

  function Version(c: seq<byte>): nat
    requires |c| == RECORD
  {
    Rd16(c[5], c[4])
  }

  function Size(c: seq<byte>): nat
    requires |c| == RECORD
  {
    Rd16(c[7], c[6])
  }

  function StoredCrc(c: seq<byte>): nat
    requires |c| == RECORD
  {
    Rd32(c[119], c[118], c[117], c[116])
  }

  predicate Accepted(c: seq<byte>)
    requires |c| == RECORD
  {
    Magic(c) == MAGIC && 1 <= Version(c) <= VERSION && Size(c) == RECORD && StoredCrc(c) == Crc(c)
  }

  predicate PrefixKnown(c: seq<byte>)
    requires |c| == RECORD
  {
    c[PREFIX_AT] == 16 || c[PREFIX_AT] == 24
  }

  const OSC_DEFAULT: seq<byte> := [169, 254, 9, 200]

  function FixPrefix(c: seq<byte>): (d: seq<byte>)
    requires |c| == RECORD
    ensures |d| == RECORD && (d == c <==> PrefixKnown(c))
  {
    if PrefixKnown(c) then c
    else
      var d := c[..IP_AT] + OSC_DEFAULT + [16] + c[PREFIX_AT + 1..];
      assert d[PREFIX_AT] == 16;
      d
  }

  /** cfg_defaults; the checksum word stays zero. */
  function Defaults(): (d: seq<byte>)
    ensures |d| == RECORD
  {
    Le32(MAGIC) + Le16(VERSION) + Le16(RECORD) + seq(IP_AT - 8, _ => 0) + OSC_DEFAULT + [16]
    + seq(RECORD - PREFIX_AT - 1, _ => 0)
  }

  /** What boot makes of the stored record. */
  function Loaded(c: seq<byte>): (d: seq<byte>)
    requires |c| == RECORD
    ensures |d| == RECORD
  {
    if Accepted(c) then FixPrefix(c) else Defaults()
  }

  /** What cfg_save stores: identification and checksum set, the rest as it is. */
  function Stamped(c: seq<byte>): (d: seq<byte>)
    requires |c| == RECORD
    ensures |d| == RECORD && d[8..CRC_AT] == c[8..CRC_AT]
  {
    var h := Le32(MAGIC) + Le16(VERSION) + Le16(RECORD) + c[8..CRC_AT];
    h + Le32(CrcFrom(CRC_SEED, h))
  }

  /** The firmware's configuration and its flash. */
  class Store {
    const cfg: array<byte>
    const flash: Flash

    ghost predicate Valid()
      reads this, flash
    {
      cfg.Length == RECORD && flash.Valid() && cfg != flash.cells
    }

    constructor ()
      ensures Valid() && fresh(cfg) && fresh(flash) && fresh(flash.cells)
    {
      cfg := new byte[RECORD](_ => 0);
      flash := new Flash();
    }

    method Write(s: seq<byte>)
      requires Valid() && |s| == RECORD
      modifies cfg
      ensures cfg[..] == s
    {
      var k := 0;
      while k < RECORD
        invariant k <= RECORD && cfg[..k] == s[..k]
      {
        cfg[k] := s[k];
        k := k + 1;
      }
    }

    /** cfg_crc. */
    method Checksum() returns (s: nat)
      requires Valid()
      ensures s == Crc(cfg[..])
    {
      s := CRC_SEED;
      var i := 0;
      while i < CRC_AT
        invariant i <= CRC_AT && s == CrcFrom(CRC_SEED, cfg[..i])
      {
        s := (s * 31 + cfg[i]) % TWO32;
        assert cfg[..i + 1][..i] == cfg[..i];
        i := i + 1;
      }
      assert cfg[..][..CRC_AT] == cfg[..CRC_AT];
    }

    /** cfg_save. */
    method Save()
      requires Valid()
      modifies cfg, flash.cells
      ensures cfg[..] == Stamped(old(cfg[..]))
      ensures flash.cells[CONFIG_ADDR..CONFIG_ADDR + RECORD] == cfg[..]
      ensures forall a :: 0 <= a < CONFIG_ADDR ==> flash.cells[a] == old(flash.cells[a])
    {
      ghost var was := cfg[..];
      Stamp();
      var s := Checksum();
      cfg[116], cfg[117], cfg[118], cfg[119] := ByteOf(s, 0), ByteOf(s, 1), ByteOf(s, 2), ByteOf(s, 3);
      assert cfg[..] == cfg[..CRC_AT] + Le32(s);
      flash.Erase4k(CONFIG_ADDR);
      flash.Program(CONFIG_ADDR, cfg[..]);
      forall k | 0 <= k < RECORD
        ensures flash.cells[CONFIG_ADDR + k] == cfg[k]
      {
        ErasedTakes(cfg[k]);
      }
    }

    method Stamp()
      requires Valid()
      modifies cfg
      ensures cfg[..CRC_AT] == Le32(MAGIC) + Le16(VERSION) + Le16(RECORD) + old(cfg[8..CRC_AT])
    {
      var h := Le32(MAGIC) + Le16(VERSION) + Le16(RECORD);
      cfg[0], cfg[1], cfg[2], cfg[3] := h[0], h[1], h[2], h[3];
      cfg[4], cfg[5], cfg[6], cfg[7] := h[4], h[5], h[6], h[7];
    }

    /** cfg_load; found says whether a saved record was accepted. */
    method Load() returns (found: bool)
      requires Valid()
      modifies cfg
      ensures var c := flash.cells[CONFIG_ADDR..CONFIG_ADDR + RECORD];
        found == Accepted(c) && cfg[..] == Loaded(c)
    {
      var t := flash.Read(CONFIG_ADDR, RECORD);
      Write(t);
      var crc := Checksum();
      if Magic(t) == MAGIC && Version(t) >= 1 && Version(t) <= VERSION && Size(t) == RECORD && StoredCrc(t) == crc {
        if cfg[PREFIX_AT] != 16 && cfg[PREFIX_AT] != 24 {
          Write(t[..IP_AT] + OSC_DEFAULT + [16] + t[PREFIX_AT + 1..]);
        }
        return true;
      }
      Write(Defaults());
      found := false;
    }
  }

  // ---- saving, loading, and damage --------------------------------------------------------------------

  lemma Le32Value(v: nat)
    requires v < TWO32
    ensures Rd32(ByteOf(v, 3), ByteOf(v, 2), ByteOf(v, 1), ByteOf(v, 0)) == v
  {
    Digits(v, v / 256, v / 65536, v / 16777216);
  }

  lemma Digits(v: nat, a: nat, b: nat, c: nat)
    requires v < TWO32 && a == v / 256 && b == v / 65536 && c == v / 16777216
    ensures v == 256 * a + v % 256 && a == 256 * b + a % 256 && b == 256 * c + b % 256 && c % 256 == c
  {
    assert a / 256 == b;
    assert b / 256 == c;
  }

  /** What is saved is accepted. */
  lemma StampedAccepted(c: seq<byte>)
    requires |c| == RECORD
    ensures Accepted(Stamped(c))
  {
    var d := Stamped(c);
    var h := Le32(MAGIC) + Le16(VERSION) + Le16(RECORD) + c[8..CRC_AT];
    assert d[..CRC_AT] == h;
    TrailerRead(h, Crc(d));
    HeadRead(d, h);
  }

  lemma TrailerRead(h: seq<byte>, v: nat)
    requires |h| == CRC_AT && v < TWO32
    ensures StoredCrc(h + Le32(v)) == v
  {
    Le32Value(v);
  }

  lemma Le16Value(v: nat)
    requires v < TWO16
    ensures Rd16(ByteOf(v, 1), ByteOf(v, 0)) == v
  {
    assert v / 256 < 256;
  }

  /** The identification fields of a record that begins with them. */
  lemma HeadRead(d: seq<byte>, h: seq<byte>)
    requires |d| == RECORD && |h| == CRC_AT && d[..CRC_AT] == h
    requires h[..8] == Le32(MAGIC) + Le16(VERSION) + Le16(RECORD)
    ensures Magic(d) == MAGIC && Version(d) == VERSION && Size(d) == RECORD
  {
    assert d[..8] == d[..CRC_AT][..8];
    EightBytes(d, d[..8]);
    Joined(d[..8], Le32(MAGIC), Le16(VERSION), Le16(RECORD));
    Le32Value(MAGIC);
    Le16Value(VERSION);
    Le16Value(RECORD);
  }

  lemma EightBytes(d: seq<byte>, g: seq<byte>)
    requires |d| >= 8 && g == d[..8]
    ensures d[0] == g[0] && d[1] == g[1] && d[2] == g[2] && d[3] == g[3]
    ensures d[4] == g[4] && d[5] == g[5] && d[6] == g[6] && d[7] == g[7]
  {
  }

  lemma Joined(g: seq<byte>, a: seq<byte>, b: seq<byte>, c: seq<byte>)
    requires |a| == 4 && |b| == 2 && |c| == 2 && g == a + b + c
    ensures |g| == 8 && g[0] == a[0] && g[1] == a[1] && g[2] == a[2] && g[3] == a[3]
    ensures g[4] == b[0] && g[5] == b[1] && g[6] == c[0] && g[7] == c[1]
  {
  }

  /** The boot after a save finds the very configuration saved exactly when its prefix is one of the
      two known; any other is replaced by the default address. */
  lemma SaveThenLoadIff(c: seq<byte>)
    requires |c| == RECORD
    ensures Loaded(Stamped(c)) == Stamped(c) <==> PrefixKnown(c)
    ensures Loaded(Stamped(c))[8..IP_AT] == c[8..IP_AT]
  {
    StampedAccepted(c);
    SameFields(c, Stamped(c));
    FixKeeps(Stamped(c));
  }

  lemma SameFields(c: seq<byte>, d: seq<byte>)
    requires |c| == RECORD && |d| == RECORD && d[8..CRC_AT] == c[8..CRC_AT]
    ensures d[PREFIX_AT] == c[PREFIX_AT] && d[8..IP_AT] == c[8..IP_AT]
  {
    assert d[PREFIX_AT] == d[8..CRC_AT][PREFIX_AT - 8] && c[PREFIX_AT] == c[8..CRC_AT][PREFIX_AT - 8];
    assert d[8..IP_AT] == d[8..CRC_AT][..IP_AT - 8] && c[8..IP_AT] == c[8..CRC_AT][..IP_AT - 8];
  }

  lemma FixKeeps(d: seq<byte>)
    requires |d| == RECORD
    ensures FixPrefix(d)[8..IP_AT] == d[8..IP_AT]
  {
  }

  lemma CrcByteMatters(c: seq<byte>, d: seq<byte>, k: nat)
    requires |c| == RECORD && |d| == RECORD && CRC_AT <= k < RECORD && d == c[k := d[k]] && d[k] != c[k]
    ensures StoredCrc(d) != StoredCrc(c)
  {
    assert forall j :: 0 <= j < RECORD && j != k ==> d[j] == c[j];
  }

  /** Damage to any single byte of an accepted record, the checksum's own bytes included, makes boot
      fall back to the defaults. */
  lemma OneByteDamageRejected(c: seq<byte>, k: nat, b: byte)
    requires |c| == RECORD && Accepted(c) && k < RECORD && b != c[k]
    ensures !Accepted(c[k := b]) && Loaded(c[k := b]) == Defaults()
  {
    var d := c[k := b];
    if k < CRC_AT {
      assert d[..CRC_AT] == c[..CRC_AT][k := b];
      OneByteChangesCrc(CRC_SEED, c[..CRC_AT], k, b);
      assert d[116] == c[116] && d[117] == c[117] && d[118] == c[118] && d[119] == c[119];
    } else {
      assert d[..CRC_AT] == c[..CRC_AT];
      CrcByteMatters(c, d, k);
    }
  }

  /** A blank flash gives the defaults. */
  lemma BlankRejected(c: seq<byte>)
    requires |c| == RECORD && forall k :: 0 <= k < RECORD ==> c[k] == 255
    ensures Loaded(c) == Defaults()
  {
    assert c[0] == 255 && c[1] == 255 && c[2] == 255 && c[3] == 255;
  }
}
