/** The message builder of dante_msg.c and the paged transmit-channel replies of dante_arc.c: item
    arrays filled in place, strings behind them, referenced by absolute offset. */
module ArcPaging {
  import opened Bytes
  import opened Geometry

  const HDR := 10
  const CODE_OK := 1
  const CODE_MORE := 0x8112
  const SPACE := 32              // item slots reserved in a page
  const SOFT_LIMIT := 800
  const MAX_PAYLOAD := 1400
  const ITEMS_AT := HDR + 2

  /** What the descriptor shared by all channels states. */
  datatype Format = Format(rate: nat, bits: nat)
  {
    ghost predicate Valid() { rate < TWO32 && bits < TWO16 }
  }

  /** The two replies: 8-byte channel items behind a common descriptor, 6-byte name items behind four
      zero bytes. */
  datatype Layout = TxChannels(fmt: Format) | FriendlyNames
  {
    ghost predicate Valid() { TxChannels? ==> fmt.Valid() }

    function ItemSize(): (n: nat)
      ensures n == 6 || n == 8
    {
      if TxChannels? then 8 else 6
    }

    function Lead(): (s: seq<byte>)
      ensures |s| == if TxChannels? then 16 else 4
    {
      if TxChannels? then
        Be32(fmt.rate) + [1, 1] + Be16(fmt.bits) + Be16(0x400) + Be16(fmt.bits) + Be16(fmt.bits) + Be16(0xE)
      else [0, 0, 0, 0]
    }

    /** Where item i stands. */
    function SlotAt(i: nat): nat { ITEMS_AT + if TxChannels? then 8 * i else 6 * i }

    function ArrayEnd(): nat { SlotAt(SPACE) }

    function StringsAt(): nat { ArrayEnd() + |Lead()| }

    /** The item of channel id whose name is at offset off. */
    function Item(id: nat, off: nat): (s: seq<byte>)
      ensures |s| == ItemSize()
    {
      if TxChannels? then Be16(id) + Be16(7) + Be16(ArrayEnd()) + Be16(off) else Be16(id) + Be16(id) + Be16(off)
    }

    /** Where in an item the name offset is. */
    function NameField(): nat { ItemSize() - 2 }
  }

  /** dante_tx_channel_name: the channel number in decimal. */
  function Name(id: nat): (s: seq<byte>)
    ensures 1 <= |s| <= 2 && forall k :: 0 <= k < |s| ==> 48 <= s[k] <= 57
  {
    if id >= 10 then [48 + id / 10 % 10, 48 + id % 10] else [48 + id % 10]
  }

  /** Bytes taken by the names of n channels from start on, terminators included. */
  function NamesLen(start: nat, n: nat): (r: nat)
    ensures 2 * n <= r <= 3 * n
  {
    if n == 0 then 0 else NamesLen(start, n - 1) + |Name(start + n - 1)| + 1
  }

  function NameAt(l: Layout, start: nat, i: nat): nat {
    l.StringsAt() + NamesLen(start, i)
  }

  // ---- the message builder ------------------------------------------------------------------------

  class Message {
    const buf: array<byte>
    var len: nat

    ghost predicate Valid()
      reads this, buf
    {
      HDR <= len <= buf.Length
    }

    ghost function Contents(): (s: seq<byte>)
      requires Valid()
      reads this, buf
      ensures |s| == len
    {
      buf[..len]
    }

    /** Start code, sequence number and first opcode are the request's. */
    constructor (b: array<byte>, req: seq<byte>)
      requires b.Length >= HDR && |req| >= 8
      modifies b
      ensures Valid() && buf == b && len == HDR
      ensures Contents() == [req[0], req[1], 0, 0, req[4], req[5], req[6], req[7], 0, 0]
    {
      buf, len := b, HDR;
      new;
      buf[0], buf[1], buf[2], buf[3] := req[0], req[1], 0, 0;
      buf[4], buf[5], buf[6], buf[7] := req[4], req[5], req[6], req[7];
      buf[8], buf[9] := 0, 0;
    }

    method U8(v: byte)
      requires Valid() && len < buf.Length
      modifies this`len, buf
      ensures Valid() && Contents() == old(Contents()) + [v]
    {
      buf[len] := v;
      len := len + 1;
    }

    method Append(s: seq<byte>)
      requires Valid() && len + |s| <= buf.Length
      modifies this`len, buf
      ensures Valid() && Contents() == old(Contents()) + s
    {
      var k := 0;
      while k < |s|
        invariant k <= |s| && len == old(len) + k <= buf.Length
        invariant buf[..len] == old(buf[..len]) + s[..k]
      {
        buf[len] := s[k];
        len, k := len + 1, k + 1;
      }
    }

    /** A string with its terminator; returns its absolute offset. */
    method Str(s: seq<byte>) returns (off: nat)
      requires Valid() && len + |s| + 1 <= buf.Length
      modifies this`len, buf
      ensures Valid() && off == old(len) && Contents() == old(Contents()) + s + [0]
    {
      off := len;
      Append(s);
      U8(0);
    }

    /** Bytes already written, replaced in place. */
    method Put(at: nat, s: seq<byte>)
      requires Valid() && at + |s| <= len
      modifies buf
      ensures Valid() && |Contents()| == |old(Contents())|
      ensures forall p :: 0 <= p < len ==> Contents()[p] == if at <= p < at + |s| then s[p - at] else old(Contents())[p]
    {
      var k := 0;
      while k < |s|
        invariant k <= |s|
        invariant forall p :: 0 <= p < len ==> buf[p] == if at <= p < at + k then s[p - at] else old(buf[p])
      {
        buf[at + k] := s[k];
        k := k + 1;
      }
    }

    /** Total length and second opcode. */
    method Finish(code: nat) returns (n: nat)
      requires Valid() && len < TWO16
      modifies buf
      ensures Valid() && n == len && |Contents()| == |old(Contents())|
      ensures Holds(Contents(), 2, Be16(len)) && Holds(Contents(), 8, Be16(code))
      ensures forall p :: 0 <= p < len && p !in {2, 3, 8, 9} ==> Contents()[p] == old(Contents())[p]
    {
      Put(2, Be16(len));
      Put(8, Be16(code));
      n := len;
    }
  }

  // ---- what a page is -------------------------------------------------------------------------------

  /** Bytes s stand at offset at of c. */
  predicate Holds(c: seq<byte>, at: nat, s: seq<byte>) {
    at + |s| <= |c| && forall k :: 0 <= k < |s| ==> c[at + k] == s[k]
  }

  /** Item i of the page and the name it points at. */
  ghost predicate ItemAt(l: Layout, c: seq<byte>, start: nat, i: nat) {
    Holds(c, l.SlotAt(i), l.Item(start + i, NameAt(l, start, i)))
    && Holds(c, NameAt(l, start, i), Name(start + i) + [0])
  }

  /** The body of a page, n channels from start on filled in and the slots after them zero; led says
      that what stands before the strings has been written. */
  ghost predicate Built(l: Layout, c: seq<byte>, start: nat, n: nat, led: bool) {
    n <= SPACE && (n > 0 ==> led)
    && |c| == (if led then NameAt(l, start, n) else l.ArrayEnd())
    && c[HDR] == SPACE
    && (forall i :: 0 <= i < n ==> ItemAt(l, c, start, i))
    && (forall p :: l.SlotAt(n) <= p < l.ArrayEnd() ==> c[p] == 0)
    && (led ==> Holds(c, l.ArrayEnd(), l.Lead()))
  }

  /** What stays put stays held. */
  lemma HoldsKept(c: seq<byte>, d: seq<byte>, at: nat, s: seq<byte>)
    requires Holds(c, at, s) && |c| <= |d| && forall p :: at <= p < at + |s| ==> d[p] == c[p]
    ensures Holds(d, at, s)
  {
  }

  /** d is c with slot n filled and more behind it. */
  ghost predicate SlotFilled(l: Layout, c: seq<byte>, d: seq<byte>, n: nat) {
    |c| <= |d| && forall p :: 0 <= p < |c| && !(l.SlotAt(n) <= p < l.SlotAt(n + 1)) ==> d[p] == c[p]
  }

  lemma ItemKept(l: Layout, c: seq<byte>, d: seq<byte>, start: nat, n: nat, i: nat)
    requires i < n < SPACE && ItemAt(l, c, start, i) && l.ArrayEnd() <= |c| && SlotFilled(l, c, d, n)
    ensures ItemAt(l, d, start, i)
  {
    HoldsKept(c, d, l.SlotAt(i), l.Item(start + i, NameAt(l, start, i)));
    HoldsKept(c, d, NameAt(l, start, i), Name(start + i) + [0]);
  }

  lemma ItemsKept(l: Layout, c: seq<byte>, d: seq<byte>, start: nat, n: nat)
    requires n < SPACE && l.ArrayEnd() <= |c| && SlotFilled(l, c, d, n) && ItemAt(l, d, start, n)
    requires forall i :: 0 <= i < n ==> ItemAt(l, c, start, i)
    ensures forall i :: 0 <= i < n + 1 ==> ItemAt(l, d, start, i)
  {
    forall i | 0 <= i < n + 1
      ensures ItemAt(l, d, start, i)
    {
      if i < n {
        assert ItemAt(l, c, start, i);
        ItemKept(l, c, d, start, n, i);
      }
    }
  }

  /** Appending a name and filling the next slot makes the next page. */
  lemma BuiltStep(l: Layout, c: seq<byte>, d: seq<byte>, start: nat, n: nat)
    requires n < SPACE && Built(l, c, start, n, true)
    requires |d| == |c| + |Name(start + n)| + 1 && SlotFilled(l, c, d, n)
    requires ItemAt(l, d, start, n)
    ensures Built(l, d, start, n + 1, true)
  {
    ItemsKept(l, c, d, start, n);
    HoldsKept(c, d, l.ArrayEnd(), l.Lead());
    assert forall p :: l.SlotAt(n + 1) <= p < l.ArrayEnd() ==> d[p] == c[p];
  }

  lemma LeadStep(l: Layout, c: seq<byte>, start: nat)
    requires Built(l, c, start, 0, false)
    ensures Built(l, c + l.Lead(), start, 0, true)
  {
  }

  /** s replaces what stands at offset at. */
  ghost predicate Patched(c: seq<byte>, d: seq<byte>, at: nat, s: seq<byte>) {
    |d| == |c| && forall p :: 0 <= p < |d| ==> d[p] == if at <= p < at + |s| then s[p - at] else c[p]
  }

  lemma PatchHolds(c: seq<byte>, d: seq<byte>, at: nat, s: seq<byte>, x: nat, t: seq<byte>)
    requires Patched(c, d, at, s) && at + |s| <= |c|
    ensures Holds(d, at, s)
    ensures Holds(c, x, t) && (x + |t| <= at || at + |s| <= x) ==> Holds(d, x, t)
  {
  }

  /** A page after its next channel: name appended, item patched in. */
  lemma ChannelAdded(l: Layout, c: seq<byte>, d: seq<byte>, start: nat, n: nat)
    requires n < SPACE && Built(l, c, start, n, true)
    requires Patched(c + Name(start + n) + [0], d, l.SlotAt(n), l.Item(start + n, |c|))
    ensures Built(l, d, start, n + 1, true)
  {
    var s := Name(start + n) + [0];
    assert c + Name(start + n) + [0] == c + s;
    assert Holds(c + s, |c|, s);
    PatchHolds(c + s, d, l.SlotAt(n), l.Item(start + n, |c|), |c|, s);
    BuiltStep(l, c, d, start, n);
  }

  /** The header and the count are no part of the body. */
  lemma BuiltApart(l: Layout, c: seq<byte>, d: seq<byte>, start: nat, n: nat, led: bool)
    requires Built(l, c, start, n, led) && |d| == |c| && d[HDR] == c[HDR]
    requires forall p :: ITEMS_AT <= p < |c| ==> d[p] == c[p]
    ensures Built(l, d, start, n, led)
  {
    forall i | 0 <= i < n
      ensures ItemAt(l, d, start, i)
    {
      assert ItemAt(l, c, start, i);
    }
  }

  /** Channels on the page asked for at start. */
  function PageCount(start: nat): (n: nat)
    ensures n <= SPACE
  {
    if start > CHANNELS then 0 else if CHANNELS + 1 - start < SPACE then CHANNELS + 1 - start else SPACE
  }

  function PageCode(start: nat): nat {
    if start + PageCount(start) <= CHANNELS then CODE_MORE else CODE_OK
  }

  /** A whole reply to a request for start. */
  ghost predicate Reply(l: Layout, c: seq<byte>, start: nat) {
    var n := PageCount(start);
    Built(l, c, start, n, n > 0) && c[HDR + 1] == n
    && Holds(c, 2, Be16(|c|)) && Holds(c, 8, Be16(PageCode(start)))
  }

  /** The start index of a request: the second word of its content, 1 if absent or zero. */
  function StartOf(content: seq<byte>): (s: nat)
    ensures s >= 1
  {
    if |content| >= 4 && Rd16(content[2], content[3]) != 0 then Rd16(content[2], content[3]) else 1
  }

  /** page_begin: the counts and the zeroed item array. */
  method BeginPage(l: Layout, start: nat, m: Message)
    requires m.Valid() && m.len == HDR && m.buf.Length >= MAX_PAYLOAD
    modifies m, m.buf
    ensures m.Valid() && Built(l, m.Contents(), start, 0, false) && m.Contents()[..HDR] == old(m.Contents())
  {
    m.U8(SPACE);
    m.U8(0);
    m.Append(seq(l.ItemSize() * SPACE, _ => 0));
  }

  /** One channel: what goes before the strings if this is the first, its name, its item. */
  method AddChannel(l: Layout, start: nat, n: nat, m: Message)
    requires l.Valid() && m.Valid() && n < SPACE && Built(l, m.Contents(), start, n, n > 0) && m.buf.Length >= MAX_PAYLOAD
    modifies m, m.buf
    ensures m.Valid() && Built(l, m.Contents(), start, n + 1, true)
    ensures m.Contents()[..HDR] == old(m.Contents())[..HDR]
  {
    if n == 0 {
      LeadStep(l, m.Contents(), start);
      m.Append(l.Lead());
    }
    ghost var c := m.Contents();
    AddItem(l, start, n, m);
    ChannelAdded(l, c, m.Contents(), start, n);
  }

  method AddItem(l: Layout, start: nat, n: nat, m: Message)
    requires l.Valid() && m.Valid() && n < SPACE && l.ArrayEnd() <= m.len && m.len + 3 <= m.buf.Length
    modifies m, m.buf
    ensures m.Valid() && m.Contents()[..HDR] == old(m.Contents())[..HDR]
    ensures Patched(old(m.Contents()) + Name(start + n) + [0], m.Contents(), l.SlotAt(n), l.Item(start + n, old(m.len)))
  {
    var off := m.Str(Name(start + n));
    m.Put(l.SlotAt(n), l.Item(start + n, off));
  }

  /** page_end and dante_msg_finish. */
  method EndPage(l: Layout, start: nat, n: nat, code: nat, m: Message)
    requires m.Valid() && n <= SPACE && Built(l, m.Contents(), start, n, n > 0)
    modifies m, m.buf
    ensures m.Valid() && m.len == old(m.len) && Built(l, m.Contents(), start, n, n > 0) && m.Contents()[HDR + 1] == n
    ensures Holds(m.Contents(), 2, Be16(m.len)) && Holds(m.Contents(), 8, Be16(code))
    ensures m.Contents()[..2] == old(m.Contents())[..2] && m.Contents()[4..8] == old(m.Contents())[4..8]
  {
    ghost var c := m.Contents();
    m.Put(HDR + 1, [n]);
    var _ := m.Finish(code);
    BuiltApart(l, c, m.Contents(), start, n, n > 0);
  }

  /** OP_GET_TX_CHANNELS and OP_GET_TX_FRIENDLY_NAMES. */
  method Page(l: Layout, content: seq<byte>, m: Message) returns (code: nat)
    requires l.Valid() && m.Valid() && m.len == HDR && m.buf.Length >= MAX_PAYLOAD
    modifies m, m.buf
    ensures m.Valid() && m.len <= MAX_PAYLOAD && code == PageCode(StartOf(content))
    ensures Reply(l, m.Contents(), StartOf(content))
    ensures m.Contents()[..2] == old(m.Contents())[..2] && m.Contents()[4..8] == old(m.Contents())[4..8]
  {
    var start := StartOf(content);
    BeginPage(l, start, m);
    var idx, actual := start, 0;
    while idx <= CHANNELS && actual < SPACE
      invariant m.Valid() && idx == start + actual && actual <= PageCount(start)
      invariant Built(l, m.Contents(), start, actual, actual > 0)
      invariant m.Contents()[..HDR] == old(m.Contents())[..HDR]
    {
      AddChannel(l, start, actual, m);
      idx, actual := idx + 1, actual + 1;
      if m.len >= SOFT_LIMIT {
        break;
      }
    }
    code := if idx <= CHANNELS then CODE_MORE else CODE_OK;
    HeaderParts(m.Contents(), old(m.Contents()));
    EndPage(l, start, actual, code, m);
  }

  lemma HeaderParts(c: seq<byte>, d: seq<byte>)
    requires |c| >= HDR && |d| >= HDR && c[..HDR] == d[..HDR]
    ensures c[..2] == d[..2] && c[4..8] == d[4..8]
  {
    assert c[..2] == c[..HDR][..2] && c[4..8] == c[..HDR][4..8];
    assert d[..2] == d[..HDR][..2] && d[4..8] == d[..HDR][4..8];
  }

  // ---- the client -------------------------------------------------------------------------------------

  datatype Channel = Channel(id: nat, name: seq<byte>)

  /** A terminated string at an absolute offset. */
  function CStr(c: seq<byte>, off: nat): seq<byte>
    decreases |c| - off
  {
    if off >= |c| || c[off] == 0 then [] else [c[off]] + CStr(c, off + 1)
  }

  function U16At(c: seq<byte>, at: nat): nat
    requires at + 2 <= |c|
  {
    Rd16(c[at], c[at + 1])
  }

  /** Item i, with the string it points at. */
  function ItemValue(l: Layout, c: seq<byte>, i: nat): Channel
    requires |c| >= l.ArrayEnd() && i < SPACE
  {
    Channel(U16At(c, l.SlotAt(i)), CStr(c, U16At(c, l.SlotAt(i) + l.NameField())))
  }

  /** What a client reads out of a reply: the filled items. */
  function Decode(l: Layout, c: seq<byte>): (r: seq<Channel>)
    requires |c| >= l.ArrayEnd() && c[HDR + 1] <= SPACE
    ensures |r| == c[HDR + 1] && forall i :: 0 <= i < |r| ==> r[i] == ItemValue(l, c, i)
  {
    seq(c[HDR + 1], i requires 0 <= i < c[HDR + 1] => ItemValue(l, c, i))
  }

  lemma {:induction false} StringRead(c: seq<byte>, off: nat, s: seq<byte>)
    requires Holds(c, off, s + [0]) && forall k :: 0 <= k < |s| ==> s[k] != 0
    ensures CStr(c, off) == s
    decreases |s|
  {
    if s == [] {
      assert (s + [0])[0] == 0;
    } else {
      assert c[off + 0] == (s + [0])[0];
      forall k | 0 <= k < |s|
        ensures c[off + 1 + k] == (s[1..] + [0])[k]
      {
        assert c[off + (k + 1)] == (s + [0])[k + 1];
      }
      StringRead(c, off + 1, s[1..]);
    }
  }

  lemma WordRead(c: seq<byte>, at: nat, v: nat)
    requires Holds(c, at, Be16(v)) && v < TWO16
    ensures U16At(c, at) == v
  {
    assert c[at + 0] == Be16(v)[0] && c[at + 1] == Be16(v)[1];
  }

  lemma Inside(c: seq<byte>, at: nat, s: seq<byte>, x: nat, t: seq<byte>)
    requires Holds(c, at, s) && x + |t| <= |s| && s[x..x + |t|] == t
    ensures Holds(c, at + x, t)
  {
    forall k | 0 <= k < |t|
      ensures c[at + x + k] == t[k]
    {
      assert s[x..x + |t|][k] == s[x + k];
      assert c[at + (x + k)] == s[x + k];
    }
  }

  lemma ItemParts(l: Layout, id: nat, off: nat)
    ensures var s := l.Item(id, off);
      s[0..2] == Be16(id) && s[l.NameField()..l.NameField() + 2] == Be16(off)
      && (l.TxChannels? ==> s[2..4] == Be16(7) && s[4..6] == Be16(l.ArrayEnd()))
      && (l.FriendlyNames? ==> s[2..4] == Be16(id))
  {
  }

  /** A field of a stored item. */
  lemma FieldRead(l: Layout, c: seq<byte>, at: nat, s: seq<byte>, x: nat, v: nat)
    requires Holds(c, at, s) && x + 2 <= |s| && s[x..x + 2] == Be16(v) && v < TWO16
    ensures at + x + 2 <= |c| && U16At(c, at + x) == v
  {
    Inside(c, at, s, x, Be16(v));
    WordRead(c, at + x, v);
  }

  lemma IdRead(l: Layout, c: seq<byte>, start: nat, i: nat)
    requires i < SPACE && start + i < TWO16 && ItemAt(l, c, start, i) && |c| >= l.ArrayEnd()
    ensures U16At(c, l.SlotAt(i)) == start + i
  {
    ItemParts(l, start + i, NameAt(l, start, i));
    FieldRead(l, c, l.SlotAt(i), l.Item(start + i, NameAt(l, start, i)), 0, start + i);
  }

  lemma NameRead(l: Layout, c: seq<byte>, start: nat, i: nat)
    requires i < SPACE && ItemAt(l, c, start, i) && |c| >= l.ArrayEnd()
    ensures CStr(c, U16At(c, l.SlotAt(i) + l.NameField())) == Name(start + i)
  {
    NameBehind(l, c, l.SlotAt(i), start + i, NameAt(l, start, i), Name(start + i));
  }

  /** The name behind an item's pointer. */
  lemma NameBehind(l: Layout, c: seq<byte>, slot: nat, id: nat, off: nat, name: seq<byte>)
    requires Holds(c, slot, l.Item(id, off)) && Holds(c, off, name + [0]) && off < TWO16
    requires forall k :: 0 <= k < |name| ==> name[k] != 0
    ensures slot + l.NameField() + 2 <= |c| && CStr(c, U16At(c, slot + l.NameField())) == name
  {
    ItemParts(l, id, off);
    FieldRead(l, c, slot, l.Item(id, off), l.NameField(), off);
    StringRead(c, off, name);
  }

  lemma CommonRead(l: Layout, c: seq<byte>, start: nat, i: nat)
    requires i < SPACE && ItemAt(l, c, start, i) && |c| >= l.ArrayEnd() && l.TxChannels?
    ensures U16At(c, l.SlotAt(i) + 4) == l.ArrayEnd()
  {
    ItemParts(l, start + i, NameAt(l, start, i));
    FieldRead(l, c, l.SlotAt(i), l.Item(start + i, NameAt(l, start, i)), 4, l.ArrayEnd());
  }

  /** n channels from start on. */
  function Channels(start: nat, n: nat): (s: seq<Channel>)
    ensures |s| == n && forall i :: 0 <= i < n ==> s[i] == Channel(start + i, Name(start + i))
  {
    seq(n, i requires 0 <= i < n => Channel(start + i, Name(start + i)))
  }

  lemma ReplySize(l: Layout, c: seq<byte>, start: nat)
    requires Reply(l, c, start)
    ensures l.ArrayEnd() <= |c| <= MAX_PAYLOAD && c[HDR + 1] == PageCount(start)
  {
  }

  /** Item i of the page reads as channel start + i. */
  ghost predicate Reads(l: Layout, c: seq<byte>, start: nat, i: nat)
    requires |c| >= l.ArrayEnd() && i < SPACE
  {
    ItemValue(l, c, i) == Channel(start + i, Name(start + i))
  }

  lemma ItemDecodes(l: Layout, c: seq<byte>, start: nat, i: nat)
    requires Reply(l, c, start) && i < PageCount(start) && |c| >= l.ArrayEnd()
    ensures Reads(l, c, start, i)
  {
    assert ItemAt(l, c, start, i);
    IdRead(l, c, start, i);
    NameRead(l, c, start, i);
  }

  lemma PageDecodes(l: Layout, c: seq<byte>, start: nat)
    requires |c| >= l.ArrayEnd() && c[HDR + 1] <= SPACE
    requires forall i :: 0 <= i < c[HDR + 1] ==> Reads(l, c, start, i)
    ensures Decode(l, c) == Channels(start, c[HDR + 1])
  {
    var d, e := Decode(l, c), Channels(start, c[HDR + 1]);
    forall i | 0 <= i < |d|
      ensures d[i] == e[i]
    {
      assert Reads(l, c, start, i);
    }
  }

  /** Decoding a reply through its absolute offsets gives back exactly the channels written; the
      header states the length, and whether there are more. */
  lemma ReplyDecodes(l: Layout, c: seq<byte>, start: nat)
    requires Reply(l, c, start)
    ensures l.ArrayEnd() <= |c| <= MAX_PAYLOAD && c[HDR + 1] <= SPACE
    ensures Decode(l, c) == Channels(start, PageCount(start))
    ensures U16At(c, 8) == PageCode(start) && U16At(c, 2) == |c|
  {
    ReplySize(l, c, start);
    forall i | 0 <= i < PageCount(start)
      ensures Reads(l, c, start, i)
    {
      ItemDecodes(l, c, start, i);
    }
    PageDecodes(l, c, start);
    WordRead(c, 8, PageCode(start));
    WordRead(c, 2, |c|);
  }

  /** Every channel item of a reply points at the one common descriptor. */
  lemma CommonShared(l: Layout, c: seq<byte>, start: nat, i: nat)
    requires Reply(l, c, start) && i < PageCount(start) && l.TxChannels?
    ensures |c| >= l.ArrayEnd() && Holds(c, U16At(c, l.SlotAt(i) + 4), l.Lead())
  {
    ReplySize(l, c, start);
    assert ItemAt(l, c, start, i);
    CommonRead(l, c, start, i);
  }

  /** A client's exchange: it asks from start on, reads the page, and goes on behind it for as long
      as the code says there is more. */
  ghost predicate Session(l: Layout, pages: seq<seq<byte>>, start: nat)
    decreases |pages|
  {
    pages != [] && Reply(l, pages[0], start)
    && if PageCode(start) == CODE_MORE then Session(l, pages[1..], start + PageCount(start)) else |pages| == 1
  }

  /** A page a client can read: at least one item, within one datagram. */
  ghost predicate Readable(l: Layout, p: seq<byte>) {
    l.ArrayEnd() <= |p| <= MAX_PAYLOAD && 1 <= p[HDR + 1] <= SPACE
  }

  ghost function Heard(l: Layout, pages: seq<seq<byte>>): seq<Channel>
    requires forall k :: 0 <= k < |pages| ==> Readable(l, pages[k])
  {
    if pages == [] then []
    else
      assert Readable(l, pages[0]);
      assert forall k :: 0 <= k < |pages| - 1 ==> pages[1..][k] == pages[k + 1];
      Decode(l, pages[0]) + Heard(l, pages[1..])
  }

  lemma ChannelsSplit(start: nat, n: nat, m: nat)
    ensures Channels(start, n) + Channels(start + n, m) == Channels(start, n + m)
  {
  }

  lemma {:induction false} PagesReadable(l: Layout, pages: seq<seq<byte>>, start: nat, k: nat)
    requires 1 <= start <= CHANNELS && Session(l, pages, start) && k < |pages|
    ensures Readable(l, pages[k])
    decreases k
  {
    ReplySize(l, pages[0], start);
    if k > 0 {
      assert pages[k] == pages[1..][k - 1];
      PagesReadable(l, pages[1..], start + PageCount(start), k - 1);
    }
  }

  lemma {:induction false} AllReadable(l: Layout, pages: seq<seq<byte>>, start: nat)
    requires 1 <= start <= CHANNELS && Session(l, pages, start)
    ensures forall k :: 0 <= k < |pages| ==> Readable(l, pages[k])
  {
    forall k | 0 <= k < |pages|
      ensures Readable(l, pages[k])
    {
      PagesReadable(l, pages, start, k);
    }
  }

  lemma FirstHeard(l: Layout, pages: seq<seq<byte>>, start: nat)
    requires 1 <= start <= CHANNELS && Session(l, pages, start)
    ensures pages != [] && Readable(l, pages[0])
    ensures Decode(l, pages[0]) == Channels(start, if start + SPACE <= CHANNELS then SPACE else CHANNELS + 1 - start)
  {
    PagesReadable(l, pages, start, 0);
    ReplyDecodes(l, pages[0], start);
  }

  lemma HeardSplit(l: Layout, pages: seq<seq<byte>>, start: nat, n: nat, rest: nat)
    requires pages != [] && (forall k :: 0 <= k < |pages| ==> Readable(l, pages[k]))
    requires Readable(l, pages[0]) && Decode(l, pages[0]) == Channels(start, n)
    requires forall k :: 0 <= k < |pages| - 1 ==> Readable(l, pages[1..][k])
    requires Heard(l, pages[1..]) == Channels(start + n, rest)
    ensures Heard(l, pages) == Channels(start, n + rest)
  {
    ChannelsSplit(start, n, rest);
  }

  lemma HeardLast(l: Layout, p: seq<byte>, start: nat, n: nat)
    requires Readable(l, p) && Decode(l, p) == Channels(start, n)
    ensures Heard(l, [p]) == Channels(start, n)
  {
    assert [p][1..] == [];
  }

  lemma RestHeard(l: Layout, pages: seq<seq<byte>>, start: nat)
    requires 1 <= start && start + SPACE <= CHANNELS && pages != []
    requires forall k :: 0 <= k < |pages| ==> Readable(l, pages[k])
    requires Readable(l, pages[0]) && Decode(l, pages[0]) == Channels(start, SPACE)
    requires forall k :: 0 <= k < |pages| - 1 ==> Readable(l, pages[1..][k])
    requires Heard(l, pages[1..]) == Channels(start + SPACE, CHANNELS + 1 - start - SPACE)
    ensures Heard(l, pages) == Channels(start, CHANNELS + 1 - start)
  {
    HeardSplit(l, pages, start, SPACE, CHANNELS + 1 - start - SPACE);
  }

  lemma LastHeard(l: Layout, pages: seq<seq<byte>>, start: nat)
    requires 1 <= start <= CHANNELS < start + SPACE && Session(l, pages, start)
    ensures |pages| == 1 && Readable(l, pages[0]) && Heard(l, pages) == Channels(start, CHANNELS + 1 - start)
  {
    SessionStep(l, pages, start);
    FirstHeard(l, pages, start);
    HeardLast(l, pages[0], start, CHANNELS + 1 - start);
    assert pages == [pages[0]];
  }

  /** A client that starts anywhere in range hears every channel from there to the last exactly once,
      in order, in nonempty pages that each fit a datagram. */
  lemma {:induction false} EveryChannelOnce(l: Layout, pages: seq<seq<byte>>, start: nat)
    requires 1 <= start <= CHANNELS && Session(l, pages, start)
    ensures forall k :: 0 <= k < |pages| ==> Readable(l, pages[k])
    ensures Heard(l, pages) == Channels(start, CHANNELS + 1 - start)
    decreases |pages|
  {
    AllReadable(l, pages, start);
    if start + SPACE <= CHANNELS {
      SessionStep(l, pages, start);
      EveryChannelOnce(l, pages[1..], start + SPACE);
      FirstHeard(l, pages, start);
      RestHeard(l, pages, start);
    } else {
      LastHeard(l, pages, start);
    }
  }

  lemma SessionStep(l: Layout, pages: seq<seq<byte>>, start: nat)
    requires 1 <= start <= CHANNELS && Session(l, pages, start)
    ensures pages != []
    ensures if start + SPACE <= CHANNELS then Session(l, pages[1..], start + SPACE) else |pages| == 1
  {
  }

  /** From channel 1 it takes two pages. */
  lemma {:induction false} SessionLength(l: Layout, pages: seq<seq<byte>>, start: nat)
    requires 1 <= start <= CHANNELS && Session(l, pages, start)
    ensures |pages| == (CHANNELS - start) / SPACE + 1
    decreases |pages|
  {
    SessionStep(l, pages, start);
    if start + SPACE <= CHANNELS {
      SessionLength(l, pages[1..], start + SPACE);
    }
  }

  /** The names tell the channels apart. */
  lemma NamesDistinct(i: nat, j: nat)
    requires i < 100 && j < 100 && Name(i) == Name(j)
    ensures i == j
  {
    var x, y := Name(i), Name(j);
    assert |x| == |y| && x[0] == y[0];
    TwoDigits(i);
    TwoDigits(j);
    if i >= 10 {
      assert j >= 10 && x[1] == y[1];
    }
  }

  lemma TwoDigits(i: nat)
    requires i < 100
    ensures i == 10 * (i / 10 % 10) + i % 10
  {
  }
}
