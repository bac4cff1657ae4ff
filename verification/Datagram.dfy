/** UDP over net.c: the port table, headers built in place around a payload, and the receive path
    that takes a frame apart and hands it to the bound handler. */
module Datagram {
  import opened Bytes
  import opened Net
  import Checksum

  // ---- the port table -------------------------------------------------------------------------------

  /** A bound port; handlers are known by number. */
  datatype Binding = Binding(port: nat, handler: Option<nat>)

  function PortAt(bs: seq<Binding>, port: nat): (k: nat)
    ensures k <= |bs| && (k < |bs| ==> bs[k].port == port) && forall j :: 0 <= j < k ==> bs[j].port != port
  {
    if bs == [] then 0
    else if bs[0].port == port then 0
    else
      assert forall j :: 0 <= j < |bs| - 1 ==> bs[1..][j] == bs[j + 1];
      1 + PortAt(bs[1..], port)
  }

  predicate Serves(b: Binding, port: nat) {
    b.port == port && b.handler.Some?
  }

  /** The first entry that serves a port, |bs| if none does. */
  function ServerAt(bs: seq<Binding>, port: nat): (k: nat)
    ensures k <= |bs| && (k < |bs| ==> Serves(bs[k], port)) && forall j :: 0 <= j < k ==> !Serves(bs[j], port)
  {
    if bs == [] then 0
    else if Serves(bs[0], port) then 0
    else
      assert forall j :: 0 <= j < |bs| - 1 ==> bs[1..][j] == bs[j + 1];
      1 + ServerAt(bs[1..], port)
  }

  /** net_udp_bind: replace, else take the first free entry, else fail. */
  function Bound(bs: seq<Binding>, port: nat, h: nat): Option<seq<Binding>> {
    var k, free := PortAt(bs, port), PortAt(bs, 0);
    if k < |bs| then Some(bs[k := Binding(port, Some(h))])
    else if free < |bs| then Some(bs[free := Binding(port, Some(h))])
    else None
  }

  /** Bound ports have a handler and are bound once. */
  ghost predicate PortsSound(bs: seq<Binding>) {
    (forall i :: 0 <= i < |bs| && bs[i].port != 0 ==> bs[i].handler.Some?)
    && forall i, j :: 0 <= i < j < |bs| && bs[i].port != 0 ==> bs[i].port != bs[j].port
  }

  class PortTable {
    const bs: array<Binding>

    constructor ()
      ensures fresh(bs) && bs.Length == BINDINGS && PortsSound(bs[..])
      ensures forall k :: 0 <= k < BINDINGS ==> bs[k] == Binding(0, None)
    {
      bs := new Binding[BINDINGS](_ => Binding(0, None));
    }

    method Bind(port: nat, h: nat) returns (ok: bool)
      requires bs.Length == BINDINGS
      modifies bs
      ensures ok == Bound(old(bs[..]), port, h).Some?
      ensures bs[..] == if ok then Bound(old(bs[..]), port, h).value else old(bs[..])
    {
      ghost var was := bs[..];
      for i := 0 to BINDINGS
        invariant bs[..] == was && forall j :: 0 <= j < i ==> was[j].port != port
      {
        if bs[i].port == port {
          assert PortAt(was, port) == i;
          bs[i] := Binding(port, Some(h));
          return true;
        }
      }
      for i := 0 to BINDINGS
        invariant bs[..] == was && forall j :: 0 <= j < i ==> was[j].port != 0
      {
        if bs[i].port == 0 {
          assert PortAt(was, 0) == i;
          bs[i] := Binding(port, Some(h));
          return true;
        }
      }
      ok := false;
    }
  }

  /** A bind either fails, exactly when the port is new and the table full, or leaves that port served
      by that handler and every other port as it was. */
  lemma BindServes(bs: seq<Binding>, port: nat, h: nat, other: nat)
    requires PortsSound(bs) && port != 0 && other != 0 && other != port
    ensures Bound(bs, port, h).None? <==> forall i :: 0 <= i < |bs| ==> bs[i].port != port && bs[i].port != 0
    ensures Bound(bs, port, h).Some? ==>
      var d := Bound(bs, port, h).value;
      PortsSound(d) && |d| == |bs|
      && ServerAt(d, port) < |d| && d[ServerAt(d, port)].handler == Some(h)
      && ServerAt(d, other) == ServerAt(bs, other)
      && (ServerAt(bs, other) < |bs| ==> d[ServerAt(bs, other)] == bs[ServerAt(bs, other)])
  {
    if Bound(bs, port, h).Some? {
      var d := Bound(bs, port, h).value;
      var x := if PortAt(bs, port) < |bs| then PortAt(bs, port) else PortAt(bs, 0);
      assert Serves(d[x], port);
      var k, j := ServerAt(bs, other), ServerAt(d, other);
      assert forall i :: 0 <= i < |bs| ==> (Serves(d[i], other) <==> Serves(bs[i], other));
    }
  }

  // ---- building a datagram --------------------------------------------------------------------------

  function Ttl(dst: Ip): byte {
    if IsMcast(dst) then 32 else 64
  }

  function IpHead(dst: Ip, len: nat, tos: byte, id: nat): (s: seq<byte>)
    ensures |s| == 10
  {
    [0x45, tos] + Be16(IPH + UDPH + len) + Be16(id) + [0, 0, Ttl(dst), 17]
  }

  /** The IPv4 header with a zeroed checksum field. */
  function IpBare(src: Ip, dst: Ip, len: nat, tos: byte, id: nat): (s: seq<byte>)
    ensures |s| == IPH
  {
    IpHead(dst, len, tos, id) + [0, 0] + (src + dst)
  }

  function IpSum(src: Ip, dst: Ip, len: nat, tos: byte, id: nat): (c: nat)
    ensures c < TWO16
  {
    65535 - Checksum.Fold(Checksum.WordSum(IpBare(src, dst, len, tos, id)))
  }

  function IpPart(src: Ip, dst: Ip, len: nat, tos: byte, id: nat): (s: seq<byte>)
    ensures |s| == IPH
  {
    IpHead(dst, len, tos, id) + Be16(IpSum(src, dst, len, tos, id)) + (src + dst)
  }

  function EthPart(dmac: Mac, smac: Mac): (s: seq<byte>)
    ensures |s| == ETH
  {
    dmac + smac + [0x08, 0x00]
  }

  function UdpPart(sport: nat, dport: nat, len: nat): (s: seq<byte>)
    ensures |s| == UDPH
  {
    Be16(sport) + Be16(dport) + Be16(UDPH + len) + [0, 0]
  }

  /** Ethernet, IPv4 and UDP headers. */
  function Header(dmac: Mac, smac: Mac, src: Ip, dst: Ip, sport: nat, dport: nat, len: nat,
                  tos: byte, id: nat): (s: seq<byte>)
    ensures |s| == PAYLOAD_AT
  {
    EthPart(dmac, smac) + IpPart(src, dst, len, tos, id) + UdpPart(sport, dport, len)
  }

  /** The header of every datagram built verifies. */
  lemma BuiltHeaderVerifies(src: Ip, dst: Ip, len: nat, tos: byte, id: nat)
    ensures Checksum.Verifies(IpPart(src, dst, len, tos, id))
  {
    var a, b := IpHead(dst, len, tos, id), src + dst;
    assert Checksum.WordSum(IpBare(src, dst, len, tos, id)) > 0 by {
      assert IpBare(src, dst, len, tos, id)[0] == 0x45;
    }
    Checksum.InsertedChecksumVerifies(a, b, IpSum(src, dst, len, tos, id));
  }

  class Sender {
    const ip: Ip
    const mac: Mac
    const arp: ArpCache
    const tx: array<byte>  // the transmit slot
    var ident: nat

    ghost predicate Valid()
      reads this, arp, arp.entries
    {
      arp.Valid() && tx.Length >= PAYLOAD_AT + MAX_PAYLOAD && ident < TWO16
    }

    constructor (a: Ip, m: Mac)
      ensures Valid() && ip == a && mac == m && fresh(arp) && fresh(arp.entries) && fresh(tx)
    {
      ip, mac, ident := a, m, 0;
      arp := new ArpCache();
      tx := new byte[2048](_ => 0);
    }

    method Put(at: nat, s: seq<byte>)
      requires at + |s| <= tx.Length
      modifies tx
      ensures tx[..] == old(tx[..at]) + s + old(tx[at + |s|..])
    {
      var k := 0;
      while k < |s|
        invariant k <= |s|
        invariant forall j :: 0 <= j < tx.Length ==> tx[j] == if at <= j < at + k then s[j - at] else old(tx[j])
      {
        tx[at + k] := s[k];
        k := k + 1;
      }
    }

    /** net_udp_commit: headers around the payload already in the slot; returns the frame's length. */
    method Commit(dst: Ip, dport: nat, sport: nat, len: nat, tos: byte) returns (sent: Option<nat>)
      requires Valid() && dport < TWO16 && sport < TWO16
      modifies this`ident, tx
      ensures Valid()
      ensures sent == if len > MAX_PAYLOAD || Resolve(arp.Abs(), dst).None? then None
                      else Some(if PAYLOAD_AT + len < MIN_FRAME then MIN_FRAME else PAYLOAD_AT + len)
      ensures var id := if tos == TOS_AUDIO then 0 else old(ident);
        tx[..] == if sent.None? then old(tx[..])
                  else Header(Resolve(arp.Abs(), dst).value, mac, ip, dst, sport, dport, len, tos, id)
                       + old(tx[PAYLOAD_AT..])
      ensures ident == if sent.Some? && tos != TOS_AUDIO then (old(ident) + 1) % TWO16 else old(ident)
    {
      if len > MAX_PAYLOAD {
        return None;
      }
      var dmac := arp.Lookup(dst);
      if dmac.None? {
        return None;
      }
      var id := 0;
      if tos != TOS_AUDIO {
        id, ident := ident, (ident + 1) % TWO16;
      }
      WriteHeaders(dmac.value, dst, sport, dport, len, tos, id);
      sent := Some(if PAYLOAD_AT + len < MIN_FRAME then MIN_FRAME else PAYLOAD_AT + len);
    }

    method WriteHeaders(dmac: Mac, dst: Ip, sport: nat, dport: nat, len: nat, tos: byte, id: nat)
      requires tx.Length >= PAYLOAD_AT
      modifies tx
      ensures tx[..] == Header(dmac, mac, ip, dst, sport, dport, len, tos, id) + old(tx[PAYLOAD_AT..])
    {
      ghost var t0 := tx[..];
      Put(0, EthPart(dmac, mac));
      ghost var t1 := tx[..];
      Patched(t0, 0, EthPart(dmac, mac), t1);
      Put(ETH, IpBare(ip, dst, len, tos, id));
      ghost var t2 := tx[..];
      Patched(t1, ETH, IpBare(ip, dst, len, tos, id), t2);
      var ck := Checksum.NetChecksum(tx[ETH..ETH + IPH], 0);
      Checksum.ShortDataFits(tx[ETH..ETH + IPH]);
      Put(ETH + 10, Be16(ck));
      ghost var t3 := tx[..];
      Patched(t2, ETH + 10, Be16(ck), t3);
      ChecksumIn(ip, dst, len, tos, id, t2, t3);
      Put(ETH + IPH, UdpPart(sport, dport, len));
      Patched(t3, ETH + IPH, UdpPart(sport, dport, len), tx[..]);
      assert tx[..ETH + IPH] == EthPart(dmac, mac) + IpPart(ip, dst, len, tos, id);
      assert tx[PAYLOAD_AT..] == t3[PAYLOAD_AT..] == t2[PAYLOAD_AT..] == t1[PAYLOAD_AT..] == t0[PAYLOAD_AT..];
    }
  }

  /** u is t with s written at offset at. */
  lemma Patched(t: seq<byte>, at: nat, s: seq<byte>, u: seq<byte>)
    requires at + |s| <= |t| && u == t[..at] + s + t[at + |s|..]
    ensures |u| == |t| && u[..at] == t[..at] && u[at..at + |s|] == s
    ensures forall k :: at + |s| <= k <= |t| ==> u[k..] == t[k..]
  {
  }

  /** The checksum written into the bare header completes it. */
  lemma ChecksumIn(src: Ip, dst: Ip, len: nat, tos: byte, id: nat, t: seq<byte>, u: seq<byte>)
    requires |t| >= ETH + IPH && t[ETH..ETH + IPH] == IpBare(src, dst, len, tos, id)
    requires u == t[..ETH + 10] + Be16(IpSum(src, dst, len, tos, id)) + t[ETH + 12..]
    ensures u[..ETH] == t[..ETH] && u[ETH..ETH + IPH] == IpPart(src, dst, len, tos, id)
  {
    assert t[ETH..ETH + 10] == t[ETH..ETH + IPH][..10] == IpHead(dst, len, tos, id);
    assert t[ETH + 12..ETH + IPH] == t[ETH..ETH + IPH][12..] == src + dst;
  }

  // ---- receiving ------------------------------------------------------------------------------------

  /** A receiver: its address, prefix length and port table. */
  datatype Host = Host(ip: Ip, prefix: nat, ports: seq<Binding>)

  /** ip_for_us. */
  predicate ForUs(h: Host, d: Ip) {
    d == h.ip || IsBcast(d) || IsMcast(d)
    || (h.prefix == 24 && d[0] == h.ip[0] && d[1] == h.ip[1] && d[2] == h.ip[2] && d[3] == 255)
    || (h.prefix != 24 && d[0] == h.ip[0] && d[1] == h.ip[1] && d[2] == 255 && d[3] == 255)
  }

  /** What becomes of a received frame. Underflow is an IP total length below the header length,
      which the code takes for a huge payload. */
  datatype Outcome =
    | NotTaken | Arp | NotOurs | Dropped | Icmp | Igmp | Ignored | Unbound | Underflow
    | Delivered(handler: nat, src: Ip, dst: Ip, sport: nat, payload: seq<byte>)

  function U16At(f: seq<byte>, at: nat): nat
    requires at + 2 <= |f|
  {
    Rd16(f[at], f[at + 1])
  }

  /** A UDP segment of plen bytes at offset at of the frame. */
  function ReceiveUdp(h: Host, f: seq<byte>, at: nat, plen: nat): Outcome
    requires ETH + IPH <= at && at + plen <= |f|
  {
    if plen < UDPH then Ignored
    else
      var ulen := U16At(f, at + 4);
      if ulen < UDPH || ulen > plen then Dropped
      else
        var k := ServerAt(h.ports, U16At(f, at + 2));
        if k < |h.ports| then
          Delivered(h.ports[k].handler.value, f[ETH + 12..ETH + 16], f[ETH + 16..ETH + 20], U16At(f, at),
                    f[at + UDPH..at + ulen])
        else Unbound
  }

  /** net_rx_frame. */
  function Receive(h: Host, f: seq<byte>): Outcome {
    if |f| < ETH then NotTaken
    else if U16At(f, 12) == 0x0806 then Arp
    else if U16At(f, 12) != 0x0800 || |f| < ETH + IPH || f[ETH] / 16 != 4 then NotTaken
    else
      var ihl := f[ETH] % 16 * 4;
      if ihl < IPH || |f| < ETH + ihl then NotTaken
      else
        var total := U16At(f, ETH + 2);
        if |f| < ETH + total then Dropped
        else if !ForUs(h, f[ETH + 16..ETH + 20]) then NotOurs
        else if total < ihl then Underflow
        else match f[ETH + 9]
          case 1 => Icmp
          case 2 => Igmp
          case 17 => ReceiveUdp(h, f, ETH + ihl, total - ihl)
          case _ => Ignored
  }

  /** A frame whose IPv4 packet is whole and addressed to the host; its sender is then learned. */
  predicate Taken(h: Host, f: seq<byte>) {
    |f| >= ETH + IPH && U16At(f, 12) == 0x0800 && f[ETH] / 16 == 4
    && IPH <= f[ETH] % 16 * 4 && ETH + f[ETH] % 16 * 4 <= |f| && ETH + U16At(f, ETH + 2) <= |f|
    && ForUs(h, f[ETH + 16..ETH + 20])
  }

  class Receiver {
    const ip: Ip
    const prefix: nat
    const arp: ArpCache
    const table: PortTable

    ghost predicate Valid()
      reads this, arp, arp.entries, table
    {
      arp.Valid() && table.bs.Length == BINDINGS
    }

    ghost function Abs(): Host
      reads this, table, table.bs
    {
      Host(ip, prefix, table.bs[..])
    }

    constructor (a: Ip, p: nat)
      ensures Valid() && ip == a && prefix == p && fresh(arp) && fresh(arp.entries) && fresh(table) && fresh(table.bs)
    {
      ip, prefix := a, p;
      arp := new ArpCache();
      table := new PortTable();
    }

    method Udp(f: seq<byte>, at: nat, plen: nat) returns (o: Outcome)
      requires Valid() && ETH + IPH <= at && at + plen <= |f|
      ensures o == ReceiveUdp(Abs(), f, at, plen)
    {
      if plen < UDPH {
        return Ignored;
      }
      var sport, dport, ulen := U16At(f, at), U16At(f, at + 2), U16At(f, at + 4);
      if ulen < UDPH || ulen > plen {
        return Dropped;
      }
      for i := 0 to BINDINGS
        invariant forall j :: 0 <= j < i ==> !Serves(table.bs[..][j], dport)
      {
        if table.bs[i].port == dport && table.bs[i].handler.Some? {
          assert ServerAt(table.bs[..], dport) == i;
          return Delivered(table.bs[i].handler.value, f[ETH + 12..ETH + 16], f[ETH + 16..ETH + 20], sport,
                           f[at + UDPH..at + ulen]);
        }
      }
      o := Unbound;
    }

    method RxFrame(f: seq<byte>) returns (o: Outcome)
      requires Valid()
      modifies arp, arp.entries
      ensures Valid() && o == Receive(Abs(), f)
      ensures arp.Abs() == if Taken(Abs(), f) then Learned(old(arp.Abs()), f[26..30], f[6..12]) else old(arp.Abs())
    {
      if |f| < ETH {
        return NotTaken;
      }
      var et := U16At(f, 12);
      if et == 0x0806 {
        return Arp;
      }
      if et != 0x0800 || |f| < ETH + IPH || f[ETH] / 16 != 4 {
        return NotTaken;
      }
      var ihl := f[ETH] % 16 * 4;
      if ihl < IPH || |f| < ETH + ihl {
        return NotTaken;
      }
      var total := U16At(f, ETH + 2);
      if |f| < ETH + total {
        return Dropped;
      }
      if !ForUs(Host(ip, prefix, []), f[ETH + 16..ETH + 20]) {
        return NotOurs;
      }
      arp.Learn(f[26..30], f[6..12]);
      if total < ihl {
        return Underflow;
      }
      match f[ETH + 9] {
        case 1 => o := Icmp;
        case 2 => o := Igmp;
        case 17 => o := Udp(f, ETH + ihl, total - ihl);
        case _ => o := Ignored;
      }
    }
  }

  /** Where the fields of a built header are. */
  lemma HeaderFields(dmac: Mac, smac: Mac, src: Ip, dst: Ip, sport: nat, dport: nat, len: nat, tos: byte, id: nat)
    requires sport < TWO16 && dport < TWO16 && len <= MAX_PAYLOAD
    ensures var h := Header(dmac, smac, src, dst, sport, dport, len, tos, id);
      U16At(h, 12) == 0x0800 && h[14] == 0x45 && U16At(h, 16) == IPH + UDPH + len && h[23] == 17
      && h[26..30] == src && h[30..34] == dst && U16At(h, 34) == sport && U16At(h, 36) == dport
      && U16At(h, 38) == UDPH + len && h[6..12] == smac && h[..6] == dmac
  {
    Checksum.Be16Value(IPH + UDPH + len);
    Checksum.Be16Value(sport);
    Checksum.Be16Value(dport);
    Checksum.Be16Value(UDPH + len);
  }

  lemma Prefix(a: seq<byte>, b: seq<byte>, i: nat, j: nat)
    requires i <= j <= |a|
    ensures (a + b)[i..j] == a[i..j]
  {
  }

  /** Where the fields of a built frame are, with its payload and any padding. */
  lemma FrameFields(dmac: Mac, smac: Mac, src: Ip, dst: Ip, sport: nat, dport: nat, tos: byte, id: nat,
                    payload: seq<byte>, pad: seq<byte>)
    requires sport < TWO16 && dport < TWO16 && |payload| <= MAX_PAYLOAD
    ensures var f := Header(dmac, smac, src, dst, sport, dport, |payload|, tos, id) + payload + pad;
      U16At(f, 12) == 0x0800 && f[14] == 0x45 && U16At(f, 16) == IPH + UDPH + |payload| && f[23] == 17
      && f[26..30] == src && f[30..34] == dst && U16At(f, 34) == sport && U16At(f, 36) == dport
      && U16At(f, 38) == UDPH + |payload| && f[ETH..ETH + IPH] == IpPart(src, dst, |payload|, tos, id)
      && f[PAYLOAD_AT..PAYLOAD_AT + |payload|] == payload
  {
    var hd := Header(dmac, smac, src, dst, sport, dport, |payload|, tos, id);
    HeaderFields(dmac, smac, src, dst, sport, dport, |payload|, tos, id);
    assert hd + payload + pad == hd + (payload + pad);
    Prefix(hd, payload + pad, 26, 30);
    Prefix(hd, payload + pad, 30, 34);
    Prefix(hd, payload + pad, ETH, ETH + IPH);
    assert hd[ETH..ETH + IPH] == IpPart(src, dst, |payload|, tos, id);
  }

  /** THE ROUND TRIP. A frame built by a commit, whatever the padding to the minimum length holds,
      received by a host that takes its destination address and has its port bound: the handler gets
      the sender's address, the destination, the source port and exactly the payload. */
  lemma UdpRoundTrip(dmac: Mac, smac: Mac, src: Ip, dst: Ip, sport: nat, dport: nat, tos: byte, id: nat,
                     payload: seq<byte>, pad: seq<byte>, h: Host)
    requires sport < TWO16 && dport < TWO16 && |payload| <= MAX_PAYLOAD
    requires ForUs(h, dst) && ServerAt(h.ports, dport) < |h.ports|
    ensures var f := Header(dmac, smac, src, dst, sport, dport, |payload|, tos, id) + payload + pad;
      Receive(h, f) == Delivered(h.ports[ServerAt(h.ports, dport)].handler.value, src, dst, sport, payload)
      && Checksum.Verifies(f[ETH..ETH + IPH])
  {
    FrameFields(dmac, smac, src, dst, sport, dport, tos, id, payload, pad);
    BuiltHeaderVerifies(src, dst, |payload|, tos, id);
  }

  /** A datagram for someone else, or for a port nobody has bound, reaches no handler. */
  lemma UdpElsewhere(dmac: Mac, smac: Mac, src: Ip, dst: Ip, sport: nat, dport: nat, tos: byte, id: nat,
                     payload: seq<byte>, pad: seq<byte>, h: Host)
    requires sport < TWO16 && dport < TWO16 && |payload| <= MAX_PAYLOAD
    requires !ForUs(h, dst) || ServerAt(h.ports, dport) == |h.ports|
    ensures var f := Header(dmac, smac, src, dst, sport, dport, |payload|, tos, id) + payload + pad;
      Receive(h, f) == if !ForUs(h, dst) then NotOurs else Unbound
  {
    FrameFields(dmac, smac, src, dst, sport, dport, tos, id, payload, pad);
  }

  /** A frame cut anywhere short of its last payload byte is never delivered. */
  lemma TruncatedNotDelivered(dmac: Mac, smac: Mac, src: Ip, dst: Ip, sport: nat, dport: nat, tos: byte, id: nat,
                              payload: seq<byte>, n: nat, h: Host)
    requires sport < TWO16 && dport < TWO16 && |payload| <= MAX_PAYLOAD && n < PAYLOAD_AT + |payload|
    ensures var f := Header(dmac, smac, src, dst, sport, dport, |payload|, tos, id) + payload;
      Receive(h, f[..n]) in {NotTaken, Dropped}
  {
    var hd := Header(dmac, smac, src, dst, sport, dport, |payload|, tos, id);
    HeaderFields(dmac, smac, src, dst, sport, dport, |payload|, tos, id);
    var f := (hd + payload)[..n];
    if n >= ETH + IPH {
      assert f[12] == hd[12] && f[13] == hd[13] && f[14] == hd[14] && f[16] == hd[16] && f[17] == hd[17];
    } else if n >= ETH {
      assert f[12] == hd[12] && f[13] == hd[13];
    }
  }
}
