/** From the firmware's table to the wire: what a bound flow's packets carry, and where they go. */
module DeliveryTheorem {
  import opened Bytes
  import opened Geometry
  import opened Packetizer
  import opened StreamTheorem
  import Checksum
  import FlowRefinement
  import FlowTable
  import Net

  /** The 1-based channel a flow asks for in slot j, 0 if none. */
  function Asked(x: FlowTable.Flow, j: nat): nat {
    if j < |x.chans| && x.chans[j] <= CHANNELS then x.chans[j] else 0
  }

  lemma SlotAsked(x: FlowTable.Flow, j: nat)
    requires j < x.nslots <= 8
    ensures FlowTable.EncodeMap(x.chans, x.nslots)[j] == if Asked(x, j) == 0 then NO_SLOT else Slot(Asked(x, j) - 1, true)
  {
  }

  /** Word w is what sample q of flow x's packet should carry: of slot q mod nslots, at sample
      q / nslots of the window behind the reader, the last word in the host's history for the channel
      the receiver named; silence if it named none, or the packet is not primed. */
  predicate Wanted(primed: bool, last: map<(nat, nat), Word>, reader: nat, x: FlowTable.Flow, w: Word, q: nat)
    requires 1 <= x.nslots
  {
    var c := Asked(x, q % x.nslots);
    if !primed || c == 0 then w == SILENCE
    else
      var k, at := (c - 1) / 8, reader - 8 * x.fpp + 8 * (q / x.nslots) + (c - 1) % 8;
      (k, at) in last ==> w == last[(k, at)]
  }

  ghost predicate CarriesAsked(st: seq<Regs>, ins: seq<Inputs>, e: Episode, h0: R.History,
                               x: FlowTable.Flow, w: Word, q: nat)
    requires Trace(st, ins) && FallsDue(st, ins, e, h0) && 1 <= x.nslots
  {
    Wanted(st[e.m].build.pktPrimed, Written(st, ins, h0, e.a).last, e.reader, x, w, q)
  }

  /** The gateware's context f is the one the firmware has bound flow x to. */
  ghost predicate Serves(e: FlowTable.Env, s: FlowTable.State, ep: Episode, x: FlowTable.Flow) {
    e.Valid() && FlowRefinement.Refines(e, s) && FlowRefinement.MapsMatch(s)
    && ep.k < N_CTX && x == s.flows[ep.k] && x.inUse && ep.ctx == s.bank.ctxs[ep.k]
  }

  lemma ContextServes(e: FlowTable.Env, s: FlowTable.State, ep: Episode, x: FlowTable.Flow)
    requires Serves(e, s, ep, x)
    ensures FlowRefinement.Linked(e, x, ep.ctx) && ep.ctx.slots == FlowTable.EncodeMap(x.chans, x.nslots)
  {
    assert FlowRefinement.MapMatches(s.flows[ep.k], s.bank.ctxs[ep.k]);
  }

  /** A context that carries the flow's map carries what the flow asks for. */
  lemma SlotWanted(primed: bool, last: map<(nat, nat), Word>, ep: Episode, x: FlowTable.Flow, w: Word, q: nat)
    requires ep.ctx.WellShaped() && ep.ctx.nslots == x.nslots && Fpp(ep.ctx.fppIdx) == x.fpp
    requires ep.ctx.slots == FlowTable.EncodeMap(x.chans, x.nslots)
    requires var slot := SlotOf(ep, q);
      if !primed || !slot.valid then w == SILENCE
      else (slot.ch / 8, Address(ep, q)) in last ==> w == last[(slot.ch / 8, Address(ep, q))]
    ensures Wanted(primed, last, ep.reader, x, w, q)
  {
    SlotAsked(x, q % x.nslots);
  }

  lemma SampleAsked(st: seq<Regs>, ins: seq<Inputs>, ep: Episode, h0: R.History, x: FlowTable.Flow, w: Word, q: nat)
    requires Trace(st, ins) && FallsDue(st, ins, ep, h0) && q < Samples(ep.ctx.nslots, ep.ctx.fppIdx)
    requires ep.ctx.nslots == x.nslots && Fpp(ep.ctx.fppIdx) == x.fpp
    requires ep.ctx.slots == FlowTable.EncodeMap(x.chans, x.nslots) && CarriesSample(st, ins, ep, h0, w, q)
    ensures CarriesAsked(st, ins, ep, h0, x, w, q)
  {
    SlotWanted(st[ep.m].build.pktPrimed, Written(st, ins, h0, ep.a).last, ep, x, w, q);
  }

  lemma Addressed(c: Context, sh: Shared, sec: nat, sub: nat)
    requires c.Valid() && sh.Valid()
    ensures var h := Header(c, sh, sec, sub);
      h[..6] == c.dmac && h[30..34] == c.dip && h[34..36] == Be16(c.sport) && h[36..38] == Be16(c.dport)
  {
    var h := Header(c, sh, sec, sub);
    assert h[30..34] == h[14..34][16..20] == IpHeader(c, sh)[16..20];
  }

  /** FROM TABLE TO WIRE. Whatever binds, rebinds and evictions led to the table, as long as its maps
      stand: the packet of a bound flow goes to the flow's own address and port under a header that
      verifies, and each slot carries the channel its receiver named for it, as the host last wrote
      it, silence where it named none. */
  lemma BoundFlowDelivered(e: FlowTable.Env, s: FlowTable.State, x: FlowTable.Flow,
                           st: seq<Regs>, ins: seq<Inputs>, ep: Episode, h0: R.History)
    returns (p: T.Packet)
    requires Serves(e, s, ep, x)
    requires Trace(st, ins) && Episodic(st, ins, ep, h0) && Unserved(st, ins, ep.m, ep.n)
    requires ep.sh.srcIp == e.ip && ep.sh.tos == FlowTable.TX_TOS && ep.sh.ttl == FlowTable.TX_TTL
    ensures Delivers(BuildSt(st, ep.m), BuildIns(st, ins, ep.m), ep.n - ep.m, p)
    ensures |p.w| == x.nslots * x.fpp && 1 <= x.nslots
    ensures forall q :: 0 <= q < |p.w| ==> CarriesAsked(st, ins, ep, h0, x, p.w[q], q)
    ensures |p.c.header| == HDR_LEN && |x.dst| == 4
    ensures p.c.header[..6] == if x.mcast then Net.McastMac(x.dst) else x.dmac
    ensures p.c.header[30..34] == x.dst && p.c.header[36..38] == Be16(x.dport)
    ensures Checksum.Verifies(p.c.header[14..34])
  {
    ContextServes(e, s, ep, x);
    p := HostToWire(st, ins, ep, h0);
    SamplesIsProduct(ep.ctx.nslots, ep.ctx.fppIdx);
    forall q | 0 <= q < |p.w|
      ensures CarriesAsked(st, ins, ep, h0, x, p.w[q], q)
    {
      SampleAsked(st, ins, ep, h0, x, p.w[q], q);
    }
    HeaderServes(e, x, st, ins, ep);
  }

  lemma HeaderServes(e: FlowTable.Env, x: FlowTable.Flow, st: seq<Regs>, ins: seq<Inputs>, ep: Episode)
    requires e.Valid() && x.inUse && FlowRefinement.Linked(e, x, ep.ctx) && ep.ctx.Valid() && ep.sh.Valid()
    requires Trace(st, ins) && ep.a < |ins|
    requires ep.sh.srcIp == e.ip && ep.sh.tos == FlowTable.TX_TOS && ep.sh.ttl == FlowTable.TX_TTL
    ensures var h := DueView(st, ins, ep).header;
      h[..6] == (if x.mcast then Net.McastMac(x.dst) else x.dmac) && h[30..34] == x.dst && h[36..38] == Be16(x.dport)
      && Checksum.Verifies(h[14..34])
  {
    var sec, sub := st[ep.a].pacer.sec, (st[ep.a].pacer.sub + ins[ep.a].load.offset) % TWO32;
    HeaderOfContext(e, x, ep.ctx, ep.sh, StampSec(sec, sub, Fpp(ep.ctx.fppIdx)), StampSub(sub, Fpp(ep.ctx.fppIdx)));
  }

  lemma HeaderOfContext(e: FlowTable.Env, x: FlowTable.Flow, c: Context, sh: Shared, sec: nat, sub: nat)
    requires e.Valid() && x.inUse && FlowRefinement.Linked(e, x, c) && c.Valid() && sh.Valid()
    requires sh.srcIp == e.ip && sh.tos == FlowTable.TX_TOS && sh.ttl == FlowTable.TX_TTL
    ensures var h := Header(c, sh, sec, sub);
      h[..6] == (if x.mcast then Net.McastMac(x.dst) else x.dmac) && h[30..34] == x.dst && h[36..38] == Be16(x.dport)
      && Checksum.Verifies(h[14..34])
  {
    Addressed(c, sh, sec, sub);
    Checksum.EmittedHeaderVerifies(c, sh, sec, sub);
  }
}
