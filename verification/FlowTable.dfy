/** The flow table of dante_tx.c and the context registers it drives: binding, keepalive rebinding,
    eviction, unbinding and the re-anchor reseed. Each C function is a method over the table array
    and the register bank, proved to do what a function on their values says. */
module FlowTable {
  import opened Bytes
  import opened Geometry
  import Checksum
  import ContextBank
  import Net

  const MEDIA_PORT := 4321
  const TX_TOS: byte := 0xB8
  const TX_TTL: byte := 1
  const TRIES := 8

  /** flow_slot_t. */
  datatype Flow = Flow(inUse: bool, peer: seq<byte>, lastMs: nat, rebinds: nat, dst: seq<byte>, dport: nat,
                       nslots: nat, fpp: nat, mcast: bool, extId: nat, chans: seq<nat>, dmac: seq<byte>)

  /** What the rest of the firmware fixes: our address, the group of each bundle, the measured phase
      adjustment and the samples per packet of multicast bundles. */
  datatype Env = Env(ip: seq<byte>, groups: seq<seq<byte>>, adj: nat, mcastFpp: nat)
  {
    ghost predicate Valid() {
      |ip| == 4 && |groups| == N_CTX && (forall k :: 0 <= k < N_CTX ==> |groups[k]| == 4)
      && InTable(mcastFpp)
    }
  }

  /** What a receiver asks for: the slot list names the channels, 0 for a silent slot. */
  datatype Request = Request(peer: seq<byte>, dst: seq<byte>, dport: nat, chans: seq<nat>, fpp: nat)
  {
    /** What dante_flows.c lets through (dante_flows.c:126-139). */
    ghost predicate Valid() {
      |peer| == 4 && |dst| == 4 && dport < TWO16 && 1 <= |chans| <= 8 && InTable(fpp)
      && !(fpp == 2 && |chans| % 2 == 1)
    }
  }

  datatype State = State(flows: seq<Flow>, bank: ContextBank.Regs)
  {
    ghost predicate Valid() { |flows| == N_CTX && bank.Valid() }
  }

  predicate InTable(fpp: nat) {
    fpp == 8 || fpp == 16 || fpp == 24 || fpp == 32 || fpp == 60 || fpp == 4 || fpp == 2 || fpp == 48
  }

  /** The first index holding fpp, 0 if none does. */
  function FppIndex(fpp: nat): (i: nat)
    ensures i < 8 && (InTable(fpp) ==> Fpp(i) == fpp)
  {
    if fpp == 16 then 1 else if fpp == 24 then 2 else if fpp == 32 then 3 else if fpp == 60 then 4
    else if fpp == 4 then 5 else if fpp == 2 then 6 else if fpp == 48 then 7 else 0
  }

  method FindFppIndex(fpp: nat) returns (i: nat)
    ensures i == FppIndex(fpp)
  {
    i := 0;
    while i < 8
      invariant i <= 8 && forall k :: 0 <= k < i ==> Fpp(k) != fpp
    {
      if Fpp(i) == fpp {
        return;
      }
      i := i + 1;
    }
    assert Fpp(0) == 8 && Fpp(1) == 16 && Fpp(2) == 24 && Fpp(3) == 32 && Fpp(4) == 60 && Fpp(5) == 4
        && Fpp(6) == 2 && Fpp(7) == 48;
    i := 0;
  }

  // ---- the registers a binding writes -------------------------------------------------------------

  function Entry(ch: nat): Slot {
    if 1 <= ch <= CHANNELS then Slot((ch - 1) % 64, true) else NO_SLOT
  }

  /** The slot map of a channel list: 1-based channels, anything else silent. */
  function EncodeMap(chans: seq<nat>, nslots: nat): (m: seq<Slot>)
    ensures |m| == 8 && forall k :: 0 <= k < 8 ==> m[k].ch < CHANNELS
  {
    seq(8, i requires 0 <= i < 8 => if i < nslots && i < |chans| then Entry(chans[i]) else NO_SLOT)
  }

  method BuildMap(chans: seq<nat>, nslots: nat) returns (m: seq<Slot>)
    ensures m == EncodeMap(chans, nslots)
  {
    m := [];
    for i := 0 to 8
      invariant |m| == i && forall k :: 0 <= k < i ==> m[k] == EncodeMap(chans, nslots)[k]
    {
      var e := NO_SLOT;
      if i < nslots && i < |chans| && chans[i] != 0 && chans[i] <= CHANNELS {
        e := Slot((chans[i] - 1) % 64, true);
      }
      m := m + [e];
    }
  }

  function CfgWord(nslots: nat, fpp: nat): (c: nat)
    ensures c % 16 == nslots % 16 && c / 16 % 8 == FppIndex(fpp)
  {
    nslots % 16 + 16 * FppIndex(fpp)
  }

  /** What write_ctx is given. */
  datatype Binding = Binding(dst: seq<byte>, dmac: seq<byte>, dport: nat, chans: seq<nat>, nslots: nat, fpp: nat)
  {
    ghost predicate Valid() {
      |dst| == 4 && |dmac| == 6 && dport < TWO16 && 1 <= nslots <= 8 && InTable(fpp)
    }
  }

  function FlowChecksum(ip: seq<byte>, w: Binding): (c: nat)
    requires |ip| == 4 && w.Valid()
    ensures c < TWO16
  {
    Checksum.HeaderChecksum(ip, w.dst, Checksum.IpTotal(w.nslots, w.fpp), TX_TOS, TX_TTL)
  }

  /** The context a binding leaves latched. */
  function ContextOf(ip: seq<byte>, w: Binding): (c: Context)
    requires |ip| == 4 && w.Valid()
    ensures c.Valid() && c.nslots == w.nslots && Fpp(c.fppIdx) == w.fpp
  {
    Context(w.nslots, FppIndex(w.fpp), EncodeMap(w.chans, w.nslots), w.dmac, w.dst,
            FlowChecksum(ip, w), MEDIA_PORT, w.dport)
  }

  /** The bank after write_ctx, with the phase seed of the try that ended it. */
  function Written(b: ContextBank.Regs, f: nat, ip: seq<byte>, w: Binding, phase: nat): (t: ContextBank.Regs)
    requires b.Valid() && f < N_CTX && |ip| == 4 && w.Valid() && phase < 256
    ensures t.Valid()
  {
    var m := EncodeMap(w.chans, w.nslots);
    assert m[..4] + m[4..] == m;
    ContextBank.Regs(f, ContextBank.Store(w.dst, FlowChecksum(ip, w), MEDIA_PORT, w.dmac[..2], m[..4], m[4..], phase),
                     b.ctxs[f := ContextOf(ip, w)], b.seeds[f := phase])
  }

  /** now holds the live sample counter as read before and after each try. */
  predicate Steady(now: seq<nat>, i: nat)
    requires |now| == 2 * TRIES && i < TRIES
  {
    now[2 * i] == now[2 * i + 1]
  }

  /** The try that ends the loop: the first during which the counter stood still, or the last. */
  function EndingTry(now: seq<nat>, i: nat := 0): (t: nat)
    requires |now| == 2 * TRIES && i < TRIES
    ensures i <= t < TRIES
    ensures (forall j :: i <= j < t ==> !Steady(now, j)) && (t < TRIES - 1 ==> Steady(now, t))
    decreases TRIES - i
  {
    if i == TRIES - 1 || Steady(now, i) then i else EndingTry(now, i + 1)
  }

  function BindSeed(now: seq<nat>, adj: nat, fpp: nat): (p: nat)
    requires |now| == 2 * TRIES && InTable(fpp)
    ensures p < fpp <= 60
  {
    (now[2 * EndingTry(now)] + adj) % TWO32 % fpp
  }

  /** The seed a re-anchor gives: the counter is about to adopt sub. */
  function AnchorSeed(sub: nat, adj: nat, fpp: nat): (p: nat)
    requires fpp > 0
    ensures p < fpp
  {
    (sub + adj + fpp - 1) % TWO32 % fpp
  }

  // ---- searching the table --------------------------------------------------------------------------

  datatype Query = Free | Key(peer: seq<byte>, dst: seq<byte>, dport: nat) | McastId(id: nat) | AnyId(id: nat)

  predicate Matches(q: Query, x: Flow) {
    match q
    case Free => !x.inUse
    case Key(peer, dst, dport) => x.inUse && x.dport == dport && x.peer == peer && x.dst == dst
    case McastId(id) => x.inUse && x.mcast && x.extId == id
    case AnyId(id) => x.inUse && x.extId == id
  }

  /** The first flow that matches, |fs| if none does. */
  function First(fs: seq<Flow>, q: Query): (k: nat)
    ensures k <= |fs| && (k < |fs| ==> Matches(q, fs[k])) && forall j :: 0 <= j < k ==> !Matches(q, fs[j])
  {
    if fs == [] then 0
    else if Matches(q, fs[0]) then 0
    else
      assert forall j :: 0 <= j < |fs| - 1 ==> fs[1..][j] == fs[j + 1];
      1 + First(fs[1..], q)
  }

  /** How an eviction scan ranks flows. */
  datatype Rank = UnicastAge | Age | CappedAge

  const AGE_CAP := 3600000

  /** A flow's rank at a millisecond reading, -1 for one the scan passes over. */
  function RankOf(k: Rank, now: nat, x: Flow): int {
    var age := (now - x.lastMs) % TWO32;
    match k
    case UnicastAge => if x.mcast then -1 else age
    case Age => age
    case CappedAge => if age > AGE_CAP then AGE_CAP else age
  }

  /** The highest rank, ties to the higher index. */
  ghost predicate IsOldest(fs: seq<Flow>, k: Rank, now: nat, f: nat) {
    f < |fs| && RankOf(k, now, fs[f]) >= 0
    && forall j :: 0 <= j < |fs| ==>
      RankOf(k, now, fs[j]) <= RankOf(k, now, fs[f]) && (j > f ==> RankOf(k, now, fs[j]) < RankOf(k, now, fs[f]))
  }

  /** The flow an eviction scan takes, |fs| if it passes over all of them. */
  function Oldest(fs: seq<Flow>, k: Rank, now: nat): (f: nat)
    ensures if f < |fs| then IsOldest(fs, k, now, f)
            else f == |fs| && forall j :: 0 <= j < |fs| ==> RankOf(k, now, fs[j]) < 0
  {
    if fs == [] then 0
    else
      var n := |fs| - 1;
      var m, last := Oldest(fs[..n], k, now), RankOf(k, now, fs[n]);
      if last >= 0 && (m == n || last >= RankOf(k, now, fs[m])) then n
      else if m == n then n + 1 else m
  }

  // ---- the operations on values -----------------------------------------------------------------------

  /** The context a unicast request takes: its own, a free one, the oldest unicast one, the oldest. */
  function UnicastSlot(fs: seq<Flow>, r: Request, ms: nat): (f: nat)
    requires |fs| == N_CTX
    ensures f < N_CTX
  {
    var own := First(fs, Key(r.peer, r.dst, r.dport));
    if own < N_CTX then own
    else
      var free := First(fs, Free);
      if free < N_CTX then free
      else
        var u := Oldest(fs, UnicastAge, ms);
        if u < N_CTX then u else Oldest(fs, Age, ms)
  }

  predicate UnicastEvicts(fs: seq<Flow>, r: Request) {
    First(fs, Key(r.peer, r.dst, r.dport)) == |fs| && First(fs, Free) == |fs|
  }

  function Pad8(chans: seq<nat>): (c: seq<nat>)
    ensures |c| == 8 && forall i :: 0 <= i < 8 ==> c[i] == if i < |chans| then chans[i] else 0
  {
    seq(8, i requires 0 <= i < 8 => if i < |chans| then chans[i] else 0)
  }

  function UnicastBinding(r: Request, mac: seq<byte>): Binding {
    Binding(r.dst, mac, r.dport, r.chans, |r.chans|, r.fpp)
  }

  /** The table entry after a unicast bind; the last id a multicast flow gave the context stays. */
  function UnicastFlow(x: Flow, r: Request, mac: seq<byte>, ms: nat): Flow {
    var own := Matches(Key(r.peer, r.dst, r.dport), x);
    Flow(true, r.peer, ms, if own then x.rebinds else (x.rebinds + 1) % TWO32,
         r.dst, r.dport, |r.chans|, r.fpp, false, x.extId, Pad8(r.chans), mac)
  }

  /** What the bind makes of the entry it has taken: a new peer in one that was free, or freed. */
  function Entered(x: Flow, r: Request, mac: seq<byte>, ms: nat): Flow {
    Flow(true, if x.inUse then x.peer else r.peer, ms, if x.inUse then x.rebinds else (x.rebinds + 1) % TWO32,
         r.dst, r.dport, |r.chans|, r.fpp, false, x.extId, Pad8(r.chans), mac)
  }

  lemma EnteredIs(fs: seq<Flow>, r: Request, mac: seq<byte>, ms: nat)
    requires |fs| == N_CTX
    ensures var x := fs[UnicastSlot(fs, r, ms)];
      Entered(if UnicastEvicts(fs, r) then x.(inUse := false) else x, r, mac, ms) == UnicastFlow(x, r, mac, ms)
  {
  }

  function BoundUnicast(e: Env, s: State, r: Request, mac: seq<byte>, ms: nat, now: seq<nat>): (t: State)
    requires e.Valid() && s.Valid() && r.Valid() && |mac| == 6 && |now| == 2 * TRIES
    ensures t.Valid()
  {
    var f := UnicastSlot(s.flows, r, ms);
    State(s.flows[f := UnicastFlow(s.flows[f], r, mac, ms)],
          Written(s.bank, f, e.ip, UnicastBinding(r, mac), BindSeed(now, e.adj, r.fpp)))
  }

  /** dante_tx_unbind of a context in use. */
  function Unbound(s: State, f: nat): (t: State)
    requires s.Valid() && f < N_CTX
    ensures t.Valid()
  {
    State(s.flows[f := s.flows[f].(inUse := false)], ContextBank.Configured(s.bank.(sel := f), 0))
  }

  function McastSlot(fs: seq<Flow>, id: nat, ms: nat): (f: nat)
    requires |fs| == N_CTX
    ensures f < N_CTX
  {
    var own := First(fs, McastId(id));
    if own < N_CTX then own
    else
      var free := First(fs, Free);
      if free < N_CTX then free else Oldest(fs, CappedAge, ms)
  }

  predicate McastEvicts(fs: seq<Flow>, id: nat) {
    First(fs, McastId(id)) == |fs| && First(fs, Free) == |fs|
  }

  function McastBinding(e: Env, f: nat, chans: seq<nat>): Binding
    requires e.Valid() && f < N_CTX
  {
    Binding(e.groups[f], Net.McastMac(e.groups[f]), MEDIA_PORT, chans, |chans|, e.mcastFpp)
  }

  /** The table entry after a multicast bind; peer, rebind count and stored MAC stay as they were. */
  function McastFlow(e: Env, x: Flow, f: nat, id: nat, chans: seq<nat>, ms: nat): Flow
    requires e.Valid() && f < N_CTX
  {
    Flow(true, x.peer, ms, x.rebinds, e.groups[f], MEDIA_PORT, |chans|, e.mcastFpp, true, id,
         Pad8(chans), x.dmac)
  }

  function BoundMulticast(e: Env, s: State, id: nat, chans: seq<nat>, ms: nat, ms2: nat, now: seq<nat>): (t: State)
    requires e.Valid() && s.Valid() && 1 <= |chans| <= 8 && |now| == 2 * TRIES
    ensures t.Valid()
  {
    var f := McastSlot(s.flows, id, ms);
    var u := if McastEvicts(s.flows, id) then Unbound(s, f) else s;
    State(u.flows[f := McastFlow(e, u.flows[f], f, id, chans, ms2)],
          Written(u.bank, f, e.ip, McastBinding(e, f, chans), BindSeed(now, e.adj, e.mcastFpp)))
  }

  /** Contexts from f on dropped. */
  function DroppedFrom(s: State, f: nat): (t: State)
    requires s.Valid() && f <= N_CTX
    ensures t.Valid()
    decreases N_CTX - f
  {
    if f == N_CTX then s
    else DroppedFrom(if s.flows[f].inUse then Unbound(s, f) else s, f + 1)
  }

  /** One context's phase reseeded: flow_cfg is written again with the same shape. */
  function ReseededOne(e: Env, s: State, sub: nat, f: nat): (t: State)
    requires e.Valid() && s.Valid() && f < N_CTX
    ensures t.Valid()
  {
    var x := s.flows[f];
    if !x.inUse || x.fpp == 0 then s
    else s.(bank := ContextBank.Configured(
              s.bank.(sel := f, store := s.bank.store.(phase := AnchorSeed(sub, e.adj, x.fpp) % 256)),
              CfgWord(x.nslots, x.fpp)))
  }

  function ReseededFrom(e: Env, s: State, sub: nat, f: nat): (t: State)
    requires e.Valid() && s.Valid() && f <= N_CTX
    ensures t.Valid()
    decreases N_CTX - f
  {
    if f == N_CTX then s else ReseededFrom(e, ReseededOne(e, s, sub, f), sub, f + 1)
  }

  // ---- the C functions --------------------------------------------------------------------------------

  /** Everything write_ctx writes before the phase loop. */
  function Headed(b: ContextBank.Regs, f: nat, ip: seq<byte>, w: Binding): (t: ContextBank.Regs)
    requires b.Valid() && f < N_CTX && |ip| == 4 && w.Valid()
    ensures t.Valid()
  {
    var m := EncodeMap(w.chans, w.nslots);
    assert m[..4] + m[4..] == m;
    var c := b.ctxs[f].(dmac := w.dmac, dip := w.dst, csum := FlowChecksum(ip, w), sport := MEDIA_PORT, dport := w.dport);
    b.(sel := f, ctxs := b.ctxs[f := c],
       store := ContextBank.Store(w.dst, FlowChecksum(ip, w), MEDIA_PORT, w.dmac[..2], m[..4], m[4..], b.store.phase))
  }

  function Seeded(b: ContextBank.Regs, p: nat, cfg: nat): (t: ContextBank.Regs)
    requires b.Valid()
    ensures t.Valid()
  {
    ContextBank.Configured(b.(store := b.store.(phase := p % 256)), cfg)
  }

  lemma FirstTry(b: ContextBank.Regs, f: nat, ip: seq<byte>, w: Binding, p: nat)
    requires b.Valid() && f < N_CTX && |ip| == 4 && w.Valid() && p < 256
    ensures Seeded(Headed(b, f, ip, w), p, CfgWord(w.nslots, w.fpp)) == Written(b, f, ip, w, p)
  {
    var m := EncodeMap(w.chans, w.nslots);
    assert m[..4] + m[4..] == m;
    var t := Seeded(Headed(b, f, ip, w), p, CfgWord(w.nslots, w.fpp));
    assert t.ctxs[f] == ContextOf(ip, w);
    assert t.ctxs == b.ctxs[f := ContextOf(ip, w)];
  }

  /** Writing flow_cfg again only re-latches. */
  lemma NextTry(b: ContextBank.Regs, f: nat, ip: seq<byte>, w: Binding, p: nat, q: nat)
    requires b.Valid() && f < N_CTX && |ip| == 4 && w.Valid() && p < 256 && q < 256
    ensures Seeded(Written(b, f, ip, w, q), p, CfgWord(w.nslots, w.fpp)) == Written(b, f, ip, w, p)
  {
    var m := EncodeMap(w.chans, w.nslots);
    assert m[..4] + m[4..] == m;
    var t := Seeded(Written(b, f, ip, w, q), p, CfgWord(w.nslots, w.fpp));
    assert t.ctxs == b.ctxs[f := ContextOf(ip, w)];
    assert t.seeds == b.seeds[f := p];
  }

  /** The header of a binding is in the registers, with or without a seed latched after it. */
  ghost predicate Started(a: ContextBank.Regs, b: ContextBank.Regs, f: nat, ip: seq<byte>, w: Binding)
    requires b.Valid() && f < N_CTX && |ip| == 4 && w.Valid()
  {
    a == Headed(b, f, ip, w) || exists q: nat | q < 256 :: a == Written(b, f, ip, w, q)
  }

  lemma TryWrites(a: ContextBank.Regs, b: ContextBank.Regs, f: nat, ip: seq<byte>, w: Binding, p: nat)
    requires b.Valid() && f < N_CTX && |ip| == 4 && w.Valid() && Started(a, b, f, ip, w) && p < 256
    ensures a.Valid() && Seeded(a, p, CfgWord(w.nslots, w.fpp)) == Written(b, f, ip, w, p)
  {
    if a == Headed(b, f, ip, w) {
      FirstTry(b, f, ip, w, p);
    } else {
      var q: nat :| q < 256 && a == Written(b, f, ip, w, q);
      NextTry(b, f, ip, w, p, q);
    }
  }

  class Table {
    const env: Env
    const flows: array<Flow>
    const bank: ContextBank.Bank

    ghost predicate Valid()
      reads this, flows, bank, bank.ctxs, bank.seeds
    {
      env.Valid() && flows.Length == N_CTX && bank.Valid()
    }

    ghost function Abs(): State
      reads this, flows, bank, bank.ctxs, bank.seeds
    {
      State(flows[..], bank.Abs())
    }

    /** Boot: nothing bound. */
    constructor (e: Env)
      requires e.Valid()
      ensures Valid() && fresh(flows) && fresh(bank) && fresh(bank.ctxs) && fresh(bank.seeds) && env == e
      ensures forall f :: 0 <= f < N_CTX ==> !flows[f].inUse && bank.ctxs[f].nslots == 0
    {
      env := e;
      var off := Flow(false, [0, 0, 0, 0], 0, 0, [0, 0, 0, 0], 0, 0, 0, false, 0, seq(8, _ => 0), seq(6, _ => 0));
      flows := new Flow[N_CTX](_ => off);
      bank := new ContextBank.Bank();
    }

    method WriteHeader(f: nat, w: Binding)
      requires Valid() && f < N_CTX && w.Valid()
      modifies bank, bank.ctxs
      ensures Valid() && bank.Abs() == Headed(old(bank.Abs()), f, env.ip, w)
    {
      Checksum.QuickTotal(w.nslots, FppIndex(w.fpp));
      var csum := Checksum.IpHeaderChecksum(env.ip, w.dst, Checksum.IpTotal(w.nslots, w.fpp), TX_TOS, TX_TTL);
      var m := BuildMap(w.chans, w.nslots);
      bank.WriteSelect(f);
      bank.WriteMap(m);
      bank.WriteAddress(w.dst, csum, MEDIA_PORT);
      bank.WriteMac(w.dmac);
      bank.WriteDport(w.dport);
    }

    method Seed(p: nat, cfg: nat)
      requires Valid()
      modifies bank, bank.ctxs, bank.seeds
      ensures Valid() && bank.Abs() == Seeded(old(bank.Abs()), p, cfg)
    {
      bank.WritePhase(p);
      bank.WriteCfg(cfg);
    }

    /** One try of the phase loop. */
    method Try(f: nat, w: Binding, p: nat, ghost b: ContextBank.Regs)
      requires Valid() && f < N_CTX && w.Valid() && p < w.fpp && b.Valid() && Started(bank.Abs(), b, f, env.ip, w)
      modifies bank, bank.ctxs, bank.seeds
      ensures Valid() && bank.Abs() == Written(b, f, env.ip, w, p)
    {
      var idx := FindFppIndex(w.fpp);
      TryWrites(bank.Abs(), b, f, env.ip, w, p);
      Seed(p, w.nslots % 16 + 16 * idx);
    }

    /** write_ctx: header and map, then up to eight tries at a phase seed that stays current. */
    method WriteCtx(f: nat, w: Binding, now: seq<nat>)
      requires Valid() && f < N_CTX && w.Valid() && |now| == 2 * TRIES
      modifies bank, bank.ctxs, bank.seeds
      ensures Valid()
      ensures bank.Abs() == Written(old(bank.Abs()), f, env.ip, w, BindSeed(now, env.adj, w.fpp))
    {
      ghost var b := bank.Abs();
      WriteHeader(f, w);
      var tries := 0;
      while tries < TRIES
        invariant Valid() && Started(bank.Abs(), b, f, env.ip, w) && tries <= EndingTry(now)
      {
        var s0 := now[2 * tries];
        Try(f, w, (s0 + env.adj) % TWO32 % w.fpp, b);
        if now[2 * tries + 1] == s0 || tries == TRIES - 1 {
          assert tries == EndingTry(now);
          break;
        }
        tries := tries + 1;
      }
    }

    method Find(q: Query) returns (k: nat)
      requires Valid()
      ensures k == First(flows[..], q)
    {
      k := 0;
      while k < N_CTX
        invariant k <= N_CTX && forall j :: 0 <= j < k ==> !Matches(q, flows[..][j])
      {
        if Matches(q, flows[k]) {
          assert Matches(q, flows[..][k]);
          return;
        }
        k := k + 1;
      }
    }

    /** An eviction scan. */
    method FindOldest(r: Rank, now: nat) returns (f: nat)
      requires Valid()
      ensures f == Oldest(flows[..], r, now)
    {
      var oldest := 0;
      f := N_CTX;
      for i := 0 to N_CTX
        invariant f == N_CTX || f < i
        invariant f == N_CTX ==> forall j :: 0 <= j < i ==> RankOf(r, now, flows[j]) < 0
        invariant f < N_CTX ==> oldest == RankOf(r, now, flows[f]) >= 0
        invariant f < N_CTX ==> forall j :: 0 <= j < i ==> RankOf(r, now, flows[j]) <= oldest
        invariant f < N_CTX ==> forall j :: f < j < i ==> RankOf(r, now, flows[j]) < oldest
      {
        var age := RankOf(r, now, flows[i]);
        if age >= 0 && (f == N_CTX || age >= oldest) {
          oldest, f := age, i;
        }
      }
      if f < N_CTX {
        assert IsOldest(flows[..], r, now, f);
      }
      OldestUnique(flows[..], r, now, f);
    }

    /** dante_tx_unbind. */
    method Unbind(f: nat) returns (ok: bool)
      requires Valid()
      modifies flows, bank, bank.ctxs, bank.seeds
      ensures Valid() && ok == (f < N_CTX && old(flows[..])[f].inUse)
      ensures Abs() == if ok then Unbound(old(Abs()), f) else old(Abs())
    {
      if f >= N_CTX || !flows[f].inUse {
        return false;
      }
      flows[f] := flows[f].(inUse := false);
      bank.WriteSelect(f);
      bank.WriteCfg(0);
      ok := true;
    }

    /** The context for a unicast request; a victim is marked free first. */
    method TakeUnicast(r: Request, ms: nat) returns (slot: nat)
      requires Valid()
      modifies flows
      ensures slot == UnicastSlot(old(flows[..]), r, ms)
      ensures flows[..] == if UnicastEvicts(old(flows[..]), r)
                           then old(flows[..])[slot := old(flows[..])[slot].(inUse := false)] else old(flows[..])
    {
      slot := Find(Key(r.peer, r.dst, r.dport));
      if slot == N_CTX {
        slot := Find(Free);
      }
      if slot == N_CTX {
        slot := FindOldest(UnicastAge, ms);
        if slot == N_CTX {
          slot := FindOldest(Age, ms);
        }
        flows[slot] := flows[slot].(inUse := false);
      }
    }

    /** dante_tx_bind_unicast; mac is what the ARP cache answers. */
    method BindUnicast(r: Request, mac: seq<byte>, known: bool, ms: nat, now: seq<nat>) returns (f: int)
      requires Valid() && r.Valid() && |mac| == 6 && |now| == 2 * TRIES
      modifies flows, bank, bank.ctxs, bank.seeds
      ensures Valid() && f == (if known then UnicastSlot(old(flows[..]), r, ms) else -1)
      ensures Abs() == if known then BoundUnicast(env, old(Abs()), r, mac, ms, now) else old(Abs())
    {
      if !known {
        return -1;
      }
      ghost var fs := flows[..];
      var slot := TakeUnicast(r, ms);
      WriteCtx(slot, UnicastBinding(r, mac), now);
      EnteredIs(fs, r, mac, ms);
      flows[slot] := Entered(flows[slot], r, mac, ms);
      f := slot;
    }

    /** The context a bundle takes, its victim unbound. */
    method TakeMulticast(id: nat, ms: nat) returns (slot: nat)
      requires Valid()
      modifies flows, bank, bank.ctxs, bank.seeds
      ensures Valid() && slot == McastSlot(old(flows[..]), id, ms)
      ensures Abs() == if McastEvicts(old(flows[..]), id) then Unbound(old(Abs()), slot) else old(Abs())
    {
      slot := Find(McastId(id));
      if slot == N_CTX {
        slot := Find(Free);
      }
      if slot == N_CTX {
        slot := FindOldest(CappedAge, ms);
        var _ := Unbind(slot);
      }
    }

    /** dante_tx_bind_multicast; ms and ms2 are the uptime before an eviction and at the end. */
    method BindMulticast(id: nat, chans: seq<nat>, ms: nat, ms2: nat, now: seq<nat>) returns (f: int)
      requires Valid() && |now| == 2 * TRIES
      modifies flows, bank, bank.ctxs, bank.seeds
      ensures Valid() && f == (if 1 <= |chans| <= 8 then McastSlot(old(flows[..]), id, ms) else -1)
      ensures Abs() == if 1 <= |chans| <= 8 then BoundMulticast(env, old(Abs()), id, chans, ms, ms2, now) else old(Abs())
    {
      if |chans| == 0 || |chans| > 8 {
        return -1;
      }
      var slot := TakeMulticast(id, ms);
      WriteCtx(slot, McastBinding(env, slot, chans), now);
      var x := flows[slot];
      flows[slot] := McastFlow(env, x, slot, id, chans, ms2);
      f := slot;
    }

    /** dante_tx_drop_all. */
    method DropAll() returns (n: nat)
      requires Valid()
      modifies flows, bank, bank.ctxs, bank.seeds
      ensures Valid() && Abs() == DroppedFrom(old(Abs()), 0)
    {
      n := 0;
      var f := 0;
      while f < N_CTX
        invariant f <= N_CTX && Valid() && DroppedFrom(Abs(), f) == DroppedFrom(old(Abs()), 0)
      {
        if flows[f].inUse {
          var ok := Unbind(f);
          if ok {
            n := n + 1;
          }
        }
        f := f + 1;
      }
    }

    method ReseedContext(sub: nat, f: nat)
      requires Valid() && f < N_CTX
      modifies bank, bank.ctxs, bank.seeds
      ensures Valid() && Abs() == ReseededOne(env, old(Abs()), sub, f)
    {
      var x := flows[f];
      if x.inUse && x.fpp != 0 {
        var idx := FindFppIndex(x.fpp);
        bank.WriteSelect(f);
        Seed((sub + env.adj + x.fpp - 1) % TWO32 % x.fpp, x.nslots % 16 + 16 * idx);
      }
    }

    /** dante_tx_reseed_phases. */
    method Reseed(sub: nat)
      requires Valid()
      modifies bank, bank.ctxs, bank.seeds
      ensures Valid() && Abs() == ReseededFrom(env, old(Abs()), sub, 0)
    {
      var f := 0;
      while f < N_CTX
        invariant f <= N_CTX && Valid() && ReseededFrom(env, Abs(), sub, f) == ReseededFrom(env, old(Abs()), sub, 0)
      {
        ReseedContext(sub, f);
        f := f + 1;
      }
    }

    /** dante_tx_ctx_for_id. */
    method CtxForId(id: nat) returns (f: int)
      requires Valid()
      ensures f == if First(flows[..], AnyId(id)) < N_CTX then First(flows[..], AnyId(id)) else -1
    {
      var k := Find(AnyId(id));
      f := if k < N_CTX then k else -1;
    }
  }

  /** The scan's result is the only one of its kind. */
  lemma OldestUnique(fs: seq<Flow>, k: Rank, now: nat, f: nat)
    requires if f < |fs| then IsOldest(fs, k, now, f)
             else f == |fs| && forall j :: 0 <= j < |fs| ==> RankOf(k, now, fs[j]) < 0
    ensures f == Oldest(fs, k, now)
  {
    var g := Oldest(fs, k, now);
    if f < |fs| && g < |fs| {
      assert RankOf(k, now, fs[g]) <= RankOf(k, now, fs[f]) <= RankOf(k, now, fs[g]);
    }
  }
}
