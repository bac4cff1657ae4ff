/** The indirect register bank of dante_packetizer.py: shared storage registers, and six contexts
    that latch them when a trigger register is written with ctx_select pointing at them. */
module ContextBank {
  import opened Bytes
  import opened Geometry

  /** The storage registers behind the bank; the map is kept decoded, four slots to a register. */
  datatype Store = Store(dstIp: seq<byte>, csum: nat, sport: nat, macHi: seq<byte>,
                         mapLo: seq<Slot>, mapHi: seq<Slot>, phase: nat)
  {
    ghost predicate Valid() {
      |dstIp| == 4 && csum < TWO16 && sport < TWO16 && |macHi| == 2 && |mapLo| == 4 && |mapHi| == 4
      && phase < 256 && forall k :: 0 <= k < 8 ==> (mapLo + mapHi)[k].ch < CHANNELS
    }

    function Map(): seq<Slot> { mapLo + mapHi }
  }

  /** seeds[f] is the last phase seed handed to context f's pacing counter. */
  datatype Regs = Regs(sel: nat, store: Store, ctxs: seq<Context>, seeds: seq<nat>)
  {
    ghost predicate Valid() {
      sel < N_CTX && store.Valid() && |ctxs| == N_CTX && |seeds| == N_CTX
      && forall k :: 0 <= k < N_CTX ==> ctxs[k].Valid()
    }
  }

  /** What flow_cfg latches: slot count in bits 3..0, fpp index in bits 6..4, and with them the
      shared map and the phase seed. */
  function LatchCfg(c: Context, m: seq<Slot>, cfg: nat): Context {
    c.(nslots := cfg % 16, fppIdx := cfg / 16 % 8, slots := m)
  }

  function Configured(r: Regs, cfg: nat): (t: Regs)
    requires r.Valid()
    ensures t.Valid()
  {
    var c := LatchCfg(r.ctxs[r.sel], r.store.Map(), cfg);
    assert c.Valid() by {
      assert forall k :: 0 <= k < 8 ==> r.store.Map()[k].ch < CHANNELS;
    }
    r.(ctxs := r.ctxs[r.sel := c], seeds := r.seeds[r.sel := r.store.phase])
  }

  /** The hardware; each method is one CSR write. */
  class Bank {
    var sel: nat
    var dstIp: seq<byte>
    var csum: nat
    var sport: nat
    var macHi: seq<byte>
    var mapLo: seq<Slot>
    var mapHi: seq<Slot>
    var phase: nat
    const ctxs: array<Context>
    const seeds: array<nat>

    ghost function Abs(): Regs
      reads this, ctxs, seeds
    {
      Regs(sel, Store(dstIp, csum, sport, macHi, mapLo, mapHi, phase), ctxs[..], seeds[..])
    }

    ghost predicate Valid()
      reads this, ctxs, seeds
    {
      Abs().Valid()
    }

    /** Reset: every context off. */
    constructor ()
      ensures Valid() && fresh(ctxs) && fresh(seeds)
      ensures forall k :: 0 <= k < N_CTX ==> ctxs[k].nslots == 0
    {
      sel, dstIp, csum, sport, macHi := 0, [0, 0, 0, 0], 0, 4321, [0, 0];
      mapLo, mapHi, phase := seq(4, _ => NO_SLOT), seq(4, _ => NO_SLOT), 0;
      var off := Context(0, 0, seq(8, _ => NO_SLOT), seq(6, _ => 0), seq(4, _ => 0), 0, 0, 0);
      ctxs := new Context[N_CTX](_ => off);
      seeds := new nat[N_CTX](_ => 0);
    }

    method WriteSelect(f: nat)
      requires Valid() && f < N_CTX
      modifies this`sel
      ensures Valid() && Abs() == old(Abs()).(sel := f)
    {
      sel := f;
    }

    method WriteMap(m: seq<Slot>)
      requires Valid() && |m| == 8 && forall k :: 0 <= k < 8 ==> m[k].ch < CHANNELS
      modifies this`mapLo, this`mapHi
      ensures Valid() && mapLo == m[..4] && mapHi == m[4..]
      ensures Abs() == old(Abs()).(store := old(Abs().store).(mapLo := m[..4], mapHi := m[4..]))
    {
      mapLo, mapHi := m[..4], m[4..];
      assert forall k :: 0 <= k < 8 ==> (mapLo + mapHi)[k] == m[k];
    }

    /** dst_ip, ip_csum and udp_sport: storage only. */
    method WriteAddress(ip: seq<byte>, sum: nat, port: nat)
      requires Valid() && |ip| == 4 && sum < TWO16 && port < TWO16
      modifies this`dstIp, this`csum, this`sport
      ensures Valid() && Abs() == old(Abs()).(store := old(Abs().store).(dstIp := ip, csum := sum, sport := port))
    {
      dstIp, csum, sport := ip, sum, port;
    }

    /** dst_mac_hi, then dst_mac_lo, which latches the address. */
    method WriteMac(mac: seq<byte>)
      requires Valid() && |mac| == 6
      modifies this`macHi, ctxs
      ensures Valid() && sel == old(sel)
      ensures Abs() == old(Abs()).(store := old(Abs().store).(macHi := mac[..2]),
                                   ctxs := old(Abs().ctxs)[sel := old(Abs().ctxs)[sel].(dmac := mac)])
    {
      macHi := mac[..2];
      assert macHi + mac[2..] == mac;
      ctxs[sel] := ctxs[sel].(dmac := macHi + mac[2..]);
    }

    /** udp_dport latches destination, checksum and both ports. */
    method WriteDport(port: nat)
      requires Valid() && port < TWO16
      modifies ctxs
      ensures Valid()
      ensures Abs() == old(Abs()).(ctxs := old(Abs().ctxs)[sel :=
                old(Abs().ctxs)[sel].(dip := dstIp, csum := csum, sport := sport, dport := port)])
    {
      ctxs[sel] := ctxs[sel].(dip := dstIp, csum := csum, sport := sport, dport := port);
    }

    method WritePhase(p: nat)
      requires Valid()
      modifies this`phase
      ensures Valid() && Abs() == old(Abs()).(store := old(Abs().store).(phase := p % 256))
    {
      phase := p % 256;
    }

    /** flow_cfg latches the map, the shape and the phase seed. */
    method WriteCfg(cfg: nat)
      requires Valid()
      modifies ctxs, seeds
      ensures Valid() && Abs() == Configured(old(Abs()), cfg)
    {
      ctxs[sel] := LatchCfg(ctxs[sel], mapLo + mapHi, cfg);
      seeds[sel] := phase;
    }
  }
}
