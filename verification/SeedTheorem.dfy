/** The phase loop of write_ctx (dante_tx.c:712-722) against the pacer it seeds: the firmware reads
    the live counter, writes a seed, and reads the counter again, while media strobes go on. */
module SeedTheorem {
  import opened Bytes
  import opened Geometry
  import opened MediaPacer
  import FlowTable

  lemma TableDivides(f: nat)
    requires FlowTable.InTable(f)
    ensures 2 <= f <= 60 && SUBSEC_MAX % f == 0
  {
  }

  /** The ending try of the loop on a run of the pacer: its counter reading falls in cycle r, the
      flow_cfg write that latches its seed in cycle j, its second reading in cycle q. */
  ghost predicate EndsWith(st: seq<Regs>, ins: seq<Inputs>, now: seq<nat>, k: nat, f: nat, adj: nat, r: nat, j: nat, q: nat)
    requires Trace(st, ins) && |now| == 2 * FlowTable.TRIES && FlowTable.InTable(f)
  {
    r <= j < q <= |ins| && k < N_CTX && adj < TWO32 - SUBSEC_MAX
    && Unloaded(st, ins, r, q) && Strobes(ins, r, q) < SUBSEC_MAX
    && now[2 * FlowTable.EndingTry(now)] == st[r].sub && now[2 * FlowTable.EndingTry(now) + 1] == st[q].sub
    && ins[j].seed == SeedPhase(k, FlowTable.BindSeed(now, adj, f))
  }

  /** What write_ctx leaves: the context is off by the strobes between the ending try's first reading
      and its write, none if that try saw the counter stand still. So it is aligned, up to the
      adjustment, whenever the loop ended before its eighth try or that one was steady too, and
      otherwise exactly when fpp divides those strobes. */
  lemma BindAligns(st: seq<Regs>, ins: seq<Inputs>, now: seq<nat>, k: nat, f: nat, adj: nat, r: nat, j: nat, q: nat)
    requires Trace(st, ins) && |now| == 2 * FlowTable.TRIES && FlowTable.InTable(f)
    requires EndsWith(st, ins, now, k, f, adj, r, j, q)
    ensures var t, d := FlowTable.EndingTry(now), Strobes(ins, r, j + 1);
      Residue(st[j + 1], k, f) == (d - adj) % f
      && (Residue(st[j + 1], k, f) == (0 - adj) % f <==> d % f == 0)
      && (t < FlowTable.TRIES - 1 || FlowTable.Steady(now, t) ==> d == 0)
  {
    TableDivides(f);
    assert FlowTable.BindSeed(now, adj, f) == (st[r].sub + adj) % f;
    SeedResidue(st, ins, r, j, k, f, adj);
    if FlowTable.Steady(now, FlowTable.EndingTry(now)) {
      SteadyCounter(st, ins, r, q);
      StrobesSplit(ins, r, j + 1, q);
    }
  }
}
