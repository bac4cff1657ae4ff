/** The table and the hardware contexts over every run of binds, rebinds, evictions, unbinds, drops
    and re-anchors: what stays true, and exactly when the rest does. */
module FlowRefinement {
  import opened Bytes
  import opened Geometry
  import opened FlowTable
  import Checksum
  import ContextBank
  import Net

  // ---- the relation -----------------------------------------------------------------------------

  /** Context c transmits exactly flow x: on if and only if the flow is in use, and then with its
      destination, ports, MAC, shape and a checksum for that shape. */
  ghost predicate Linked(e: Env, x: Flow, c: Context)
    requires e.Valid()
  {
    (x.inUse <==> c.nslots != 0)
    && (x.inUse ==>
      |x.dst| == 4 && 1 <= x.nslots <= 8 && InTable(x.fpp)
      && c.nslots == x.nslots && c.fppIdx < 8 && Fpp(c.fppIdx) == x.fpp
      && c.dip == x.dst && c.dport == x.dport && c.sport == MEDIA_PORT
      && c.dmac == (if x.mcast then Net.McastMac(x.dst) else x.dmac)
      && c.csum == Checksum.HeaderChecksum(e.ip, x.dst, Checksum.IpTotal(x.nslots, x.fpp), TX_TOS, TX_TTL))
  }

  /** No context's map names a channel that does not exist. */
  predicate RealChannels(c: Context) {
    forall k :: 0 <= k < |c.slots| ==> c.slots[k].ch < CHANNELS
  }

  ghost predicate Refines(e: Env, s: State)
    requires e.Valid()
  {
    s.Valid() && forall f :: 0 <= f < N_CTX ==> Linked(e, s.flows[f], s.bank.ctxs[f]) && RealChannels(s.bank.ctxs[f])
  }

  /** The slot map context f sends is the one flow f asked for. */
  predicate MapMatches(x: Flow, c: Context) {
    x.inUse ==> c.slots == EncodeMap(x.chans, x.nslots)
  }

  ghost predicate MapsMatch(s: State) {
    s.Valid() && forall f :: 0 <= f < N_CTX ==> MapMatches(s.flows[f], s.bank.ctxs[f])
  }

  lemma PadKeepsMap(chans: seq<nat>)
    requires |chans| <= 8
    ensures EncodeMap(Pad8(chans), |chans|) == EncodeMap(chans, |chans|)
  {
  }

  /** A state in which only context f is different. */
  lemma OneChanged(e: Env, s: State, t: State, f: nat)
    requires e.Valid() && Refines(e, s) && t.Valid() && f < N_CTX
    requires forall j :: 0 <= j < N_CTX && j != f ==> t.flows[j] == s.flows[j] && t.bank.ctxs[j] == s.bank.ctxs[j]
    requires Linked(e, t.flows[f], t.bank.ctxs[f]) && RealChannels(t.bank.ctxs[f])
    ensures Refines(e, t)
    ensures MapsMatch(s) && MapMatches(t.flows[f], t.bank.ctxs[f]) ==> MapsMatch(t)
  {
  }

  lemma UnicastKeeps(e: Env, s: State, r: Request, mac: seq<byte>, ms: nat, now: seq<nat>)
    requires e.Valid() && r.Valid() && |mac| == 6 && |now| == 2 * TRIES && Refines(e, s)
    ensures Refines(e, BoundUnicast(e, s, r, mac, ms, now))
    ensures MapsMatch(s) ==> MapsMatch(BoundUnicast(e, s, r, mac, ms, now))
  {
    PadKeepsMap(r.chans);
    OneChanged(e, s, BoundUnicast(e, s, r, mac, ms, now), UnicastSlot(s.flows, r, ms));
  }

  lemma StoreMapReal(s: State, f: nat)
    requires s.Valid() && f < N_CTX
    ensures RealChannels(ContextBank.LatchCfg(s.bank.ctxs[f], s.bank.store.Map(), 0))
  {
  }

  lemma UnbindKeeps(e: Env, s: State, f: nat)
    requires e.Valid() && f < N_CTX && Refines(e, s)
    ensures Refines(e, Unbound(s, f)) && (MapsMatch(s) ==> MapsMatch(Unbound(s, f)))
  {
    StoreMapReal(s, f);
    OneChanged(e, s, Unbound(s, f), f);
  }

  lemma MulticastKeeps(e: Env, s: State, id: nat, chans: seq<nat>, ms: nat, ms2: nat, now: seq<nat>)
    requires e.Valid() && 1 <= |chans| <= 8 && |now| == 2 * TRIES && Refines(e, s)
    ensures Refines(e, BoundMulticast(e, s, id, chans, ms, ms2, now))
    ensures MapsMatch(s) ==> MapsMatch(BoundMulticast(e, s, id, chans, ms, ms2, now))
  {
    var f := McastSlot(s.flows, id, ms);
    PadKeepsMap(chans);
    OneChanged(e, s, BoundMulticast(e, s, id, chans, ms, ms2, now), f);
  }

  lemma {:induction false} DropKeeps(e: Env, s: State, f: nat)
    requires e.Valid() && f <= N_CTX && Refines(e, s)
    ensures Refines(e, DroppedFrom(s, f)) && (MapsMatch(s) ==> MapsMatch(DroppedFrom(s, f)))
    decreases N_CTX - f
  {
    if f < N_CTX {
      UnbindKeeps(e, s, f);
      DropKeeps(e, if s.flows[f].inUse then Unbound(s, f) else s, f + 1);
    }
  }

  /** Dropping all leaves nothing bound. */
  lemma {:induction false} DropEmpties(s: State, f: nat)
    requires s.Valid() && f <= N_CTX
    ensures forall j :: f <= j < N_CTX ==> !DroppedFrom(s, f).flows[j].inUse
    ensures forall j :: 0 <= j < f ==> DroppedFrom(s, f).flows[j] == s.flows[j]
    decreases N_CTX - f
  {
    if f < N_CTX {
      DropEmpties(if s.flows[f].inUse then Unbound(s, f) else s, f + 1);
    }
  }

  // ---- re-anchoring -------------------------------------------------------------------------------

  /** One context reseeded: it keeps everything but its phase, and its map becomes the shared one. */
  lemma ReseedOneKeeps(e: Env, s: State, sub: nat, f: nat)
    requires e.Valid() && f < N_CTX && Refines(e, s)
    ensures var t := ReseededOne(e, s, sub, f);
      Refines(e, t) && t.flows == s.flows && t.bank.store.Map() == s.bank.store.Map()
      && (forall j :: 0 <= j < N_CTX && j != f ==> t.bank.ctxs[j] == s.bank.ctxs[j])
      && t.bank.ctxs[f].slots == if s.flows[f].inUse then s.bank.store.Map() else s.bank.ctxs[f].slots
  {
    StoreMapReal(s, f);
    OneChanged(e, s, ReseededOne(e, s, sub, f), f);
  }

  lemma {:induction false} ReseedKeeps(e: Env, s: State, sub: nat, f: nat)
    requires e.Valid() && f <= N_CTX && Refines(e, s)
    ensures var t := ReseededFrom(e, s, sub, f);
      Refines(e, t) && t.flows == s.flows && t.bank.store.Map() == s.bank.store.Map()
      && (forall j :: 0 <= j < f ==> t.bank.ctxs[j] == s.bank.ctxs[j])
      && (forall j :: f <= j < N_CTX ==>
        t.bank.ctxs[j].slots == if s.flows[j].inUse then s.bank.store.Map() else s.bank.ctxs[j].slots)
    decreases N_CTX - f
  {
    if f < N_CTX {
      ReseedOneKeeps(e, s, sub, f);
      ReseedKeeps(e, ReseededOne(e, s, sub, f), sub, f + 1);
    }
  }

  /** After a re-anchor every bound context carries the map written last, whichever flow that was
      for: the contexts still match the table exactly when every bound flow's map is that one. */
  lemma MapsAfterAnchorIff(e: Env, s: State, sub: nat)
    requires e.Valid() && Refines(e, s)
    ensures MapsMatch(ReseededFrom(e, s, sub, 0)) <==>
      forall f :: 0 <= f < N_CTX && s.flows[f].inUse ==> FlowMap(s.flows[f]) == s.bank.store.Map()
  {
    var t := ReseededFrom(e, s, sub, 0);
    ReseedKeeps(e, s, sub, 0);
    forall f | 0 <= f < N_CTX && s.flows[f].inUse
      ensures MapMatches(t.flows[f], t.bank.ctxs[f]) <==> FlowMap(s.flows[f]) == s.bank.store.Map()
    {
    }
  }

  function FlowMap(x: Flow): seq<Slot> {
    EncodeMap(x.chans, x.nslots)
  }

  /** Two bound flows with different maps are enough to break it. */
  lemma AnchorMixesMaps(e: Env, s: State, sub: nat, f: nat, g: nat)
    requires e.Valid() && Refines(e, s) && f < N_CTX && g < N_CTX && s.flows[f].inUse && s.flows[g].inUse
    requires FlowMap(s.flows[f]) != FlowMap(s.flows[g])
    ensures !MapsMatch(ReseededFrom(e, s, sub, 0))
  {
    MapsAfterAnchorIff(e, s, sub);
  }

  /** And that is all it takes: from an empty table, one receiver subscribes to channel 1, another
      to channel 2, and the clock is re-anchored. */
  lemma TwoReceiversMixed(e: Env, s: State, r: Request, q: Request, mac: seq<byte>, ms: nat, now: seq<nat>, sub: nat)
    requires e.Valid() && Refines(e, s) && MapsMatch(s) && |mac| == 6 && |now| == 2 * TRIES
    requires r.Valid() && q.Valid() && r.chans == [1, 0] && q.chans == [2, 0] && r.peer != q.peer
    requires forall f :: 0 <= f < N_CTX ==> !s.flows[f].inUse
    ensures var t := BoundUnicast(e, BoundUnicast(e, s, r, mac, ms, now), q, mac, ms, now);
      MapsMatch(t) && !MapsMatch(ReseededFrom(e, t, sub, 0))
  {
    var u := BoundUnicast(e, s, r, mac, ms, now);
    var t := BoundUnicast(e, u, q, mac, ms, now);
    TakesFirstFree(s.flows, r, ms, 0);
    TakesFirstFree(u.flows, q, ms, 1);
    UnicastKeeps(e, s, r, mac, ms, now);
    UnicastKeeps(e, u, q, mac, ms, now);
    MapsDiffer(t.flows[0].chans, t.flows[1].chans);
    AnchorMixesMaps(e, t, sub, 0, 1);
  }

  lemma MapsDiffer(a: seq<nat>, b: seq<nat>)
    requires |a| >= 2 && |b| >= 2 && a[0] == 1 && b[0] == 2
    ensures EncodeMap(a, 2) != EncodeMap(b, 2)
  {
    assert EncodeMap(a, 2)[0] == Slot(0, true) && EncodeMap(b, 2)[0] == Slot(1, true);
  }

  lemma TakesFirstFree(fs: seq<Flow>, r: Request, ms: nat, k: nat)
    requires |fs| == N_CTX && k < N_CTX && !fs[k].inUse
    requires forall j :: 0 <= j < N_CTX ==> !Matches(Key(r.peer, r.dst, r.dport), fs[j]) && (j < k ==> fs[j].inUse)
    ensures UnicastSlot(fs, r, ms) == k
  {
    FirstIs(fs, Key(r.peer, r.dst, r.dport), N_CTX);
    FirstIs(fs, Free, k);
  }

  /** First is the only index of its kind. */
  lemma FirstIs(fs: seq<Flow>, q: Query, k: nat)
    requires k <= |fs| && (k < |fs| ==> Matches(q, fs[k])) && forall j :: 0 <= j < k ==> !Matches(q, fs[j])
    ensures First(fs, q) == k
  {
  }

  // ---- one context per receiver socket, one per multicast id ----------------------------------------

  predicate Live(x: Flow, mcast: bool) {
    x.inUse && x.mcast == mcast
  }

  predicate SameSocket(x: Flow, y: Flow) {
    x.peer == y.peer && x.dst == y.dst && x.dport == y.dport
  }

  ghost predicate SocketsUnique(fs: seq<Flow>) {
    forall i, j :: 0 <= i < j < |fs| && Live(fs[i], false) && Live(fs[j], false) ==> !SameSocket(fs[i], fs[j])
  }

  ghost predicate IdsUnique(fs: seq<Flow>) {
    forall i, j :: 0 <= i < j < |fs| && Live(fs[i], true) && Live(fs[j], true) ==> fs[i].extId != fs[j].extId
  }

  /** A multicast flow in use sends to its context's group. */
  ghost predicate GroupsHeld(e: Env, fs: seq<Flow>) {
    |fs| == |e.groups| && forall f :: 0 <= f < |fs| && Live(fs[f], true) ==> fs[f].dst == e.groups[f]
  }

  /** The request lands on a multicast context that looks like its own, while the receiver's real
      context sits further down. */
  ghost predicate Hijacks(fs: seq<Flow>, r: Request) {
    var own := First(fs, Key(r.peer, r.dst, r.dport));
    own < |fs| && fs[own].mcast
    && exists i :: own < i < |fs| && Live(fs[i], false) && Matches(Key(r.peer, r.dst, r.dport), fs[i])
  }

  /** One bind keeps sockets unique exactly unless it hijacks a multicast context. */
  lemma SocketsUniqueIff(e: Env, s: State, r: Request, mac: seq<byte>, ms: nat, now: seq<nat>)
    requires e.Valid() && s.Valid() && r.Valid() && |mac| == 6 && |now| == 2 * TRIES && SocketsUnique(s.flows)
    ensures SocketsUnique(BoundUnicast(e, s, r, mac, ms, now).flows) <==> !Hijacks(s.flows, r)
  {
    var fs, t := s.flows, BoundUnicast(e, s, r, mac, ms, now).flows;
    var own, f := First(fs, Key(r.peer, r.dst, r.dport)), UnicastSlot(fs, r, ms);
    if Hijacks(fs, r) {
      var i :| own < i < |fs| && Live(fs[i], false) && Matches(Key(r.peer, r.dst, r.dport), fs[i]);
      assert t[i] == fs[i] && Live(t[f], false) && SameSocket(t[f], t[i]);
    } else {
      forall i, j | 0 <= i < j < |t| && Live(t[i], false) && Live(t[j], false)
        ensures !SameSocket(t[i], t[j])
      {
        if i == f || j == f {
          var g := if i == f then j else i;
          assert t[g] == fs[g] && Live(fs[g], false);
          assert SameSocket(t[f], t[g]) <==> Matches(Key(r.peer, r.dst, r.dport), fs[g]);
        }
      }
    }
  }

  /** A receiver that asks for an address of its own never hijacks. */
  lemma OwnAddressNeverHijacks(e: Env, fs: seq<Flow>, r: Request)
    requires GroupsHeld(e, fs) && r.dst !in e.groups
    ensures !Hijacks(fs, r)
  {
    var own := First(fs, Key(r.peer, r.dst, r.dport));
    if own < |fs| && fs[own].mcast {
      assert Live(fs[own], true);
    }
  }

  /** It can happen: a receiver binds one socket, then asks for the address of our first bundle; its
      first flow goes, the bundle takes that context and keeps the receiver's address as its peer; and
      the second request repeats. The receiver then has two contexts for one socket. */
  lemma BundleHijacked(e: Env, s: State, r: Request, q: Request, mac: seq<byte>, id: nat, chans: seq<nat>,
                       ms: nat, now: seq<nat>)
    requires e.Valid() && s.Valid() && r.Valid() && q.Valid() && |mac| == 6 && 1 <= |chans| <= 8 && |now| == 2 * TRIES
    requires forall f :: 0 <= f < N_CTX ==> !s.flows[f].inUse
    requires r.peer == q.peer && q.dst == e.groups[0] && q.dport == MEDIA_PORT && (r.dst != q.dst || r.dport != q.dport)
    ensures var b := BoundUnicast(e, BoundUnicast(e, s, r, mac, ms, now), q, mac, ms, now);
      var d := BoundMulticast(e, Unbound(b, 0), id, chans, ms, ms, now);
      SocketsUnique(d.flows) && Hijacks(d.flows, q) && !SocketsUnique(BoundUnicast(e, d, q, mac, ms, now).flows)
  {
    TakesFirstFree(s.flows, r, ms, 0);
    var a := BoundUnicast(e, s, r, mac, ms, now);
    TakesFirstFree(a.flows, q, ms, 1);
    var b := BoundUnicast(e, a, q, mac, ms, now);
    var c := Unbound(b, 0);
    TakesFree(c.flows, id, ms, 0);
    var d := BoundMulticast(e, c, id, chans, ms, ms, now);
    BundleLooksLike(e, d.flows, q);
    SocketsUniqueIff(e, d, q, mac, ms, now);
  }

  /** A bundle in context 0 with the receiver's peer address, the receiver's own flow in context 1,
      and nothing else. */
  lemma BundleLooksLike(e: Env, fs: seq<Flow>, q: Request)
    requires |fs| == N_CTX && fs[0].mcast && fs[0].inUse && Live(fs[1], false)
    requires Matches(Key(q.peer, q.dst, q.dport), fs[0]) && Matches(Key(q.peer, q.dst, q.dport), fs[1])
    requires forall f :: 2 <= f < N_CTX ==> !fs[f].inUse
    ensures SocketsUnique(fs) && Hijacks(fs, q)
  {
    FirstIs(fs, Key(q.peer, q.dst, q.dport), 0);
  }

  lemma MulticastIds(e: Env, s: State, id: nat, chans: seq<nat>, ms: nat, ms2: nat, now: seq<nat>)
    requires e.Valid() && s.Valid() && 1 <= |chans| <= 8 && |now| == 2 * TRIES && IdsUnique(s.flows)
    ensures IdsUnique(BoundMulticast(e, s, id, chans, ms, ms2, now).flows)
  {
    var fs, t := s.flows, BoundMulticast(e, s, id, chans, ms, ms2, now).flows;
    var f := McastSlot(fs, id, ms);
    forall i, j | 0 <= i < j < |t| && Live(t[i], true) && Live(t[j], true)
      ensures t[i].extId != t[j].extId
    {
      if i == f || j == f {
        var g := if i == f then j else i;
        assert t[g] == fs[g] && Live(fs[g], true);
        if fs[g].extId == id {
          assert Matches(McastId(id), fs[g]);
        }
      }
    }
  }

  /** dante_tx_ctx_for_id finds the multicast flow with that id exactly when no unicast flow before
      it still carries the id its context once had. */
  lemma CtxForIdIff(fs: seq<Flow>, id: nat)
    ensures First(fs, AnyId(id)) == First(fs, McastId(id)) <==>
      !(exists i :: 0 <= i < First(fs, McastId(id)) && Live(fs[i], false) && fs[i].extId == id)
  {
    var a, m := First(fs, AnyId(id)), First(fs, McastId(id));
    if a != m {
      if m < |fs| {
        assert Matches(AnyId(id), fs[m]);
      }
      assert a < m && Live(fs[a], false) && fs[a].extId == id by {
        assert Matches(AnyId(id), fs[a]) && !Matches(McastId(id), fs[a]);
      }
    } else if exists i :: 0 <= i < m && Live(fs[i], false) && fs[i].extId == id {
      var i :| 0 <= i < m && Live(fs[i], false) && fs[i].extId == id;
      assert Matches(AnyId(id), fs[i]);
    }
  }

  /** It does go wrong: a bundle is created, deleted, its context reused by a receiver, and the
      bundle created again; deleting it by id would now stop the receiver. */
  lemma WrongFlowDeleted(e: Env, s: State, id: nat, chans: seq<nat>, r: Request, mac: seq<byte>, ms: nat, now: seq<nat>)
    requires e.Valid() && s.Valid() && 1 <= |chans| <= 8 && r.Valid() && |mac| == 6 && |now| == 2 * TRIES
    requires forall f :: 0 <= f < N_CTX ==> !s.flows[f].inUse
    ensures var a := Unbound(BoundMulticast(e, s, id, chans, ms, ms, now), 0);
      var t := BoundMulticast(e, BoundUnicast(e, a, r, mac, ms, now), id, chans, ms, ms, now);
      First(t.flows, AnyId(id)) == 0 && Live(t.flows[0], false) && First(t.flows, McastId(id)) == 1
  {
    TakesFree(s.flows, id, ms, 0);
    var a := Unbound(BoundMulticast(e, s, id, chans, ms, ms, now), 0);
    assert a.flows[0].extId == id && forall f :: 0 <= f < N_CTX ==> !a.flows[f].inUse;
    TakesFirstFree(a.flows, r, ms, 0);
    var b := BoundUnicast(e, a, r, mac, ms, now);
    assert b.flows[0].inUse && !b.flows[0].mcast && b.flows[0].extId == id;
    TakesFree(b.flows, id, ms, 1);
    var t := BoundMulticast(e, b, id, chans, ms, ms, now);
    FirstIs(t.flows, AnyId(id), 0);
    FirstIs(t.flows, McastId(id), 1);
  }

  lemma TakesFree(fs: seq<Flow>, id: nat, ms: nat, k: nat)
    requires |fs| == N_CTX && k < N_CTX && !fs[k].inUse
    requires forall j :: 0 <= j < N_CTX ==> !Matches(McastId(id), fs[j]) && (j < k ==> fs[j].inUse)
    ensures McastSlot(fs, id, ms) == k && !McastEvicts(fs, id)
  {
    FirstIs(fs, McastId(id), N_CTX);
    FirstIs(fs, Free, k);
  }

  // ---- every run --------------------------------------------------------------------------------------

  datatype Op =
    | BindU(r: Request, mac: seq<byte>, ms: nat, now: seq<nat>)
    | BindM(id: nat, chans: seq<nat>, ms: nat, ms2: nat, now: seq<nat>)
    | UnbindOne(f: nat)
    | DropEvery
    | Anchor(sub: nat)
  {
    ghost predicate Valid() {
      match this
      case BindU(r, mac, _, now) => r.Valid() && |mac| == 6 && |now| == 2 * TRIES
      case BindM(_, chans, _, _, now) => 1 <= |chans| <= 8 && |now| == 2 * TRIES
      case UnbindOne(f) => f < N_CTX
      case _ => true
    }
  }

  ghost function Apply(e: Env, s: State, op: Op): (t: State)
    requires e.Valid() && s.Valid() && op.Valid()
    ensures t.Valid()
  {
    match op
    case BindU(r, mac, ms, now) => BoundUnicast(e, s, r, mac, ms, now)
    case BindM(id, chans, ms, ms2, now) => BoundMulticast(e, s, id, chans, ms, ms2, now)
    case UnbindOne(f) => if s.flows[f].inUse then Unbound(s, f) else s
    case DropEvery => DroppedFrom(s, 0)
    case Anchor(sub) => ReseededFrom(e, s, sub, 0)
  }

  ghost function Run(e: Env, s: State, ops: seq<Op>): (t: State)
    requires e.Valid() && s.Valid() && forall j :: 0 <= j < |ops| ==> ops[j].Valid()
    ensures t.Valid()
  {
    if ops == [] then s else Apply(e, Run(e, s, ops[..|ops| - 1]), ops[|ops| - 1])
  }

  lemma StepKeeps(e: Env, s: State, op: Op)
    requires e.Valid() && op.Valid() && Refines(e, s)
    ensures Refines(e, Apply(e, s, op)) && (MapsMatch(s) && !op.Anchor? ==> MapsMatch(Apply(e, s, op)))
  {
    match op
    case BindU(r, mac, ms, now) => UnicastKeeps(e, s, r, mac, ms, now);
    case BindM(id, chans, ms, ms2, now) => MulticastKeeps(e, s, id, chans, ms, ms2, now);
    case UnbindOne(f) => UnbindKeeps(e, s, f);
    case DropEvery => DropKeeps(e, s, 0);
    case Anchor(sub) => ReseedKeeps(e, s, sub, 0);
  }

  /** In every run the six contexts transmit exactly the flows in use: on if and only if bound, to
      the bound address, port and MAC, in the bound shape, with its checksum. */
  lemma {:induction false} TableRefined(e: Env, s: State, ops: seq<Op>)
    requires e.Valid() && Refines(e, s) && forall j :: 0 <= j < |ops| ==> ops[j].Valid()
    ensures Refines(e, Run(e, s, ops))
  {
    if ops != [] {
      TableRefined(e, s, ops[..|ops| - 1]);
      StepKeeps(e, Run(e, s, ops[..|ops| - 1]), ops[|ops| - 1]);
    }
  }

  /** And until the first re-anchor they carry the channels each flow asked for. */
  lemma {:induction false} MapsHeldUntilAnchor(e: Env, s: State, ops: seq<Op>)
    requires e.Valid() && Refines(e, s) && MapsMatch(s) && forall j :: 0 <= j < |ops| ==> ops[j].Valid()
    requires forall j :: 0 <= j < |ops| ==> !ops[j].Anchor?
    ensures MapsMatch(Run(e, s, ops))
  {
    if ops != [] {
      MapsHeldUntilAnchor(e, s, ops[..|ops| - 1]);
      TableRefined(e, s, ops[..|ops| - 1]);
      StepKeeps(e, Run(e, s, ops[..|ops| - 1]), ops[|ops| - 1]);
    }
  }

  ghost predicate SocketsSound(e: Env, s: State) {
    SocketsUnique(s.flows) && GroupsHeld(e, s.flows)
  }

  lemma {:induction false} DropSockets(e: Env, s: State, f: nat)
    requires e.Valid() && s.Valid() && f <= N_CTX && SocketsSound(e, s)
    ensures SocketsSound(e, DroppedFrom(s, f))
    decreases N_CTX - f
  {
    if f < N_CTX {
      DropSockets(e, if s.flows[f].inUse then Unbound(s, f) else s, f + 1);
    }
  }

  lemma {:induction false} ReseedFlows(e: Env, s: State, sub: nat, f: nat)
    requires e.Valid() && s.Valid() && f <= N_CTX
    ensures ReseededFrom(e, s, sub, f).flows == s.flows
    decreases N_CTX - f
  {
    if f < N_CTX {
      ReseedFlows(e, ReseededOne(e, s, sub, f), sub, f + 1);
    }
  }

  lemma StepSockets(e: Env, s: State, op: Op)
    requires e.Valid() && s.Valid() && op.Valid() && SocketsSound(e, s) && (op.BindU? ==> op.r.dst !in e.groups)
    ensures SocketsSound(e, Apply(e, s, op))
  {
    match op
    case BindU(r, mac, ms, now) =>
      OwnAddressNeverHijacks(e, s.flows, r);
      SocketsUniqueIff(e, s, r, mac, ms, now);
    case BindM(_, _, _, _, _) =>
    case UnbindOne(f) =>
    case DropEvery => DropSockets(e, s, 0);
    case Anchor(sub) => ReseedFlows(e, s, sub, 0);
  }

  lemma {:induction false} DropIds(e: Env, s: State, f: nat)
    requires s.Valid() && f <= N_CTX && IdsUnique(s.flows)
    ensures IdsUnique(DroppedFrom(s, f).flows)
    decreases N_CTX - f
  {
    if f < N_CTX {
      DropIds(e, if s.flows[f].inUse then Unbound(s, f) else s, f + 1);
    }
  }

  lemma StepIds(e: Env, s: State, op: Op)
    requires e.Valid() && s.Valid() && op.Valid() && IdsUnique(s.flows)
    ensures IdsUnique(Apply(e, s, op).flows)
  {
    match op
    case BindU(_, _, _, _) =>
    case BindM(id, chans, ms, ms2, now) => MulticastIds(e, s, id, chans, ms, ms2, now);
    case UnbindOne(_) =>
    case DropEvery => DropIds(e, s, 0);
    case Anchor(sub) => ReseedFlows(e, s, sub, 0);
  }

  /** In every run, whatever receivers ask for, no two multicast contexts serve the same id. */
  lemma {:induction false} IdsUniqueThroughout(e: Env, s: State, ops: seq<Op>)
    requires e.Valid() && s.Valid() && IdsUnique(s.flows) && forall j :: 0 <= j < |ops| ==> ops[j].Valid()
    ensures IdsUnique(Run(e, s, ops).flows)
  {
    if ops != [] {
      IdsUniqueThroughout(e, s, ops[..|ops| - 1]);
      StepIds(e, Run(e, s, ops[..|ops| - 1]), ops[|ops| - 1]);
    }
  }

  /** In every run in which receivers ask for addresses of their own, no two unicast contexts serve
      the same socket. */
  lemma {:induction false} SocketsUniqueThroughout(e: Env, s: State, ops: seq<Op>)
    requires e.Valid() && s.Valid() && SocketsSound(e, s) && forall j :: 0 <= j < |ops| ==> ops[j].Valid()
    requires forall j :: 0 <= j < |ops| && ops[j].BindU? ==> ops[j].r.dst !in e.groups
    ensures SocketsSound(e, Run(e, s, ops))
  {
    if ops != [] {
      SocketsUniqueThroughout(e, s, ops[..|ops| - 1]);
      StepSockets(e, Run(e, s, ops[..|ops| - 1]), ops[|ops| - 1]);
    }
  }

  // ---- keepalives, eviction, and the frames of a bound flow ---------------------------------------------

  /** A repeated request takes the context it took before and changes nothing on the wire but the
      phase seed. */
  lemma KeepaliveStable(e: Env, s: State, r: Request, mac: seq<byte>, ms: nat, now: seq<nat>, ms2: nat, now2: seq<nat>)
    requires e.Valid() && s.Valid() && r.Valid() && |mac| == 6 && |now| == 2 * TRIES && |now2| == 2 * TRIES
    ensures var t := BoundUnicast(e, s, r, mac, ms, now);
      UnicastSlot(t.flows, r, ms2) == UnicastSlot(s.flows, r, ms)
      && BoundUnicast(e, t, r, mac, ms2, now2).bank.ctxs == t.bank.ctxs
  {
    var t := BoundUnicast(e, s, r, mac, ms, now);
    var f := UnicastSlot(s.flows, r, ms);
    FirstIs(t.flows, Key(r.peer, r.dst, r.dport), f);
  }

  /** A bind takes a multicast flow's context for a new receiver only when all six are multicast, and
      an evicted flow is the one longest without a keepalive among those it may take. */
  lemma EvictsStalest(fs: seq<Flow>, r: Request, ms: nat)
    requires |fs| == N_CTX && UnicastEvicts(fs, r)
    ensures var f := UnicastSlot(fs, r, ms);
      (fs[f].mcast ==> forall j :: 0 <= j < N_CTX ==> fs[j].mcast)
      && forall j :: 0 <= j < N_CTX && (fs[j].mcast ==> fs[f].mcast) ==>
        (ms - fs[j].lastMs) % TWO32 <= (ms - fs[f].lastMs) % TWO32
  {
    var u := Oldest(fs, UnicastAge, ms);
    var f := UnicastSlot(fs, r, ms);
    if u < N_CTX {
      assert IsOldest(fs, UnicastAge, ms, u);
      forall j | 0 <= j < N_CTX && !fs[j].mcast
        ensures (ms - fs[j].lastMs) % TWO32 <= (ms - fs[f].lastMs) % TWO32
      {
        assert RankOf(UnicastAge, ms, fs[j]) <= RankOf(UnicastAge, ms, fs[f]);
      }
    } else {
      forall j | 0 <= j < N_CTX
        ensures fs[j].mcast && (ms - fs[j].lastMs) % TWO32 <= (ms - fs[f].lastMs) % TWO32
      {
        assert RankOf(UnicastAge, ms, fs[j]) < 0;
        assert RankOf(Age, ms, fs[j]) <= RankOf(Age, ms, fs[f]);
      }
    }
  }

  /** The age of a flow as an eviction sees it. */
  function AgeOf(ms: nat, x: Flow): nat {
    (ms - x.lastMs) % TWO32
  }

  /** An age is over the hour, one at the cap or over it comes later in the table and is smaller, and
      none as old as the cap follows that. */
  ghost predicate Outranked(fs: seq<Flow>, ms: nat, i: nat, j: nat) {
    i < j < |fs| && AgeOf(ms, fs[i]) > AgeOf(ms, fs[j]) >= AGE_CAP
    && forall k :: j < k < |fs| ==> AgeOf(ms, fs[k]) < AGE_CAP
  }

  /** A multicast bind that evicts, which does not spare multicast flows and counts no age beyond an
      hour, takes the flow longest without a keepalive exactly when no flow past the hour stands
      before a younger one that is past it too, the last such in the table. */
  lemma McastEvictsStalestIff(fs: seq<Flow>, id: nat, ms: nat)
    requires |fs| == N_CTX && McastEvicts(fs, id)
    ensures var f := McastSlot(fs, id, ms);
      (forall j :: 0 <= j < N_CTX ==> AgeOf(ms, fs[j]) <= AgeOf(ms, fs[f]))
      <==> !(exists i, j :: Outranked(fs, ms, i, j))
  {
    var f := McastSlot(fs, id, ms);
    assert IsOldest(fs, CappedAge, ms, f);
    if AgeOf(ms, fs[f]) < AGE_CAP {
      forall j | 0 <= j < N_CTX
        ensures AgeOf(ms, fs[j]) <= AgeOf(ms, fs[f])
      {
        assert RankOf(CappedAge, ms, fs[j]) <= RankOf(CappedAge, ms, fs[f]);
      }
    } else {
      LastPastTheHour(fs, ms, f);
      if j :| 0 <= j < N_CTX && AgeOf(ms, fs[j]) > AgeOf(ms, fs[f]) {
        assert Outranked(fs, ms, j, f);
      }
    }
  }

  lemma LastPastTheHour(fs: seq<Flow>, ms: nat, f: nat)
    requires IsOldest(fs, CappedAge, ms, f) && AgeOf(ms, fs[f]) >= AGE_CAP
    ensures forall k :: f < k < |fs| ==> AgeOf(ms, fs[k]) < AGE_CAP
  {
    forall k | f < k < |fs|
      ensures AgeOf(ms, fs[k]) < AGE_CAP
    {
      assert RankOf(CappedAge, ms, fs[k]) < RankOf(CappedAge, ms, fs[f]);
    }
  }

  /** n bundles created at the given times, with ids 0, 1, 2 and so on. */
  ghost function Bundles(e: Env, s: State, chans: seq<nat>, now: seq<nat>, times: seq<nat>, n: nat): (t: State)
    requires e.Valid() && s.Valid() && 1 <= |chans| <= 8 && |now| == 2 * TRIES && n <= |times|
    ensures t.Valid()
  {
    if n == 0 then s
    else BoundMulticast(e, Bundles(e, s, chans, now, times, n - 1), n - 1, chans, times[n - 1], times[n - 1], now)
  }

  /** Contexts 0 to n - 1 hold bundles 0 to n - 1 of those times, the rest are free. */
  ghost predicate Filled(fs: seq<Flow>, times: seq<nat>, n: nat) {
    |fs| == N_CTX && n <= N_CTX && n <= |times|
    && (forall f :: 0 <= f < n ==> Live(fs[f], true) && fs[f].extId == f && fs[f].lastMs == times[f])
    && forall f :: n <= f < N_CTX ==> !fs[f].inUse
  }

  lemma BundleAdded(e: Env, s: State, chans: seq<nat>, now: seq<nat>, times: seq<nat>, n: nat)
    requires e.Valid() && s.Valid() && 1 <= |chans| <= 8 && |now| == 2 * TRIES && n < N_CTX && n < |times|
    requires Filled(s.flows, times, n)
    ensures Filled(BoundMulticast(e, s, n, chans, times[n], times[n], now).flows, times, n + 1)
  {
    TakesFree(s.flows, n, times[n], n);
  }

  lemma {:induction false} BundlesFill(e: Env, s: State, chans: seq<nat>, now: seq<nat>, times: seq<nat>, n: nat)
    requires e.Valid() && s.Valid() && 1 <= |chans| <= 8 && |now| == 2 * TRIES && n <= |times| && n <= N_CTX
    requires Filled(s.flows, times, 0)
    ensures Filled(Bundles(e, s, chans, now, times, n).flows, times, n)
  {
    if n > 0 {
      BundlesFill(e, s, chans, now, times, n - 1);
      BundleAdded(e, Bundles(e, s, chans, now, times, n - 1), chans, now, times, n - 1);
    }
  }

  /** Two hours after the first bundle and one after the second, with four more just created, a
      seventh evicts the second. */
  lemma StalestSpared(e: Env, s: State, chans: seq<nat>, now: seq<nat>, times: seq<nat>, id: nat)
    requires e.Valid() && s.Valid() && 1 <= |chans| <= 8 && |now| == 2 * TRIES && id >= N_CTX
    requires forall f :: 0 <= f < N_CTX ==> !s.flows[f].inUse
    requires |times| == N_CTX && times[0] == 0 && times[1] == AGE_CAP
    requires forall f :: 2 <= f < N_CTX ==> times[f] == 2 * AGE_CAP
    ensures var fs, ms := Bundles(e, s, chans, now, times, N_CTX).flows, 2 * AGE_CAP;
      McastEvicts(fs, id) && McastSlot(fs, id, ms) == 1 && AgeOf(ms, fs[0]) == 2 * AgeOf(ms, fs[1]) > 0
  {
    BundlesFill(e, s, chans, now, times, N_CTX);
    SecondEvicted(Bundles(e, s, chans, now, times, N_CTX).flows, times, id);
  }

  lemma SecondEvicted(fs: seq<Flow>, times: seq<nat>, id: nat)
    requires Filled(fs, times, N_CTX) && id >= N_CTX && times[0] == 0 && times[1] == AGE_CAP
    requires forall f :: 2 <= f < N_CTX ==> times[f] == 2 * AGE_CAP
    ensures var ms := 2 * AGE_CAP;
      McastEvicts(fs, id) && McastSlot(fs, id, ms) == 1 && AgeOf(ms, fs[0]) == 2 * AgeOf(ms, fs[1]) > 0
  {
    var ms := 2 * AGE_CAP;
    FirstIs(fs, McastId(id), N_CTX);
    FirstIs(fs, Free, N_CTX);
    var f := McastSlot(fs, id, ms);
    assert RankOf(CappedAge, ms, fs[0]) == RankOf(CappedAge, ms, fs[1]) == AGE_CAP;
    assert forall j :: 2 <= j < N_CTX ==> RankOf(CappedAge, ms, fs[j]) == 0;
    assert IsOldest(fs, CappedAge, ms, f);
  }

  /** What a bound context gives the packetizer: a shape it can frame whenever the flow's payload is
      whole words, and headers whose IPv4 checksum verifies, whatever the stamp. */
  lemma BoundFlowFrames(e: Env, s: State, f: nat, sh: Shared, sec: nat, sub: nat)
    requires e.Valid() && Refines(e, s) && f < N_CTX && s.flows[f].inUse
    requires sh.Valid() && sh.srcIp == e.ip && sh.tos == TX_TOS && sh.ttl == TX_TTL
    ensures var c := s.bank.ctxs[f];
      c.Valid() && (c.WellShaped() <==> !(s.flows[f].fpp == 2 && s.flows[f].nslots % 2 == 1))
      && Checksum.Verifies(Header(c, sh, sec, sub)[14..34])
  {
    assert Linked(e, s.flows[f], s.bank.ctxs[f]);
    Checksum.EmittedHeaderVerifies(s.bank.ctxs[f], sh, sec, sub);
  }
}
