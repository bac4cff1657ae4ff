/** net.c: the ARP cache, the UDP port table, building a datagram around a payload and taking one
    apart (RFC 791 section 3.1, RFC 768). */
module Net {
  import opened Bytes

  const ETH := 14
  const IPH := 20
  const UDPH := 8
  const PAYLOAD_AT := 42
  const MAX_PAYLOAD := 1400
  const MIN_FRAME := 60
  const ARP_N := 6
  const BINDINGS := 16
  const TOS_AUDIO := 0xB8

  datatype Option<+T> = None | Some(value: T)

  const BROADCAST_MAC: Mac := [0xFF, 0xFF, 0xFF, 0xFF, 0xFF, 0xFF]

  predicate IsMcast(a: Ip) {
    224 <= a[0] <= 239
  }

  predicate IsBcast(a: Ip) {
    a == [255, 255, 255, 255]
  }

  /** 01:00:5e and the low 23 bits of the group. */
  function McastMac(a: Ip): Mac {
    [0x01, 0x00, 0x5E, a[1] % 128, a[2], a[3]]
  }

  // ---- ARP ------------------------------------------------------------------------------------------

  datatype Entry = Entry(ip: Ip, mac: Mac, valid: bool)

  datatype Cache = Cache(entries: seq<Entry>, next: nat)
  {
    ghost predicate Valid() { |entries| == ARP_N && next < ARP_N }
  }

  /** An address the cache will hold. */
  predicate Learnable(a: Ip) {
    !IsMcast(a) && !IsBcast(a) && a != [0, 0, 0, 0]
  }

  /** The first valid entry for an address, |es| if there is none. */
  function IndexOf(es: seq<Entry>, a: Ip): (k: nat)
    ensures k <= |es| && (k < |es| ==> es[k].valid && es[k].ip == a)
    ensures forall j :: 0 <= j < k ==> !(es[j].valid && es[j].ip == a)
  {
    if es == [] then 0
    else if es[0].valid && es[0].ip == a then 0
    else
      assert forall j :: 0 <= j < |es| - 1 ==> es[1..][j] == es[j + 1];
      1 + IndexOf(es[1..], a)
  }

  function Learned(c: Cache, a: Ip, m: Mac): (d: Cache)
    requires c.Valid()
    ensures d.Valid()
  {
    var k := IndexOf(c.entries, a);
    if !Learnable(a) then c
    else if k < ARP_N then c.(entries := c.entries[k := c.entries[k].(mac := m)])
    else Cache(c.entries[c.next := Entry(a, m, true)], (c.next + 1) % ARP_N)
  }

  /** net_arp_lookup; a miss also sends a request. */
  function Resolve(c: Cache, a: Ip): Option<Mac>
    requires c.Valid()
  {
    if IsMcast(a) then Some(McastMac(a))
    else if IsBcast(a) then Some(BROADCAST_MAC)
    else
      var k := IndexOf(c.entries, a);
      if k < ARP_N then Some(c.entries[k].mac) else None
  }

  class ArpCache {
    const entries: array<Entry>
    var next: nat

    ghost predicate Valid()
      reads this, entries
    {
      entries.Length == ARP_N && next < ARP_N
    }

    ghost function Abs(): Cache
      reads this, entries
    {
      Cache(entries[..], next)
    }

    constructor ()
      ensures Valid() && fresh(entries) && Distinct(Abs().entries)
      ensures forall k :: 0 <= k < ARP_N ==> !entries[k].valid
    {
      entries, next := new Entry[ARP_N](_ => Entry([0, 0, 0, 0], [0, 0, 0, 0, 0, 0], false)), 0;
    }

    method Learn(a: Ip, m: Mac)
      requires Valid()
      modifies this`next, entries
      ensures Valid() && Abs() == Learned(old(Abs()), a, m)
    {
      if IsMcast(a) || IsBcast(a) || a == [0, 0, 0, 0] {
        return;
      }
      ghost var es := entries[..];
      for i := 0 to ARP_N
        invariant entries[..] == es && next == old(next)
        invariant forall j :: 0 <= j < i ==> !(es[j].valid && es[j].ip == a)
      {
        if entries[i].valid && entries[i].ip == a {
          assert IndexOf(es, a) == i;
          entries[i] := entries[i].(mac := m);
          return;
        }
      }
      assert IndexOf(es, a) == ARP_N;
      entries[next] := Entry(a, m, true);
      next := (next + 1) % ARP_N;
    }

    method Lookup(a: Ip) returns (r: Option<Mac>)
      requires Valid()
      ensures r == Resolve(Abs(), a)
    {
      if IsMcast(a) {
        return Some(McastMac(a));
      }
      if IsBcast(a) {
        return Some(BROADCAST_MAC);
      }
      for i := 0 to ARP_N
        invariant forall j :: 0 <= j < i ==> !(entries[..][j].valid && entries[..][j].ip == a)
      {
        if entries[i].valid && entries[i].ip == a {
          assert IndexOf(entries[..], a) == i;
          return Some(entries[i].mac);
        }
      }
      assert IndexOf(entries[..], a) == ARP_N;
      r := None;
    }
  }

  /** No address has two entries, and none is a group, broadcast or zero address. */
  ghost predicate Distinct(es: seq<Entry>) {
    (forall i, j :: 0 <= i < j < |es| && es[i].valid && es[j].valid ==> es[i].ip != es[j].ip)
    && forall i :: 0 <= i < |es| && es[i].valid ==> Learnable(es[i].ip)
  }

  /** Learning keeps the cache sound, is found by the next lookup, and costs at most the one entry the
      round robin replaces. */
  lemma LearnThenResolve(c: Cache, a: Ip, m: Mac, b: Ip)
    requires c.Valid() && Distinct(c.entries)
    ensures var d := Learned(c, a, m);
      Distinct(d.entries)
      && (Learnable(a) ==> Resolve(d, a) == Some(m))
      && (b != a && (IndexOf(c.entries, a) < ARP_N || !(c.entries[c.next].valid && c.entries[c.next].ip == b)) ==>
        Resolve(d, b) == Resolve(c, b))
  {
    var d := Learned(c, a, m);
    var k, j := IndexOf(c.entries, a), IndexOf(c.entries, b);
    if Learnable(a) {
      var x := if k < ARP_N then k else c.next;
      assert d.entries[x].valid && d.entries[x].ip == a && d.entries[x].mac == m;
      EntryFound(d.entries, x);
      if b != a && (k < ARP_N || !(c.entries[c.next].valid && c.entries[c.next].ip == b)) {
        if j < ARP_N {
          assert d.entries[j] == c.entries[j];
          EntryFound(d.entries, j);
        } else {
          assert forall i :: 0 <= i < ARP_N ==> !(d.entries[i].valid && d.entries[i].ip == b);
        }
      }
    }
  }

  lemma EntryFound(es: seq<Entry>, k: nat)
    requires Distinct(es) && k < |es| && es[k].valid
    ensures IndexOf(es, es[k].ip) == k
  {
  }

  /** In every run of learning the cache stays sound. */
  lemma {:induction false} CacheSound(c: Cache, pairs: seq<(Ip, Mac)>)
    requires c.Valid() && Distinct(c.entries)
    ensures Distinct(LearnAll(c, pairs).entries)
  {
    if pairs != [] {
      var n := |pairs| - 1;
      CacheSound(c, pairs[..n]);
      LearnThenResolve(LearnAll(c, pairs[..n]), pairs[n].0, pairs[n].1, pairs[n].0);
    }
  }

  function LearnAll(c: Cache, pairs: seq<(Ip, Mac)>): (d: Cache)
    requires c.Valid()
    ensures d.Valid()
  {
    if pairs == [] then c
    else Learned(LearnAll(c, pairs[..|pairs| - 1]), pairs[|pairs| - 1].0, pairs[|pairs| - 1].1)
  }
}
