/** The receive-timestamp ring of avb_soc.py and the dispatcher of main.c that must pop it in step
    with the receive slots, as interleaved steps: the MAC may commit a frame between any two register
    accesses of the firmware. */
module RxTimestamps {
  import opened Bytes

  const RING := 8
  const SLOTS := 2       // receive slots of the MAC
  const BUDGET := 64

  /** The FIFO with its pop register and counters. */
  datatype Ring = Ring(fifo: seq<nat>, popped: nat, overflows: nat, commits: nat)

  function Pushed(r: Ring, ts: nat): Ring {
    if |r.fifo| < RING then r.(fifo := r.fifo + [ts], commits := (r.commits + 1) % TWO32)
    else r.(overflows := (r.overflows + 1) % TWO32, commits := (r.commits + 1) % TWO32)
  }

  function Popped(r: Ring): Ring {
    if r.fifo == [] then r else r.(fifo := r.fifo[1..], popped := r.fifo[0])
  }

  /** The hardware. */
  class TimestampRing {
    var fifo: seq<nat>
    var popped: nat
    var overflows: nat
    var commits: nat

    ghost function Abs(): Ring
      reads this
    {
      Ring(fifo, popped, overflows, commits)
    }

    constructor ()
      ensures Abs() == Ring([], 0, 0, 0)
    {
      fifo, popped, overflows, commits := [], 0, 0, 0;
    }

    /** A frame is committed to a slot. */
    method Commit(ts: nat)
      modifies this
      ensures Abs() == Pushed(old(Abs()), ts)
    {
      commits := (commits + 1) % TWO32;
      if |fifo| < RING {
        fifo := fifo + [ts];
      } else {
        overflows := (overflows + 1) % TWO32;
      }
    }

    /** The firmware writes the pop register. */
    method Pop()
      modifies this
      ensures Abs() == Popped(old(Abs()))
    {
      if fifo != [] {
        popped, fifo := fifo[0], fifo[1..];
      }
    }
  }

  // ---- the protocol -------------------------------------------------------------------------------

  /** Where dispatch_rx stands: outside, in the resync loop with its local level, looking for a slot,
      or dispatching the frame in the first slot, its pop done. */
  datatype Phase = Away | Resync(level: nat) | Drain(left: nat) | Dispatching(left: nat)

  /** slots are the pending frames' own timestamps; log is every frame committed so far. */
  datatype State = State(ring: Ring, slots: seq<nat>, phase: Phase, resyncs: nat, log: seq<nat>)

  datatype Action = Commit(ts: nat) | ReadLevel | DropOne | EndResync | Pop | Ack | Leave

  predicate Enabled(s: State, a: Action) {
    match a
    case Commit(_) => |s.slots| < SLOTS
    case ReadLevel => s.phase.Away?
    case DropOne => s.phase.Resync? && s.phase.level > SLOTS
    case EndResync => s.phase.Resync? && s.phase.level <= SLOTS
    case Pop => s.phase.Drain? && s.phase.left > 0 && s.slots != []
    case Ack => s.phase.Dispatching? && s.slots != []
    case Leave => s.phase.Drain? && (s.phase.left == 0 || s.slots == [])
  }

  function Step(s: State, a: Action): State
    requires Enabled(s, a)
  {
    match a
    case Commit(ts) => s.(ring := Pushed(s.ring, ts), slots := s.slots + [ts], log := s.log + [ts])
    case ReadLevel => s.(phase := Resync(|s.ring.fifo|))
    case DropOne => s.(ring := Popped(s.ring), phase := Resync(s.phase.level - 1), resyncs := (s.resyncs + 1) % TWO32)
    case EndResync => s.(phase := Drain(BUDGET))
    case Pop => s.(ring := Popped(s.ring), phase := Dispatching(s.phase.left - 1))
    case Ack => s.(slots := s.slots[1..], phase := Drain(s.phase.left))
    case Leave => s.(phase := Away)
  }

  ghost predicate Trace(st: seq<State>, acts: seq<Action>) {
    |st| == |acts| + 1 && forall j :: 0 <= j < |acts| ==> StepsAt(st, acts, j)
  }

  ghost predicate StepsAt(st: seq<State>, acts: seq<Action>, j: nat)
    requires j < |acts| && j + 1 < |st|
  {
    Enabled(st[j], acts[j]) && st[j + 1] == Step(st[j], acts[j])
  }

  /** Pending frames whose entry has not been popped. */
  function Unpopped(s: State): seq<nat> {
    if s.phase.Dispatching? && s.slots != [] then s.slots[1..] else s.slots
  }

  /** Entries in the ring beyond those of the pending frames. */
  function Backlog(s: State): int {
    |s.ring.fifo| - |Unpopped(s)|
  }

  /** What holds of every state: at most two slots, one of them being dispatched if any is, and in
      the resync loop a local level no higher than the ring's. */
  ghost predicate Sane(s: State) {
    |s.slots| <= SLOTS && (s.phase.Dispatching? ==> s.slots != [])
    && (s.phase.Resync? ==> s.phase.level <= |s.ring.fifo|)
  }

  // ---- aligned ------------------------------------------------------------------------------------

  /** The ring holds exactly the entries of the frames not yet dispatched, and the popped value is
      that of the frame being dispatched. */
  ghost predicate Aligned(s: State) {
    Sane(s) && s.ring.fifo == Unpopped(s) && (s.phase.Dispatching? ==> s.ring.popped == s.slots[0])
  }

  lemma AlignedStep(s: State, a: Action)
    requires Aligned(s) && Enabled(s, a)
    ensures Aligned(Step(s, a)) && !a.DropOne?
    ensures Step(s, a).ring.overflows == s.ring.overflows && Step(s, a).resyncs == s.resyncs
  {
  }

  /** Once aligned, always: under every interleaving the timestamp popped for a frame is that
      frame's, the ring never overflows and the resync never fires. */
  lemma {:induction false} AlignedForEver(st: seq<State>, acts: seq<Action>, n: nat)
    requires Trace(st, acts) && n <= |acts| && Aligned(st[0])
    ensures Aligned(st[n]) && st[n].ring.overflows == st[0].ring.overflows && st[n].resyncs == st[0].resyncs
    ensures st[n].phase.Dispatching? ==> st[n].ring.popped == st[n].slots[0]
  {
    if n > 0 {
      AlignedForEver(st, acts, n - 1);
      assert StepsAt(st, acts, n - 1);
      AlignedStep(st[n - 1], acts[n - 1]);
    }
  }

  // ---- misaligned ---------------------------------------------------------------------------------

  /** This commit's entry finds the ring full and is lost. */
  predicate Loses(s: State, a: Action) {
    a.Commit? && |s.ring.fifo| >= RING
  }

  /** Commits among steps a..b whose entry is lost. */
  ghost function Losses(st: seq<State>, acts: seq<Action>, a: nat, b: nat): nat
    requires a <= b <= |acts| < |st|
  {
    if a == b then 0 else Losses(st, acts, a, b - 1) + if Loses(st[b - 1], acts[b - 1]) then 1 else 0
  }

  lemma BacklogStep(s: State, a: Action)
    requires Sane(s) && Backlog(s) >= 0 && Enabled(s, a)
    ensures Sane(Step(s, a)) && Backlog(Step(s, a)) >= 0
    ensures Backlog(Step(s, a)) == Backlog(s) - if a.DropOne? || Loses(s, a) then 1 else 0
    ensures Backlog(s) <= RING - SLOTS ==> !Loses(s, a)
  {
  }

  /** From any state with stale entries, staleness never grows and never turns into a deficit; up to
      six stale entries no commit is lost. */
  lemma {:induction false} BacklogNeverGrows(st: seq<State>, acts: seq<Action>, n: nat)
    requires Trace(st, acts) && n <= |acts| && Sane(st[0]) && Backlog(st[0]) >= 0
    ensures Sane(st[n]) && 0 <= Backlog(st[n]) <= Backlog(st[0])
    ensures Backlog(st[0]) <= RING - SLOTS ==> Losses(st, acts, 0, n) == 0
  {
    if n > 0 {
      BacklogNeverGrows(st, acts, n - 1);
      assert StepsAt(st, acts, n - 1);
      BacklogStep(st[n - 1], acts[n - 1]);
    }
  }

  /** One pass of the resync loop: from reading the level at step a to leaving it at step b. */
  ghost predicate ResyncPass(st: seq<State>, acts: seq<Action>, a: nat, b: nat)
    requires Trace(st, acts) && a < b <= |acts|
  {
    acts[a].ReadLevel? && forall j :: a < j < b ==> acts[j].Commit? || acts[j].DropOne?
  }

  /** What a whole pass leaves of a backlog, given the frames pending when the level was read. */
  function AfterResync(backlog: nat, pending: nat): int {
    if backlog + pending > SLOTS then SLOTS - pending else backlog
  }

  lemma {:induction false} ResyncProgress(st: seq<State>, acts: seq<Action>, a: nat, b: nat)
    requires Trace(st, acts) && a < b <= |acts| && ResyncPass(st, acts, a, b)
    requires Sane(st[a]) && 0 <= Backlog(st[a])
    ensures Sane(st[b]) && st[b].phase.Resync? && 0 <= Backlog(st[b])
    ensures Backlog(st[b]) - st[b].phase.level == Backlog(st[a]) - |st[a].ring.fifo| - Losses(st, acts, a, b)
    ensures |st[a].ring.fifo| <= SLOTS ==> st[b].phase.level == |st[a].ring.fifo|
    ensures |st[a].ring.fifo| > SLOTS ==> st[b].phase.level >= SLOTS
    decreases b
  {
    if b == a + 1 {
      assert StepsAt(st, acts, a);
    } else {
      ResyncProgress(st, acts, a, b - 1);
      assert StepsAt(st, acts, b - 1);
      assert acts[b - 1].Commit? || acts[b - 1].DropOne?;
      BacklogStep(st[b - 1], acts[b - 1]);
    }
  }

  /** What a resync leaves, exactly and from every state with a surplus, a full ring included:
      everything above two entries goes, whatever is committed meanwhile, so the backlog left is two
      minus the frames that were pending, or what it was; less the commits that found the ring full. */
  lemma ResyncLeaves(st: seq<State>, acts: seq<Action>, a: nat, b: nat)
    requires Trace(st, acts) && a < b < |acts| && ResyncPass(st, acts, a, b) && acts[b].EndResync?
    requires Sane(st[a]) && 0 <= Backlog(st[a])
    ensures 0 <= Backlog(st[b + 1]) == AfterResync(Backlog(st[a]), |st[a].slots|) - Losses(st, acts, a, b)
    ensures Backlog(st[b + 1]) <= AfterResync(Backlog(st[a]), |st[a].slots|) <= SLOTS
    ensures Losses(st, acts, a, b) == 0 ==>
      (Backlog(st[b + 1]) == 0 <==> Backlog(st[a]) == 0 || |st[a].slots| == SLOTS)
  {
    ResyncProgress(st, acts, a, b);
    assert StepsAt(st, acts, a) && StepsAt(st, acts, b);
  }

  // ---- what a backlog does --------------------------------------------------------------------------

  /** Ring and slots are the latest entries of the commit log. */
  ghost predicate Tails(s: State) {
    Sane(s) && 0 <= Backlog(s) && |s.ring.fifo| <= |s.log| && |s.slots| <= |s.log|
    && TailOf(s.ring.fifo, s.log) && TailOf(s.slots, s.log)
  }

  ghost predicate TailOf(f: seq<nat>, log: seq<nat>)
    requires |f| <= |log|
  {
    f == log[|log| - |f|..]
  }

  lemma TailPush(f: seq<nat>, log: seq<nat>, ts: nat)
    requires |f| <= |log| && TailOf(f, log)
    ensures TailOf(f + [ts], log + [ts])
  {
    assert (log + [ts])[|log| - |f|..] == log[|log| - |f|..] + [ts];
  }

  lemma TailDrop(f: seq<nat>, log: seq<nat>)
    requires 0 < |f| <= |log| && TailOf(f, log)
    ensures TailOf(f[1..], log)
  {
  }

  lemma TailsStep(s: State, a: Action)
    requires Tails(s) && Enabled(s, a) && !Loses(s, a)
    ensures Tails(Step(s, a))
  {
    BacklogStep(s, a);
    match a
    case Commit(ts) =>
      TailPush(s.ring.fifo, s.log, ts);
      TailPush(s.slots, s.log, ts);
    case DropOne => TailDrop(s.ring.fifo, s.log);
    case Pop => TailDrop(s.ring.fifo, s.log);
    case Ack => TailDrop(s.slots, s.log);
    case _ =>
  }

  /** With a backlog of k the timestamp popped for a frame is the one of the frame k before it. */
  lemma PopIsStale(s: State)
    requires Tails(s) && Enabled(s, Pop)
    ensures var x, k := |s.log| - |s.slots|, Backlog(s);
      0 <= x - k && s.log[x] == s.slots[0] && Step(s, Pop).ring.popped == s.log[x - k]
  {
  }

  /** A dispatcher that always reads a level of at most two never resyncs, and its backlog stays for
      ever, but for commits a full ring loses: with one stale entry, every frame gets its
      predecessor's timestamp. */
  lemma {:induction false} BacklogStays(st: seq<State>, acts: seq<Action>, n: nat)
    requires Trace(st, acts) && n <= |acts| && Sane(st[0]) && 0 <= Backlog(st[0]) && st[0].phase.Away?
    requires forall j :: 0 <= j < n && acts[j].ReadLevel? ==> |st[j].ring.fifo| <= SLOTS
    ensures Sane(st[n]) && 0 <= Backlog(st[n]) == Backlog(st[0]) - Losses(st, acts, 0, n)
    ensures st[n].resyncs == st[0].resyncs && (st[n].phase.Resync? ==> st[n].phase.level <= SLOTS)
    ensures Tails(st[0]) && Losses(st, acts, 0, n) == 0 ==> Tails(st[n])
  {
    if n > 0 {
      BacklogStays(st, acts, n - 1);
      assert StepsAt(st, acts, n - 1);
      BacklogStep(st[n - 1], acts[n - 1]);
      if Tails(st[n - 1]) && !Loses(st[n - 1], acts[n - 1]) {
        TailsStep(st[n - 1], acts[n - 1]);
      }
    }
  }
}
