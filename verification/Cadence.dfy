/** The periodic schedule of metadata slots, and how far a stream time has advanced it. */
module Cadence {
  datatype PayloadKind = Startup | SignedReuse | SignedCurrent | Delay

  const SLOTS := 5
  const CYCLE_MS := 2000
  const MAXIMUM_GAP_MS := 10000

  function OffsetMs(slot: nat): nat
    requires slot < SLOTS
  {
    [0, 0, 16, 700, 1000][slot]
  }

  function PeriodicKind(slot: nat): PayloadKind
    requires slot < SLOTS
  {
    [SignedReuse, Delay, SignedCurrent, SignedReuse, SignedCurrent][slot]
  }

  // ----- The ideal schedule of an epoch

  /** When slot n of an epoch is due, in milliseconds after the first packet of the epoch. */
  function TargetMs(n: nat): nat {
    n / SLOTS * CYCLE_MS + OffsetMs(n % SLOTS)
  }

  /** What slot n of an epoch carries. */
  function KindAt(n: nat): PayloadKind {
    if n == 0 then Startup else PeriodicKind(n % SLOTS)
  }

  /** The kinds of the slots from..to of an epoch. */
  function Kinds(from: nat, to: nat): (kinds: seq<PayloadKind>)
    requires from <= to
    ensures |kinds| == to - from
  {
    seq(to - from, i requires 0 <= i => KindAt(from + i))
  }

  /** How many slots are due once `elapsed` milliseconds of an epoch have passed. */
  function SlotsDue(elapsed: nat): nat {
    SLOTS * (elapsed / CYCLE_MS) + SlotsWithinCycle(elapsed % CYCLE_MS)
  }

  function SlotsWithinCycle(phase: nat): nat {
    if phase < 16 then 2 else if phase < 700 then 3 else if phase < 1000 then 4 else 5
  }

  /** A slot is due exactly when its target has been reached. */
  lemma DueIffTargetReached(n: nat, elapsed: nat)
    ensures TargetMs(n) <= elapsed <==> n < SlotsDue(elapsed)
  {
    var cycle, now := n / SLOTS, elapsed / CYCLE_MS;
    if cycle < now {
      assert cycle * CYCLE_MS + CYCLE_MS <= now * CYCLE_MS;
    } else if cycle > now {
      assert now * CYCLE_MS + CYCLE_MS <= cycle * CYCLE_MS;
    }
  }

  lemma SlotsDueIsMonotone(earlier: nat, later: nat)
    requires earlier <= later
    ensures 2 <= SlotsDue(earlier) <= SlotsDue(later)
  {
    var n := SlotsDue(earlier) - 1;
    DueIffTargetReached(n, earlier);
    DueIffTargetReached(n, later);
  }

  /** Every two seconds of an epoch have the same five messages, but for the Startup at its beginning. */
  lemma EveryTwoSeconds(cycle: nat)
    ensures TargetMs(5 * cycle) == TargetMs(5 * cycle + 1) == 2000 * cycle
    ensures TargetMs(5 * cycle + 2) == 2000 * cycle + 16
    ensures TargetMs(5 * cycle + 3) == 2000 * cycle + 700
    ensures TargetMs(5 * cycle + 4) == 2000 * cycle + 1000
    ensures KindAt(5 * cycle) == (if cycle == 0 then Startup else SignedReuse) && KindAt(5 * cycle + 1) == Delay
    ensures KindAt(5 * cycle + 2) == SignedCurrent && KindAt(5 * cycle + 3) == SignedReuse
    ensures KindAt(5 * cycle + 4) == SignedCurrent
  {
  }

  /** The largest gap that does not restart the schedule spans exactly 25 slots. */
  lemma SlotsPerMaximumGap(elapsed: nat)
    ensures SlotsDue(elapsed + MAXIMUM_GAP_MS) == SlotsDue(elapsed) + 25
  {
    assert (elapsed + MAXIMUM_GAP_MS) / CYCLE_MS == elapsed / CYCLE_MS + 5;
    assert (elapsed + MAXIMUM_GAP_MS) % CYCLE_MS == elapsed % CYCLE_MS;
  }

  lemma KindsExtend(from: nat, to: nat)
    requires from <= to
    ensures Kinds(from, to + 1) == Kinds(from, to) + [KindAt(to)]
  {
  }
}
