/** Where the signatures of the emitted messages come from, and how old they can be in stream time. */
module SignatureAge {
  import opened Common
  import opened SeiCodec
  import opened Cadence
  import opened SignatureCache
  import opened StreamModel

  /** 30,000 ms to the first re-selection, counted from a packet at most 10,015 ms into the epoch. */
  const FIRST_AGE_MS := 40015

  function Bound(reselected: bool): nat {
    if reselected then SELECT_INTERVAL_MS else FIRST_AGE_MS
  }

  /** The signature in use was selected recently, and the next selection is ahead, but not too far. */
  predicate RecentlySelected(s: StreamState, streamMs: int) {
    && 0 <= streamMs - s.selectedAtMs < Bound(s.reselected)
    && streamMs < s.nextSelectMs <= streamMs + SELECT_INTERVAL_MS
  }

  /** A signed-current message carries the signature in use, which was selected recently. */
  ghost predicate Recent(e: Emission) {
    e.kind.SignedCurrent? ==>
      RecentlySelected(e.after, e.streamMs) && e.payload.RegularPayload? && Some(e.payload.sign) == e.after.sign
  }

  ghost predicate AllRecent(emissions: seq<Emission>) {
    forall k :: 0 <= k < |emissions| ==> Recent(emissions[k])
  }

  // ----- What the times of the packets alone say

  /**
   The epoch that a run of packet times leads to. `armedMs` is the first time of the epoch, at or after
   -30,000 ms, at which a packet carried a signed-current message: the next selection counts from there.
   */
  datatype Timeline = Timeline(started: bool, firstMs: int, lastMs: int, armedMs: Option<int>)

  /** A packet of the given time carries a signed-current message. */
  ghost predicate Signs(t: Timeline, streamMs: int) {
    exists k: nat :: KindAt(k).SignedCurrent? && t.lastMs - t.firstMs < TargetMs(k) <= streamMs - t.firstMs
  }

  predicate Continues(t: Timeline, streamMs: int) {
    t.started && t.lastMs <= streamMs <= t.lastMs + MAXIMUM_GAP_MS
  }

  ghost function Followed(t: Timeline, streamMs: int): Timeline {
    if !Continues(t, streamMs) then Timeline(true, streamMs, streamMs, None)
    else
      var arms := t.armedMs == None && streamMs >= -SELECT_INTERVAL_MS && Signs(t, streamMs);
      t.(lastMs := streamMs, armedMs := if arms then Some(streamMs) else t.armedMs)
  }

  ghost function TimelineOf(config: SeiConfig, arrivals: seq<Arrival>): Timeline
    decreases |arrivals|
  {
    if arrivals == [] then Timeline(false, -1, -1, None)
    else
      var n := |arrivals| - 1;
      var before := TimelineOf(config, arrivals[..n]);
      if Rejects(config, arrivals[n].frame).Some? then before else Followed(before, arrivals[n].frame.streamMs)
  }

  /**
   A packet that carries a signed-current message 40,015 ms or more into its epoch, while no selection
   has become due in the epoch yet.
   */
  ghost predicate TooOld(t: Timeline, streamMs: int) {
    && Continues(t, streamMs) && Signs(t, streamMs) && streamMs - t.firstMs >= FIRST_AGE_MS
    && (t.armedMs.Some? ==> streamMs < t.armedMs.value + SELECT_INTERVAL_MS)
  }

  ghost predicate NeverTooOld(config: SeiConfig, arrivals: seq<Arrival>) {
    forall i :: 0 <= i < |arrivals| && Rejects(config, arrivals[i].frame) == None ==>
      !TooOld(TimelineOf(config, arrivals[..i]), arrivals[i].frame.streamMs)
  }

  // ----- The stream state agrees with the times

  /** Between packets of an error-free run. */
  ghost predicate Traced(s: StreamState, t: Timeline) {
    && Coupled(s) && s.started == t.started
    && (!s.started ==> s == FRESH)
    && (s.started ==>
          && s.baseMs == t.firstMs && s.lastMs == t.lastMs
          && s.sign.Some? && s.selectedAtMs <= s.lastMs && SelectionTraced(s, t))
  }

  ghost predicate SelectionTraced(s: StreamState, t: Timeline) {
    match t.armedMs
    case None => s.nextSelectMs < 0 && s.selectedAtMs == t.firstMs && !s.reselected
    case Some(armed) =>
      && -SELECT_INTERVAL_MS <= armed <= t.lastMs && 0 <= s.nextSelectMs
      && if s.reselected
         then s.nextSelectMs <= s.selectedAtMs + SELECT_INTERVAL_MS && armed + SELECT_INTERVAL_MS <= t.lastMs
         else s.nextSelectMs == armed + SELECT_INTERVAL_MS && s.selectedAtMs == t.firstMs
  }

  lemma SignsIffDue(s: StreamState, t: Timeline, streamMs: int)
    requires Traced(s, t)
    ensures SignedCurrent in DueKinds(s, streamMs) <==> Continues(t, streamMs) && Signs(t, streamMs)
  {
    var kinds := DueKinds(s, streamMs);
    if StartsEpoch(s, streamMs) {
      CatchUpBound(s, streamMs);
    } else {
      forall k: nat
        ensures s.nextSlot <= k < Advanced(s, streamMs).nextSlot <==>
                t.lastMs - t.firstMs < TargetMs(k) <= streamMs - t.firstMs
      {
        DueIffTargetReached(k, s.lastMs - s.baseMs);
        DueIffTargetReached(k, streamMs - s.baseMs);
      }
      if Signs(t, streamMs) {
        var k: nat :| KindAt(k).SignedCurrent? && t.lastMs - t.firstMs < TargetMs(k) <= streamMs - t.firstMs;
        assert kinds[k - s.nextSlot] == SignedCurrent;
      }
    }
  }

  /** All signed-current messages of a packet are built with the same selection. */
  ghost predicate BuiltWith(emitted: seq<Emission>, kinds: seq<PayloadKind>, selection: StreamState, streamMs: int) {
    && |emitted| == |kinds|
    && forall i :: 0 <= i < |kinds| ==>
         && emitted[i].kind == kinds[i] && emitted[i].streamMs == streamMs
         && (kinds[i].SignedCurrent? ==>
               && SameSelection(emitted[i].after, selection)
               && emitted[i].payload.RegularPayload? && Some(emitted[i].payload.sign) == selection.sign)
  }

  lemma {:induction false} EmitAllBuiltWith(s: StreamState, kinds: seq<PayloadKind>, frame: Frame, cache: Signatures)
    requires s.sign.Some? && EmitAll(s, kinds, frame, cache).1.Some?
    ensures BuiltWith(EmitAll(s, kinds, frame, cache).1.value, kinds, Refresh(s, frame, cache).0, frame.streamMs)
    decreases |kinds|
  {
    if kinds != [] {
      var shorter, last := kinds[..|kinds| - 1], kinds[|kinds| - 1];
      EmitAllBuiltWith(s, shorter, frame, cache);
      EmitFailsIff(s, shorter, frame, cache);
      EmitFailsIff(s, kinds, frame, cache);
      RefreshFailsIff(s, frame, cache);
      if last.SignedCurrent? && SignedCurrent in shorter {
        RefreshSettles(s, EmitAll(s, shorter, frame, cache).0, frame, cache);
      }
    }
  }

  lemma AllRecentIff(emitted: seq<Emission>, kinds: seq<PayloadKind>, selection: StreamState, streamMs: int)
    requires BuiltWith(emitted, kinds, selection, streamMs)
    ensures AllRecent(emitted) <==> (SignedCurrent in kinds ==> RecentlySelected(selection, streamMs))
  {
    if AllRecent(emitted) && SignedCurrent in kinds {
      var i :| 0 <= i < |kinds| && kinds[i] == SignedCurrent;
      assert Recent(emitted[i]);
    }
  }

  lemma RefreshTraced(s: StreamState, t: Timeline, frame: Frame, cache: Signatures)
    requires Traced(s, t) && Continues(t, frame.streamMs) && Signs(t, frame.streamMs) && Refresh(s, frame, cache).1
    ensures var r := Refresh(s, frame, cache).0;
            && r.selectedAtMs <= frame.streamMs && SelectionTraced(r, Followed(t, frame.streamMs))
            && (RecentlySelected(r, frame.streamMs) <==> !TooOld(t, frame.streamMs))
  {
  }

  lemma StartTraced(s: StreamState, t: Timeline, config: SeiConfig, frame: Frame, cache: Signatures)
    requires Traced(s, t) && Rejects(config, frame) == None && !Continues(t, frame.streamMs)
    requires !Transform(s, config, frame, cache).1.Failed?
    ensures var (after, outcome) := Transform(s, config, frame, cache);
            Traced(after, Followed(t, frame.streamMs)) && AllRecent(Emitted(outcome))
  {
    var kinds, advanced := DueKinds(s, frame.streamMs), Advanced(s, frame.streamMs);
    CatchUpBound(s, frame.streamMs);
    var signed := EnsureSigned(advanced, frame, cache).value;
    EmitFailsIff(signed, kinds, frame, cache);
    EmitKeepsSchedule(signed, kinds, frame, cache);
    EmitAllBuiltWith(signed, kinds, frame, cache);
    AllRecentIff(EmitAll(signed, kinds, frame, cache).1.value, kinds, Refresh(signed, frame, cache).0, frame.streamMs);
  }

  /** The messages of a packet that continues an epoch. */
  lemma EmittedTraced(s: StreamState, t: Timeline, advanced: StreamState, kinds: seq<PayloadKind>, frame: Frame,
                      cache: Signatures)
    requires Traced(s, t) && Continues(t, frame.streamMs) && SameSelection(s, advanced) && s.sign.Some?
    requires SignedCurrent in kinds <==> Signs(t, frame.streamMs)
    requires EmitAll(advanced, kinds, frame, cache).1.Some?
    ensures var (after, emitted) := EmitAll(advanced, kinds, frame, cache);
            && after.sign.Some? && after.selectedAtMs <= frame.streamMs
            && SelectionTraced(after, Followed(t, frame.streamMs))
            && (AllRecent(emitted.value) <==> !TooOld(t, frame.streamMs))
  {
    EmitFailsIff(advanced, kinds, frame, cache);
    EmitAllBuiltWith(advanced, kinds, frame, cache);
    AllRecentIff(EmitAll(advanced, kinds, frame, cache).1.value, kinds, Refresh(advanced, frame, cache).0,
                 frame.streamMs);
    if SignedCurrent in kinds {
      RefreshFailsIff(s, frame, cache);
      RefreshFailsIff(advanced, frame, cache);
      RefreshTraced(s, t, frame, cache);
      assert SameSelection(Refresh(advanced, frame, cache).0, Refresh(s, frame, cache).0);
    }
  }

  lemma ContinueTraced(s: StreamState, t: Timeline, config: SeiConfig, frame: Frame, cache: Signatures)
    requires Traced(s, t) && Rejects(config, frame) == None && Continues(t, frame.streamMs)
    requires !Transform(s, config, frame, cache).1.Failed?
    ensures var (after, outcome) := Transform(s, config, frame, cache);
            Traced(after, Followed(t, frame.streamMs)) && (AllRecent(Emitted(outcome)) <==> !TooOld(t, frame.streamMs))
  {
    var kinds, advanced := DueKinds(s, frame.streamMs), Advanced(s, frame.streamMs);
    SignsIffDue(s, t, frame.streamMs);
    if kinds != [] {
      EmittedTraced(s, t, advanced, kinds, frame, cache);
      EmitKeepsSchedule(advanced, kinds, frame, cache);
    }
  }

  // ----- Main results

  /**
   On every error-free run from a new session, across all restarts of the epoch and for all stream
   times: every signed-current message carries a signature selected less than 40,015 ms of stream time
   earlier (30,000 ms once the epoch has re-selected), with the next selection within the 30,000 ms
   after the packet, if and only if no packet comes too late, which its time and the times before tell.
   */
  lemma {:induction false} RecentIffNeverTooOld(config: SeiConfig, arrivals: seq<Arrival>)
    requires Run(FRESH, config, arrivals).clean
    ensures Traced(Run(FRESH, config, arrivals).state, TimelineOf(config, arrivals))
    ensures AllRecent(Run(FRESH, config, arrivals).emissions) <==> NeverTooOld(config, arrivals)
    decreases |arrivals|
  {
    if arrivals != [] {
      var n := |arrivals| - 1;
      var frame, cache := arrivals[n].frame, arrivals[n].cache;
      RecentIffNeverTooOld(config, arrivals[..n]);
      var before, t := Run(FRESH, config, arrivals[..n]), TimelineOf(config, arrivals[..n]);
      if Rejects(config, frame) == None {
        if Continues(t, frame.streamMs) {
          ContinueTraced(before.state, t, config, frame, cache);
        } else {
          StartTraced(before.state, t, config, frame, cache);
        }
      }
      AllRecentAppend(before.emissions, Emitted(Transform(before.state, config, frame, cache).1));
      NeverTooOldAppend(config, arrivals);
    }
  }

  lemma AllRecentAppend(before: seq<Emission>, added: seq<Emission>)
    ensures AllRecent(before + added) <==> AllRecent(before) && AllRecent(added)
  {
    if AllRecent(before + added) {
      forall k | 0 <= k < |added|
        ensures Recent(added[k])
      {
        assert Recent((before + added)[|before| + k]);
      }
      forall k | 0 <= k < |before|
        ensures Recent(before[k])
      {
        assert Recent((before + added)[k]);
      }
    }
  }

  lemma NeverTooOldAppend(config: SeiConfig, arrivals: seq<Arrival>)
    requires arrivals != []
    ensures var n := |arrivals| - 1;
            NeverTooOld(config, arrivals) <==>
            NeverTooOld(config, arrivals[..n]) &&
            (Rejects(config, arrivals[n].frame) == None ==>
               !TooOld(TimelineOf(config, arrivals[..n]), arrivals[n].frame.streamMs))
  {
    var n := |arrivals| - 1;
    forall i | 0 <= i < n
      ensures arrivals[..n][i] == arrivals[i] && arrivals[..n][..i] == arrivals[..i]
    {
    }
  }

  /** From -30,000 ms on, the first signed-current packet of an epoch is at most 10,015 ms into it. */
  ghost predicate ArmedEarly(t: Timeline) {
    t.started ==>
      && -SELECT_INTERVAL_MS <= t.firstMs <= t.lastMs
      && match t.armedMs
         case None => t.lastMs - t.firstMs < 16
         case Some(armed) => armed - t.firstMs <= 10015
  }

  lemma {:induction false} AlwaysArmedEarly(config: SeiConfig, arrivals: seq<Arrival>)
    requires forall i :: 0 <= i < |arrivals| ==> arrivals[i].frame.streamMs >= -SELECT_INTERVAL_MS
    ensures ArmedEarly(TimelineOf(config, arrivals))
    decreases |arrivals|
  {
    if arrivals != [] {
      AlwaysArmedEarly(config, arrivals[..|arrivals| - 1]);
      assert KindAt(2).SignedCurrent? && TargetMs(2) == 16;
    }
  }

  /** From -30,000 ms on, no packet of any error-free run is too old. */
  lemma SignaturesStayRecent(config: SeiConfig, arrivals: seq<Arrival>)
    requires forall i :: 0 <= i < |arrivals| ==> arrivals[i].frame.streamMs >= -SELECT_INTERVAL_MS
    requires Run(FRESH, config, arrivals).clean
    ensures AllRecent(Run(FRESH, config, arrivals).emissions)
  {
    forall i | 0 <= i < |arrivals| && Rejects(config, arrivals[i].frame) == None
      ensures !TooOld(TimelineOf(config, arrivals[..i]), arrivals[i].frame.streamMs)
    {
      AlwaysArmedEarly(config, arrivals[..i]);
    }
    RecentIffNeverTooOld(config, arrivals);
  }

  // ----- Where signatures come from

  /** The signature in use is the one cached for the wall clock of this packet, within a second. */
  ghost predicate SelectedAt(s: StreamState, a: Arrival) {
    && s.sign.Some? && s.selectedAtMs == a.frame.streamMs && s.lastSignedMs == a.frame.wallMs
    && var near := Near(a.cache, Seconds(a.frame.wallMs));
       near.Some? && s.sign.value == a.cache[near.value]
  }

  ghost predicate Sourced(s: StreamState, arrivals: seq<Arrival>) {
    s.sign.Some? ==> exists a :: a in arrivals && SelectedAt(s, a)
  }

  /** A signed message carries the signature in use, and a reusing one the time of its selection. */
  ghost predicate Authentic(e: Emission, arrivals: seq<Arrival>) {
    exists a :: a in arrivals && SelectedAt(e.after, a) &&
      match e.payload
      case StartupPayload(sign, _, _, _) => Some(sign) == e.after.sign
      case RegularPayload(sign, _, _, _, timestampMs) =>
        Some(sign) == e.after.sign && (e.kind.SignedReuse? && a.frame.wallMs > 0 ==> timestampMs == a.frame.wallMs)
      case DelayPayload(_, _) => true
  }

  lemma {:induction false} EmitAllSourced(s: StreamState, kinds: seq<PayloadKind>, last: Arrival,
                                          arrivals: seq<Arrival>)
    requires s.sign.Some? && Sourced(s, arrivals) && last in arrivals
    ensures var (after, emitted) := EmitAll(s, kinds, last.frame, last.cache);
            && Sourced(after, arrivals)
            && (emitted.Some? ==> forall i :: 0 <= i < |emitted.value| ==> Authentic(emitted.value[i], arrivals))
    decreases |kinds|
  {
    if kinds != [] {
      EmitAllSourced(s, kinds[..|kinds| - 1], last, arrivals);
      var (before, _) := EmitAll(s, kinds[..|kinds| - 1], last.frame, last.cache);
      EmitOneSourced(before, kinds[|kinds| - 1], last, arrivals);
    }
  }

  lemma EmitOneSourced(s: StreamState, kind: PayloadKind, last: Arrival, arrivals: seq<Arrival>)
    requires s.sign.Some? && Sourced(s, arrivals) && last in arrivals
    ensures var (after, e) := EmitOne(s, kind, last.frame, last.cache);
            Sourced(after, arrivals) && (e.Some? ==> Authentic(e.value, arrivals))
  {
    var a :| a in arrivals && SelectedAt(s, a);
    var (after, e) := EmitOne(s, kind, last.frame, last.cache);
    assert SelectedAt(after, a) || SelectedAt(after, last);
  }

  /**
   On every run, failing or not: each message was built with a signature that the cache held, within
   a second of the wall clock, at some packet of the run. No other signature is ever sent.
   */
  lemma {:induction false} OnlyCachedSignaturesAreSent(config: SeiConfig, arrivals: seq<Arrival>)
    ensures Sourced(Run(FRESH, config, arrivals).state, arrivals)
    ensures forall k :: 0 <= k < |Run(FRESH, config, arrivals).emissions| ==>
              Authentic(Run(FRESH, config, arrivals).emissions[k], arrivals)
    decreases |arrivals|
  {
    if arrivals != [] {
      var n := |arrivals| - 1;
      OnlyCachedSignaturesAreSent(config, arrivals[..n]);
      var before := Run(FRESH, config, arrivals[..n]);
      assert forall a :: a in arrivals[..n] ==> a in arrivals;
      assert Sourced(before.state, arrivals);
      TransformSourced(before.state, config, arrivals[n], arrivals);
      forall e | e in before.emissions
        ensures Authentic(e, arrivals)
      {
        assert Authentic(e, arrivals[..n]);
      }
    }
  }

  lemma TransformSourced(s: StreamState, config: SeiConfig, last: Arrival, arrivals: seq<Arrival>)
    requires Coupled(s) && Sourced(s, arrivals) && last in arrivals
    ensures var (after, outcome) := Transform(s, config, last.frame, last.cache);
            Sourced(after, arrivals) && forall i :: 0 <= i < |Emitted(outcome)| ==>
              Authentic(Emitted(outcome)[i], arrivals)
  {
    var kinds, advanced := DueKinds(s, last.frame.streamMs), Advanced(s, last.frame.streamMs);
    var signed := EnsureSigned(advanced, last.frame, last.cache);
    if signed.Some? {
      assert Sourced(signed.value, arrivals) by {
        if s.sign.Some? && advanced.sign.Some? {
          var a :| a in arrivals && SelectedAt(s, a);
          assert SelectedAt(signed.value, a);
        } else {
          assert SelectedAt(signed.value, last);
        }
      }
      EmitAllSourced(signed.value, kinds, last, arrivals);
    }
    assert Sourced(advanced, arrivals) by {
      if advanced.sign.Some? {
        var a :| a in arrivals && SelectedAt(s, a);
        assert SelectedAt(advanced, a);
      }
    }
  }

  // ----- Why the limit on stream times is needed

  ghost predicate Unarmed(s: StreamState, selectedAtMs: int) {
    s.sign.Some? && s.nextSelectMs < 0 && s.selectedAtMs == selectedAtMs
  }

  lemma {:induction false} EmitAllUnarmed(s: StreamState, kinds: seq<PayloadKind>, frame: Frame, cache: Signatures,
                                          at: int)
    requires Unarmed(s, at) && frame.streamMs < -SELECT_INTERVAL_MS
    ensures var (after, emitted) := EmitAll(s, kinds, frame, cache);
            && Unarmed(after, at) && emitted.Some?
            && forall i :: 0 <= i < |emitted.value| ==> emitted.value[i].after.selectedAtMs == at
    decreases |kinds|
  {
    if kinds != [] {
      EmitAllUnarmed(s, kinds[..|kinds| - 1], frame, cache, at);
    }
  }

  /**
   Below -30,000 ms nothing is ever re-selected: for as long as an epoch stays there, every message
   uses the signature chosen at the first packet, however long ago that was.
   */
  lemma {:induction false} NeverReselectsBelowLimit(config: SeiConfig, arrivals: seq<Arrival>)
    requires CleanEpoch(FRESH, config, arrivals)
    requires forall i :: 0 <= i < |arrivals| ==> arrivals[i].frame.streamMs < -SELECT_INTERVAL_MS
    ensures var t, first := Run(FRESH, config, arrivals), arrivals[0].frame.streamMs;
            && Unarmed(t.state, first)
            && forall k :: 0 <= k < |t.emissions| ==> t.emissions[k].after.selectedAtMs == first
    decreases |arrivals|
  {
    var n, first := |arrivals| - 1, arrivals[0].frame.streamMs;
    var before, frame, cache := Run(FRESH, config, arrivals[..n]).state, arrivals[n].frame, arrivals[n].cache;
    if n > 0 {
      ShorterEpoch(FRESH, config, arrivals);
      NeverReselectsBelowLimit(config, arrivals[..n]);
      var _, _ := EpochCounts(FRESH, config, arrivals[..n]);
    }
    OnePacketUnarmed(before, config, frame, cache, first);
  }

  /** One packet that starts an epoch below the limit, or continues one. */
  lemma OnePacketUnarmed(s: StreamState, config: SeiConfig, frame: Frame, cache: Signatures, at: int)
    requires Coupled(s) && Rejects(config, frame) == None && frame.streamMs < -SELECT_INTERVAL_MS
    requires if StartsEpoch(s, frame.streamMs) then s == FRESH && frame.streamMs == at else Unarmed(s, at)
    requires !Transform(s, config, frame, cache).1.Failed?
    ensures var (after, outcome) := Transform(s, config, frame, cache);
            && Unarmed(after, at)
            && forall i :: 0 <= i < |Emitted(outcome)| ==> Emitted(outcome)[i].after.selectedAtMs == at
  {
    var kinds, advanced := DueKinds(s, frame.streamMs), Advanced(s, frame.streamMs);
    if StartsEpoch(s, frame.streamMs) {
      CatchUpBound(s, frame.streamMs);
    }
    if kinds != [] {
      EmitAllUnarmed(EnsureSigned(advanced, frame, cache).value, kinds, frame, cache, at);
    }
  }

  /** A message that comes too late: slot 102 of such an epoch is signed-current and due after 40,016 ms. */
  lemma StaleBelowLimit(config: SeiConfig, arrivals: seq<Arrival>)
    requires CleanEpoch(FRESH, config, arrivals)
    requires forall i :: 0 <= i < |arrivals| ==> arrivals[i].frame.streamMs < -SELECT_INTERVAL_MS
    requires arrivals[|arrivals| - 1].frame.streamMs - arrivals[0].frame.streamMs >= 40016
    ensures var emissions := Run(FRESH, config, arrivals).emissions;
            |emissions| > 102 && !Recent(emissions[102])
  {
    var emissions := Run(FRESH, config, arrivals).emissions;
    EpochEmitsSchedule(FRESH, config, arrivals);
    NeverReselectsBelowLimit(config, arrivals);
    SlotIsStale(emissions, 102, arrivals);
  }

  lemma SlotIsStale(emissions: seq<Emission>, k: nat, arrivals: seq<Arrival>)
    requires arrivals != [] && KindAt(k).SignedCurrent? && TargetMs(k) >= FIRST_AGE_MS
    requires arrivals[0].frame.streamMs <= arrivals[|arrivals| - 1].frame.streamMs
    requires |emissions| == SlotsDue(arrivals[|arrivals| - 1].frame.streamMs - arrivals[0].frame.streamMs)
    requires TargetMs(k) <= arrivals[|arrivals| - 1].frame.streamMs - arrivals[0].frame.streamMs
    requires forall i :: 0 <= i < |emissions| ==> FillsSlot(emissions[i], i, arrivals)
    requires forall i :: 0 <= i < |emissions| ==> emissions[i].after.selectedAtMs == arrivals[0].frame.streamMs
    ensures k < |emissions| && !Recent(emissions[k])
  {
    DueIffTargetReached(k, arrivals[|arrivals| - 1].frame.streamMs - arrivals[0].frame.streamMs);
    assert FillsSlot(emissions[k], k, arrivals);
  }

  /** What a packet of an epoch carries is told by its time, the time before and the first one. */
  ghost predicate SignsLate(arrivals: seq<Arrival>, i: nat)
    requires 0 < i < |arrivals|
  {
    var first := arrivals[0].frame.streamMs;
    && arrivals[i].frame.streamMs - first >= FIRST_AGE_MS
    && exists k: nat :: KindAt(k).SignedCurrent? &&
         arrivals[i - 1].frame.streamMs - first < TargetMs(k) <= arrivals[i].frame.streamMs - first
  }

  lemma {:induction false} TimelineBelowLimit(config: SeiConfig, arrivals: seq<Arrival>)
    requires arrivals != [] && OneEpoch(config, arrivals)
    requires forall i :: 0 <= i < |arrivals| ==> arrivals[i].frame.streamMs < -SELECT_INTERVAL_MS
    ensures TimelineOf(config, arrivals) ==
            Timeline(true, arrivals[0].frame.streamMs, arrivals[|arrivals| - 1].frame.streamMs, None)
    decreases |arrivals|
  {
    var n := |arrivals| - 1;
    if n > 0 {
      TimelineBelowLimit(config, arrivals[..n]);
      assert arrivals[..n][n - 1] == arrivals[n - 1];
    } else {
      assert arrivals[..n] == [];
    }
  }

  /**
   So an epoch below -30,000 ms keeps its signatures recent exactly as long as no packet 40,015 ms or
   more into it has a signed-current slot due.
   */
  lemma RecentBelowLimitIff(config: SeiConfig, arrivals: seq<Arrival>)
    requires CleanEpoch(FRESH, config, arrivals)
    requires forall i :: 0 <= i < |arrivals| ==> arrivals[i].frame.streamMs < -SELECT_INTERVAL_MS
    ensures AllRecent(Run(FRESH, config, arrivals).emissions) <==>
            forall i :: 0 < i < |arrivals| ==> !SignsLate(arrivals, i)
  {
    RecentIffNeverTooOld(config, arrivals);
    forall i | 0 < i < |arrivals|
      ensures TooOld(TimelineOf(config, arrivals[..i]), arrivals[i].frame.streamMs) <==> SignsLate(arrivals, i)
    {
      TooOldIffSignsLate(config, arrivals, i);
    }
    assert !TooOld(TimelineOf(config, arrivals[..0]), arrivals[0].frame.streamMs);
  }

  lemma TooOldIffSignsLate(config: SeiConfig, arrivals: seq<Arrival>, i: nat)
    requires 0 < i < |arrivals| && OneEpoch(config, arrivals)
    requires forall i :: 0 <= i < |arrivals| ==> arrivals[i].frame.streamMs < -SELECT_INTERVAL_MS
    ensures TooOld(TimelineOf(config, arrivals[..i]), arrivals[i].frame.streamMs) <==> SignsLate(arrivals, i)
  {
    TimelineBelowLimit(config, arrivals[..i]);
    assert arrivals[..i][i - 1] == arrivals[i - 1];
  }

  /** Accepted packets for which signatures are cached do not fail. */
  lemma {:induction false} CachedRunIsClean(config: SeiConfig, arrivals: seq<Arrival>)
    requires forall a :: a in arrivals ==>
               Rejects(config, a.frame) == None && Near(a.cache, Seconds(a.frame.wallMs)).Some?
    ensures Run(FRESH, config, arrivals).clean
    decreases |arrivals|
  {
    if arrivals != [] {
      var n := |arrivals| - 1;
      CachedRunIsClean(config, arrivals[..n]);
      FailsIffUnsigned(Run(FRESH, config, arrivals[..n]).state, config, arrivals[n].frame, arrivals[n].cache);
    }
  }

  /** Six packets, 10 s apart from -100 s on, with a signature at hand for each. */
  lemma SomeEpochGoesStale(config: SeiConfig, sign: FrameSignResult)
    requires config.Complete()
    ensures var arrivals := seq(6, i => Arrival(Frame(H264, [0, 0, 1], 10000 * i - 100000, 1, 1, 0), map[0 := sign]));
            Run(FRESH, config, arrivals).clean && !AllRecent(Run(FRESH, config, arrivals).emissions)
  {
    var arrivals := seq(6, i => Arrival(Frame(H264, [0, 0, 1], 10000 * i - 100000, 1, 1, 0), map[0 := sign]));
    CachedRunIsClean(config, arrivals);
    assert arrivals[0].frame.streamMs == -100000 && arrivals[5].frame.streamMs == -50000;
    StaleBelowLimit(config, arrivals);
    assert !Recent(Run(FRESH, config, arrivals).emissions[102]);
  }
}
