/**
 What one signing session does to a run of encoded packets, as functions of its stream state.
 The class in SignedSession is proved to compute these functions.
 */
module StreamModel {
  import opened Common
  import opened SeiCodec
  import opened AnnexB
  import opened Cadence
  import opened SignatureCache

  const SELECT_INTERVAL_MS := 30000

  datatype SeiConfig = SeiConfig(aid: string, uid: string, deviceId: string, roomId: string) {
    predicate Complete() {
      !Blank(uid) && !Blank(deviceId) && !Blank(roomId)
    }
  }

  /** The content of one metadata message; its JSON text is not part of the model. */
  datatype Payload =
    | StartupPayload(sign: FrameSignResult, width: int, height: int, index: int)
    | RegularPayload(sign: FrameSignResult, width: int, height: int, index: int, timestampMs: int)
    | DelayPayload(index: int, timestampMs: int)

  /**
   The fields a stream reset clears. `selectedAtMs` and `reselected` are history variables: the
   stream time at which `sign` was chosen, and whether that was a periodic re-selection.
   */
  datatype StreamState = StreamState(
    sign: Option<FrameSignResult>, lastSignedMs: int, nextSelectMs: int,
    baseMs: int, lastMs: int, started: bool, nextSlot: nat, index: int, startupDone: bool,
    selectedAtMs: int, reselected: bool)

  const FRESH := StreamState(None, 0, -1, -1, -1, false, 0, -1, false, 0, false)

  datatype Frame = Frame(codec: Codec, packet: seq<byte>, streamMs: int, width: int, height: int, wallMs: int)

  datatype SignError = NotConfigured | BadDimensions | NotAnnexB | NoSignature | CacheExpired

  /** One emitted message, with the state right after it was built. */
  datatype Emission = Emission(kind: PayloadKind, payload: Payload, streamMs: int, after: StreamState)

  datatype Outcome = Skipped | Failed(error: SignError) | Replaced(emissions: seq<Emission>)

  /** Milliseconds to seconds, truncating toward zero. */
  function Seconds(ms: int): (seconds: int)
    ensures ms >= 0 ==> 0 <= ms - 1000 * seconds < 1000
    ensures ms <= 0 ==> 0 <= 1000 * seconds - ms < 1000
  {
    if ms >= 0 then ms / 1000 else -(-ms / 1000)
  }

  // ----- The schedule

  /** The slots counted so far are the slots that were due at the last packet. */
  ghost predicate Coupled(s: StreamState) {
    && (s.startupDone <==> s.nextSlot > 0)
    && (!s.started ==> s.nextSlot == 0)
    && (s.started ==> s.baseMs <= s.lastMs && s.nextSlot == SlotsDue(s.lastMs - s.baseMs))
  }

  /** The fields the schedule depends on. */
  predicate SameSchedule(a: StreamState, b: StreamState) {
    a.baseMs == b.baseMs && a.lastMs == b.lastMs && a.started == b.started &&
    a.nextSlot == b.nextSlot && a.startupDone == b.startupDone
  }

  predicate StartsEpoch(s: StreamState, streamMs: int) {
    !s.started || streamMs < s.lastMs || streamMs - s.lastMs > MAXIMUM_GAP_MS
  }

  /** The state once a packet of the given time has joined or restarted the epoch. */
  function Joined(s: StreamState, streamMs: int): StreamState {
    if StartsEpoch(s, streamMs)
    then (if s.started then FRESH else s).(baseMs := streamMs, lastMs := streamMs, started := true)
    else s.(lastMs := streamMs)
  }

  function Advanced(s: StreamState, streamMs: int): (r: StreamState)
    requires Coupled(s)
    ensures Coupled(r) && r.started && r.nextSlot >= 2 && r.lastMs == streamMs
    ensures r.nextSlot >= Joined(s, streamMs).nextSlot
  {
    var j := Joined(s, streamMs);
    SlotsDueIsMonotone(if StartsEpoch(s, streamMs) then 0 else s.lastMs - s.baseMs, j.lastMs - j.baseMs);
    j.(nextSlot := SlotsDue(j.lastMs - j.baseMs), startupDone := true)
  }

  function DueKinds(s: StreamState, streamMs: int): seq<PayloadKind>
    requires Coupled(s)
  {
    Kinds(Joined(s, streamMs).nextSlot, Advanced(s, streamMs).nextSlot)
  }

  /** A packet catches up on at most 25 slots; the first packet of an epoch carries exactly 2. */
  lemma CatchUpBound(s: StreamState, streamMs: int)
    requires Coupled(s)
    ensures |DueKinds(s, streamMs)| <= 25
    ensures StartsEpoch(s, streamMs) ==> DueKinds(s, streamMs) == [Startup, Delay]
  {
    if StartsEpoch(s, streamMs) {
      assert Advanced(s, streamMs).nextSlot == SlotsDue(0) == 2;
      assert DueKinds(s, streamMs) == [KindAt(0), KindAt(1)];
    } else {
      SlotsPerMaximumGap(s.lastMs - s.baseMs);
      SlotsDueIsMonotone(streamMs - s.baseMs, s.lastMs - s.baseMs + MAXIMUM_GAP_MS);
    }
  }

  // ----- Choosing signatures

  function Select(s: StreamState, frame: Frame, cache: Signatures, reselected: bool): Option<StreamState> {
    match Near(cache, Seconds(frame.wallMs))
    case None => None
    case Some(second) =>
      Some(s.(sign := Some(cache[second]), lastSignedMs := frame.wallMs,
              selectedAtMs := frame.streamMs, reselected := reselected))
  }

  /** The signature an epoch starts with: the one in use, or else a newly selected one. */
  function EnsureSigned(s: StreamState, frame: Frame, cache: Signatures): (r: Option<StreamState>)
    ensures r.Some? ==> r.value.sign.Some? && SameSchedule(s, r.value) && r.value.index == s.index
  {
    if s.sign.Some? then Some(s) else Select(s, frame, cache, false)
  }

  /** The first multiple of the interval past `next` that is later than the stream time. */
  function NextSelectAfter(next: int, streamMs: int): (later: int)
    requires next <= streamMs
    ensures streamMs < later <= streamMs + SELECT_INTERVAL_MS
    ensures (later - next) % SELECT_INTERVAL_MS == 0
  {
    next + ((streamMs - next) / SELECT_INTERVAL_MS + 1) * SELECT_INTERVAL_MS
  }

  /** A re-selection that is due but finds no signature still moves the next selection on. */
  function Refresh(s: StreamState, frame: Frame, cache: Signatures): (StreamState, bool) {
    if s.nextSelectMs < 0 then (s.(nextSelectMs := frame.streamMs + SELECT_INTERVAL_MS), true)
    else if frame.streamMs < s.nextSelectMs then (s, true)
    else
      var moved := s.(nextSelectMs := NextSelectAfter(s.nextSelectMs, frame.streamMs));
      match Select(moved, frame, cache, true)
      case None => (moved, false)
      case Some(chosen) => (chosen, true)
  }

  // ----- Building the messages of one packet

  function EmitOne(s: StreamState, kind: PayloadKind, frame: Frame, cache: Signatures)
    : (r: (StreamState, Option<Emission>))
    requires s.sign.Some?
    ensures r.0.sign.Some?
  {
    var (chosen, ok) := if kind.SignedCurrent? then Refresh(s, frame, cache) else (s, true);
    if !ok then (chosen, None)
    else
      var after := chosen.(index := s.index + 1);
      var payload :=
        match kind
        case Startup => StartupPayload(s.sign.value, frame.width, frame.height, after.index)
        case Delay => DelayPayload(after.index, frame.wallMs)
        case SignedReuse =>
          RegularPayload(s.sign.value, frame.width, frame.height, after.index,
                         if s.lastSignedMs > 0 then s.lastSignedMs else frame.wallMs)
        case SignedCurrent =>
          RegularPayload(chosen.sign.value, frame.width, frame.height, after.index, frame.wallMs);
      (after, Some(Emission(kind, payload, frame.streamMs, after)))
  }

  function EmitAll(s: StreamState, kinds: seq<PayloadKind>, frame: Frame, cache: Signatures)
    : (r: (StreamState, Option<seq<Emission>>))
    requires s.sign.Some?
    ensures r.0.sign.Some?
    ensures r.1.Some? ==> |r.1.value| == |kinds|
  {
    if kinds == [] then (s, Some([]))
    else
      var (before, done) := EmitAll(s, kinds[..|kinds| - 1], frame, cache);
      if done == None then (before, None)
      else
        var (after, last) := EmitOne(before, kinds[|kinds| - 1], frame, cache);
        (after, if last == None then None else Some(done.value + [last.value]))
  }

  /** The first message that cannot be built ends the packet. */
  lemma {:induction false} EmitStops(s: StreamState, kinds: seq<PayloadKind>, i: nat, frame: Frame, cache: Signatures)
    requires s.sign.Some? && i <= |kinds|
    requires EmitAll(s, kinds[..i], frame, cache).1 == None
    ensures EmitAll(s, kinds, frame, cache) == EmitAll(s, kinds[..i], frame, cache)
    decreases |kinds|
  {
    if i == |kinds| {
      assert kinds[..i] == kinds;
    } else {
      var shorter := kinds[..|kinds| - 1];
      assert shorter[..i] == kinds[..i];
      EmitStops(s, shorter, i, frame, cache);
    }
  }

  // ----- One packet and runs of packets

  function Rejects(config: SeiConfig, frame: Frame): Option<Outcome> {
    if !config.Complete() then Some(Failed(NotConfigured))
    else if frame.packet == [] then Some(Skipped)
    else if frame.width <= 0 || frame.height <= 0 then Some(Failed(BadDimensions))
    else if !IsAnnexB(frame.packet) then Some(Failed(NotAnnexB))
    else None
  }

  function Transform(s: StreamState, config: SeiConfig, frame: Frame, cache: Signatures): (r: (StreamState, Outcome))
    requires Coupled(s)
  {
    if Rejects(config, frame).Some? then (s, Rejects(config, frame).value)
    else
      var kinds := DueKinds(s, frame.streamMs);
      var advanced := Advanced(s, frame.streamMs);
      if kinds == [] then (advanced, Skipped)
      else
        match EnsureSigned(advanced, frame, cache)
        case None => (advanced, Failed(NoSignature))
        case Some(signed) =>
          var (after, emitted) := EmitAll(signed, kinds, frame, cache);
          (after, if emitted == None then Failed(CacheExpired) else Replaced(emitted.value))
  }

  /** A packet and the signatures cached when it arrives. */
  datatype Arrival = Arrival(frame: Frame, cache: Signatures)

  datatype Trace = Trace(state: StreamState, emissions: seq<Emission>, clean: bool)

  /** Everything emitted by a run; `clean` says that no packet of it failed. */
  function Run(s: StreamState, config: SeiConfig, arrivals: seq<Arrival>): (t: Trace)
    requires Coupled(s)
    ensures Coupled(t.state)
    decreases |arrivals|
  {
    if arrivals == [] then Trace(s, [], true)
    else
      var n := |arrivals| - 1;
      var before := Run(s, config, arrivals[..n]);
      TransformKeepsCoupled(before.state, config, arrivals[n].frame, arrivals[n].cache);
      var (after, outcome) := Transform(before.state, config, arrivals[n].frame, arrivals[n].cache);
      Trace(after, before.emissions + Emitted(outcome),
            before.clean && !outcome.Failed?)
  }

  lemma EmitOneKeepsSchedule(s: StreamState, kind: PayloadKind, frame: Frame, cache: Signatures)
    requires s.sign.Some?
    ensures SameSchedule(s, EmitOne(s, kind, frame, cache).0)
  {
  }

  lemma {:induction false} EmitKeepsSchedule(s: StreamState, kinds: seq<PayloadKind>, frame: Frame, cache: Signatures)
    requires s.sign.Some?
    ensures SameSchedule(s, EmitAll(s, kinds, frame, cache).0)
    decreases |kinds|
  {
    if kinds != [] {
      var shorter := kinds[..|kinds| - 1];
      EmitKeepsSchedule(s, shorter, frame, cache);
      if EmitAll(s, shorter, frame, cache).1.Some? {
        EmitOneKeepsSchedule(EmitAll(s, shorter, frame, cache).0, kinds[|kinds| - 1], frame, cache);
      }
    }
  }

  /** Every packet, accepted or not and failing or not, leaves the schedule consistent. */
  lemma TransformKeepsCoupled(s: StreamState, config: SeiConfig, frame: Frame, cache: Signatures)
    requires Coupled(s)
    ensures Coupled(Transform(s, config, frame, cache).0)
  {
    if Rejects(config, frame) == None {
      var advanced := Advanced(s, frame.streamMs);
      match EnsureSigned(advanced, frame, cache)
      case None =>
      case Some(signed) =>
        EmitKeepsSchedule(signed, DueKinds(s, frame.streamMs), frame, cache);
    }
  }

  // ----- Main result: an epoch emits the ideal schedule

  /** Accepted packets of one epoch: their times never run backwards or jump ahead too far. */
  ghost predicate OneEpoch(config: SeiConfig, arrivals: seq<Arrival>) {
    && (forall i :: 0 <= i < |arrivals| ==> Rejects(config, arrivals[i].frame) == None)
    && (forall i :: 0 < i < |arrivals| ==>
          0 <= arrivals[i].frame.streamMs - arrivals[i - 1].frame.streamMs <= MAXIMUM_GAP_MS)
  }

  /** The message is the one slot k calls for and travels on the first packet that reaches the slot. */
  ghost predicate FillsSlot(e: Emission, k: nat, arrivals: seq<Arrival>) {
    && arrivals != []
    && e.kind == KindAt(k)
    && e.payload.index == k
    && (exists i :: 0 <= i < |arrivals| && arrivals[i].frame.streamMs == e.streamMs)
    && TargetMs(k) <= e.streamMs - arrivals[0].frame.streamMs
    && forall i :: 0 <= i < |arrivals| && arrivals[i].frame.streamMs < e.streamMs ==>
                     arrivals[i].frame.streamMs - arrivals[0].frame.streamMs < TargetMs(k)
  }

  /** Messages of the given kinds, consecutively indexed after `index`, all on one packet. */
  ghost predicate Numbered(emitted: seq<Emission>, kinds: seq<PayloadKind>, index: int, streamMs: int) {
    && |emitted| == |kinds|
    && forall i :: 0 <= i < |emitted| ==>
         emitted[i].kind == kinds[i] && emitted[i].payload.index == index + 1 + i && emitted[i].streamMs == streamMs
  }

  lemma {:induction false} EmitNumbers(s: StreamState, kinds: seq<PayloadKind>, frame: Frame, cache: Signatures)
    requires s.sign.Some? && EmitAll(s, kinds, frame, cache).1.Some?
    ensures EmitAll(s, kinds, frame, cache).0.index == s.index + |kinds|
    ensures Numbered(EmitAll(s, kinds, frame, cache).1.value, kinds, s.index, frame.streamMs)
    decreases |kinds|
  {
    if kinds != [] {
      EmitNumbers(s, kinds[..|kinds| - 1], frame, cache);
    }
  }

  function Emitted(outcome: Outcome): seq<Emission> {
    if outcome.Replaced? then outcome.emissions else []
  }

  lemma TransformNumbers(s: StreamState, config: SeiConfig, frame: Frame, cache: Signatures)
    requires Coupled(s) && Rejects(config, frame) == None
    requires !Transform(s, config, frame, cache).1.Failed?
    ensures var (after, outcome) := Transform(s, config, frame, cache);
            && SameSchedule(after, Advanced(s, frame.streamMs))
            && after.index == Joined(s, frame.streamMs).index + |DueKinds(s, frame.streamMs)|
            && Numbered(Emitted(outcome), DueKinds(s, frame.streamMs), Joined(s, frame.streamMs).index, frame.streamMs)
  {
    var kinds, advanced := DueKinds(s, frame.streamMs), Advanced(s, frame.streamMs);
    if kinds != [] {
      var signed := EnsureSigned(advanced, frame, cache);
      EmitKeepsSchedule(signed.value, kinds, frame, cache);
      EmitNumbers(signed.value, kinds, frame, cache);
    }
  }

  // ----- What a message says about its packet

  /** A message of the given kind says of its packet what a message of that kind is for. */
  predicate Tells(kind: PayloadKind, payload: Payload, frame: Frame) {
    match kind
    case Startup => payload.StartupPayload? && payload.width == frame.width && payload.height == frame.height
    case Delay => payload.DelayPayload? && payload.timestampMs == frame.wallMs
    case SignedReuse => payload.RegularPayload? && payload.width == frame.width && payload.height == frame.height
    case SignedCurrent =>
      && payload.RegularPayload? && payload.width == frame.width && payload.height == frame.height
      && payload.timestampMs == frame.wallMs
  }

  /** A reusing message falls back to the time of its own packet where the selection has no time. */
  ghost predicate Describes(e: Emission, frame: Frame) {
    && e.streamMs == frame.streamMs && Tells(e.kind, e.payload, frame)
    && (e.kind.SignedReuse? && e.after.lastSignedMs <= 0 ==> e.payload.timestampMs == frame.wallMs)
  }

  lemma {:induction false} EmitDescribes(s: StreamState, kinds: seq<PayloadKind>, frame: Frame, cache: Signatures)
    requires s.sign.Some? && EmitAll(s, kinds, frame, cache).1.Some?
    ensures forall e :: e in EmitAll(s, kinds, frame, cache).1.value ==> Describes(e, frame)
    decreases |kinds|
  {
    if kinds != [] {
      EmitDescribes(s, kinds[..|kinds| - 1], frame, cache);
    }
  }

  lemma TransformDescribes(s: StreamState, config: SeiConfig, frame: Frame, cache: Signatures)
    requires Coupled(s)
    ensures forall e :: e in Emitted(Transform(s, config, frame, cache).1) ==> Describes(e, frame)
  {
    if Transform(s, config, frame, cache).1.Replaced? {
      EmitDescribes(EnsureSigned(Advanced(s, frame.streamMs), frame, cache).value, DueKinds(s, frame.streamMs), frame,
                    cache);
    }
  }

  /** Message k of a run travels on packet i. */
  ghost predicate TravelsOn(s: StreamState, config: SeiConfig, arrivals: seq<Arrival>, k: nat, i: nat)
    requires Coupled(s) && i < |arrivals|
  {
    |Run(s, config, arrivals[..i]).emissions| <= k < |Run(s, config, arrivals[..i + 1]).emissions|
  }

  /**
   On every run, failing or not, each message is of the form its kind calls for, and tells the dimensions
   and the wall clock of the very packet it travels on.
   */
  lemma {:induction false} MessagesDescribeTheirPackets(s: StreamState, config: SeiConfig, arrivals: seq<Arrival>,
                                                        k: nat)
    returns (i: nat)
    requires Coupled(s) && k < |Run(s, config, arrivals).emissions|
    ensures i < |arrivals| && TravelsOn(s, config, arrivals, k, i)
    ensures Describes(Run(s, config, arrivals).emissions[k], arrivals[i].frame)
    decreases |arrivals|
  {
    i := |arrivals| - 1;
    var before := Run(s, config, arrivals[..i]);
    assert arrivals[..i + 1] == arrivals;
    if k < |before.emissions| {
      i := MessagesDescribeTheirPackets(s, config, arrivals[..i], k);
      var shorter := arrivals[..|arrivals| - 1];
      assert shorter[..i] == arrivals[..i] && shorter[..i + 1] == arrivals[..i + 1];
    } else {
      TransformDescribes(before.state, config, arrivals[i].frame, arrivals[i].cache);
    }
  }

  // ----- Which packets are looked at

  /** A packet of a video of some size, for a configured session, that starts with an Annex B start code. */
  predicate Accepts(config: SeiConfig, frame: Frame) {
    && !Blank(config.uid) && !Blank(config.deviceId) && !Blank(config.roomId)
    && frame.width > 0 && frame.height > 0
    && ([0, 0, 1] <= frame.packet || [0, 0, 0, 1] <= frame.packet)
  }

  /**
   Exactly the accepted packets join the schedule. Others leave the state alone, and fail unless they are
   empty and the session is configured.
   */
  lemma AcceptedIff(s: StreamState, config: SeiConfig, frame: Frame, cache: Signatures)
    requires Coupled(s)
    ensures Rejects(config, frame) == None <==> Accepts(config, frame)
    ensures var (after, outcome) := Transform(s, config, frame, cache);
            && (Accepts(config, frame) ==> after.started && after.lastMs == frame.streamMs)
            && (!Accepts(config, frame) ==>
                  && after == s && !outcome.Replaced?
                  && (outcome == Skipped <==> frame.packet == [] && config.Complete())
                  && (outcome == Failed(NotConfigured) <==> !config.Complete())
                  && (outcome == Failed(BadDimensions) <==>
                        config.Complete() && frame.packet != [] && (frame.width <= 0 || frame.height <= 0)))
  {
    if Rejects(config, frame) == None {
      var advanced := Advanced(s, frame.streamMs);
      match EnsureSigned(advanced, frame, cache)
      case None =>
      case Some(signed) =>
        EmitKeepsSchedule(signed, DueKinds(s, frame.streamMs), frame, cache);
    }
  }

  // ----- When a packet fails for want of a signature

  /** The fields that selecting a signature sets. */
  predicate SameSelection(a: StreamState, b: StreamState) {
    a.sign == b.sign && a.nextSelectMs == b.nextSelectMs && a.selectedAtMs == b.selectedAtMs &&
      a.reselected == b.reselected
  }

  /** A refresh leaves the next selection ahead, by whole intervals from the last one, found or not. */
  lemma RefreshMovesOn(s: StreamState, frame: Frame, cache: Signatures)
    ensures var next := Refresh(s, frame, cache).0.nextSelectMs;
            && frame.streamMs < next
            && (s.nextSelectMs <= frame.streamMs ==> next <= frame.streamMs + SELECT_INTERVAL_MS)
            && (s.nextSelectMs >= 0 ==> (next - s.nextSelectMs) % SELECT_INTERVAL_MS == 0)
  {
  }

  /** A second refresh for the same packet changes nothing. */
  lemma RefreshSettles(s: StreamState, again: StreamState, frame: Frame, cache: Signatures)
    requires Refresh(s, frame, cache).1 && SameSelection(again, Refresh(s, frame, cache).0)
    ensures Refresh(again, frame, cache).1 && SameSelection(Refresh(again, frame, cache).0, again)
  {
  }

  /** A selection is due among the messages, and there is nothing to select. */
  predicate Expires(s: StreamState, kinds: seq<PayloadKind>, frame: Frame, cache: Signatures) {
    SignedCurrent in kinds && 0 <= s.nextSelectMs <= frame.streamMs && Near(cache, Seconds(frame.wallMs)) == None
  }

  /** The selection after the messages: the first signed-current one decides. */
  function Selected(s: StreamState, kinds: seq<PayloadKind>, frame: Frame, cache: Signatures): StreamState {
    if SignedCurrent in kinds then Refresh(s, frame, cache).0 else s
  }

  lemma RefreshFailsIff(s: StreamState, frame: Frame, cache: Signatures)
    ensures !Refresh(s, frame, cache).1 <==>
            0 <= s.nextSelectMs <= frame.streamMs && Near(cache, Seconds(frame.wallMs)) == None
  {
  }

  /** One message, after others that did not fail. */
  lemma EmitOneFailsIff(s: StreamState, before: StreamState, shorter: seq<PayloadKind>, last: PayloadKind, frame: Frame,
                        cache: Signatures)
    requires before.sign.Some? && !Expires(s, shorter, frame, cache)
    requires SameSelection(before, Selected(s, shorter, frame, cache))
    ensures EmitOne(before, last, frame, cache).1 == None <==> Expires(s, shorter + [last], frame, cache)
    ensures EmitOne(before, last, frame, cache).1.Some? ==>
              SameSelection(EmitOne(before, last, frame, cache).0, Selected(s, shorter + [last], frame, cache))
  {
    RefreshFailsIff(s, frame, cache);
    if SignedCurrent in shorter {
      RefreshSettles(s, before, frame, cache);
    }
  }

  lemma {:induction false} EmitFailsIff(s: StreamState, kinds: seq<PayloadKind>, frame: Frame, cache: Signatures)
    requires s.sign.Some?
    ensures EmitAll(s, kinds, frame, cache).1 == None <==> Expires(s, kinds, frame, cache)
    ensures EmitAll(s, kinds, frame, cache).1.Some? ==>
              SameSelection(EmitAll(s, kinds, frame, cache).0, Selected(s, kinds, frame, cache))
    decreases |kinds|
  {
    if kinds != [] {
      var shorter, last := kinds[..|kinds| - 1], kinds[|kinds| - 1];
      assert kinds == shorter + [last];
      EmitFailsIff(s, shorter, frame, cache);
      if EmitAll(s, shorter, frame, cache).1.Some? {
        EmitOneFailsIff(s, EmitAll(s, shorter, frame, cache).0, shorter, last, frame, cache);
      }
    }
  }

  lemma {:induction false} EmitShortfall(s: StreamState, kinds: seq<PayloadKind>, frame: Frame, cache: Signatures)
    requires s.sign.Some? && EmitAll(s, kinds, frame, cache).1 == None
    ensures EmitAll(s, kinds, frame, cache).0.index < s.index + |kinds|
    decreases |kinds|
  {
    var shorter := kinds[..|kinds| - 1];
    if EmitAll(s, shorter, frame, cache).1 == None {
      EmitShortfall(s, shorter, frame, cache);
    } else {
      EmitNumbers(s, shorter, frame, cache);
    }
  }

  /**
   A message is due on the packet, no signature is cached within a second of its wall clock, and one
   is needed: none is in use, or a signed-current message is due and so is the next selection.
   */
  predicate Unsigned(s: StreamState, config: SeiConfig, frame: Frame, cache: Signatures)
    requires Coupled(s)
  {
    && Rejects(config, frame) == None && DueKinds(s, frame.streamMs) != []
    && Near(cache, Seconds(frame.wallMs)) == None
    && var joined := Joined(s, frame.streamMs);
       joined.sign == None || (SignedCurrent in DueKinds(s, frame.streamMs) &&
                               0 <= joined.nextSelectMs <= frame.streamMs)
  }

  /**
   A packet fails for want of a signature exactly when it is unsigned, which can be told beforehand; which of
   the two errors it is depends on whether a signature was in use.
   */
  lemma FailsIffUnsigned(s: StreamState, config: SeiConfig, frame: Frame, cache: Signatures)
    requires Coupled(s)
    ensures Transform(s, config, frame, cache).1 in {Failed(NoSignature), Failed(CacheExpired)} <==>
            Unsigned(s, config, frame, cache)
    ensures Transform(s, config, frame, cache).1 == Failed(NoSignature) <==>
            Unsigned(s, config, frame, cache) && Joined(s, frame.streamMs).sign == None
  {
    if Rejects(config, frame) == None {
      var signed := EnsureSigned(Advanced(s, frame.streamMs), frame, cache);
      if signed.Some? {
        EmitFailsIff(signed.value, DueKinds(s, frame.streamMs), frame, cache);
      }
    }
  }

  /** The last index given out belongs to the last slot counted. */
  predicate InStep(s: StreamState) {
    s.index + 1 == s.nextSlot
  }

  lemma FailedFallsOutOfStep(s: StreamState, config: SeiConfig, frame: Frame, cache: Signatures)
    requires Coupled(s) && InStep(s) &&
             Transform(s, config, frame, cache).1 in {Failed(NoSignature), Failed(CacheExpired)}
    ensures !InStep(Transform(s, config, frame, cache).0)
  {
    var kinds, signed := DueKinds(s, frame.streamMs), EnsureSigned(Advanced(s, frame.streamMs), frame, cache);
    if signed.Some? {
      EmitKeepsSchedule(signed.value, kinds, frame, cache);
      EmitShortfall(signed.value, kinds, frame, cache);
    }
  }

  /**
   Index and slot stay in step over a packet if and only if it is not unsigned: an unsigned packet
   uses up its due slots but gives out fewer indices.
   */
  lemma InStepIffSigned(s: StreamState, config: SeiConfig, frame: Frame, cache: Signatures)
    requires Coupled(s) && InStep(s)
    ensures InStep(Transform(s, config, frame, cache).0) <==> !Unsigned(s, config, frame, cache)
  {
    FailsIffUnsigned(s, config, frame, cache);
    if Unsigned(s, config, frame, cache) {
      FailedFallsOutOfStep(s, config, frame, cache);
    } else if Rejects(config, frame) == None {
      TransformNumbers(s, config, frame, cache);
    }
  }

  ghost predicate HoldsEpoch(t: Trace, first: int, last: int) {
    && t.state.started && t.state.baseMs == first && t.state.lastMs == last && first <= last
    && |t.emissions| == t.state.nextSlot == t.state.index + 1 == SlotsDue(last - first)
  }

  /** The messages of consecutive slots from `slot` on, all on one packet. */
  ghost predicate Fills(added: seq<Emission>, slot: nat, streamMs: int) {
    forall i :: 0 <= i < |added| ==>
      added[i].kind == KindAt(slot + i) && added[i].payload.index == slot + i && added[i].streamMs == streamMs
  }

  /** One more packet of an epoch adds the slots that became due since the packet before it. */
  lemma EpochStep(before: Trace, after: StreamState, added: seq<Emission>, streamMs: int, first: int)
    requires Coupled(before.state)
    requires SameSchedule(after, Advanced(before.state, streamMs))
    requires after.index == Joined(before.state, streamMs).index + |added|
    requires Numbered(added, DueKinds(before.state, streamMs), Joined(before.state, streamMs).index, streamMs)
    requires if StartsEpoch(before.state, streamMs)
             then before.emissions == [] && first == streamMs && (!before.state.started ==> before.state.index == -1)
             else HoldsEpoch(before, first, before.state.lastMs)
    ensures HoldsEpoch(Trace(after, before.emissions + added, true), first, streamMs)
    ensures Fills(added, |before.emissions|, streamMs)
  {
  }

  /** An error-free run of one epoch that starts afresh. */
  ghost predicate CleanEpoch(s: StreamState, config: SeiConfig, arrivals: seq<Arrival>) {
    && Coupled(s) && (!s.started ==> s.index == -1)
    && arrivals != [] && OneEpoch(config, arrivals) && StartsEpoch(s, arrivals[0].frame.streamMs)
    && Run(s, config, arrivals).clean
  }

  /** What the last packet of a clean run adds to the run before it. */
  lemma LastPacket(s: StreamState, config: SeiConfig, arrivals: seq<Arrival>)
    returns (before: Trace, after: StreamState, added: seq<Emission>)
    requires Coupled(s) && arrivals != [] && Run(s, config, arrivals).clean
    requires Rejects(config, arrivals[|arrivals| - 1].frame) == None
    ensures before == Run(s, config, arrivals[..|arrivals| - 1]) && before.clean
    ensures Run(s, config, arrivals) == Trace(after, before.emissions + added, true)
    ensures var streamMs := arrivals[|arrivals| - 1].frame.streamMs;
            && SameSchedule(after, Advanced(before.state, streamMs))
            && after.index == Joined(before.state, streamMs).index + |added|
            && Numbered(added, DueKinds(before.state, streamMs), Joined(before.state, streamMs).index, streamMs)
  {
    var last := arrivals[|arrivals| - 1];
    before := Run(s, config, arrivals[..|arrivals| - 1]);
    TransformNumbers(before.state, config, last.frame, last.cache);
    var (a, outcome) := Transform(before.state, config, last.frame, last.cache);
    after, added := a, Emitted(outcome);
  }

  lemma ShorterEpoch(s: StreamState, config: SeiConfig, arrivals: seq<Arrival>)
    requires CleanEpoch(s, config, arrivals) && |arrivals| > 1
    ensures CleanEpoch(s, config, arrivals[..|arrivals| - 1])
  {
  }

  lemma {:induction false} EpochCounts(s: StreamState, config: SeiConfig, arrivals: seq<Arrival>)
    returns (earlier: seq<Emission>, added: seq<Emission>)
    requires CleanEpoch(s, config, arrivals)
    ensures var first, n := arrivals[0].frame.streamMs, |arrivals| - 1;
            && HoldsEpoch(Run(s, config, arrivals), first, arrivals[n].frame.streamMs)
            && Run(s, config, arrivals).emissions == earlier + added
            && (n == 0 ==> earlier == [])
            && (n > 0 ==>
                  && earlier == Run(s, config, arrivals[..n]).emissions
                  && HoldsEpoch(Run(s, config, arrivals[..n]), first, arrivals[n - 1].frame.streamMs))
            && Fills(added, |earlier|, arrivals[n].frame.streamMs)
    decreases |arrivals|
  {
    var n := |arrivals| - 1;
    var before, after, last := LastPacket(s, config, arrivals);
    if n > 0 {
      ShorterEpoch(s, config, arrivals);
      var _, _ := EpochCounts(s, config, arrivals[..n]);
      assert before.state.lastMs == arrivals[n - 1].frame.streamMs;
    }
    EpochStep(before, after, last, arrivals[n].frame.streamMs, arrivals[0].frame.streamMs);
    earlier, added := before.emissions, last;
  }

  /**
   In every error-free epoch the messages emitted so far are exactly the slots whose targets have
   been reached: none is skipped or repeated, message k has index k and the kind of slot k (so one
   Startup, first), and each travels on the first packet that reaches its slot. The epoch may start
   from any state that a run can leave behind.
   */
  lemma {:induction false} EpochEmitsSchedule(s: StreamState, config: SeiConfig, arrivals: seq<Arrival>)
    requires CleanEpoch(s, config, arrivals)
    ensures var t := Run(s, config, arrivals);
            var first, last := arrivals[0].frame.streamMs, arrivals[|arrivals| - 1].frame.streamMs;
            && HoldsEpoch(t, first, last)
            && forall k :: 0 <= k < |t.emissions| ==> FillsSlot(t.emissions[k], k, arrivals)
    decreases |arrivals|
  {
    var earlier, added := EpochCounts(s, config, arrivals);
    if |arrivals| > 1 {
      ShorterEpoch(s, config, arrivals);
      EpochEmitsSchedule(s, config, arrivals[..|arrivals| - 1]);
    }
    SlotsFilled(config, arrivals, earlier, added);
  }

  lemma SlotsFilled(config: SeiConfig, arrivals: seq<Arrival>, before: seq<Emission>, added: seq<Emission>)
    requires arrivals != [] && OneEpoch(config, arrivals)
    requires var first, n := arrivals[0].frame.streamMs, |arrivals| - 1;
             && first <= arrivals[n].frame.streamMs
             && |before| + |added| == SlotsDue(arrivals[n].frame.streamMs - first)
             && (n > 0 ==>
                   && first <= arrivals[n - 1].frame.streamMs
                   && |before| == SlotsDue(arrivals[n - 1].frame.streamMs - first))
             && (n == 0 ==> before == [])
             && (forall k :: 0 <= k < |before| ==> FillsSlot(before[k], k, arrivals[..n]))
             && Fills(added, |before|, arrivals[n].frame.streamMs)
    ensures forall k :: 0 <= k < |before + added| ==> FillsSlot((before + added)[k], k, arrivals)
  {
    forall k | 0 <= k < |before + added|
      ensures FillsSlot((before + added)[k], k, arrivals)
    {
      if k < |before| {
        EarlierSlotStays(config, arrivals, before[k], k);
      } else {
        NewSlotOnLastPacket(config, arrivals, k);
      }
    }
  }

  lemma EarlierSlotStays(config: SeiConfig, arrivals: seq<Arrival>, e: Emission, k: nat)
    requires |arrivals| > 1 && OneEpoch(config, arrivals) && FillsSlot(e, k, arrivals[..|arrivals| - 1])
    ensures FillsSlot(e, k, arrivals)
  {
    var n := |arrivals| - 1;
    var shorter := arrivals[..n];
    var i :| 0 <= i < n && shorter[i].frame.streamMs == e.streamMs;
    assert arrivals[i].frame.streamMs == e.streamMs;
    LatestIsLast(config, arrivals, i);
    forall j | 0 <= j < |arrivals| && arrivals[j].frame.streamMs < e.streamMs
      ensures arrivals[j].frame.streamMs - arrivals[0].frame.streamMs < TargetMs(k)
    {
      assert j < n && shorter[j] == arrivals[j];
    }
  }

  lemma {:induction false} LatestIsLast(config: SeiConfig, arrivals: seq<Arrival>, i: nat)
    requires OneEpoch(config, arrivals) && i < |arrivals|
    ensures arrivals[i].frame.streamMs <= arrivals[|arrivals| - 1].frame.streamMs
    decreases |arrivals| - i
  {
    if i + 1 < |arrivals| {
      assert 0 <= arrivals[i + 1].frame.streamMs - arrivals[i + 1 - 1].frame.streamMs;
      LatestIsLast(config, arrivals, i + 1);
    }
  }

  /** A slot that was not due at the packet before the last one was not due earlier either. */
  lemma NewSlotOnLastPacket(config: SeiConfig, arrivals: seq<Arrival>, k: nat)
    requires arrivals != [] && OneEpoch(config, arrivals)
    requires var first, n := arrivals[0].frame.streamMs, |arrivals| - 1;
             && first <= arrivals[n].frame.streamMs
             && k < SlotsDue(arrivals[n].frame.streamMs - first)
             && (n > 0 ==>
                   && first <= arrivals[n - 1].frame.streamMs
                   && k >= SlotsDue(arrivals[n - 1].frame.streamMs - first))
    ensures var first, last := arrivals[0].frame.streamMs, arrivals[|arrivals| - 1].frame.streamMs;
            && TargetMs(k) <= last - first
            && forall i :: 0 <= i < |arrivals| && arrivals[i].frame.streamMs < last ==>
                             arrivals[i].frame.streamMs - first < TargetMs(k)
  {
    var first, n := arrivals[0].frame.streamMs, |arrivals| - 1;
    DueIffTargetReached(k, arrivals[n].frame.streamMs - first);
    if n > 0 {
      DueIffTargetReached(k, arrivals[n - 1].frame.streamMs - first);
    }
    forall i | 0 <= i < |arrivals| && arrivals[i].frame.streamMs < arrivals[n].frame.streamMs
      ensures arrivals[i].frame.streamMs <= arrivals[n - 1].frame.streamMs
    {
      EarlierThanLast(config, arrivals, i);
    }
  }

  lemma EarlierThanLast(config: SeiConfig, arrivals: seq<Arrival>, i: nat)
    requires OneEpoch(config, arrivals) && i < |arrivals| - 1
    ensures arrivals[i].frame.streamMs <= arrivals[|arrivals| - 2].frame.streamMs
  {
    var shorter := arrivals[..|arrivals| - 1];
    assert shorter[i] == arrivals[i] && shorter[|shorter| - 1] == arrivals[|arrivals| - 2];
    LatestIsLast(config, shorter, i);
  }
}
