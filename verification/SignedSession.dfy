/** The signing session of one output, updated packet by packet. */
module SignedSession {
  import opened Common
  import opened SeiCodec
  import opened AnnexB
  import opened Cadence
  import opened SignatureCache
  import opened StreamModel

  class SignedSeiSession {
    const config: SeiConfig
    /** The JSON text of a message. */
    const render: Payload -> seq<byte>

    var signatures: Signatures
    var signResult: Option<FrameSignResult>
    var lastSignedMs: int
    var nextSelectMs: int
    var baseMs: int
    var lastMs: int
    var started: bool
    var nextSlot: nat
    var index: int
    var startupDone: bool

    /** History variables: every batch ever merged, and when and how the signature in use was selected. */
    ghost var merges: seq<Signatures>
    ghost var selectedAtMs: int
    ghost var reselected: bool

    ghost function State(): StreamState
      reads this
    {
      StreamState(signResult, lastSignedMs, nextSelectMs, baseMs, lastMs, started, nextSlot, index, startupDone,
                  selectedAtMs, reselected)
    }

    /** Holds throughout the life of a session, errors included. */
    ghost predicate Valid()
      reads this
    {
      Coupled(State()) && signatures == MergedAll(merges)
    }

    constructor (config: SeiConfig, render: Payload -> seq<byte>)
      ensures Valid() && State() == FRESH && merges == []
      ensures this.config == config && this.render == render
    {
      this.config, this.render := config, render;
      signatures, merges := map[], [];
      signResult, lastSignedMs, nextSelectMs, baseMs, lastMs := None, 0, -1, -1, -1;
      started, nextSlot, index, startupDone := false, 0, -1, false;
      selectedAtMs, reselected := 0, false;
    }

    // ----- The cache

    method MergeSignatures(batch: Signatures)
      requires Valid()
      modifies `signatures, `merges
      ensures Valid() && merges == old(merges) + [batch]
      ensures signatures == Merged(old(signatures), batch) == Newest(History(merges))
      ensures |signatures| <= MAXIMUM_ENTRIES
    {
      signatures := InsertValid(signatures, batch);
      signatures := EvictOldest(signatures);
      merges := merges + [batch];
      assert merges[..|merges| - 1] == old(merges);
      CacheRefinesHistory(merges);
    }

    static ghost function InsertedSoFar(batch: Signatures, left: set<int>): Signatures {
      map t | t in batch && batch[t].Valid() && t !in left :: batch[t]
    }

    static lemma InsertOne(batch: Signatures, left: set<int>, t: int)
      requires t in left && t in batch
      ensures InsertedSoFar(batch, left - {t}) ==
              if batch[t].Valid() then InsertedSoFar(batch, left)[t := batch[t]] else InsertedSoFar(batch, left)
    {
    }

    static method InsertValid(cache: Signatures, batch: Signatures) returns (all: Signatures)
      ensures all == cache + ValidOnly(batch)
    {
      all := cache;
      var left := batch.Keys;
      while left != {}
        invariant left <= batch.Keys
        invariant all == cache + InsertedSoFar(batch, left)
        decreases |left|
      {
        var t := Choose(left);
        InsertOne(batch, left, t);
        if batch[t].Valid() {
          all := all[t := batch[t]];
        }
        left := left - {t};
      }
      assert InsertedSoFar(batch, {}) == ValidOnly(batch);
    }

    static method EvictOldest(all: Signatures) returns (cache: Signatures)
      ensures cache == Newest(all)
    {
      cache := all;
      while |cache| > MAXIMUM_ENTRIES
        invariant cache.Keys <= all.Keys && forall t :: t in cache ==> cache[t] == all[t]
        invariant Largest(cache.Keys, MAXIMUM_ENTRIES) == Largest(all.Keys, MAXIMUM_ENTRIES)
        decreases |cache|
      {
        assert |cache.Keys| == |cache|;
        var first := First(cache);
        DropSmallest(cache.Keys, first, MAXIMUM_ENTRIES);
        assert (cache - {first}).Keys == cache.Keys - {first};
        assert |(cache - {first}).Keys| == |cache - {first}|;
        cache := cache - {first};
      }
      assert |cache.Keys| == |cache|;
      LargestSize(cache.Keys, MAXIMUM_ENTRIES);
    }

    method CacheLastTimestamp() returns (last: int)
      ensures last == LastTimestamp(signatures)
    {
      last := LastOf(signatures);
    }

    method SignatureNear(seconds: int) returns (near: Option<(int, FrameSignResult)>)
      ensures near == match Near(signatures, seconds)
                      case None => None
                      case Some(best) => Some((best, signatures[best]))
    {
      if signatures == map[] {
        return None;
      }
      var after := LowerBound(signatures, seconds);
      var first := First(signatures);
      var best;
      if after == None {
        best := Previous(signatures, seconds);
      } else {
        best := after.value;
        if after.value != first {
          var before := Previous(signatures, seconds);
          if seconds - before <= after.value - seconds {
            best := before;
          }
        }
      }
      if Distance(best, seconds) > TOLERANCE_SECONDS {
        return None;
      }
      near := Some((best, signatures[best]));
    }

    // ----- The schedule

    method ResetStream()
      modifies this
      ensures State() == FRESH && signatures == old(signatures) && merges == old(merges)
    {
      signResult, lastSignedMs, nextSelectMs, baseMs, lastMs := None, 0, -1, -1, -1;
      started, nextSlot, index, startupDone := false, 0, -1, false;
      selectedAtMs, reselected := 0, false;
    }

    /** The part of DuePayloads that keeps or restarts the epoch. */
    method JoinEpoch(streamMs: int)
      modifies this
      ensures signatures == old(signatures) && merges == old(merges)
      ensures State() == Joined(old(State()), streamMs)
    {
      if started && (streamMs < lastMs || streamMs - lastMs > MAXIMUM_GAP_MS) {
        ResetStream();
      }
      lastMs := streamMs;
      if !started {
        baseMs := streamMs;
        started := true;
      }
    }

    method DuePayloads(streamMs: int) returns (due: seq<PayloadKind>)
      requires Valid()
      modifies this
      ensures Valid() && signatures == old(signatures) && merges == old(merges)
      ensures due == DueKinds(old(State()), streamMs)
      ensures State() == Advanced(old(State()), streamMs)
    {
      ghost var advanced := Advanced(State(), streamMs);
      JoinEpoch(streamMs);
      ghost var joined := State();
      var elapsed := Max(0, streamMs - baseMs);
      due := [];
      while true
        invariant State() == joined.(nextSlot := nextSlot, startupDone := startupDone)
        invariant joined.nextSlot <= nextSlot <= SlotsDue(elapsed) && (startupDone <==> nextSlot > 0)
        invariant due == Kinds(joined.nextSlot, nextSlot)
        decreases SlotsDue(elapsed) - nextSlot
        modifies `nextSlot, `startupDone
      {
        DueIffTargetReached(nextSlot, elapsed);
        var cycle, slot := nextSlot / SLOTS, nextSlot % SLOTS;
        var target := cycle * CYCLE_MS + OffsetMs(slot);
        if elapsed < target {
          break;
        }
        var kind := PeriodicKind(slot);
        if (kind == SignedReuse || kind == SignedCurrent) && !startupDone {
          kind := Startup;
          startupDone := true;
        }
        KindsExtend(joined.nextSlot, nextSlot);
        due := due + [kind];
        nextSlot := nextSlot + 1;
      }
      assert State() == advanced;
    }

    // ----- Choosing signatures

    method EnsureSignature(frame: Frame) returns (error: Option<SignError>)
      modifies this
      ensures signatures == old(signatures) && merges == old(merges)
      ensures match EnsureSigned(old(State()), frame, signatures)
              case None => error == Some(NoSignature) && State() == old(State())
              case Some(signed) => error == None && State() == signed
    {
      if signResult.Some? {
        return None;
      }
      var cached := SignatureNear(Seconds(frame.wallMs));
      if cached == None {
        return Some(NoSignature);
      }
      lastSignedMs := frame.wallMs;
      signResult := Some(cached.value.1);
      selectedAtMs, reselected := frame.streamMs, false;
      error := None;
    }

    method RefreshSignatureIfDue(frame: Frame) returns (error: Option<SignError>)
      modifies this
      ensures signatures == old(signatures) && merges == old(merges)
      ensures State() == Refresh(old(State()), frame, signatures).0
      ensures error == if Refresh(old(State()), frame, signatures).1 then None else Some(CacheExpired)
    {
      if nextSelectMs < 0 {
        nextSelectMs := frame.streamMs + SELECT_INTERVAL_MS;
        return None;
      }
      if frame.streamMs < nextSelectMs {
        return None;
      }
      while frame.streamMs >= nextSelectMs
        invariant nextSelectMs <= frame.streamMs + SELECT_INTERVAL_MS
        invariant (nextSelectMs - old(nextSelectMs)) % SELECT_INTERVAL_MS == 0
        invariant State() == old(State()).(nextSelectMs := nextSelectMs)
        invariant signatures == old(signatures) && merges == old(merges)
        decreases frame.streamMs - nextSelectMs
      {
        nextSelectMs := nextSelectMs + SELECT_INTERVAL_MS;
      }
      assert nextSelectMs == NextSelectAfter(old(nextSelectMs), frame.streamMs);
      var cached := SignatureNear(Seconds(frame.wallMs));
      if cached == None {
        return Some(CacheExpired);
      }
      lastSignedMs := frame.wallMs;
      signResult := Some(cached.value.1);
      selectedAtMs, reselected := frame.streamMs, true;
      error := None;
    }

    method NextIndex() returns (next: int)
      modifies `index
      ensures next == index == old(index) + 1
    {
      index := index + 1;
      next := index;
    }

    /** The texts of emitted messages. */
    ghost function Texts(emissions: seq<Emission>): (texts: seq<seq<byte>>)
      ensures |texts| == |emissions|
    {
      seq(|emissions|, i requires 0 <= i < |emissions| => render(emissions[i].payload))
    }

    /** Builds the message of one due slot. */
    method EmitKind(kind: PayloadKind, frame: Frame) returns (payload: Option<Payload>)
      requires signResult.Some?
      modifies this
      ensures signatures == old(signatures) && merges == old(merges) && signResult.Some?
      ensures State() == EmitOne(old(State()), kind, frame, signatures).0
      ensures match EmitOne(old(State()), kind, frame, signatures).1
              case None => payload == None
              case Some(e) => payload == Some(e.payload)
      ensures payload.Some? ==> Tells(kind, payload.value, frame)
    {
      match kind {
        case Startup =>
          var next := NextIndex();
          payload := Some(StartupPayload(signResult.value, frame.width, frame.height, next));
        case Delay =>
          var next := NextIndex();
          payload := Some(DelayPayload(next, frame.wallMs));
        case SignedReuse =>
          var next := NextIndex();
          payload := Some(RegularPayload(signResult.value, frame.width, frame.height, next,
                                         if lastSignedMs > 0 then lastSignedMs else frame.wallMs));
        case SignedCurrent =>
          var error := RefreshSignatureIfDue(frame);
          if error.Some? {
            return None;
          }
          var next := NextIndex();
          payload := Some(RegularPayload(signResult.value, frame.width, frame.height, next, frame.wallMs));
      }
    }

    /** The units of emitted messages, behind start codes. */
    ghost predicate Carries(units: seq<byte>, codec: Codec, emissions: seq<Emission>) {
      units == Stream(SeiUnits(codec, Texts(emissions)))
    }

    lemma CarriesOneMore(units: seq<byte>, codec: Codec, emissions: seq<Emission>, e: Emission)
      requires Carries(units, codec, emissions)
      ensures Carries(units + (START_CODE + Nal(codec, render(e.payload))), codec, emissions + [e])
    {
      SeiUnitsAppend(codec, Texts(emissions), render(e.payload));
      assert Texts(emissions + [e]) == Texts(emissions) + [render(e.payload)];
    }

    lemma EmitAllOneMore(s: StreamState, kinds: seq<PayloadKind>, i: nat, frame: Frame, cache: Signatures)
      requires s.sign.Some? && i < |kinds|
      ensures EmitAll(s, kinds[..i + 1], frame, cache) ==
              var (before, done) := EmitAll(s, kinds[..i], frame, cache);
              if done == None then (before, None)
              else
                var (after, last) := EmitOne(before, kinds[i], frame, cache);
                (after, if last == None then None else Some(done.value + [last.value]))
    {
      assert kinds[..i + 1][..i] == kinds[..i];
    }

    /** Builds the messages of the due slots, up to the first that cannot be built. */
    method Inject(due: seq<PayloadKind>, frame: Frame) returns (injected: Option<seq<byte>>)
      requires signResult.Some?
      modifies this
      ensures signatures == old(signatures) && merges == old(merges)
      ensures State() == EmitAll(old(State()), due, frame, signatures).0
      ensures match EmitAll(old(State()), due, frame, signatures).1
              case None => injected == None
              case Some(emissions) => injected.Some? && Carries(injected.value, frame.codec, emissions)
    {
      ghost var signed := State();
      ghost var emissions: seq<Emission> := [];
      var units: seq<byte> := [];
      for i := 0 to |due|
        invariant signatures == old(signatures) && merges == old(merges) && signResult.Some?
        invariant EmitAll(signed, due[..i], frame, signatures) == (State(), Some(emissions))
        invariant Carries(units, frame.codec, emissions)
      {
        EmitAllOneMore(signed, due, i, frame, signatures);
        ghost var e := EmitOne(State(), due[i], frame, signatures).1;
        var payload := EmitKind(due[i], frame);
        if payload == None {
          EmitStops(signed, due, i + 1, frame, signatures);
          return None;
        }
        var unit := AnnexBNal(frame.codec, render(payload.value));
        CarriesOneMore(units, frame.codec, emissions, e.value);
        emissions := emissions + [e.value];
        units := units + unit;
      }
      assert due[..|due|] == due;
      injected := Some(units);
    }

    /**
     Returns a replacement exactly when metadata is injected. The replacement carries the texts of the
     emitted messages in front of the packet; a failure or an idle packet yields none.
     */
    method TransformPacket(frame: Frame) returns (replacement: Option<seq<byte>>, error: Option<SignError>)
      requires Valid()
      modifies this
      ensures Valid() && signatures == old(signatures) && merges == old(merges)
      ensures State() == Transform(old(State()), config, frame, signatures).0
      ensures match Transform(old(State()), config, frame, signatures).1
              case Skipped => replacement == None && error == None
              case Failed(e) => replacement == None && error == Some(e)
              case Replaced(emissions) =>
                && error == None && replacement.Some?
                && CarriesInFront(replacement.value, frame.codec, Texts(emissions), frame.packet)
                && forall e :: e in emissions ==> Describes(e, frame)
    {
      TransformDescribes(State(), config, frame, signatures);
      TransformKeepsCoupled(State(), config, frame, signatures);
      replacement, error := None, None;
      if !config.Complete() {
        return None, Some(NotConfigured);
      }
      if frame.packet == [] {
        return;
      }
      if frame.width <= 0 || frame.height <= 0 {
        return None, Some(BadDimensions);
      }
      if !IsAnnexB(frame.packet) {
        return None, Some(NotAnnexB);
      }
      var due := DuePayloads(frame.streamMs);
      if due == [] {
        return;
      }
      error := EnsureSignature(frame);
      if error.Some? {
        return None, error;
      }
      ghost var emitted := EmitAll(State(), due, frame, signatures).1;
      var injected := Inject(due, frame);
      if injected == None {
        return None, Some(CacheExpired);
      }
      InjectionPreservesNals(frame.codec, Texts(emitted.value), frame.packet);
      replacement := Some(injected.value + frame.packet);
    }
  }

  lemma SeiUnitsAppend(codec: Codec, payloads: seq<seq<byte>>, last: seq<byte>)
    ensures Stream(SeiUnits(codec, payloads + [last])) == Stream(SeiUnits(codec, payloads)) +
            (START_CODE + Nal(codec, last))
  {
    assert SeiUnits(codec, payloads + [last]) == SeiUnits(codec, payloads) + [Nal(codec, last)];
    StreamAppend(SeiUnits(codec, payloads), Nal(codec, last));
  }
}
