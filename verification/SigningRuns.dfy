/** What OBS is made to send on a run of the manager, and which batches are shared. */
module SigningRuns {
  import opened Common
  import opened SignatureCache
  import opened Cadence
  import opened StreamModel
  import opened SigningModel
  import opened SigningInvariant

  // ----- What only some steps change

  /** The part of a session that packets work on. */
  ghost predicate SameStream(s: Session, t: Session) {
    t.name == s.name && t.signer == s.signer && t.stream == s.stream && t.fatal == s.fatal
  }

  ghost predicate KeepsStream(m: Manager, n: Manager, id: SessionId)
    requires id in m.arena
  {
    id in n.arena && SameStream(m.arena[id], n.arena[id])
  }

  lemma DetachKeepsStream(m: Manager, key: string, id: SessionId)
    requires Inv(m) && id in m.arena
    ensures KeepsStream(m, Detached(m, key), id)
  {
    DropPendingKeepsStream(m, key, id);
    DropPendingKeepsInv(m, key);
    DropSessionKeepsStream(DropPending(m, key), key, id);
  }

  lemma DropPendingKeepsStream(m: Manager, key: string, id: SessionId)
    requires id in m.arena && (key in m.pending ==> m.pending[key] in m.arena)
    ensures KeepsStream(m, DropPending(m, key), id)
  {
  }

  lemma DropSessionKeepsStream(m: Manager, key: string, id: SessionId)
    requires id in m.arena && HasOutput(m, key)
    ensures KeepsStream(m, DropSession(m, key), id)
  {
  }

  lemma OpenedKeepsStream(m: Manager, key: string, signer: Signer, job: PrepareJob, id: SessionId)
    requires id in m.arena && id != m.nextId
    ensures KeepsStream(m, Opened(m, key, signer, job), id)
  {
  }

  lemma PrepareKeepsStream(m: Manager, request: Request, found: bool, now: int, launched: bool, id: SessionId)
    requires Inv(m) && id in m.arena
    ensures KeepsStream(m, Prepared(m, request, found, now, launched), id)
  {
    var key := OutputKey(request.name);
    var d := Detached(m, key);
    DetachKeepsStream(m, key, id);
    DetachKeepsIds(m, key);
    if Admissible(request, found) {
      if Fresh(m, request.signer, now) {
        OpenedKeepsStream(d, key, request.signer, PrepareJob(now, Some(m.shared[request.signer])), id);
      } else if launched {
        OpenedKeepsStream(d, key, request.signer, PrepareJob(now, None), id);
      }
    }
  }

  /** A session is there once it has been opened, and then starts out fresh. */
  lemma PrepareOpensFresh(m: Manager, request: Request, found: bool, now: int, launched: bool, id: SessionId)
    requires Inv(m) && id !in m.arena && id in Prepared(m, request, found, now, launched).arena
    ensures var session := Prepared(m, request, found, now, launched).arena[id];
            session.stream == FRESH && !session.fatal
  {
    var key := OutputKey(request.name);
    var d := Detached(m, key);
    DetachKeepsIds(m, key);
    if Fresh(m, request.signer, now) {
      OpenedIsFresh(d, key, request.signer, PrepareJob(now, Some(m.shared[request.signer])), id);
    } else {
      OpenedIsFresh(d, key, request.signer, PrepareJob(now, None), id);
    }
  }

  lemma OpenedIsFresh(m: Manager, key: string, signer: Signer, job: PrepareJob, id: SessionId)
    requires id !in m.arena
    ensures var o := Opened(m, key, signer, job);
            id in o.arena ==> o.arena[id].stream == FRESH && !o.arena[id].fatal
  {
  }

  lemma FinishKeepsStream(m: Manager, finished: SessionId, batch: Batch, output: Option<Output>, id: SessionId)
    requires finished in m.arena && id in m.arena
    ensures KeepsStream(m, PrepareFinished(m, finished, batch, output), id)
  {
  }

  lemma FinishKeepsIds(m: Manager, finished: SessionId, batch: Batch, output: Option<Output>)
    requires finished in m.arena
    ensures PrepareFinished(m, finished, batch, output).arena.Keys == m.arena.Keys
  {
  }

  /** The event starts the stream of the session afresh. */
  predicate Restarts(m: Manager, e: Event, id: SessionId) {
    e.Rebind? && MAIN_STREAM_KEY in m.sessions && m.sessions[MAIN_STREAM_KEY] == id
  }

  predicate PassesPacket(e: Event, id: SessionId) {
    e.Packet? && e.passing == id
  }

  lemma ReboundKeepsStream(m: Manager, current: Option<Output>, id: SessionId)
    requires HasOutput(m, MAIN_STREAM_KEY) && id in m.arena
    ensures var r := Rebound(m, current);
            && id in r.arena && r.arena[id].name == m.arena[id].name && r.arena[id].signer == m.arena[id].signer
            && r.arena[id].fatal == m.arena[id].fatal
            && r.arena[id].stream == if Restarts(m, Rebind(current), id) then FRESH else m.arena[id].stream
  {
  }

  lemma PassedKeepsStream(m: Manager, passing: SessionId, frame: Frame, known: bool, stored: bool, id: SessionId)
    requires passing in m.arena && Coupled(m.arena[passing].stream) && id in m.arena && id != passing
    ensures KeepsStream(m, Passed(m, passing, frame, known, stored), id)
  {
  }

  lemma AllDetachedKeepsStream(m: Manager, id: SessionId)
    requires id in m.arena
    ensures KeepsStream(m, AllDetached(m), id)
  {
  }

  lemma TickedKeepsStream(m: Manager, now: int, launched: set<Signer>, id: SessionId)
    requires id in m.arena
    ensures KeepsStream(m, Ticked(m, now, launched), id)
  {
  }

  lemma RefreshedKeepsStream(m: Manager, job: JobId, batch: Batch, id: SessionId)
    requires job in m.refreshes && id in m.arena
    ensures KeepsStream(m, Refreshed(m, job, batch), id)
  {
  }

  /** Only its own packets and a restart touch the stream of a session. */
  lemma OthersKeepStream(m: Manager, e: Event, id: SessionId)
    requires Inv(m) && Enabled(m, e) && id in m.arena && !PassesPacket(e, id) && !Restarts(m, e, id)
    ensures KeepsStream(m, Step(m, e), id)
  {
    match e
    case Prepare(request, found, now, launched) => PrepareKeepsStream(m, request, found, now, launched, id);
    case FinishPrepare(finished, batch, output) => FinishKeepsStream(m, finished, batch, output, id);
    case Detach(key) => DetachKeepsStream(m, key, id);
    case DetachAll => AllDetachedKeepsStream(m, id);
    case Rebind(current) => ReboundKeepsStream(m, current, id);
    case Tick(time, started) => TickedKeepsStream(m, time, started, id);
    case FinishRefresh(job, fetched) => RefreshedKeepsStream(m, job, fetched, id);
    case Packet(passing, frame, known, stored) => PassedKeepsStream(m, passing, frame, known, stored, id);
  }

  lemma NewSessionIsFresh(m: Manager, e: Event, id: SessionId)
    requires Inv(m) && Enabled(m, e) && id !in m.arena && id in Step(m, e).arena
    ensures Step(m, e).arena[id].stream == FRESH && !Step(m, e).arena[id].fatal
  {
    match e
    case Prepare(request, found, now, launched) => PrepareOpensFresh(m, request, found, now, launched, id);
    case Detach(key) => DetachKeepsIds(m, key);
    case FinishPrepare(finished, batch, output) => FinishKeepsIds(m, finished, batch, output);
    case _ =>
  }

  // ----- One session, packet by packet

  /** A packet that reaches a session, with what is cached then; `known` and `stored` are as in Packet. */
  datatype Delivery = Delivery(arrival: Arrival, known: bool, stored: bool)

  function ArrivalsOf(deliveries: seq<Delivery>): (arrivals: seq<Arrival>)
    ensures |arrivals| == |deliveries|
  {
    seq(|deliveries|, i requires 0 <= i < |deliveries| => deliveries[i].arrival)
  }

  /** What OBS cannot store is nothing that is to be sent. */
  ghost predicate AllStored(config: SeiConfig, deliveries: seq<Delivery>) {
    var arrivals := ArrivalsOf(deliveries);
    forall i :: 0 <= i < |deliveries| && !deliveries[i].stored ==>
      Run(FRESH, config, arrivals[..i + 1]).emissions == Run(FRESH, config, arrivals[..i]).emissions
  }

  /** No delivery has failed: each codec is known, no packet fails, and what is to be sent can be stored. */
  ghost predicate Intact(config: SeiConfig, deliveries: seq<Delivery>) {
    && (forall i :: 0 <= i < |deliveries| ==> deliveries[i].known)
    && Run(FRESH, config, ArrivalsOf(deliveries)).clean
    && AllStored(config, deliveries)
  }

  lemma RunOneMore(config: SeiConfig, arrivals: seq<Arrival>, a: Arrival)
    ensures var before := Run(FRESH, config, arrivals);
            var (after, outcome) := Transform(before.state, config, a.frame, a.cache);
            Run(FRESH, config, arrivals + [a]) ==
            Trace(after, before.emissions + Emitted(outcome), before.clean && !outcome.Failed?)
  {
    assert (arrivals + [a])[..|arrivals|] == arrivals;
  }

  lemma AllStoredOneMore(config: SeiConfig, deliveries: seq<Delivery>, d: Delivery)
    ensures AllStored(config, deliveries + [d]) <==>
            AllStored(config, deliveries) &&
            (d.stored || Run(FRESH, config, ArrivalsOf(deliveries + [d])).emissions ==
                         Run(FRESH, config, ArrivalsOf(deliveries)).emissions)
  {
    var arrivals, longer, n := ArrivalsOf(deliveries), ArrivalsOf(deliveries + [d]), |deliveries|;
    assert longer[..n] == arrivals && longer[..n + 1] == longer;
    assert forall i :: 0 <= i <= n ==> longer[..i] == arrivals[..i];
    assert forall i :: 0 <= i < n ==> (deliveries + [d])[i] == deliveries[i];
  }

  lemma IntactOneMore(config: SeiConfig, deliveries: seq<Delivery>, d: Delivery)
    ensures var before := Run(FRESH, config, ArrivalsOf(deliveries));
            var (after, outcome) := Transform(before.state, config, d.arrival.frame, d.arrival.cache);
            && Run(FRESH, config, ArrivalsOf(deliveries + [d])) ==
               Trace(after, before.emissions + Emitted(outcome), before.clean && !outcome.Failed?)
            && (Intact(config, deliveries + [d]) <==>
                  Intact(config, deliveries) && d.known && !outcome.Failed? && (d.stored || Emitted(outcome) == []))
  {
    assert ArrivalsOf(deliveries + [d]) == ArrivalsOf(deliveries) + [d.arrival];
    RunOneMore(config, ArrivalsOf(deliveries), d.arrival);
    AllStoredOneMore(config, deliveries, d);
    AllKnownOneMore(deliveries, d);
  }

  lemma AllKnownOneMore(deliveries: seq<Delivery>, d: Delivery)
    ensures (forall i :: 0 <= i < |deliveries + [d]| ==> (deliveries + [d])[i].known) <==>
            (forall i :: 0 <= i < |deliveries| ==> deliveries[i].known) && d.known
  {
    var longer := deliveries + [d];
    if forall i :: 0 <= i < |longer| ==> longer[i].known {
      assert longer[|deliveries|].known;
      assert forall i :: 0 <= i < |deliveries| ==> deliveries[i] == longer[i];
    }
  }

  /**
   What has reached a session since it was opened, or its stream was last restarted, and what was sent then;
   `broken` says that it had failed before.
   */
  datatype Playback = Playback(deliveries: seq<Delivery>, sent: seq<Emission>, broken: bool)

  /** The first n deliveries were played, and what was sent are the messages of that run. */
  ghost predicate Played(config: SeiConfig, p: Playback, n: nat)
    requires n <= |p.deliveries|
  {
    Intact(config, p.deliveries[..n]) && p.sent == Run(FRESH, config, ArrivalsOf(p.deliveries[..n])).emissions
  }

  /**
   The session is one run of the stream model: as long as nothing fails, its state is the state of that run and
   what is sent are the messages of that run; the first failure is remembered, and nothing is sent from it on.
   */
  ghost predicate Plays(session: Session, p: Playback) {
    var config, all := session.signer.config, |p.deliveries|;
    && (session.fatal <==> p.broken || !Intact(config, p.deliveries))
    && (!session.fatal ==>
          Played(config, p, all) && session.stream == Run(FRESH, config, ArrivalsOf(p.deliveries)).state)
    && (p.broken ==> p.sent == [])
    && (session.fatal && !p.broken ==>
          exists n :: 0 <= n < all && !Intact(config, p.deliveries[..n + 1]) && Played(config, p, n))
  }

  lemma FreshPlays(session: Session)
    requires session.stream == FRESH
    ensures Plays(session, Playback([], [], session.fatal))
  {
  }

  lemma OneMorePlays(session: Session, p: Playback, frame: Frame, known: bool, stored: bool)
    requires Coupled(session.stream) && Plays(session, p)
    ensures var d := Delivery(Arrival(frame, session.cache), known, stored);
            Plays(SessionPassed(session, frame, known, stored),
                  Playback(p.deliveries + [d], p.sent + Injected(session, frame, known, stored), p.broken))
  {
    var d := Delivery(Arrival(frame, session.cache), known, stored);
    if session.fatal {
      NothingPlayed(session, p, d);
    } else {
      OnePlayed(session, p, frame, known, stored);
    }
  }

  /** A session that has failed plays no more. */
  lemma NothingPlayed(session: Session, p: Playback, d: Delivery)
    requires session.fatal && Plays(session, p)
    ensures Plays(session, Playback(p.deliveries + [d], p.sent + [], p.broken))
  {
    var config, longer := session.signer.config, p.deliveries + [d];
    assert p.sent + [] == p.sent;
    IntactOneMore(config, p.deliveries, d);
    if !p.broken {
      var k :| 0 <= k < |p.deliveries| && !Intact(config, p.deliveries[..k + 1]) && Played(config, p, k);
      assert longer[..k] == p.deliveries[..k] && longer[..k + 1] == p.deliveries[..k + 1];
      assert Played(config, Playback(longer, p.sent, p.broken), k);
    }
  }

  /** What a packet does to a session that has not failed. */
  lemma PassedParts(session: Session, frame: Frame, known: bool, stored: bool)
    requires Coupled(session.stream) && !session.fatal
    ensures var (after, outcome) := Transform(session.stream, session.signer.config, frame, session.cache);
            var passed := SessionPassed(session, frame, known, stored);
            passed.signer == session.signer &&
            if known && !outcome.Failed? && (stored || Emitted(outcome) == [])
            then !passed.fatal && passed.stream == after && Injected(session, frame, known, stored) == Emitted(outcome)
            else passed.fatal && Injected(session, frame, known, stored) == []
  {
  }

  /** One more packet, which is played unless it fails. */
  lemma OnePlayed(session: Session, p: Playback, frame: Frame, known: bool, stored: bool)
    requires Coupled(session.stream) && Plays(session, p) && !session.fatal
    ensures var d := Delivery(Arrival(frame, session.cache), known, stored);
            Plays(SessionPassed(session, frame, known, stored),
                  Playback(p.deliveries + [d], p.sent + Injected(session, frame, known, stored), p.broken))
  {
    var d := Delivery(Arrival(frame, session.cache), known, stored);
    PassedParts(session, frame, known, stored);
    IntactOneMore(session.signer.config, p.deliveries, d);
    assert p.deliveries[..|p.deliveries|] == p.deliveries;
    PlaysOn(session, p, d, SessionPassed(session, frame, known, stored), Injected(session, frame, known, stored));
  }

  lemma PlaysOn(session: Session, p: Playback, d: Delivery, passed: Session, injected: seq<Emission>)
    requires !session.fatal && !p.broken && passed.signer == session.signer
    requires Played(session.signer.config, p, |p.deliveries|)
    requires if Intact(session.signer.config, p.deliveries + [d])
             then
               && !passed.fatal
               && Run(FRESH, session.signer.config, ArrivalsOf(p.deliveries + [d])) ==
                  Trace(passed.stream, p.sent + injected, true)
             else passed.fatal && injected == []
    ensures Plays(passed, Playback(p.deliveries + [d], p.sent + injected, p.broken))
  {
    var n, longer := |p.deliveries|, p.deliveries + [d];
    assert longer[..n] == p.deliveries[..n] && longer[..n + 1] == longer;
    if passed.fatal {
      assert p.sent + [] == p.sent;
      BrokenPlays(passed, Playback(longer, p.sent, p.broken), n);
    } else {
      IntactPlays(passed, Playback(longer, p.sent + injected, p.broken));
    }
  }

  lemma IntactPlays(session: Session, p: Playback)
    requires !session.fatal && !p.broken && Intact(session.signer.config, p.deliveries)
    requires Run(FRESH, session.signer.config, ArrivalsOf(p.deliveries)) == Trace(session.stream, p.sent, true)
    ensures Plays(session, p)
  {
    assert p.deliveries[..|p.deliveries|] == p.deliveries;
  }

  lemma BrokenPlays(session: Session, p: Playback, n: nat)
    requires session.fatal && !p.broken && n < |p.deliveries| && p.deliveries[..n + 1] == p.deliveries
    requires !Intact(session.signer.config, p.deliveries) && Played(session.signer.config, p, n)
    ensures Plays(session, p)
  {
  }

  // ----- All runs

  ghost function PlaybackOf(events: seq<Event>, id: SessionId): Playback
    requires RunFrom(START, events).Some?
    decreases |events|
  {
    if events == [] then Playback([], [], false)
    else
      var shorter, e := events[..|events| - 1], events[|events| - 1];
      var before, p := RunFrom(START, shorter).value, PlaybackOf(shorter, id);
      if PassesPacket(e, id) then
        var d := Delivery(Arrival(e.frame, before.arena[id].cache), e.known, e.stored);
        Playback(p.deliveries + [d], p.sent + Injected(before.arena[id], e.frame, e.known, e.stored), p.broken)
      else if id in before.arena && Restarts(before, e, id) then Playback([], [], before.arena[id].fatal)
      else p
  }

  /**
   On every run of the manager, each session ever opened carries its stream state from packet to packet, through
   whatever is prepared, attached, refreshed or detached in between: what OBS sends on its output is what the
   stream model emits for exactly the packets that reached it, until the first failure.
   */
  lemma {:induction false} SessionsPlayTheirPackets(events: seq<Event>, id: SessionId)
    requires RunFrom(START, events).Some?
    ensures var m, p := RunFrom(START, events).value, PlaybackOf(events, id);
            if id in m.arena then Plays(m.arena[id], p) else p == Playback([], [], false)
    decreases |events|
  {
    if events != [] {
      var shorter, e := events[..|events| - 1], events[|events| - 1];
      SessionsPlayTheirPackets(shorter, id);
      var before, p := RunFrom(START, shorter).value, PlaybackOf(shorter, id);
      StepPlays(before, e, id, p);
    }
  }

  lemma StepPlays(m: Manager, e: Event, id: SessionId, p: Playback)
    requires Inv(m) && Enabled(m, e)
    requires if id in m.arena then Plays(m.arena[id], p) else p == Playback([], [], false)
    ensures var after := Step(m, e);
            if id !in m.arena then !PassesPacket(e, id) && (id in after.arena ==> Plays(after.arena[id], p))
            else
              && id in after.arena
              && Plays(after.arena[id],
                       if PassesPacket(e, id)
                       then Playback(p.deliveries + [Delivery(Arrival(e.frame, m.arena[id].cache), e.known, e.stored)],
                                     p.sent + Injected(m.arena[id], e.frame, e.known, e.stored), p.broken)
                       else if Restarts(m, e, id) then Playback([], [], m.arena[id].fatal)
                       else p)
  {
    if id !in m.arena {
      if id in Step(m, e).arena {
        NewSessionIsFresh(m, e, id);
        FreshPlays(Step(m, e).arena[id]);
      }
    } else if PassesPacket(e, id) {
      OneMorePlays(m.arena[id], p, e.frame, e.known, e.stored);
    } else if Restarts(m, e, id) {
      ReboundKeepsStream(m, e.current, id);
      FreshPlays(Step(m, e).arena[id]);
    } else {
      OthersKeepStream(m, e, id);
    }
  }

  /**
   So what OBS sends on an output that has not failed is the ideal schedule: over an epoch of accepted packets
   none is skipped or repeated, and message k has index k and the kind of slot k.
   */
  lemma SentIsSchedule(events: seq<Event>, id: SessionId)
    requires RunFrom(START, events).Some? && id in RunFrom(START, events).value.arena
    requires !RunFrom(START, events).value.arena[id].fatal
    ensures var p, config := PlaybackOf(events, id), RunFrom(START, events).value.arena[id].signer.config;
            OneEpoch(config, ArrivalsOf(p.deliveries)) ==> IsSchedule(p.sent, ArrivalsOf(p.deliveries))
  {
    SessionsPlayTheirPackets(events, id);
    var session, p := RunFrom(START, events).value.arena[id], PlaybackOf(events, id);
    assert p.deliveries[..|p.deliveries|] == p.deliveries;
    if OneEpoch(session.signer.config, ArrivalsOf(p.deliveries)) {
      CleanRunIsSchedule(session.signer.config, ArrivalsOf(p.deliveries));
    }
  }

  /** The messages of all slots that the packets reach, each on the first packet that reaches its slot. */
  ghost predicate IsSchedule(sent: seq<Emission>, arrivals: seq<Arrival>) {
    if arrivals == [] then sent == []
    else
      var elapsed := arrivals[|arrivals| - 1].frame.streamMs - arrivals[0].frame.streamMs;
      && 0 <= elapsed && |sent| == SlotsDue(elapsed)
      && forall k :: 0 <= k < |sent| ==> FillsSlot(sent[k], k, arrivals)
  }

  lemma CleanRunIsSchedule(config: SeiConfig, arrivals: seq<Arrival>)
    requires OneEpoch(config, arrivals) && Run(FRESH, config, arrivals).clean
    ensures IsSchedule(Run(FRESH, config, arrivals).emissions, arrivals)
  {
    if arrivals != [] {
      EpochEmitsSchedule(FRESH, config, arrivals);
    }
  }

  // ----- Shared batches

  /** The batch of a signer that an event delivers to somebody who still waits for it. */
  ghost function Supply(m: Manager, e: Event, signer: Signer): Option<Batch> {
    match e
    case FinishPrepare(id, batch, _) =>
      if Pending(m, id) && m.arena[id].signer == signer && batch.Valid() then Some(batch) else None
    case FinishRefresh(job, fetched) => if job.1 == signer && fetched.Valid() then Some(fetched) else None
    case _ => None
  }

  function SharedOf(m: Manager, signer: Signer): Option<Batch> {
    if signer in m.shared then Some(m.shared[signer]) else None
  }

  ghost function LastSupply(events: seq<Event>, signer: Signer): Option<Batch>
    requires RunFrom(START, events).Some?
    decreases |events|
  {
    if events == [] then None
    else
      var shorter := events[..|events| - 1];
      var supply := Supply(RunFrom(START, shorter).value, events[|events| - 1], signer);
      if supply.Some? then supply else LastSupply(shorter, signer)
  }

  lemma StepShares(m: Manager, e: Event, signer: Signer)
    requires Inv(m) && Enabled(m, e)
    ensures var supply := Supply(m, e, signer);
            SharedOf(Step(m, e), signer) == if supply.Some? then supply else SharedOf(m, signer)
  {
    match e
    case Prepare(request, found, now, launched) => PrepareKeepsShared(m, request, found, now, launched);
    case FinishPrepare(id, batch, output) => FinishShares(m, id, batch, output, signer);
    case Detach(key) => DetachKeepsShared(m, key);
    case FinishRefresh(job, fetched) => RefreshShares(m, job, fetched, signer);
    case _ =>
  }

  lemma PrepareKeepsShared(m: Manager, request: Request, found: bool, now: int, launched: bool)
    requires Inv(m)
    ensures Prepared(m, request, found, now, launched).shared == m.shared
  {
    DetachKeepsShared(m, OutputKey(request.name));
  }

  lemma FinishShares(m: Manager, id: SessionId, batch: Batch, output: Option<Output>, signer: Signer)
    requires id in m.arena
    ensures SharedOf(PrepareFinished(m, id, batch, output), signer) ==
            if Pending(m, id) && m.arena[id].signer == signer && batch.Valid() then Some(batch) else SharedOf(m, signer)
  {
  }

  lemma RefreshShares(m: Manager, job: JobId, fetched: Batch, signer: Signer)
    requires job in m.refreshes
    ensures SharedOf(Refreshed(m, job, fetched), signer) ==
            if job.1 == signer && fetched.Valid() then Some(fetched) else SharedOf(m, signer)
  {
  }

  /**
   On every run, the batch at hand for a signer is the last valid one that was delivered for it, be it as a first
   batch or as a refresh.
   */
  lemma {:induction false} SharedIsLastSupply(events: seq<Event>, signer: Signer)
    requires RunFrom(START, events).Some?
    ensures SharedOf(RunFrom(START, events).value, signer) == LastSupply(events, signer)
    decreases |events|
  {
    if events != [] {
      var shorter, e := events[..|events| - 1], events[|events| - 1];
      SharedIsLastSupply(shorter, signer);
      StepShares(RunFrom(START, shorter).value, e, signer);
    }
  }

  // ----- Where caches are supplied from

  /** The session is as well supplied as before, or attached and supplied from the batch at hand for its signer. */
  ghost predicate SuppliedFrom(m: Manager, n: Manager, id: SessionId)
    requires id in m.arena
  {
    && id in n.arena && n.arena[id].signer == m.arena[id].signer
    && (n.arena[id].cache == m.arena[id].cache ||
        (Attached(n, id) && m.arena[id].signer in n.shared &&
         n.arena[id].cache == Merged(m.arena[id].cache, n.shared[m.arena[id].signer].signatures)))
  }

  /** No step touches the signatures of a session but to merge the batch then at hand, and only if it is attached. */
  lemma OnlyAttachedAreSupplied(m: Manager, e: Event, id: SessionId)
    requires Inv(m) && Enabled(m, e) && id in m.arena
    ensures SuppliedFrom(m, Step(m, e), id)
  {
    match e
    case Prepare(request, found, now, launched) => PrepareKeepsCache(m, request, found, now, launched, id);
    case FinishPrepare(finished, batch, output) => FinishSuppliesFrom(m, finished, batch, output, id);
    case Detach(key) => DetachKeepsCache(m, key, id);
    case DetachAll => AllDetachedFrame(m);
    case Rebind(current) => ReboundKeepsCache(m, current, id);
    case Tick(time, started) => TickSuppliesFrom(m, time, started, id);
    case FinishRefresh(job, fetched) => RefreshSuppliesFrom(m, job, fetched, id);
    case Packet(passing, frame, known, stored) => PassedKeepsCache(m, passing, frame, known, stored, id);
  }

  lemma PassedKeepsCache(m: Manager, passing: SessionId, frame: Frame, known: bool, stored: bool, id: SessionId)
    requires passing in m.arena && Coupled(m.arena[passing].stream) && id in m.arena
    ensures SuppliedFrom(m, Passed(m, passing, frame, known, stored), id)
  {
    SessionPassedKeeps(m.arena[passing], frame, known, stored);
  }

  lemma DetachKeepsCache(m: Manager, key: string, id: SessionId)
    requires Inv(m) && id in m.arena
    ensures var d := Detached(m, key);
            id in d.arena && d.arena[id].cache == m.arena[id].cache && d.arena[id].signer == m.arena[id].signer
  {
    DropPendingKeepsInv(m, key);
    DropPendingKeepsCaches(m, key);
    DropSessionKeepsCaches(DropPending(m, key), key);
  }

  lemma PrepareKeepsCache(m: Manager, request: Request, found: bool, now: int, launched: bool, id: SessionId)
    requires Inv(m) && id in m.arena
    ensures SuppliedFrom(m, Prepared(m, request, found, now, launched), id)
  {
    var key := OutputKey(request.name);
    var d := Detached(m, key);
    DetachKeepsCache(m, key, id);
    DetachKeepsIds(m, key);
    if Admissible(request, found) {
      if Fresh(m, request.signer, now) {
        OpenedKeepsCache(d, key, request.signer, PrepareJob(now, Some(m.shared[request.signer])), id);
      } else if launched {
        OpenedKeepsCache(d, key, request.signer, PrepareJob(now, None), id);
      }
    }
  }

  lemma OpenedKeepsCache(m: Manager, key: string, signer: Signer, job: PrepareJob, id: SessionId)
    requires id in m.arena && id != m.nextId
    ensures var o := Opened(m, key, signer, job);
            id in o.arena && o.arena[id].cache == m.arena[id].cache && o.arena[id].signer == m.arena[id].signer
  {
  }

  lemma FinishSuppliesFrom(m: Manager, finished: SessionId, batch: Batch, output: Option<Output>, id: SessionId)
    requires finished in m.arena && id in m.arena
    ensures SuppliedFrom(m, PrepareFinished(m, finished, batch, output), id)
  {
  }

  lemma ReboundKeepsCache(m: Manager, current: Option<Output>, id: SessionId)
    requires HasOutput(m, MAIN_STREAM_KEY) && id in m.arena
    ensures SuppliedFrom(m, Rebound(m, current), id)
  {
  }

  lemma TickSuppliesFrom(m: Manager, now: int, launched: set<Signer>, id: SessionId)
    requires id in m.arena
    ensures SuppliedFrom(m, Ticked(m, now, launched), id)
  {
  }

  lemma RefreshSuppliesFrom(m: Manager, job: JobId, fetched: Batch, id: SessionId)
    requires JobMembers(m) && job in m.refreshes && id in m.arena
    ensures SuppliedFrom(m, Refreshed(m, job, fetched), id)
  {
  }
}
