/**
 The refresh timing never lets a signature cache run dry, exactly as long as the timer and the fetches
 keep a pace: with ticks at most 30 s apart and five minutes delivered within 30 s, an attached session
 can always sign.
 */
module NoLapse {
  import opened Common
  import opened SignatureCache
  import opened StreamModel
  import opened SigningModel
  import opened SigningInvariant

  const BATCH_SECONDS := 300

  const TICK_SECONDS := 30

  /**
   Upper bounds, in seconds: between ticks of the timer, from the start of a fetch to its delivery, from
   queueing a batch that is at hand to handling it, and on how far the clock that a packet reads is off.
   */
  datatype Pace = Pace(tick: nat, fetch: nat, queue: nat, skew: nat)

  /**
   The tolerance of the selection makes up for the skew; what is left of it adds to the 61 s from a tick
   that finds a session just supplied, and to the 90 s of a batch that is just fresh.
   */
  predicate Sufficient(p: Pace) {
    && p.tick > 0 && p.skew <= TOLERANCE_SECONDS
    && p.tick + p.fetch + p.skew <= REFRESH_AHEAD_SECONDS + 1 + TOLERANCE_SECONDS
    && p.queue + p.tick + p.fetch + p.skew <= FRESH_SECONDS + TOLERANCE_SECONDS
  }

  /** What the timer of the manager leaves for a fetch: 32 s, or 31 s if clocks are off by a second. */
  lemma FetchTime(fetch: nat, queue: nat, skew: nat)
    requires queue <= 29
    ensures Sufficient(Pace(TICK_SECONDS, fetch, queue, skew)) <==> skew <= 1 && fetch + skew <= 32
  {
  }

  /** A manager, the wall clock, when the refresh timer was last started or last ticked, and the pace. */
  datatype Timed = Timed(m: Manager, clock: int, lastTick: int, pace: Pace)

  // ----- The assumptions on the environment

  /** The reply to a fetch started at `start`: a valid signature for every second of five minutes. */
  ghost predicate Complete(batch: Batch, start: int) {
    && !batch.failed
    && (forall t :: t in batch.signatures <==> start <= t < start + BATCH_SECONDS)
    && forall t :: t in batch.signatures ==> batch.signatures[t].Valid()
  }

  /** Some session that waits for the refresh is still attached. */
  ghost predicate Served(m: Manager, job: JobId)
    requires job in m.refreshes
  {
    exists id :: id in m.refreshes[job].members && Attached(m, id)
  }

  /**
   Handlers act at the current second and workers start. The worker of a first fetch reads the clock
   itself, after the handler. What is fetched for nobody any more may be broken off, but a refresh that
   is valid is complete.
   */
  ghost predicate OnTime(s: Timed, e: Event) {
    Enabled(s.m, e) &&
    match e
    case Prepare(_, _, now, launched) => now == s.clock && launched
    case FinishPrepare(id, batch, _) =>
      Pending(s.m, id) && s.m.prepares[id].cached == None ==>
        exists start :: s.m.prepares[id].startedAt <= start <= s.clock && Complete(batch, start)
    case Tick(time, started) =>
      s.m.timerActive && time == s.clock && forall signer :: signer in StaleSigners(s.m, time) ==> signer in started
    case FinishRefresh(job, fetched) =>
      Served(s.m, job) || fetched.Valid() ==> Complete(fetched, s.m.refreshes[job].startedAt)
    case Packet(_, frame, _, _) => Distance(Seconds(frame.wallMs), s.clock) <= s.pace.skew
    case _ => true
  }

  function Patience(job: PrepareJob, pace: Pace): nat {
    if job.cached.Some? then pace.queue else pace.fetch
  }

  /** A second may pass unless a tick is overdue, or a delivery that some session still waits for. */
  ghost predicate MayWait(s: Timed) {
    && (s.m.timerActive ==> s.clock < s.lastTick + s.pace.tick)
    && (forall id :: id in s.m.prepares && Pending(s.m, id) ==>
          s.clock < s.m.prepares[id].startedAt + Patience(s.m.prepares[id], s.pace))
    && (forall job :: job in s.m.refreshes && Served(s.m, job) ==>
          s.clock < s.m.refreshes[job].startedAt + s.pace.fetch)
  }

  datatype Action = Wait | Do(event: Event)

  ghost predicate Allowed(s: Timed, a: Action) {
    match a
    case Wait => MayWait(s)
    case Do(event) => OnTime(s, event)
  }

  ghost function Next(s: Timed, a: Action): Timed
    requires Inv(s.m) && Allowed(s, a)
  {
    match a
    case Wait => s.(clock := s.clock + 1)
    case Do(event) =>
      var after := Step(s.m, event);
      s.(m := after, lastTick := if event.Tick? || (after.timerActive && !s.m.timerActive) then s.clock else s.lastTick)
  }

  // ----- The invariant

  /**
   The cache has every second from now to its end, which a clock that is off by `skew` can still be
   served from, and nothing beyond five minutes ahead.
   */
  ghost predicate Covers(cache: Signatures, clock: int, skew: nat) {
    && cache != map[] && skew <= TOLERANCE_SECONDS
    && clock + skew - TOLERANCE_SECONDS <= LastTimestamp(cache) < clock + BATCH_SECONDS
    && forall t :: clock <= t <= LastTimestamp(cache) ==> t in cache
  }

  /** A batch fetched no later than now. */
  ghost predicate Past(batch: Batch, clock: int) {
    batch.Valid() ==> exists start :: start <= clock && Complete(batch, start)
  }

  /** What is cached will do at the given second. */
  ghost predicate Lasts(cache: Signatures, second: int, pace: Pace) {
    LastTimestamp(cache) >= second + pace.skew - TOLERANCE_SECONDS
  }

  /** Enough is cached to last until the next tick, or until the refresh in flight is delivered. */
  ghost predicate Supplied(s: Timed, id: SessionId)
    requires id in s.m.arena
  {
    var cache := s.m.arena[id].cache;
    && Covers(cache, s.clock, s.pace.skew)
    && (if s.m.arena[id].refreshing
        then forall job :: job in s.m.refreshes && id in s.m.refreshes[job].members ==>
               Lasts(cache, s.m.refreshes[job].startedAt + s.pace.fetch, s.pace)
        else Lasts(cache, s.lastTick + s.pace.tick + s.pace.fetch, s.pace))
  }

  ghost predicate Punctual(s: Timed) {
    && (s.m.timerActive ==> s.lastTick <= s.clock <= s.lastTick + s.pace.tick)
    && (forall id :: id in s.m.prepares ==>
          && s.m.prepares[id].startedAt <= s.clock
          && (Pending(s.m, id) ==> s.clock <= s.m.prepares[id].startedAt + Patience(s.m.prepares[id], s.pace)))
    && (forall job :: job in s.m.refreshes ==>
          && s.m.refreshes[job].startedAt <= s.clock
          && (Served(s.m, job) ==> s.clock <= s.m.refreshes[job].startedAt + s.pace.fetch))
  }

  ghost predicate Stocked(s: Timed) {
    StockedShared(s) && StockedJobs(s)
  }

  /** Batches at hand were fetched in the past. */
  ghost predicate StockedShared(s: Timed) {
    forall signer :: signer in s.m.shared ==> Past(s.m.shared[signer], s.clock)
  }

  /** A batch handed to a new session was fresh at that time. */
  ghost predicate StockedJobs(s: Timed) {
    forall id :: id in s.m.prepares && s.m.prepares[id].cached.Some? ==>
      var job := s.m.prepares[id];
      && job.cached.value.Valid() && Past(job.cached.value, s.clock)
      && LastTimestamp(job.cached.value.signatures) >= job.startedAt + FRESH_SECONDS
  }

  /** A session that waits for its first batch has cached nothing and is in no refresh. */
  ghost predicate Unused(s: Timed) {
    forall id :: id in s.m.prepares && id in s.m.arena ==> s.m.arena[id].cache == map[] && !s.m.arena[id].refreshing
  }

  ghost predicate AllSupplied(s: Timed) {
    forall id :: Attached(s.m, id) ==> Supplied(s, id)
  }

  ghost predicate TimedInv(s: Timed) {
    Sufficient(s.pace) && Inv(s.m) && Punctual(s) && Stocked(s) && Unused(s) && AllSupplied(s)
  }

  // ----- Merging a complete batch

  lemma CompleteLast(batch: Batch, start: int)
    requires Complete(batch, start)
    ensures batch.Valid() && LastTimestamp(batch.signatures) == start + BATCH_SECONDS - 1
    ensures ValidOnly(batch.signatures) == batch.signatures
  {
    assert start + BATCH_SECONDS - 1 in batch.signatures;
    forall t | t in batch.signatures
      ensures t in ValidOnly(batch.signatures)
    {
    }
    assert ValidOnly(batch.signatures).Keys == batch.signatures.Keys;
  }

  lemma {:induction false} IntervalSize(keys: set<int>, low: int, high: int)
    requires low <= high && forall k :: k in keys ==> low < k <= high
    ensures |keys| <= high - low
    decreases high - low
  {
    if low < high {
      IntervalSize(keys - {high}, low, high - 1);
      assert keys <= keys - {high} + {high};
      SubsetSize(keys, keys - {high} + {high});
    } else if keys != {} {
      var some := AnElement(keys);
    }
  }

  lemma KeptKey(all: Signatures, t: int, clock: int)
    requires t in all && clock <= t && forall k :: k in all ==> k < clock + BATCH_SECONDS
    ensures t in Newest(all)
  {
    IntervalSize(Above(all.Keys, t), clock, clock + BATCH_SECONDS);
  }

  /** Eviction never drops a key that is still needed: at most five minutes of keys lie ahead. */
  lemma MergeCovers(cache: Signatures, batch: Batch, start: int, clock: int, skew: nat)
    requires Complete(batch, start) && start <= clock < start + BATCH_SECONDS && skew <= TOLERANCE_SECONDS
    requires cache == map[] || Covers(cache, clock, skew)
    ensures Covers(Merged(cache, batch.signatures), clock, skew)
    ensures LastTimestamp(Merged(cache, batch.signatures)) >= start + BATCH_SECONDS - 1
    ensures cache != map[] ==> LastTimestamp(Merged(cache, batch.signatures)) >= LastTimestamp(cache)
  {
    CompleteLast(batch, start);
    var merged, all := Merged(cache, batch.signatures), cache + batch.signatures;
    assert forall k :: k in all ==> k < clock + BATCH_SECONDS;
    assert clock in all;
    KeptKey(all, clock, clock);
    MergeIsMonotone(cache, batch.signatures);
    forall t | clock <= t <= LastTimestamp(merged)
      ensures t in merged
    {
      assert t in all;
      KeptKey(all, t, clock);
    }
  }

  // ----- Time passes

  lemma WaitKeepsSupplied(s: Timed)
    requires AllSupplied(s) && MayWait(s) && Lifecycle(s.m) && InSomeJob(s.m)
    ensures AllSupplied(s.(clock := s.clock + 1))
  {
    var n := s.(clock := s.clock + 1);
    forall id | Attached(n.m, id)
      ensures Supplied(n, id)
    {
      assert Supplied(s, id) && s.m.timerActive;
      if s.m.arena[id].refreshing {
        var job :| job in s.m.refreshes && id in s.m.refreshes[job].members;
        assert Served(s.m, job);
      }
    }
  }

  lemma PastStays(batch: Batch, clock: int)
    requires Past(batch, clock)
    ensures Past(batch, clock + 1)
  {
  }

  lemma WaitKeepsStocked(s: Timed)
    requires Stocked(s)
    ensures Stocked(s.(clock := s.clock + 1))
  {
    forall batch | Past(batch, s.clock)
      ensures Past(batch, s.clock + 1)
    {
      PastStays(batch, s.clock);
    }
  }

  lemma WaitKeepsTimedInv(s: Timed)
    ensures TimedInv(s) && MayWait(s) ==> TimedInv(s.(clock := s.clock + 1))
  {
    if TimedInv(s) && MayWait(s) {
      WaitKeepsSupplied(s);
      WaitKeepsStocked(s);
    }
  }

  // ----- A tick

  lemma FreshCovers(cache: Signatures, batch: Batch, clock: int, skew: nat)
    requires Covers(cache, clock, skew) && Past(batch, clock) && batch.Valid()
    requires LastTimestamp(batch.signatures) >= clock + FRESH_SECONDS
    ensures Covers(Merged(cache, batch.signatures), clock, skew)
    ensures LastTimestamp(Merged(cache, batch.signatures)) >= clock + FRESH_SECONDS
  {
    var start :| start <= clock && Complete(batch, start);
    CompleteLast(batch, start);
    MergeCovers(cache, batch, start, clock, skew);
  }

  /** The job that serves a session after a tick: launched by the tick exactly if the session was stale. */
  lemma TickedJob(s: Timed, id: SessionId, launched: set<Signer>, job: JobId)
    requires TimedInv(s) && Attached(s.m, id)
    requires job in Ticked(s.m, s.clock, launched).refreshes &&
             id in Ticked(s.m, s.clock, launched).refreshes[job].members
    ensures if Stale(s.m, id, s.clock) then Ticked(s.m, s.clock, launched).refreshes[job].startedAt == s.clock
            else job in s.m.refreshes && Ticked(s.m, s.clock, launched).refreshes[job] == s.m.refreshes[job]
  {
    TickedMembers(s.m, s.clock, launched, job, id);
  }

  lemma TickSupplies(s: Timed, id: SessionId, launched: set<Signer>)
    requires TimedInv(s) && OnTime(s, Tick(s.clock, launched)) && Attached(s.m, id)
    ensures Attached(Ticked(s.m, s.clock, launched), id)
    ensures Supplied(s.(m := Ticked(s.m, s.clock, launched), lastTick := s.clock), id)
  {
    var t := Ticked(s.m, s.clock, launched);
    assert Supplied(s, id);
    var session := s.m.arena[id];
    forall job | job in t.refreshes && id in t.refreshes[job].members
      ensures if Stale(s.m, id, s.clock) then t.refreshes[job].startedAt == s.clock
              else job in s.m.refreshes && t.refreshes[job] == s.m.refreshes[job]
    {
      TickedJob(s, id, launched, job);
    }
    if Due(s.m, id, s.clock) {
      if Fresh(s.m, session.signer, s.clock) {
        FreshCovers(session.cache, s.m.shared[session.signer], s.clock, s.pace.skew);
      } else {
        assert session.signer in StaleSigners(s.m, s.clock);
      }
    }
  }

  lemma TickSuppliesAll(s: Timed, launched: set<Signer>)
    requires TimedInv(s) && OnTime(s, Tick(s.clock, launched))
    ensures AllSupplied(s.(m := Ticked(s.m, s.clock, launched), lastTick := s.clock))
  {
    var t := s.(m := Ticked(s.m, s.clock, launched), lastTick := s.clock);
    forall id | Attached(t.m, id)
      ensures Supplied(t, id)
    {
      TickSupplies(s, id, launched);
    }
  }

  lemma TickKeepsPunctual(s: Timed, launched: set<Signer>)
    requires Punctual(s)
    ensures Punctual(s.(m := Ticked(s.m, s.clock, launched), lastTick := s.clock))
  {
    var t := Ticked(s.m, s.clock, launched);
    TickedFrame(s.m, s.clock, launched);
    forall job | job in t.refreshes
      ensures t.refreshes[job].startedAt == s.clock ||
              (job in s.m.refreshes && t.refreshes[job] == s.m.refreshes[job] && (Served(t, job) ==> Served(s.m, job)))
    {
      if job in s.m.refreshes && t.refreshes[job] == s.m.refreshes[job] && Served(t, job) {
        var id :| id in t.refreshes[job].members && Attached(t, id);
        assert Attached(s.m, id);
      }
    }
  }

  lemma TickKeepsStocked(s: Timed, launched: set<Signer>)
    requires Stocked(s)
    ensures Stocked(s.(m := Ticked(s.m, s.clock, launched), lastTick := s.clock))
  {
  }

  lemma TickKeepsUnused(s: Timed, launched: set<Signer>)
    requires Unused(s) && Lifecycle(s.m)
    ensures Unused(s.(m := Ticked(s.m, s.clock, launched), lastTick := s.clock))
  {
    forall id | id in s.m.prepares && id in s.m.arena
      ensures !Attached(s.m, id)
    {
      assert LifeOf(s.m, id);
    }
  }

  // ----- A refresh is delivered

  lemma RefreshSupplies(s: Timed, job: JobId, batch: Batch, id: SessionId)
    requires TimedInv(s) && OnTime(s, FinishRefresh(job, batch)) && Attached(s.m, id)
    ensures Supplied(s.(m := Refreshed(s.m, job, batch)), id)
  {
    assert Supplied(s, id);
    if id in s.m.refreshes[job].members {
      assert Served(s.m, job);
      CompleteLast(batch, s.m.refreshes[job].startedAt);
      MergeCovers(s.m.arena[id].cache, batch, s.m.refreshes[job].startedAt, s.clock, s.pace.skew);
    }
  }

  lemma RefreshSuppliesAll(s: Timed, job: JobId, batch: Batch)
    requires TimedInv(s) && OnTime(s, FinishRefresh(job, batch))
    ensures AllSupplied(s.(m := Refreshed(s.m, job, batch)))
  {
    RefreshedFrame(s.m, job, batch);
    forall id | Attached(Refreshed(s.m, job, batch), id)
      ensures Supplied(s.(m := Refreshed(s.m, job, batch)), id)
    {
      assert Attached(s.m, id);
      RefreshSupplies(s, job, batch, id);
    }
  }

  lemma RefreshKeepsPunctual(s: Timed, job: JobId, batch: Batch)
    requires Punctual(s) && job in s.m.refreshes
    ensures Punctual(s.(m := Refreshed(s.m, job, batch)))
  {
    var r := Refreshed(s.m, job, batch);
    RefreshedFrame(s.m, job, batch);
    forall other | other in r.refreshes && Served(r, other)
      ensures Served(s.m, other)
    {
      var id :| id in r.refreshes[other].members && Attached(r, id);
      assert Attached(s.m, id);
    }
  }

  lemma RefreshKeepsStocked(s: Timed, job: JobId, batch: Batch)
    requires Stocked(s) && job in s.m.refreshes && Past(batch, s.clock)
    ensures Stocked(s.(m := Refreshed(s.m, job, batch)))
  {
  }

  lemma RefreshKeepsUnused(s: Timed, job: JobId, batch: Batch)
    requires Unused(s) && JobMembers(s.m) && job in s.m.refreshes
    ensures Unused(s.(m := Refreshed(s.m, job, batch)))
  {
  }

  lemma RefreshKeepsTimedInv(s: Timed, job: JobId, batch: Batch)
    requires TimedInv(s) && OnTime(s, FinishRefresh(job, batch))
    ensures TimedInv(s.(m := Refreshed(s.m, job, batch)))
  {
    RefreshedKeepsInv(s.m, job, batch);
    RefreshSuppliesAll(s, job, batch);
    RefreshKeepsPunctual(s, job, batch);
    RefreshKeepsStocked(s, job, batch);
    RefreshKeepsUnused(s, job, batch);
  }

  // ----- A first batch is delivered

  lemma FirstBatchSupplies(s: Timed, id: SessionId, batch: Batch)
    requires TimedInv(s) && OnTime(s, FinishPrepare(id, batch, None)) && Pending(s.m, id)
    ensures batch.Valid() && Past(batch, s.clock)
    ensures Covers(Merged(map[], batch.signatures), s.clock, s.pace.skew)
    ensures Lasts(Merged(map[], batch.signatures), s.clock + s.pace.tick + s.pace.fetch, s.pace)
  {
    var job := s.m.prepares[id];
    var start :| start <= s.clock && Complete(batch, start) && (job.cached == None ==> job.startedAt <= start);
    CompleteLast(batch, start);
    MergeCovers(map[], batch, start, s.clock, s.pace.skew);
  }

  /** What the delivery of a first batch leaves alone. */
  lemma FinishFrame(m: Manager, id: SessionId, batch: Batch, output: Option<Output>)
    requires id in m.arena
    ensures var f := PrepareFinished(m, id, batch, output);
            && f.arena.Keys == m.arena.Keys && f.refreshes == m.refreshes && f.prepares == m.prepares - {id}
            && forall other :: other in m.arena && other != id ==> f.arena[other] == m.arena[other]
  {
  }

  lemma FinishTables(m: Manager, id: SessionId, batch: Batch, output: Option<Output>)
    requires id in m.arena
    ensures var f := PrepareFinished(m, id, batch, output);
            && (forall key :: key in f.sessions && f.sessions[key] != id ==>
                  key in m.sessions && m.sessions[key] == f.sessions[key])
            && (forall key :: key in f.pending ==> key in m.pending && m.pending[key] == f.pending[key])
  {
  }

  lemma FinishShares(m: Manager, id: SessionId, batch: Batch, output: Option<Output>)
    requires id in m.arena
    ensures PrepareFinished(m, id, batch, output).shared ==
            if Pending(m, id) && batch.Valid() then m.shared[m.arena[id].signer := batch] else m.shared
  {
  }

  lemma FinishKeepsOthers(s: Timed, id: SessionId, batch: Batch, output: Option<Output>, lastTick: int)
    requires TimedInv(s) && OnTime(s, FinishPrepare(id, batch, output))
    requires lastTick == s.lastTick || (lastTick == s.clock && !s.m.timerActive)
    ensures var t := s.(m := PrepareFinished(s.m, id, batch, output), lastTick := lastTick);
            forall other :: other != id && Attached(t.m, other) ==> Attached(s.m, other) && Supplied(t, other)
  {
    var t := s.(m := PrepareFinished(s.m, id, batch, output), lastTick := lastTick);
    FinishFrame(s.m, id, batch, output);
    FinishTables(s.m, id, batch, output);
    forall other | other != id && Attached(t.m, other)
      ensures Attached(s.m, other) && Supplied(t, other)
    {
      assert Attached(s.m, other) && Supplied(s, other);
    }
  }

  lemma FinishSupplies(s: Timed, id: SessionId, batch: Batch, output: Option<Output>, lastTick: int)
    requires TimedInv(s) && OnTime(s, FinishPrepare(id, batch, output))
    requires lastTick <= s.clock
    ensures var t := s.(m := PrepareFinished(s.m, id, batch, output), lastTick := lastTick);
            Attached(t.m, id) ==> Supplied(t, id)
  {
    if Pending(s.m, id) {
      FirstBatchSupplies(s, id, batch);
    }
  }

  lemma FinishKeepsPunctual(s: Timed, id: SessionId, batch: Batch, output: Option<Output>, lastTick: int)
    requires Punctual(s) && Unused(s) && JobMembers(s.m) && id in s.m.arena && id in s.m.prepares
    requires lastTick == if s.m.timerActive then s.lastTick else s.clock
    ensures var t := s.(m := PrepareFinished(s.m, id, batch, output), lastTick := lastTick);
            Punctual(t) && Unused(t)
  {
    var f := PrepareFinished(s.m, id, batch, output);
    FinishFrame(s.m, id, batch, output);
    FinishTables(s.m, id, batch, output);
    forall job | job in f.refreshes && Served(f, job)
      ensures Served(s.m, job)
    {
      var member :| member in f.refreshes[job].members && Attached(f, member);
      assert member != id && Attached(s.m, member);
    }
  }

  lemma FinishKeepsStocked(s: Timed, id: SessionId, batch: Batch, output: Option<Output>, lastTick: int)
    requires Stocked(s) && id in s.m.arena
    requires Pending(s.m, id) && batch.Valid() ==> Past(batch, s.clock)
    ensures Stocked(s.(m := PrepareFinished(s.m, id, batch, output), lastTick := lastTick))
  {
    FinishFrame(s.m, id, batch, output);
    FinishShares(s.m, id, batch, output);
  }

  lemma FinishKeepsTimer(m: Manager, id: SessionId, batch: Batch, output: Option<Output>)
    requires id in m.arena
    ensures m.timerActive ==> PrepareFinished(m, id, batch, output).timerActive
    ensures !m.timerActive && !PrepareFinished(m, id, batch, output).timerActive ==>
              PrepareFinished(m, id, batch, output).sessions == m.sessions
  {
  }

  // ----- The other handlers leave caches and refreshes alone

  ghost predicate Quiet(s: Timed, m: Manager) {
    QuietSessions(s, m) && QuietJobs(s, m)
  }

  /** Only sessions attached before are attached, with the same cache. */
  ghost predicate QuietSessions(s: Timed, m: Manager) {
    && m.refreshes == s.m.refreshes && m.shared == s.m.shared && (m.timerActive ==> s.m.timerActive)
    && forall id :: Attached(m, id) ==>
         Attached(s.m, id) && m.arena[id].cache == s.m.arena[id].cache &&
           m.arena[id].refreshing == s.m.arena[id].refreshing
  }

  /** A first batch that was on its way is the same; a new one starts now. */
  ghost predicate QuietJobs(s: Timed, m: Manager) {
    && (forall id :: id in m.prepares && id in s.m.prepares ==>
          && m.prepares[id] == s.m.prepares[id] && id in m.arena && id in s.m.arena
          && m.arena[id].cache == s.m.arena[id].cache && m.arena[id].refreshing == s.m.arena[id].refreshing
          && (Pending(m, id) ==> Pending(s.m, id)))
    && forall id :: id in m.prepares && id !in s.m.prepares ==>
         && id in m.arena && m.arena[id].cache == map[] && !m.arena[id].refreshing
         && var job := m.prepares[id];
            && job.startedAt == s.clock
            && (job.cached.Some? ==>
                  && m.arena[id].signer in s.m.shared && job.cached.value == s.m.shared[m.arena[id].signer]
                  && Fresh(s.m, m.arena[id].signer, s.clock))
  }

  lemma QuietKeepsSupplied(s: Timed, m: Manager)
    requires AllSupplied(s) && QuietSessions(s, m)
    ensures AllSupplied(s.(m := m))
  {
    forall id | Attached(m, id)
      ensures Supplied(s.(m := m), id)
    {
      assert Supplied(s, id);
    }
  }

  lemma QuietKeepsPunctual(s: Timed, m: Manager)
    requires Punctual(s) && QuietSessions(s, m) && QuietJobs(s, m)
    ensures Punctual(s.(m := m))
  {
    forall job | job in m.refreshes && Served(m, job)
      ensures Served(s.m, job)
    {
      var id :| id in m.refreshes[job].members && Attached(m, id);
      assert Attached(s.m, id);
    }
  }

  lemma QuietKeepsStocked(s: Timed, m: Manager)
    requires Stocked(s) && QuietSessions(s, m) && QuietJobs(s, m)
    ensures Stocked(s.(m := m))
  {
  }

  lemma QuietKeepsUnused(s: Timed, m: Manager)
    requires Unused(s) && QuietJobs(s, m)
    ensures Unused(s.(m := m))
  {
  }

  lemma QuietKeepsTimedInv(s: Timed, m: Manager)
    requires TimedInv(s) && Inv(m) && Quiet(s, m)
    ensures TimedInv(s.(m := m))
  {
    QuietKeepsSupplied(s, m);
    QuietKeepsPunctual(s, m);
    QuietKeepsStocked(s, m);
    QuietKeepsUnused(s, m);
  }

  lemma DropPendingKeepsSessionsQuiet(s: Timed, key: string)
    requires Named(s.m) && Lifecycle(s.m)
    ensures QuietSessions(s, DropPending(s.m, key))
  {
  }

  lemma DropPendingKeepsCaches(m: Manager, key: string)
    requires key in m.pending ==> m.pending[key] in m.arena
    ensures var d := DropPending(m, key);
            && d.prepares == m.prepares && d.arena.Keys == m.arena.Keys
            && forall id :: id in m.arena ==> d.arena[id] == m.arena[id].(cancelled := d.arena[id].cancelled)
  {
  }

  lemma DropPendingKeepsJobsQuiet(s: Timed, key: string)
    requires Named(s.m)
    ensures QuietJobs(s, DropPending(s.m, key))
  {
    DropPendingKeepsCaches(s.m, key);
  }

  lemma DropSessionKeepsTables(m: Manager, key: string)
    requires HasOutput(m, key)
    ensures var d := DropSession(m, key);
            d.sessions == m.sessions - {key} && d.shared == m.shared && (d.timerActive ==> m.timerActive)
  {
    if key !in m.sessions {
      assert DropSession(m, key) == m;
      assert m.sessions - {key} == m.sessions;
    }
  }

  lemma DropSessionKeepsNames(m: Manager, key: string)
    requires HasOutput(m, key)
    ensures var d := DropSession(m, key);
            forall id :: id in m.arena && id in d.arena ==> d.arena[id].name == m.arena[id].name
  {
  }

  lemma DropSessionKeepsSessionsQuiet(s: Timed, key: string)
    requires HasOutput(s.m, key)
    ensures QuietSessions(s, DropSession(s.m, key))
  {
    DropSessionKeepsTables(s.m, key);
    DropSessionKeepsNames(s.m, key);
    DropSessionFrame(s.m, key);
    DropSessionKeepsCaches(s.m, key);
  }

  lemma DropSessionKeepsJobsQuiet(s: Timed, key: string)
    requires Named(s.m) && Lifecycle(s.m)
    ensures QuietJobs(s, DropSession(s.m, key))
  {
  }

  lemma OpenedKeepsSessionsQuiet(s: Timed, key: string, signer: Signer, job: PrepareJob)
    requires Named(s.m) && Lifecycle(s.m) && key !in s.m.sessions
    requires job.startedAt == s.clock
    requires job.cached.Some? ==> Fresh(s.m, signer, s.clock) && job.cached.value == s.m.shared[signer]
    ensures QuietSessions(s, Opened(s.m, key, signer, job))
  {
  }

  lemma OpenedKeepsJobsQuiet(s: Timed, key: string, signer: Signer, job: PrepareJob)
    requires Named(s.m) && Lifecycle(s.m) && key !in s.m.sessions
    requires job.startedAt == s.clock
    requires job.cached.Some? ==> Fresh(s.m, signer, s.clock) && job.cached.value == s.m.shared[signer]
    ensures QuietJobs(s, Opened(s.m, key, signer, job))
  {
  }

  lemma AllDetachedIsQuiet(s: Timed)
    requires Named(s.m) && Lifecycle(s.m)
    ensures Quiet(s, AllDetached(s.m))
  {
  }

  /** The step changes nothing that a refresh depends on. */
  lemma FrameIsQuiet(s: Timed, m: Manager)
    requires Named(s.m) && SameLife(s.m, m) && SameRefreshes(s.m, m) && SameCaches(s.m, m)
    ensures Quiet(s, m)
  {
  }

  lemma ReboundIsQuiet(s: Timed, current: Option<Output>)
    requires Named(s.m) && HasOutput(s.m, MAIN_STREAM_KEY)
    ensures Quiet(s, Rebound(s.m, current))
  {
    if MAIN_STREAM_KEY in s.m.sessions {
      MovedFrame(s.m, Rebound(s.m, current), s.m.sessions[MAIN_STREAM_KEY]);
    }
    FrameIsQuiet(s, Rebound(s.m, current));
  }

  lemma PassedIsQuiet(s: Timed, id: SessionId, frame: Frame, known: bool, stored: bool)
    requires Named(s.m) && id in s.m.arena && Coupled(s.m.arena[id].stream)
    ensures Quiet(s, Passed(s.m, id, frame, known, stored))
  {
    SessionPassedKeeps(s.m.arena[id], frame, known, stored);
    PassedFrame(s.m, id, SessionPassed(s.m.arena[id], frame, known, stored));
    FrameIsQuiet(s, Passed(s.m, id, frame, known, stored));
  }

  lemma DropPendingKeepsTimedInv(s: Timed, key: string)
    requires TimedInv(s)
    ensures TimedInv(s.(m := DropPending(s.m, key)))
  {
    DropPendingKeepsSessionsQuiet(s, key);
    DropPendingKeepsJobsQuiet(s, key);
    DropPendingKeepsInv(s.m, key);
    QuietKeepsTimedInv(s, DropPending(s.m, key));
  }

  lemma DropSessionKeepsTimedInv(s: Timed, key: string)
    requires TimedInv(s)
    ensures TimedInv(s.(m := DropSession(s.m, key)))
  {
    DropSessionKeepsSessionsQuiet(s, key);
    DropSessionKeepsJobsQuiet(s, key);
    DropSessionKeepsInv(s.m, key);
    QuietKeepsTimedInv(s, DropSession(s.m, key));
  }

  lemma DetachKeepsTimedInv(s: Timed, key: string)
    requires TimedInv(s)
    ensures TimedInv(s.(m := Detached(s.m, key)))
  {
    DropPendingKeepsTimedInv(s, key);
    DropSessionKeepsTimedInv(s.(m := DropPending(s.m, key)), key);
  }

  lemma PrepareKeepsTimedInv(s: Timed, request: Request, found: bool)
    requires TimedInv(s)
    ensures TimedInv(s.(m := Prepared(s.m, request, found, s.clock, true)))
  {
    if Admissible(request, found) {
      var key := OutputKey(request.name);
      var d := s.(m := Detached(s.m, key));
      DetachKeepsTimedInv(s, key);
      DetachKeepsInv(s.m, key);
      var atHand := if Fresh(s.m, request.signer, s.clock) then Some(s.m.shared[request.signer]) else None;
      var job := PrepareJob(s.clock, atHand);
      OpenedKeepsSessionsQuiet(d, key, request.signer, job);
      OpenedKeepsJobsQuiet(d, key, request.signer, job);
      PreparedKeepsInv(s.m, request, found, s.clock, true);
      QuietKeepsTimedInv(d, Opened(d.m, key, request.signer, job));
    }
  }

  // ----- Main result

  lemma FinishKeepsTimedInv(s: Timed, id: SessionId, batch: Batch, output: Option<Output>)
    requires TimedInv(s) && OnTime(s, FinishPrepare(id, batch, output))
    ensures TimedInv(Next(s, Do(FinishPrepare(id, batch, output))))
  {
    var n := Next(s, Do(FinishPrepare(id, batch, output)));
    StepKeepsInv(s.m, FinishPrepare(id, batch, output));
    FinishKeepsTimer(s.m, id, batch, output);
    var lastTick := if s.m.timerActive then s.lastTick else s.clock;
    FinishKeepsPunctual(s, id, batch, output, lastTick);
    if Pending(s.m, id) {
      FirstBatchSupplies(s, id, batch);
    }
    FinishKeepsStocked(s, id, batch, output, lastTick);
    FinishKeepsOthers(s, id, batch, output, lastTick);
    FinishSupplies(s, id, batch, output, lastTick);
  }

  /** Apart from ticks, only attaching the first session (re)starts the timer. */
  lemma OtherEventsKeepTimer(s: Timed, e: Event)
    requires TimedInv(s) && OnTime(s, e) && !e.Tick? && !e.FinishPrepare?
    ensures Next(s, Do(e)) == s.(m := Step(s.m, e))
  {
    match e
    case Prepare(request, found, now, launched) => DetachKeepsTimer(s.m, OutputKey(request.name));
    case Detach(key) => DetachKeepsTimer(s.m, key);
    case _ =>
  }

  lemma DetachKeepsTimer(m: Manager, key: string)
    requires HasOutput(m, key) && (key in m.pending ==> m.pending[key] in m.arena)
    ensures Detached(m, key).timerActive ==> m.timerActive
  {
  }

  lemma TickKeepsTimedInv(s: Timed, e: Event)
    requires TimedInv(s) && OnTime(s, e) && e.Tick?
    ensures TimedInv(Next(s, Do(e)))
  {
    TickedKeepsInv(s.m, s.clock, e.started);
    TickSuppliesAll(s, e.started);
    TickKeepsPunctual(s, e.started);
    TickKeepsStocked(s, e.started);
    TickKeepsUnused(s, e.started);
  }

  lemma QuietEventKeepsTimedInv(s: Timed, e: Event)
    requires TimedInv(s) && OnTime(s, e) && !e.Tick? && !e.FinishPrepare?
    ensures TimedInv(Next(s, Do(e)))
  {
    OtherEventsKeepTimer(s, e);
    OtherEventsKeepTimedInv(s, e);
  }

  lemma EventKeepsTimedInv(s: Timed, e: Event)
    ensures TimedInv(s) && OnTime(s, e) ==> TimedInv(Next(s, Do(e)))
  {
    if TimedInv(s) && OnTime(s, e) {
      if e.FinishPrepare? {
        FinishKeepsTimedInv(s, e.id, e.batch, e.output);
      } else if e.Tick? {
        TickKeepsTimedInv(s, e);
      } else {
        QuietEventKeepsTimedInv(s, e);
      }
    }
  }

  /** Every allowed action, of the manager or of time, keeps every attached session supplied. */
  lemma NextKeepsTimedInv(s: Timed, a: Action)
    requires TimedInv(s) && Allowed(s, a)
    ensures TimedInv(Next(s, a))
  {
    if a.Wait? {
      WaitKeepsTimedInv(s);
    } else {
      EventKeepsTimedInv(s, a.event);
    }
  }

  lemma OtherEventsKeepTimedInv(s: Timed, e: Event)
    requires TimedInv(s) && OnTime(s, e) && !e.Tick? && !e.FinishPrepare?
    ensures TimedInv(s.(m := Step(s.m, e)))
  {
    match e
    case Prepare(request, found, now, launched) => PrepareKeepsTimedInv(s, request, found);
    case Detach(key) => DetachKeepsTimedInv(s, key);
    case DetachAll =>
      StepKeepsInv(s.m, e);
      AllDetachedIsQuiet(s);
      QuietKeepsTimedInv(s, AllDetached(s.m));
    case Rebind(current) =>
      StepKeepsInv(s.m, e);
      ReboundIsQuiet(s, current);
      QuietKeepsTimedInv(s, Rebound(s.m, current));
    case Packet(id, frame, known, stored) =>
      StepKeepsInv(s.m, e);
      PassedIsQuiet(s, id, frame, known, stored);
      QuietKeepsTimedInv(s, Passed(s.m, id, frame, known, stored));
    case FinishRefresh(job, fetched) => RefreshKeepsTimedInv(s, job, fetched);
  }

  /** The state after a timed run from an idle manager, or None when an action was not allowed. */
  ghost function RunTimed(pace: Pace, clock: int, actions: seq<Action>): (after: Option<Timed>)
    ensures after.Some? ==> Inv(after.value.m) && after.value.pace == pace
    decreases |actions|
  {
    if actions == [] then Some(Timed(START, clock, clock, pace))
    else
      match RunTimed(pace, clock, actions[..|actions| - 1])
      case None => None
      case Some(before) =>
        var a := actions[|actions| - 1];
        if !Allowed(before, a) then None
        else
          NextKeepsInv(before, a);
          Some(Next(before, a))
  }

  lemma NextKeepsInv(s: Timed, a: Action)
    requires Inv(s.m) && Allowed(s, a)
    ensures Inv(Next(s, a).m) && Next(s, a).pace == s.pace
  {
    if a.Do? {
      StepKeepsInv(s.m, a.event);
    }
  }

  lemma {:induction false} RunKeepsTimedInv(pace: Pace, clock: int, actions: seq<Action>)
    requires Sufficient(pace) && RunTimed(pace, clock, actions).Some?
    ensures TimedInv(RunTimed(pace, clock, actions).value)
    decreases |actions|
  {
    if actions != [] {
      RunKeepsTimedInv(pace, clock, actions[..|actions| - 1]);
      NextKeepsTimedInv(RunTimed(pace, clock, actions[..|actions| - 1]).value, actions[|actions| - 1]);
    }
  }

  /** A clock that is off by no more than the skew finds a signature in the cache of every attached session. */
  ghost predicate NoneLapses(s: Timed) {
    forall id, second ::
      Attached(s.m, id) && Distance(second, s.clock) <= s.pace.skew ==> Near(s.m.arena[id].cache, second).Some?
  }

  /**
   On every timed run at a sufficient pace, at every second, selecting a signature cannot fail. Where
   clocks may be off by a second, the current second itself is cached.
   */
  lemma SelectionNeverFails(pace: Pace, clock: int, actions: seq<Action>)
    requires Sufficient(pace) && RunTimed(pace, clock, actions).Some?
    ensures NoneLapses(RunTimed(pace, clock, actions).value)
    ensures var s := RunTimed(pace, clock, actions).value;
            forall id :: Attached(s.m, id) && pace.skew == 1 ==> Near(s.m.arena[id].cache, s.clock) == Some(s.clock)
  {
    RunKeepsTimedInv(pace, clock, actions);
    var s := RunTimed(pace, clock, actions).value;
    forall id | Attached(s.m, id)
      ensures Covers(s.m.arena[id].cache, s.clock, pace.skew)
    {
      assert Supplied(s, id);
    }
    forall id, second | Attached(s.m, id) && Distance(second, s.clock) <= pace.skew
      ensures Near(s.m.arena[id].cache, second).Some?
    {
      CoveredIsNear(s.m.arena[id].cache, s.clock, pace.skew, second);
    }
  }

  lemma CoveredIsNear(cache: Signatures, clock: int, skew: nat, second: int)
    requires Covers(cache, clock, skew) && Distance(second, clock) <= skew
    ensures Near(cache, second).Some?
  {
    assert LastTimestamp(cache) in cache;
    assert clock in cache || LastTimestamp(cache) == clock - 1;
  }

  ghost predicate IsSigned(session: Session, frame: Frame)
    requires Coupled(session.stream)
  {
    Transform(session.stream, session.signer.config, frame, session.cache).1
    !in {Failed(NoSignature), Failed(CacheExpired)}
  }

  /** No packet that could pass a session now fails for want of a signature. */
  ghost predicate NoneFails(s: Timed)
    requires Inv(s.m)
  {
    forall id, frame: Frame ::
      Attached(s.m, id) && Distance(Seconds(frame.wallMs), s.clock) <= s.pace.skew ==> IsSigned(s.m.arena[id], frame)
  }

  /**
   So no packet that passes a session on such a run, in whatever state its stream is by then, fails for
   want of a signature.
   */
  lemma PacketsAreAlwaysSigned(pace: Pace, clock: int, actions: seq<Action>)
    requires Sufficient(pace) && RunTimed(pace, clock, actions).Some?
    ensures NoneFails(RunTimed(pace, clock, actions).value)
  {
    var s := RunTimed(pace, clock, actions).value;
    SelectionNeverFails(pace, clock, actions);
    forall id, frame: Frame | Attached(s.m, id) && Distance(Seconds(frame.wallMs), s.clock) <= s.pace.skew
      ensures IsSigned(s.m.arena[id], frame)
    {
      assert Near(s.m.arena[id].cache, Seconds(frame.wallMs)).Some?;
      NearIsSigned(s.m.arena[id], frame);
    }
  }

  lemma NearIsSigned(session: Session, frame: Frame)
    requires Coupled(session.stream) && Near(session.cache, Seconds(frame.wallMs)).Some?
    ensures IsSigned(session, frame)
  {
    FailsIffUnsigned(session.stream, session.signer.config, frame, session.cache);
  }

  lemma PrepareFromIdle(request: Request, clock: int)
    requires Admissible(request, true) && Inv(START)
    ensures Prepared(START, request, true, clock, true) ==
            Opened(START, OutputKey(request.name), request.signer, PrepareJob(clock, None))
  {
    assert Detached(START, OutputKey(request.name)) == START;
  }

  lemma RunOfOneMore(pace: Pace, clock: int, actions: seq<Action>, a: Action)
    requires RunTimed(pace, clock, actions).Some? && Allowed(RunTimed(pace, clock, actions).value, a)
    ensures RunTimed(pace, clock, actions + [a]) == Some(Next(RunTimed(pace, clock, actions).value, a))
  {
    assert (actions + [a])[..|actions|] == actions;
  }

  /** At any time and pace, any admissible request can be brought to an attached session by an allowed run. */
  lemma AnyRequestCanAttach(pace: Pace, clock: int, request: Request, batch: Batch, output: Output)
    requires Admissible(request, true) && Complete(batch, clock)
    ensures var actions := [Do(Prepare(request, true, clock, true))] + [Do(FinishPrepare(0, batch, Some(output)))];
            var waiting := Opened(START, OutputKey(request.name), request.signer, PrepareJob(clock, None));
            && Pending(waiting, 0) && batch.Valid()
            && RunTimed(pace, clock, actions) ==
               Some(Timed(PrepareFinished(waiting, 0, batch, Some(output)), clock, clock, pace))
            && Attached(RunTimed(pace, clock, actions).value.m, 0)
  {
    var prepare, finish := Do(Prepare(request, true, clock, true)), Do(FinishPrepare(0, batch, Some(output)));
    var idle := Timed(START, clock, clock, pace);
    assert RunTimed(pace, clock, []) == Some(idle);
    PrepareFromIdle(request, clock);
    RunOfOneMore(pace, clock, [], prepare);
    assert [] + [prepare] == [prepare];
    var waiting := RunTimed(pace, clock, [prepare]).value;
    assert waiting.m == Opened(START, OutputKey(request.name), request.signer, PrepareJob(clock, None));
    assert waiting.m.prepares[0].cached == None && Allowed(waiting, finish);
    RunOfOneMore(pace, clock, [prepare], finish);
    CompleteLast(batch, clock);
    ArrivalAttaches(waiting.m, 0, batch, output);
  }
}
