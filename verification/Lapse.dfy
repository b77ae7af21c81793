/** At every pace that is not sufficient, some packet finds no signature: the pace of NoLapse is exact. */
module Lapse {
  import opened Common
  import opened SeiCodec
  import opened SignatureCache
  import opened StreamModel
  import opened SigningModel
  import opened SigningInvariant
  import opened NoLapse

  const SIGN := FrameSignResult("2", "1", "i", "v", "1.0")
  const REQUEST := Request("Main", true, true, Signer("u", "k", SeiConfig("1", "1", "1", "1")))
  const UNUSED := Session("Main", REQUEST.signer, map[], None, false, false, FRESH, false)

  /** A signature for each of the seconds from 0 to n. */
  function Filled(n: nat): (signatures: Signatures)
    ensures forall t :: t in signatures <==> 0 <= t < n
    ensures forall t :: t in signatures ==> signatures[t] == SIGN
  {
    if n == 0 then map[] else Filled(n - 1)[n - 1 := SIGN]
  }

  /** The five minutes fetched at second 0. */
  function FirstBatch(): Batch {
    Batch(Filled(BATCH_SECONDS), false)
  }

  lemma FirstBatchIsComplete()
    ensures Complete(FirstBatch(), 0) && FirstBatch().Valid() && LastTimestamp(FirstBatch().signatures) == 299
    ensures REQUEST.signer.config.Complete() && Admissible(REQUEST, true) && OutputKey(REQUEST.name) == "Main"
  {
    assert TrimLeft("1") == "1" && TrimRight("1") == "1";
    assert TrimLeft("Main") == "Main" && TrimRight("Main") == "Main";
    CompleteLast(FirstBatch(), 0);
  }

  /** Supplied up to second 299, and not from before second 0. */
  ghost predicate FirstFive(cache: Signatures) {
    LastTimestamp(cache) == 299 && cache != map[] && forall t :: t in cache ==> 0 <= t
  }

  lemma FirstCache()
    ensures FirstFive(Merged(map[], FirstBatch().signatures))
  {
    FirstBatchIsComplete();
    MergeCovers(map[], FirstBatch(), 0, 0, 0);
    MergeIsMonotone(map[], FirstBatch().signatures);
  }

  /** Nothing but one attached session, that has cached the first batch and passed no packet. */
  ghost predicate Alone(m: Manager, id: SessionId) {
    && Attached(m, id) && m.sessions.Keys == {"Main"} && m.timerActive && m.nextId == id + 1
    && m.arena[id].signer == REQUEST.signer && m.arena[id].stream == FRESH && FirstFive(m.arena[id].cache)
    && REQUEST.signer in m.shared && m.shared[REQUEST.signer] == FirstBatch()
    && m.prepares == map[] && (!m.arena[id].refreshing ==> m.refreshes == map[])
  }

  ghost predicate AloneIdle(m: Manager, id: SessionId) {
    Alone(m, id) && !m.arena[id].refreshing
  }

  /** Every refresh in flight was started at the given second. */
  ghost predicate Since(m: Manager, start: int) {
    forall job :: job in m.refreshes ==> m.refreshes[job].startedAt == start
  }

  // ----- Runs

  /** The run leads from an idle manager at second 0 to the given state. */
  ghost predicate LeadsTo(actions: seq<Action>, s: Timed) {
    RunTimed(s.pace, 0, actions) == Some(s)
  }

  lemma LeadsToInv(actions: seq<Action>, s: Timed)
    requires LeadsTo(actions, s)
    ensures Inv(s.m)
  {
  }

  lemma OneMore(actions: seq<Action>, s: Timed, a: Action)
    requires LeadsTo(actions, s) && Inv(s.m) && Allowed(s, a)
    ensures LeadsTo(actions + [a], Next(s, a))
  {
    RunOfOneMore(s.pace, 0, actions, a);
    NextKeepsInv(s, a);
  }

  /** Nothing is overdue within n seconds. */
  ghost predicate Patient(s: Timed, n: nat) {
    && (s.m.timerActive ==> s.clock + n <= s.lastTick + s.pace.tick)
    && (forall id :: id in s.m.prepares && Pending(s.m, id) ==>
          s.clock + n <= s.m.prepares[id].startedAt + Patience(s.m.prepares[id], s.pace))
    && (forall job :: job in s.m.refreshes ==> s.clock + n <= s.m.refreshes[job].startedAt + s.pace.fetch)
  }

  lemma WaitOnce(actions: seq<Action>, s: Timed) returns (longer: seq<Action>)
    requires LeadsTo(actions, s) && Patient(s, 1)
    ensures LeadsTo(longer, s.(clock := s.clock + 1))
  {
    LeadsToInv(actions, s);
    OneMore(actions, s, Wait);
    longer := actions + [Wait];
  }

  /** No handler runs for n seconds. */
  lemma {:induction false} Waits(actions: seq<Action>, s: Timed, n: nat) returns (longer: seq<Action>, t: Timed)
    requires LeadsTo(actions, s) && Patient(s, n)
    ensures LeadsTo(longer, t) && t.m == s.m
    ensures t.clock == s.clock + n && t.lastTick == s.lastTick && t.pace == s.pace
    decreases n
  {
    longer, t := actions, s;
    if n > 0 {
      longer := WaitOnce(actions, s);
      longer, t := Waits(longer, s.(clock := s.clock + 1), n - 1);
    }
  }

  lemma NothingDue(m: Manager, id: SessionId, now: int)
    requires Alone(m, id) && (now <= 238 || m.arena[id].refreshing)
    ensures forall other :: !Due(m, other, now)
  {
    forall other
      ensures !Due(m, other, now)
    {
      assert Attached(m, other) ==> other == m.sessions["Main"] == id;
    }
  }

  /** A tick finds nothing to do: the session has more than a minute left, or is being refreshed. */
  lemma IdleTick(m: Manager, id: SessionId, now: int)
    requires Alone(m, id) && (now <= 238 || m.arena[id].refreshing)
    ensures StaleSigners(m, now) == {} && Ticked(m, now, {}) == m.(ticks := m.ticks + 1)
  {
    NothingDue(m, id, now);
    NothingTicks(m, now);
  }

  lemma NothingTicks(m: Manager, now: int)
    requires forall id :: !Due(m, id, now)
    ensures StaleSigners(m, now) == {} && Ticked(m, now, {}) == m.(ticks := m.ticks + 1)
  {
    assert LaunchedJobs(m, now, {}) == map[];
    assert Ticked(m, now, {}).arena == m.arena;
  }

  lemma IdleTickNext(s: Timed, id: SessionId)
    requires Inv(s.m) && Alone(s.m, id) && (s.clock <= 238 || s.m.arena[id].refreshing)
    ensures Allowed(s, Do(Tick(s.clock, {})))
    ensures Next(s, Do(Tick(s.clock, {}))) == s.(m := s.m.(ticks := s.m.ticks + 1), lastTick := s.clock)
  {
    IdleTick(s.m, id, s.clock);
  }

  lemma TickWithoutEffect(actions: seq<Action>, s: Timed, id: SessionId) returns (longer: seq<Action>, t: Timed)
    requires LeadsTo(actions, s) && Alone(s.m, id) && (s.clock <= 238 || s.m.arena[id].refreshing)
    ensures t == s.(m := s.m.(ticks := s.m.ticks + 1), lastTick := s.clock) && LeadsTo(longer, t)
  {
    LeadsToInv(actions, s);
    IdleTickNext(s, id);
    OneMore(actions, s, Do(Tick(s.clock, {})));
    longer, t := actions + [Do(Tick(s.clock, {}))], Next(s, Do(Tick(s.clock, {})));
  }

  /** A tick each second does nothing for n seconds. */
  ghost predicate Steady(s: Timed, id: SessionId, start: int, n: nat) {
    && Alone(s.m, id) && Since(s.m, start) && s.lastTick <= s.clock
    && if s.m.arena[id].refreshing then s.clock + n <= start + s.pace.fetch else s.clock + n <= 239
  }

  lemma {:induction false} Beats(actions: seq<Action>, s: Timed, id: SessionId, start: int, n: nat)
    returns (longer: seq<Action>, t: Timed)
    requires s.pace.tick > 0 && LeadsTo(actions, s) && Steady(s, id, start, n)
    ensures LeadsTo(longer, t) && Alone(t.m, id) && t.m == s.m.(ticks := t.m.ticks)
    ensures t.clock == s.clock + n && s.lastTick <= t.lastTick <= t.clock && t.pace == s.pace
    decreases n
  {
    longer, t := actions, s;
    if n > 0 {
      var ticked, u := TickWithoutEffect(actions, s, id);
      var waited := WaitOnce(ticked, u);
      assert Steady(u.(clock := u.clock + 1), id, start, n - 1);
      longer, t := Beats(waited, u.(clock := u.clock + 1), id, start, n - 1);
    }
  }

  // ----- A refresh that comes too late

  lemma LateTickNext(s: Timed, id: SessionId)
    requires Inv(s.m) && AloneIdle(s.m, id) && s.clock >= 239
    ensures var tick := Do(Tick(s.clock, StaleSigners(s.m, s.clock)));
            && Allowed(s, tick)
            && var t := Next(s, tick);
               && Alone(t.m, id) && t.m.arena[id].refreshing && Since(t.m, s.clock)
               && t.clock == t.lastTick == s.clock && t.pace == s.pace
  {
    FirstBatchIsComplete();
    assert Stale(s.m, id, s.clock);
    assert REQUEST.signer in StaleSigners(s.m, s.clock);
  }

  /** The tick that finds the session due, with no batch at hand that would do. */
  lemma LateTick(actions: seq<Action>, s: Timed, id: SessionId) returns (longer: seq<Action>, t: Timed)
    requires LeadsTo(actions, s) && AloneIdle(s.m, id) && s.clock >= 239
    ensures LeadsTo(longer, t) && Alone(t.m, id) && t.m.arena[id].refreshing && Since(t.m, s.clock)
    ensures t.clock == t.lastTick == s.clock && t.pace == s.pace
  {
    LeadsToInv(actions, s);
    LateTickNext(s, id);
    var tick := Do(Tick(s.clock, StaleSigners(s.m, s.clock)));
    OneMore(actions, s, tick);
    longer, t := actions + [tick], Next(s, tick);
  }

  /** From its last idle second, the session reaches a given one without being refreshed. */
  lemma RunsDry(actions: seq<Action>, s: Timed, id: SessionId, end: int) returns (longer: seq<Action>, t: Timed)
    requires LeadsTo(actions, s) && AloneIdle(s.m, id) && s.lastTick == s.clock <= end
    requires s.pace.tick > 0 && 239 <= s.clock + s.pace.tick && end <= s.clock + s.pace.tick + s.pace.fetch
    ensures LeadsTo(longer, t) && Alone(t.m, id) && t.clock == end && t.pace == s.pace
  {
    if end <= s.clock + s.pace.tick {
      longer, t := Waits(actions, s, end - s.clock);
    } else {
      longer, t := Waits(actions, s, s.pace.tick);
      longer, t := LateTick(longer, t, id);
      longer, t := Beats(longer, t, id, t.clock, end - t.clock);
    }
  }

  // ----- Getting the session attached

  /** Only a new session is there, and its first batch is on its way. */
  ghost predicate Expected(m: Manager, id: SessionId, job: PrepareJob) {
    && m.sessions == map[] && Pending(m, id) && m.arena[id] == UNUSED && m.nextId == id + 1 && !m.timerActive
    && m.prepares == map[id := job] && m.refreshes == map[]
  }

  lemma DeliveredAlone(m: Manager, id: SessionId, job: PrepareJob)
    requires Expected(m, id, job)
    ensures var f := PrepareFinished(m, id, FirstBatch(), Some(0));
            AloneIdle(f, id) && f.timerActive
  {
    FirstBatchIsComplete();
    FirstCache();
  }

  lemma Delivered(actions: seq<Action>, s: Timed, id: SessionId, job: PrepareJob)
    returns (longer: seq<Action>, t: Timed)
    requires LeadsTo(actions, s) && Expected(s.m, id, job)
    requires if job.cached == None then job.startedAt == 0 <= s.clock else job.cached == Some(FirstBatch())
    ensures LeadsTo(longer, t) && AloneIdle(t.m, id)
    ensures t.clock == t.lastTick == s.clock && t.pace == s.pace
  {
    LeadsToInv(actions, s);
    FirstBatchIsComplete();
    DeliveredAlone(s.m, id, job);
    var finish := Do(FinishPrepare(id, FirstBatch(), Some(0)));
    OneMore(actions, s, finish);
    longer, t := actions + [finish], Next(s, finish);
  }

  /** The session attached at second 0. */
  lemma AttachedAtStart(pace: Pace) returns (actions: seq<Action>, s: Timed)
    ensures LeadsTo(actions, s) && AloneIdle(s.m, 0) && s.clock == s.lastTick == 0 && s.pace == pace
  {
    FirstBatchIsComplete();
    var idle := Timed(START, 0, 0, pace);
    assert LeadsTo([], idle);
    LeadsToInv([], idle);
    PrepareFromIdle(REQUEST, 0);
    var prepare := Do(Prepare(REQUEST, true, 0, true));
    OneMore([], idle, prepare);
    actions, s := Delivered([] + [prepare], Next(idle, prepare), 0, PrepareJob(0, None));
  }

  lemma DetachedAlone(m: Manager)
    requires Named(m) && Lifecycle(m) && AloneIdle(m, 0)
    ensures HasOutput(m, "Main") && "Main" !in m.pending
    ensures var d := Detached(m, "Main");
            && d.sessions == map[] && d.pending == m.pending && d.nextId == 1 && !d.timerActive
            && d.prepares == map[] && d.refreshes == map[] && d.shared == m.shared
  {
    assert m.arena[0].name == "Main" && LifeOf(m, 0);
  }

  /** Preparing again at second 209, the last at which the first batch is fresh. */
  lemma ReopenedAt209(m: Manager)
    requires Inv(m) && AloneIdle(m, 0)
    ensures var r := Prepared(m, REQUEST, true, 209, true);
            Expected(r, 1, PrepareJob(209, Some(FirstBatch())))
  {
    FirstBatchIsComplete();
    DetachedAlone(m);
    assert Fresh(m, REQUEST.signer, 209);
  }

  lemma Reopened(actions: seq<Action>, s: Timed) returns (longer: seq<Action>, t: Timed)
    requires LeadsTo(actions, s) && AloneIdle(s.m, 0) && s.clock == 209
    ensures LeadsTo(longer, t) && Expected(t.m, 1, PrepareJob(209, Some(FirstBatch())))
    ensures t.clock == 209 && t.pace == s.pace
  {
    LeadsToInv(actions, s);
    ReopenedAt209(s.m);
    var prepare := Do(Prepare(REQUEST, true, 209, true));
    OneMore(actions, s, prepare);
    longer, t := actions + [prepare], Next(s, prepare);
  }

  // ----- The packet that finds no signature

  function FrameAt(second: int): Frame {
    Frame(H264, [0, 0, 1], 0, 1, 1, 1000 * second)
  }

  lemma FindsNothing(session: Session, second: int)
    requires session.signer == REQUEST.signer && session.stream == FRESH && FirstFive(session.cache)
    requires second >= 301 || second <= -2
    ensures Seconds(FrameAt(second).wallMs) == second
    ensures Transform(session.stream, session.signer.config, FrameAt(second), session.cache).1 == Failed(NoSignature)
  {
    FirstBatchIsComplete();
    CatchUpBound(FRESH, 0);
  }

  lemma SomeFails(s: Timed, id: SessionId, second: int)
    requires Inv(s.m) && Alone(s.m, id) && Distance(second, s.clock) <= s.pace.skew && (second >= 301 || second <= -2)
    ensures !NoneFails(s)
  {
    FindsNothing(s.m.arena[id], second);
    assert !IsSigned(s.m.arena[id], FrameAt(second));
  }

  // ----- Main results

  /** Ticks and fetches take too long: the session is attached and idle until the tick at second 238. */
  lemma SlowTicksFail(pace: Pace) returns (actions: seq<Action>, t: Timed)
    requires pace.tick > 0 && pace.skew <= 1 && pace.tick + pace.fetch + pace.skew > 62
    ensures LeadsTo(actions, t) && t.pace == pace && Alone(t.m, 0) && t.clock == 301 - pace.skew
  {
    actions, t := AttachedAtStart(pace);
    actions, t := Beats(actions, t, 0, 0, 238);
    actions, t := TickWithoutEffect(actions, t, 0);
    actions, t := RunsDry(actions, t, 0, 301 - pace.skew);
  }

  /** A batch that is just fresh at second 209 is queued for a new session. */
  lemma QueuedAt209(pace: Pace) returns (actions: seq<Action>, t: Timed)
    requires pace.tick > 0
    ensures LeadsTo(actions, t) && Expected(t.m, 1, PrepareJob(209, Some(FirstBatch())))
    ensures t.clock == 209 && t.pace == pace
  {
    actions, t := AttachedAtStart(pace);
    actions, t := Beats(actions, t, 0, 0, 209);
    actions, t := Reopened(actions, t);
  }

  /** It is handled some time later. */
  lemma HandledLate(pace: Pace, queued: nat) returns (actions: seq<Action>, t: Timed)
    requires pace.tick > 0 && queued <= pace.queue
    ensures LeadsTo(actions, t) && t.pace == pace && AloneIdle(t.m, 1) && t.clock == t.lastTick == 209 + queued
  {
    actions, t := QueuedAt209(pace);
    actions, t := Waits(actions, t, queued);
    actions, t := Delivered(actions, t, 1, PrepareJob(209, Some(FirstBatch())));
  }

  /** What is queued waits too long: the new session is attached with too little left. */
  lemma SlowQueueFails(pace: Pace) returns (actions: seq<Action>, t: Timed)
    requires pace.tick > 0 && pace.skew <= 1 && pace.tick + pace.fetch + pace.skew <= 62
    requires pace.queue + pace.tick + pace.fetch + pace.skew > 91
    ensures LeadsTo(actions, t) && t.pace == pace && Alone(t.m, 1) && t.clock == 301 - pace.skew
  {
    actions, t := HandledLate(pace, if pace.queue < 92 - pace.skew then pace.queue else 92 - pace.skew);
    actions, t := RunsDry(actions, t, 1, 301 - pace.skew);
  }

  /** At a pace that is not sufficient, some run reaches a second at which some packet finds no signature. */
  lemma InsufficientPaceFails(pace: Pace) returns (actions: seq<Action>)
    requires pace.tick > 0 && !Sufficient(pace)
    ensures RunTimed(pace, 0, actions).Some? && !NoneFails(RunTimed(pace, 0, actions).value)
  {
    var t;
    if pace.skew > 1 {
      actions, t := AttachedAtStart(pace);
      LeadsToInv(actions, t);
      SomeFails(t, 0, -2);
    } else if pace.tick + pace.fetch + pace.skew > 62 {
      actions, t := SlowTicksFail(pace);
      LeadsToInv(actions, t);
      SomeFails(t, 0, 301);
    } else {
      actions, t := SlowQueueFails(pace);
      LeadsToInv(actions, t);
      SomeFails(t, 1, 301);
    }
  }

  /**
   The sufficient paces are exactly those at which no packet, on any run and by any clock off by no more
   than the skew, fails for want of a signature.
   */
  lemma NoneFailsIff(pace: Pace)
    requires pace.tick > 0
    ensures (forall clock, actions :: RunTimed(pace, clock, actions).Some? ==>
               NoneFails(RunTimed(pace, clock, actions).value))
            <==> Sufficient(pace)
  {
    if Sufficient(pace) {
      forall clock, actions | RunTimed(pace, clock, actions).Some?
        ensures NoneFails(RunTimed(pace, clock, actions).value)
      {
        PacketsAreAlwaysSigned(pace, clock, actions);
      }
    } else {
      var actions := InsufficientPaceFails(pace);
      assert RunTimed(pace, 0, actions).Some?;
    }
  }
}
