/** The output signing manager, handler by handler, proved to take the steps of SigningModel. */
module SigningManager {
  import opened Common
  import opened SignatureCache
  import opened StreamModel
  import opened SigningModel
  import opened SigningInvariant

  class OutputSigningManager {
    var sessions: map<string, SessionId>
    var pending: map<string, SessionId>
    var sharedBatches: map<Signer, Batch>
    /** The session objects, by identity. */
    var arena: map<SessionId, Session>
    var prepares: map<SessionId, PrepareJob>
    var refreshes: map<JobId, RefreshJob>
    var timerActive: bool
    var nextId: SessionId
    var ticks: nat

    ghost var holds: multiset<(Output, SessionId)>
    ghost var callbacks: multiset<(Output, SessionId)>
    ghost var issued: set<(Signer, int, FrameSignResult)>

    ghost function View(): Manager
      reads this
    {
      Manager(sessions, pending, sharedBatches, arena, prepares, refreshes, timerActive, holds, callbacks, issued,
              nextId, ticks)
    }

    ghost predicate Valid()
      reads this
    {
      Inv(View()) && Normal(arena)
    }

    constructor ()
      ensures Valid() && View() == START
    {
      sessions, pending, sharedBatches, arena := map[], map[], map[], map[];
      prepares, refreshes, timerActive, nextId, ticks := map[], map[], false, 0, 0;
      holds, callbacks, issued := multiset{}, multiset{}, {};
    }

    // ----- What OBS provides; nothing is given back that is not held

    method AddPacketCallback(output: Output, id: SessionId)
      modifies `callbacks
      ensures callbacks == old(callbacks) + multiset{(output, id)}
    {
      callbacks := callbacks + multiset{(output, id)};
    }

    method RemovePacketCallback(output: Output, id: SessionId)
      requires (output, id) in callbacks
      modifies `callbacks
      ensures callbacks == old(callbacks) - multiset{(output, id)}
    {
      callbacks := callbacks - multiset{(output, id)};
    }

    /** A found output comes with a reference, held on behalf of a session. */
    method FindOutput(found: Option<Output>, id: SessionId) returns (output: Option<Output>)
      modifies `holds
      ensures output == found
      ensures holds == if found.Some? then old(holds) + multiset{(found.value, id)} else old(holds)
    {
      output := found;
      if found.Some? {
        holds := holds + multiset{(found.value, id)};
      }
    }

    method ReleaseOutput(output: Output, id: SessionId)
      requires (output, id) in holds
      modifies `holds
      ensures holds == old(holds) - multiset{(output, id)}
    {
      holds := holds - multiset{(output, id)};
    }

    // ----- Attaching

    /**
     Starts a first fetch, or schedules the delivery of a fresh batch already at hand. The completion
     is called at once, with false, exactly when neither happens.
     */
    method PrepareAndAttach(request: Request, probe: Option<Output>, now: int, workerStarts: bool)
      returns (completed: Option<bool>)
      requires Valid()
      modifies this
      ensures Valid() && View() == Prepared(old(View()), request, probe.Some?, now, workerStarts)
      ensures completed ==
              if Admissible(request, probe.Some?) && (Fresh(old(View()), request.signer, now) || workerStarts) then None
              else Some(false)
    {
      ghost var m, key := View(), OutputKey(request.name);
      PreparedKeepsInv(m, request, probe.Some?, now, workerStarts);
      PreparedKeepsNormal(m, request, probe.Some?, now, workerStarts);
      HoldsItsOutput(m, key);
      DetachKeepsInv(m, key);
      DetachKeepsShared(m, key);
      var admitted := Admit(request, probe);
      if !admitted {
        return Some(false);
      }
      completed := Supersede(OutputKey(request.name), request.signer, now, workerStarts);
    }

    /** Detaches what a name stood for, and opens a new session under it. */
    method Supersede(key: string, signer: Signer, now: int, workerStarts: bool) returns (completed: Option<bool>)
      requires HoldsOutput(View(), key) && (key in pending ==> pending[key] in arena)
      requires var d := Detached(View(), key);
               key !in d.pending && d.nextId !in d.arena
      modifies this
      ensures var d := Detached(old(View()), key);
              View() == if Fresh(d, signer, now) then Opened(d, key, signer, PrepareJob(now, Some(d.shared[signer])))
                        else if workerStarts then Opened(d, key, signer, PrepareJob(now, None)) else d
      ensures completed == if Fresh(Detached(old(View()), key), signer, now) || workerStarts then None else Some(false)
    {
      DetachKey(key);
      completed := OpenSession(key, signer, now, workerStarts);
    }

    /** The checks made before anything changes; the output is only probed. */
    method Admit(request: Request, probe: Option<Output>) returns (admitted: bool)
      modifies `holds
      ensures admitted == Admissible(request, probe.Some?) && holds == old(holds)
    {
      if !request.serviceValid {
        return false;
      }
      if !request.signer.config.Complete() {
        return false;
      }
      if !request.obsReady {
        return false;
      }
      var found := FindOutput(probe, nextId);
      if found == None {
        return false;
      }
      ReleaseOutput(found.value, nextId);
      admitted := true;
    }

    method OpenSession(key: string, signer: Signer, now: int, workerStarts: bool) returns (completed: Option<bool>)
      requires key !in pending && nextId !in arena
      modifies `arena, `pending, `prepares, `nextId
      ensures var m := old(View());
              View() == if Fresh(m, signer, now) then Opened(m, key, signer, PrepareJob(now, Some(m.shared[signer])))
                        else if workerStarts then Opened(m, key, signer, PrepareJob(now, None)) else m
      ensures completed == if Fresh(old(View()), signer, now) || workerStarts then None else Some(false)
    {
      var id := AddPending(key, signer);
      var atHand := false;
      if signer in sharedBatches {
        atHand := BatchIsFresh(sharedBatches[signer], now);
      }
      if atHand {
        prepares := prepares[id := PrepareJob(now, Some(sharedBatches[signer]))];
        return None;
      }
      if workerStarts {
        prepares := prepares[id := PrepareJob(now, None)];
        return None;
      }
      DropLast(key, id, old(View()));
      completed := Some(false);
    }

    method AddPending(key: string, signer: Signer) returns (id: SessionId)
      modifies `arena, `pending, `nextId
      ensures id == old(nextId)
      ensures var session := Session(key, signer, map[], None, false, false, FRESH, false);
              View() == old(View()).(arena := old(arena)[id := session], pending := old(pending)[key := id],
                                     nextId := id + 1)
    {
      id := nextId;
      arena := arena[id := Session(key, signer, map[], None, false, false, FRESH, false)];
      pending := pending[key := id];
      nextId := nextId + 1;
    }

    /** The session just added is dropped again. */
    method DropLast(key: string, id: SessionId, ghost before: Manager)
      requires key in pending && id in arena && id == before.nextId
      requires key !in before.pending && id !in before.arena
      requires View() == before.(arena := before.arena[id := arena[id]], pending := before.pending[key := id],
                                 nextId := id + 1)
      modifies `arena, `pending, `nextId
      ensures View() == before
    {
      pending := pending - {key};
      arena := arena - {id};
      nextId := id;
      assert pending == before.pending && arena == before.arena;
    }

    method BatchIsFresh(batch: Batch, now: int) returns (ok: bool)
      ensures ok <==> batch.Valid() && LastTimestamp(batch.signatures) >= now + FRESH_SECONDS
    {
      ok := false;
      if batch.Valid() {
        var last := LastOf(batch.signatures);
        ok := last >= now + FRESH_SECONDS;
      }
    }

    /** A job has delivered; its session stops waiting if it is still the one that waits. */
    method TakeArrival(id: SessionId, batch: Batch) returns (current: bool)
      requires id in arena
      modifies `prepares, `pending, `issued
      ensures View() == Arrived(old(View()), id, batch)
      ensures current == Pending(old(View()), id)
    {
      prepares := prepares - {id};
      var session := arena[id];
      issued := issued + Issues(session.signer, batch.signatures);
      current := session.name in pending && pending[session.name] == id;
      if current {
        pending := pending - {session.name};
      }
    }

    method Attach(id: SessionId, batch: Batch, output: Output)
      requires id in arena
      modifies `arena, `sessions, `callbacks, `timerActive
      ensures View() == AttachedTo(old(View()), id, batch, output).(holds := old(holds))
    {
      var session := arena[id];
      session := session.(cache := Merged(session.cache, batch.signatures), output := Some(output));
      AddPacketCallback(output, id);
      arena := arena[id := session];
      sessions := sessions[session.name := id];
      if !timerActive {
        timerActive := true;
      }
      ghost var target := AttachedTo(old(View()), id, batch, output);
      assert arena == target.arena && sessions == target.sessions && callbacks == target.callbacks;
    }

    /** The completion is called unless something has replaced the session, and says whether it was attached. */
    method FinishInitialPrepare(id: SessionId, batch: Batch, found: Option<Output>) returns (completed: Option<bool>)
      requires Valid() && Enabled(View(), FinishPrepare(id, batch, found))
      modifies this
      ensures Valid() && View() == PrepareFinished(old(View()), id, batch, found)
      ensures completed == if Pending(old(View()), id) then Some(batch.Valid() && found.Some?) else None
    {
      PrepareFinishedKeepsInv(View(), id, batch, found);
      FinishKeepsNormal(View(), id, batch, found);
      completed := Finish(id, batch, found);
    }

    method Finish(id: SessionId, batch: Batch, found: Option<Output>) returns (completed: Option<bool>)
      requires id in arena
      modifies this
      ensures View() == PrepareFinished(old(View()), id, batch, found)
      ensures completed == if Pending(old(View()), id) then Some(batch.Valid() && found.Some?) else None
    {
      var current := TakeArrival(id, batch);
      if !current {
        return None;
      }
      if !batch.Valid() {
        return Some(false);
      }
      ghost var arrived := View();
      sharedBatches := sharedBatches[arena[id].signer := batch];
      ghost var learned := Learned(arrived, arena[id].signer, batch);
      assert View() == learned;
      var output := FindOutput(found, id);
      if output == None {
        return Some(false);
      }
      Attach(id, batch, output.value);
      assert View() == AttachedTo(learned, id, batch, output.value);
      completed := Some(true);
    }

    // ----- Detaching

    method CancelPending(key: string)
      requires key in pending ==> pending[key] in arena
      modifies `arena, `pending
      ensures View() == DropPending(old(View()), key)
    {
      if key in pending {
        var id := pending[key];
        arena := arena[id := arena[id].(cancelled := true)];
        pending := pending - {key};
      }
    }

    method DetachSession(key: string)
      requires HoldsOutput(View(), key)
      modifies `sessions, `arena, `holds, `callbacks, `timerActive
      ensures View() == DropSession(old(View()), key)
    {
      if key in sessions {
        ghost var target := DropSession(View(), key);
        DropHeld(key, sessions[key]);
        assert arena == target.arena && holds == target.holds && callbacks == target.callbacks;
      }
    }

    method DropHeld(key: string, id: SessionId)
      requires key in sessions && id in arena && arena[id].output.Some?
      requires (arena[id].output.value, id) in holds && (arena[id].output.value, id) in callbacks
      modifies `sessions, `arena, `holds, `callbacks, `timerActive
      ensures sessions == old(sessions) - {key} && timerActive == (old(timerActive) && sessions != map[])
      ensures arena == old(arena)[id := old(arena)[id].(cancelled := true, output := None)]
      ensures holds == old(holds) - multiset{(old(arena)[id].output.value, id)}
      ensures callbacks == old(callbacks) - multiset{(old(arena)[id].output.value, id)}
    {
      GiveBack(id);
      sessions := sessions - {key};
      timerActive := timerActive && sessions != map[];
    }

    /** The session is cancelled, and its callback and reference are given back. */
    method GiveBack(id: SessionId)
      requires id in arena && arena[id].output.Some?
      requires (arena[id].output.value, id) in holds && (arena[id].output.value, id) in callbacks
      modifies `arena, `holds, `callbacks
      ensures arena == old(arena)[id := old(arena)[id].(cancelled := true, output := None)]
      ensures holds == old(holds) - multiset{(old(arena)[id].output.value, id)}
      ensures callbacks == old(callbacks) - multiset{(old(arena)[id].output.value, id)}
    {
      var output := arena[id].output.value;
      arena := arena[id := arena[id].(cancelled := true)];
      RemovePacketCallback(output, id);
      ReleaseOutput(output, id);
      arena := arena[id := arena[id].(output := None)];
    }

    /** Whatever is pending or attached under a name goes, with all that it holds. */
    method Detach(name: string)
      requires Valid()
      modifies this
      ensures Valid() && View() == Detached(old(View()), OutputKey(name))
    {
      ghost var m, key := View(), OutputKey(name);
      DetachKeepsInv(m, key);
      DetachKeepsNormal(m, key);
      HoldsItsOutput(m, key);
      DetachKey(OutputKey(name));
    }

    method DetachKey(key: string)
      requires HoldsOutput(View(), key) && (key in pending ==> pending[key] in arena)
      modifies this
      ensures View() == Detached(old(View()), key)
    {
      DropPendingHolds(View(), key);
      CancelPending(key);
      DetachSession(key);
    }

    /** Every session is cancelled, and every callback and reference is given back, one by one. */
    method DetachAll()
      requires Valid()
      modifies this
      ensures Valid() && View() == AllDetached(old(View()))
      ensures holds == callbacks == multiset{}
    {
      ghost var m := View();
      AllDetachedKeepsInv(m);
      PendingCancelledKeeps(m);
      CancelAllPending();
      DetachSessions(View());
      AllDetachedReached(m, View());
    }

    method CancelAllPending()
      requires Named(View())
      modifies `arena, `pending
      ensures View() == PendingCancelled(old(View()))
    {
      arena := CancelEach(pending, arena, View());
      pending := map[];
    }

    static method CancelEach(pending: map<string, SessionId>, all: map<SessionId, Session>, ghost m: Manager)
      returns (arena: map<SessionId, Session>)
      requires Named(m) && pending == m.pending && all == m.arena
      ensures arena == PendingCancelled(m).arena
    {
      NothingCancelled(m);
      arena := all;
      var left := pending.Keys;
      while left != {}
        invariant left <= pending.Keys && AllCancelledBut(m, arena, left)
        decreases |left|
      {
        var key := Choose(left);
        CancelledProgress(m, arena, left, key);
        var id := pending[key];
        arena := arena[id := arena[id].(cancelled := true)];
        left := left - {key};
      }
      AllCancelled(m, arena);
    }

    method DetachSessions(ghost m: Manager)
      requires View() == m && m.pending == map[] && Named(m) && Lifecycle(m) && Conserved(m) && Normal(m.arena)
      modifies this
      ensures DetachedBut(m, View(), {}) && Conserved(View())
    {
      var names := sessions.Keys;
      while names != {}
        invariant DetachedBut(m, View(), names) && Conserved(View())
        decreases |names|
      {
        var name := Choose(names);
        DetachOne(name, names, m);
        names := names - {name};
      }
    }

    method DetachOne(name: string, ghost names: set<string>, ghost m: Manager)
      requires name in names && Named(m) && Lifecycle(m) && Normal(m.arena)
      requires DetachedBut(m, View(), names) && Conserved(View())
      modifies this
      ensures DetachedBut(m, View(), names - {name}) && Conserved(View())
    {
      StillHolds(m, View(), names, name);
      NoPendingDetached(View(), name);
      DropSessionProgress(m, View(), names, name);
      DropSessionKeepsHolds(View(), name);
      DetachKey(OutputKey(name));
    }

    // ----- Refreshing

    /** One session at a tick: served from a fresh batch at hand, or marked as waiting for a fetch. */
    method VisitSession(id: SessionId, now: int) returns (stale: bool)
      requires id in arena && Attached(View(), id)
      modifies `arena
      ensures arena == old(arena)[id := Visited(old(View()), id, now)]
      ensures stale == Stale(old(View()), id, now)
    {
      var session := arena[id];
      var until := LastOf(session.cache);
      if until - now > REFRESH_AHEAD_SECONDS || session.refreshing {
        UpdateSame(arena, id, session);
        return false;
      }
      session := session.(refreshing := true);
      var atHand := false;
      if session.signer in sharedBatches {
        atHand := BatchIsFresh(sharedBatches[session.signer], now);
      }
      if atHand {
        session := session.(cache := Merged(session.cache, sharedBatches[session.signer].signatures),
                            refreshing := false);
      }
      arena := arena[id := session];
      stale := !atHand;
    }

    /** Visits every attached session and groups those that wait for a fetch by signer. */
    method VisitSessions(now: int) returns (groups: map<Signer, set<SessionId>>)
      requires Named(View())
      modifies `arena
      ensures VisitedBut(old(View()), arena, now, {}) && GroupedBut(old(View()), groups, now, {})
    {
      ghost var m := View();
      NothingVisited(m, now);
      groups := map[];
      var names := sessions.Keys;
      while names != {}
        invariant names <= sessions.Keys
        invariant VisitedBut(m, arena, now, names) && GroupedBut(m, groups, now, names)
        decreases |names|
      {
        var name := Choose(names);
        groups := VisitNamed(name, groups, now, names, m);
        names := names - {name};
      }
    }

    method VisitNamed(name: string, groups: map<Signer, set<SessionId>>, now: int, ghost names: set<string>,
                      ghost m: Manager)
      returns (grouped: map<Signer, set<SessionId>>)
      requires Named(m) && sessions == m.sessions && sharedBatches == m.shared && name in sessions && name in names
      requires VisitedBut(m, arena, now, names) && GroupedBut(m, groups, now, names)
      modifies `arena
      ensures VisitedBut(m, arena, now, names - {name}) && GroupedBut(m, grouped, now, names - {name})
    {
      var id := sessions[name];
      VisitedSame(m, View(), id, now);
      VisitProgress(m, arena, now, names, name);
      GroupProgress(m, groups, now, names, name);
      var stale := VisitSession(id, now);
      grouped := if stale then AddTo(groups, arena[id].signer, id) else groups;
    }

    /**
     The refresh timer has ticked: due sessions are served from batches at hand, and one fetch is
     launched for each signer whose sessions must wait, where its worker can be started.
     */
    method RefreshDueSessions(now: int, workers: set<Signer>)
      requires Valid()
      modifies this
      ensures Valid() && View() == Ticked(old(View()), now, workers)
    {
      TickedKeepsInv(View(), now, workers);
      TickedKeepsNormal(View(), now, workers);
      var groups := VisitSessions(now);
      LaunchRefreshes(groups, now, workers, old(View()));
    }

    method LaunchRefreshes(groups: map<Signer, set<SessionId>>, now: int, workers: set<Signer>, ghost m: Manager)
      requires Named(m) && View() == m.(arena := arena)
      requires VisitedBut(m, arena, now, {}) && GroupedBut(m, groups, now, {})
      modifies `arena, `refreshes, `ticks
      ensures View() == Ticked(m, now, workers)
    {
      GroupsAreStale(m, groups, now);
      NothingLaunched(m, arena, now, workers);
      LaunchGroups(groups, now, workers, m);
      assert workers - {} == workers;
      AllLaunched(m, arena, now, workers);
      ticks := ticks + 1;
    }

    method LaunchGroups(groups: map<Signer, set<SessionId>>, now: int, workers: set<Signer>, ghost m: Manager)
      requires groups.Keys == StaleSigners(m, now) && ticks == m.ticks
      requires forall signer :: signer in groups ==> groups[signer] == StaleOf(m, signer, now)
      requires LaunchedBut(m, arena, now, workers, groups.Keys)
      requires refreshes == m.refreshes + LaunchedJobs(m, now, workers - groups.Keys)
      modifies `arena, `refreshes
      ensures LaunchedBut(m, arena, now, workers, {})
      ensures refreshes == m.refreshes + LaunchedJobs(m, now, workers - {})
    {
      var left := groups.Keys;
      while left != {}
        invariant left <= groups.Keys
        invariant refreshes == m.refreshes + LaunchedJobs(m, now, workers - left)
        invariant LaunchedBut(m, arena, now, workers, left)
        decreases |left|
      {
        var signer := Choose(left);
        Launch(signer, groups[signer], now, workers, left, m);
        left := left - {signer};
      }
    }

    method Launch(signer: Signer, group: set<SessionId>, now: int, workers: set<Signer>, ghost left: set<Signer>,
                  ghost m: Manager)
      requires signer in left && signer in StaleSigners(m, now) && group == StaleOf(m, signer, now)
      requires LaunchedBut(m, arena, now, workers, left) && ticks == m.ticks
      requires refreshes == m.refreshes + LaunchedJobs(m, now, workers - left)
      modifies `arena, `refreshes
      ensures LaunchedBut(m, arena, now, workers, left - {signer})
      ensures refreshes == m.refreshes + LaunchedJobs(m, now, workers - (left - {signer}))
    {
      if signer in workers {
        LaunchSucceeds(m, arena, now, workers, left, signer);
        JobLaunched(m, now, workers - left, signer);
        refreshes := refreshes[(ticks, signer) := RefreshJob(group, now)];
      } else {
        LaunchFails(m, arena, now, workers, left, signer);
        arena := NotRefreshing(arena, group);
      }
    }

    /** A refresh fetch has delivered to the sessions it was launched for. */
    method FinishRefreshJob(job: JobId, batch: Batch)
      requires Valid() && job in refreshes
      modifies this
      ensures Valid() && View() == Refreshed(old(View()), job, batch)
    {
      StepKeepsInv(View(), FinishRefresh(job, batch));
      RefreshedKeepsNormal(View(), job, batch);
      TakeRefresh(job, batch);
    }

    method TakeRefresh(job: JobId, batch: Batch)
      requires job in refreshes && refreshes[job].members <= arena.Keys
      modifies `refreshes, `issued, `sharedBatches, `arena
      ensures View() == Refreshed(old(View()), job, batch)
    {
      var done := refreshes[job];
      Deliver(done, batch, View());
      refreshes := refreshes - {job};
      issued := issued + Issues(job.1, batch.signatures);
      if batch.Valid() {
        sharedBatches := sharedBatches[job.1 := batch];
      }
    }

    method Deliver(job: RefreshJob, batch: Batch, ghost m: Manager)
      requires arena == m.arena && sessions == m.sessions && job.members <= arena.Keys
      modifies `arena
      ensures arena == map id | id in m.arena :: SessionRefreshed(m, id, job, batch)
    {
      var left := job.members;
      while left != {}
        invariant left <= job.members && arena.Keys == m.arena.Keys
        invariant forall id :: id in m.arena ==>
                    arena[id] == if id in left then m.arena[id] else SessionRefreshed(m, id, job, batch)
        decreases |left|
      {
        var id := Choose(left);
        var session := arena[id].(refreshing := false);
        if batch.Valid() && session.name in sessions && sessions[session.name] == id {
          session := session.(cache := Merged(session.cache, batch.signatures));
        }
        arena := arena[id := session];
        left := left - {id};
      }
    }

    // ----- Rebinding

    /** The main stream starts: its session moves to the output OBS now reports. */
    method RebindMainOutput(reported: Option<Output>)
      requires Valid()
      modifies this
      ensures Valid() && View() == Rebound(old(View()), reported)
    {
      StepKeepsInv(View(), Rebind(reported));
      HoldsItsOutput(View(), MAIN_STREAM_KEY);
      ReboundKeepsNormal(View(), reported);
      MoveMainOutput(reported);
    }

    method MoveMainOutput(reported: Option<Output>)
      requires HoldsOutput(View(), MAIN_STREAM_KEY)
      modifies `arena, `holds, `callbacks
      ensures View() == Rebound(old(View()), reported)
    {
      if MAIN_STREAM_KEY in sessions {
        ReboundParts(View(), reported);
        RestartOn(sessions[MAIN_STREAM_KEY], reported);
      }
    }

    method RestartOn(id: SessionId, reported: Option<Output>)
      requires id in arena && arena[id].output.Some?
      requires (arena[id].output.value, id) in holds && (arena[id].output.value, id) in callbacks
      modifies `arena, `holds, `callbacks
      ensures var before := old(arena)[id].output.value;
              var after := if reported == None then before else reported.value;
              && arena == old(arena)[id := old(arena)[id].(stream := FRESH, output := Some(after))]
              && holds == Moved(old(holds), before, after, id) && callbacks == Moved(old(callbacks), before, after, id)
    {
      var restarted := arena[id].(stream := FRESH);
      arena := arena[id := restarted];
      var current := FindOutput(reported, id);
      if current == None {
        return;
      }
      SwitchOutput(id, current.value, old(holds));
      UpdateTwice(old(arena), id, restarted, restarted.(output := current));
    }

    /** One reference to `current` has just been acquired; one to the output in use is given back. */
    method SwitchOutput(id: SessionId, current: Output, ghost before: multiset<(Output, SessionId)>)
      requires id in arena && arena[id].output.Some?
      requires (arena[id].output.value, id) in before && (arena[id].output.value, id) in callbacks
      requires holds == before + multiset{(current, id)}
      modifies `arena, `holds, `callbacks
      ensures arena == old(arena)[id := old(arena)[id].(output := Some(current))]
      ensures holds == Moved(before, old(arena)[id].output.value, current, id)
      ensures callbacks == Moved(old(callbacks), old(arena)[id].output.value, current, id)
    {
      var output := arena[id].output.value;
      if current == output {
        ReleaseOutput(current, id);
        SwapSame(before, (current, id));
        UpdateSame(arena, id, arena[id].(output := Some(current)));
      } else {
        SwapOther(before, (output, id), (current, id));
        Replace(id, output, current);
      }
    }

    method Replace(id: SessionId, output: Output, current: Output)
      requires id in arena
      requires (output, id) in holds && (output, id) in callbacks
      modifies `arena, `holds, `callbacks
      ensures arena == old(arena)[id := old(arena)[id].(output := Some(current))]
      ensures holds == old(holds) - multiset{(output, id)}
      ensures callbacks == old(callbacks) - multiset{(output, id)} + multiset{(current, id)}
    {
      RemovePacketCallback(output, id);
      ReleaseOutput(output, id);
      arena := arena[id := arena[id].(output := Some(current))];
      AddPacketCallback(current, id);
    }

    // ----- Packets

    /**
     OBS calls back with a video packet; the session injects messages into it, or gives its output up. Without
     messages the packet is left as it is.
     */
    method PacketCallback(id: SessionId, frame: Frame, known: bool, stored: bool) returns (sent: seq<Emission>)
      requires Valid() && Attached(View(), id)
      modifies `arena
      ensures Valid() && View() == Passed(old(View()), id, frame, known, stored)
      ensures sent == Injected(old(arena)[id], frame, known, stored)
      ensures sent != [] <==>
              && !old(arena)[id].fatal && known && stored
              && Transform(old(arena)[id].stream, old(arena)[id].signer.config, frame, old(arena)[id].cache).1.Replaced?
    {
      PassedKeepsInv(View(), id, frame, known, stored);
      PassedKeepsNormal(View(), id, frame, known, stored);
      var session;
      session, sent := PassThrough(arena[id], frame, known, stored);
      arena := arena[id := session];
    }

    /** The session and its packet: what it then is, and what is put in front of the packet. */
    static method PassThrough(session: Session, frame: Frame, known: bool, stored: bool)
      returns (passed: Session, sent: seq<Emission>)
      requires Coupled(session.stream)
      ensures passed == SessionPassed(session, frame, known, stored) && sent == Injected(session, frame, known, stored)
      ensures sent != [] <==>
              && !session.fatal && known && stored
              && Transform(session.stream, session.signer.config, frame, session.cache).1.Replaced?
    {
      passed, sent := session, [];
      if !session.fatal {
        if !known {
          passed := session.(fatal := true);
        } else {
          var (stream, outcome) := Transform(session.stream, session.signer.config, frame, session.cache);
          sent := if outcome.Replaced? && stored then outcome.emissions else [];
          passed := session.(stream := stream, fatal := outcome.Failed? || (outcome.Replaced? && !stored));
        }
      }
    }
  }

  lemma UpdateSame<K, V>(m: map<K, V>, k: K, v: V)
    requires k in m && m[k] == v
    ensures m[k := v] == m
  {
  }

  lemma PassedKeepsNormal(m: Manager, id: SessionId, frame: Frame, known: bool, stored: bool)
    requires Normal(m.arena) && id in m.arena && Coupled(m.arena[id].stream)
    ensures Normal(Passed(m, id, frame, known, stored).arena)
  {
  }

  lemma ReboundParts(m: Manager, current: Option<Output>)
    requires HasOutput(m, MAIN_STREAM_KEY) && MAIN_STREAM_KEY in m.sessions
    ensures var id := m.sessions[MAIN_STREAM_KEY];
            var before := m.arena[id].output.value;
            var after := if current == None then before else current.value;
            Rebound(m, current) ==
            m.(arena := m.arena[id := m.arena[id].(stream := FRESH, output := Some(after))],
               holds := Moved(m.holds, before, after, id), callbacks := Moved(m.callbacks, before, after, id))
  {
  }

  lemma UpdateTwice<K, V>(m: map<K, V>, k: K, v: V, w: V)
    ensures m[k := v][k := w] == m[k := w]
  {
  }

  lemma SwapSame<T>(s: multiset<T>, x: T)
    ensures s + multiset{x} - multiset{x} == s
  {
  }

  lemma SwapOther<T>(s: multiset<T>, x: T, y: T)
    requires x in s
    ensures s + multiset{y} - multiset{x} == s - multiset{x} + multiset{y}
  {
  }

  // ----- Progress of detaching everything

  /** A session once those pending under names other than the given ones are cancelled. */
  function CancelledBut(m: Manager, id: SessionId, left: set<string>): Session
    requires id in m.arena
  {
    if Pending(m, id) && m.arena[id].name !in left then m.arena[id].(cancelled := true) else m.arena[id]
  }

  ghost predicate AllCancelledBut(m: Manager, arena: map<SessionId, Session>, left: set<string>) {
    arena.Keys == m.arena.Keys && forall id :: id in m.arena ==> arena[id] == CancelledBut(m, id, left)
  }

  lemma CancelledProgress(m: Manager, arena: map<SessionId, Session>, left: set<string>, key: string)
    requires Named(m) && AllCancelledBut(m, arena, left) && key in left && key in m.pending
    ensures m.pending[key] in arena
    ensures AllCancelledBut(m, arena[m.pending[key] := arena[m.pending[key]].(cancelled := true)], left - {key})
  {
    var id := m.pending[key];
    var after := arena[id := arena[id].(cancelled := true)];
    forall other | other in m.arena
      ensures after[other] == CancelledBut(m, other, left - {key})
    {
      assert arena[other] == CancelledBut(m, other, left);
    }
  }

  lemma NothingCancelled(m: Manager)
    requires Named(m)
    ensures AllCancelledBut(m, m.arena, m.pending.Keys)
  {
  }

  lemma AllCancelled(m: Manager, arena: map<SessionId, Session>)
    requires AllCancelledBut(m, arena, {})
    ensures arena == PendingCancelled(m).arena
  {
  }

  function PendingCancelled(m: Manager): Manager {
    m.(pending := map[], arena := map id | id in m.arena :: CancelledBut(m, id, {}))
  }

  lemma PendingCancelledKeeps(m: Manager)
    requires Named(m) && Lifecycle(m) && Conserved(m) && Normal(m.arena)
    ensures var p := PendingCancelled(m);
            Named(p) && Lifecycle(p) && Conserved(p) && Normal(p.arena)
  {
    var p := PendingCancelled(m);
    forall id | id in p.arena
      ensures LifeOf(p, id)
    {
      assert LifeOf(m, id);
    }
    SameHoldsKeeps(m, p);
  }

  /** On the way from m to nothing attached: only the sessions with the given names still are. */
  ghost predicate DetachedBut(m: Manager, n: Manager, names: set<string>) {
    && n.pending == m.pending == map[] && n.sessions.Keys == names <= m.sessions.Keys
    && (forall key :: key in names ==> n.sessions[key] == m.sessions[key])
    && n.arena.Keys == m.arena.Keys && (forall id :: id in m.arena ==> DetachedOne(m, n, names, id))
    && (n.timerActive ==> m.timerActive) && (n.timerActive <==> names != {})
    && n.shared == m.shared && n.prepares == m.prepares && n.refreshes == m.refreshes
    && n.issued == m.issued && n.nextId == m.nextId && n.ticks == m.ticks
  }

  ghost predicate DetachedOne(m: Manager, n: Manager, names: set<string>, id: SessionId)
    requires id in m.arena && id in n.arena
  {
    n.arena[id] == if Attached(m, id) && m.arena[id].name !in names then m.arena[id].(cancelled := true, output := None)
                   else m.arena[id]
  }

  /** A session that is still attached has its output, and still holds it. */
  lemma StillHolds(m: Manager, n: Manager, names: set<string>, name: string)
    requires Named(m) && Lifecycle(m) && Normal(m.arena) && DetachedBut(m, n, names) && Conserved(n) && name in names
    ensures OutputKey(name) == name && HoldsOutput(n, name)
    ensures n.sessions[name] == m.sessions[name] && m.sessions[name] in m.arena &&
            m.arena[m.sessions[name]].name == name
  {
    var id := m.sessions[name];
    assert LifeOf(m, id) && DetachedOne(m, n, names, id);
    var output := n.arena[id].output.value;
    assert n.holds[(output, id)] == n.callbacks[(output, id)] == Held(n, output, id);
  }

  lemma NoPendingDetached(m: Manager, key: string)
    requires HasOutput(m, key) && key !in m.pending
    ensures Detached(m, key) == DropSession(m, key)
  {
  }

  lemma DropSessionProgress(m: Manager, n: Manager, names: set<string>, name: string)
    requires DetachedBut(m, n, names) && name in names && HasOutput(n, name)
    requires Named(m)
    ensures DetachedBut(m, DropSession(n, name), names - {name})
  {
    DropSessionKeepsIds(n, name);
    forall id | id in m.arena
      ensures DetachedOne(m, DropSession(n, name), names - {name}, id)
    {
      DropSessionOne(m, n, names, name, id);
    }
  }

  lemma DropSessionOne(m: Manager, n: Manager, names: set<string>, name: string, id: SessionId)
    requires name in names && name in n.sessions && name in m.sessions && n.sessions[name] == m.sessions[name]
    requires HasOutput(n, name) && m.sessions[name] in m.arena && m.arena[m.sessions[name]].name == name
    requires id in m.arena && n.arena.Keys == m.arena.Keys && DetachedOne(m, n, names, id)
    ensures id in DropSession(n, name).arena && DetachedOne(m, DropSession(n, name), names - {name}, id)
  {
  }

  lemma AllDetachedReached(m: Manager, n: Manager)
    requires Named(m) && Lifecycle(m) && DetachedBut(PendingCancelled(m), n, {}) && Conserved(n)
    ensures n == AllDetached(m)
  {
    forall id | id in m.arena
      ensures n.arena[id] == AllDetached(m).arena[id] && n.arena[id].output == None
    {
      assert LifeOf(m, id) && DetachedOne(PendingCancelled(m), n, {}, id);
      DetachedReached(m, n, id);
    }
    assert n.arena == AllDetached(m).arena && n.sessions == map[];
    NothingHeldWithoutOutputs(n);
  }

  lemma DetachedReached(m: Manager, n: Manager, id: SessionId)
    requires id in m.arena && LifeOf(m, id) && m.sessions.Keys !! m.pending.Keys
    requires id in n.arena && DetachedOne(PendingCancelled(m), n, {}, id)
    ensures n.arena[id] == AllDetached(m).arena[id] && n.arena[id].output == None
  {
    assert Attached(PendingCancelled(m), id) <==> Attached(m, id);
  }

  // ----- Progress of a tick

  /** A session after the first pass of a tick. */
  ghost function Visited(m: Manager, id: SessionId, now: int): Session
    requires id in m.arena
  {
    var session := m.arena[id];
    if !Due(m, id, now) then session
    else if Fresh(m, session.signer, now) then
      session.(cache := Merged(session.cache, m.shared[session.signer].signatures))
    else session.(refreshing := true)
  }

  /** All attached sessions but those with the given names have been visited. */
  ghost predicate VisitedBut(m: Manager, arena: map<SessionId, Session>, now: int, names: set<string>) {
    arena.Keys == m.arena.Keys &&
    forall id :: id in m.arena ==>
      arena[id] == if m.arena[id].name in names then m.arena[id] else Visited(m, id, now)
  }

  ghost predicate GroupedBut(m: Manager, groups: map<Signer, set<SessionId>>, now: int, names: set<string>) {
    && (forall signer, id :: signer in groups && id in groups[signer] ==>
          id in m.arena && Stale(m, id, now) && m.arena[id].name !in names && m.arena[id].signer == signer)
    && (forall id :: id in m.arena && Stale(m, id, now) && m.arena[id].name !in names ==>
          m.arena[id].signer in groups && id in groups[m.arena[id].signer])
    && (forall signer :: signer in groups ==> groups[signer] != {})
  }

  lemma NothingVisited(m: Manager, now: int)
    requires Named(m)
    ensures VisitedBut(m, m.arena, now, m.sessions.Keys) && GroupedBut(m, map[], now, m.sessions.Keys)
  {
  }

  function AddTo(groups: map<Signer, set<SessionId>>, signer: Signer, id: SessionId): map<Signer, set<SessionId>> {
    groups[signer := (if signer in groups then groups[signer] else {}) + {id}]
  }

  lemma VisitedSame(m: Manager, n: Manager, id: SessionId, now: int)
    requires id in m.arena && id in n.arena && n.arena[id] == m.arena[id]
    requires n.sessions == m.sessions && n.shared == m.shared
    ensures Visited(n, id, now) == Visited(m, id, now) && Stale(n, id, now) == Stale(m, id, now)
    ensures Visited(m, id, now).signer == m.arena[id].signer
  {
  }

  lemma VisitProgress(m: Manager, arena: map<SessionId, Session>, now: int, names: set<string>, name: string)
    requires Named(m) && name in m.sessions && VisitedBut(m, arena, now, names)
    ensures VisitedBut(m, arena[m.sessions[name] := Visited(m, m.sessions[name], now)], now, names - {name})
  {
  }

  lemma GroupGrows(m: Manager, groups: map<Signer, set<SessionId>>, now: int, names: set<string>, name: string)
    requires Named(m) && name in m.sessions && name in names && GroupedBut(m, groups, now, names)
    requires Stale(m, m.sessions[name], now)
    ensures var id := m.sessions[name];
            GroupedBut(m, AddTo(groups, m.arena[id].signer, id), now, names - {name})
  {
    var id := m.sessions[name];
    var grown := AddTo(groups, m.arena[id].signer, id);
    forall signer, other | signer in grown && other in grown[signer]
      ensures other in m.arena && Stale(m, other, now) && m.arena[other].signer == signer
      ensures m.arena[other].name !in names - {name}
    {
      assert other == id || (signer in groups && other in groups[signer]);
    }
  }

  lemma GroupProgress(m: Manager, groups: map<Signer, set<SessionId>>, now: int, names: set<string>, name: string)
    requires Named(m) && name in m.sessions && name in names && GroupedBut(m, groups, now, names)
    ensures var id := m.sessions[name];
            var grouped := if Stale(m, id, now) then AddTo(groups, m.arena[id].signer, id) else groups;
            GroupedBut(m, grouped, now, names - {name})
  {
    if Stale(m, m.sessions[name], now) {
      GroupGrows(m, groups, now, names, name);
    }
  }

  function NotRefreshing(arena: map<SessionId, Session>, ids: set<SessionId>): map<SessionId, Session> {
    map id | id in arena :: if id in ids then arena[id].(refreshing := false) else arena[id]
  }

  /** Of the waiting signers, all but those left have had their fetch launched or given up. */
  ghost predicate LaunchedBut(m: Manager, arena: map<SessionId, Session>, now: int, workers: set<Signer>,
                              left: set<Signer>) {
    arena.Keys == m.arena.Keys &&
    forall id :: id in m.arena ==>
      arena[id] == if Stale(m, id, now) && m.arena[id].signer in left then Visited(m, id, now)
                   else SessionTicked(m, id, now, workers)
  }

  lemma GroupsAreStale(m: Manager, groups: map<Signer, set<SessionId>>, now: int)
    requires GroupedBut(m, groups, now, {})
    ensures groups.Keys == StaleSigners(m, now)
    ensures forall signer :: signer in groups ==> groups[signer] == StaleOf(m, signer, now)
  {
    forall signer | signer in groups
      ensures signer in StaleSigners(m, now)
    {
      var id := AnElement(groups[signer]);
      assert id in m.arena && Stale(m, id, now) && m.arena[id].signer == signer;
    }
  }

  lemma NothingLaunched(m: Manager, arena: map<SessionId, Session>, now: int, workers: set<Signer>)
    requires VisitedBut(m, arena, now, {})
    ensures LaunchedBut(m, arena, now, workers, StaleSigners(m, now))
    ensures m.refreshes == m.refreshes + LaunchedJobs(m, now, workers - StaleSigners(m, now))
  {
    assert LaunchedJobs(m, now, workers - StaleSigners(m, now)) == map[];
  }

  lemma JobLaunched(m: Manager, now: int, launched: set<Signer>, signer: Signer)
    requires signer in StaleSigners(m, now) && signer !in launched
    ensures var job := RefreshJob(StaleOf(m, signer, now), now);
            m.refreshes + LaunchedJobs(m, now, launched + {signer}) ==
            (m.refreshes + LaunchedJobs(m, now, launched))[(m.ticks, signer) := job]
  {
    assert LaunchedJobs(m, now, launched + {signer}) ==
           LaunchedJobs(m, now, launched)[(m.ticks, signer) := RefreshJob(StaleOf(m, signer, now), now)];
  }

  lemma LaunchSucceeds(m: Manager, arena: map<SessionId, Session>, now: int, workers: set<Signer>, left: set<Signer>,
                       signer: Signer)
    requires LaunchedBut(m, arena, now, workers, left) && signer in left && signer in workers
    ensures LaunchedBut(m, arena, now, workers, left - {signer})
    ensures workers - (left - {signer}) == workers - left + {signer}
  {
  }

  lemma LaunchFails(m: Manager, arena: map<SessionId, Session>, now: int, workers: set<Signer>, left: set<Signer>,
                    signer: Signer)
    requires LaunchedBut(m, arena, now, workers, left) && signer in left && signer !in workers
    ensures LaunchedBut(m, NotRefreshing(arena, StaleOf(m, signer, now)), now, workers, left - {signer})
    ensures workers - (left - {signer}) == workers - left
  {
  }

  lemma AllLaunched(m: Manager, arena: map<SessionId, Session>, now: int, workers: set<Signer>)
    requires LaunchedBut(m, arena, now, workers, {})
    ensures arena == Ticked(m, now, workers).arena
  {
  }

  lemma TickedKeepsNormal(m: Manager, now: int, launched: set<Signer>)
    requires Normal(m.arena)
    ensures Normal(Ticked(m, now, launched).arena)
  {
  }

  lemma RefreshedKeepsNormal(m: Manager, job: JobId, batch: Batch)
    requires job in m.refreshes && Normal(m.arena)
    ensures Normal(Refreshed(m, job, batch).arena)
  {
  }

  /** Sessions are stored under normalized names. */
  ghost predicate Normal(arena: map<SessionId, Session>) {
    forall id :: id in arena ==> OutputKey(arena[id].name) == arena[id].name
  }

  lemma DropPendingKeepsNormal(m: Manager, key: string)
    requires Normal(m.arena) && (key in m.pending ==> m.pending[key] in m.arena)
    ensures Normal(DropPending(m, key).arena)
  {
  }

  lemma DropSessionKeepsNormal(m: Manager, key: string)
    requires Normal(m.arena) && HasOutput(m, key)
    ensures Normal(DropSession(m, key).arena)
  {
  }

  lemma DetachKeepsNormal(m: Manager, key: string)
    requires Inv(m) && Normal(m.arena)
    ensures Normal(Detached(m, key).arena)
  {
    DropPendingKeepsNormal(m, key);
    DropSessionKeepsNormal(DropPending(m, key), key);
  }

  lemma OpenedKeepsNormal(m: Manager, key: string, signer: Signer, job: PrepareJob)
    requires Normal(m.arena) && OutputKey(key) == key
    ensures Normal(Opened(m, key, signer, job).arena)
  {
  }

  lemma PreparedKeepsNormal(m: Manager, request: Request, found: bool, now: int, launched: bool)
    requires Inv(m) && Normal(m.arena)
    ensures Normal(Prepared(m, request, found, now, launched).arena)
  {
    if Admissible(request, found) {
      var key := OutputKey(request.name);
      var d := Detached(m, key);
      DetachKeepsNormal(m, key);
      OutputKeyIsNormal(request.name);
      if Fresh(m, request.signer, now) {
        OpenedKeepsNormal(d, key, request.signer, PrepareJob(now, Some(m.shared[request.signer])));
      } else {
        OpenedKeepsNormal(d, key, request.signer, PrepareJob(now, None));
      }
    }
  }

  lemma FinishKeepsNormal(m: Manager, id: SessionId, batch: Batch, output: Option<Output>)
    requires id in m.arena && Normal(m.arena)
    ensures Normal(PrepareFinished(m, id, batch, output).arena)
  {
  }

  lemma ReboundKeepsNormal(m: Manager, current: Option<Output>)
    requires HasOutput(m, MAIN_STREAM_KEY) && Normal(m.arena)
    ensures Normal(Rebound(m, current).arena)
  {
  }

  lemma DropPendingHolds(m: Manager, key: string)
    requires HoldsOutput(m, key) && (key in m.pending ==> m.pending[key] in m.arena)
    ensures HoldsOutput(DropPending(m, key), key)
  {
  }

  ghost predicate HoldsOutput(m: Manager, key: string) {
    HasOutput(m, key) &&
    (key in m.sessions ==>
       var held := (m.arena[m.sessions[key]].output.value, m.sessions[key]);
       held in m.holds && held in m.callbacks)
  }

  lemma HoldsItsOutput(m: Manager, key: string)
    requires Named(m) && Lifecycle(m) && Conserved(m)
    ensures HoldsOutput(m, key)
  {
    if key in m.sessions {
      var id := m.sessions[key];
      assert m.holds[(m.arena[id].output.value, id)] == m.callbacks[(m.arena[id].output.value, id)] ==
             Held(m, m.arena[id].output.value, id);
    }
  }

  lemma OutputKeyIsNormal(name: string)
    ensures OutputKey(OutputKey(name)) == OutputKey(name)
  {
    assert TrimLeft(MAIN_STREAM_KEY) == MAIN_STREAM_KEY;
    assert TrimRight(MAIN_STREAM_KEY) == MAIN_STREAM_KEY;
  }
}
