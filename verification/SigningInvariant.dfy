/** The manager's invariant is kept by every step, and so holds on every run. */
module SigningInvariant {
  import opened Common
  import opened SignatureCache
  import opened StreamModel
  import opened SigningModel

  // ----- What a step leaves alone

  /** The tables and the life of every session are the same. */
  ghost predicate SameLife(m: Manager, n: Manager) {
    && n.sessions == m.sessions && n.pending == m.pending && n.prepares == m.prepares
    && n.timerActive == m.timerActive && n.nextId == m.nextId && n.arena.Keys == m.arena.Keys
    && forall id :: id in m.arena ==>
         && n.arena[id].name == m.arena[id].name && n.arena[id].cancelled == m.arena[id].cancelled
         && n.arena[id].output.Some? == m.arena[id].output.Some?
  }

  /** Nothing is acquired or given back. */
  ghost predicate SameHolds(m: Manager, n: Manager) {
    && n.holds == m.holds && n.callbacks == m.callbacks
    && forall output, id :: Held(n, output, id) == Held(m, output, id)
  }

  /** The refresh jobs and who takes part in them are the same. */
  ghost predicate SameRefreshes(m: Manager, n: Manager) {
    && n.refreshes == m.refreshes && n.ticks == m.ticks
    && (forall id :: id in m.arena ==>
          id in n.arena && n.arena[id].refreshing == m.arena[id].refreshing && n.arena[id].signer == m.arena[id].signer)
    && (forall id :: id in n.arena && id !in m.arena ==> !n.arena[id].refreshing)
  }

  /** No session, shared batch or job has other signatures. */
  ghost predicate SameCaches(m: Manager, n: Manager) {
    && m.issued <= n.issued && n.shared == m.shared && n.arena.Keys == m.arena.Keys
    && (forall id :: id in m.arena ==>
          n.arena[id].cache == m.arena[id].cache && n.arena[id].signer == m.arena[id].signer)
    && (forall id :: id in n.prepares ==> id in m.prepares && n.prepares[id] == m.prepares[id])
  }

  lemma SameLifeKeeps(m: Manager, n: Manager)
    requires SameLife(m, n) && Named(m) && Lifecycle(m)
    ensures Named(n) && Lifecycle(n)
  {
    forall id | id in n.arena
      ensures LifeOf(n, id)
    {
      assert LifeOf(m, id);
    }
  }

  lemma SameHoldsKeeps(m: Manager, n: Manager)
    requires SameHolds(m, n) && Conserved(m)
    ensures Conserved(n)
  {
    forall output, id
      ensures n.holds[(output, id)] == n.callbacks[(output, id)] == Held(n, output, id)
    {
      assert m.holds[(output, id)] == m.callbacks[(output, id)] == Held(m, output, id);
    }
  }

  lemma SameRefreshesKeeps(m: Manager, n: Manager)
    requires SameRefreshes(m, n) && Refreshing(m)
    ensures Refreshing(n)
  {
    forall id | id in n.arena && n.arena[id].refreshing
      ensures exists job :: job in n.refreshes && id in n.refreshes[job].members
    {
      assert id in m.arena && m.arena[id].refreshing;
    }
  }

  lemma SameCachesKeeps(m: Manager, n: Manager)
    requires SameCaches(m, n) && Separated(m)
    ensures Separated(n)
  {
  }

  // ----- DropPending

  lemma DropPendingKeepsNamed(m: Manager, key: string)
    requires Named(m)
    ensures Named(DropPending(m, key))
  {
  }

  lemma DropPendingKeepsLifeOf(m: Manager, key: string, id: SessionId)
    requires key in m.pending ==> m.pending[key] in m.arena && m.arena[m.pending[key]].name == key
    requires id in m.arena && LifeOf(m, id)
    ensures id in DropPending(m, key).arena && LifeOf(DropPending(m, key), id)
  {
  }

  lemma DropPendingKeepsLifecycle(m: Manager, key: string)
    requires Named(m) && Lifecycle(m)
    ensures Lifecycle(DropPending(m, key))
  {
    var d := DropPending(m, key);
    assert d.arena.Keys == m.arena.Keys && d.sessions == m.sessions && d.timerActive == m.timerActive;
    forall id | id in d.arena
      ensures LifeOf(d, id)
    {
      DropPendingKeepsLifeOf(m, key, id);
    }
  }

  lemma DropPendingFrame(m: Manager, key: string)
    requires key in m.pending ==> m.pending[key] in m.arena
    ensures SameHolds(m, DropPending(m, key)) && SameRefreshes(m, DropPending(m, key))
  {
  }

  lemma DropPendingKeepsCaches(m: Manager, key: string)
    requires key in m.pending ==> m.pending[key] in m.arena
    ensures SameCaches(m, DropPending(m, key)) && (Streaming(m) ==> Streaming(DropPending(m, key)))
  {
  }

  lemma DropPendingKeepsInv(m: Manager, key: string)
    requires Inv(m)
    ensures Inv(DropPending(m, key)) && key !in DropPending(m, key).pending
    ensures DropPending(m, key).sessions == m.sessions
  {
    var d := DropPending(m, key);
    DropPendingKeepsNamed(m, key);
    DropPendingKeepsLifecycle(m, key);
    DropPendingFrame(m, key);
    DropPendingKeepsCaches(m, key);
    SameHoldsKeeps(m, d);
    SameRefreshesKeeps(m, d);
    SameCachesKeeps(m, d);
  }

  // ----- DropSession

  lemma DropSessionKeepsNamed(m: Manager, key: string)
    requires Named(m) && HasOutput(m, key)
    ensures Named(DropSession(m, key))
  {
  }

  lemma DropSessionKeepsLifeOf(m: Manager, key: string, id: SessionId)
    requires HasOutput(m, key) && (key in m.sessions ==> m.arena[m.sessions[key]].name == key)
    requires id in m.arena && LifeOf(m, id)
    ensures id in DropSession(m, key).arena && LifeOf(DropSession(m, key), id)
  {
  }

  lemma DropSessionKeepsLifecycle(m: Manager, key: string)
    requires Named(m) && Lifecycle(m) && HasOutput(m, key)
    ensures Lifecycle(DropSession(m, key))
  {
    var d := DropSession(m, key);
    DropSessionKeepsIds(m, key);
    forall id | id in d.arena
      ensures LifeOf(d, id)
    {
      DropSessionKeepsLifeOf(m, key, id);
    }
  }

  lemma DropSessionKeepsHolds(m: Manager, key: string)
    requires HasOutput(m, key) && Conserved(m)
    ensures Conserved(DropSession(m, key))
  {
    var d := DropSession(m, key);
    forall output, id
      ensures d.holds[(output, id)] == d.callbacks[(output, id)] == Held(d, output, id)
    {
      assert m.holds[(output, id)] == m.callbacks[(output, id)] == Held(m, output, id);
    }
  }

  lemma DropSessionFrame(m: Manager, key: string)
    requires HasOutput(m, key)
    ensures SameRefreshes(m, DropSession(m, key))
  {
  }

  lemma DropSessionKeepsCaches(m: Manager, key: string)
    requires HasOutput(m, key)
    ensures SameCaches(m, DropSession(m, key)) && (Streaming(m) ==> Streaming(DropSession(m, key)))
  {
  }

  lemma DropSessionKeepsInv(m: Manager, key: string)
    requires Inv(m)
    ensures Inv(DropSession(m, key)) && key !in DropSession(m, key).sessions
    ensures DropSession(m, key).pending == m.pending
  {
    var d := DropSession(m, key);
    DropSessionKeepsNamed(m, key);
    DropSessionKeepsLifecycle(m, key);
    DropSessionKeepsHolds(m, key);
    DropSessionFrame(m, key);
    DropSessionKeepsCaches(m, key);
    SameRefreshesKeeps(m, d);
    SameCachesKeeps(m, d);
  }

  lemma DetachKeepsInv(m: Manager, key: string)
    requires Inv(m)
    ensures Inv(Detached(m, key)) && key !in Detached(m, key).sessions && key !in Detached(m, key).pending
    ensures Detached(m, key).issued == m.issued
  {
    DropPendingKeepsInv(m, key);
    DropSessionKeepsInv(DropPending(m, key), key);
  }

  // ----- AllDetached

  lemma AllDetachedKeepsLifecycle(m: Manager)
    requires Named(m) && Lifecycle(m)
    ensures Named(AllDetached(m)) && Lifecycle(AllDetached(m))
  {
    var d := AllDetached(m);
    forall id | id in d.arena
      ensures LifeOf(d, id)
    {
      assert LifeOf(m, id);
    }
  }

  lemma AllDetachedKeepsHolds(m: Manager)
    requires Lifecycle(m)
    ensures Conserved(AllDetached(m))
  {
    forall output, id
      ensures Held(AllDetached(m), output, id) == 0
    {
      assert id in m.arena ==> LifeOf(m, id);
    }
  }

  lemma AllDetachedFrame(m: Manager)
    ensures var d := AllDetached(m);
            SameRefreshes(m, d) && SameCaches(m, d) && (Streaming(m) ==> Streaming(d))
  {
  }

  lemma AllDetachedKeepsInv(m: Manager)
    requires Inv(m)
    ensures Inv(AllDetached(m))
  {
    AllDetachedKeepsLifecycle(m);
    AllDetachedKeepsHolds(m);
    AllDetachedFrame(m);
    SameRefreshesKeeps(m, AllDetached(m));
    SameCachesKeeps(m, AllDetached(m));
  }

  // ----- Opened

  lemma OpenedKeepsNamed(m: Manager, key: string, signer: Signer, job: PrepareJob)
    requires Named(m) && key !in m.sessions && key !in m.pending
    ensures Named(Opened(m, key, signer, job))
  {
  }

  lemma OpenedKeepsLifeOf(m: Manager, key: string, signer: Signer, job: PrepareJob, id: SessionId)
    requires key !in m.pending && id != m.nextId && id in m.arena && LifeOf(m, id)
    ensures id in Opened(m, key, signer, job).arena && LifeOf(Opened(m, key, signer, job), id)
  {
  }

  lemma OpenedKeepsLifecycle(m: Manager, key: string, signer: Signer, job: PrepareJob)
    requires Named(m) && Lifecycle(m) && key !in m.sessions && key !in m.pending
    ensures Lifecycle(Opened(m, key, signer, job))
  {
    var o := Opened(m, key, signer, job);
    forall id | id in o.arena
      ensures LifeOf(o, id)
    {
      if id != m.nextId {
        OpenedKeepsLifeOf(m, key, signer, job, id);
      }
    }
  }

  lemma OpenedFrame(m: Manager, key: string, signer: Signer, job: PrepareJob)
    requires m.nextId !in m.arena
    ensures var o := Opened(m, key, signer, job);
            SameHolds(m, o) && SameRefreshes(m, o) && (Streaming(m) ==> Streaming(o))
  {
  }

  lemma OpenedKeepsSeparated(m: Manager, key: string, signer: Signer, job: PrepareJob)
    requires Separated(m) && m.nextId !in m.arena
    requires job.cached.Some? ==> Issues(signer, job.cached.value.signatures) <= m.issued
    ensures Separated(Opened(m, key, signer, job))
  {
  }

  lemma OpenedKeepsInv(m: Manager, key: string, signer: Signer, job: PrepareJob)
    requires Inv(m) && key !in m.sessions && key !in m.pending
    requires job.cached.Some? ==> Issues(signer, job.cached.value.signatures) <= m.issued
    ensures Inv(Opened(m, key, signer, job))
  {
    OpenedKeepsNamed(m, key, signer, job);
    OpenedKeepsLifecycle(m, key, signer, job);
    OpenedFrame(m, key, signer, job);
    SameHoldsKeeps(m, Opened(m, key, signer, job));
    SameRefreshesKeeps(m, Opened(m, key, signer, job));
    OpenedKeepsSeparated(m, key, signer, job);
  }

  // ----- Arrived and AttachedTo

  lemma ArrivedKeepsNamed(m: Manager, id: SessionId, batch: Batch)
    requires Named(m) && id in m.arena
    ensures Named(Arrived(m, id, batch))
  {
  }

  lemma ArrivedKeepsLifecycle(m: Manager, id: SessionId, batch: Batch)
    requires Named(m) && Lifecycle(m) && id in m.prepares
    ensures Lifecycle(Arrived(m, id, batch))
  {
    var a := Arrived(m, id, batch);
    forall other | other in a.arena
      ensures LifeOf(a, other)
    {
      assert LifeOf(m, other);
    }
  }

  lemma ArrivedFrame(m: Manager, id: SessionId, batch: Batch)
    requires id in m.arena
    ensures var a := Arrived(m, id, batch);
            SameHolds(m, a) && SameRefreshes(m, a) && SameCaches(m, a) && (Streaming(m) ==> Streaming(a))
  {
  }

  lemma ArrivedKeepsInv(m: Manager, id: SessionId, batch: Batch)
    requires Inv(m) && id in m.prepares
    ensures Inv(Arrived(m, id, batch))
  {
    var a := Arrived(m, id, batch);
    ArrivedKeepsNamed(m, id, batch);
    ArrivedKeepsLifecycle(m, id, batch);
    ArrivedFrame(m, id, batch);
    SameHoldsKeeps(m, a);
    SameRefreshesKeeps(m, a);
    SameCachesKeeps(m, a);
  }

  lemma LearnedKeepsInv(m: Manager, signer: Signer, batch: Batch)
    requires Inv(m) && Issues(signer, batch.signatures) <= m.issued
    ensures Inv(Learned(m, signer, batch))
  {
    var l := Learned(m, signer, batch);
    SameLifeKeeps(m, l);
    SameHoldsKeeps(m, l);
    SameRefreshesKeeps(m, l);
  }

  lemma AttachedToKeepsNamed(m: Manager, id: SessionId, batch: Batch, output: Output)
    requires Named(m) && id in m.arena && m.arena[id].name !in m.pending
    ensures Named(AttachedTo(m, id, batch, output))
  {
  }

  lemma AttachedToKeepsLifeOf(m: Manager, id: SessionId, batch: Batch, output: Output, other: SessionId)
    requires id in m.arena && !m.arena[id].cancelled && id !in m.prepares
    requires m.arena[id].name !in m.sessions && m.arena[id].name !in m.pending
    requires other in m.arena && LifeOf(m, other)
    ensures other in AttachedTo(m, id, batch, output).arena && LifeOf(AttachedTo(m, id, batch, output), other)
  {
  }

  lemma AttachedToKeepsLifecycle(m: Manager, id: SessionId, batch: Batch, output: Output)
    requires Named(m) && Lifecycle(m)
    requires id in m.arena && !m.arena[id].cancelled && id !in m.prepares
    requires m.arena[id].name !in m.sessions && m.arena[id].name !in m.pending
    ensures Lifecycle(AttachedTo(m, id, batch, output))
  {
    var a := AttachedTo(m, id, batch, output);
    assert a.arena.Keys == m.arena.Keys && m.arena[id].name in a.sessions;
    forall other | other in a.arena
      ensures LifeOf(a, other)
    {
      AttachedToKeepsLifeOf(m, id, batch, output, other);
    }
  }

  lemma AttachedToKeepsHolds(m: Manager, id: SessionId, batch: Batch, output: Output)
    requires Conserved(m) && id in m.arena && m.arena[id].output == None
    ensures Conserved(AttachedTo(m, id, batch, output))
  {
    var a := AttachedTo(m, id, batch, output);
    forall held, other
      ensures a.holds[(held, other)] == a.callbacks[(held, other)] == Held(a, held, other)
    {
      assert m.holds[(held, other)] == m.callbacks[(held, other)] == Held(m, held, other);
    }
  }

  lemma AttachedToKeepsRefreshes(m: Manager, id: SessionId, batch: Batch, output: Output)
    requires id in m.arena
    ensures SameRefreshes(m, AttachedTo(m, id, batch, output))
    ensures Streaming(m) ==> Streaming(AttachedTo(m, id, batch, output))
  {
  }

  lemma AttachedToKeepsSeparated(m: Manager, id: SessionId, batch: Batch, output: Output)
    requires Separated(m) && id in m.arena && Issues(m.arena[id].signer, batch.signatures) <= m.issued
    ensures Separated(AttachedTo(m, id, batch, output))
  {
    MergedIsIssued(m.arena[id].signer, m.arena[id].cache, batch.signatures, m.issued);
  }

  lemma MergedIsIssued(signer: Signer, cache: Signatures, batch: Signatures,
                       issued: set<(Signer, int, FrameSignResult)>)
    requires Issues(signer, cache) <= issued && Issues(signer, batch) <= issued
    ensures Issues(signer, Merged(cache, batch)) <= issued
  {
    forall t | t in Merged(cache, batch)
      ensures (signer, t, Merged(cache, batch)[t]) in issued
    {
      assert t in ValidOnly(batch) ==> (signer, t, batch[t]) in Issues(signer, batch);
      assert t in cache ==> (signer, t, cache[t]) in Issues(signer, cache);
    }
  }

  lemma AttachedToKeepsInv(m: Manager, id: SessionId, batch: Batch, output: Output)
    requires Inv(m) && id in m.arena && !m.arena[id].cancelled && id !in m.prepares
    requires m.arena[id].name !in m.sessions && m.arena[id].name !in m.pending
    requires Issues(m.arena[id].signer, batch.signatures) <= m.issued
    ensures Inv(AttachedTo(m, id, batch, output))
  {
    assert !Attached(m, id);
    AttachedToKeepsNamed(m, id, batch, output);
    AttachedToKeepsLifecycle(m, id, batch, output);
    AttachedToKeepsHolds(m, id, batch, output);
    AttachedToKeepsRefreshes(m, id, batch, output);
    SameRefreshesKeeps(m, AttachedTo(m, id, batch, output));
    AttachedToKeepsSeparated(m, id, batch, output);
  }

  // ----- Rebound

  lemma MovedFrame(m: Manager, n: Manager, id: SessionId)
    requires id in m.arena && m.arena[id].output.Some? && id in n.arena && n.arena[id].output.Some?
    requires n == m.(arena := m.arena[id := n.arena[id]], holds := n.holds, callbacks := n.callbacks)
    requires n.arena[id] == m.arena[id].(stream := FRESH, output := n.arena[id].output)
    ensures SameLife(m, n) && SameRefreshes(m, n) && SameCaches(m, n) && (Streaming(m) ==> Streaming(n))
  {
  }

  lemma ReboundKeepsHolds(m: Manager, current: Option<Output>)
    requires HasOutput(m, MAIN_STREAM_KEY) && Conserved(m) && MAIN_STREAM_KEY in m.sessions
    ensures Conserved(Rebound(m, current))
  {
    var r, moved := Rebound(m, current), m.sessions[MAIN_STREAM_KEY];
    forall output, id
      ensures r.holds[(output, id)] == r.callbacks[(output, id)] == Held(r, output, id)
    {
      assert m.holds[(output, id)] == m.callbacks[(output, id)] == Held(m, output, id);
      assert id in r.arena <==> id in m.arena;
      assert id != moved && id in m.arena ==> r.arena[id] == m.arena[id];
    }
  }

  lemma ReboundKeepsInv(m: Manager, current: Option<Output>)
    requires Inv(m)
    ensures Inv(Rebound(m, current))
  {
    if MAIN_STREAM_KEY in m.sessions {
      var r := Rebound(m, current);
      MovedFrame(m, r, m.sessions[MAIN_STREAM_KEY]);
      SameLifeKeeps(m, r);
      ReboundKeepsHolds(m, current);
      SameRefreshesKeeps(m, r);
      SameCachesKeeps(m, r);
    }
  }

  // ----- Refreshed

  lemma RefreshedFrame(m: Manager, job: JobId, batch: Batch)
    requires job in m.refreshes
    ensures var r := Refreshed(m, job, batch);
            SameLife(m, r) && SameHolds(m, r) && (Streaming(m) ==> Streaming(r))
  {
  }

  lemma RefreshedKeepsRefreshing(m: Manager, job: JobId, batch: Batch)
    requires Refreshing(m) && job in m.refreshes
    ensures Refreshing(Refreshed(m, job, batch))
  {
    var r := Refreshed(m, job, batch);
    forall id | id in r.arena && r.arena[id].refreshing
      ensures exists other :: other in r.refreshes && id in r.refreshes[other].members
    {
      var other :| other in m.refreshes && id in m.refreshes[other].members;
      assert other in r.refreshes;
    }
  }

  lemma RefreshedKeepsSeparated(m: Manager, job: JobId, batch: Batch)
    requires Separated(m) && JobMembers(m) && job in m.refreshes
    ensures Separated(Refreshed(m, job, batch))
  {
    var r := Refreshed(m, job, batch);
    forall id | id in m.arena
      ensures Issues(m.arena[id].signer, r.arena[id].cache) <= r.issued
    {
      if id in m.refreshes[job].members {
        MergedIsIssued(job.1, m.arena[id].cache, batch.signatures, r.issued);
      }
    }
  }

  lemma RefreshedKeepsInv(m: Manager, job: JobId, batch: Batch)
    requires Inv(m) && job in m.refreshes
    ensures Inv(Refreshed(m, job, batch))
  {
    var r := Refreshed(m, job, batch);
    RefreshedFrame(m, job, batch);
    SameLifeKeeps(m, r);
    SameHoldsKeeps(m, r);
    RefreshedKeepsRefreshing(m, job, batch);
    RefreshedKeepsSeparated(m, job, batch);
  }

  // ----- A packet

  lemma SessionPassedKeeps(session: Session, frame: Frame, known: bool, stored: bool)
    requires Coupled(session.stream)
    ensures var after := SessionPassed(session, frame, known, stored);
            Coupled(after.stream) && after == session.(stream := after.stream, fatal := after.fatal)
  {
    TransformKeepsCoupled(session.stream, session.signer.config, frame, session.cache);
  }

  lemma PassedFrame(m: Manager, id: SessionId, after: Session)
    requires id in m.arena && after == m.arena[id].(stream := after.stream, fatal := after.fatal)
    ensures var n := m.(arena := m.arena[id := after]);
            SameLife(m, n) && SameHolds(m, n) && SameRefreshes(m, n) && SameCaches(m, n)
  {
  }

  lemma PassedKeepsInv(m: Manager, id: SessionId, frame: Frame, known: bool, stored: bool)
    requires Inv(m) && id in m.arena
    ensures Inv(Passed(m, id, frame, known, stored))
  {
    var n := Passed(m, id, frame, known, stored);
    SessionPassedKeeps(m.arena[id], frame, known, stored);
    PassedFrame(m, id, SessionPassed(m.arena[id], frame, known, stored));
    SameLifeKeeps(m, n);
    SameHoldsKeeps(m, n);
    SameRefreshesKeeps(m, n);
    SameCachesKeeps(m, n);
  }

  // ----- Ticked

  lemma TickedFrame(m: Manager, now: int, launched: set<Signer>)
    ensures var t := Ticked(m, now, launched);
            SameLife(m, t) && SameHolds(m, t) && (Streaming(m) ==> Streaming(t))
  {
  }

  lemma TickedKeepsSeparated(m: Manager, now: int, launched: set<Signer>)
    requires Separated(m)
    ensures Separated(Ticked(m, now, launched))
  {
    var t := Ticked(m, now, launched);
    forall id | id in m.arena
      ensures Issues(m.arena[id].signer, t.arena[id].cache) <= m.issued
    {
      var signer := m.arena[id].signer;
      if signer in m.shared {
        MergedIsIssued(signer, m.arena[id].cache, m.shared[signer].signatures, m.issued);
      }
    }
  }

  lemma TickedMembers(m: Manager, now: int, launched: set<Signer>, job: JobId, id: SessionId)
    requires JobMembers(m)
    requires job in Ticked(m, now, launched).refreshes && id in Ticked(m, now, launched).refreshes[job].members
    ensures id in m.arena && m.arena[id].signer == job.1
    ensures if job.0 == m.ticks then Stale(m, id, now) && job.1 in launched
            else job in m.refreshes && id in m.refreshes[job].members && m.arena[id].refreshing
    ensures Ticked(m, now, launched).arena[id].refreshing
  {
  }

  lemma TickedHasJob(m: Manager, now: int, launched: set<Signer>, id: SessionId)
    requires InSomeJob(m) && JobMembers(m) && id in m.arena && Ticked(m, now, launched).arena[id].refreshing
    ensures var t := Ticked(m, now, launched);
            exists job :: job in t.refreshes && id in t.refreshes[job].members
  {
    var t := Ticked(m, now, launched);
    if m.arena[id].refreshing {
      var job :| job in m.refreshes && id in m.refreshes[job].members;
      assert job in t.refreshes && t.refreshes[job] == m.refreshes[job];
    } else {
      var job := (m.ticks, m.arena[id].signer);
      assert job in t.refreshes && id in t.refreshes[job].members;
    }
  }

  lemma TickedKeepsJobMembers(m: Manager, now: int, launched: set<Signer>)
    requires JobMembers(m)
    ensures JobMembers(Ticked(m, now, launched))
  {
    var t := Ticked(m, now, launched);
    forall job, id | job in t.refreshes && id in t.refreshes[job].members
      ensures id in t.arena && t.arena[id].refreshing && t.arena[id].signer == job.1
    {
      TickedMembers(m, now, launched, job, id);
    }
  }

  lemma TickedKeepsInOneJob(m: Manager, now: int, launched: set<Signer>)
    requires JobMembers(m) && InOneJob(m)
    ensures InOneJob(Ticked(m, now, launched))
  {
    var t := Ticked(m, now, launched);
    forall a, b, id | a in t.refreshes && b in t.refreshes && id in t.refreshes[a].members &&
      id in t.refreshes[b].members
      ensures a == b
    {
      TickedMembers(m, now, launched, a, id);
      TickedMembers(m, now, launched, b, id);
    }
  }

  lemma TickedKeepsInSomeJob(m: Manager, now: int, launched: set<Signer>)
    requires JobMembers(m) && InSomeJob(m)
    ensures InSomeJob(Ticked(m, now, launched))
  {
    var t := Ticked(m, now, launched);
    forall id | id in t.arena && t.arena[id].refreshing
      ensures exists job :: job in t.refreshes && id in t.refreshes[job].members
    {
      TickedHasJob(m, now, launched, id);
    }
  }

  // ----- Runs

  datatype Event =
    | Prepare(request: Request, found: bool, now: int, launched: bool)
    | FinishPrepare(id: SessionId, batch: Batch, output: Option<Output>)
    | Detach(key: string)
    | DetachAll
    | Rebind(current: Option<Output>)
    | Tick(time: int, started: set<Signer>)
    | FinishRefresh(job: JobId, fetched: Batch)
    | Packet(passing: SessionId, frame: Frame, known: bool, stored: bool)

  /** A job finishes at most once, a cached first batch is delivered unchanged, and a packet needs a callback. */
  ghost predicate Enabled(m: Manager, e: Event) {
    match e
    case FinishPrepare(id, batch, _) => id in m.prepares &&
      (m.prepares[id].cached.Some? ==> batch == m.prepares[id].cached.value)
    case FinishRefresh(job, _) => job in m.refreshes
    case Packet(id, _, _, _) => Attached(m, id)
    case _ => true
  }

  ghost function Step(m: Manager, e: Event): Manager
    requires Inv(m) && Enabled(m, e)
  {
    match e
    case Prepare(request, found, now, launched) => Prepared(m, request, found, now, launched)
    case FinishPrepare(id, batch, output) => PrepareFinished(m, id, batch, output)
    case Detach(key) => Detached(m, key)
    case DetachAll => AllDetached(m)
    case Rebind(current) => Rebound(m, current)
    case Tick(time, started) => Ticked(m, time, started)
    case FinishRefresh(job, fetched) => Refreshed(m, job, fetched)
    case Packet(id, frame, known, stored) => Passed(m, id, frame, known, stored)
  }

  lemma PreparedKeepsInv(m: Manager, request: Request, found: bool, now: int, launched: bool)
    requires Inv(m)
    ensures Inv(Prepared(m, request, found, now, launched))
  {
    if Admissible(request, found) {
      var key := OutputKey(request.name);
      var d := Detached(m, key);
      DetachKeepsInv(m, key);
      if Fresh(m, request.signer, now) {
        OpenedKeepsInv(d, key, request.signer, PrepareJob(now, Some(m.shared[request.signer])));
      } else if launched {
        OpenedKeepsInv(d, key, request.signer, PrepareJob(now, None));
      }
    }
  }

  lemma PrepareFinishedKeepsInv(m: Manager, id: SessionId, batch: Batch, output: Option<Output>)
    requires Inv(m) && id in m.prepares
    ensures Inv(PrepareFinished(m, id, batch, output))
  {
    var arrived := Arrived(m, id, batch);
    ArrivedKeepsInv(m, id, batch);
    if Pending(m, id) && batch.Valid() {
      var learned := Learned(arrived, m.arena[id].signer, batch);
      LearnedKeepsInv(arrived, m.arena[id].signer, batch);
      if output.Some? {
        AttachedToKeepsInv(learned, id, batch, output.value);
      }
    }
  }

  lemma TickedKeepsInv(m: Manager, now: int, launched: set<Signer>)
    requires Inv(m)
    ensures Inv(Ticked(m, now, launched))
  {
    TickedFrame(m, now, launched);
    SameLifeKeeps(m, Ticked(m, now, launched));
    SameHoldsKeeps(m, Ticked(m, now, launched));
    TickedKeepsJobMembers(m, now, launched);
    TickedKeepsInSomeJob(m, now, launched);
    TickedKeepsInOneJob(m, now, launched);
    TickedKeepsSeparated(m, now, launched);
  }

  /** Every handler keeps the invariant, whatever its inputs. */
  lemma StepKeepsInv(m: Manager, e: Event)
    requires Inv(m) && Enabled(m, e)
    ensures Inv(Step(m, e))
  {
    match e
    case Prepare(request, found, now, launched) => PreparedKeepsInv(m, request, found, now, launched);
    case FinishPrepare(id, batch, output) => PrepareFinishedKeepsInv(m, id, batch, output);
    case Detach(key) => DetachKeepsInv(m, key);
    case DetachAll => AllDetachedKeepsInv(m);
    case Rebind(current) => ReboundKeepsInv(m, current);
    case Tick(time, started) => TickedKeepsInv(m, time, started);
    case FinishRefresh(job, fetched) => RefreshedKeepsInv(m, job, fetched);
    case Packet(id, frame, known, stored) => PassedKeepsInv(m, id, frame, known, stored);
  }

  /** The state after a run, or None when an event was not enabled. */
  ghost function RunFrom(m: Manager, events: seq<Event>): (after: Option<Manager>)
    requires Inv(m)
    ensures after.Some? ==> Inv(after.value)
    decreases |events|
  {
    if events == [] then Some(m)
    else
      match RunFrom(m, events[..|events| - 1])
      case None => None
      case Some(before) =>
        var e := events[|events| - 1];
        if !Enabled(before, e) then None
        else
          StepKeepsInv(before, e);
          Some(Step(before, e))
  }

  /**
   On every interleaving of the handlers and the jobs they launch: each attached session holds one
   reference and one callback on its own output and nothing else is held, no name is both attached
   and pending, a session is refreshing exactly while one job serves it, and no session holds a
   signature issued for another signer.
   */
  lemma EveryRunIsSound(events: seq<Event>)
    requires RunFrom(START, events).Some?
    ensures var m := RunFrom(START, events).value;
            && Conserved(m) && m.sessions.Keys !! m.pending.Keys && Refreshing(m) && Separated(m)
            && (m.sessions == map[] ==> m.holds == m.callbacks == multiset{} && !m.timerActive)
  {
    NothingHeldWhenIdle(RunFrom(START, events).value);
  }

  lemma NothingHeldWithoutOutputs(m: Manager)
    requires Conserved(m) && forall id :: id in m.arena ==> m.arena[id].output == None
    ensures m.holds == m.callbacks == multiset{}
  {
    forall output, id
      ensures m.holds[(output, id)] == m.callbacks[(output, id)] == 0
    {
      assert m.holds[(output, id)] == Held(m, output, id);
    }
    NoPairs(m.holds);
    NoPairs(m.callbacks);
  }

  lemma NothingHeldWhenIdle(m: Manager)
    requires Inv(m)
    ensures m.sessions == map[] ==> m.holds == m.callbacks == multiset{}
  {
    if m.sessions == map[] {
      forall id | id in m.arena
        ensures m.arena[id].output == None
      {
        assert LifeOf(m, id);
      }
      NothingHeldWithoutOutputs(m);
    }
  }

  lemma NoPairs<T, U>(s: multiset<(T, U)>)
    requires forall a: T, b: U :: s[(a, b)] == 0
    ensures s == multiset{}
  {
    forall x: (T, U)
      ensures s[x] == 0
    {
      var (a, b) := x;
      assert x == (a, b);
    }
    if s != multiset{} {
      var entry := AnEntry(s);
    }
  }

  lemma DropPendingCancels(m: Manager, key: string, id: SessionId)
    requires Named(m) && id in m.arena
    ensures id in DropPending(m, key).arena
    ensures m.arena[id].cancelled || (Pending(m, id) && m.arena[id].name == key) ==>
              DropPending(m, key).arena[id].cancelled
    ensures Attached(m, id) ==>
              Attached(DropPending(m, key), id) && DropPending(m, key).arena[id].name == m.arena[id].name
  {
  }

  lemma DropSessionCancels(m: Manager, key: string, id: SessionId)
    requires Named(m) && Lifecycle(m) && id in m.arena
    ensures id in DropSession(m, key).arena
    ensures m.arena[id].cancelled || (Attached(m, id) && m.arena[id].name == key) ==>
              DropSession(m, key).arena[id].cancelled
  {
  }

  lemma DetachCancels(m: Manager, key: string, id: SessionId)
    requires Inv(m) && id in m.arena
    ensures id in Detached(m, key).arena && id < Detached(m, key).nextId
    ensures m.arena[id].cancelled || ((Attached(m, id) || Pending(m, id)) && m.arena[id].name == key) ==>
              Detached(m, key).arena[id].cancelled
  {
    DropPendingCancels(m, key, id);
    DropPendingKeepsInv(m, key);
    DropSessionCancels(DropPending(m, key), key, id);
  }

  lemma FinishKeepsCancelled(m: Manager, finished: SessionId, batch: Batch, output: Option<Output>, id: SessionId)
    requires finished in m.arena && id in m.arena && m.arena[id].cancelled
    ensures id in PrepareFinished(m, finished, batch, output).arena &&
            PrepareFinished(m, finished, batch, output).arena[id].cancelled
  {
  }

  lemma ReboundKeepsCancelled(m: Manager, current: Option<Output>, id: SessionId)
    requires HasOutput(m, MAIN_STREAM_KEY) && id in m.arena && m.arena[id].cancelled
    ensures id in Rebound(m, current).arena && Rebound(m, current).arena[id].cancelled
  {
  }

  lemma RefreshedKeepsCancelled(m: Manager, job: JobId, batch: Batch, id: SessionId)
    requires job in m.refreshes && id in m.arena && m.arena[id].cancelled
    ensures id in Refreshed(m, job, batch).arena && Refreshed(m, job, batch).arena[id].cancelled
  {
  }

  lemma PassedKeepsCancelled(m: Manager, passing: SessionId, frame: Frame, known: bool, stored: bool, id: SessionId)
    requires passing in m.arena && Coupled(m.arena[passing].stream) && id in m.arena && m.arena[id].cancelled
    ensures var after := Passed(m, passing, frame, known, stored);
            id in after.arena && after.arena[id].cancelled
  {
    SessionPassedKeeps(m.arena[passing], frame, known, stored);
  }

  lemma CancelledStays(m: Manager, e: Event, id: SessionId)
    requires Inv(m) && Enabled(m, e) && id in m.arena && m.arena[id].cancelled
    ensures var after := Step(m, e);
            id in after.arena && after.arena[id].cancelled
  {
    match e
    case Prepare(request, found, now, launched) => DetachCancels(m, OutputKey(request.name), id);
    case FinishPrepare(finished, batch, output) => FinishKeepsCancelled(m, finished, batch, output, id);
    case Detach(key) => DetachCancels(m, key, id);
    case DetachAll =>
    case Rebind(current) => ReboundKeepsCancelled(m, current, id);
    case Tick(time, started) =>
    case FinishRefresh(job, fetched) => RefreshedKeepsCancelled(m, job, fetched, id);
    case Packet(passing, frame, known, stored) => PassedKeepsCancelled(m, passing, frame, known, stored, id);
  }

  /** A session that was detached or superseded is never attached or pending again, in any run. */
  lemma {:induction false} SupersededNeverAttaches(m: Manager, events: seq<Event>, id: SessionId)
    requires Inv(m) && id in m.arena && m.arena[id].cancelled
    requires RunFrom(m, events).Some?
    ensures var after := RunFrom(m, events).value;
            id in after.arena && after.arena[id].cancelled && !Attached(after, id) && !Pending(after, id)
    decreases |events|
  {
    if events != [] {
      var before := RunFrom(m, events[..|events| - 1]).value;
      SupersededNeverAttaches(m, events[..|events| - 1], id);
      CancelledStays(before, events[|events| - 1], id);
    }
  }

  lemma OpenedKeepsCancelled(m: Manager, key: string, signer: Signer, job: PrepareJob, id: SessionId)
    requires id in m.arena && m.arena[id].cancelled && id != m.nextId
    ensures id in Opened(m, key, signer, job).arena && Opened(m, key, signer, job).arena[id].cancelled
  {
  }

  /** Preparing a name again, with whatever it leads to, supersedes what was attached or pending under it. */
  lemma PrepareSupersedes(m: Manager, request: Request, now: int, launched: bool, id: SessionId)
    requires Inv(m) && id in m.arena && Admissible(request, true)
    requires id in Detached(m, OutputKey(request.name)).arena &&
             Detached(m, OutputKey(request.name)).arena[id].cancelled
    ensures var after := Prepared(m, request, true, now, launched);
            id in after.arena && after.arena[id].cancelled
  {
    var key := OutputKey(request.name);
    var d := Detached(m, key);
    DetachKeepsIds(m, key);
    if Fresh(m, request.signer, now) {
      OpenedKeepsCancelled(d, key, request.signer, PrepareJob(now, Some(m.shared[request.signer])), id);
    } else {
      OpenedKeepsCancelled(d, key, request.signer, PrepareJob(now, None), id);
    }
  }

  /** Detaching a name, or preparing it again, supersedes whatever was attached or pending under it. */
  lemma DetachSupersedes(m: Manager, request: Request, now: int, launched: bool, id: SessionId)
    requires Inv(m) && (Attached(m, id) || Pending(m, id)) && m.arena[id].name == OutputKey(request.name)
    ensures Detached(m, OutputKey(request.name)).arena[id].cancelled
    ensures Admissible(request, true) ==> Prepared(m, request, true, now, launched).arena[id].cancelled
  {
    DetachCancels(m, OutputKey(request.name), id);
    if Admissible(request, true) {
      PrepareSupersedes(m, request, now, launched, id);
    }
  }

  /** Detaching everything supersedes whatever was attached or pending, and nothing else. */
  lemma DetachAllSupersedes(m: Manager, id: SessionId)
    requires Inv(m) && id in m.arena
    ensures var d := AllDetached(m);
            && d.sessions == map[] && d.pending == map[] && !d.timerActive && d.holds == d.callbacks == multiset{}
            && id in d.arena
            && if Attached(m, id) || Pending(m, id) then d.arena[id].cancelled else d.arena[id] == m.arena[id]
  {
  }

  /**
   When the main stream starts, its session is on the output that OBS reports, or on its own one if OBS reports
   none, with one reference and one callback there, and starts its schedule afresh.
   */
  lemma RebindFollowsOutput(m: Manager, current: Option<Output>, id: SessionId)
    requires Inv(m) && Attached(m, id) && m.arena[id].name == MAIN_STREAM_KEY
    ensures var r := Rebound(m, current);
            && Attached(r, id) && r.arena[id].stream == FRESH && r.arena[id].output.Some?
            && r.arena[id].output == (if current.Some? then current else m.arena[id].output)
            && r.holds[(r.arena[id].output.value, id)] == r.callbacks[(r.arena[id].output.value, id)] == 1
            && forall output :: output != r.arena[id].output.value ==> r.holds[(output, id)] == 0
  {
    ReboundKeepsInv(m, current);
    assert LifeOf(m, id);
    var r := Rebound(m, current);
    assert forall output :: r.holds[(output, id)] == r.callbacks[(output, id)] == Held(r, output, id);
  }

  // ----- A pending session is attached unless something supersedes it

  /** The event takes the place of whatever is attached or pending under a name. */
  predicate Supersedes(e: Event, key: string) {
    match e
    case Prepare(request, found, _, _) => OutputKey(request.name) == key && Admissible(request, found)
    case Detach(name) => name == key
    case DetachAll => true
    case _ => false
  }

  predicate Delivers(e: Event, id: SessionId) {
    e.FinishPrepare? && e.id == id
  }

  /** The session is the one pending under this name. */
  predicate Waits(m: Manager, id: SessionId, key: string) {
    id in m.arena && m.arena[id].name == key && key in m.pending && m.pending[key] == id
  }

  lemma DropPendingWaits(m: Manager, dropped: string, id: SessionId, key: string)
    requires dropped in m.pending ==> m.pending[dropped] in m.arena
    ensures Waits(DropPending(m, dropped), id, key) <==> Waits(m, id, key) && dropped != key
    ensures HasOutput(m, dropped) ==> HasOutput(DropPending(m, dropped), dropped)
  {
  }

  lemma DropSessionWaits(m: Manager, dropped: string, id: SessionId, key: string)
    requires HasOutput(m, dropped)
    ensures Waits(DropSession(m, dropped), id, key) <==> Waits(m, id, key)
  {
  }

  lemma DetachWaits(m: Manager, detached: string, id: SessionId, key: string)
    requires HasOutput(m, detached) && (detached in m.pending ==> m.pending[detached] in m.arena)
    ensures Waits(Detached(m, detached), id, key) <==> Waits(m, id, key) && detached != key
  {
    DropPendingWaits(m, detached, id, key);
    DropSessionWaits(DropPending(m, detached), detached, id, key);
  }

  lemma OpenedWaits(m: Manager, name: string, signer: Signer, job: PrepareJob, id: SessionId, key: string)
    requires id != m.nextId
    ensures Waits(Opened(m, name, signer, job), id, key) <==> Waits(m, id, key) && name != key
  {
  }

  lemma PrepareWaits(m: Manager, request: Request, found: bool, now: int, launched: bool, id: SessionId, key: string)
    requires Inv(m) && Waits(m, id, key)
    ensures Waits(Prepared(m, request, found, now, launched), id, key) <==>
              !(OutputKey(request.name) == key && Admissible(request, found))
  {
    if Admissible(request, found) {
      var name := OutputKey(request.name);
      var d := Detached(m, name);
      DetachWaits(m, name, id, key);
      DetachCancels(m, name, id);
      if Fresh(m, request.signer, now) {
        OpenedWaits(d, name, request.signer, PrepareJob(now, Some(m.shared[request.signer])), id, key);
      } else {
        OpenedWaits(d, name, request.signer, PrepareJob(now, None), id, key);
      }
    }
  }

  lemma FinishWaits(m: Manager, finished: SessionId, batch: Batch, output: Option<Output>, id: SessionId, key: string)
    requires finished in m.arena && Waits(m, id, key)
    ensures Waits(PrepareFinished(m, finished, batch, output), id, key) <==> finished != id
  {
  }

  lemma ReboundWaits(m: Manager, current: Option<Output>, id: SessionId, key: string)
    requires HasOutput(m, MAIN_STREAM_KEY)
    ensures Waits(Rebound(m, current), id, key) <==> Waits(m, id, key)
  {
  }

  lemma TickedWaits(m: Manager, now: int, launched: set<Signer>, id: SessionId, key: string)
    ensures Waits(Ticked(m, now, launched), id, key) <==> Waits(m, id, key)
  {
  }

  lemma RefreshedWaits(m: Manager, job: JobId, batch: Batch, id: SessionId, key: string)
    requires job in m.refreshes
    ensures Waits(Refreshed(m, job, batch), id, key) <==> Waits(m, id, key)
  {
  }

  lemma UpdatedWaits(m: Manager, passing: SessionId, after: Session, id: SessionId, key: string)
    requires passing in m.arena && after.name == m.arena[passing].name
    ensures Waits(m.(arena := m.arena[passing := after]), id, key) <==> Waits(m, id, key)
  {
  }

  lemma PassedWaits(m: Manager, passing: SessionId, frame: Frame, known: bool, stored: bool, id: SessionId, key: string)
    requires passing in m.arena && Coupled(m.arena[passing].stream)
    ensures Waits(Passed(m, passing, frame, known, stored), id, key) <==> Waits(m, id, key)
  {
    SessionPassedKeeps(m.arena[passing], frame, known, stored);
    UpdatedWaits(m, passing, SessionPassed(m.arena[passing], frame, known, stored), id, key);
  }

  lemma PendingUntilDetached(m: Manager, e: Event, id: SessionId, key: string)
    requires Inv(m) && Enabled(m, e) && Waits(m, id, key) &&
             (e.Prepare? || e.FinishPrepare? || e.Detach? || e.DetachAll?)
    ensures Waits(Step(m, e), id, key) <==> !Supersedes(e, key) && !Delivers(e, id)
  {
    match e
    case Prepare(request, found, now, launched) => PrepareWaits(m, request, found, now, launched, id, key);
    case FinishPrepare(finished, batch, output) => FinishWaits(m, finished, batch, output, id, key);
    case Detach(detached) => DetachWaits(m, detached, id, key);
    case DetachAll =>
  }

  lemma PendingThroughout(m: Manager, e: Event, id: SessionId, key: string)
    requires Inv(m) && Enabled(m, e) && Waits(m, id, key) && (e.Rebind? || e.Tick? || e.FinishRefresh?)
    ensures Waits(Step(m, e), id, key)
  {
    match e
    case Rebind(current) => ReboundWaits(m, current, id, key);
    case Tick(time, started) => TickedWaits(m, time, started, id, key);
    case FinishRefresh(job, fetched) => RefreshedWaits(m, job, fetched, id, key);
  }

  /** A session stops being pending exactly when its first batch arrives or something supersedes it. */
  lemma PendingUntil(m: Manager, e: Event, id: SessionId, key: string)
    requires Inv(m) && Enabled(m, e) && Waits(m, id, key)
    ensures Waits(Step(m, e), id, key) <==> !Supersedes(e, key) && !Delivers(e, id)
  {
    if e.Prepare? || e.FinishPrepare? || e.Detach? || e.DetachAll? {
      PendingUntilDetached(m, e, id, key);
    } else if e.Packet? {
      PassedWaits(m, e.passing, e.frame, e.known, e.stored, id, key);
    } else {
      PendingThroughout(m, e, id, key);
    }
  }

  // ----- An attached session stays attached unless something supersedes it

  /** The session is the one attached under this name. */
  predicate Holds(m: Manager, id: SessionId, key: string) {
    id in m.arena && m.arena[id].name == key && key in m.sessions && m.sessions[key] == id
  }

  lemma DropPendingHoldsName(m: Manager, dropped: string, id: SessionId, key: string)
    requires dropped in m.pending ==> m.pending[dropped] in m.arena
    ensures Holds(DropPending(m, dropped), id, key) <==> Holds(m, id, key)
    ensures HasOutput(m, dropped) ==> HasOutput(DropPending(m, dropped), dropped)
  {
  }

  lemma DropSessionHoldsName(m: Manager, dropped: string, id: SessionId, key: string)
    requires HasOutput(m, dropped)
    ensures Holds(DropSession(m, dropped), id, key) <==> Holds(m, id, key) && dropped != key
  {
  }

  lemma DetachHoldsName(m: Manager, detached: string, id: SessionId, key: string)
    requires HasOutput(m, detached) && (detached in m.pending ==> m.pending[detached] in m.arena)
    ensures Holds(Detached(m, detached), id, key) <==> Holds(m, id, key) && detached != key
  {
    DropPendingHoldsName(m, detached, id, key);
    DropSessionHoldsName(DropPending(m, detached), detached, id, key);
  }

  lemma OpenedHoldsName(m: Manager, name: string, signer: Signer, job: PrepareJob, id: SessionId, key: string)
    requires id != m.nextId
    ensures Holds(Opened(m, name, signer, job), id, key) <==> Holds(m, id, key)
  {
  }

  lemma PrepareHoldsName(m: Manager, request: Request, found: bool, now: int, launched: bool, id: SessionId,
                         key: string)
    requires Inv(m) && Holds(m, id, key)
    ensures Holds(Prepared(m, request, found, now, launched), id, key) <==>
              !(OutputKey(request.name) == key && Admissible(request, found))
  {
    if Admissible(request, found) {
      var name := OutputKey(request.name);
      var d := Detached(m, name);
      DetachHoldsName(m, name, id, key);
      DetachKeepsIds(m, name);
      if Fresh(m, request.signer, now) {
        OpenedHoldsName(d, name, request.signer, PrepareJob(now, Some(m.shared[request.signer])), id, key);
      } else if launched {
        OpenedHoldsName(d, name, request.signer, PrepareJob(now, None), id, key);
      }
    }
  }

  lemma FinishHoldsName(m: Manager, finished: SessionId, batch: Batch, output: Option<Output>, id: SessionId,
                        key: string)
    requires Inv(m) && finished in m.arena && Holds(m, id, key)
    ensures Holds(PrepareFinished(m, finished, batch, output), id, key)
  {
    if Pending(m, finished) {
      assert m.arena[finished].name != key;
    }
  }

  lemma SameLifeHolds(m: Manager, n: Manager, id: SessionId, key: string)
    requires SameLife(m, n)
    ensures Holds(n, id, key) <==> Holds(m, id, key)
  {
  }

  lemma ReboundHoldsName(m: Manager, current: Option<Output>, id: SessionId, key: string)
    requires Inv(m) && Holds(m, id, key)
    ensures Holds(Rebound(m, current), id, key)
  {
  }

  lemma PassedHoldsName(m: Manager, passing: SessionId, frame: Frame, known: bool, stored: bool, id: SessionId,
                        key: string)
    requires Inv(m) && passing in m.arena && Holds(m, id, key)
    ensures Holds(Passed(m, passing, frame, known, stored), id, key)
  {
    SessionPassedKeeps(m.arena[passing], frame, known, stored);
    PassedFrame(m, passing, SessionPassed(m.arena[passing], frame, known, stored));
    SameLifeHolds(m, Passed(m, passing, frame, known, stored), id, key);
  }

  /** An attached session stays attached exactly until it is detached, or its name is prepared again. */
  lemma AttachedUntil(m: Manager, e: Event, id: SessionId, key: string)
    requires Inv(m) && Enabled(m, e) && Holds(m, id, key)
    ensures Holds(Step(m, e), id, key) <==> !Supersedes(e, key)
  {
    match e
    case Prepare(request, found, now, launched) => PrepareHoldsName(m, request, found, now, launched, id, key);
    case FinishPrepare(finished, batch, output) => FinishHoldsName(m, finished, batch, output, id, key);
    case Detach(detached) => DetachHoldsName(m, detached, id, key);
    case DetachAll =>
    case Rebind(current) => ReboundHoldsName(m, current, id, key);
    case Tick(time, started) =>
      TickedFrame(m, time, started);
      SameLifeHolds(m, Ticked(m, time, started), id, key);
    case FinishRefresh(job, fetched) =>
      RefreshedFrame(m, job, fetched);
      SameLifeHolds(m, Refreshed(m, job, fetched), id, key);
    case Packet(passing, frame, known, stored) => PassedHoldsName(m, passing, frame, known, stored, id, key);
  }

  // ----- Runs without anything that supersedes a session

  /** Nothing in the run supersedes the name, and nothing delivers to the session. */
  predicate LeavesWaiting(events: seq<Event>, id: SessionId, key: string) {
    forall k :: 0 <= k < |events| ==> !Supersedes(events[k], key) && !Delivers(events[k], id)
  }

  lemma {:induction false} WaitsThrough(m: Manager, events: seq<Event>, id: SessionId, key: string)
    requires Inv(m) && Waits(m, id, key) && RunFrom(m, events).Some? && LeavesWaiting(events, id, key)
    ensures Waits(RunFrom(m, events).value, id, key)
    decreases |events|
  {
    if events != [] {
      WaitsThrough(m, events[..|events| - 1], id, key);
      PendingUntil(RunFrom(m, events[..|events| - 1]).value, events[|events| - 1], id, key);
    }
  }

  lemma DetachKeepsShared(m: Manager, key: string)
    requires HasOutput(m, key) && (key in m.pending ==> m.pending[key] in m.arena)
    ensures Detached(m, key).shared == m.shared
  {
    DropPendingKeepsShared(m, key);
    DropSessionKeepsShared(DropPending(m, key), key);
  }

  lemma DropPendingKeepsShared(m: Manager, key: string)
    requires key in m.pending ==> m.pending[key] in m.arena
    ensures DropPending(m, key).shared == m.shared && (HasOutput(m, key) ==> HasOutput(DropPending(m, key), key))
  {
  }

  lemma DropSessionKeepsShared(m: Manager, key: string)
    requires HasOutput(m, key)
    ensures DropSession(m, key).shared == m.shared
  {
  }

  predicate AllSpace(text: string) {
    forall i :: 0 <= i < |text| ==> IsSpace(text[i])
  }

  /**
   A request opens a session exactly if the service, the three ids and OBS are there, the output is found, and a
   fresh batch is at hand or a worker starts. Without all but the last of these nothing changes at all. A name of
   white space stands for the main stream.
   */
  lemma PrepareOpensIff(m: Manager, request: Request, found: bool, now: int, launched: bool)
    requires Inv(m)
    ensures var after, config := Prepared(m, request, found, now, launched), request.signer.config;
            var admitted := request.serviceValid && request.obsReady && found &&
                            !AllSpace(config.uid) && !AllSpace(config.deviceId) && !AllSpace(config.roomId);
            var key := if AllSpace(request.name) then MAIN_STREAM_KEY else request.name;
            && (m.nextId in after.arena <==> admitted && (Fresh(m, request.signer, now) || launched))
            && (m.nextId in after.arena ==>
                  after.arena[m.nextId].signer == request.signer && Waits(after, m.nextId, key))
            && (!admitted ==> after == m)
  {
    BlankIff(request.signer.config.uid);
    BlankIff(request.signer.config.deviceId);
    BlankIff(request.signer.config.roomId);
    BlankIff(request.name);
    if Admissible(request, found) {
      var key := OutputKey(request.name);
      var d := Detached(m, key);
      DetachKeepsIds(m, key);
      OpenedWaiting(d, key, request.signer, PrepareJob(now, None));
      if Fresh(m, request.signer, now) {
        OpenedWaiting(d, key, request.signer, PrepareJob(now, Some(m.shared[request.signer])));
      }
    }
  }

  lemma OpenedWaiting(m: Manager, key: string, signer: Signer, job: PrepareJob)
    ensures var o := Opened(m, key, signer, job);
            Waits(o, m.nextId, key) && o.arena[m.nextId].signer == signer
  {
  }

  /** A prepare that starts a job leaves a new session waiting under its name. */
  lemma PrepareOpens(m: Manager, request: Request, now: int, launched: bool)
    requires Inv(m) && Admissible(request, true) && (Fresh(m, request.signer, now) || launched)
    ensures var after, key := Prepared(m, request, true, now, launched), OutputKey(request.name);
            key in after.pending && after.pending[key] !in m.arena && Waits(after, after.pending[key], key)
  {
    DetachKeepsIds(m, OutputKey(request.name));
  }

  lemma DetachKeepsIds(m: Manager, key: string)
    requires HasOutput(m, key) && (key in m.pending ==> m.pending[key] in m.arena)
    ensures Detached(m, key).arena.Keys == m.arena.Keys && Detached(m, key).nextId == m.nextId
  {
    var d := DropPending(m, key);
    assert d.arena.Keys == m.arena.Keys && d.nextId == m.nextId && HasOutput(d, key);
    DropSessionKeepsIds(d, key);
  }

  lemma DropSessionKeepsIds(m: Manager, key: string)
    requires HasOutput(m, key)
    ensures DropSession(m, key).arena.Keys == m.arena.Keys && DropSession(m, key).nextId == m.nextId
  {
  }

  lemma ArrivalAttaches(m: Manager, id: SessionId, batch: Batch, output: Output)
    requires id in m.arena && Pending(m, id) && batch.Valid()
    ensures var after := PrepareFinished(m, id, batch, Some(output));
            Attached(after, id) && after.arena[id].output == Some(output)
  {
  }

  /**
   The other half of "superseded sessions never attach": whatever happens in between, a waiting session
   that nothing supersedes is attached to the output OBS finds when its valid first batch arrives.
   */
  lemma UnsupersededAttaches(m: Manager, events: seq<Event>, id: SessionId, key: string, batch: Batch, output: Output)
    requires Inv(m) && Waits(m, id, key) && RunFrom(m, events).Some? && LeavesWaiting(events, id, key) && batch.Valid()
    ensures var before := RunFrom(m, events).value;
            && id in before.prepares && id in before.arena
            && var after := PrepareFinished(before, id, batch, Some(output));
               Attached(after, id) && after.arena[id].output == Some(output)
  {
    WaitsThrough(m, events, id, key);
    var before := RunFrom(m, events).value;
    assert Pending(before, id);
    ArrivalAttaches(before, id, batch, output);
  }
}
