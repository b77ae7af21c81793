/**
 The output signing manager as a state machine. Every handler runs to its end on the GUI thread and
 is one step; background fetches and queued calls are jobs in flight, finished by a later step.
 */
module SigningModel {
  import opened Common
  import opened SignatureCache
  import opened StreamModel

  type SessionId = nat
  /** An OBS output object. */
  type Output = nat

  const MAIN_STREAM_KEY := "@obs-main-stream"
  const REFRESH_AHEAD_SECONDS := 60
  const FRESH_SECONDS := 90

  function OutputKey(name: string): string {
    if Blank(name) then MAIN_STREAM_KEY else name
  }

  /** The service and the account a batch is signed for; equal signers share batches. */
  datatype Signer = Signer(serviceUrl: string, apiKey: string, config: SeiConfig)

  datatype Batch = Batch(signatures: Signatures, failed: bool) {
    predicate Valid() {
      signatures != map[] && !failed
    }
  }

  /** `cache` and `stream` are the signing session of the output; `fatal` says that a packet has failed. */
  datatype Session = Session(
    name: string, signer: Signer, cache: Signatures, output: Option<Output>, refreshing: bool, cancelled: bool,
    stream: StreamState, fatal: bool)

  /** A first batch on its way: fetched by a worker, or already at hand in `cached`. */
  datatype PrepareJob = PrepareJob(startedAt: int, cached: Option<Batch>)

  /** One refresh fetch serves all due sessions of a signer. */
  datatype RefreshJob = RefreshJob(members: set<SessionId>, startedAt: int)

  /** The timer tick that launched a refresh, and its signer. */
  type JobId = (nat, Signer)

  /**
   `holds` and `callbacks` count what the manager has acquired from OBS and not given back: references
   to an output, and packet callbacks on an output, each on behalf of a session. `issued` records
   every signature the service has delivered, with the signer it was delivered for.
   */
  datatype Manager = Manager(
    sessions: map<string, SessionId>, pending: map<string, SessionId>, shared: map<Signer, Batch>,
    arena: map<SessionId, Session>, prepares: map<SessionId, PrepareJob>, refreshes: map<JobId, RefreshJob>,
    timerActive: bool, holds: multiset<(Output, SessionId)>, callbacks: multiset<(Output, SessionId)>,
    issued: set<(Signer, int, FrameSignResult)>, nextId: SessionId, ticks: nat)

  const START := Manager(map[], map[], map[], map[], map[], map[], false, multiset{}, multiset{}, {}, 0, 0)

  datatype Request = Request(name: string, serviceValid: bool, obsReady: bool, signer: Signer)

  // ----- The steps

  ghost predicate Fresh(m: Manager, signer: Signer, now: int) {
    signer in m.shared && m.shared[signer].Valid() &&
    LastTimestamp(m.shared[signer].signatures) >= now + FRESH_SECONDS
  }

  predicate Attached(m: Manager, id: SessionId) {
    id in m.arena && m.arena[id].name in m.sessions && m.sessions[m.arena[id].name] == id
  }

  predicate Pending(m: Manager, id: SessionId) {
    id in m.arena && m.arena[id].name in m.pending && m.pending[m.arena[id].name] == id
  }

  function Cancelled(m: Manager, id: SessionId): Manager
    requires id in m.arena
  {
    m.(arena := m.arena[id := m.arena[id].(cancelled := true)])
  }

  function DropPending(m: Manager, key: string): Manager
    requires key in m.pending ==> m.pending[key] in m.arena
  {
    if key in m.pending then Cancelled(m, m.pending[key]).(pending := m.pending - {key}) else m
  }

  /** The session attached under a name, if any, has an output. */
  predicate HasOutput(m: Manager, key: string) {
    key in m.sessions ==> m.sessions[key] in m.arena && m.arena[m.sessions[key]].output.Some?
  }

  function DropSession(m: Manager, key: string): Manager
    requires HasOutput(m, key)
  {
    if key !in m.sessions then m
    else
      var id := m.sessions[key];
      var one := multiset{(m.arena[id].output.value, id)};
      m.(sessions := m.sessions - {key},
         arena := m.arena[id := m.arena[id].(cancelled := true, output := None)],
         holds := m.holds - one, callbacks := m.callbacks - one,
         timerActive := m.timerActive && m.sessions - {key} != map[])
  }

  function Detached(m: Manager, key: string): Manager
    requires HasOutput(m, key) && (key in m.pending ==> m.pending[key] in m.arena)
  {
    DropSession(DropPending(m, key), key)
  }

  /** Nothing is attached or pending any more, and nothing is held. */
  function AllDetached(m: Manager): Manager {
    m.(sessions := map[], pending := map[],
       arena := map id | id in m.arena ::
                  if Attached(m, id) then m.arena[id].(cancelled := true, output := None)
                  else if Pending(m, id) then m.arena[id].(cancelled := true)
                  else m.arena[id],
       holds := multiset{}, callbacks := multiset{}, timerActive := false)
  }

  /** A new pending session whose first batch is on its way. */
  function Opened(m: Manager, key: string, signer: Signer, job: PrepareJob): Manager {
    m.(arena := m.arena[m.nextId := Session(key, signer, map[], None, false, false, FRESH, false)],
       pending := m.pending[key := m.nextId],
       prepares := m.prepares[m.nextId := job],
       nextId := m.nextId + 1)
  }

  predicate Admissible(request: Request, found: bool) {
    request.serviceValid && request.signer.config.Complete() && request.obsReady && found
  }

  /**
   `found` says whether OBS knew the output; `launched` whether a worker could be started. Without
   a worker the new session is dropped again.
   */
  ghost function Prepared(m: Manager, request: Request, found: bool, now: int, launched: bool): Manager
    requires Inv(m)
  {
    var key := OutputKey(request.name);
    assert HasOutput(m, key);
    var d := Detached(m, key);
    if !Admissible(request, found) then m
    else if Fresh(m, request.signer, now) then
      Opened(d, key, request.signer, PrepareJob(now, Some(m.shared[request.signer])))
    else if launched then Opened(d, key, request.signer, PrepareJob(now, None))
    else d
  }

  ghost function Issues(signer: Signer, signatures: Signatures): set<(Signer, int, FrameSignResult)> {
    set t | t in signatures :: (signer, t, signatures[t])
  }

  /** A first batch arrives: its job is done and its session no longer pending. */
  ghost function Arrived(m: Manager, id: SessionId, batch: Batch): Manager
    requires id in m.arena
  {
    m.(prepares := m.prepares - {id},
       pending := if Pending(m, id) then m.pending - {m.arena[id].name} else m.pending,
       issued := m.issued + Issues(m.arena[id].signer, batch.signatures))
  }

  function Learned(m: Manager, signer: Signer, batch: Batch): Manager {
    m.(shared := m.shared[signer := batch])
  }

  ghost function AttachedTo(m: Manager, id: SessionId, batch: Batch, output: Output): Manager
    requires id in m.arena
  {
    var session := m.arena[id];
    m.(arena := m.arena[id := session.(cache := Merged(session.cache, batch.signatures), output := Some(output))],
       sessions := m.sessions[session.name := id],
       holds := m.holds + multiset{(output, id)}, callbacks := m.callbacks + multiset{(output, id)},
       timerActive := true)
  }

  /**
   The first batch of a session has arrived, and `output` is what OBS now finds under its name. A
   session that something has replaced in the meantime is left alone.
   */
  ghost function PrepareFinished(m: Manager, id: SessionId, batch: Batch, output: Option<Output>): Manager
    requires id in m.arena
  {
    var arrived := Arrived(m, id, batch);
    if !Pending(m, id) || !batch.Valid() then arrived
    else
      var learned := Learned(arrived, m.arena[id].signer, batch);
      if output == None then learned else AttachedTo(learned, id, batch, output.value)
  }

  /** The main stream is about to start: its session starts afresh, on the output OBS now reports if any. */
  function Rebound(m: Manager, current: Option<Output>): Manager
    requires HasOutput(m, MAIN_STREAM_KEY)
  {
    if MAIN_STREAM_KEY !in m.sessions then m
    else
      var id := m.sessions[MAIN_STREAM_KEY];
      var session := m.arena[id];
      var moved := session.(stream := FRESH, output := if current == None then session.output else current);
      m.(arena := m.arena[id := moved],
         holds := Moved(m.holds, session.output.value, moved.output.value, id),
         callbacks := Moved(m.callbacks, session.output.value, moved.output.value, id))
  }

  /** What a session holds moves from one output to another. */
  function Moved(held: multiset<(Output, SessionId)>, before: Output, after: Output, id: SessionId)
    : multiset<(Output, SessionId)>
  {
    if before == after then held else held - multiset{(before, id)} + multiset{(after, id)}
  }

  /**
   A video packet of an output reaches the callback of a session. `known` says that its encoder is one
   for H.264 or HEVC, and `stored` that OBS has room for a replacement.
   */
  function SessionPassed(session: Session, frame: Frame, known: bool, stored: bool): Session
    requires Coupled(session.stream)
  {
    if session.fatal then session
    else if !known then session.(fatal := true)
    else
      var (stream, outcome) := Transform(session.stream, session.signer.config, frame, session.cache);
      session.(stream := stream, fatal := outcome.Failed? || (outcome.Replaced? && !stored))
  }

  /** The messages that OBS sends with the packet. */
  function Injected(session: Session, frame: Frame, known: bool, stored: bool): seq<Emission>
    requires Coupled(session.stream)
  {
    if session.fatal || !known || !stored then []
    else Emitted(Transform(session.stream, session.signer.config, frame, session.cache).1)
  }

  function Passed(m: Manager, id: SessionId, frame: Frame, known: bool, stored: bool): Manager
    requires id in m.arena && Coupled(m.arena[id].stream)
  {
    m.(arena := m.arena[id := SessionPassed(m.arena[id], frame, known, stored)])
  }

  ghost predicate Due(m: Manager, id: SessionId, now: int) {
    Attached(m, id) && LastTimestamp(m.arena[id].cache) - now <= REFRESH_AHEAD_SECONDS && !m.arena[id].refreshing
  }

  /** The session must wait for a fetch: no fresh batch of its signer is at hand. */
  ghost predicate Stale(m: Manager, id: SessionId, now: int) {
    Due(m, id, now) && !Fresh(m, m.arena[id].signer, now)
  }

  ghost function StaleOf(m: Manager, signer: Signer, now: int): set<SessionId> {
    set id | id in m.arena && Stale(m, id, now) && m.arena[id].signer == signer
  }

  ghost function StaleSigners(m: Manager, now: int): set<Signer> {
    set id | id in m.arena && Stale(m, id, now) :: m.arena[id].signer
  }

  ghost function SessionTicked(m: Manager, id: SessionId, now: int, launched: set<Signer>): Session
    requires id in m.arena
  {
    var session := m.arena[id];
    if !Due(m, id, now) then session
    else if Fresh(m, session.signer, now) then
      session.(cache := Merged(session.cache, m.shared[session.signer].signatures))
    else session.(refreshing := session.signer in launched)
  }

  /** The jobs of one tick: one for each signer that must wait and whose worker was started. */
  ghost function LaunchedJobs(m: Manager, now: int, launched: set<Signer>): map<JobId, RefreshJob> {
    map signer | signer in StaleSigners(m, now) && signer in launched ::
      (m.ticks, signer) := RefreshJob(StaleOf(m, signer, now), now)
  }

  /** `launched` are the signers whose worker could be started. */
  ghost function Ticked(m: Manager, now: int, launched: set<Signer>): Manager {
    m.(arena := map id | id in m.arena :: SessionTicked(m, id, now, launched),
       refreshes := m.refreshes + LaunchedJobs(m, now, launched),
       ticks := m.ticks + 1)
  }

  ghost function SessionRefreshed(m: Manager, id: SessionId, job: RefreshJob, batch: Batch): Session
    requires id in m.arena
  {
    var session := m.arena[id];
    if id !in job.members then session
    else if batch.Valid() && Attached(m, id) then
      session.(refreshing := false, cache := Merged(session.cache, batch.signatures))
    else session.(refreshing := false)
  }

  ghost function Refreshed(m: Manager, job: JobId, batch: Batch): Manager
    requires job in m.refreshes
  {
    m.(refreshes := m.refreshes - {job},
       issued := m.issued + Issues(job.1, batch.signatures),
       shared := if batch.Valid() then m.shared[job.1 := batch] else m.shared,
       arena := map id | id in m.arena :: SessionRefreshed(m, id, m.refreshes[job], batch))
  }

  // ----- The invariant

  /** Session ids are used once, and every table refers to sessions by their own name. */
  ghost predicate Named(m: Manager) {
    && (forall id :: id in m.arena ==> id < m.nextId)
    && (forall key :: key in m.sessions ==> m.sessions[key] in m.arena && m.arena[m.sessions[key]].name == key)
    && (forall key :: key in m.pending ==> m.pending[key] in m.arena && m.arena[m.pending[key]].name == key)
    && (forall id :: id in m.prepares ==> id in m.arena)
    && m.sessions.Keys !! m.pending.Keys
  }

  /**
   A session holds an output exactly while it is attached, waits for a first batch while it is
   pending, and is cancelled once something has taken its place.
   */
  predicate LifeOf(m: Manager, id: SessionId)
    requires id in m.arena
  {
    && (m.arena[id].output.Some? <==> Attached(m, id))
    && (Attached(m, id) ==> !m.arena[id].cancelled && id !in m.prepares)
    && (Pending(m, id) ==> id in m.prepares)
    && (id in m.prepares ==> (Pending(m, id) <==> !m.arena[id].cancelled))
  }

  /** The timer runs while something is attached. */
  ghost predicate Lifecycle(m: Manager) {
    && (forall id :: id in m.arena ==> LifeOf(m, id))
    && (m.timerActive <==> m.sessions != map[])
  }

  function Held(m: Manager, output: Output, id: SessionId): nat {
    if id in m.arena && m.arena[id].output == Some(output) then 1 else 0
  }

  /** One reference and one callback for each attached session, on its own output, and no others. */
  ghost predicate Conserved(m: Manager) {
    forall output, id :: m.holds[(output, id)] == m.callbacks[(output, id)] == Held(m, output, id)
  }

  /** A session is refreshing exactly while it is in a refresh job, and then in one, of its own signer. */
  ghost predicate Refreshing(m: Manager) {
    JobMembers(m) && InSomeJob(m) && InOneJob(m)
  }

  ghost predicate JobMembers(m: Manager) {
    && (forall job :: job in m.refreshes ==> job.0 < m.ticks)
    && forall job, id :: job in m.refreshes && id in m.refreshes[job].members ==>
         id in m.arena && m.arena[id].refreshing && m.arena[id].signer == job.1
  }

  ghost predicate InSomeJob(m: Manager) {
    forall id :: id in m.arena && m.arena[id].refreshing ==>
      exists job :: job in m.refreshes && id in m.refreshes[job].members
  }

  ghost predicate InOneJob(m: Manager) {
    forall a, b, id :: a in m.refreshes && b in m.refreshes ==>
      id in m.refreshes[a].members && id in m.refreshes[b].members ==> a == b
  }

  /** No session, shared batch or job ever holds a signature issued for another signer. */
  ghost predicate Separated(m: Manager) {
    && (forall id :: id in m.arena ==> Issues(m.arena[id].signer, m.arena[id].cache) <= m.issued)
    && (forall signer :: signer in m.shared ==> Issues(signer, m.shared[signer].signatures) <= m.issued)
    && (forall id :: id in m.prepares && id in m.arena && m.prepares[id].cached.Some? ==>
          Issues(m.arena[id].signer, m.prepares[id].cached.value.signatures) <= m.issued)
  }

  /** The schedule of every session is consistent. */
  ghost predicate Streaming(m: Manager) {
    forall id :: id in m.arena ==> Coupled(m.arena[id].stream)
  }

  ghost predicate Inv(m: Manager) {
    Named(m) && Lifecycle(m) && Conserved(m) && Refreshing(m) && Separated(m) && Streaming(m)
  }
}
