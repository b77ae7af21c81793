/** The transactional storage of one login in a keyring whose single writes can fail. */
module StoreModel {
  import opened Common
  import opened CredentialChunks

  // ----- Stored values

  datatype Quota = Quota(limit: int, remaining: int, resetSeconds: int, observedSeconds: int)

  datatype Credentials = Credentials(
    rapidapiKey: string, signerUrl: string, deviceId: string, installId: string, version: string,
    username: string, userId: string, cookieJar: seq<byte>, quota: Quota)
  {
    predicate HasDevice() {
      !Blank(deviceId) && deviceId != "0" && !Blank(installId) && installId != "0"
    }
  }

  const DEFAULT_SIGNER_URL := "https://tiktok-live-studio-api-signer1.p.rapidapi.com/"
  const DEFAULT_VERSION := "1.27.0"
  const NO_QUOTA := Quota(-1, -1, 0, 0)
  const DEFAULTS := Credentials("", DEFAULT_SIGNER_URL, "", "", DEFAULT_VERSION, "", "", [], NO_QUOTA)

  /** The metadata of an account; its cookie jar is kept in chunks of one of two sets. */
  datatype Record = Record(account: Credentials, cookieChunks: int, cookieSet: int)

  /** What a missing or damaged metadata entry reads as. */
  const BLANK := Record(Credentials("", "", "", "", "", "", "", [], NO_QUOTA), 0, 0)

  datatype Entry = Account(id: string) | Cookie(id: string, cookieSet: int, index: int)

  datatype Value = Metadata(record: Record) | Chunk(data: seq<byte>) | Damaged

  type Store = map<Entry, Value>

  function Bound(low: int, x: int, high: int): int {
    if x < low then low else if x > high then high else x
  }

  // ----- Loading

  function RecordAt(m: Store, id: string): Record {
    if Account(id) in m && m[Account(id)].Metadata? then m[Account(id)].record else BLANK
  }

  function ChunkAt(m: Store, id: string, cookieSet: int, index: int): seq<byte> {
    var e := Cookie(id, cookieSet, index);
    if e in m && m[e].Chunk? then m[e].data else []
  }

  function Chunks(r: Record): nat {
    Bound(0, r.cookieChunks, MAXIMUM_CHUNKS)
  }

  function Set(r: Record): int {
    Bound(0, r.cookieSet, 1)
  }

  /** The chunks 0..n of a set, joined; a missing chunk spoils the jar. */
  function Jar(m: Store, id: string, cookieSet: int, n: nat): Option<seq<byte>> {
    if n == 0 then Some([])
    else
      var before := Jar(m, id, cookieSet, n - 1);
      var chunk := ChunkAt(m, id, cookieSet, n - 1);
      if before == None || chunk == [] then None else Some(before.value + chunk)
  }

  function Normalized(c: Credentials): Credentials {
    c.(signerUrl := if Blank(c.signerUrl) then DEFAULT_SIGNER_URL else Trim(c.signerUrl),
       version := if Blank(c.version) then DEFAULT_VERSION else Trim(c.version))
  }

  function Loaded(m: Store, id: string): Credentials {
    if Blank(id) then DEFAULTS
    else
      var r := RecordAt(m, id);
      var jar := Jar(m, id, Set(r), Chunks(r));
      Normalized(r.account).(cookieJar := if jar == None then [] else jar.value)
  }

  // ----- Saving

  /** A registered device is never replaced by a later save. */
  function Preserved(persisted: Credentials, updated: Credentials): Credentials {
    if persisted.HasDevice() then updated.(deviceId := persisted.deviceId, installId := persisted.installId)
    else updated
  }

  function ToStore(m: Store, id: string, c: Credentials): Credentials {
    Preserved(RecordAt(m, id).account, c)
  }

  /** The set the next save writes its chunks to: never the one in use. */
  function NextSet(m: Store, id: string): int {
    if Account(id) !in m then 0 else 1 - Set(RecordAt(m, id))
  }

  function NewRecord(m: Store, id: string, c: Credentials): Record {
    Record(ToStore(m, id, c).(cookieJar := []), Count(|c.cookieJar|), NextSet(m, id))
  }

  ghost predicate Same(m: Store, n: Store, e: Entry) {
    (e in m <==> e in n) && (e in m ==> m[e] == n[e])
  }

  predicate InRange(e: Entry, id: string, cookieSet: int, low: int, high: int) {
    e.Cookie? && e.id == id && e.cookieSet == cookieSet && low <= e.index < high
  }

  /** n differs from m at most in the cookies low..high of one set of an account. */
  ghost predicate AgreeBut(m: Store, n: Store, id: string, cookieSet: int, low: int, high: int) {
    forall e: Entry :: !InRange(e, id, cookieSet, low, high) ==> Same(m, n, e)
  }

  /** n still has the metadata of m and the chunks that the metadata names. */
  ghost predicate AgreeOnRecord(m: Store, n: Store, id: string) {
    && Same(m, n, Account(id))
    && forall i :: 0 <= i < RecordAt(m, id).cookieChunks ==> Same(m, n, Cookie(id, Set(RecordAt(m, id)), i))
  }

  ghost predicate AgreeElsewhere(m: Store, n: Store, id: string) {
    forall e: Entry :: e.id != id ==> Same(m, n, e)
  }

  /** Nothing that can be loaded differs. */
  ghost predicate Unchanged(m: Store, n: Store, id: string) {
    AgreeOnRecord(m, n, id) && AgreeElsewhere(m, n, id)
  }

  /** Cookies of the account have been added at most to the set not in use, and at most `count` of them. */
  ghost predicate NoStrays(m: Store, n: Store, id: string, count: int) {
    forall cookieSet, i :: Cookie(id, cookieSet, i) in n ==>
      Cookie(id, cookieSet, i) in m || (cookieSet == NextSet(m, id) && 0 <= i < count)
  }

  ghost predicate Unseen(m: Store, n: Store, id: string, count: int) {
    Unchanged(m, n, id) && NoStrays(m, n, id, count)
  }

  ghost predicate Shrinks(m: Store, n: Store) {
    forall e: Entry :: e in n ==> e in m
  }

  /** The cookie entries present are exactly those the metadata names. */
  ghost predicate Clean(m: Store, id: string) {
    && (Account(id) in m ==>
          RecordAt(m, id).cookieSet == Set(RecordAt(m, id)) && RecordAt(m, id).cookieChunks <= MAXIMUM_CHUNKS)
    && forall cookieSet, i :: Cookie(id, cookieSet, i) in m <==>
         Account(id) in m && cookieSet == Set(RecordAt(m, id)) && 0 <= i < RecordAt(m, id).cookieChunks
  }

  lemma {:induction false} SpoiltJar(m: Store, id: string, cookieSet: int, low: nat, n: nat)
    requires low <= n && Jar(m, id, cookieSet, low) == None
    ensures Jar(m, id, cookieSet, n) == None
    decreases n
  {
    if low < n {
      SpoiltJar(m, id, cookieSet, low, n - 1);
    }
  }

  /** A chunk that is missing, damaged or empty spoils the whole jar. */
  lemma MissingChunkEmptiesJar(m: Store, id: string, index: nat)
    requires index < Chunks(RecordAt(m, id))
    requires var e := Cookie(id, Set(RecordAt(m, id)), index);
             e in m && m[e].Chunk? ==> m[e].data == []
    ensures Loaded(m, id).cookieJar == []
  {
    SpoiltJar(m, id, Set(RecordAt(m, id)), index + 1, Chunks(RecordAt(m, id)));
  }

  /** Without readable metadata a login loads as one that was never saved. */
  lemma NoMetadataLoadsDefaults(m: Store, id: string)
    requires Blank(id) || Account(id) !in m || !m[Account(id)].Metadata?
    ensures Loaded(m, id) == DEFAULTS
  {
  }

  lemma {:induction false} JarSame(m: Store, n: Store, id: string, cookieSet: int, count: nat)
    requires forall i :: 0 <= i < count ==> Same(m, n, Cookie(id, cookieSet, i))
    ensures Jar(m, id, cookieSet, count) == Jar(n, id, cookieSet, count)
  {
    if count > 0 {
      JarSame(m, n, id, cookieSet, count - 1);
      assert Same(m, n, Cookie(id, cookieSet, count - 1));
    }
  }

  lemma LoadedSame(m: Store, n: Store, id: string)
    requires AgreeOnRecord(m, n, id)
    ensures Loaded(n, id) == Loaded(m, id)
  {
    var r := RecordAt(m, id);
    JarSame(m, n, id, Set(r), Chunks(r));
  }

  lemma UnchangedLoadsSame(m: Store, n: Store, id: string)
    requires Unchanged(m, n, id)
    ensures forall other :: Loaded(n, other) == Loaded(m, other)
  {
    forall other
      ensures Loaded(n, other) == Loaded(m, other)
    {
      LoadedSame(m, n, other);
    }
  }

  lemma ElsewhereLoadedSame(m: Store, n: Store, id: string, other: string)
    requires AgreeElsewhere(m, n, id) && other != id
    ensures Loaded(n, other) == Loaded(m, other)
  {
    LoadedSame(m, n, other);
  }

  /** Writing to the set that is not in use leaves what is loaded alone. */
  lemma NextSetIsUnused(m: Store, n: Store, id: string, high: int)
    requires AgreeBut(m, n, id, NextSet(m, id), 0, high) && high <= MAXIMUM_CHUNKS
    ensures Unseen(m, n, id, high)
  {
    forall cookieSet, i | Cookie(id, cookieSet, i) in n
      ensures Cookie(id, cookieSet, i) in m || (cookieSet == NextSet(m, id) && 0 <= i < high)
    {
      assert !InRange(Cookie(id, cookieSet, i), id, NextSet(m, id), 0, high) ==> Same(m, n, Cookie(id, cookieSet, i));
    }
  }

  /** A failed save whose chunks are all removed again has left a clean store as it was. */
  lemma UndoneIsRestored(m: Store, n: Store, id: string, high: int)
    requires Clean(m, id) && AgreeBut(m, n, id, NextSet(m, id), 0, high)
    requires forall i :: Cookie(id, NextSet(m, id), i) in n ==> Cookie(id, NextSet(m, id), i) in m
    ensures n == m
  {
    forall e: Entry
      ensures Same(m, n, e)
    {
      if InRange(e, id, NextSet(m, id), 0, high) {
        assert e == Cookie(id, NextSet(m, id), e.index);
        assert e !in m;
      }
    }
    forall e: Entry | e in n
      ensures e in m && m[e] == n[e]
    {
      assert Same(m, n, e);
    }
    forall e: Entry | e in m
      ensures e in n
    {
      assert Same(m, n, e);
    }
  }

  lemma WiderAgree(m: Store, n: Store, o: Store, id: string, cookieSet: int, high: int, wider: int)
    requires AgreeBut(m, n, id, cookieSet, 0, wider) && AgreeBut(n, o, id, cookieSet, 0, high) && high <= wider
    ensures AgreeBut(m, o, id, cookieSet, 0, wider)
  {
    forall e: Entry | !InRange(e, id, cookieSet, 0, wider)
      ensures Same(m, o, e)
    {
      assert Same(m, n, e) && Same(n, o, e);
    }
  }

  lemma {:induction false} JarOfChunks(m: Store, id: string, cookieSet: int, jar: seq<byte>, n: nat)
    requires forall i :: 0 <= i < n ==>
               && At(jar, i) != []
               && Cookie(id, cookieSet, i) in m && m[Cookie(id, cookieSet, i)] == Chunk(At(jar, i))
    ensures Jar(m, id, cookieSet, n) == Some(Joined(jar, n))
  {
    if n > 0 {
      JarOfChunks(m, id, cookieSet, jar, n - 1);
      assert Cookie(id, cookieSet, n - 1) in m;
    }
  }

  // ----- What a save leaves behind

  /**
   What a successful save does to the cookies of the account where removals work: the set it has written
   holds exactly the new jar, and the chunks that the old metadata named are gone.
   */
  ghost predicate Tidied(m: Store, n: Store, id: string, count: int) {
    var previous := RecordAt(m, id);
    forall cookieSet, i :: Cookie(id, cookieSet, i) in n <==>
      if cookieSet == NextSet(m, id) && (0 <= i < count || count <= i < MAXIMUM_CHUNKS) then 0 <= i < count
      else Cookie(id, cookieSet, i) in m && !(cookieSet == Set(previous) && 0 <= i < Chunks(previous))
  }

  /** How many chunks a save of the credentials writes, if it gets that far. */
  function Written(id: string, c: Credentials): (n: nat)
    ensures n <= MAXIMUM_CHUNKS
  {
    var count := Count(|c.cookieJar|);
    if Blank(id) || count < 0 || count > MAXIMUM_CHUNKS then 0 else count
  }

  /**
   A save either commits all of its account or leaves what is loaded alone; where removals work, it also
   tidies up, and a failed save leaves no trace at all in a clean store.
   */
  ghost predicate SaveStep(m: Store, n: Store, id: string, c: Credentials, saved: bool, reliable: bool) {
    && AgreeElsewhere(m, n, id) && NoStrays(m, n, id, Written(id, c))
    && (reliable ==> if saved then Tidied(m, n, id, Count(|c.cookieJar|)) else Clean(m, id) ==> n == m)
    && if saved
       then
         && !Blank(id) && Count(|c.cookieJar|) <= MAXIMUM_CHUNKS
         && Account(id) in n && n[Account(id)] == Metadata(NewRecord(m, id, c))
         && forall i :: 0 <= i < Count(|c.cookieJar|) ==>
              Cookie(id, NextSet(m, id), i) in n && n[Cookie(id, NextSet(m, id), i)] == Chunk(At(c.cookieJar, i))
       else AgreeOnRecord(m, n, id)
  }

  /** A save that was cut off has either not committed or committed, and has not tidied up. */
  ghost predicate CutOff(m: Store, n: Store, id: string, c: Credentials) {
    SaveStep(m, n, id, c, false, false) || SaveStep(m, n, id, c, true, false)
  }

  /** A save that fails changes nothing that can be loaded. */
  lemma FailedSaveLoadsSame(m: Store, n: Store, id: string, c: Credentials, reliable: bool, other: string)
    requires SaveStep(m, n, id, c, false, reliable)
    ensures Loaded(n, other) == Loaded(m, other)
  {
    if other == id {
      LoadedSame(m, n, id);
    } else {
      ElsewhereLoadedSame(m, n, id, other);
    }
  }

  /** Text is loaded without white space at either end, or as a default if nothing else is left. */
  ghost predicate LoadsText(loaded: string, given: string, default: string) {
    if forall i :: 0 <= i < |given| ==> IsSpace(given[i]) then loaded == default
    else
      && (exists i, j :: 0 <= i <= j <= |given| && given[i..j] == loaded &&
            forall k :: 0 <= k < |given| && !(i <= k < j) ==> IsSpace(given[k]))
      && loaded != "" && !IsSpace(loaded[0]) && !IsSpace(loaded[|loaded| - 1])
  }

  lemma NormalizedLoads(given: string, default: string)
    ensures LoadsText(if Blank(given) then default else Trim(given), given, default)
  {
    var i := TrimLeftCuts(given);
    var j := TrimRightCuts(given[i..]);
    assert Trim(given) == given[i..][..j] == given[i..i + j];
    forall k | i + j <= k < |given|
      ensures IsSpace(given[k])
    {
      assert given[k] == given[i..][k - i];
    }
    if j > 0 {
      assert Trim(given)[0] == given[i] && Trim(given)[j - 1] == given[i..][j - 1];
    }
  }

  /** The fields of a login that are loaded back whatever was there before. */
  ghost predicate LoadsAs(loaded: Credentials, given: Credentials) {
    && loaded.rapidapiKey == given.rapidapiKey && loaded.username == given.username && loaded.userId == given.userId
    && loaded.quota == given.quota
    && LoadsText(loaded.signerUrl, given.signerUrl, "https://tiktok-live-studio-api-signer1.p.rapidapi.com/")
    && LoadsText(loaded.version, given.version, "1.27.0")
  }

  /** An id that is neither "0" nor only white space. */
  predicate Registered(id: string) {
    id != "0" && exists i :: 0 <= i < |id| && !IsSpace(id[i])
  }

  /** The device is the one given, unless another was registered before. */
  predicate KeepsDevice(loaded: Credentials, before: Credentials, given: Credentials) {
    if Registered(before.deviceId) && Registered(before.installId)
    then loaded.deviceId == before.deviceId && loaded.installId == before.installId
    else loaded.deviceId == given.deviceId && loaded.installId == given.installId
  }

  /**
   After a successful save every field is loaded back as it was given, save for a device that was there before,
   and the jar exactly when it is within the size limit: a longer one whose count wraps around 32 bits is cut short.
   */
  lemma SavedAccountLoads(m: Store, n: Store, id: string, c: Credentials, reliable: bool)
    requires SaveStep(m, n, id, c, true, reliable)
    ensures var loaded := Loaded(n, id);
            && LoadsAs(loaded, c) && KeepsDevice(loaded, RecordAt(m, id).account, c)
            && (loaded.cookieJar == c.cookieJar <==> |c.cookieJar| <= MAXIMUM_JAR_BYTES)
  {
    var r := NewRecord(m, id, c);
    CountedChunksRestore(c.cookieJar);
    JarOfChunks(n, id, Set(r), c.cookieJar, Chunks(r));
    NormalizedLoads(c.signerUrl, DEFAULT_SIGNER_URL);
    NormalizedLoads(c.version, DEFAULT_VERSION);
    BlankIff(RecordAt(m, id).account.deviceId);
    BlankIff(RecordAt(m, id).account.installId);
  }

  lemma SaveKeepsDevice(m: Store, n: Store, id: string, c: Credentials, saved: bool, reliable: bool, other: string)
    requires SaveStep(m, n, id, c, saved, reliable) && Loaded(m, other).HasDevice()
    ensures Loaded(n, other).deviceId == Loaded(m, other).deviceId &&
            Loaded(n, other).installId == Loaded(m, other).installId
  {
    if !saved {
      FailedSaveLoadsSame(m, n, id, c, reliable, other);
    } else if other != id {
      ElsewhereLoadedSame(m, n, id, other);
    }
  }

  lemma SaveKeepsClean(m: Store, n: Store, id: string, c: Credentials, saved: bool)
    requires SaveStep(m, n, id, c, saved, true) && Clean(m, id)
    ensures Clean(n, id)
  {
    if saved {
      assert RecordAt(n, id) == NewRecord(m, id, c);
      var count := Count(|c.cookieJar|);
      forall cookieSet, i
        ensures Cookie(id, cookieSet, i) in n <==> cookieSet == NextSet(m, id) && 0 <= i < count
      {
      }
    }
  }

  // ----- Runs of saves and removes, finished or cut off

  datatype Operation =
    | Save(id: string, credentials: Credentials, saved: bool)
    | Remove(id: string)
    | CutSave(id: string, credentials: Credentials)
    | CutRemove(id: string)

  /** Removing an account leaves nothing of it, where removals work. */
  ghost predicate RemoveStep(m: Store, n: Store, id: string, reliable: bool) {
    && AgreeElsewhere(m, n, id)
    && (Blank(id) ==> n == m)
    && (reliable && !Blank(id) ==>
          && Account(id) !in n
          && forall cookieSet, i :: 0 <= cookieSet <= 1 && 0 <= i < MAXIMUM_CHUNKS ==> Cookie(id, cookieSet, i) !in n)
    && Shrinks(m, n)
  }

  /** A removed account loads as one that was never saved, and every other account as before. */
  lemma RemovedAccountIsGone(m: Store, n: Store, id: string, other: string)
    requires RemoveStep(m, n, id, true)
    ensures Loaded(n, other) == if other == id then DEFAULTS else Loaded(m, other)
  {
    if other == id {
      NoMetadataLoadsDefaults(n, id);
    } else {
      ElsewhereLoadedSame(m, n, id, other);
    }
  }

  ghost predicate StoreStep(m: Store, n: Store, op: Operation, reliable: bool) {
    match op
    case Save(id, c, saved) => SaveStep(m, n, id, c, saved, reliable)
    case Remove(id) => RemoveStep(m, n, id, reliable)
    case CutSave(id, c) => CutOff(m, n, id, c)
    case CutRemove(id) => RemoveStep(m, n, id, false)
  }

  ghost predicate StoreRun(states: seq<Store>, ops: seq<Operation>, reliable: bool) {
    && |states| == |ops| + 1
    && forall k :: 0 <= k < |ops| ==> StoreStep(states[k], states[k + 1], ops[k], reliable)
  }

  predicate Completes(op: Operation) {
    op.Save? || op.Remove?
  }

  /**
   From an empty store, and where removals work, no run of completed operations leaves a cookie entry
   that nothing names.
   */
  lemma {:induction false} NoOrphans(states: seq<Store>, ops: seq<Operation>, k: nat, id: string)
    requires StoreRun(states, ops, true) && states[0] == map[] && k <= |ops|
    requires forall j :: 0 <= j < |ops| ==> Completes(ops[j])
    ensures Clean(states[k], id)
    decreases k
  {
    if k > 0 {
      NoOrphans(states, ops, k - 1, id);
      var m, n, op := states[k - 1], states[k], ops[k - 1];
      assert StoreStep(m, n, op, true) && Completes(op);
      if op.id != id {
        CleanElsewhere(m, n, op.id, id);
      } else if op.Save? {
        SaveKeepsClean(m, n, id, op.credentials, op.saved);
      }
    }
  }

  lemma CleanElsewhere(m: Store, n: Store, id: string, other: string)
    requires AgreeElsewhere(m, n, id) && other != id && Clean(m, other)
    ensures Clean(n, other)
  {
    forall cookieSet, i
      ensures Cookie(other, cookieSet, i) in n <==> Cookie(other, cookieSet, i) in m
    {
      assert Same(m, n, Cookie(other, cookieSet, i));
    }
    assert Same(m, n, Account(other));
  }

  predicate RemovesSomeOf(op: Operation, id: string) {
    (op.Remove? || op.CutRemove?) && op.id == id
  }

  /**
   Once a registered device is stored for an account, every later load returns it, over any saves of
   any credentials for any account, failing, cut off or not, until the account itself is removed.
   */
  lemma {:induction false} DeviceIsSticky(states: seq<Store>, ops: seq<Operation>, reliable: bool, id: string, k: nat)
    requires StoreRun(states, ops, reliable) && k <= |ops| && Loaded(states[0], id).HasDevice()
    requires forall j :: 0 <= j < |ops| ==> !RemovesSomeOf(ops[j], id)
    ensures Loaded(states[k], id).deviceId == Loaded(states[0], id).deviceId
    ensures Loaded(states[k], id).installId == Loaded(states[0], id).installId
    decreases k
  {
    if k > 0 {
      DeviceIsSticky(states, ops, reliable, id, k - 1);
      var m, n, op := states[k - 1], states[k], ops[k - 1];
      assert StoreStep(m, n, op, reliable) && !RemovesSomeOf(op, id);
      match op
      case Save(saveId, c, saved) => SaveKeepsDevice(m, n, saveId, c, saved, reliable, id);
      case CutSave(saveId, c) => SaveKeepsDevice(m, n, saveId, c, SaveStep(m, n, saveId, c, true, false), false, id);
      case Remove(removed) => ElsewhereLoadedSame(m, n, removed, id);
      case CutRemove(removed) => ElsewhereLoadedSame(m, n, removed, id);
    }
  }

  // ----- Cleaning up after crashes

  /** Cookies lie where a removal of the account looks for them. */
  ghost predicate Bounded(m: Store, id: string) {
    forall cookieSet, i :: Cookie(id, cookieSet, i) in m ==> 0 <= cookieSet <= 1 && 0 <= i < MAXIMUM_CHUNKS
  }

  /** From an empty store, over any run, whatever fails or is cut off. */
  lemma {:induction false} AlwaysBounded(states: seq<Store>, ops: seq<Operation>, reliable: bool, id: string, k: nat)
    requires StoreRun(states, ops, reliable) && states[0] == map[] && k <= |ops|
    ensures Bounded(states[k], id)
    decreases k
  {
    if k > 0 {
      AlwaysBounded(states, ops, reliable, id, k - 1);
      var m, n, op := states[k - 1], states[k], ops[k - 1];
      assert StoreStep(m, n, op, reliable);
      forall cookieSet, i | Cookie(id, cookieSet, i) in n
        ensures 0 <= cookieSet <= 1 && 0 <= i < MAXIMUM_CHUNKS
      {
        if op.id != id {
          assert Same(m, n, Cookie(id, cookieSet, i));
        }
      }
    }
  }

  /** Of the set that the next save does not write, only chunks named by the metadata are there. */
  ghost predicate OtherSetNamed(m: Store, id: string) {
    forall cookieSet, i :: Cookie(id, cookieSet, i) in m && cookieSet != NextSet(m, id) ==> i < Chunks(RecordAt(m, id))
  }

  /** One successful save whose removals work leaves an account clean exactly if the other set was named. */
  lemma OneSaveCleansIff(m: Store, n: Store, id: string, c: Credentials)
    requires Bounded(m, id) && SaveStep(m, n, id, c, true, true)
    ensures Clean(n, id) <==> OtherSetNamed(m, id)
  {
  }

  /** So one of them cleans up after a single save that was cut off, or whose removals failed. */
  lemma OneCutSaveIsCleaned(m: Store, n: Store, o: Store, id: string, c: Credentials, d: Credentials)
    requires Clean(m, id) && CutOff(m, n, id, c) && SaveStep(n, o, id, d, true, true)
    ensures Clean(o, id)
  {
  }

  /** Two of them clean up after anything that went wrong before. */
  lemma TwoSavesClean(states: seq<Store>, ops: seq<Operation>, reliable: bool, n: Store, o: Store, id: string,
                      c: Credentials, d: Credentials)
    requires StoreRun(states, ops, reliable) && states[0] == map[]
    requires SaveStep(states[|ops|], n, id, c, true, true) && SaveStep(n, o, id, d, true, true)
    ensures Clean(o, id)
  {
    var m := states[|ops|];
    AlwaysBounded(states, ops, reliable, id, |ops|);
    assert Bounded(n, id);
    assert RecordAt(n, id) == NewRecord(m, id, c);
    forall cookieSet, i | Cookie(id, cookieSet, i) in n && cookieSet != NextSet(n, id)
      ensures i < Chunks(RecordAt(n, id))
    {
    }
    OneSaveCleansIff(n, o, id, d);
  }

  // ----- One save is not enough after two that were cut off

  /** A login without a device whose jar has the given number of bytes. */
  function Login(bytes: nat): Credentials {
    DEFAULTS.(cookieJar := seq(bytes, _ => 1))
  }

  function Stored(bytes: nat, cookieSet: int): Value {
    Metadata(Record(DEFAULTS, Count(bytes), cookieSet))
  }

  function Piece(bytes: nat, index: nat): Value {
    Chunk(At(Login(bytes).cookieJar, index))
  }

  /** The stores of a run that saves two chunks, is cut off twice while saving one chunk, and then saves that. */
  function StrayStates(): seq<Store> {
    var x, first, second, other := Account("x"), Cookie("x", 0, 0), Cookie("x", 0, 1), Cookie("x", 1, 0);
    [map[],
     map[x := Stored(2049, 0), first := Piece(2049, 0), second := Piece(2049, 1)],
     map[x := Stored(1, 1), first := Piece(2049, 0), second := Piece(2049, 1), other := Piece(1, 0)],
     map[x := Stored(1, 0), first := Piece(1, 0), second := Piece(2049, 1), other := Piece(1, 0)],
     map[x := Stored(1, 1), second := Piece(2049, 1), other := Piece(1, 0)]]
  }

  function StrayOperations(): seq<Operation> {
    [Save("x", Login(2049), true), CutSave("x", Login(1)), CutSave("x", Login(1)), Save("x", Login(1), true)]
  }

  /** What the run needs of one of its saves. */
  lemma LoginIsStored(m: Store, bytes: nat)
    requires 0 < bytes <= 4096 && (Account("x") in m ==> m[Account("x")].Metadata?)
    requires RecordAt(m, "x").account == DEFAULTS || RecordAt(m, "x") == BLANK
    ensures !Blank("x") && Metadata(NewRecord(m, "x", Login(bytes))) == Stored(bytes, NextSet(m, "x"))
    ensures Count(bytes) == (if bytes <= CHUNK_BYTES then 1 else 2) && Written("x", Login(bytes)) == Count(bytes)
  {
    assert TrimLeft("x") == "x" && TrimRight("x") == "x";
  }

  lemma FirstSave()
    ensures SaveStep(StrayStates()[0], StrayStates()[1], "x", Login(2049), true, true)
  {
    LoginIsStored(StrayStates()[0], 2049);
  }

  lemma FirstCutSave()
    ensures SaveStep(StrayStates()[1], StrayStates()[2], "x", Login(1), true, false)
  {
    LoginIsStored(StrayStates()[1], 1);
  }

  lemma SecondCutSave()
    ensures SaveStep(StrayStates()[2], StrayStates()[3], "x", Login(1), true, false)
  {
    LoginIsStored(StrayStates()[2], 1);
  }

  lemma LastSave()
    ensures SaveStep(StrayStates()[3], StrayStates()[4], "x", Login(1), true, true)
  {
    LoginIsStored(StrayStates()[3], 1);
  }

  /** With removals that work, and nothing else going wrong, a cookie entry that nothing names is left. */
  lemma TwoCutSavesLeaveStray()
    ensures StoreRun(StrayStates(), StrayOperations(), true) && StrayStates()[0] == map[]
    ensures !Clean(StrayStates()[4], "x")
  {
    FirstSave();
    FirstCutSave();
    SecondCutSave();
    LastSave();
    forall k | 0 <= k < |StrayOperations()|
      ensures StoreStep(StrayStates()[k], StrayStates()[k + 1], StrayOperations()[k], true)
    {
      assert k == 0 || k == 1 || k == 2 || k == 3;
    }
    assert Cookie("x", 0, 1) in StrayStates()[4] && Set(RecordAt(StrayStates()[4], "x")) == 1;
  }

  // ----- A jar whose count wraps around

  /** Any save of a jar of 2^43 bytes that succeeds loads back an empty one. */
  lemma WrappedJarLoadsEmpty(m: Store, n: Store, id: string, c: Credentials, reliable: bool)
    requires |c.cookieJar| == 0x800_0000_0000 && SaveStep(m, n, id, c, true, reliable)
    ensures Loaded(n, id).cookieJar == []
  {
  }
}
