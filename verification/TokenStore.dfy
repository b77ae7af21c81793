/** Saving, loading and removing a login, one keyring call at a time. */
module TokenStore {
  import opened Common
  import opened CredentialChunks
  import opened StoreModel

  class TokenStore {
    /** The entries of the native keyring. */
    var entries: Store
    /** Every content the keyring has had, one after each call: where a crash can strike. */
    ghost var history: seq<Store>
    /** How many writes have failed. */
    ghost var failures: nat
    /** Whether removals always work. */
    const reliable: bool

    ghost predicate Valid()
      reads this
    {
      history != [] && history[|history| - 1] == entries
    }

    constructor (reliable: bool)
      ensures Valid()
      ensures entries == map[] && history == [map[]] && failures == 0 && this.reliable == reliable
    {
      this.reliable := reliable;
      entries, history, failures := map[], [map[]], 0;
    }

    // ----- Keyring calls; a write happens as a whole or not at all

    method SaveCredential(entry: Entry, value: Value) returns (ok: bool)
      requires Valid()
      modifies this
      ensures Valid() && old(history) <= history
      ensures entries == if ok then old(entries)[entry := value] else old(entries)
      ensures failures == if ok then old(failures) else old(failures) + 1
      ensures history == old(history) + [entries]
    {
      ok := *;
      if ok {
        entries := entries[entry := value];
      } else {
        failures := failures + 1;
      }
      history := history + [entries];
    }

    method RemoveCredential(entry: Entry)
      requires Valid()
      modifies `entries, `history
      ensures Valid() && old(history) <= history
      ensures entries == old(entries) - {entry} || (!reliable && entries == old(entries))
      ensures history == old(history) + [entries]
    {
      var works := *;
      if reliable || works {
        entries := entries - {entry};
      }
      history := history + [entries];
    }

    /** Removes the cookies low..high of a set. */
    method RemoveCookies(id: string, cookieSet: int, low: int, high: int)
      requires Valid()
      modifies `entries, `history
      ensures Valid() && old(history) <= history
      ensures AgreeBut(old(entries), entries, id, cookieSet, low, high)
      ensures forall k :: |old(history)| <= k < |history| ==>
                AgreeBut(old(entries), history[k], id, cookieSet, low, high)
      ensures forall k :: |old(history)| <= k < |history| ==> Shrinks(old(entries), history[k])
      ensures Shrinks(old(entries), entries)
      ensures reliable ==> forall i :: low <= i < high ==> Cookie(id, cookieSet, i) !in entries
    {
      var index := low;
      while index < high
        invariant Valid() && old(history) <= history && low <= index
        invariant AgreeBut(old(entries), entries, id, cookieSet, low, high)
        invariant forall k :: |old(history)| <= k < |history| ==>
                    AgreeBut(old(entries), history[k], id, cookieSet, low, high)
        invariant forall k :: |old(history)| <= k < |history| ==> Shrinks(old(entries), history[k])
        invariant Shrinks(old(entries), entries)
        invariant reliable ==> forall i :: low <= i < index ==> Cookie(id, cookieSet, i) !in entries
        decreases high - index
      {
        RemoveCredential(Cookie(id, cookieSet, index));
        index := index + 1;
      }
    }

    /** Writes the chunks of a jar to a set; when a write fails, the chunks written so far are removed. */
    method WriteChunks(id: string, jar: seq<byte>, cookieSet: int) returns (ok: bool)
      requires Valid()
      modifies this
      ensures Valid() && old(history) <= history
      ensures AgreeBut(old(entries), entries, id, cookieSet, 0, Count(|jar|))
      ensures forall k :: |old(history)| <= k < |history| ==>
                AgreeBut(old(entries), history[k], id, cookieSet, 0, Count(|jar|))
      ensures ok ==> forall i :: 0 <= i < Count(|jar|) ==>
                       Cookie(id, cookieSet, i) in entries && entries[Cookie(id, cookieSet, i)] == Chunk(At(jar, i))
      ensures !ok && reliable ==> forall i :: Cookie(id, cookieSet, i) in entries ==>
                Cookie(id, cookieSet, i) in old(entries)
      ensures ok <==> failures == old(failures)
    {
      var index := 0;
      while index < Count(|jar|)
        invariant Valid() && old(history) <= history && 0 <= index && (index <= Count(|jar|) || index == 0)
        invariant failures == old(failures)
        invariant AgreeBut(old(entries), entries, id, cookieSet, 0, Count(|jar|))
        invariant forall k :: |old(history)| <= k < |history| ==>
                    AgreeBut(old(entries), history[k], id, cookieSet, 0, Count(|jar|))
        invariant forall i :: 0 <= i < index ==>
                    Cookie(id, cookieSet, i) in entries && entries[Cookie(id, cookieSet, i)] == Chunk(At(jar, i))
        invariant forall i :: !(0 <= i < index) && Cookie(id, cookieSet, i) in entries ==>
                    Cookie(id, cookieSet, i) in old(entries)
        decreases Count(|jar|) - index
      {
        var written := SaveCredential(Cookie(id, cookieSet, index), Chunk(At(jar, index)));
        if !written {
          ghost var before, mark := entries, |history|;
          RemoveCookies(id, cookieSet, 0, index + 1);
          forall k | mark <= k < |history|
            ensures AgreeBut(old(entries), history[k], id, cookieSet, 0, Count(|jar|))
          {
            WiderAgree(old(entries), before, history[k], id, cookieSet, index + 1, Count(|jar|));
          }
          WiderAgree(old(entries), before, entries, id, cookieSet, index + 1, Count(|jar|));
          return false;
        }
        index := index + 1;
      }
      ok := true;
    }

    // ----- Accounts

    /** Writes chunks and metadata; until the metadata is written, nothing that can be loaded differs. */
    method Commit(id: string, record: Record, jar: seq<byte>, metadataFits: bool) returns (ok: bool)
      requires record.cookieSet == NextSet(entries, id) && record.cookieChunks == Count(|jar|) <= MAXIMUM_CHUNKS
      requires Valid()
      modifies this
      ensures Valid() && old(history) <= history
      ensures forall k :: |old(history)| <= k < |history| - 1 ==> Unseen(old(entries), history[k], id, Count(|jar|))
      ensures !ok ==> Unseen(old(entries), entries, id, Count(|jar|))
      ensures !ok && reliable && Clean(old(entries), id) ==> entries == old(entries)
      ensures ok ==>
                && AgreeElsewhere(old(entries), entries, id)
                && Account(id) in entries && entries[Account(id)] == Metadata(record)
                && Holds(entries, id, record.cookieSet, jar)
                && AgreeOnCookiesBut(old(entries), entries, id, record.cookieSet, record.cookieChunks)
      ensures ok <==> metadataFits && failures == old(failures)
    {
      ghost var m := entries;
      ok := WriteChunks(id, jar, record.cookieSet);
      forall k | |old(history)| <= k < |history|
        ensures Unseen(m, history[k], id, record.cookieChunks)
      {
        NextSetIsUnused(m, history[k], id, record.cookieChunks);
      }
      NextSetIsUnused(m, entries, id, record.cookieChunks);
      if !ok {
        if reliable && Clean(m, id) {
          UndoneIsRestored(m, entries, id, record.cookieChunks);
        }
        return;
      }
      ok := false;
      if metadataFits {
        ok := SaveCredential(Account(id), Metadata(record));
      }
      if !ok {
        Undo(id, record.cookieSet, record.cookieChunks, m);
      }
    }

    method Undo(id: string, cookieSet: int, cookieChunks: int, ghost m: Store)
      requires cookieSet == NextSet(m, id) && AgreeBut(m, entries, id, cookieSet, 0, cookieChunks)
      requires Valid() && cookieChunks <= MAXIMUM_CHUNKS
      modifies `entries, `history
      ensures Valid() && old(history) <= history
      ensures forall k :: |old(history)| <= k < |history| ==> Unseen(m, history[k], id, cookieChunks)
      ensures Unseen(m, entries, id, cookieChunks)
      ensures reliable && Clean(m, id) ==> entries == m
    {
      RemoveCookies(id, cookieSet, 0, cookieChunks);
      forall n | n == entries || n in history[|old(history)|..]
        ensures Unseen(m, n, id, cookieChunks)
      {
        WiderAgree(m, old(entries), n, id, cookieSet, cookieChunks, cookieChunks);
        NextSetIsUnused(m, n, id, cookieChunks);
      }
      assert forall k :: |old(history)| <= k < |history| ==> history[k] in history[|old(history)|..];
      if reliable && Clean(m, id) {
        WiderAgree(m, old(entries), entries, id, cookieSet, cookieChunks, cookieChunks);
        forall i | Cookie(id, cookieSet, i) in entries
          ensures Cookie(id, cookieSet, i) in m
        {
          assert Same(m, entries, Cookie(id, cookieSet, i));
        }
        UndoneIsRestored(m, entries, id, cookieChunks);
      }
    }

    /** Removes the chunks of the set no longer in use, and leftovers behind the new ones. */
    method DropOld(id: string, previous: Record, record: Record)
      requires record == RecordAt(entries, id) && 0 <= record.cookieSet <= 1
      requires Chunks(previous) > 0 ==> Set(previous) != record.cookieSet
      requires Valid()
      modifies `entries, `history
      ensures Valid() && old(history) <= history
      ensures forall k :: |old(history)| <= k < |history| ==>
                Unchanged(old(entries), history[k], id) && Shrinks(old(entries), history[k])
      ensures Unchanged(old(entries), entries, id) && Shrinks(old(entries), entries)
      ensures reliable ==> Dropped(old(entries), entries, id, previous, record)
    {
      RemoveCookies(id, Set(previous), 0, Chunks(previous));
      ghost var middle, mark := entries, |history|;
      RemoveCookies(id, record.cookieSet, record.cookieChunks, MAXIMUM_CHUNKS);
      OldIsUnnamed(old(entries), middle, id, Set(previous), 0, Chunks(previous));
      forall k | |old(history)| <= k < |history|
        ensures Unchanged(old(entries), history[k], id)
      {
        if k < mark {
          OldIsUnnamed(old(entries), history[k], id, Set(previous), 0, Chunks(previous));
        } else {
          OldIsUnnamed(middle, history[k], id, record.cookieSet, record.cookieChunks, MAXIMUM_CHUNKS);
        }
      }
      OldIsUnnamed(middle, entries, id, record.cookieSet, record.cookieChunks, MAXIMUM_CHUNKS);
      if reliable {
        BothDropped(old(entries), middle, entries, id, previous, record);
      }
    }

    /**
     However the keyring behaves, and wherever the save is cut off, a load returns either the account
     of before or the account of after, complete; other accounts load as before throughout. The save succeeds
     exactly if the account has an id, its chunks and its metadata fit, and no write fails.
     */
    method SaveAccount(id: string, c: Credentials, metadataFits: bool) returns (saved: bool)
      requires Valid()
      modifies this
      ensures Valid() && old(history) <= history
      ensures SaveStep(old(entries), entries, id, c, saved, reliable)
      ensures saved <==>
              !Blank(id) && Count(|c.cookieJar|) <= MAXIMUM_CHUNKS && metadataFits && failures == old(failures)
      ensures forall k :: |old(history)| <= k < |history| ==>
                CutOff(old(entries), history[k], id, c) && OldOrNew(history[k], old(entries), entries)
    {
      if Blank(id) {
        return false;
      }
      var previous := RecordAt(entries, id);
      var stored := Preserved(previous.account, c);
      var cookieSet := if Account(id) !in entries then 0 else 1 - Set(previous);
      var cookieChunks := Count(|stored.cookieJar|);
      if cookieChunks > MAXIMUM_CHUNKS {
        return false;
      }
      var record := Record(stored.(cookieJar := []), cookieChunks, cookieSet);
      saved := Commit(id, record, stored.cookieJar, metadataFits);
      ghost var mark, committed := |history|, entries;
      if saved {
        DropOld(id, previous, record);
        CommittedIsSaved(old(entries), committed, entries, id, c, reliable);
      }
      forall k | |old(history)| <= k < |history|
        ensures CutOff(old(entries), history[k], id, c) && OldOrNew(history[k], old(entries), entries)
      {
        if k < mark - 1 {
          StillOld(history[k], old(entries), entries, id);
        } else {
          AlreadyNew(history[k], old(entries), entries, committed, id);
          if saved {
            CommittedIsSaved(old(entries), committed, history[k], id, c, false);
          }
        }
      }
    }

    method LoadAccount(id: string) returns (c: Credentials)
      ensures c == Loaded(entries, id)
    {
      if Blank(id) {
        return DEFAULTS;
      }
      var r := RecordAt(entries, id);
      var jar: seq<byte> := [];
      var index := 0;
      var intact := true;
      while index < Chunks(r)
        invariant 0 <= index <= Chunks(r)
        invariant Jar(entries, id, Set(r), index) == Some(jar)
      {
        var chunk := ChunkAt(entries, id, Set(r), index);
        if chunk == [] {
          SpoiltJar(entries, id, Set(r), index + 1, Chunks(r));
          jar := [];
          intact := false;
          break;
        }
        jar := jar + chunk;
        index := index + 1;
      }
      c := Normalized(r.account).(cookieJar := jar);
    }

    method RemoveAccount(id: string)
      requires Valid()
      modifies this
      ensures Valid() && old(history) <= history
      ensures RemoveStep(old(entries), entries, id, reliable)
      ensures forall k :: |old(history)| <= k < |history| ==> RemoveStep(old(entries), history[k], id, false)
    {
      if Blank(id) {
        return;
      }
      for index := 0 to MAXIMUM_CHUNKS
        invariant Valid() && old(history) <= history
        invariant AgreeElsewhere(old(entries), entries, id) && Shrinks(old(entries), entries)
        invariant forall k :: |old(history)| <= k < |history| ==> RemoveStep(old(entries), history[k], id, false)
        invariant reliable ==> forall cookieSet, i :: 0 <= cookieSet <= 1 && 0 <= i < index ==>
                    Cookie(id, cookieSet, i) !in entries
      {
        RemoveCredential(Cookie(id, 0, index));
        RemoveCredential(Cookie(id, 1, index));
      }
      RemoveCredential(Account(id));
    }
  }

  /** All chunks of a jar are in a set. */
  ghost predicate Holds(m: Store, id: string, cookieSet: int, jar: seq<byte>) {
    forall i :: 0 <= i < Count(|jar|) ==>
      Cookie(id, cookieSet, i) in m && m[Cookie(id, cookieSet, i)] == Chunk(At(jar, i))
  }

  ghost predicate AgreeOnCookiesBut(m: Store, n: Store, id: string, cookieSet: int, high: int) {
    forall e: Entry :: e.Cookie? && !InRange(e, id, cookieSet, 0, high) ==> Same(m, n, e)
  }

  /** Of the cookies of an account, exactly those of the old metadata and those behind the new ones are gone. */
  ghost predicate Dropped(m: Store, n: Store, id: string, previous: Record, record: Record) {
    forall cookieSet, i :: Cookie(id, cookieSet, i) in n <==>
      && Cookie(id, cookieSet, i) in m
      && !InRange(Cookie(id, cookieSet, i), id, Set(previous), 0, Chunks(previous))
      && !InRange(Cookie(id, cookieSet, i), id, record.cookieSet, record.cookieChunks, MAXIMUM_CHUNKS)
  }

  lemma BothDropped(m: Store, middle: Store, n: Store, id: string, previous: Record, record: Record)
    requires AgreeBut(m, middle, id, Set(previous), 0, Chunks(previous)) && Shrinks(m, middle)
    requires AgreeBut(middle, n, id, record.cookieSet, record.cookieChunks, MAXIMUM_CHUNKS) && Shrinks(middle, n)
    requires forall i :: 0 <= i < Chunks(previous) ==> Cookie(id, Set(previous), i) !in middle
    requires forall i :: record.cookieChunks <= i < MAXIMUM_CHUNKS ==> Cookie(id, record.cookieSet, i) !in n
    ensures Dropped(m, n, id, previous, record)
  {
    forall cookieSet, i
      ensures var e := Cookie(id, cookieSet, i);
              e in n <==> e in m && !InRange(e, id, Set(previous), 0, Chunks(previous))
                          && !InRange(e, id, record.cookieSet, record.cookieChunks, MAXIMUM_CHUNKS)
    {
      var e := Cookie(id, cookieSet, i);
      if !InRange(e, id, Set(previous), 0, Chunks(previous)) {
        assert Same(m, middle, e);
      }
      if !InRange(e, id, record.cookieSet, record.cookieChunks, MAXIMUM_CHUNKS) {
        assert Same(middle, n, e);
      }
    }
  }

  /** A committed account makes a successful save, and a tidy one once its predecessor has been dropped. */
  lemma CommittedIsSaved(m: Store, n: Store, o: Store, id: string, c: Credentials, reliable: bool)
    requires !Blank(id) && Count(|c.cookieJar|) <= MAXIMUM_CHUNKS
    requires AgreeElsewhere(m, n, id) && Unchanged(n, o, id) && Shrinks(n, o)
    requires Account(id) in n && n[Account(id)] == Metadata(NewRecord(m, id, c))
    requires Holds(n, id, NextSet(m, id), c.cookieJar)
    requires AgreeOnCookiesBut(m, n, id, NextSet(m, id), Count(|c.cookieJar|))
    requires reliable ==> Dropped(n, o, id, RecordAt(m, id), NewRecord(m, id, c))
    ensures SaveStep(m, o, id, c, true, reliable)
  {
    assert Same(n, o, Account(id));
    assert RecordAt(o, id) == RecordAt(n, id) == NewRecord(m, id, c);
    assert Set(NewRecord(m, id, c)) == NextSet(m, id);
    forall i | 0 <= i < Count(|c.cookieJar|)
      ensures Same(n, o, Cookie(id, NextSet(m, id), i))
    {
    }
    assert AgreeElsewhere(m, o, id) by {
      forall e: Entry | e.id != id
        ensures Same(m, o, e)
      {
        assert Same(m, n, e) && Same(n, o, e);
      }
    }
    forall cookieSet, i | Cookie(id, cookieSet, i) in o
      ensures Cookie(id, cookieSet, i) in m || (cookieSet == NextSet(m, id) && 0 <= i < Count(|c.cookieJar|))
    {
      if !InRange(Cookie(id, cookieSet, i), id, NextSet(m, id), 0, Count(|c.cookieJar|)) {
        assert Same(m, n, Cookie(id, cookieSet, i));
      }
    }
    if reliable {
      DroppedIsTidied(m, n, o, id, c);
    }
  }

  lemma DroppedIsTidied(m: Store, n: Store, o: Store, id: string, c: Credentials)
    requires Holds(n, id, NextSet(m, id), c.cookieJar)
    requires AgreeOnCookiesBut(m, n, id, NextSet(m, id), Count(|c.cookieJar|))
    requires Dropped(n, o, id, RecordAt(m, id), NewRecord(m, id, c))
    ensures Tidied(m, o, id, Count(|c.cookieJar|))
  {
    var previous, count, next := RecordAt(m, id), Count(|c.cookieJar|), NextSet(m, id);
    forall cookieSet, i
      ensures Cookie(id, cookieSet, i) in o <==>
              if cookieSet == next && (0 <= i < count || count <= i < MAXIMUM_CHUNKS) then 0 <= i < count
              else Cookie(id, cookieSet, i) in m && !(cookieSet == Set(previous) && 0 <= i < Chunks(previous))
    {
      if !InRange(Cookie(id, cookieSet, i), id, next, 0, count) {
        assert Same(m, n, Cookie(id, cookieSet, i));
      }
    }
  }

  /** Every account loads as from m or as from n. */
  ghost predicate OldOrNew(crashed: Store, m: Store, n: Store) {
    forall id :: Loaded(crashed, id) == Loaded(m, id) || Loaded(crashed, id) == Loaded(n, id)
  }

  lemma StillOld(crashed: Store, m: Store, n: Store, id: string)
    requires Unchanged(m, crashed, id)
    ensures OldOrNew(crashed, m, n)
  {
    UnchangedLoadsSame(m, crashed, id);
  }

  lemma AlreadyNew(crashed: Store, m: Store, n: Store, committed: Store, id: string)
    requires Unchanged(committed, crashed, id) && Unchanged(committed, n, id)
    ensures OldOrNew(crashed, m, n)
  {
    UnchangedLoadsSame(committed, crashed, id);
    UnchangedLoadsSame(committed, n, id);
  }

  /** Cookies outside the set and count of the metadata can go without changing what is loaded. */
  lemma OldIsUnnamed(m: Store, n: Store, id: string, cookieSet: int, low: int, high: int)
    requires AgreeBut(m, n, id, cookieSet, low, high)
    requires low >= high || cookieSet != Set(RecordAt(m, id)) || low >= RecordAt(m, id).cookieChunks
    ensures Unchanged(m, n, id) && RecordAt(n, id) == RecordAt(m, id)
  {
    assert Same(m, n, Account(id));
  }
}
