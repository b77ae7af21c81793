/** Creating a LIVE over hosts that may fail, and how many rooms the remote end is made to create. */
module LiveModel {
  import opened Common

  /** A failed request. Whether its text means a stale room or a missing login is given, not derived. */
  datatype Failure = Failure(stale: bool, login: bool)

  /** The fields read from a room object. */
  datatype Room = Room(roomId: string, streamId: string, ownerId: string, pushUrl: string, dualUrl: string)

  /** One host's reply to a request for the room that could be continued. */
  datatype Reply = Unreachable(failure: Failure) | Refused(failure: Failure) | Answered(room: Option<Room>)

  // ----- Looking for a room to continue

  datatype Lookup = Lookup(room: Option<Room>, error: Option<Failure>)

  /** The replies so far; `confirmed` says that some host has denied that there is a room. */
  datatype LookupState = LookupState(confirmed: bool, error: Option<Failure>, done: Option<Lookup>)

  function Heard(s: LookupState, reply: Reply): LookupState {
    match reply
    case Unreachable(f) => if s.confirmed then s else s.(error := Some(f))
    case Refused(f) =>
      if f.stale then s.(confirmed := true, error := None)
      else if f.login && !s.confirmed then s.(error := Some(f), done := Some(Lookup(None, Some(f))))
      else if !s.confirmed then s.(error := Some(f))
      else s
    case Answered(Some(room)) => s.(error := None, done := Some(Lookup(Some(room), None)))
    case Answered(None) => s.(confirmed := true, error := None)
  }

  function HeardAll(s: LookupState, replies: seq<Reply>): LookupState
    decreases |replies|
  {
    if replies == [] || s.done.Some? then s else HeardAll(Heard(s, replies[0]), replies[1..])
  }

  function LookupResult(replies: seq<Reply>): Lookup {
    var s := HeardAll(LookupState(false, None, None), replies);
    if s.done.Some? then s.done.value else Lookup(None, if s.confirmed then None else s.error)
  }

  predicate Denies(reply: Reply) {
    reply == Answered(None) || (reply.Refused? && reply.failure.stale)
  }

  /** A refusal that ends the lookup, unless some host has denied the room before. */
  predicate AsksLogin(reply: Reply) {
    reply.Refused? && !reply.failure.stale && reply.failure.login
  }

  /** The lookup gets as far as reply i: no earlier room, and no earlier unanswered login request. */
  ghost predicate Reaches(replies: seq<Reply>, i: nat) {
    i <= |replies| &&
    forall j :: 0 <= j < i ==>
      && !(replies[j].Answered? && replies[j].room.Some?)
      && (AsksLogin(replies[j]) ==> exists k :: 0 <= k < j && Denies(replies[k]))
  }

  lemma {:induction false} HeardAllSteps(s: LookupState, replies: seq<Reply>, i: nat)
    requires i < |replies| && HeardAll(s, replies[..i]).done == None
    ensures HeardAll(s, replies[..i + 1]) == Heard(HeardAll(s, replies[..i]), replies[i])
    decreases i
  {
    if i == 0 {
      assert replies[..1][1..] == [];
      assert HeardAll(Heard(s, replies[0]), []) == Heard(s, replies[0]);
    } else if s.done == None {
      assert replies[..i][1..] == replies[1..][..i - 1] && replies[..i + 1][1..] == replies[1..][..i];
      HeardAllSteps(Heard(s, replies[0]), replies[1..], i - 1);
    }
  }

  lemma {:induction false} HeardAllStops(s: LookupState, replies: seq<Reply>, i: nat)
    requires i <= |replies| && HeardAll(s, replies[..i]).done.Some?
    ensures HeardAll(s, replies) == HeardAll(s, replies[..i])
    decreases |replies|
  {
    if s.done == None {
      assert i > 0;
      assert replies[..i][1..] == replies[1..][..i - 1];
      HeardAllStops(Heard(s, replies[0]), replies[1..], i - 1);
    }
  }

  /** While the lookup is going on, `confirmed` says exactly that a host has denied the room. */
  lemma {:induction false} GoingOn(replies: seq<Reply>, i: nat)
    requires i <= |replies|
    ensures var s := HeardAll(LookupState(false, None, None), replies[..i]);
            && (s.done == None <==> Reaches(replies, i))
            && (s.done == None ==>
                  && (s.confirmed <==> exists k :: 0 <= k < i && Denies(replies[k]))
                  && (s.confirmed ==> s.error == None)
                  && (!s.confirmed && i > 0 ==> s.error.Some?)
                  && (i == 0 ==> s.error == None))
            && (s.done.Some? ==> (s.done.value.room.Some? <==> s.done.value.error == None))
    decreases i
  {
    var start := LookupState(false, None, None);
    if i > 0 {
      GoingOn(replies, i - 1);
      var before := HeardAll(start, replies[..i - 1]);
      if before.done == None {
        HeardAllSteps(start, replies, i - 1);
        var now := HeardAll(start, replies[..i]);
        assert now == Heard(before, replies[i - 1]);
        assert Reaches(replies, i) <==>
               !(replies[i - 1].Answered? && replies[i - 1].room.Some?) &&
                 (AsksLogin(replies[i - 1]) ==> before.confirmed);
        assert (exists k :: 0 <= k < i && Denies(replies[k])) <==> before.confirmed || Denies(replies[i - 1]);
      } else {
        assert replies[..i][..i - 1] == replies[..i - 1];
        HeardAllStops(start, replies[..i], i - 1);
      }
    }
  }

  /** The lookup is going on after i replies and not after one more, or all i replies have been heard. */
  lemma {:induction false} LastHeard(replies: seq<Reply>, from: nat) returns (i: nat)
    requires from <= |replies| && HeardAll(LookupState(false, None, None), replies[..from]).done == None
    ensures i <= |replies| && HeardAll(LookupState(false, None, None), replies[..i]).done == None
    ensures i < |replies| ==> HeardAll(LookupState(false, None, None), replies[..i + 1]).done.Some?
    decreases |replies| - from
  {
    if from < |replies| && HeardAll(LookupState(false, None, None), replies[..from + 1]).done == None {
      i := LastHeard(replies, from + 1);
    } else {
      i := from;
    }
  }

  /** A reply that ends the lookup decides its result, and none before it was a room. */
  lemma EndedBy(replies: seq<Reply>, i: nat)
    requires i < |replies| && HeardAll(LookupState(false, None, None), replies[..i]).done == None
    requires HeardAll(LookupState(false, None, None), replies[..i + 1]).done.Some?
    ensures Reaches(replies, i) && !Reaches(replies, i + 1)
    ensures LookupResult(replies).room.Some? <==> replies[i].Answered? && replies[i].room.Some?
    ensures LookupResult(replies).room == None ==> LookupResult(replies).error.Some?
  {
    GoingOn(replies, i);
    GoingOn(replies, i + 1);
    HeardAllSteps(LookupState(false, None, None), replies, i);
    HeardAllStops(LookupState(false, None, None), replies, i + 1);
  }

  /**
   A lookup finds a room exactly when a host that it reaches answers with one, and it reports "no
   room" without an error exactly when it goes through all hosts and one denies it (or there is none).
   */
  lemma LookupIsComplete(replies: seq<Reply>)
    ensures LookupResult(replies).room.Some? <==>
              exists i :: 0 <= i < |replies| && Reaches(replies, i) && replies[i].Answered? && replies[i].room.Some?
    ensures LookupResult(replies) == Lookup(None, None) <==>
              Reaches(replies, |replies|) && (replies == [] || exists k :: 0 <= k < |replies| && Denies(replies[k]))
  {
    var i := LastHeard(replies, 0);
    GoingOn(replies, i);
    if i < |replies| {
      EndedBy(replies, i);
      assert forall j :: i < j <= |replies| ==> !Reaches(replies, j);
    } else {
      assert replies[..i] == replies;
    }
  }

  /** The first host that answers with a room, before the lookup has ended, answers with this one. */
  ghost predicate FindsRoom(replies: seq<Reply>, room: Room) {
    exists i :: 0 <= i < |replies| && Reaches(replies, i) && replies[i] == Answered(Some(room))
  }

  /**
   The lookup reports this failure: that of a login request which ends it, or, after all hosts, that of the
   last one if none has denied the room.
   */
  ghost predicate FailsWith(replies: seq<Reply>, f: Failure) {
    || (exists i :: 0 <= i < |replies| && Reaches(replies, i) && AsksLogin(replies[i]) && replies[i] == Refused(f) &&
          forall k :: 0 <= k < i ==> !Denies(replies[k]))
    || (replies != [] && Reaches(replies, |replies|) && (forall k :: 0 <= k < |replies| ==> !Denies(replies[k])) &&
        replies[|replies| - 1] in {Unreachable(f), Refused(f)})
  }

  /** The result of a lookup, from its replies: the room that is found and the failure that is reported. */
  lemma LookupIsExact(replies: seq<Reply>)
    ensures forall room :: LookupResult(replies).room == Some(room) <==> FindsRoom(replies, room)
    ensures forall f :: LookupResult(replies).error == Some(f) <==> FailsWith(replies, f)
  {
    var i := LastHeard(replies, 0);
    GoingOn(replies, i);
    if i < |replies| {
      EndedBy(replies, i);
      assert forall j :: i < j <= |replies| ==> !Reaches(replies, j);
      EndedWith(replies, i);
      OnlyRoomFound(replies, i);
      OnlyFailure(replies, i);
    } else {
      assert replies[..i] == replies;
      LastError(replies);
    }
  }

  /** What the reply that ends a lookup makes its result. */
  lemma EndedWith(replies: seq<Reply>, i: nat)
    requires i < |replies| && HeardAll(LookupState(false, None, None), replies[..i]).done == None
    requires HeardAll(LookupState(false, None, None), replies[..i + 1]).done.Some?
    ensures match replies[i]
            case Answered(room) => LookupResult(replies) == Lookup(room, None)
            case Refused(f) =>
              && AsksLogin(replies[i]) && LookupResult(replies) == Lookup(None, Some(f))
              && forall k :: 0 <= k < i ==> !Denies(replies[k])
            case Unreachable(_) => false
  {
    GoingOn(replies, i);
    HeardAllSteps(LookupState(false, None, None), replies, i);
    HeardAllStops(LookupState(false, None, None), replies, i + 1);
  }

  lemma OnlyRoomFound(replies: seq<Reply>, i: nat)
    requires i < |replies| && Reaches(replies, i) && forall j :: i < j <= |replies| ==> !Reaches(replies, j)
    ensures forall room :: FindsRoom(replies, room) <==> replies[i] == Answered(Some(room))
  {
    forall room
      ensures FindsRoom(replies, room) <==> replies[i] == Answered(Some(room))
    {
      if FindsRoom(replies, room) {
        var j :| 0 <= j < |replies| && Reaches(replies, j) && replies[j] == Answered(Some(room));
        assert j <= i;
        assert Reaches(replies, i);
      }
    }
  }

  lemma OnlyFailure(replies: seq<Reply>, i: nat)
    requires i < |replies| && Reaches(replies, i) && forall j :: i < j <= |replies| ==> !Reaches(replies, j)
    ensures forall f :: FailsWith(replies, f) <==>
              AsksLogin(replies[i]) && replies[i] == Refused(f) && forall k :: 0 <= k < i ==> !Denies(replies[k])
  {
    forall f
      ensures FailsWith(replies, f) <==>
              AsksLogin(replies[i]) && replies[i] == Refused(f) && forall k :: 0 <= k < i ==> !Denies(replies[k])
    {
      if FailsWith(replies, f) {
        assert !Reaches(replies, |replies|);
        var j :| 0 <= j < |replies| && Reaches(replies, j) && AsksLogin(replies[j]) && replies[j] == Refused(f) &&
          forall k :: 0 <= k < j ==> !Denies(replies[k]);
        assert j <= i;
      }
    }
  }

  /** Once all hosts have been heard, the failure reported is the last one, unless the room was denied. */
  lemma LastError(replies: seq<Reply>)
    requires HeardAll(LookupState(false, None, None), replies).done == None
    ensures forall room :: !FindsRoom(replies, room)
    ensures forall f :: LookupResult(replies).error == Some(f) <==> FailsWith(replies, f)
  {
    var n := |replies|;
    assert replies[..n] == replies;
    GoingOn(replies, n);
    if n > 0 {
      GoingOn(replies, n - 1);
      if HeardAll(LookupState(false, None, None), replies[..n - 1]).done.Some? {
        HeardAllStops(LookupState(false, None, None), replies, n - 1);
      }
      HeardAllSteps(LookupState(false, None, None), replies, n - 1);
    }
  }

  // ----- Creating a room

  /** One host's part: whether a create request took effect, its reply, and the lookup after a failure. */
  datatype Attempt = Attempt(tookEffect: bool, reply: CreateReply, recovery: seq<Reply>)

  datatype CreateReply = CreateFailed(failure: Failure) | Created(room: Room)

  datatype Ending = GotRoom(room: Room, host: nat, isNew: bool) | LoginNeeded(failure: Failure)
      | GaveUp(last: Option<Failure>)

  /** `created` counts the rooms made at the remote end, `missed` the lookups that found none though one existed. */
  datatype Course = Course(created: nat, missed: nat, ending: Ending)

  function Missed(rooms: nat, lookup: Lookup): nat {
    if rooms > 0 && lookup.room == None then 1 else 0
  }

  function NeedsLogin(lookup: Lookup): bool {
    lookup.error.Some? && lookup.error.value.login
  }

  /** The create requests from host `host` on, when `rooms` rooms exist. */
  function CreateCourse(rooms: nat, attempts: seq<Attempt>, host: nat, last: Option<Failure>): Course
    decreases |attempts|
  {
    if attempts == [] then Course(0, 0, GaveUp(last))
    else
      var a := attempts[0];
      var made := if a.tookEffect then 1 else 0;
      match a.reply
      case Created(room) => Course(made, 0, GotRoom(room, host, true))
      case CreateFailed(f) =>
        var recovered := LookupResult(a.recovery);
        var missed := Missed(rooms + made, recovered);
        if recovered.room.Some? then Course(made, missed, GotRoom(recovered.room.value, host, true))
        else if f.login || NeedsLogin(recovered) then Course(made, missed, GaveUp(Some(f)))
        else
          var rest := CreateCourse(rooms + made, attempts[1..], host + 1, Some(f));
          Course(made + rest.created, missed + rest.missed, rest.ending)
  }

  /** One call of start_live when `rooms` rooms exist; a room found at the start is used as it is. */
  function StartCourse(rooms: nat, first: seq<Reply>, attempts: seq<Attempt>): Course {
    var existing := LookupResult(first);
    if existing.room.Some? then Course(0, 0, GotRoom(existing.room.value, 0, false))
    else if NeedsLogin(existing) then Course(0, Missed(rooms, existing), LoginNeeded(existing.error.value))
    else
      var course := CreateCourse(rooms, attempts, 0, None);
      course.(missed := course.missed + Missed(rooms, existing))
  }

  lemma {:induction false} CreateBound(rooms: nat, attempts: seq<Attempt>, host: nat, last: Option<Failure>)
    ensures var c := CreateCourse(rooms, attempts, host, last);
            c.created <= c.missed + 1 && c.created <= |attempts|
    decreases |attempts|
  {
    if attempts != [] {
      CreateBound(rooms + (if attempts[0].tookEffect then 1 else 0), attempts[1..], host + 1,
                  if attempts[0].reply.CreateFailed? then Some(attempts[0].reply.failure) else None);
    }
  }

  /**
   For every script of replies, lost ones included: a call creates at most one room more than its
   lookups missed, and none more when one existed. So with lookups that see an existing room, it
   creates at most one, and none if there was one.
   */
  lemma AtMostOneRoom(rooms: nat, first: seq<Reply>, attempts: seq<Attempt>)
    ensures var c := StartCourse(rooms, first, attempts);
            && c.created <= c.missed + (if rooms > 0 then 0 else 1)
            && (c.missed == 0 ==> c.created <= 1 && rooms + c.created <= (if rooms > 0 then rooms else 1))
  {
    CreateBound(rooms, attempts, 0, None);
  }

  /** How many create requests of these took effect. */
  function Effects(attempts: seq<Attempt>): nat {
    if attempts == [] then 0 else (if attempts[0].tookEffect then 1 else 0) + Effects(attempts[1..])
  }

  /** Every lookup after a failed create that is made while a room exists finds one. */
  ghost predicate RecoveriesSee(rooms: nat, attempts: seq<Attempt>) {
    forall j :: 0 <= j < |attempts| && IsAsked(attempts, j) && attempts[j].reply.CreateFailed? ==>
      (rooms + Effects(attempts[..j + 1]) > 0 ==> LookupResult(attempts[j].recovery).room.Some?)
  }

  lemma {:induction false} NoneMissedIff(rooms: nat, attempts: seq<Attempt>, host: nat, last: Option<Failure>)
    ensures CreateCourse(rooms, attempts, host, last).missed == 0 <==> RecoveriesSee(rooms, attempts)
    decreases |attempts|
  {
    if attempts != [] {
      var a := attempts[0];
      var made := rooms + (if a.tookEffect then 1 else 0);
      assert attempts[..1] == [a] && Effects([a]) == (if a.tookEffect then 1 else 0) + Effects([]);
      assert IsAsked(attempts, 0);
      if GoesOn(a) {
        NoneMissedIff(made, attempts[1..], host + 1, Some(a.reply.failure));
        SeeLater(rooms, attempts);
      } else {
        assert forall j :: 0 < j < |attempts| ==> !IsAsked(attempts, j);
      }
    }
  }

  lemma SeeLater(rooms: nat, attempts: seq<Attempt>)
    requires attempts != [] && GoesOn(attempts[0]) && IsAsked(attempts, 0)
    ensures var made := rooms + if attempts[0].tookEffect then 1 else 0;
            RecoveriesSee(rooms, attempts) <==> made == 0 && RecoveriesSee(made, attempts[1..])
  {
    var rest, made := attempts[1..], rooms + if attempts[0].tookEffect then 1 else 0;
    assert attempts[..1] == [attempts[0]] && attempts[..1][1..] == [];
    assert rooms + Effects(attempts[..0 + 1]) == made;
    forall j | 0 < j < |attempts|
      ensures IsAsked(attempts, j) <==> IsAsked(rest, j - 1)
      ensures rooms + Effects(attempts[..j + 1]) == made + Effects(rest[..j - 1 + 1]) && attempts[j] == rest[j - 1]
    {
      AskedLater(attempts, j);
      assert attempts[..j + 1][1..] == rest[..j];
    }
    if RecoveriesSee(rooms, attempts) {
      forall j | 0 <= j < |rest| && IsAsked(rest, j) && rest[j].reply.CreateFailed?
        ensures made + Effects(rest[..j + 1]) > 0 ==> LookupResult(rest[j].recovery).room.Some?
      {
        assert IsAsked(attempts, j + 1);
      }
    }
    if made == 0 && RecoveriesSee(made, rest) {
      forall j | 0 <= j < |attempts| && IsAsked(attempts, j) && attempts[j].reply.CreateFailed?
        ensures rooms + Effects(attempts[..j + 1]) > 0 ==> LookupResult(attempts[j].recovery).room.Some?
      {
        assert j > 0 ==> IsAsked(rest, j - 1) && rest[j - 1].reply.CreateFailed?;
      }
    }
  }

  /** No lookup of a call misses a room exactly if each that is made while a room exists finds one. */
  lemma CallMissesNoneIff(rooms: nat, first: seq<Reply>, attempts: seq<Attempt>)
    ensures StartCourse(rooms, first, attempts).missed == 0 <==>
            && (rooms > 0 ==> LookupResult(first).room.Some?)
            && (Creates(first) ==> RecoveriesSee(rooms, attempts))
  {
    NoneMissedIff(rooms, attempts, 0, None);
  }

  /** Nothing in a host's part keeps the next host from being asked to create a room. */
  predicate GoesOn(a: Attempt) {
    && a.reply.CreateFailed? && !a.reply.failure.login
    && LookupResult(a.recovery).room == None && !NeedsLogin(LookupResult(a.recovery))
  }

  /** Host j is asked to create a room. */
  predicate IsAsked(attempts: seq<Attempt>, j: nat) {
    j < |attempts| && forall k :: 0 <= k < j ==> GoesOn(attempts[k])
  }

  /** A create request that is made takes effect. */
  predicate MakesOne(attempts: seq<Attempt>) {
    exists j :: 0 <= j < |attempts| && IsAsked(attempts, j) && attempts[j].tookEffect
  }

  /** So do two of them. */
  predicate MakesTwo(attempts: seq<Attempt>) {
    exists i, j :: 0 <= i < j < |attempts| && IsAsked(attempts, j) && attempts[i].tookEffect && attempts[j].tookEffect
  }

  /** The lookup at the start leaves the call to create a room. */
  predicate Creates(first: seq<Reply>) {
    LookupResult(first).room == None && !NeedsLogin(LookupResult(first))
  }

  lemma AskedLater(attempts: seq<Attempt>, j: nat)
    requires 0 < j < |attempts| && GoesOn(attempts[0])
    ensures IsAsked(attempts, j) <==> IsAsked(attempts[1..], j - 1)
  {
    if IsAsked(attempts[1..], j - 1) {
      forall k | 0 <= k < j
        ensures GoesOn(attempts[k])
      {
        assert k > 0 ==> attempts[k] == attempts[1..][k - 1];
      }
    }
  }

  lemma MakesLater(attempts: seq<Attempt>)
    requires attempts != [] && GoesOn(attempts[0])
    ensures MakesOne(attempts) <==> attempts[0].tookEffect || MakesOne(attempts[1..])
    ensures MakesTwo(attempts) <==> (attempts[0].tookEffect && MakesOne(attempts[1..])) || MakesTwo(attempts[1..])
  {
    var rest := attempts[1..];
    forall j | 0 < j < |attempts|
      ensures IsAsked(attempts, j) <==> IsAsked(rest, j - 1)
    {
      AskedLater(attempts, j);
    }
    if attempts[0].tookEffect {
      assert IsAsked(attempts, 0);
    }
    if MakesOne(rest) {
      var j :| 0 <= j < |rest| && IsAsked(rest, j) && rest[j].tookEffect;
      assert IsAsked(attempts, j + 1) && attempts[j + 1].tookEffect;
    }
    if MakesTwo(rest) {
      var i, j :| 0 <= i < j < |rest| && IsAsked(rest, j) && rest[i].tookEffect && rest[j].tookEffect;
      assert IsAsked(attempts, j + 1) && attempts[i + 1].tookEffect && attempts[j + 1].tookEffect;
    }
    if MakesTwo(attempts) {
      var i, j :| 0 <= i < j < |attempts| && IsAsked(attempts, j) && attempts[i].tookEffect && attempts[j].tookEffect;
      assert IsAsked(rest, j - 1) && rest[j - 1].tookEffect;
      assert i > 0 ==> rest[i - 1].tookEffect;
    }
  }

  lemma {:induction false} CreatedCounts(rooms: nat, attempts: seq<Attempt>, host: nat, last: Option<Failure>)
    ensures CreateCourse(rooms, attempts, host, last).created >= 1 <==> MakesOne(attempts)
    ensures CreateCourse(rooms, attempts, host, last).created >= 2 <==> MakesTwo(attempts)
    decreases |attempts|
  {
    if attempts != [] {
      if GoesOn(attempts[0]) {
        MakesLater(attempts);
        CreatedCounts(rooms + (if attempts[0].tookEffect then 1 else 0), attempts[1..], host + 1,
                      Some(attempts[0].reply.failure));
      } else {
        assert forall j :: 0 < j < |attempts| ==> !IsAsked(attempts, j);
        assert IsAsked(attempts, 0);
      }
    }
  }

  /**
   A call creates no room exactly when the lookup at its start ends it or no create request that it
   makes takes effect, and at most one exactly when no two of them do: a request that took effect is
   followed by another only if its reply is lost or rejected and the recovery finds no room and asks
   for no login.
   */
  lemma AtMostOneRoomIff(rooms: nat, first: seq<Reply>, attempts: seq<Attempt>)
    ensures StartCourse(rooms, first, attempts).created == 0 <==> !(Creates(first) && MakesOne(attempts))
    ensures StartCourse(rooms, first, attempts).created <= 1 <==> !(Creates(first) && MakesTwo(attempts))
  {
    CreatedCounts(rooms, attempts, 0, None);
  }

  /** A host's part gets the call a room: one just created, or one that the lookup after a failure finds. */
  ghost predicate Gets(a: Attempt, room: Room) {
    a.reply == Created(room) || (a.reply.CreateFailed? && FindsRoom(a.recovery, room))
  }

  /** Host j is the last to be asked, and its failure is what the call gives up with. */
  predicate StopsAt(attempts: seq<Attempt>, j: nat, f: Failure) {
    && IsAsked(attempts, j) && attempts[j].reply == CreateFailed(f) && LookupResult(attempts[j].recovery).room == None
    && (!GoesOn(attempts[j]) || j == |attempts| - 1)
  }

  ghost predicate EndsAs(ending: Ending, attempts: seq<Attempt>, host: nat, last: Option<Failure>) {
    match ending
    case GotRoom(room, h, isNew) => isNew && host <= h && IsAsked(attempts, h - host) && Gets(attempts[h - host], room)
    case GaveUp(None) => attempts == [] && last == None
    case GaveUp(Some(f)) =>
      if attempts == [] then last == Some(f) else exists j :: 0 <= j < |attempts| && StopsAt(attempts, j, f)
    case LoginNeeded(_) => false
  }

  /** Only one ending fits a script. */
  lemma {:induction false} CreateEndsAs(rooms: nat, attempts: seq<Attempt>, host: nat, last: Option<Failure>)
    ensures EndsAs(CreateCourse(rooms, attempts, host, last).ending, attempts, host, last)
    decreases |attempts|
  {
    if attempts != [] {
      var a := attempts[0];
      LookupIsExact(a.recovery);
      if GoesOn(a) {
        var made := rooms + (if a.tookEffect then 1 else 0);
        CreateEndsAs(made, attempts[1..], host + 1, Some(a.reply.failure));
        EndsLater(CreateCourse(made, attempts[1..], host + 1, Some(a.reply.failure)).ending, attempts, host, last);
      } else {
        assert IsAsked(attempts, 0);
        assert a.reply.CreateFailed? && LookupResult(a.recovery).room == None ==> StopsAt(attempts, 0, a.reply.failure);
      }
    }
  }

  lemma EndsLater(ending: Ending, attempts: seq<Attempt>, host: nat, last: Option<Failure>)
    requires attempts != [] && GoesOn(attempts[0])
    requires EndsAs(ending, attempts[1..], host + 1, Some(attempts[0].reply.failure))
    ensures EndsAs(ending, attempts, host, last)
  {
    forall j | 0 < j < |attempts|
      ensures IsAsked(attempts, j) <==> IsAsked(attempts[1..], j - 1)
      ensures attempts[j] == attempts[1..][j - 1]
    {
      AskedLater(attempts, j);
    }
    match ending
    case GaveUp(Some(f)) =>
      if |attempts| == 1 {
        assert IsAsked(attempts, 0) && StopsAt(attempts, 0, f);
      } else {
        var j :| 0 <= j < |attempts[1..]| && StopsAt(attempts[1..], j, f);
        assert StopsAt(attempts, j + 1, f);
      }
    case _ =>
  }

  /** The ending of a call, from its script alone. */
  ghost predicate Ends(ending: Ending, first: seq<Reply>, attempts: seq<Attempt>) {
    if exists room :: FindsRoom(first, room) then
      ending.GotRoom? && FindsRoom(first, ending.room) && ending.host == 0 && !ending.isNew
    else if exists f :: FailsWith(first, f) && f.login then
      ending.LoginNeeded? && FailsWith(first, ending.failure) && ending.failure.login
    else EndsAs(ending, attempts, 0, None)
  }

  /**
   Which room a call gets, from which host and whether it is new, or how it fails: it uses the room found at the
   start; or gives up if that lookup asks for a login; or else gets the first room that a create or a recovery
   yields, and gives up with the failure of the last host asked.
   */
  lemma CallEndsAs(rooms: nat, first: seq<Reply>, attempts: seq<Attempt>)
    ensures Ends(StartCourse(rooms, first, attempts).ending, first, attempts)
    ensures forall other :: Ends(other, first, attempts) ==> other == StartCourse(rooms, first, attempts).ending
  {
    LookupIsExact(first);
    CreateEndsAs(rooms, attempts, 0, None);
    forall other | Ends(other, first, attempts)
      ensures other == StartCourse(rooms, first, attempts).ending
    {
      if Creates(first) {
        OneEnding(other, CreateCourse(rooms, attempts, 0, None).ending, attempts);
      }
    }
  }

  lemma OneEnding(a: Ending, b: Ending, attempts: seq<Attempt>)
    requires EndsAs(a, attempts, 0, None) && EndsAs(b, attempts, 0, None)
    ensures a == b
  {
    if attempts != [] {
      var i := EndingHost(a, attempts);
      var j := EndingHost(b, attempts);
      LookupIsExact(attempts[i].recovery);
      LookupIsExact(attempts[j].recovery);
    }
  }

  /** The host at which a call with this ending stops. */
  lemma EndingHost(ending: Ending, attempts: seq<Attempt>) returns (j: nat)
    requires EndsAs(ending, attempts, 0, None) && attempts != []
    ensures IsAsked(attempts, j) && (!GoesOn(attempts[j]) || j == |attempts| - 1)
    ensures if ending.GotRoom? then ending.isNew && ending.host == j && Gets(attempts[j], ending.room)
            else ending.GaveUp? && ending.last.Some? && StopsAt(attempts, j, ending.last.value)
  {
    match ending
    case GotRoom(room, h, _) =>
      LookupIsExact(attempts[h].recovery);
      j := h;
    case GaveUp(Some(f)) =>
      var k :| 0 <= k < |attempts| && StopsAt(attempts, k, f);
      j := k;
  }

  /** The bound is met: a create whose reply and whose recovery are both lost leads to a second room. */
  lemma MissedLookupCreatesSecondRoom(room: Room)
    ensures var lost := Failure(false, false);
            var attempts := [Attempt(true, CreateFailed(lost), [Unreachable(lost)]), Attempt(true, Created(room), [])];
            StartCourse(0, [Answered(None)], attempts) == Course(2, 1, GotRoom(room, 1, true))
  {
    var lost := Failure(false, false);
    var attempts := [Attempt(true, CreateFailed(lost), [Unreachable(lost)]), Attempt(true, Created(room), [])];
    var start := LookupState(false, None, None);
    assert HeardAll(start, [Answered(None)]) == HeardAll(Heard(start, Answered(None)), []);
    assert HeardAll(start, [Unreachable(lost)]) == HeardAll(Heard(start, Unreachable(lost)), []);
    assert attempts[1..] == [Attempt(true, Created(room), [])];
    assert CreateCourse(1, attempts[1..], 1, Some(lost)) == Course(1, 0, GotRoom(room, 1, true));
  }

  /** Once a host asks for a login, nothing is created any more. */
  lemma LoginStopsCreation(rooms: nat, first: seq<Reply>, attempts: seq<Attempt>, i: nat)
    requires i < |attempts| && attempts[i].reply.CreateFailed? && attempts[i].reply.failure.login
    ensures StartCourse(rooms, first, attempts).created <= i + 1
    ensures NeedsLogin(LookupResult(first)) && LookupResult(first).room == None ==>
              StartCourse(rooms, first, attempts).created == 0
  {
    LoginStopsAt(rooms, attempts, 0, None, i);
  }

  lemma {:induction false} LoginStopsAt(rooms: nat, attempts: seq<Attempt>, host: nat, last: Option<Failure>, i: nat)
    requires i < |attempts| && attempts[i].reply.CreateFailed? && attempts[i].reply.failure.login
    ensures CreateCourse(rooms, attempts, host, last).created <= i + 1
    decreases i
  {
    if i > 0 {
      LoginStopsAt(rooms + (if attempts[0].tookEffect then 1 else 0), attempts[1..], host + 1,
                   if attempts[0].reply.CreateFailed? then Some(attempts[0].reply.failure) else None, i - 1);
    }
  }

  // ----- Stream URLs

  function LastSlash(url: string): (k: int)
    ensures -1 <= k < |url|
  {
    if url == "" then -1 else if url[|url| - 1] == '/' then |url| - 1 else LastSlash(url[..|url| - 1])
  }

  /** Where "://" first occurs at or after i, or -1. */
  function SchemeEnd(url: string, i: nat): (k: int)
    ensures k >= -1
    decreases |url| - i
  {
    if i + 3 > |url| then -1 else if url[i..i + 3] == "://" then i else SchemeEnd(url, i + 1)
  }

  /** The server and key parts of a push URL. */
  function SplitUrl(url: string): Option<(string, string)> {
    var slash := LastSlash(url);
    if slash <= SchemeEnd(url, 0) + 2 || slash >= |url| - 1 then None
    else Some((url[..slash], url[slash + 1..]))
  }

  lemma {:induction false} LastSlashIsLast(url: string)
    ensures var k := LastSlash(url);
            && (k >= 0 ==> url[k] == '/')
            && forall i :: k < i < |url| ==> url[i] != '/'
  {
    if url != "" && url[|url| - 1] != '/' {
      LastSlashIsLast(url[..|url| - 1]);
    }
  }

  /** A URL that is accepted is the server, a slash and the key, neither empty and the key without a slash. */
  lemma SplitRejoins(url: string)
    ensures SplitUrl(url).Some? ==>
              var (server, key) := SplitUrl(url).value;
              url == server + "/" + key && server != "" && key != "" && '/' !in key
  {
    LastSlashIsLast(url);
    if SplitUrl(url).Some? {
      JoinAt(url, LastSlash(url));
    }
  }

  predicate HasSchemeAt(url: string, k: int) {
    0 <= k <= |url| - 3 && url[k..k + 3] == "://"
  }

  /** k is where "://" first occurs, or -1 if it does not. */
  ghost predicate IsSchemeEnd(url: string, k: int) {
    && (k == -1 || HasSchemeAt(url, k))
    && forall j :: 0 <= j && (k == -1 || j < k) ==> !HasSchemeAt(url, j)
  }

  lemma {:induction false} SchemeEndIsFirst(url: string, i: nat)
    ensures var k := SchemeEnd(url, i);
            && (k == -1 || (i <= k && HasSchemeAt(url, k)))
            && forall j :: i <= j && (k == -1 || j < k) ==> !HasSchemeAt(url, j)
    decreases |url| - i
  {
    if i + 3 <= |url| && url[i..i + 3] != "://" {
      SchemeEndIsFirst(url, i + 1);
    }
  }

  /**
   A URL is accepted exactly when it does not end in a slash and has one behind the "//" of its
   scheme, which is the first "://" in it; without a scheme, one behind its first two characters.
   */
  lemma SplitAcceptsIff(url: string, scheme: int)
    requires IsSchemeEnd(url, scheme)
    ensures SplitUrl(url).Some? <==>
              && url != "" && url[|url| - 1] != '/'
              && exists i :: scheme + 2 < i < |url| && url[i] == '/'
  {
    SchemeEndIsFirst(url, 0);
    assert scheme == SchemeEnd(url, 0);
    LastSlashIsLast(url);
    if SplitUrl(url).Some? {
      assert url[LastSlash(url)] == '/';
    }
  }

  lemma JoinAt(url: string, k: nat)
    requires k < |url| && url[k] == '/'
    ensures url == url[..k] + "/" + url[k + 1..]
  {
  }

  // ----- Preparing a room

  datatype Live = Live(roomId: string, streamId: string, owner: string, server: string, key: string,
                       dualServer: string, dualKey: string)

  datatype LiveError = InvalidUrl | MissingIds | NoSecondUrl | NoOwner | HeartbeatFailed

  /** Owner ids in the room info replies of the hosts; None for a host that fails. */
  function FirstOwner(infos: seq<Option<string>>): string
    decreases |infos|
  {
    if infos == [] then ""
    else if infos[0].Some? && infos[0].value != "" then infos[0].value
    else FirstOwner(infos[1..])
  }

  function Owner(room: Room, userId: string, infos: seq<Option<string>>): string {
    if room.ownerId != "" then room.ownerId else if userId != "" then userId else FirstOwner(infos)
  }

  /** The reason a room cannot be used, if any, in the order in which it is looked for. */
  function Unusable(room: Room, userId: string, infos: seq<Option<string>>, sendHeartbeat: bool, heartbeatOk: bool,
                    needDual: bool)
    : Option<LiveError>
  {
    var main, second := SplitUrl(room.pushUrl), SplitUrl(room.dualUrl);
    if main == None || (!Blank(room.dualUrl) && second == None) then Some(InvalidUrl)
    else if room.roomId == "" || room.streamId == "" then Some(MissingIds)
    else if needDual && (Blank(room.dualUrl) || Blank(second.value.0) || Blank(second.value.1)) then Some(NoSecondUrl)
    else if Owner(room, userId, infos) == "" then Some(NoOwner)
    else if sendHeartbeat && !heartbeatOk then Some(HeartbeatFailed)
    else None
  }

  /** A LIVE that a caller can stream to and sign for. */
  predicate Usable(live: Live, room: Room, needDual: bool) {
    && live.roomId == room.roomId != "" && live.streamId == room.streamId != ""
    && live.server != "" && live.key != "" && live.server + "/" + live.key == room.pushUrl
    && live.owner != ""
    && (needDual ==>
          && !Blank(live.dualServer) && !Blank(live.dualKey)
          && live.dualServer + "/" + live.dualKey == room.dualUrl)
  }

  /** A push URL that can be split: it goes on behind a slash that is not part of its scheme. */
  ghost predicate Splits(url: string) {
    url != "" && url[|url| - 1] != '/' && exists scheme :: IsSchemeEnd(url, scheme) && HasSlashBehind(url, scheme + 2)
  }

  predicate HasSlashBehind(url: string, k: int) {
    exists i :: 0 <= i < |url| && k < i && url[i] == '/'
  }

  /** The part of a URL behind its last slash, and the part before it, are more than white space. */
  ghost predicate HasParts(url: string) {
    exists k :: 0 <= k < |url| && url[k] == '/' && '/' !in url[k + 1..] && !Blank(url[..k]) && !Blank(url[k + 1..])
  }

  lemma SplitIff(url: string)
    ensures SplitUrl(url).Some? <==> Splits(url)
  {
    SchemeEndIsScheme(url);
    SplitIffBehind(url, SchemeEnd(url, 0));
    forall scheme | IsSchemeEnd(url, scheme)
      ensures scheme == SchemeEnd(url, 0)
    {
    }
  }

  lemma SchemeEndIsScheme(url: string)
    ensures IsSchemeEnd(url, SchemeEnd(url, 0))
  {
    SchemeEndIsFirst(url, 0);
  }

  lemma SplitIffBehind(url: string, scheme: int)
    requires IsSchemeEnd(url, scheme)
    ensures SplitUrl(url).Some? <==> url != "" && url[|url| - 1] != '/' && HasSlashBehind(url, scheme + 2)
  {
    SplitAcceptsIff(url, scheme);
  }

  lemma LastSlashIsOnly(url: string, k: nat)
    requires k < |url| && url[k] == '/'
    ensures '/' !in url[k + 1..] <==> k == LastSlash(url)
  {
    var last := LastSlash(url);
    LastSlashIsLast(url);
    assert k < last ==> url[k + 1..][last - k - 1] == '/';
  }

  lemma SplitHasParts(url: string)
    requires SplitUrl(url).Some?
    ensures HasParts(url) <==> !Blank(SplitUrl(url).value.0) && !Blank(SplitUrl(url).value.1)
  {
    LastSlashIsLast(url);
    LastSlashIsOnly(url, LastSlash(url));
    if HasParts(url) {
      var k :| 0 <= k < |url| && url[k] == '/' && '/' !in url[k + 1..] && !Blank(url[..k]) && !Blank(url[k + 1..]);
      LastSlashIsOnly(url, k);
    }
  }

  /** The owner of a room is named by the room, else by the account, else by the first host that answers with one. */
  ghost predicate Owns(owner: string, room: Room, userId: string, infos: seq<Option<string>>) {
    && owner != ""
    && (room.ownerId != "" ==> owner == room.ownerId)
    && (room.ownerId == "" && userId != "" ==> owner == userId)
    && (room.ownerId == "" && userId == "" ==>
          exists i :: 0 <= i < |infos| && infos[i] == Some(owner) &&
            forall j :: 0 <= j < i ==> infos[j] in {None, Some("")})
  }

  lemma {:induction false} FirstOwnerIsFirst(infos: seq<Option<string>>)
    ensures FirstOwner(infos) != "" <==> exists i :: 0 <= i < |infos| && infos[i].Some? && infos[i].value != ""
    ensures FirstOwner(infos) != "" ==>
              exists i :: 0 <= i < |infos| && infos[i] == Some(FirstOwner(infos)) &&
                forall j :: 0 <= j < i ==> infos[j] in {None, Some("")}
    decreases |infos|
  {
    if infos != [] && !(infos[0].Some? && infos[0].value != "") {
      FirstOwnerIsFirst(infos[1..]);
      assert forall i :: 0 < i < |infos| ==> infos[i] == infos[1..][i - 1];
      if FirstOwner(infos) != "" {
        var i :| 0 <= i < |infos[1..]| && infos[1..][i] == Some(FirstOwner(infos)) &&
          forall j :: 0 <= j < i ==> infos[1..][j] in {None, Some("")};
        assert infos[i + 1] == Some(FirstOwner(infos));
        forall j | 0 <= j < i + 1
          ensures infos[j] in {None, Some("")}
        {
          assert j > 0 ==> infos[j] == infos[1..][j - 1];
        }
      }
    }
  }

  /** A room with a push URL, both ids, an owner, a second URL where it is needed, and an answered heartbeat. */
  ghost predicate Acceptable(room: Room, userId: string, infos: seq<Option<string>>, sendHeartbeat: bool,
                             heartbeatOk: bool, needDual: bool)
  {
    && Splits(room.pushUrl) && (Blank(room.dualUrl) || Splits(room.dualUrl))
    && room.roomId != "" && room.streamId != ""
    && (room.ownerId != "" || userId != "" || exists i :: 0 <= i < |infos| && infos[i].Some? && infos[i].value != "")
    && (sendHeartbeat ==> heartbeatOk)
    && (needDual ==> !Blank(room.dualUrl) && HasParts(room.dualUrl))
  }

  /** A room can be used exactly if it is acceptable; otherwise the reason is the first of these that applies. */
  lemma UsableIffAcceptable(room: Room, userId: string, infos: seq<Option<string>>, sendHeartbeat: bool,
                            heartbeatOk: bool, needDual: bool)
    ensures Unusable(room, userId, infos, sendHeartbeat, heartbeatOk, needDual) == None <==>
            Acceptable(room, userId, infos, sendHeartbeat, heartbeatOk, needDual)
    ensures var reason := Unusable(room, userId, infos, sendHeartbeat, heartbeatOk, needDual);
            var urls := Splits(room.pushUrl) && (Blank(room.dualUrl) || Splits(room.dualUrl));
            var ids := room.roomId != "" && room.streamId != "";
            var second := needDual ==> !Blank(room.dualUrl) && HasParts(room.dualUrl);
            && (reason == Some(InvalidUrl) <==> !urls)
            && (reason == Some(MissingIds) <==> urls && !ids)
            && (reason == Some(NoSecondUrl) <==> urls && ids && !second)
            && (reason == Some(HeartbeatFailed) ==> sendHeartbeat && !heartbeatOk)
    ensures Owner(room, userId, infos) != "" ==> Owns(Owner(room, userId, infos), room, userId, infos)
  {
    SplitIff(room.pushUrl);
    SplitIff(room.dualUrl);
    if SplitUrl(room.dualUrl).Some? {
      SplitHasParts(room.dualUrl);
    }
    FirstOwnerIsFirst(infos);
  }

  // ----- The whole call

  datatype Wishes = Wishes(userId: string, dualLayout: bool)

  /** Replies to the requests that prepare the room: its info by host, and the heartbeat. */
  datatype Answers = Answers(infos: seq<Option<string>>, heartbeatOk: bool)

  datatype StartError = LoginRequired(failure: Failure) | NotCreated(last: Option<Failure>)
      | NotUsable(reason: LiveError)

  /** A second stream URL is insisted on in a new room only, not in one found at the start. */
  predicate InsistsOnDual(isNew: bool, wishes: Wishes) {
    isNew && wishes.dualLayout
  }

  function StartFailure(ending: Ending, wishes: Wishes, answers: Answers): Option<StartError> {
    match ending
    case LoginNeeded(f) => Some(LoginRequired(f))
    case GaveUp(last) => Some(NotCreated(last))
    case GotRoom(room, _, isNew) =>
      match Unusable(room, wishes.userId, answers.infos, true, answers.heartbeatOk, InsistsOnDual(isNew, wishes))
      case None => None
      case Some(reason) => Some(NotUsable(reason))
  }

  /**
   A call succeeds exactly if its script gets it a room, at the start or by a create or a recovery, whose
   fields and replies make it acceptable; a new room needs a second URL for a dual layout. Without a room the
   call fails with the login request or with the last failure of the script.
   */
  lemma SucceedsIff(rooms: nat, first: seq<Reply>, attempts: seq<Attempt>, wishes: Wishes, answers: Answers)
    ensures StartFailure(StartCourse(rooms, first, attempts).ending, wishes, answers) == None <==>
            exists room: Room, host: nat, isNew: bool ::
              && Ends(GotRoom(room, host, isNew), first, attempts)
              && Acceptable(room, wishes.userId, answers.infos, true, answers.heartbeatOk, isNew && wishes.dualLayout)
    ensures var failure := StartFailure(StartCourse(rooms, first, attempts).ending, wishes, answers);
            && (forall f :: failure == Some(LoginRequired(f)) <==> Ends(LoginNeeded(f), first, attempts))
            && (forall last :: failure == Some(NotCreated(last)) <==> Ends(GaveUp(last), first, attempts))
  {
    var ending := StartCourse(rooms, first, attempts).ending;
    CallEndsAs(rooms, first, attempts);
    if ending.GotRoom? {
      UsableIffAcceptable(ending.room, wishes.userId, answers.infos, true, answers.heartbeatOk,
                          InsistsOnDual(ending.isNew, wishes));
      assert Ends(GotRoom(ending.room, ending.host, ending.isNew), first, attempts);
    }
  }

  /**
   A dual-layout call can succeed without a second stream URL, but exactly in a room that is usable
   otherwise and was found at the start of the call.
   */
  lemma DualSucceedsWithoutSecondUrlIff(rooms: nat, first: seq<Reply>, attempts: seq<Attempt>, wishes: Wishes,
                                        answers: Answers)
    requires wishes.dualLayout
    ensures var ending := StartCourse(rooms, first, attempts).ending;
            (StartFailure(ending, wishes, answers) == None && Blank(ending.room.dualUrl)) <==>
            (LookupResult(first).room.Some? &&
             var room := LookupResult(first).room.value;
             Blank(room.dualUrl) &&
             Acceptable(room, wishes.userId, answers.infos, true, answers.heartbeatOk, false))
  {
    var ending := StartCourse(rooms, first, attempts).ending;
    if ending.GotRoom? {
      UsableIffAcceptable(ending.room, wishes.userId, answers.infos, true, answers.heartbeatOk,
                          InsistsOnDual(ending.isNew, wishes));
    }
    if LookupResult(first).room == None {
      CreatedRoomsAreNew(rooms, attempts, 0, None);
    }
  }

  lemma {:induction false} CreatedRoomsAreNew(rooms: nat, attempts: seq<Attempt>, host: nat, last: Option<Failure>)
    ensures var ending := CreateCourse(rooms, attempts, host, last).ending;
            !ending.LoginNeeded? && (ending.GotRoom? ==> ending.isNew && host <= ending.host < host + |attempts|)
    decreases |attempts|
  {
    if attempts != [] {
      CreatedRoomsAreNew(rooms + (if attempts[0].tookEffect then 1 else 0), attempts[1..], host + 1,
                         if attempts[0].reply.CreateFailed? then Some(attempts[0].reply.failure) else None);
    }
  }
}
