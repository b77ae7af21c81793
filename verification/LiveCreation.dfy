/** Starting a LIVE, request by request, proved to follow LiveModel. */
module LiveCreation {
  import opened Common
  import opened LiveModel

  method ContinuableRoom(replies: seq<Reply>) returns (result: Lookup)
    ensures result == LookupResult(replies)
    ensures result.room.Some? <==>
              exists i :: 0 <= i < |replies| && Reaches(replies, i) && replies[i].Answered? && replies[i].room.Some?
  {
    LookupIsComplete(replies);
    ghost var start := LookupState(false, None, None);
    var error: Option<Failure> := None;
    var confirmed := false;
    for i := 0 to |replies|
      invariant HeardAll(start, replies) == HeardAll(LookupState(confirmed, error, None), replies[i..])
    {
      var reply := replies[i];
      assert replies[i..][0] == reply && replies[i..][1..] == replies[i + 1..];
      match reply {
        case Unreachable(f) =>
          if !confirmed {
            error := Some(f);
          }
        case Refused(f) =>
          if f.stale {
            confirmed := true;
            error := None;
          } else if f.login && !confirmed {
            return Lookup(None, Some(f));
          } else if !confirmed {
            error := Some(f);
          }
        case Answered(room) =>
          if room.Some? {
            return Lookup(room, None);
          }
          confirmed := true;
          error := None;
      }
    }
    if confirmed {
      error := None;
    }
    result := Lookup(None, error);
  }

  /** One call, against a remote end where `rooms` rooms exist and every host follows its script. */
  method StartLive(rooms: nat, first: seq<Reply>, attempts: seq<Attempt>) returns (ending: Ending, created: nat)
    ensures ending == StartCourse(rooms, first, attempts).ending &&
            created == StartCourse(rooms, first, attempts).created
    ensures created <= StartCourse(rooms, first, attempts).missed + (if rooms > 0 then 0 else 1)
  {
    AtMostOneRoom(rooms, first, attempts);
    created := 0;
    var existing := ContinuableRoom(first);
    if existing.room.Some? {
      return GotRoom(existing.room.value, 0, false), 0;
    }
    if existing.error.Some? && existing.error.value.login {
      return LoginNeeded(existing.error.value), 0;
    }
    ghost var whole := CreateCourse(rooms, attempts, 0, None);
    var last: Option<Failure> := None;
    for host := 0 to |attempts|
      invariant var rest := CreateCourse(rooms + created, attempts[host..], host, last);
                whole.created == created + rest.created && whole.ending == rest.ending
    {
      var a := attempts[host];
      assert attempts[host..][0] == a && attempts[host..][1..] == attempts[host + 1..];
      if a.tookEffect {
        created := created + 1;
      }
      if a.reply.Created? {
        return GotRoom(a.reply.room, host, true), created;
      }
      var f := a.reply.failure;
      last := Some(f);
      var recovered := ContinuableRoom(a.recovery);
      if recovered.room.Some? {
        return GotRoom(recovered.room.value, host, true), created;
      }
      if f.login || (recovered.error.Some? && recovered.error.value.login) {
        return GaveUp(last), created;
      }
    }
    ending := GaveUp(last);
  }

  method SplitStreamUrl(url: string) returns (parts: Option<(string, string)>)
    ensures parts == SplitUrl(url)
    ensures parts.Some? ==> url == parts.value.0 + "/" + parts.value.1 && parts.value.0 != "" && parts.value.1 != ""
  {
    SplitRejoins(url);
    var slash := LastSlash(url);
    if slash <= SchemeEnd(url, 0) + 2 || slash >= |url| - 1 {
      return None;
    }
    parts := Some((url[..slash], url[slash + 1..]));
  }

  /**
   Without an error the LIVE is usable: its ids and owner are known and its server and key make up
   the push URL. The error is the first thing found wrong.
   */
  method PrepareLiveRoom(room: Room, userId: string, infos: seq<Option<string>>, sendHeartbeat: bool,
                         heartbeatOk: bool, needDual: bool)
    returns (live: Live, error: Option<LiveError>)
    ensures error == Unusable(room, userId, infos, sendHeartbeat, heartbeatOk, needDual)
    ensures error == None ==> Usable(live, room, needDual) && (sendHeartbeat ==> heartbeatOk)
    ensures error == None <==> Acceptable(room, userId, infos, sendHeartbeat, heartbeatOk, needDual)
    ensures error == None ==> Owns(live.owner, room, userId, infos)
  {
    UsableIffAcceptable(room, userId, infos, sendHeartbeat, heartbeatOk, needDual);
    live := Live(room.roomId, room.streamId, room.ownerId, "", "", "", "");
    error := None;
    var main := SplitStreamUrl(room.pushUrl);
    if main.Some? {
      live := live.(server := main.value.0, key := main.value.1);
    } else {
      error := Some(InvalidUrl);
    }
    if !Blank(room.dualUrl) {
      var second := SplitStreamUrl(room.dualUrl);
      if second.Some? {
        live := live.(dualServer := second.value.0, dualKey := second.value.1);
      } else {
        error := Some(InvalidUrl);
      }
    }
    if error.Some? || live.roomId == "" || live.streamId == "" {
      if error == None {
        error := Some(MissingIds);
      }
      return;
    }
    if needDual && (Blank(live.dualServer) || Blank(live.dualKey)) {
      return live, Some(NoSecondUrl);
    }
    if live.owner == "" {
      live := live.(owner := userId);
    }
    if live.owner == "" {
      var owner := SearchOwner(infos);
      live := live.(owner := owner);
    }
    if live.owner == "" {
      return live, Some(NoOwner);
    }
    if sendHeartbeat && !heartbeatOk {
      error := Some(HeartbeatFailed);
    }
  }

  method SearchOwner(infos: seq<Option<string>>) returns (owner: string)
    ensures owner == FirstOwner(infos)
  {
    owner := "";
    for i := 0 to |infos|
      invariant owner == "" && FirstOwner(infos) == FirstOwner(infos[i..])
    {
      if infos[i] == None {
        continue;
      }
      owner := infos[i].value;
      if owner != "" {
        return;
      }
    }
  }

  /** The whole call: an empty error means a usable LIVE, with at most one room created for it. */
  method StartLiveSync(rooms: nat, first: seq<Reply>, attempts: seq<Attempt>, wishes: Wishes, answers: Answers)
    returns (live: Live, error: Option<StartError>, created: nat)
    ensures var course := StartCourse(rooms, first, attempts);
            && created == course.created <= course.missed + (if rooms > 0 then 0 else 1)
            && error == StartFailure(course.ending, wishes, answers)
            && (error == None ==> Usable(live, course.ending.room, InsistsOnDual(course.ending.isNew, wishes)))
    ensures error == None <==>
            exists room: Room, host: nat, isNew: bool ::
              && Ends(GotRoom(room, host, isNew), first, attempts)
              && Acceptable(room, wishes.userId, answers.infos, true, answers.heartbeatOk, isNew && wishes.dualLayout)
  {
    SucceedsIff(rooms, first, attempts, wishes, answers);
    var ending;
    ending, created := StartLive(rooms, first, attempts);
    live := Live("", "", "", "", "", "", "");
    match ending {
      case LoginNeeded(f) => error := Some(LoginRequired(f));
      case GaveUp(last) => error := Some(NotCreated(last));
      case GotRoom(room, _, isNew) =>
        var reason;
        live, reason := PrepareLiveRoom(room, wishes.userId, answers.infos, true, answers.heartbeatOk,
                                        isNew && wishes.dualLayout);
        error := if reason == None then None else Some(NotUsable(reason.value));
    }
  }
}
