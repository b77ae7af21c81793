/** What an update of the Aitum bridge is completed with, told from what its timer shots find. */
module BridgeOutcome {
  import opened Common
  import opened BridgeModel

  // ----- One update among others

  function ResultOf(b: Bridge, id: UpdateId): Option<BridgeResult> {
    if id in b.lastResult then Some(b.lastResult[id]) else None
  }

  /** The completion that is stored belongs to an update that has been requested. */
  predicate Numbered(b: Bridge) {
    b.completion.Some? ==> b.completion.value < b.nextId
  }

  /** The update is not in progress any more, and this is what its completion was called with, if it was called. */
  predicate Settled(b: Bridge, id: UpdateId, result: Option<BridgeResult>) {
    Numbered(b) && id < b.nextId && b.completion != Some(id) && ResultOf(b, id) == result
  }

  lemma {:induction false} RequestsKeepSettled(b: Bridge, times: nat, id: UpdateId, result: Option<BridgeResult>)
    requires Settled(b, id, result)
    ensures Settled(UpdatedTimes(b, times), id, result)
  {
    if times > 0 {
      RequestsKeepSettled(b, times - 1, id, result);
    }
  }

  /** Requests made while the completion is still stored take its place. */
  lemma {:induction false} RequestsUnseat(b: Bridge, times: nat, id: UpdateId)
    requires b.phase == Idle && Numbered(b) && b.completion == Some(id) && id !in b.lastResult && times > 0
    ensures Settled(UpdatedTimes(b, times), id, None)
  {
    if times > 1 {
      RequestsUnseat(b, times - 1, id);
    } else {
      assert UpdatedTimes(b, 1) == Updated(UpdatedTimes(b, 0));
    }
  }

  lemma FinishKeepsSettled(b: Bridge, result: BridgeResult, ui: Interface, id: UpdateId,
                           settled: Option<BridgeResult>)
    requires Settled(b, id, settled)
    ensures Settled(Finished(b, result, ui), id, settled)
  {
    if b.phase != Idle {
      var idle := b.(phase := Idle);
      RequestsKeepSettled(idle, ui.requestedByClose, id, settled);
      var closed := if Closes(b, ui) then UpdatedTimes(idle, ui.requestedByClose) else idle;
      if closed.completion.Some? {
        var done := Completed(closed.(completion := None), closed.completion.value, result);
        RequestsKeepSettled(done, ui.requestedByCompletion, id, settled);
      }
    }
  }

  /** The update that ends gets its result, unless closing the settings dialog requests another. */
  lemma FinishSettles(b: Bridge, result: BridgeResult, ui: Interface, id: UpdateId)
    requires b.phase != Idle && Numbered(b) && b.completion == Some(id) && id !in b.lastResult
    ensures Settled(Finished(b, result, ui), id, if Clashes(b, ui) then None else Some(result))
  {
    var idle := b.(phase := Idle);
    if Clashes(b, ui) {
      RequestsUnseat(idle, ui.requestedByClose, id);
      var closed := UpdatedTimes(idle, ui.requestedByClose);
      if closed.completion.Some? {
        var done := Completed(closed.(completion := None), closed.completion.value, result);
        RequestsKeepSettled(done, ui.requestedByCompletion, id, None);
      }
    } else {
      assert UpdatedTimes(idle, 0) == idle;
      RequestsKeepSettled(Completed(idle.(completion := None), id, result), ui.requestedByCompletion, id, Some(result));
    }
  }

  /** An update is in progress whose completion has not been called. */
  predicate Working(b: Bridge, id: UpdateId) {
    Numbered(b) && b.phase != Idle && b.completion == Some(id) && id !in b.lastResult
  }

  /** A request is refused as busy exactly if an update is in progress, and otherwise becomes the one in progress. */
  lemma RequestIsBusyIff(b: Bridge)
    requires Numbered(b) && b.nextId !in b.lastResult
    ensures var u := Updated(b);
            if b.phase == Idle
            then Working(u, b.nextId) && u.phase == FindSettings && !u.openedSettings && u.retries == 0
            else Settled(u, b.nextId, Some(Busy)) && u.phase == b.phase && u.completion == b.completion
  {
  }

  /**
   The result of every update: it ends exactly at a shot that ends it, and is completed with the verdict of
   that shot, or lost.
   */
  lemma ShotDecides(b: Bridge, ui: Interface, id: UpdateId)
    requires Working(b, id) && b.timers > 0
    ensures if !Ends(b, ui) then Working(Advanced(b, ui), id)
            else Settled(Advanced(b, ui), id, if Clashes(b, ui) then None else Some(Verdict(b, ui)))
  {
    var h, stray := ShotShape(b, ui);
    FinishSettles(h, Verdict(b, ui), ui, id);
  }

  /** The update in progress, if any, ends with this result from b to a, or is lost. */
  ghost predicate EndsWith(b: Bridge, a: Bridge, result: Option<BridgeResult>) {
    forall id :: Working(b, id) ==> Settled(a, id, result)
  }

  ghost predicate GoesOn(b: Bridge, a: Bridge) {
    forall id :: Working(b, id) ==> Working(a, id)
  }

  lemma FinishEndsWith(b: Bridge, result: BridgeResult, ui: Interface)
    ensures EndsWith(b, Finished(b, result, ui), if Clashes(b, ui) then None else Some(result))
  {
    forall id | Working(b, id)
      ensures Settled(Finished(b, result, ui), id, if Clashes(b, ui) then None else Some(result))
    {
      FinishSettles(b, result, ui, id);
    }
  }

  lemma ShotEndsWith(b: Bridge, ui: Interface)
    requires b.timers > 0
    ensures if Ends(b, ui) then EndsWith(b, Advanced(b, ui), if Clashes(b, ui) then None else Some(Verdict(b, ui)))
            else GoesOn(b, Advanced(b, ui))
  {
    forall id | Working(b, id)
      ensures if !Ends(b, ui) then Working(Advanced(b, ui), id)
              else Settled(Advanced(b, ui), id, if Clashes(b, ui) then None else Some(Verdict(b, ui)))
    {
      ShotDecides(b, ui, id);
    }
  }

  lemma ShotKeepsSettled(b: Bridge, ui: Interface, id: UpdateId, result: Option<BridgeResult>)
    requires Settled(b, id, result) && b.timers > 0
    ensures Settled(Advanced(b, ui), id, result)
  {
    if b.phase != Idle {
      var h, stray := ShotShape(b, ui);
      FinishKeepsSettled(h, Verdict(b, ui), ui, id, result);
    }
  }

  // ----- What the shots of a successful update find

  /** The settings are opened on the first poll, and found, with an output tab, after at most 200. */
  ghost predicate FindsSettings(uis: seq<Interface>, i: nat) {
    && 1 <= i <= 200 && i < |uis| && uis[0].settingsClicked && (forall x :: 0 <= x < i ==> !uis[x].settingsVisible)
    && uis[i].settingsVisible && uis[i].navigation && uis[i].outputTabs == 1
  }

  /** The output is found in the settings after at most 200 polls, and clicked. */
  ghost predicate FindsTarget(uis: seq<Interface>, i: nat, j: nat) {
    && i < j <= i + 201 && j < |uis| && (forall x :: i < x < j ==> uis[x].settingsAlive && !uis[x].targetFound)
    && uis[j].settingsAlive && uis[j].targetFound && uis[j].targetClicked
  }

  /** The editor is found after at most 200 polls; its fields take their values and Save is clicked. */
  ghost predicate FindsEditor(uis: seq<Interface>, j: nat, k: nat) {
    && j < k <= j + 201 && k < |uis| && (forall x :: j < x < k ==> !uis[x].editorFound)
    && uis[k].editorFound && uis[k].fields >= 3 && uis[k].serverSet && uis[k].keySet && uis[k].saveClicked
  }

  /**
   The editor closes after at most 200 polls, counted together with those for finding it, and no request is made
   while the settings are closed then.
   */
  ghost predicate SeesClosed(uis: seq<Interface>, j: nat, k: nat, n: nat) {
    && j < k < n < |uis| && n - j - 2 <= 200 && (forall x :: k < x < n ==> uis[x].editorOpen)
    && !uis[n].editorOpen && !(uis[n].settingsAlive && uis[n].requestedByClose > 0)
  }

  ghost predicate Succeeds(uis: seq<Interface>) {
    exists i: nat, j: nat, k: nat, n: nat ::
      FindsSettings(uis, i) && FindsTarget(uis, i, j) && FindsEditor(uis, j, k) && SeesClosed(uis, j, k, n)
  }

  /** The update has not ended, and its steps so far were taken at these shots. */
  ghost predicate At(b: Bridge, uis: seq<Interface>, i: nat, j: nat, k: nat) {
    && b.retries <= 200
    && match b.phase
       case Idle => false
       case FindSettings =>
         && b.retries == |uis| && (forall x :: 0 <= x < |uis| ==> !uis[x].settingsVisible)
         && (b.openedSettings <==> uis != []) && (uis != [] ==> uis[0].settingsClicked)
       case FindTargetOutput =>
         && b.openedSettings && FindsSettings(uis, i) && b.retries == |uis| - i - 1
         && (forall x :: i < x < |uis| ==> uis[x].settingsAlive && !uis[x].targetFound)
       case FindEditDialog =>
         && b.openedSettings && FindsSettings(uis, i) && FindsTarget(uis, i, j) && b.retries == |uis| - j - 1
         && (forall x :: j < x < |uis| ==> !uis[x].editorFound)
       case WaitAfterSave =>
         && b.openedSettings && FindsSettings(uis, i) && FindsTarget(uis, i, j) && FindsEditor(uis, j, k)
         && b.retries == |uis| - j - 2 && (forall x :: k < x < |uis| ==> uis[x].editorOpen)
  }

  /** A shot that does not end the update takes its next step, or repeats the poll. */
  lemma ShotStaysAt(b: Bridge, ui: Interface, uis: seq<Interface>, i: nat, j: nat, k: nat)
    returns (i': nat, j': nat, k': nat)
    requires At(b, uis, i, j, k) && b.timers > 0 && !Ends(b, ui)
    ensures At(Advanced(b, ui), uis + [ui], i', j', k')
  {
    i', j', k' := i, j, k;
    StepsStay(uis, ui, i, j, k);
    match b.phase
    case FindSettings =>
      i' := |uis|;
      SettingsShotStaysAt(b, ui, uis);
    case FindTargetOutput =>
      j' := |uis|;
    case FindEditDialog =>
      k' := |uis|;
    case WaitAfterSave =>
  }

  lemma SettingsShotStaysAt(b: Bridge, ui: Interface, uis: seq<Interface>)
    requires b.phase == FindSettings && At(b, uis, 0, 0, 0) && b.timers > 0 && !Ends(b, ui)
    ensures forall j, k :: At(Advanced(b, ui), uis + [ui], |uis|, j, k)
  {
  }

  lemma StepsStay(uis: seq<Interface>, ui: Interface, i: nat, j: nat, k: nat)
    ensures FindsSettings(uis, i) ==> FindsSettings(uis + [ui], i)
    ensures FindsTarget(uis, i, j) ==> FindsTarget(uis + [ui], i, j)
    ensures FindsEditor(uis, j, k) ==> FindsEditor(uis + [ui], j, k)
  {
    assert forall x :: 0 <= x < |uis| ==> (uis + [ui])[x] == uis[x];
  }

  /** The steps of a successful update can only be the ones taken so far. */
  lemma OnlySteps(b: Bridge, uis: seq<Interface>, i: nat, j: nat, k: nat, longer: seq<Interface>, i': nat, j': nat,
                  k': nat, n: nat)
    requires At(b, uis, i, j, k) && uis <= longer
    requires FindsSettings(longer, i') && FindsTarget(longer, i', j') && FindsEditor(longer, j', k')
    requires SeesClosed(longer, j', k', n)
    ensures n >= |uis|
    ensures b.phase == FindSettings ==> i' >= |uis|
    ensures b.phase != FindSettings ==> i' == i
    ensures b.phase == FindTargetOutput ==> j' >= |uis|
    ensures b.phase == FindEditDialog ==> j' == j && k' >= |uis|
    ensures b.phase == WaitAfterSave ==> j' == j && k' == k
  {
    if b.phase != FindSettings {
      SameIndex(longer, i, i');
    }
  }

  lemma SameIndex(uis: seq<Interface>, i: nat, i': nat)
    requires FindsSettings(uis, i') && 0 <= i < |uis| && uis[i].settingsVisible
    requires forall x :: 0 <= x < i ==> !uis[x].settingsVisible
    ensures i == i'
  {
  }

  /** No continuation makes a success of an update that has ended. */
  ghost predicate Decided(uis: seq<Interface>) {
    forall longer :: uis <= longer ==> (Succeeds(longer) <==> Succeeds(uis))
  }

  lemma DecidedStays(uis: seq<Interface>, ui: Interface)
    requires Decided(uis)
    ensures Decided(uis + [ui]) && (Succeeds(uis + [ui]) <==> Succeeds(uis))
  {
    forall longer | uis + [ui] <= longer
      ensures Succeeds(longer) <==> Succeeds(uis)
    {
      assert uis <= longer;
    }
  }

  /** A shot that ends the update decides about its success. */
  lemma EndDecides(b: Bridge, ui: Interface, uis: seq<Interface>, i: nat, j: nat, k: nat)
    requires At(b, uis, i, j, k) && b.timers > 0 && Ends(b, ui)
    ensures Decided(uis + [ui])
    ensures Succeeds(uis + [ui]) <==> Verdict(b, ui) == Success && !Clashes(b, ui)
  {
    var now := uis + [ui];
    var won := Verdict(b, ui) == Success && !Clashes(b, ui);
    assert forall x :: 0 <= x < |uis| ==> now[x] == uis[x];
    forall longer | now <= longer
      ensures Succeeds(longer) <==> won
    {
      assert forall x :: 0 <= x < |now| ==> longer[x] == now[x];
      if won {
        assert FindsSettings(longer, i) && FindsTarget(longer, i, j) && FindsEditor(longer, j, k);
        assert SeesClosed(longer, j, k, |uis|);
      } else if Succeeds(longer) {
        var i': nat, j': nat, k': nat, n: nat :|
          FindsSettings(longer, i') && FindsTarget(longer, i', j') && FindsEditor(longer, j', k') &&
          SeesClosed(longer, j', k', n);
        OnlySteps(b, uis, i, j, k, longer, i', j', k', n);
        FailedShot(b, ui, uis, i, j, k, longer, i', j', k', n);
      }
    }
  }

  lemma FailedShot(b: Bridge, ui: Interface, uis: seq<Interface>, i: nat, j: nat, k: nat, longer: seq<Interface>,
                   i': nat, j': nat, k': nat, n: nat)
    requires At(b, uis, i, j, k) && Ends(b, ui) && uis + [ui] <= longer
    requires FindsSettings(longer, i') && FindsTarget(longer, i', j') && FindsEditor(longer, j', k')
    requires SeesClosed(longer, j', k', n)
    ensures Verdict(b, ui) == Success && !Clashes(b, ui)
  {
    OnlySteps(b, uis, i, j, k, longer, i', j', k', n);
    assert longer[|uis|] == (uis + [ui])[|uis|] == ui;
  }

  // ----- Main result

  function ShotsOf(events: seq<BridgeEvent>): seq<Interface> {
    if events == [] then []
    else
      var e := events[|events| - 1];
      ShotsOf(events[..|events| - 1]) + if e.Shot? then [e.ui] else []
  }

  /** How far an update has come is told by its shots. */
  ghost predicate Follows(b: Bridge, id: UpdateId, uis: seq<Interface>) {
    if Working(b, id) then !Succeeds(uis) && exists i: nat, j: nat, k: nat :: At(b, uis, i, j, k)
    else Settled(b, id, ResultOf(b, id)) && Decided(uis) && (ResultOf(b, id) == Some(Success) <==> Succeeds(uis))
  }

  lemma ShotFollows(b: Bridge, ui: Interface, id: UpdateId, uis: seq<Interface>)
    requires Follows(b, id, uis) && b.timers > 0
    ensures Follows(Advanced(b, ui), id, uis + [ui])
  {
    if !Working(b, id) {
      ShotKeepsSettled(b, ui, id, ResultOf(b, id));
      DecidedStays(uis, ui);
    } else {
      var i: nat, j: nat, k: nat :| At(b, uis, i, j, k);
      ShotDecides(b, ui, id);
      if Ends(b, ui) {
        EndDecides(b, ui, uis, i, j, k);
      } else {
        var i', j', k' := ShotStaysAt(b, ui, uis, i, j, k);
        StillOpen(Advanced(b, ui), uis + [ui], i', j', k');
      }
    }
  }

  lemma StillOpen(b: Bridge, uis: seq<Interface>, i: nat, j: nat, k: nat)
    requires At(b, uis, i, j, k)
    ensures !Succeeds(uis)
  {
    forall i': nat, j': nat, k': nat, n: nat |
      FindsSettings(uis, i') && FindsTarget(uis, i', j') && FindsEditor(uis, j', k') && SeesClosed(uis, j', k', n)
      ensures false
    {
      OnlySteps(b, uis, i, j, k, uis, i', j', k', n);
    }
  }

  lemma RequestFollows(b: Bridge, id: UpdateId, uis: seq<Interface>)
    requires Follows(b, id, uis)
    ensures Follows(Updated(b), id, uis)
  {
    if Working(b, id) {
      var i: nat, j: nat, k: nat :| At(b, uis, i, j, k);
      assert At(Updated(b), uis, i, j, k);
    }
  }

  /**
   An update that an idle bridge accepts is completed with success if and only if its timer shots find, in this
   order and within the limits: the settings closed and then opened by the update, the output, an editor whose
   fields take their values and whose Save can be clicked, and that editor gone. Other requests may come at any
   time, and other updates may follow.
   */
  lemma {:induction false} SucceedsIff(b: Bridge, events: seq<BridgeEvent>)
    requires b.phase == Idle && b.nextId !in b.lastResult && BridgeRun(Updated(b), events).Some?
    ensures var a := BridgeRun(Updated(b), events).value;
            && Follows(a, b.nextId, ShotsOf(events))
            && (ResultOf(a, b.nextId) == Some(Success) <==> Succeeds(ShotsOf(events)))
    decreases |events|
  {
    if events == [] {
      assert At(Updated(b), [], 0, 0, 0);
      StillOpen(Updated(b), [], 0, 0, 0);
    } else {
      var shorter, e := events[..|events| - 1], events[|events| - 1];
      SucceedsIff(b, shorter);
      var before := BridgeRun(Updated(b), shorter).value;
      EventFollows(before, e, b.nextId, ShotsOf(shorter));
    }
  }

  lemma EventFollows(b: Bridge, e: BridgeEvent, id: UpdateId, uis: seq<Interface>)
    requires Follows(b, id, uis) && (e.Shot? ==> b.timers > 0)
    ensures Follows(if e.Shot? then Advanced(b, e.ui) else Updated(b), id, uis + if e.Shot? then [e.ui] else [])
  {
    match e
    case Request =>
      RequestFollows(b, id, uis);
      assert uis + [] == uis;
    case Shot(ui) => ShotFollows(b, ui, id, uis);
  }
}
