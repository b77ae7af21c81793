/** The output update of the Aitum bridge as a state machine, polled by timers against any user interface. */
module BridgeModel {
  import opened Common

  datatype Phase = Idle | FindSettings | FindTargetOutput | FindEditDialog | WaitAfterSave

  datatype BridgeResult =
    | Success | Busy | AitumNotAvailable | TargetOutputMissing | OutputTabMissing | OutputActionMissing
    | EditorInvalid | CredentialUpdateFailed | SaveActionMissing | SaveConfirmationTimeout | SettingsAlreadyOpen

  const MAXIMUM_POLLS := 200
  const FORCE_ACCEPT_POLL := 8

  /** Updates are numbered in the order of the calls. */
  type UpdateId = nat

  /** What one handler finds in the interface; nothing relates what successive handlers find. */
  datatype Interface = Interface(
    settingsVisible: bool, settingsAlive: bool, settingsClicked: bool, navigation: bool, outputTabs: nat,
    targetFound: bool, targetClicked: bool, editorFound: bool, fields: nat, serverSet: bool, keySet: bool,
    saveClicked: bool, editorOpen: bool,
    /** Updates requested while the settings dialog closes, and by the completion that is called. */
    requestedByClose: nat, requestedByCompletion: nat)

  /**
   `timers` are the timer shots that are pending. History variables: `completed` counts the calls of
   each update's completion, `lastResult` is what it was called with; `saved` are the updates whose
   fields were set and whose Save was queued, and `forced` says that the editor of the update in
   progress was accepted directly.
   */
  datatype Bridge = Bridge(
    phase: Phase, retries: nat, openedSettings: bool, completion: Option<UpdateId>, timers: nat,
    nextId: UpdateId, completed: multiset<UpdateId>, lastResult: map<UpdateId, BridgeResult>, saved: set<UpdateId>,
      forced: bool)

  const RESTING := Bridge(Idle, 0, false, None, 0, 0, multiset{}, map[], {}, false)

  function Completed(b: Bridge, id: UpdateId, result: BridgeResult): Bridge {
    b.(completed := b.completed + multiset{id}, lastResult := b.lastResult[id := result])
  }

  function Scheduled(b: Bridge): Bridge {
    b.(timers := b.timers + 1)
  }

  /** A call of update_async. */
  function Updated(b: Bridge): Bridge {
    var named := b.(nextId := b.nextId + 1);
    if b.phase != Idle then Completed(named, b.nextId, Busy)
    else
      Scheduled(named.(completion := Some(b.nextId), openedSettings := false, retries := 0, phase := FindSettings,
                       forced := false))
  }

  function UpdatedTimes(b: Bridge, times: nat): Bridge {
    if times == 0 then b else Updated(UpdatedTimes(b, times - 1))
  }

  /** Whether finishing closes the settings dialog. */
  predicate Closes(b: Bridge, ui: Interface) {
    b.openedSettings && ui.settingsAlive
  }

  /** Closing the settings dialog requests an update. */
  predicate Clashes(b: Bridge, ui: Interface) {
    Closes(b, ui) && ui.requestedByClose > 0
  }

  /** The stored completion, if any, is taken out and called. */
  function Concluded(b: Bridge, result: BridgeResult, ui: Interface): Bridge {
    var cleared := b.(completion := None);
    match b.completion
    case None => cleared
    case Some(id) => UpdatedTimes(Completed(cleared, id, result), ui.requestedByCompletion)
  }

  function Finished(b: Bridge, result: BridgeResult, ui: Interface): Bridge {
    if b.phase == Idle then b
    else
      var idle := b.(phase := Idle);
      Concluded(if Closes(b, ui) then UpdatedTimes(idle, ui.requestedByClose) else idle, result, ui)
  }

  /** A failed poll: once more, or give up. */
  function Polled(b: Bridge, result: BridgeResult, ui: Interface): Bridge {
    var counted := b.(retries := b.retries + 1);
    if b.retries >= MAXIMUM_POLLS then Finished(counted, result, ui) else Scheduled(counted)
  }

  function StartedSettings(b: Bridge, ui: Interface): Bridge {
    if !ui.settingsClicked then Finished(b, AitumNotAvailable, ui) else b.(openedSettings := true)
  }

  function OpenedTargetEditor(b: Bridge, ui: Interface): Bridge {
    if !ui.navigation || ui.outputTabs != 1 then Finished(b, OutputTabMissing, ui)
    else Scheduled(b.(retries := 0, phase := FindTargetOutput))
  }

  function SearchedSettings(b: Bridge, ui: Interface): Bridge {
    if ui.settingsVisible then
      if !b.openedSettings then Finished(b, SettingsAlreadyOpen, ui)
      else OpenedTargetEditor(b.(retries := 0), ui)
    else if b.retries >= MAXIMUM_POLLS then Finished(b.(retries := b.retries + 1), AitumNotAvailable, ui)
    else
      var counted := b.(retries := b.retries + 1);
      Scheduled(if counted.retries == 1 then StartedSettings(counted, ui) else counted)
  }

  function SearchedTarget(b: Bridge, ui: Interface): Bridge {
    if !ui.settingsAlive then Finished(b, AitumNotAvailable, ui)
    else if !ui.targetFound then Polled(b, TargetOutputMissing, ui)
    else if !ui.targetClicked then Finished(b, OutputActionMissing, ui)
    else Scheduled(b.(retries := 0, phase := FindEditDialog))
  }

  function SearchedEditor(b: Bridge, ui: Interface): Bridge {
    if !ui.editorFound then Polled(b, SaveActionMissing, ui)
    else if ui.fields < 3 then Finished(b, EditorInvalid, ui)
    else if !ui.serverSet || !ui.keySet then Finished(b, CredentialUpdateFailed, ui)
    else if !ui.saveClicked then Finished(b, SaveActionMissing, ui)
    else Scheduled(b.(phase := WaitAfterSave, saved := b.saved + InProgress(b)))
  }

  function InProgress(b: Bridge): set<UpdateId> {
    if b.completion.Some? then {b.completion.value} else {}
  }

  function Waited(b: Bridge, ui: Interface): Bridge {
    if ui.editorOpen then
      Polled(if b.retries == FORCE_ACCEPT_POLL then b.(forced := true) else b, SaveConfirmationTimeout, ui)
    else Finished(b.(retries := 0), Success, ui)
  }

  /** A timer fires. */
  function Advanced(b: Bridge, ui: Interface): Bridge
    requires b.timers > 0
  {
    var shot := b.(timers := b.timers - 1);
    match b.phase
    case FindSettings => SearchedSettings(shot, ui)
    case FindTargetOutput => SearchedTarget(shot, ui)
    case FindEditDialog => SearchedEditor(shot, ui)
    case WaitAfterSave => Waited(shot, ui)
    case Idle => shot
  }

  // ----- Exactly one completion

  /** Every update but the one in progress has had its completion called exactly once. */
  ghost predicate OnceEach(b: Bridge) {
    && (forall id: UpdateId :: b.completed[id] == if id < b.nextId && b.completion != Some(id) then 1 else 0)
    && (b.completion.Some? ==> b.completion.value < b.nextId)
    && (b.completion.Some? <==> b.phase != Idle)
  }

  /** Success is reported only for updates whose fields were set and whose Save was queued. */
  ghost predicate Honest(b: Bridge) {
    && (b.phase == WaitAfterSave ==> InProgress(b) <= b.saved)
    && (forall id :: id in b.lastResult && b.lastResult[id] == Success ==> id in b.saved)
  }

  ghost predicate BridgeInv(b: Bridge) {
    && OnceEach(b) && Honest(b)
    && (b.phase != Idle ==> b.timers >= 1 && b.retries <= MAXIMUM_POLLS)
  }

  /** What requests can change: completions of earlier updates stay, and an idle bridge may start. */
  ghost predicate Requested(b: Bridge, u: Bridge) {
    && b.nextId <= u.nextId && (forall id: UpdateId :: id < b.nextId ==> u.completed[id] == b.completed[id]) &&
       Grows(b, u)
    && (if b.phase != Idle || u.phase == Idle
        then u == b.(nextId := u.nextId, completed := u.completed, lastResult := u.lastResult)
        else
          && u.timers > b.timers && u.retries == 0 && u.phase == FindSettings
          && u.completion.Some? && u.completion.value >= b.nextId)
  }

  lemma UpdatedKeeps(b: Bridge)
    requires OnceEach(b) && Honest(b)
    ensures OnceEach(Updated(b)) && Honest(Updated(b)) && Requested(b, Updated(b))
  {
  }

  lemma {:induction false} RequestsKeep(b: Bridge, times: nat)
    requires OnceEach(b) && Honest(b)
    ensures OnceEach(UpdatedTimes(b, times)) && Honest(UpdatedTimes(b, times)) && Requested(b, UpdatedTimes(b, times))
  {
    if times > 0 {
      RequestsKeep(b, times - 1);
      UpdatedKeeps(UpdatedTimes(b, times - 1));
    }
  }

  /** Completions are never taken back. */
  ghost predicate Grows(b: Bridge, a: Bridge) {
    forall id: UpdateId :: b.completed[id] <= a.completed[id]
  }

  /**
   Finishing completes the update in progress, once, provided that closing the settings dialog does
   not itself request an update.
   */
  lemma FinishedKeeps(b: Bridge, result: BridgeResult, ui: Interface)
    requires OnceEach(b) && Honest(b) && b.phase != Idle
    requires result == Success ==> InProgress(b) <= b.saved
    requires !Clashes(b, ui)
    ensures var f := Finished(b, result, ui);
            && OnceEach(f) && Honest(f) && f.timers >= b.timers
            && (f.phase != Idle ==> f.timers > b.timers && f.retries == 0)
            && f.completed[b.completion.value] == 1 && f.completion != b.completion
            && b.nextId <= f.nextId && Grows(b, f)
  {
    var id := b.completion.value;
    var idle := Completed(b.(phase := Idle, completion := None), id, result);
    assert OnceEach(idle);
    RequestsKeep(idle, ui.requestedByCompletion);
  }

  /** The update will not be completed: its completion is not stored and has not been called. */
  ghost predicate Lost(b: Bridge, id: UpdateId) {
    id < b.nextId && b.completed[id] == 0 && b.completion != Some(id)
  }

  /**
   If closing the dialog requests an update, that update's completion is called in place of the right
   one, which is lost.
   */
  lemma RequestWhileClosingLosesCompletion(b: Bridge, result: BridgeResult, ui: Interface)
    requires OnceEach(b) && Honest(b) && b.phase != Idle && Clashes(b, ui)
    ensures var f := Finished(b, result, ui);
            Lost(f, b.completion.value) && !OnceEach(f)
  {
    var id, idle := b.completion.value, b.(phase := Idle);
    RequestsReplace(idle, ui.requestedByClose);
    var closed := UpdatedTimes(idle, ui.requestedByClose);
    var next := Completed(closed.(completion := None), closed.completion.value, result);
    RequestsKeepLost(next, ui.requestedByCompletion, id);
  }

  /** The completion that is still stored while the dialog closes is overwritten. */
  lemma {:induction false} RequestsReplace(b: Bridge, times: nat)
    requires b.phase == Idle && b.completion.Some? && b.completion.value < b.nextId &&
             b.completed[b.completion.value] == 0
    ensures var u := UpdatedTimes(b, times);
            && u.nextId == b.nextId + times && u.completed[b.completion.value] == 0
            && (if times == 0 then u == b else u.phase != Idle && u.completion == Some(b.nextId))
  {
    if times > 0 {
      RequestsReplace(b, times - 1);
    }
  }

  lemma {:induction false} RequestsKeepLost(b: Bridge, times: nat, id: UpdateId)
    requires Lost(b, id)
    ensures Lost(UpdatedTimes(b, times), id)
  {
    if times > 0 {
      RequestsKeepLost(b, times - 1, id);
    }
  }

  /** Finishing keeps "exactly once" if and only if closing the settings dialog requests no update. */
  lemma FinishedKeepsOnceIff(b: Bridge, result: BridgeResult, ui: Interface)
    requires OnceEach(b) && Honest(b) && b.phase != Idle
    requires result == Success ==> InProgress(b) <= b.saved
    ensures OnceEach(Finished(b, result, ui)) <==> !Clashes(b, ui)
  {
    if Clashes(b, ui) {
      RequestWhileClosingLosesCompletion(b, result, ui);
    } else {
      FinishedKeeps(b, result, ui);
    }
  }

  // ----- Progress

  /** How many more timer shots the update in progress can take. */
  function Remaining(b: Bridge): int {
    match b.phase
    case Idle => 0
    case WaitAfterSave => MAXIMUM_POLLS + 1 - b.retries
    case FindEditDialog => MAXIMUM_POLLS + 2 - b.retries
    case FindTargetOutput => 2 * MAXIMUM_POLLS + 3 - b.retries
    case FindSettings => 3 * MAXIMUM_POLLS + 4 - b.retries
  }

  /** A timer shot ends the update in progress. */
  predicate Ends(b: Bridge, ui: Interface) {
    match b.phase
    case Idle => false
    case FindSettings =>
      if ui.settingsVisible then !b.openedSettings || !ui.navigation || ui.outputTabs != 1
      else b.retries >= MAXIMUM_POLLS || (b.retries == 0 && !ui.settingsClicked)
    case FindTargetOutput =>
      !ui.settingsAlive || if ui.targetFound then !ui.targetClicked else b.retries >= MAXIMUM_POLLS
    case FindEditDialog =>
      if ui.editorFound then ui.fields < 3 || !ui.serverSet || !ui.keySet || !ui.saveClicked
      else b.retries >= MAXIMUM_POLLS
    case WaitAfterSave => !ui.editorOpen || b.retries >= MAXIMUM_POLLS
  }

  /** What the update that a timer shot ends is completed with. */
  function Verdict(b: Bridge, ui: Interface): BridgeResult {
    match b.phase
    case Idle => Busy
    case FindSettings =>
      if ui.settingsVisible && !b.openedSettings then SettingsAlreadyOpen
      else if ui.settingsVisible then OutputTabMissing
      else AitumNotAvailable
    case FindTargetOutput =>
      if !ui.settingsAlive then AitumNotAvailable
      else if ui.targetFound then OutputActionMissing
      else TargetOutputMissing
    case FindEditDialog =>
      if ui.editorFound && ui.fields < 3 then EditorInvalid
      else if ui.editorFound && (!ui.serverSet || !ui.keySet) then CredentialUpdateFailed
      else SaveActionMissing
    case WaitAfterSave => if ui.editorOpen then SaveConfirmationTimeout else Success
  }

  /**
   A timer shot either ends the update with its verdict, leaving a stray timer behind if opening the settings has
   failed, or only moves it on to some phase with a timer pending.
   */
  lemma ShotShape(b: Bridge, ui: Interface) returns (h: Bridge, stray: bool)
    requires b.phase != Idle && b.timers > 0
    ensures stray <==> b.phase == FindSettings && !ui.settingsVisible && b.retries < MAXIMUM_POLLS
    ensures h == b.(timers := b.timers - 1, retries := h.retries, forced := h.forced)
    ensures Ends(b, ui) ==>
              var f := Finished(h, Verdict(b, ui), ui);
              Advanced(b, ui) == if stray then Scheduled(f) else f
    ensures !Ends(b, ui) ==>
              var a := Advanced(b, ui);
              && a.phase != Idle
              && a == b.(phase := a.phase, retries := a.retries, openedSettings := a.openedSettings, forced := a.forced,
                         saved := a.saved)
  {
    var shot := b.(timers := b.timers - 1);
    var polled := shot.(retries := b.retries + 1);
    h, stray := shot, false;
    match b.phase
    case FindSettings =>
      if ui.settingsVisible {
        h := if b.openedSettings then shot.(retries := 0) else shot;
      } else {
        h, stray := polled, b.retries < MAXIMUM_POLLS;
      }
    case FindTargetOutput =>
      if ui.settingsAlive && !ui.targetFound {
        h := polled;
      }
    case FindEditDialog =>
      if !ui.editorFound {
        h := polled;
      }
    case WaitAfterSave =>
      if ui.editorOpen {
        h := polled.(forced := b.forced || b.retries == FORCE_ACCEPT_POLL);
      } else {
        h := shot.(retries := 0);
      }
  }

  /** A timer shot ends the update in progress, and closing the settings dialog requests another. */
  predicate Loses(b: Bridge, ui: Interface) {
    Ends(b, ui) && Clashes(b, ui)
  }

  /** The update in progress has been completed, or is in progress with fewer shots to go. */
  ghost predicate Progress(b: Bridge, a: Bridge) {
    && BridgeInv(a) && b.nextId <= a.nextId && Grows(b, a)
    && (b.completion.Some? ==>
          if a.completion == b.completion then 0 < Remaining(a) < Remaining(b)
          else a.completed[b.completion.value] == 1)
  }

  /** The state of a handler: a shot has been used and the handler may have changed its own fields. */
  ghost predicate Handling(b: Bridge, h: Bridge) {
    && b.phase != Idle && b.timers > 0 && h.phase == b.phase
    && h == b.(timers := b.timers - 1, retries := h.retries, openedSettings := h.openedSettings, forced := h.forced)
  }

  /** The state whose timer shot a handler is about to use up. */
  function Unshot(h: Bridge): Bridge {
    h.(timers := h.timers + 1)
  }

  /** A handler is run by a shot in its phase, and does not lose a completion. */
  ghost predicate Runs(h: Bridge, phase: Phase, ui: Interface) {
    h.phase == phase && BridgeInv(Unshot(h)) && !Loses(Unshot(h), ui)
  }

  /** The first poll for the settings opens them, without losing a completion. */
  ghost predicate StartsSettings(h: Bridge, ui: Interface) {
    && h.phase == FindSettings && h.retries == 1 && BridgeInv(Unshot(h).(retries := 0))
    && (!ui.settingsClicked ==> !Clashes(h, ui))
  }

  /** The settings have been found, and no completion is lost. */
  ghost predicate OpensEditor(h: Bridge, ui: Interface) {
    && h.phase == FindSettings && BridgeInv(Unshot(h))
    && (!ui.navigation || ui.outputTabs != 1 ==> !Clashes(h, ui))
  }

  lemma FinishMakesProgress(b: Bridge, h: Bridge, result: BridgeResult, ui: Interface)
    requires BridgeInv(b) && Handling(b, h) && !Clashes(h, ui) && (result == Success ==> b.phase == WaitAfterSave)
    ensures Progress(b, Finished(h, result, ui)) && Progress(b, Scheduled(Finished(h, result, ui)))
  {
    FinishedKeeps(h, result, ui);
  }

  lemma PollMakesProgress(b: Bridge, h: Bridge, result: BridgeResult, ui: Interface)
    requires BridgeInv(b) && Handling(b, h) && result != Success && h.retries == b.retries
    requires b.retries >= MAXIMUM_POLLS ==> !Clashes(h, ui)
    ensures Progress(b, Polled(h, result, ui))
  {
    if b.retries >= MAXIMUM_POLLS {
      FinishMakesProgress(b, h.(retries := h.retries + 1), result, ui);
    }
  }

  lemma SettingsFoundMakesProgress(b: Bridge, h: Bridge, ui: Interface)
    requires BridgeInv(b) && b.phase == FindSettings && Handling(b, h)
    requires !ui.navigation || ui.outputTabs != 1 ==> !Clashes(h, ui)
    ensures Progress(b, OpenedTargetEditor(h, ui))
  {
    if !ui.navigation || ui.outputTabs != 1 {
      FinishMakesProgress(b, h, OutputTabMissing, ui);
    }
  }

  lemma SettingsPollMakesProgress(b: Bridge, h: Bridge, ui: Interface)
    requires BridgeInv(b) && b.phase == FindSettings && Handling(b, h)
    requires h.retries == b.retries + 1 <= MAXIMUM_POLLS
    requires h.retries == 1 && !ui.settingsClicked ==> !Clashes(h, ui)
    ensures Progress(b, Scheduled(if h.retries == 1 then StartedSettings(h, ui) else h))
  {
    if h.retries == 1 && !ui.settingsClicked {
      FinishMakesProgress(b, h, AitumNotAvailable, ui);
    }
  }

  lemma SettingsSearchMakesProgress(b: Bridge, ui: Interface)
    requires BridgeInv(b) && b.phase == FindSettings && b.timers > 0 && !Loses(b, ui)
    ensures Progress(b, SearchedSettings(b.(timers := b.timers - 1), ui))
  {
    var shot := b.(timers := b.timers - 1);
    if ui.settingsVisible {
      if b.openedSettings {
        SettingsFoundMakesProgress(b, shot.(retries := 0), ui);
      } else {
        FinishMakesProgress(b, shot, SettingsAlreadyOpen, ui);
      }
    } else if b.retries >= MAXIMUM_POLLS {
      FinishMakesProgress(b, shot.(retries := b.retries + 1), AitumNotAvailable, ui);
    } else {
      SettingsPollMakesProgress(b, shot.(retries := b.retries + 1), ui);
    }
  }

  lemma TargetSearchMakesProgress(b: Bridge, ui: Interface)
    requires BridgeInv(b) && b.phase == FindTargetOutput && b.timers > 0 && !Loses(b, ui)
    ensures Progress(b, SearchedTarget(b.(timers := b.timers - 1), ui))
  {
    var shot := b.(timers := b.timers - 1);
    if !ui.settingsAlive {
      FinishMakesProgress(b, shot, AitumNotAvailable, ui);
    } else if !ui.targetFound {
      PollMakesProgress(b, shot, TargetOutputMissing, ui);
    } else if !ui.targetClicked {
      FinishMakesProgress(b, shot, OutputActionMissing, ui);
    }
  }

  lemma EditorSearchMakesProgress(b: Bridge, ui: Interface)
    requires BridgeInv(b) && b.phase == FindEditDialog && b.timers > 0 && !Loses(b, ui)
    ensures Progress(b, SearchedEditor(b.(timers := b.timers - 1), ui))
  {
    var shot := b.(timers := b.timers - 1);
    if !ui.editorFound {
      PollMakesProgress(b, shot, SaveActionMissing, ui);
    } else if ui.fields < 3 {
      FinishMakesProgress(b, shot, EditorInvalid, ui);
    } else if !ui.serverSet || !ui.keySet {
      FinishMakesProgress(b, shot, CredentialUpdateFailed, ui);
    } else if !ui.saveClicked {
      FinishMakesProgress(b, shot, SaveActionMissing, ui);
    }
  }

  lemma WaitMakesProgress(b: Bridge, ui: Interface)
    requires BridgeInv(b) && b.phase == WaitAfterSave && b.timers > 0 && !Loses(b, ui)
    ensures Progress(b, Waited(b.(timers := b.timers - 1), ui))
  {
    var shot := b.(timers := b.timers - 1);
    if ui.editorOpen {
      var polled := if b.retries == FORCE_ACCEPT_POLL then shot.(forced := true) else shot;
      PollMakesProgress(b, polled, SaveConfirmationTimeout, ui);
    } else {
      FinishMakesProgress(b, shot.(retries := 0), Success, ui);
    }
  }

  /**
   Whatever the interface does, a timer shot either completes the update in progress or leaves it in
   progress with fewer shots to go and a timer pending; FindEditDialog and WaitAfterSave share one
   budget of polls.
   */
  lemma ShotMakesProgress(b: Bridge, ui: Interface)
    requires BridgeInv(b) && b.timers > 0 && !Loses(b, ui)
    ensures Progress(b, Advanced(b, ui))
  {
    match b.phase
    case Idle =>
    case FindSettings => SettingsSearchMakesProgress(b, ui);
    case FindTargetOutput => TargetSearchMakesProgress(b, ui);
    case FindEditDialog => EditorSearchMakesProgress(b, ui);
    case WaitAfterSave => WaitMakesProgress(b, ui);
  }

  // ----- Losing a completion

  lemma FinishedKeepsLost(b: Bridge, result: BridgeResult, ui: Interface, id: UpdateId)
    requires Lost(b, id)
    ensures Lost(Finished(b, result, ui), id)
  {
    if b.phase != Idle {
      var idle := b.(phase := Idle);
      RequestsKeepLost(idle, ui.requestedByClose, id);
      var closed := if Closes(b, ui) then UpdatedTimes(idle, ui.requestedByClose) else idle;
      assert Lost(closed, id);
      if closed.completion.Some? {
        var done := Completed(closed.(completion := None), closed.completion.value, result);
        RequestsKeepLost(done, ui.requestedByCompletion, id);
      }
    }
  }

  /** Nothing that happens later completes a lost update. */
  lemma ShotKeepsLost(b: Bridge, ui: Interface, id: UpdateId)
    requires Lost(b, id) && b.timers > 0
    ensures Lost(Advanced(b, ui), id)
  {
    if b.phase != Idle {
      var h, stray := ShotShape(b, ui);
      FinishedKeepsLost(h, Verdict(b, ui), ui, id);
    }
  }

  lemma ShotLoses(b: Bridge, ui: Interface)
    requires BridgeInv(b) && b.timers > 0 && Loses(b, ui)
    ensures Lost(Advanced(b, ui), b.completion.value)
  {
    var h, stray := ShotShape(b, ui);
    RequestWhileClosingLosesCompletion(h, Verdict(b, ui), ui);
  }

  // ----- Runs

  datatype BridgeEvent = Request | Shot(ui: Interface)

  /** A run of requests and timer shots from a given state; a shot needs a pending timer. */
  ghost function BridgeRun(b: Bridge, events: seq<BridgeEvent>): Option<Bridge>
    decreases |events|
  {
    if events == [] then Some(b)
    else
      match BridgeRun(b, events[..|events| - 1])
      case None => None
      case Some(before) =>
        match events[|events| - 1]
        case Request => Some(Updated(before))
        case Shot(ui) => if before.timers == 0 then None else Some(Advanced(before, ui))
  }

  lemma UpdatedKeepsInv(b: Bridge)
    requires BridgeInv(b)
    ensures BridgeInv(Updated(b)) && Requested(b, Updated(b)) && Grows(b, Updated(b))
    ensures b.phase != Idle ==> Updated(b).completion == b.completion && Remaining(Updated(b)) == Remaining(b)
  {
    UpdatedKeeps(b);
  }

  /** No shot of the run ends an update while closing the settings dialog requests another. */
  ghost predicate NeverLoses(b: Bridge, events: seq<BridgeEvent>)
    decreases |events|
  {
    events == [] ||
    var before, last := BridgeRun(b, events[..|events| - 1]), events[|events| - 1];
    NeverLoses(b, events[..|events| - 1]) && (before.Some? && last.Shot? ==> !Loses(before.value, last.ui))
  }

  lemma StepLoses(b: Bridge, e: BridgeEvent, a: Bridge)
    requires e.Request? ==> a == Updated(b)
    requires e.Shot? ==> b.timers > 0 && a == Advanced(b, e.ui)
    ensures forall id :: Lost(b, id) ==> Lost(a, id)
  {
    forall id | Lost(b, id)
      ensures Lost(a, id)
    {
      if e.Shot? {
        ShotKeepsLost(b, e.ui, id);
      }
    }
  }

  /**
   On every run, in every interface, with requests at any time: each request but the one in progress
   has had its completion called exactly once if and only if no shot of the run has lost one. Then
   success means that the fields of the update were saved, and while one is in progress a timer is
   pending.
   */
  lemma {:induction false} EveryRequestCompletesOnceIff(events: seq<BridgeEvent>)
    requires BridgeRun(RESTING, events).Some?
    ensures OnceEach(BridgeRun(RESTING, events).value) <==> NeverLoses(RESTING, events)
    ensures NeverLoses(RESTING, events) ==> BridgeInv(BridgeRun(RESTING, events).value)
    ensures !NeverLoses(RESTING, events) ==> exists id :: Lost(BridgeRun(RESTING, events).value, id)
    decreases |events|
  {
    if events != [] {
      var last := |events| - 1;
      EveryRequestCompletesOnceIff(events[..last]);
      var before, after := BridgeRun(RESTING, events[..last]).value, BridgeRun(RESTING, events).value;
      if !NeverLoses(RESTING, events[..last]) {
        StepLoses(before, events[last], after);
      } else {
        match events[last]
        case Request => UpdatedKeepsInv(before);
        case Shot(ui) =>
          if Loses(before, ui) {
            ShotLoses(before, ui);
          } else {
            ShotMakesProgress(before, ui);
          }
      }
    }
  }

  /** An interface in which nothing is found, and nothing is requested. */
  const NOTHING := Interface(false, false, false, false, 0, false, false, false, 0, false, false, false, false, 0, 0)

  /**
   From a new bridge: the settings are opened, they turn out to have no navigation, and closing them
   requests another update.
   */
  function LosingEvents(): seq<BridgeEvent> {
    var opens := NOTHING.(settingsClicked := true);
    var clashes := NOTHING.(settingsVisible := true, settingsAlive := true, requestedByClose := 1);
    [Request, Shot(opens), Shot(clashes)]
  }

  /** So a loss is within reach: the first update ever requested can be lost at the second timer shot. */
  lemma LossIsReachable()
    ensures BridgeRun(RESTING, LosingEvents()).Some? && !NeverLoses(RESTING, LosingEvents())
    ensures Lost(BridgeRun(RESTING, LosingEvents()).value, 0)
  {
  }

  function Shots(events: seq<BridgeEvent>): nat {
    if events == [] then 0
    else Shots(events[..|events| - 1]) + if events[|events| - 1].Shot? then 1 else 0
  }

  /** An update in progress is completed within its remaining timer shots, at most 604 from its start. */
  lemma {:induction false} UpdateCompletesInTime(b: Bridge, events: seq<BridgeEvent>)
    requires BridgeInv(b) && b.completion.Some? && BridgeRun(b, events).Some? && NeverLoses(b, events)
    ensures var a := BridgeRun(b, events).value;
            && BridgeInv(a) && b.nextId <= a.nextId && Remaining(b) <= 604
            && (a.completion == b.completion ==> 0 < Remaining(a) <= Remaining(b) - Shots(events))
            && (Shots(events) >= Remaining(b) ==> a.completed[b.completion.value] == 1)
    decreases |events|
  {
    if events != [] {
      var last := |events| - 1;
      UpdateCompletesInTime(b, events[..last]);
      var before := BridgeRun(b, events[..last]).value;
      match events[last]
      case Request => UpdatedKeepsInv(before);
      case Shot(ui) => ShotMakesProgress(before, ui);
    }
  }

  // ----- The forced acceptance of the editor

  /** The editor stays open for n polls. */
  function WaitedTimes(b: Bridge, ui: Interface, n: nat): Bridge
    requires b.timers > 0
  {
    if n == 0 then b
    else
      var before := WaitedTimes(b, ui, n - 1);
      if before.timers == 0 then before else Advanced(before, ui)
  }

  /**
   An editor that stays open is accepted directly after a few polls only if it was found within the
   first eight: the poll count is not restarted when the wait begins.
   */
  lemma {:induction false} ForcedIffFoundEarly(b: Bridge, ui: Interface, n: nat)
    requires b.phase == WaitAfterSave && b.timers > 0 && !b.forced && ui.editorOpen
    requires n + b.retries <= MAXIMUM_POLLS
    ensures var w := WaitedTimes(b, ui, n);
            && w.phase == WaitAfterSave && w.retries == b.retries + n && w.timers == b.timers
            && (w.forced <==> b.retries <= FORCE_ACCEPT_POLL < b.retries + n)
  {
    if n > 0 {
      ForcedIffFoundEarly(b, ui, n - 1);
    }
  }
}
