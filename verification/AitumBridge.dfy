/** The bridge itself, handler by handler, proved to take the steps of BridgeModel. */
module AitumBridge {
  import opened Common
  import opened BridgeModel
  import opened BridgeOutcome

  class AitumBridge {
    var phase: Phase
    var retries: nat
    var openedSettings: bool
    var completion: Option<UpdateId>
    /** Timer shots that are pending. */
    var timers: nat
    var nextId: UpdateId

    ghost var completed: multiset<UpdateId>
    ghost var lastResult: map<UpdateId, BridgeResult>
    ghost var saved: set<UpdateId>
    ghost var forced: bool

    ghost function View(): Bridge
      reads this
    {
      Bridge(phase, retries, openedSettings, completion, timers, nextId, completed, lastResult, saved, forced)
    }

    constructor ()
      ensures View() == RESTING && BridgeInv(View())
    {
      phase, retries, openedSettings, completion, timers, nextId := Idle, 0, false, None, 0, 0;
      completed, lastResult, saved, forced := multiset{}, map[], {}, false;
    }

    /** Calls the completion of an update. */
    method Complete(id: UpdateId, result: BridgeResult)
      modifies `completed, `lastResult
      ensures View() == Completed(old(View()), id, result)
    {
      completed := completed + multiset{id};
      lastResult := lastResult[id := result];
    }

    method ScheduleNext()
      modifies `timers
      ensures View() == Scheduled(old(View()))
    {
      timers := timers + 1;
    }

    method UpdateAsync()
      modifies this
      ensures View() == Updated(old(View()))
      ensures BridgeInv(old(View())) ==> BridgeInv(View())
    {
      if BridgeInv(View()) {
        UpdatedKeepsInv(View());
      }
      var id := nextId;
      nextId := nextId + 1;
      if phase != Idle {
        Complete(id, Busy);
        return;
      }
      completion := Some(id);
      openedSettings := false;
      retries := 0;
      phase := FindSettings;
      forced := false;
      ScheduleNext();
    }

    /** Requests made by code that runs inside a handler. */
    method Reenter(times: nat)
      modifies this
      ensures View() == UpdatedTimes(old(View()), times)
    {
      for i := 0 to times
        invariant View() == UpdatedTimes(old(View()), i)
      {
        UpdateAsync();
      }
    }

    method Finish(result: BridgeResult, ui: Interface)
      modifies this
      ensures View() == Finished(old(View()), result, ui)
      ensures OnceEach(old(View())) && Honest(old(View())) && old(phase) != Idle && Clashes(old(View()), ui) ==>
                Lost(View(), old(completion).value)
      ensures OnceEach(old(View())) && Honest(old(View())) && old(phase) != Idle && !Clashes(old(View()), ui) &&
              (result == Success ==> InProgress(old(View())) <= old(saved)) ==>
                OnceEach(View()) && Honest(View()) && completed[old(completion).value] == 1
      ensures EndsWith(old(View()), View(), if Clashes(old(View()), ui) then None else Some(result))
    {
      FinishKeepsPromise(View(), result, ui);
      FinishEndsWith(View(), result, ui);
      if phase == Idle {
        return;
      }
      phase := Idle;
      if openedSettings && ui.settingsAlive {
        Reenter(ui.requestedByClose);
      }
      Conclude(result, ui);
    }

    method Conclude(result: BridgeResult, ui: Interface)
      modifies this
      ensures View() == Concluded(old(View()), result, ui)
    {
      var done := completion;
      completion := None;
      if done.Some? {
        Complete(done.value, result);
        Reenter(ui.requestedByCompletion);
      }
    }

    method StartSettings(ui: Interface)
      modifies this
      ensures View() == StartedSettings(old(View()), ui)
      ensures StartsSettings(old(View()), ui) ==> Progress(Unshot(old(View())).(retries := 0), Scheduled(View()))
    {
      if StartsSettings(View(), ui) {
        SettingsPollMakesProgress(Unshot(View()).(retries := 0), View(), ui);
      }
      if !ui.settingsClicked {
        Finish(AitumNotAvailable, ui);
        return;
      }
      openedSettings := true;
    }

    method OpenTargetEditor(ui: Interface)
      modifies this
      ensures View() == OpenedTargetEditor(old(View()), ui)
      ensures OpensEditor(old(View()), ui) ==> Progress(Unshot(old(View())), View())
    {
      if OpensEditor(View(), ui) {
        SettingsFoundMakesProgress(Unshot(View()), View(), ui);
      }
      if !ui.navigation || ui.outputTabs != 1 {
        Finish(OutputTabMissing, ui);
        return;
      }
      retries := 0;
      phase := FindTargetOutput;
      ScheduleNext();
    }

    method FindSettingsDialog(ui: Interface)
      modifies this
      ensures View() == SearchedSettings(old(View()), ui)
      ensures Runs(old(View()), FindSettings, ui) ==> Progress(Unshot(old(View())), View())
    {
      if Runs(View(), FindSettings, ui) {
        SettingsSearchMakesProgress(Unshot(View()), ui);
      }
      if ui.settingsVisible {
        if !openedSettings {
          Finish(SettingsAlreadyOpen, ui);
          return;
        }
        retries := 0;
        OpenTargetEditor(ui);
        return;
      }
      var polled := retries;
      retries := retries + 1;
      if polled >= MAXIMUM_POLLS {
        Finish(AitumNotAvailable, ui);
        return;
      }
      if retries == 1 {
        StartSettings(ui);
      }
      ScheduleNext();
    }

    method Poll(result: BridgeResult, ui: Interface)
      modifies this
      ensures View() == Polled(old(View()), result, ui)
    {
      var polled := retries;
      retries := retries + 1;
      if polled >= MAXIMUM_POLLS {
        Finish(result, ui);
      } else {
        ScheduleNext();
      }
    }

    method FindTarget(ui: Interface)
      modifies this
      ensures View() == SearchedTarget(old(View()), ui)
      ensures Runs(old(View()), FindTargetOutput, ui) ==> Progress(Unshot(old(View())), View())
    {
      if Runs(View(), FindTargetOutput, ui) {
        TargetSearchMakesProgress(Unshot(View()), ui);
      }
      if !ui.settingsAlive {
        Finish(AitumNotAvailable, ui);
        return;
      }
      if !ui.targetFound {
        Poll(TargetOutputMissing, ui);
        return;
      }
      if !ui.targetClicked {
        Finish(OutputActionMissing, ui);
        return;
      }
      retries := 0;
      phase := FindEditDialog;
      ScheduleNext();
    }

    method FindEditor(ui: Interface)
      modifies this
      ensures View() == SearchedEditor(old(View()), ui)
      ensures Runs(old(View()), FindEditDialog, ui) ==> Progress(Unshot(old(View())), View())
    {
      if Runs(View(), FindEditDialog, ui) {
        EditorSearchMakesProgress(Unshot(View()), ui);
      }
      if !ui.editorFound {
        Poll(SaveActionMissing, ui);
        return;
      }
      if ui.fields < 3 {
        Finish(EditorInvalid, ui);
        return;
      }
      if !ui.serverSet || !ui.keySet {
        Finish(CredentialUpdateFailed, ui);
        return;
      }
      if !ui.saveClicked {
        Finish(SaveActionMissing, ui);
        return;
      }
      saved := saved + InProgress(View());
      phase := WaitAfterSave;
      ScheduleNext();
    }

    method WaitForSave(ui: Interface)
      modifies this
      ensures View() == Waited(old(View()), ui)
      ensures Runs(old(View()), WaitAfterSave, ui) ==> Progress(Unshot(old(View())), View())
      ensures !ui.editorOpen ==> EndsWith(old(View()), View(), if Clashes(old(View()), ui) then None else Some(Success))
    {
      if Runs(View(), WaitAfterSave, ui) {
        WaitMakesProgress(Unshot(View()), ui);
      }
      if ui.editorOpen {
        if retries == FORCE_ACCEPT_POLL {
          forced := true;
        }
        Poll(SaveConfirmationTimeout, ui);
        return;
      }
      assert forall id :: Working(View(), id) ==> Working(View().(retries := 0), id);
      retries := 0;
      Finish(Success, ui);
    }

    /** A pending timer fires. */
    method Advance(ui: Interface)
      requires timers > 0
      modifies this
      ensures View() == Advanced(old(View()), ui)
      ensures BridgeInv(old(View())) && !Loses(old(View()), ui) ==> BridgeInv(View()) && Progress(old(View()), View())
      ensures BridgeInv(old(View())) && Loses(old(View()), ui) ==> Lost(View(), old(completion).value)
      ensures var b := old(View());
              if Ends(b, ui) then EndsWith(b, View(), if Clashes(b, ui) then None else Some(Verdict(b, ui)))
              else GoesOn(b, View())
    {
      ShotKeepsPromise(View(), ui);
      ShotEndsWith(View(), ui);
      timers := timers - 1;
      match phase {
        case FindSettings => FindSettingsDialog(ui);
        case FindTargetOutput => FindTarget(ui);
        case FindEditDialog => FindEditor(ui);
        case WaitAfterSave => WaitForSave(ui);
        case Idle =>
      }
    }
  }

  lemma FinishKeepsPromise(b: Bridge, result: BridgeResult, ui: Interface)
    ensures OnceEach(b) && Honest(b) && b.phase != Idle && Clashes(b, ui) ==>
              Lost(Finished(b, result, ui), b.completion.value)
    ensures OnceEach(b) && Honest(b) && b.phase != Idle && !Clashes(b, ui) &&
            (result == Success ==> InProgress(b) <= b.saved) ==>
              var f := Finished(b, result, ui);
              OnceEach(f) && Honest(f) && f.completed[b.completion.value] == 1
  {
    if OnceEach(b) && Honest(b) && b.phase != Idle {
      if Clashes(b, ui) {
        RequestWhileClosingLosesCompletion(b, result, ui);
      } else if result == Success ==> InProgress(b) <= b.saved {
        FinishedKeeps(b, result, ui);
      }
    }
  }

  lemma ShotKeepsPromise(b: Bridge, ui: Interface)
    requires b.timers > 0
    ensures BridgeInv(b) && !Loses(b, ui) ==> Progress(b, Advanced(b, ui))
    ensures BridgeInv(b) && Loses(b, ui) ==> Lost(Advanced(b, ui), b.completion.value)
  {
    if BridgeInv(b) {
      if Loses(b, ui) {
        ShotLoses(b, ui);
      } else {
        ShotMakesProgress(b, ui);
      }
    }
  }
}
