/**
 * The "Clear All Data" control on the settings page, over successive runs of
 * the page script. Every user action starts a new run; a button reads true
 * only in the run its own click started; a widget that a run does not draw
 * loses its stored value.
 */
module DangerZone {

  datatype Action = ClickClear | ToggleConfirm | OtherAction

  /** Widget state kept between runs: whether the confirm checkbox was drawn, and its value. */
  datatype Widgets = Widgets(confirmShown: bool, confirmValue: bool)

  const Initial := Widgets(false, false)

  /** The widget state a run leaves behind, and whether it cleared the data. */
  datatype RunResult = RunResult(widgets: Widgets, cleared: bool)

  /**
   * One run as written: the checkbox is drawn only inside the branch taken
   * when the button reads true, and the data is cleared when, in that same
   * run, the checkbox reads true.
   */
  function RunAsWritten(w: Widgets, a: Action): (r: RunResult)
    ensures r.cleared <==> a == ClickClear && w.confirmShown && w.confirmValue
    ensures r.widgets.confirmShown <==> a == ClickClear
    ensures !r.widgets.confirmValue || r.cleared
  {
    var confirm :=
      if !w.confirmShown then false
      else if a == ToggleConfirm then !w.confirmValue
      else w.confirmValue;
    if a == ClickClear then RunResult(Widgets(true, confirm), confirm)
    else RunResult(Widgets(false, false), false)
  }

  /** A sequence of runs; `cleared` tells whether any of them cleared the data. */
  function RunAll(w: Widgets, actions: seq<Action>, corrected: bool): RunResult
    decreases |actions|
  {
    if actions == [] then RunResult(w, false)
    else
      var first := if corrected then RunCorrected(w, actions[0]) else RunAsWritten(w, actions[0]);
      var rest := RunAll(first.widgets, actions[1..], corrected);
      RunResult(rest.widgets, first.cleared || rest.cleared)
  }

  /** As written, no sequence of actions from the start ever clears the data. */
  lemma {:induction false} AsWrittenNeverClears(w: Widgets, actions: seq<Action>)
    requires !w.confirmValue
    ensures !RunAll(w, actions, false).cleared
    decreases |actions|
  {
    if actions != [] {
      var first := RunAsWritten(w, actions[0]);
      assert !first.cleared;
      AsWrittenNeverClears(first.widgets, actions[1..]);
    }
  }

  /** Click, tick the box, click again: the data is still there. */
  lemma ConfirmFlowFailsAsWritten()
    ensures !RunAll(Initial, [ClickClear, ToggleConfirm, ClickClear], false).cleared
  {
    AsWrittenNeverClears(Initial, [ClickClear, ToggleConfirm, ClickClear]);
  }

  /**
   * One run as intended: the checkbox is drawn on every run, and the button
   * clears the data exactly when the box is already ticked.
   */
  function RunCorrected(w: Widgets, a: Action): (r: RunResult)
    ensures r.cleared <==> a == ClickClear && w.confirmValue
    ensures r.widgets.confirmShown
    ensures r.widgets.confirmValue <==> (w.confirmValue != (a == ToggleConfirm))
  {
    var confirm := if a == ToggleConfirm then !w.confirmValue else w.confirmValue;
    RunResult(Widgets(true, confirm), a == ClickClear && confirm)
  }

  /** Corrected, ticking the box and then clicking clears the data. */
  lemma TickThenClickClears()
    ensures RunAll(Initial, [ToggleConfirm, ClickClear], true).cleared
  {
    var w1 := RunCorrected(Initial, ToggleConfirm).widgets;
    assert w1.confirmValue;
    assert [ToggleConfirm, ClickClear][1..] == [ClickClear];
    assert RunCorrected(w1, ClickClear).cleared;
  }

  /** Corrected, nothing is cleared while the box has never been ticked. */
  lemma {:induction false} CorrectedNeedsConfirmation(w: Widgets, actions: seq<Action>)
    requires !w.confirmValue
    requires forall i | 0 <= i < |actions| :: actions[i] != ToggleConfirm
    ensures !RunAll(w, actions, true).cleared
    decreases |actions|
  {
    if actions != [] {
      var first := RunCorrected(w, actions[0]);
      assert !first.widgets.confirmValue;
      forall i | 0 <= i < |actions| - 1 ensures actions[1..][i] != ToggleConfirm {
        assert actions[1..][i] == actions[i + 1];
      }
      CorrectedNeedsConfirmation(first.widgets, actions[1..]);
    }
  }
}
