/**
 * The page's cycle: the form while idle, a spinner while the lookup runs, the
 * result card once it settles, and back to the form on "new query". A lookup
 * that rejects is replaced by a locally built failure result.
 */
module HomePage {
  import opened Wrappers
  import opened Types
  import Numerals
  import Simulate

  datatype AppState = Idle | Loading | Showing

  /** What the card area can display. */
  datatype Panel = FormPanel | SpinnerPanel | ResultCardPanel(result: LookupResult)

  /** How the awaited lookup settles: with the simulation's inputs, or by throwing. */
  datatype LookupOutcome = Resolved(draws: Simulate.Draws, clock: Simulate.Clock) | Rejected

  const UnknownErrorCode := "UNKNOWN_ERROR"
  const UnknownErrorMessage := "An unexpected error occurred"

  /** The result shown when the lookup throws: a failure, echoing the form data. */
  function FallbackResult(formData: LookupPayload, now: int, timestamp: string): (r: LookupResult)
    ensures WellFormed(r)
    ensures !r.success && r.query == formData
    ensures r.error.Some? && r.error.value.code == "UNKNOWN_ERROR"
    ensures r.error.value.message == UnknownErrorMessage
    ensures r.reference == "REF-" + Numerals.IntToString(now) && r.timestamp == timestamp
  {
    LookupResult(false, "REF-" + Numerals.IntToString(now), timestamp, formData,
                 None, Some(ErrorInfo(UnknownErrorCode, UnknownErrorMessage)))
  }

  /**
   * The fallback reference carries the clock reading only; it never reads as
   * a simulated reference, whose clock reading is followed by a suffix.
   */
  lemma FallbackReferenceHasNoSuffix(formData: LookupPayload, now: int, timestamp: string)
    ensures Simulate.ParseReference(FallbackResult(formData, now, timestamp).reference) == None
  {
    var n := Numerals.IntToString(now);
    var reference := "REF-" + n;
    assert reference[..4] == "REF-";
    var body := reference[4..];
    assert body == n;
    var sign := if now < 0 then 1 else 0;
    Numerals.LeadingDigitsOfNumeral(n[sign..], []);
    assert n[sign..] + [] == n[sign..];
  }

  /** The three independent conditions of the card area. */
  function VisiblePanels(state: AppState, result: Option<LookupResult>): set<Panel> {
    (if state == Idle then {FormPanel} else {})
    + (if state == Loading then {SpinnerPanel} else {})
    + (if state == Showing && result.Some? then {ResultCardPanel(result.value)} else {})
  }

  /** With a result present whenever one is to be shown, exactly one panel is visible. */
  lemma ExactlyOnePanel(state: AppState, result: Option<LookupResult>)
    requires state == Showing ==> result.Some?
    ensures |VisiblePanels(state, result)| == 1
    ensures state == Idle ==> VisiblePanels(state, result) == {FormPanel}
    ensures state == Loading ==> VisiblePanels(state, result) == {SpinnerPanel}
    ensures state == Showing ==> VisiblePanels(state, result) == {ResultCardPanel(result.value)}
  {
  }

  /** A result state without a result shows nothing. */
  lemma ShowingWithoutResultIsBlank()
    ensures VisiblePanels(Showing, None) == {}
  {
  }

  class Home {
    var state: AppState
    var result: Option<LookupResult>
    /** Every state the page has entered, in order. */
    ghost var trace: seq<AppState>

    /** A result is held exactly in the result state, and it is well formed. */
    ghost predicate Valid()
      reads this
    {
      && (state == Showing <==> result.Some?)
      && (result.Some? ==> WellFormed(result.value))
      && |trace| > 0 && trace[|trace| - 1] == state
    }

    function Panels(): set<Panel>
      reads this
    {
      VisiblePanels(state, result)
    }

    constructor ()
      ensures Valid()
      ensures state == Idle && result == None
      ensures trace == [Idle]
    {
      state := Idle;
      result := None;
      trace := [Idle];
    }

    /**
     * Enters loading, awaits the lookup, then stores what it returned, or the
     * fallback failure if it threw, and enters the result state.
     */
    method HandleSubmit(formData: LookupPayload, outcome: LookupOutcome, now: int, timestamp: string)
      requires Valid()
      modifies this
      ensures Valid()
      ensures trace == old(trace) + [Loading, Showing]
      ensures state == Showing
      ensures outcome.Resolved? ==>
        result == Some(Simulate.SimulateLookup(formData, outcome.draws, outcome.clock))
      ensures outcome.Rejected? ==> result == Some(FallbackResult(formData, now, timestamp))
    {
      state := Loading;
      trace := trace + [Loading];
      var settled: LookupResult;
      if outcome.Resolved? {
        settled := Simulate.SimulateLookup(formData, outcome.draws, outcome.clock);
      } else {
        settled := FallbackResult(formData, now, timestamp);
      }
      result := Some(settled);
      state := Showing;
      trace := trace + [Showing];
    }

    /** Back to the form, dropping the result. */
    method HandleNewQuery()
      requires Valid()
      modifies this
      ensures Valid()
      ensures state == Idle && result == None
      ensures trace == old(trace) + [Idle]
    {
      state := Idle;
      result := None;
      trace := trace + [Idle];
    }

    /** The panel the page shows in its current state. */
    method VisiblePanel() returns (panel: Panel)
      requires Valid()
      ensures Panels() == {panel}
      ensures state == Idle ==> panel == FormPanel
      ensures state == Loading ==> panel == SpinnerPanel
      ensures state == Showing ==> panel.ResultCardPanel? && panel.result == result.value && WellFormed(panel.result)
    {
      ExactlyOnePanel(state, result);
      match state
      case Idle => panel := FormPanel;
      case Loading => panel := SpinnerPanel;
      case Showing => panel := ResultCardPanel(result.value);
    }
  }
}
