/**
 * The simulated lookup. Its ambient inputs are parameters here: the draw that
 * sets the delay, the draw that picks the branch, the base-36 rendering of a
 * third draw, the clock reading and the two ISO-8601 timestamps. With those
 * fixed, building the result is a pure function of the payload.
 */
module Simulate {
  import opened Wrappers
  import opened Types
  import Numerals

  /** The ambient random values one lookup consumes after the delay. */
  datatype Draws = Draws(failureDraw: real, suffixRendering: string)

  /** The clock readings one lookup consumes: milliseconds and two ISO-8601 strings. */
  datatype Clock = Clock(now: int, timestamp: string, lastUpdated: string)

  const FailureRate: real := 0.1
  const SimulationErrorCode := "SIMULATION_ERROR"
  const SimulationErrorMessage := "Simulated error occurred during lookup"
  const FoundStatus := "FOUND"
  const FoundMessage := "Document found in system"
  const SyntheticInfo := AdditionalInfo("Colombia", "Active", "High")

  /** The emulated latency in milliseconds for a draw in [0, 1). */
  function Delay(r0: real): (d: real)
    requires 0.0 <= r0 < 1.0
    ensures 900.0 <= d < 1500.0
  {
    r0 * 600.0 + 900.0
  }

  function UpperAscii(c: char): char {
    if 'a' <= c <= 'z' then (c as int - 32) as char else c
  }

  predicate IsBase36Lower(c: char) {
    '0' <= c <= '9' || 'a' <= c <= 'z'
  }

  /** Up to nine characters after the first two ("0." for a draw in [0, 1)), upper-cased. */
  function Suffix(rendering: string): (s: string)
    ensures |s| <= 9
  {
    var tail := if |rendering| <= 2 then "" else rendering[2..];
    var taken := if |tail| <= 9 then tail else tail[..9];
    seq(|taken|, i requires 0 <= i < |taken| => UpperAscii(taken[i]))
  }

  /** Upper-casing the base-36 characters of a rendering leaves only [0-9A-Z]. */
  lemma SuffixAlphabet(rendering: string)
    requires forall i :: 2 <= i < |rendering| ==> IsBase36Lower(rendering[i])
    ensures forall i :: 0 <= i < |Suffix(rendering)| ==> Suffix(rendering)[i] == UpperAscii(rendering[i + 2])
    ensures forall i :: 0 <= i < |Suffix(rendering)| ==>
      '0' <= Suffix(rendering)[i] <= '9' || 'A' <= Suffix(rendering)[i] <= 'Z'
    ensures |Suffix(rendering)| == if |rendering| <= 2 then 0 else if |rendering| - 2 <= 9 then |rendering| - 2 else 9
  {
    var s := Suffix(rendering);
    forall i | 0 <= i < |s|
      ensures '0' <= s[i] <= '9' || 'A' <= s[i] <= 'Z'
    {
      assert s[i] == UpperAscii(rendering[i + 2]);
      assert IsBase36Lower(rendering[i + 2]);
    }
  }

  function Reference(now: int, suffix: string): string {
    "REF-" + Numerals.IntToString(now) + "-" + suffix
  }

  /** Splits a reference back into its clock reading and its suffix. */
  function ParseReference(reference: string): Option<(int, string)> {
    if |reference| < 4 || reference[..4] != "REF-" then None
    else
      var body := reference[4..];
      var sign := if |body| > 0 && body[0] == '-' then 1 else 0;
      var k := sign + Numerals.LeadingDigits(body[sign..]);
      if k < |body| && body[k] == '-' then
        match Numerals.ParseInt(body[..k])
        case Some(n) => Some((n, body[k + 1..]))
        case None => None
      else None
  }

  /** A reference determines the clock reading and the suffix it was built from. */
  lemma ReferenceRoundTrip(now: int, suffix: string)
    ensures ParseReference(Reference(now, suffix)) == Some((now, suffix))
  {
    var n := Numerals.IntToString(now);
    var reference := Reference(now, suffix);
    assert reference[..4] == "REF-";
    var body := reference[4..];
    assert body == n + "-" + suffix;
    var sign := if now < 0 then 1 else 0;
    var digits := n[sign..];
    assert body[sign..] == digits + ("-" + suffix);
    Numerals.LeadingDigitsOfNumeral(digits, "-" + suffix);
    assert body[..sign + |digits|] == n;
    Numerals.ParseIntToString(now);
    assert body[sign + |digits| + 1..] == suffix;
  }

  /** Distinct clock readings or suffixes give distinct references. */
  lemma ReferenceInjective(now1: int, suffix1: string, now2: int, suffix2: string)
    requires Reference(now1, suffix1) == Reference(now2, suffix2)
    ensures now1 == now2 && suffix1 == suffix2
  {
    ReferenceRoundTrip(now1, suffix1);
    ReferenceRoundTrip(now2, suffix2);
  }

  predicate IsFailure(d: Draws) {
    d.failureDraw < FailureRate
  }

  /** The lookup's result once the delay has elapsed. */
  function SimulateLookup(payload: LookupPayload, draws: Draws, clock: Clock): (r: LookupResult)
    ensures WellFormed(r)
    ensures r.query == payload
    ensures r.success <==> draws.failureDraw >= 0.1
    ensures r.reference == Reference(clock.now, Suffix(draws.suffixRendering))
    ensures r.timestamp == clock.timestamp
  {
    var reference := Reference(clock.now, Suffix(draws.suffixRendering));
    if IsFailure(draws) then
      LookupResult(false, reference, clock.timestamp, payload,
                   None, Some(ErrorInfo(SimulationErrorCode, SimulationErrorMessage)))
    else
      var details := Details(payload.documentType, payload.documentNumber, true, clock.lastUpdated, SyntheticInfo);
      LookupResult(true, reference, clock.timestamp, payload,
                   Some(ResultData(FoundStatus, FoundMessage, Some(details))), None)
  }

  /** A failing draw gives the fixed simulation error and no data. */
  lemma FailureResult(payload: LookupPayload, draws: Draws, clock: Clock)
    requires draws.failureDraw < 0.1
    ensures var r := SimulateLookup(payload, draws, clock);
      && !r.success
      && r.error == Some(ErrorInfo("SIMULATION_ERROR", "Simulated error occurred during lookup"))
      && r.data == None
  {
  }

  /** Any other draw finds the document, echoes the payload in the details and marks it verified. */
  lemma SuccessResult(payload: LookupPayload, draws: Draws, clock: Clock)
    requires draws.failureDraw >= 0.1
    ensures var r := SimulateLookup(payload, draws, clock);
      && r.success
      && r.error == None
      && r.data.Some?
      && r.data.value.status == "FOUND"
      && r.data.value.details.Some?
      && r.data.value.details.value.documentType == payload.documentType
      && r.data.value.details.value.documentNumber == payload.documentNumber
      && r.data.value.details.value.verified
  {
  }

  /** The reference and timestamp are fixed before the branch, so both branches share them. */
  lemma StampIndependentOfBranch(payload: LookupPayload, d1: Draws, d2: Draws, clock: Clock)
    requires d1.suffixRendering == d2.suffixRendering
    ensures SimulateLookup(payload, d1, clock).reference == SimulateLookup(payload, d2, clock).reference
    ensures SimulateLookup(payload, d1, clock).timestamp == SimulateLookup(payload, d2, clock).timestamp
    ensures SimulateLookup(payload, d1, clock).query == SimulateLookup(payload, d2, clock).query
  {
  }
}
