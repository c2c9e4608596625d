/** What every grounding strategy shares (grounding/base_grounding.py, class BaseGrounding):
    points, screenshots, the outcome of one locate call, and the bounds check
    `validate_result` that the engine applies to every candidate point. */
module BaseGrounding {
  import opened Wrappers

  /** An integer pixel coordinate. */
  datatype Point = Point(x: int, y: int)

  /** Only the size of a screenshot matters to the engine (`screenshot.size`). */
  datatype Screenshot = Screenshot(width: nat, height: nat)

  /** What a strategy's `locate` leaves behind: the returned point and the value it
      stores in `last_confidence`. */
  datatype Attempt = Attempt(coords: Option<Point>, confidence: real)

  /** Why a call into a strategy raised instead of returning. */
  datatype Fault =
    | UnexpectedKeyword   // TypeError: the strategy's `locate` does not take a passed keyword
    | NotAStrategy        // TypeError: `add_strategy` was given something that is not a strategy
    | DetectorFailure     // the detector itself raised
    | ZeroDivision        // the centroid of an empty OCR polygon

  /** A strategy's `locate` call as the engine sees it: a return value, or an exception. */
  datatype LocateOutcome = Returned(coords: Option<Point>) | Raised(fault: Fault)

  /** The keyword arguments `**kwargs` the engine forwards to every strategy
      (None = not passed). */
  datatype Kwargs = Kwargs(threshold: Option<real>, caseSensitive: Option<bool>, exactMatch: Option<bool>)

  /** Python's `value or default` on an optional number: `None` and `0.0` are falsy. */
  function OrDefault(value: Option<real>, default: real): real {
    if value.Some? && value.value != 0.0 then value.value else default
  }

  /** The confidence values a strategy is meant to report: -1 for an internal error,
      0 for "ran but found nothing", and a certainty in (0, 1] for a match. */
  predicate ValidConfidence(c: real) {
    c == -1.0 || c == 0.0 || (0.0 < c <= 1.0)
  }

  /** `validate_result`: `None` is rejected; a point is accepted iff it lies inside the
      screenshot's pixel rectangle. */
  function ValidateResult(coords: Option<Point>, screenshot: Screenshot): (ok: bool)
    ensures coords.None? ==> !ok
    ensures coords.Some? ==>
      (ok <==> 0 <= coords.value.x < screenshot.width && 0 <= coords.value.y < screenshot.height)
  {
    if coords.None? then false
    else
      var Point(x, y) := coords.value;
      if !(0 <= x < screenshot.width && 0 <= y < screenshot.height) then false
      else true
  }
}
