/** Template matching (grounding/template_grounding.py): `TemplateGrounding` asks BotCity's
    matcher for the template at one threshold; `AdaptiveTemplateGrounding` walks a ladder of
    thresholds from strict to lenient and stops at the first rung that matches. */
module TemplateGrounding {
  import opened Wrappers
  import opened BaseGrounding

  /** `config.TEMPLATE_MATCH_THRESHOLD`. */
  const TEMPLATE_MATCH_THRESHOLD: real := 0.7
  /** The initial threshold of an adaptive strategy built without a ladder. */
  const ADAPTIVE_INITIAL_THRESHOLD: real := 0.9
  /** The adaptive ladder used when none (or an empty one) is given. */
  const DEFAULT_LADDER: seq<real> := [0.9, 0.8, 0.7, 0.6, 0.5]

  /** BotCity's last matched element: an axis-aligned box, and a score when the element has one. */
  datatype Element = Element(left: int, top: int, width: int, height: int, score: Option<real>)

  /** The outcome of `bot.find(template, matching=t)` followed by `bot.get_last_element()`. */
  datatype MatchOutcome = NotFound | Found(element: Element) | MatcherRaised

  /** The matcher as seen during one locate call: what it reports at each threshold. */
  type Matcher = real -> MatchOutcome

  /** Centre of the box with Python's floor division `//`. The divisor 2 is positive,
      so Dafny's Euclidean `/` is floor division here. */
  function Centre(e: Element): Point {
    Point(e.left + e.width / 2, e.top + e.height / 2)
  }

  /** The centre of a non-empty box lies inside the box. */
  lemma CentreInsideBox(e: Element)
    requires e.width > 0 && e.height > 0
    ensures e.left <= Centre(e).x < e.left + e.width
    ensures e.top <= Centre(e).y < e.top + e.height
  {
  }

  /** One `TemplateGrounding.locate` call: the point it returns and the `last_confidence` it records,
      given the strategy's own threshold, the caller's override and the matcher. */
  function TemplateAttempt(threshold: real, override: Option<real>, find: Matcher): Attempt {
    var t := OrDefault(override, threshold);
    match find(t)
    case NotFound => Attempt(None, 0.0)
    case MatcherRaised => Attempt(None, -1.0)
    case Found(e) => Attempt(Some(Centre(e)), e.score.GetOr(t))
  }

  /** An override of 0.0 is falsy, so it behaves exactly like passing no override. */
  lemma ZeroOverrideFallsBack(threshold: real, find: Matcher)
    ensures TemplateAttempt(threshold, Some(0.0), find) == TemplateAttempt(threshold, None, find)
  {
  }

  /** A non-zero override behaves exactly like a strategy configured with that threshold. */
  lemma TruthyOverrideWins(threshold: real, override: real, find: Matcher)
    requires override != 0.0
    ensures TemplateAttempt(threshold, Some(override), find) == TemplateAttempt(override, None, find)
  {
  }

  /** The three outcomes of one attempt: a point exactly when the matcher found the template,
      confidence 0 when it did not, -1 when it raised, and otherwise the element's score or,
      lacking one, the threshold that was used. */
  lemma TemplateOutcomes(threshold: real, override: Option<real>, find: Matcher)
    ensures var t := OrDefault(override, threshold);
      var a := TemplateAttempt(threshold, override, find);
      && (a.coords.Some? <==> find(t).Found?)
      && (find(t).NotFound? ==> a.confidence == 0.0)
      && (find(t).MatcherRaised? ==> a.confidence == -1.0)
      && (find(t).Found? ==>
            && a.coords == Some(Centre(find(t).element))
            && a.confidence == (if find(t).element.score.Some? then find(t).element.score.value else t))
  {
  }

  /** The matcher reports scores in (0, 1]. */
  ghost predicate ScoresInRange(find: Matcher) {
    forall t :: find(t).Found? && find(t).element.score.Some? ==>
      0.0 < find(t).element.score.value <= 1.0
  }

  /** With a threshold in [0, 1] (what `update_threshold` accepts), an override in [0, 1] and a
      well-behaved matcher, the recorded confidence is -1, 0 or in (0, 1]. At threshold 0 an element
      found without a score records confidence 0, the same value as "not found". */
  lemma TemplateConfidenceDomain(threshold: real, override: Option<real>, find: Matcher)
    requires 0.0 <= threshold <= 1.0
    requires override.Some? ==> 0.0 <= override.value <= 1.0
    requires ScoresInRange(find)
    ensures ValidConfidence(TemplateAttempt(threshold, override, find).confidence)
  {
    var t := OrDefault(override, threshold);
    if find(t).Found? && find(t).element.score.Some? {
      assert 0.0 < find(t).element.score.value <= 1.0;
    }
  }

  /** The result of walking an adaptive ladder: the point, the confidence left by the last
      base call (None when no call was made) and the number of base calls made. */
  datatype LadderResult = LadderResult(coords: Option<Point>, confidence: Option<real>, calls: nat)

  /** Adaptive `locate`: one base attempt per rung, in order, stopping at the first that
      returns a point. The contract says which rung answered and that every earlier rung did not. */
  function Ladder(rungs: seq<real>, threshold: real, find: Matcher): (r: LadderResult)
    ensures r.calls <= |rungs|
    ensures r.confidence.None? <==> rungs == []
    ensures r.coords.Some? ==>
      && 1 <= r.calls
      && TemplateAttempt(threshold, Some(rungs[r.calls - 1]), find) == Attempt(r.coords, r.confidence.value)
      && forall j :: 0 <= j < r.calls - 1 ==> TemplateAttempt(threshold, Some(rungs[j]), find).coords.None?
    ensures r.coords.None? ==>
      && r.calls == |rungs|
      && (forall j :: 0 <= j < |rungs| ==> TemplateAttempt(threshold, Some(rungs[j]), find).coords.None?)
      && (rungs != [] ==>
            r.confidence == Some(TemplateAttempt(threshold, Some(rungs[|rungs| - 1]), find).confidence))
  {
    if rungs == [] then LadderResult(None, None, 0)
    else
      var a := TemplateAttempt(threshold, Some(rungs[0]), find);
      if a.coords.Some? then LadderResult(a.coords, Some(a.confidence), 1)
      else
        var rest := Ladder(rungs[1..], threshold, find);
        assert forall j :: 1 <= j < |rungs| ==> rungs[j] == rungs[1..][j - 1];
        LadderResult(rest.coords, if rest.confidence.Some? then rest.confidence else Some(a.confidence), rest.calls + 1)
  }

  /** When rung k (0-based) is the first to match, the ladder makes exactly k + 1 base calls and
      returns that rung's point: first success wins, never the best across rungs. */
  lemma LadderHaltsAtFirstMatch(rungs: seq<real>, threshold: real, find: Matcher, k: nat)
    requires k < |rungs|
    requires TemplateAttempt(threshold, Some(rungs[k]), find).coords.Some?
    requires forall j :: 0 <= j < k ==> TemplateAttempt(threshold, Some(rungs[j]), find).coords.None?
    ensures Ladder(rungs, threshold, find).calls == k + 1
    ensures Ladder(rungs, threshold, find).coords == TemplateAttempt(threshold, Some(rungs[k]), find).coords
  {
    var r := Ladder(rungs, threshold, find);
  }

  /** With rung thresholds in [0, 1] and a well-behaved matcher, the ladder leaves a valid confidence. */
  lemma LadderConfidenceDomain(rungs: seq<real>, threshold: real, find: Matcher)
    requires 0.0 <= threshold <= 1.0
    requires forall j :: 0 <= j < |rungs| ==> 0.0 <= rungs[j] <= 1.0
    requires ScoresInRange(find)
    ensures var r := Ladder(rungs, threshold, find);
      r.confidence.Some? ==> ValidConfidence(r.confidence.value)
  {
    var r := Ladder(rungs, threshold, find);
    if r.confidence.Some? {
      var k := if r.coords.Some? then r.calls - 1 else |rungs| - 1;
      TemplateConfidenceDomain(threshold, Some(rungs[k]), find);
    }
  }

  /** `update_threshold` either succeeds or raises ValueError. */
  datatype Update = Updated | ValueError

  class TemplateGrounding {
    /** The configured matching threshold (`self.threshold`). */
    var threshold: real
    /** `self.last_confidence`: -1 until the first locate call. */
    var lastConfidence: real

    /** `threshold or config.TEMPLATE_MATCH_THRESHOLD`; the template file and BotCity itself
        are configuration the model does not represent. */
    constructor (threshold: Option<real>)
      ensures this.threshold == OrDefault(threshold, TEMPLATE_MATCH_THRESHOLD)
      ensures lastConfidence == -1.0
    {
      this.threshold := OrDefault(threshold, TEMPLATE_MATCH_THRESHOLD);
      lastConfidence := -1.0;
    }

    /** `locate`: the screenshot and target are not used (BotCity captures the screen itself). */
    method Locate(screenshot: Screenshot, target: string, threshold: Option<real>, find: Matcher)
      returns (coords: Option<Point>)
      modifies this`lastConfidence
      ensures Attempt(coords, lastConfidence) == TemplateAttempt(this.threshold, threshold, find)
    {
      var matchThreshold := OrDefault(threshold, this.threshold);
      var found := find(matchThreshold);
      match found {
        case MatcherRaised =>
          lastConfidence := -1.0;
          coords := None;
        case NotFound =>
          lastConfidence := 0.0;
          coords := None;
        case Found(element) =>
          var x := element.left + element.width / 2;
          var y := element.top + element.height / 2;
          lastConfidence := element.score.GetOr(matchThreshold);
          coords := Some(Point(x, y));
      }
    }

    /** `get_confidence`: the `last_confidence` the most recent `locate` recorded (-1 before any). */
    function GetConfidence(): (r: real)
      reads this`lastConfidence
      ensures r == lastConfidence
    {
      lastConfidence
    }

    /** `update_threshold`: a value outside [0, 1] raises ValueError and changes nothing. */
    method UpdateThreshold(threshold: real) returns (r: Update)
      modifies this`threshold
      ensures r == (if 0.0 <= threshold <= 1.0 then Updated else ValueError)
      ensures this.threshold == (if r == Updated then threshold else old(this.threshold))
    {
      if !(0.0 <= threshold <= 1.0) {
        return ValueError;
      }
      this.threshold := threshold;
      r := Updated;
    }
  }

  /** `AdaptiveTemplateGrounding` extends `TemplateGrounding`; the inherited state (threshold and
      last confidence) is the `template` part, which the adaptive `locate` drives rung by rung. */
  class AdaptiveTemplateGrounding {
    const template: TemplateGrounding
    /** The ladder, strict to lenient. */
    const thresholds: seq<real>

    constructor (thresholds: Option<seq<real>>)
      ensures fresh(template)
      ensures thresholds.Some? && thresholds.value != [] ==>
        this.thresholds == thresholds.value &&
        template.threshold == OrDefault(Some(thresholds.value[0]), TEMPLATE_MATCH_THRESHOLD)
      ensures thresholds.None? || thresholds.value == [] ==>
        this.thresholds == DEFAULT_LADDER && template.threshold == ADAPTIVE_INITIAL_THRESHOLD
      ensures template.lastConfidence == -1.0
    {
      var given := thresholds.Some? && thresholds.value != [];
      var initial := if given then thresholds.value[0] else ADAPTIVE_INITIAL_THRESHOLD;
      template := new TemplateGrounding(Some(initial));
      this.thresholds := if given then thresholds.value else DEFAULT_LADDER;
    }

    /** Adaptive `locate`: `calls` counts the base `locate` calls made. */
    method Locate(screenshot: Screenshot, target: string, find: Matcher)
      returns (coords: Option<Point>, ghost calls: nat)
      modifies template`lastConfidence
      ensures var l := Ladder(thresholds, template.threshold, find);
        && coords == l.coords
        && calls == l.calls
        && template.lastConfidence == l.confidence.GetOr(old(template.lastConfidence))
    {
      var i := 0;
      while i < |thresholds|
        invariant 0 <= i <= |thresholds|
        invariant forall j :: 0 <= j < i ==> TemplateAttempt(template.threshold, Some(thresholds[j]), find).coords.None?
        invariant i == 0 ==> template.lastConfidence == old(template.lastConfidence)
        invariant i > 0 ==>
          template.lastConfidence == TemplateAttempt(template.threshold, Some(thresholds[i - 1]), find).confidence
      {
        coords := template.Locate(screenshot, target, Some(thresholds[i]), find);
        if coords.Some? {
          calls := i + 1;
          LadderHaltsAtFirstMatch(thresholds, template.threshold, find, i);
          return;
        }
        i := i + 1;
      }
      coords, calls := None, i;
    }
  }
}
