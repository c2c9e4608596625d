/** The fallback engine (grounding/base_grounding.py, class MultiStrategyGrounding): the strategies
    are tried in order, an exception from one is swallowed, and the first point that a strategy
    returns and that lies inside the screenshot is the answer. */
module MultiStrategy {
  import opened Wrappers
  import opened BaseGrounding
  import TemplateGrounding
  import opened OcrGrounding

  /** A `BaseGrounding` instance: one of the strategy classes of the core. */
  datatype Strategy =
    | Template(t: TemplateGrounding.TemplateGrounding)
    | AdaptiveTemplate(a: TemplateGrounding.AdaptiveTemplateGrounding)
    | Ocr(o: OCRGrounding)
    | FuzzyOcr(f: FuzzyOCRGrounding)

  /** The argument of `add_strategy`: a `BaseGrounding` instance, or any other Python object. */
  datatype PyObject = GroundingObject(strategy: Strategy) | OtherObject

  /** What the detectors behind one strategy report during one engine call: the template
      matcher (for the template strategies) and the OCR reader's output (for the OCR ones). */
  datatype Observation = Observation(find: TemplateGrounding.Matcher, read: ReadOutcome)

  /** The part of a strategy's state that decides what its `locate` returns. */
  datatype Config =
    | TemplateConfig(threshold: real)
    | AdaptiveConfig(ladder: seq<real>, threshold: real)
    | OcrConfig(confidenceThreshold: real)
    | FuzzyConfig(confidenceThreshold: real, fuzzyThreshold: real, fuzzyMatch: Ratio)

  /** The one object each strategy's `locate` writes to (its `last_confidence`). */
  function StateOf(s: Strategy): object {
    match s
    case Template(t) => t
    case AdaptiveTemplate(a) => a.template
    case Ocr(o) => o
    case FuzzyOcr(f) => f.ocr
  }

  function Footprint(strategies: seq<Strategy>): set<object> {
    set i | 0 <= i < |strategies| :: StateOf(strategies[i])
  }

  function ConfigOf(s: Strategy): Config
    reads StateOf(s)
  {
    match s
    case Template(t) => TemplateConfig(t.threshold)
    case AdaptiveTemplate(a) => AdaptiveConfig(a.thresholds, a.template.threshold)
    case Ocr(o) => OcrConfig(o.confidenceThreshold)
    case FuzzyOcr(f) => FuzzyConfig(f.ocr.confidenceThreshold, f.fuzzyThreshold, f.fuzzyMatch)
  }

  function ConfigsOf(strategies: seq<Strategy>): (r: seq<Config>)
    reads Footprint(strategies)
    ensures |r| == |strategies|
  {
    seq(|strategies|, i reads Footprint(strategies) requires 0 <= i < |strategies| => ConfigOf(strategies[i]))
  }

  /** `strategy.locate(screenshot, target, **kwargs)` as the engine sees it. `TemplateGrounding.locate`
      takes only `threshold`, and `OCRGrounding.locate` only `case_sensitive` and `exact_match`
      (both default False); any other keyword is a TypeError raised before the body runs. The
      adaptive and fuzzy strategies take `**kwargs` and ignore them. */
  function Outcome(c: Config, kwargs: Kwargs, target: string, obs: Observation): LocateOutcome {
    match c
    case TemplateConfig(threshold) =>
      if kwargs.caseSensitive.Some? || kwargs.exactMatch.Some? then Raised(UnexpectedKeyword)
      else Returned(TemplateGrounding.TemplateAttempt(threshold, kwargs.threshold, obs.find).coords)
    case AdaptiveConfig(ladder, threshold) =>
      Returned(TemplateGrounding.Ladder(ladder, threshold, obs.find).coords)
    case OcrConfig(threshold) =>
      if kwargs.threshold.Some? then Raised(UnexpectedKeyword)
      else Returned(OcrAttempt(threshold, obs.read, target, kwargs.caseSensitive.GetOr(false),
                               kwargs.exactMatch.GetOr(false)).coords)
    case FuzzyConfig(threshold, fuzzyThreshold, fuzzyMatch) =>
      match FuzzyAttempt(threshold, fuzzyThreshold, fuzzyMatch, obs.read, target)
      case Ok(a) => Returned(a.coords)
      case Err(e) => Raised(e)
  }

  /** Every mutable field of the object `StateOf(s)`: a `TemplateGrounding` holds its threshold and
      `last_confidence`, an `OCRGrounding` its `last_confidence` and `last_detections`. */
  datatype StateView =
    | TemplateState(threshold: real, lastConfidence: real)
    | OcrState(lastConfidence: real, lastDetections: seq<Detection>)

  function ViewOf(s: Strategy): StateView
    reads StateOf(s)
  {
    match s
    case Template(t) => TemplateState(t.threshold, t.lastConfidence)
    case AdaptiveTemplate(a) => TemplateState(a.template.threshold, a.template.lastConfidence)
    case Ocr(o) => OcrState(o.lastConfidence, o.lastDetections)
    case FuzzyOcr(f) => OcrState(f.ocr.lastConfidence, f.ocr.lastDetections)
  }

  function ViewsOf(strategies: seq<Strategy>): (r: seq<StateView>)
    reads Footprint(strategies)
    ensures |r| == |strategies|
    ensures forall i :: 0 <= i < |strategies| ==> r[i] == ViewOf(strategies[i])
  {
    seq(|strategies|, i reads Footprint(strategies) requires 0 <= i < |strategies| => ViewOf(strategies[i]))
  }

  /** No strategy among the first `n` shares strategy `j`'s state object. */
  predicate Untouched(strategies: seq<Strategy>, n: nat, j: nat)
    requires n <= |strategies| && j < |strategies|
  {
    forall k :: 0 <= k < n ==> StateOf(strategies[k]) != StateOf(strategies[j])
  }

  /** The `last_confidence` that the strategy's `get_confidence` reports. */
  function ConfidenceOf(s: Strategy): real
    reads StateOf(s)
  {
    ViewOf(s).lastConfidence
  }

  /** The value one `locate` call stores in `last_confidence`, or None when the call leaves it as it
      was: a TypeError raised on entry, an adaptive ladder without rungs, or a fuzzy call that raised. */
  function ConfidenceEffect(c: Config, kwargs: Kwargs, target: string, obs: Observation): Option<real> {
    match c
    case TemplateConfig(threshold) =>
      if kwargs.caseSensitive.Some? || kwargs.exactMatch.Some? then None
      else Some(TemplateGrounding.TemplateAttempt(threshold, kwargs.threshold, obs.find).confidence)
    case AdaptiveConfig(ladder, threshold) =>
      TemplateGrounding.Ladder(ladder, threshold, obs.find).confidence
    case OcrConfig(threshold) =>
      if kwargs.threshold.Some? then None
      else Some(OcrAttempt(threshold, obs.read, target, kwargs.caseSensitive.GetOr(false),
                           kwargs.exactMatch.GetOr(false)).confidence)
    case FuzzyConfig(threshold, fuzzyThreshold, fuzzyMatch) =>
      match FuzzyAttempt(threshold, fuzzyThreshold, fuzzyMatch, obs.read, target)
      case Ok(a) => Some(a.confidence)
      case Err(_) => None
  }

  /** A call leaves `last_confidence` untouched exactly when it raised, or when it is an adaptive
      strategy without rungs; in particular a call that returned a point always recorded a confidence. */
  lemma ConfidenceKeptIff(c: Config, kwargs: Kwargs, target: string, obs: Observation)
    ensures ConfidenceEffect(c, kwargs, target, obs).None? <==>
      Outcome(c, kwargs, target, obs).Raised? || (c.AdaptiveConfig? && c.ladder == [])
    ensures Outcome(c, kwargs, target, obs).Returned? && Outcome(c, kwargs, target, obs).coords.Some? ==>
      ConfidenceEffect(c, kwargs, target, obs).Some?
  {
  }

  /** The outcomes of the strategies from index `from` on, strategy `i` seeing `observe(i)`. */
  function Outcomes(configs: seq<Config>, kwargs: Kwargs, target: string, observe: nat -> Observation,
                    from: nat := 0): (r: seq<LocateOutcome>)
    ensures from <= |configs| ==> |r| == |configs| - from
    decreases |configs| - from
  {
    if from >= |configs| then []
    else [Outcome(configs[from], kwargs, target, observe(from))] + Outcomes(configs, kwargs, target, observe, from + 1)
  }

  /** Element `i` of `Outcomes` is strategy `i`'s outcome. */
  lemma {:induction false} OutcomeAt(configs: seq<Config>, kwargs: Kwargs, target: string,
                                     observe: nat -> Observation, from: nat, i: nat)
    requires from <= i < |configs|
    ensures Outcomes(configs, kwargs, target, observe, from)[i - from] == Outcome(configs[i], kwargs, target, observe(i))
    decreases i - from
  {
    if i > from {
      OutcomeAt(configs, kwargs, target, observe, from + 1, i);
    }
  }

  /** The engine's test `coords and strategy.validate_result(coords, screenshot)`: the strategy
      returned a point (a non-empty tuple is truthy) and the point is on screen. An exception
      counts as no answer. */
  predicate Accepts(o: LocateOutcome, screenshot: Screenshot) {
    o.Returned? && o.coords.Some? && ValidateResult(o.coords, screenshot)
  }

  /** None of the first `n` outcomes is accepted. */
  predicate NoneAccepted(outcomes: seq<LocateOutcome>, screenshot: Screenshot, n: nat)
    requires n <= |outcomes|
  {
    n == 0 || (!Accepts(outcomes[n - 1], screenshot) && NoneAccepted(outcomes, screenshot, n - 1))
  }

  lemma {:induction false} NoneAcceptedMeans(outcomes: seq<LocateOutcome>, screenshot: Screenshot, n: nat)
    requires n <= |outcomes|
    ensures NoneAccepted(outcomes, screenshot, n) <==> forall j :: 0 <= j < n ==> !Accepts(outcomes[j], screenshot)
  {
    if n > 0 {
      NoneAcceptedMeans(outcomes, screenshot, n - 1);
    }
  }

  /** The engine's choice: the index of the first accepted outcome, with its point. */
  function Dispatch(outcomes: seq<LocateOutcome>, screenshot: Screenshot): (r: Option<(nat, Point)>)
    ensures r.Some? ==> r.value.0 < |outcomes|
    decreases |outcomes|
  {
    if outcomes == [] then None
    else if Accepts(outcomes[0], screenshot) then Some((0, outcomes[0].coords.value))
    else match Dispatch(outcomes[1..], screenshot)
      case None => None
      case Some((k, p)) => Some((k + 1, p))
  }

  /** `Dispatch` picks the first accepted outcome, and finds none exactly when none is accepted. */
  lemma {:induction false} DispatchFirstAccepted(outcomes: seq<LocateOutcome>, screenshot: Screenshot)
    ensures var r := Dispatch(outcomes, screenshot);
      && (r.None? <==> forall i :: 0 <= i < |outcomes| ==> !Accepts(outcomes[i], screenshot))
      && (r.Some? ==>
            && r.value.0 < |outcomes|
            && Accepts(outcomes[r.value.0], screenshot)
            && outcomes[r.value.0].coords == Some(r.value.1)
            && forall i :: 0 <= i < r.value.0 ==> !Accepts(outcomes[i], screenshot))
    decreases |outcomes|
  {
    if outcomes != [] && !Accepts(outcomes[0], screenshot) {
      DispatchFirstAccepted(outcomes[1..], screenshot);
      var r := Dispatch(outcomes[1..], screenshot);
      if r.None? {
        forall i | 0 <= i < |outcomes| ensures !Accepts(outcomes[i], screenshot) {
          if i > 0 {
            assert outcomes[i] == outcomes[1..][i - 1];
          }
        }
      } else {
        forall i | 0 <= i < r.value.0 + 1 ensures !Accepts(outcomes[i], screenshot) {
          if i > 0 {
            assert outcomes[i] == outcomes[1..][i - 1];
          }
        }
      }
    }
  }

  /** The first accepted outcome is the one `Dispatch` picks. */
  lemma DispatchAt(outcomes: seq<LocateOutcome>, i: nat, screenshot: Screenshot)
    requires i < |outcomes| && Accepts(outcomes[i], screenshot)
    requires forall j :: 0 <= j < i ==> !Accepts(outcomes[j], screenshot)
    ensures Dispatch(outcomes, screenshot) == Some((i, outcomes[i].coords.value))
  {
    DispatchFirstAccepted(outcomes, screenshot);
  }

  /** The answer is always a point inside the screenshot. */
  lemma DispatchInBounds(outcomes: seq<LocateOutcome>, screenshot: Screenshot)
    ensures var r := Dispatch(outcomes, screenshot);
      r.Some? ==> 0 <= r.value.1.x < screenshot.width && 0 <= r.value.1.y < screenshot.height
  {
    DispatchFirstAccepted(outcomes, screenshot);
  }

  /** Once a strategy has been accepted, the strategies after it do not matter (they are never
      called). */
  lemma {:induction false} DispatchIgnoresLater(outcomes: seq<LocateOutcome>, later: seq<LocateOutcome>,
                                                screenshot: Screenshot)
    requires Dispatch(outcomes, screenshot).Some?
    ensures Dispatch(outcomes + later, screenshot) == Dispatch(outcomes, screenshot)
    decreases |outcomes|
  {
    assert (outcomes + later)[0] == outcomes[0];
    if !Accepts(outcomes[0], screenshot) {
      assert (outcomes + later)[1..] == outcomes[1..] + later;
      DispatchIgnoresLater(outcomes[1..], later, screenshot);
    }
  }

  /** When no strategy is accepted, the answer is that of the strategies appended after them,
      shifted by their number. */
  lemma {:induction false} DispatchSkipsRejected(outcomes: seq<LocateOutcome>, later: seq<LocateOutcome>,
                                                 screenshot: Screenshot)
    requires Dispatch(outcomes, screenshot).None?
    ensures Dispatch(outcomes + later, screenshot) ==
      match Dispatch(later, screenshot)
      case None => None
      case Some((k, p)) => Some((|outcomes| + k, p))
    decreases |outcomes|
  {
    if outcomes == [] {
      assert outcomes + later == later;
    } else {
      assert (outcomes + later)[0] == outcomes[0];
      assert (outcomes + later)[1..] == outcomes[1..] + later;
      DispatchSkipsRejected(outcomes[1..], later, screenshot);
    }
  }

  /** A strategy that raises is treated exactly like one that found nothing: the exception
      neither aborts the engine nor changes its answer. */
  lemma {:induction false} RaiseIsNoMatch(outcomes: seq<LocateOutcome>, i: nat, f: Fault, screenshot: Screenshot)
    requires i < |outcomes|
    ensures Dispatch(outcomes[i := Raised(f)], screenshot) == Dispatch(outcomes[i := Returned(None)], screenshot)
    decreases |outcomes|
  {
    var a, b := outcomes[i := Raised(f)], outcomes[i := Returned(None)];
    if i > 0 {
      assert a[1..] == outcomes[1..][i - 1 := Raised(f)];
      assert b[1..] == outcomes[1..][i - 1 := Returned(None)];
      RaiseIsNoMatch(outcomes[1..], i - 1, f, screenshot);
    } else {
      assert a[1..] == b[1..];
    }
  }

  /** A template strategy given an OCR keyword, or an OCR strategy given `threshold`, raises
      TypeError; the adaptive and fuzzy strategies never raise TypeError. */
  lemma KeywordMismatch(c: Config, kwargs: Kwargs, target: string, obs: Observation)
    ensures Outcome(c, kwargs, target, obs) == Raised(UnexpectedKeyword) <==>
      || (c.TemplateConfig? && (kwargs.caseSensitive.Some? || kwargs.exactMatch.Some?))
      || (c.OcrConfig? && kwargs.threshold.Some?)
  {
  }

  /** The engine is never one of its strategies' state objects. */
  lemma EngineIsNoState(strategies: seq<Strategy>, engine: MultiStrategyGrounding)
    ensures engine !in Footprint(strategies)
  {
  }

  /** `MultiStrategyGrounding`. */
  class MultiStrategyGrounding {
    var strategies: seq<Strategy>
    /** `last_successful_strategy`: the strategy that answered the most recent successful call. */
    var lastSuccessful: Option<Strategy>

    /** `strategies or []`. */
    constructor (strategies: Option<seq<Strategy>>)
      ensures this.strategies == if strategies.Some? then strategies.value else []
      ensures lastSuccessful == None
    {
      this.strategies := if strategies.Some? then strategies.value else [];
      lastSuccessful := None;
    }

    /** `add_strategy`: anything that is not a `BaseGrounding` is refused with TypeError. */
    method AddStrategy(obj: PyObject) returns (r: Result<(), Fault>)
      modifies this`strategies
      ensures obj.OtherObject? ==> r == Err(NotAStrategy) && strategies == old(strategies)
      ensures obj.GroundingObject? ==> r.Ok? && strategies == old(strategies) + [obj.strategy]
    {
      if !obj.GroundingObject? {
        return Err(NotAStrategy);
      }
      strategies := strategies + [obj.strategy];
      return Ok(());
    }

    /** One `strategy.locate(screenshot, target, **kwargs)` call, with the kwargs check Python
        does on entry. Strategy `s` is `others[i]`; every strategy from `i` on that no earlier one
        shares a state object with has the mutable fields `views` records. */
    static method Call(s: Strategy, screenshot: Screenshot, target: string, kwargs: Kwargs, obs: Observation,
                       ghost others: seq<Strategy>, ghost i: nat, ghost views: seq<StateView>)
      returns (out: LocateOutcome)
      requires i < |others| == |views| && others[i] == s
      requires forall j :: i <= j < |others| && Untouched(others, i, j) ==> ViewOf(others[j]) == views[j]
      modifies StateOf(s)
      ensures out == Outcome(old(ConfigOf(s)), kwargs, target, obs)
      ensures ConfidenceOf(s) == ConfidenceEffect(old(ConfigOf(s)), kwargs, target, obs).GetOr(old(ConfidenceOf(s)))
      ensures forall j :: 0 <= j < |others| ==> ConfigOf(others[j]) == old(ConfigOf(others[j]))
      ensures forall j :: i < j < |others| && Untouched(others, i + 1, j) ==> ViewOf(others[j]) == views[j]
    {
      match s
      case Template(t) =>
        if kwargs.caseSensitive.Some? || kwargs.exactMatch.Some? {
          return Raised(UnexpectedKeyword);
        }
        var coords := t.Locate(screenshot, target, kwargs.threshold, obs.find);
        return Returned(coords);
      case AdaptiveTemplate(a) =>
        var coords, _ := a.Locate(screenshot, target, obs.find);
        return Returned(coords);
      case Ocr(o) =>
        if kwargs.threshold.Some? {
          return Raised(UnexpectedKeyword);
        }
        var coords := o.Locate(screenshot, target, kwargs.caseSensitive.GetOr(false),
                               kwargs.exactMatch.GetOr(false), obs.read);
        return Returned(coords);
      case FuzzyOcr(f) =>
        out := f.Locate(screenshot, target, obs.read);
    }

    /** Call `i` of the engine's loop, stated against the configurations `cfgs` the strategies had
        when the engine started: the outcome is element `i` of `Outcomes`, and a call that returned
        a point recorded its confidence. */
    static method CallAt(screenshot: Screenshot, target: string, kwargs: Kwargs, observe: nat -> Observation,
                         strategies: seq<Strategy>, i: nat, ghost cfgs: seq<Config>, ghost views: seq<StateView>)
      returns (out: LocateOutcome)
      requires i < |strategies| == |cfgs| == |views|
      requires forall j :: 0 <= j < |strategies| ==> ConfigOf(strategies[j]) == cfgs[j]
      requires forall j :: i <= j < |strategies| && Untouched(strategies, i, j) ==> ViewOf(strategies[j]) == views[j]
      modifies StateOf(strategies[i])
      ensures out == Outcomes(cfgs, kwargs, target, observe)[i]
      ensures out.Returned? && out.coords.Some? ==>
        ConfidenceEffect(cfgs[i], kwargs, target, observe(i)) == Some(ConfidenceOf(strategies[i]))
      ensures forall j :: 0 <= j < |strategies| ==> ConfigOf(strategies[j]) == cfgs[j]
      ensures forall j :: i < j < |strategies| && Untouched(strategies, i + 1, j) ==> ViewOf(strategies[j]) == views[j]
    {
      out := Call(strategies[i], screenshot, target, kwargs, observe(i), strategies, i, views);
      OutcomeAt(cfgs, kwargs, target, observe, 0, i);
      ConfidenceKeptIff(cfgs[i], kwargs, target, observe(i));
    }

    /** The loop of `locate`: strategy `i` (0-based) sees `observe(i)`. The result is the index and
        point of the first accepted strategy (index `|strategies|` and no point when there is none);
        that strategy's `last_confidence` is what its call recorded, and every strategy after it whose
        state object no called strategy shares is as it was. */
    static method TryInOrder(strategies: seq<Strategy>, screenshot: Screenshot, target: string, kwargs: Kwargs,
                             observe: nat -> Observation)
      returns (k: nat, coords: Option<Point>)
      modifies Footprint(strategies)
      ensures var r := Dispatch(Outcomes(old(ConfigsOf(strategies)), kwargs, target, observe), screenshot);
        && coords == (if r.Some? then Some(r.value.1) else None)
        && k == (if r.Some? then r.value.0 else |strategies|)
        && (r.Some? ==>
              ConfidenceEffect(old(ConfigsOf(strategies))[k], kwargs, target, observe(k))
                == Some(ConfidenceOf(strategies[k])))
      ensures var calls := if coords.Some? then k + 1 else |strategies|;
        forall j :: calls <= j < |strategies| && Untouched(strategies, calls, j) ==>
          ViewOf(strategies[j]) == old(ViewOf(strategies[j]))
    {
      ghost var cfgs := ConfigsOf(strategies);
      ghost var outs := Outcomes(cfgs, kwargs, target, observe);
      ghost var views := ViewsOf(strategies);
      var i := 0;
      while i < |strategies|
        invariant 0 <= i <= |strategies|
        invariant forall j :: 0 <= j < |strategies| ==> ConfigOf(strategies[j]) == cfgs[j]
        invariant NoneAccepted(outs, screenshot, i)
        invariant forall j :: i <= j < |strategies| && Untouched(strategies, i, j) ==> ViewOf(strategies[j]) == views[j]
      {
        var s := strategies[i];
        assert StateOf(s) in Footprint(strategies);
        var out := CallAt(screenshot, target, kwargs, observe, strategies, i, cfgs, views);
        if out.Returned? && out.coords.Some? && ValidateResult(out.coords, screenshot) {
          NoneAcceptedMeans(outs, screenshot, i);
          DispatchAt(outs, i, screenshot);
          return i, out.coords;
        }
        assert !Accepts(outs[i], screenshot);
        i := i + 1;
      }
      NoneAcceptedMeans(outs, screenshot, |strategies|);
      DispatchFirstAccepted(outs, screenshot);
      return |strategies|, None;
    }

    /** `locate`: the answer, the number of strategies called and the strategies' new state are
        those of `TryInOrder`. `last_successful_strategy` is set on success and left as it was
        otherwise. */
    method Locate(screenshot: Screenshot, target: string, kwargs: Kwargs, observe: nat -> Observation)
      returns (coords: Option<Point>, ghost calls: nat)
      modifies this`lastSuccessful, Footprint(strategies)
      ensures var r := Dispatch(Outcomes(old(ConfigsOf(strategies)), kwargs, target, observe), screenshot);
        && coords == (if r.Some? then Some(r.value.1) else None)
        && calls == (if r.Some? then r.value.0 + 1 else |strategies|)
        && lastSuccessful == (if r.Some? then Some(strategies[r.value.0]) else old(lastSuccessful))
        && (r.Some? ==>
              ConfidenceEffect(old(ConfigsOf(strategies))[r.value.0], kwargs, target, observe(r.value.0))
                == Some(ConfidenceOf(strategies[r.value.0])))
      ensures forall j :: calls <= j < |strategies| && Untouched(strategies, calls, j) ==>
        ViewOf(strategies[j]) == old(ViewOf(strategies[j]))
    {
      EngineIsNoState(strategies, this);
      var k;
      k, coords := TryInOrder(strategies, screenshot, target, kwargs, observe);
      calls := if coords.Some? then k + 1 else |strategies|;
      if coords.Some? {
        lastSuccessful := Some(strategies[k]);
      }
    }

    /** `get_last_strategy`. */
    function GetLastStrategy(): (r: Option<Strategy>)
      reads this`lastSuccessful
      ensures r == lastSuccessful
    {
      lastSuccessful
    }
  }
}
