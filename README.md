# Grounding engine model

A Dafny model of the grounding engine of a desktop-automation bot. The engine takes a screenshot
and finds an on-screen element, described by an icon template or by a piece of text. The modelled
code is the following:
- a fallback combinator (`MultiStrategyGrounding`) that tries strategies in order;
- two template-matching strategies, one with a fixed threshold and one with an adaptive ladder of
  thresholds;
- two OCR strategies, one with exact or substring matching and one with fuzzy matching;
- the retry utilities (`retry_on_exception`, `RetryContext`, `retry_function`);
- the pure validators in `utils/validation.py`;
- the post-fetching client in `data/api_client.py`.

The detectors are inputs. BotCity's template matcher is a function from threshold to outcome. The
EasyOCR reader's output is a value. The sequence matcher's ratio is an unknown function into [0, 1].
The wrapped call of a retry is a function from attempt number to outcome. Confidences, thresholds
and delays are exact `real`s.

Files and modules:

| file | module | models |
|---|---|---|
| `wrappers.dfy` | `Wrappers` | `Option` and `Result` |
| `text.dfy` | `Text` | `str.strip`, `str.lower`, and `sub in s` |
| `py_slice.dfy` | `PySlice` | the slice `s[:stop]` |
| `base_grounding.dfy` | `BaseGrounding` | shared types and `validate_result` |
| `template_grounding.dfy` | `TemplateGrounding` | `TemplateGrounding` and `AdaptiveTemplateGrounding` |
| `ocr_grounding.dfy` | `OcrGrounding` | `OCRGrounding` and `FuzzyOCRGrounding` |
| `multi_strategy.dfy` | `MultiStrategy` | `MultiStrategyGrounding` |
| `retry.dfy` | `Retry` | `utils/retry.py` |
| `validation.dfy` | `Validation` | `utils/validation.py` |
| `api_client.dfy` | `ApiClient` | `PostAPIClient` |

Each strategy's `locate` is a method that writes `last_confidence`. Its `ensures` ties the returned
point and the new confidence to a pure attempt function (`TemplateAttempt`, `Ladder`, `OcrAttempt` or
`FuzzyAttempt`), and lemmas prove what the source promises about those functions.

The engine's `Locate` is specified by `Dispatch`, taken over the outcomes each strategy would
produce from its configuration at entry. The lemmas about `Dispatch` state three things:
- first validated success wins;
- an exception counts as "no match";
- the answer is always on screen.

`Locate` also states the strategies' new state. `ViewOf` collects every mutable field of a strategy's
state object. The answering strategy's `get_confidence` reports what its call recorded, and a strategy
that was not called keeps every field, unless it shares its state object with one that was.

The retry wrapper and `retry_function` are loops proved equal to the recursive specification
`Retried`, and the lemmas about `Retried` state the retry contract.

The model follows the code in these places, where the behaviour is easy to misread:
- when no rung matches, adaptive `locate` leaves the last rung's confidence (0 or -1), which is not
  always 0;
- `get_all_text` does not filter by the confidence threshold;
- `last_successful_strategy` is not reset when every strategy fails;
- with `max_attempts < 1` the retry wrapper makes no call and ends in `raise None`, which Python turns
  into a TypeError (`Retry.RetryWithoutAttempts`).

## Model

| member | source | states |
|---|---|---|
| BaseGrounding.ValidateResult | grounding/base_grounding.py:54-81 | None is rejected; a point is accepted iff 0 <= x < width and 0 <= y < height |
| MultiStrategy.MultiStrategyGrounding.constructor | grounding/base_grounding.py:93-102 | the strategy list is the given one (or empty when None), and there is no last successful strategy |
| MultiStrategy.MultiStrategyGrounding.AddStrategy | grounding/base_grounding.py:104-110 | a non-strategy is refused with a TypeError and the list is unchanged; a strategy is appended as exactly one element at the end |
| MultiStrategy.MultiStrategyGrounding.Call | grounding/base_grounding.py:134-135 | calling one strategy yields the outcome its configuration at entry determines, including the TypeError for a keyword its `locate` does not take; its `last_confidence` becomes the value `ConfidenceEffect` gives, or stays as it was when that is None; no strategy's configuration changes, and every later strategy that shares no state object with this one or an earlier one keeps all its mutable fields |
| MultiStrategy.MultiStrategyGrounding.CallAt | grounding/base_grounding.py:131-135 | call `i` of the loop yields element `i` of `Outcomes` over the configurations at entry; a call that returned a point recorded its confidence; the untouched later strategies keep their fields |
| MultiStrategy.MultiStrategyGrounding.TryInOrder | grounding/base_grounding.py:131-153 | the loop stops at the first strategy, in list order, that returns a point inside the screenshot, and answers with its index and point (no point after trying all, when there is none); that strategy's `last_confidence` is what its call recorded; strategies after the last one called, whose state object no called strategy shares, are unchanged |
| MultiStrategy.MultiStrategyGrounding.Locate | grounding/base_grounding.py:112-153 | the returned point, the number of strategies called, and `last_successful_strategy` are those of the first strategy, in list order, that returns a point inside the screenshot; that strategy's `get_confidence` then reports the confidence its call recorded; if there is none, the result is None and the last strategy is left at its previous value; every strategy not called, whose state object no called strategy shares, keeps all its mutable fields |
| MultiStrategy.MultiStrategyGrounding.GetLastStrategy | grounding/base_grounding.py:155-157 | returns the recorded last successful strategy |
| MultiStrategy.ConfidenceKeptIff | grounding/base_grounding.py:134-137 | a strategy's `locate` leaves `last_confidence` untouched exactly when it raised (the keyword TypeError, or an exception in fuzzy `locate`) or is an adaptive call with no rungs; a call that returned a point always recorded a confidence |
| MultiStrategy.OutcomeAt | grounding/base_grounding.py:131-135 | element `i` of the engine's outcomes is strategy `i`'s outcome on its own observation |
| MultiStrategy.NoneAcceptedMeans | grounding/base_grounding.py:145-150 | "no strategy among the first n was accepted" as the loop tracks it means each of them was rejected |
| MultiStrategy.DispatchFirstAccepted | grounding/base_grounding.py:131-153 | the answer is the first outcome that is a point inside the screenshot, and every earlier outcome is not; no answer iff no outcome is accepted |
| MultiStrategy.DispatchAt | grounding/base_grounding.py:137-144 | when outcome i is the first accepted one, the engine answers with strategy i's point |
| MultiStrategy.DispatchInBounds | grounding/base_grounding.py:137-144 | any point the engine returns lies inside the screenshot |
| MultiStrategy.DispatchIgnoresLater | grounding/base_grounding.py:143-144 | once a strategy is accepted, strategies after it do not affect the answer |
| MultiStrategy.DispatchSkipsRejected | grounding/base_grounding.py:145-150 | when no strategy in a prefix is accepted, the answer is that of the remaining strategies, each index shifted by the prefix length |
| MultiStrategy.RaiseIsNoMatch | grounding/base_grounding.py:148-150 | a strategy that raises is treated exactly like one that returned None |
| MultiStrategy.KeywordMismatch | grounding/base_grounding.py:135 | exactly template strategies given `case_sensitive`/`exact_match`, and OCR strategies given `threshold`, raise a TypeError for the keyword |
| TemplateGrounding.CentreInsideBox | grounding/template_grounding.py:103-104 | the floor-division centre of a non-empty box lies inside the box |
| TemplateGrounding.ZeroOverrideFallsBack | grounding/template_grounding.py:79 | a threshold override of 0.0 is falsy and behaves like no override |
| TemplateGrounding.TruthyOverrideWins | grounding/template_grounding.py:79 | a non-zero override behaves like a strategy configured with that threshold |
| TemplateGrounding.TemplateOutcomes | grounding/template_grounding.py:86-119 | a point exactly when the matcher found the template; confidence 0 when not found and -1 when the matcher raised; otherwise the centre of the element, and its score or, lacking one, the effective threshold |
| TemplateGrounding.TemplateConfidenceDomain | grounding/template_grounding.py:94-119 | with a threshold in [0, 1] (the range `update_threshold` accepts), an override in [0, 1] and scores in (0, 1], the recorded confidence is -1, 0 or in (0, 1]; at threshold 0 an element found without a score records 0, the same value as "not found" |
| TemplateGrounding.Ladder | grounding/template_grounding.py:199-212 | rungs are tried in order; a point comes from the first rung that matched after that many calls, all earlier rungs having failed; with no match every rung was tried, the confidence is the last rung's, and an empty ladder makes no call |
| TemplateGrounding.LadderHaltsAtFirstMatch | grounding/template_grounding.py:199-209 | when rung k (0-based) is the first to match, exactly k + 1 base calls are made and rung k's point is returned |
| TemplateGrounding.LadderConfidenceDomain | grounding/template_grounding.py:199-212 | with a threshold and rungs in [0, 1], the confidence the ladder leaves is -1, 0 or in (0, 1] |
| TemplateGrounding.TemplateGrounding.constructor | grounding/template_grounding.py:41-43 | the threshold is the given one when truthy, else 0.7; the last confidence starts at -1 |
| TemplateGrounding.TemplateGrounding.Locate | grounding/template_grounding.py:62-119 | the returned point and the new `last_confidence` are exactly those of `TemplateAttempt` on the effective threshold |
| TemplateGrounding.TemplateGrounding.GetConfidence | grounding/template_grounding.py:121-123 | reports `last_confidence`, which `Locate`'s contract fixes after each call; -1 before any, from the constructor |
| TemplateGrounding.TemplateGrounding.UpdateThreshold | grounding/template_grounding.py:125-136 | a value outside [0, 1] raises ValueError and leaves the threshold unchanged; otherwise the threshold becomes the value |
| TemplateGrounding.AdaptiveTemplateGrounding.constructor | grounding/template_grounding.py:163-183 | a non-empty ladder is kept and its first rung (or 0.7 if that is 0) becomes the threshold; otherwise the ladder is [0.9, 0.8, 0.7, 0.6, 0.5] with threshold 0.9 |
| TemplateGrounding.AdaptiveTemplateGrounding.Locate | grounding/template_grounding.py:185-212 | the point, the number of base calls and the new `last_confidence` are those of `Ladder` (confidence unchanged for an empty ladder) |
| OcrGrounding.TruncDivIsIntegerPart | grounding/ocr_grounding.py:116-117 | `int(a / n)` is the real quotient truncated toward zero, for either sign of `a` |
| OcrGrounding.CentroidInside | grounding/ocr_grounding.py:114-117 | a polygon whose corners all lie inside the screenshot has its centroid inside it |
| OcrGrounding.ScanPrefixCorrect | grounding/ocr_grounding.py:86-120 | the scan's best is the earliest qualifying candidate with strictly positive maximal score; a crash happens exactly at a record-setting candidate with an empty polygon |
| OcrGrounding.CrashPersists | grounding/ocr_grounding.py:116 | once the centroid of an empty polygon has raised, the scan stays failed |
| OcrGrounding.OcrLocateChoosesBest | grounding/ocr_grounding.py:86-133 | a found point is the centroid of the earliest passing detection with maximal confidence, and that confidence is positive and is recorded |
| OcrGrounding.OcrLocateNotFound | grounding/ocr_grounding.py:127-137 | None with confidence 0 exactly when no passing detection has positive confidence |
| OcrGrounding.OcrLocateNoCrash | grounding/ocr_grounding.py:139-142 | when every polygon has corners, a successful read never records -1 |
| OcrGrounding.OcrConfidenceDomain | grounding/ocr_grounding.py:127-142 | with detector confidences at most 1 the recorded confidence is -1, 0 or in (0, 1] |
| OcrGrounding.MatchScanFails | grounding/ocr_grounding.py:193-201 | `find_multiple`'s loop raises ZeroDivisionError exactly when some matching detection has an empty polygon |
| OcrGrounding.MatchingIndicesAre | grounding/ocr_grounding.py:193-195 | the matching indices are listed in increasing order, each below n, and an index is listed iff its detection matches |
| OcrGrounding.MatchScanHits | grounding/ocr_grounding.py:193-201 | on success there is one hit per matching index, in the same order, and hit k is the centroid and confidence of the k-th matching detection, whose polygon is non-empty |
| OcrGrounding.MatchScanErrPersists | grounding/ocr_grounding.py:193-201 | once the loop has failed, the failure is final |
| OcrGrounding.WithConfidenceAppend | grounding/ocr_grounding.py:204 | the hits of one confidence in a concatenation are those of each part, in order |
| OcrGrounding.WithConfidenceNone | grounding/ocr_grounding.py:204 | no hit below a confidence has that confidence |
| OcrGrounding.InsertDescPermutes | grounding/ocr_grounding.py:204 | stable insertion adds exactly the inserted hit |
| OcrGrounding.InsertDescSorted | grounding/ocr_grounding.py:204 | stable insertion keeps a list sorted by descending confidence |
| OcrGrounding.InsertDescStable | grounding/ocr_grounding.py:204 | insertion keeps the order within each confidence group and adds the new hit last in its group |
| OcrGrounding.SortDescCorrect | grounding/ocr_grounding.py:204 | the sort (key confidence, reverse) is descending, a permutation, and stable |
| OcrGrounding.SortAndCap | grounding/ocr_grounding.py:204-209 | the result is sorted, stable and a permutation before capping; capping keeps a prefix, of length `max_results` when that is positive, and the whole list when it is None or 0 |
| OcrGrounding.FallbackSimilarity | grounding/ocr_grounding.py:250-254 | the substring fallback is always 0.0 or 0.9 |
| OcrGrounding.FallbackSimilarityProperties | grounding/ocr_grounding.py:250-254 | the fallback is symmetric, gives 0.9 for a text compared with itself, and 0.9 exactly when one lowercased text contains the other |
| OcrGrounding.FuzzyMatch | grounding/ocr_grounding.py:245-254 | `_fuzzy_match` is in [0, 1] |
| OcrGrounding.Similarity | grounding/ocr_grounding.py:283 | the similarity of a detection's stripped text to the stripped target is in [0, 1] |
| OcrGrounding.FuzzyLocateChoosesBest | grounding/ocr_grounding.py:272-309 | a fuzzy point is the centroid of the earliest qualifying detection with maximal positive combined score, which becomes the confidence |
| OcrGrounding.FuzzyLocateNotFound | grounding/ocr_grounding.py:272-309 | None with confidence 0 exactly when no detection passing both thresholds has a positive combined score; a return without a point always records 0 |
| OcrGrounding.FuzzyRejectsDissimilar | grounding/ocr_grounding.py:288 | a detection below the fuzzy threshold is never chosen, whatever its OCR confidence |
| OcrGrounding.FuzzyScoreAtMostOne | grounding/ocr_grounding.py:286 | the combined score of a qualifying detection is at most 1 when its confidence is |
| OcrGrounding.FuzzyConfidenceDomain | grounding/ocr_grounding.py:302-307 | with confidences at most 1, fuzzy `locate` records 0 or a value in (0, 1] |
| OcrGrounding.OCRGrounding.constructor | grounding/ocr_grounding.py:45-48 | the threshold is the given one when truthy, else 0.6; the last confidence starts at -1 and there are no detections |
| OcrGrounding.OCRGrounding.Assess | grounding/ocr_grounding.py:94-110 | a detection is a candidate of the loop iff its confidence reaches the threshold and its normalised text matches the target |
| OcrGrounding.OCRGrounding.Locate | grounding/ocr_grounding.py:54-142 | the point and the new `last_confidence` are those of `OcrAttempt`; `last_detections` is the read's output when the read succeeded |
| OcrGrounding.OCRGrounding.GetConfidence | grounding/ocr_grounding.py:144-146 | reports `last_confidence`, which `Locate`'s contract fixes after each call; -1 before any, from the constructor |
| OcrGrounding.OCRGrounding.GetAllText | grounding/ocr_grounding.py:148-170 | every detection, in order and unfiltered, with its text, confidence and centroid; a reader exception, or ZeroDivisionError exactly when some polygon is empty |
| OcrGrounding.OCRGrounding.FindMultiple | grounding/ocr_grounding.py:172-209 | the hits of the matching detections, sorted by descending confidence and capped; the reader's exception or the loop's ZeroDivisionError is propagated |
| OcrGrounding.FuzzyOCRGrounding.constructor | grounding/ocr_grounding.py:218-254 | the OCR part is initialised as in `OCRGrounding`; the fuzzy threshold is kept, and `_fuzzy_match` is the one for the matcher found (the ratio, or the substring fallback when there is none) |
| OcrGrounding.FuzzyOCRGrounding.Assess | grounding/ocr_grounding.py:278-288 | a detection qualifies iff it passes the OCR threshold and its similarity reaches the fuzzy threshold, and it then competes with confidence times similarity, as in `FuzzyCandidate` |
| OcrGrounding.FuzzyOCRGrounding.BestFuzzyMatch | grounding/ocr_grounding.py:276-301 | the loop yields the best match and its score as `FuzzyAttempt` defines them, or the ZeroDivisionError of an empty polygon |
| OcrGrounding.FuzzyOCRGrounding.Locate | grounding/ocr_grounding.py:256-309 | the point and new `last_confidence` are those of `FuzzyAttempt`; a reader exception or empty polygon propagates and leaves the confidence unchanged |
| Text.TrimStartCorrect | grounding/ocr_grounding.py:98-99 | `lstrip` removes a whitespace prefix, and all of it |
| Text.TrimEndCorrect | grounding/ocr_grounding.py:98-99 | `rstrip` removes a whitespace suffix, and all of it |
| Text.StripCorrect | grounding/ocr_grounding.py:98-99 | `strip` returns a slice of its input with whitespace cut from both ends, and nothing but whitespace removed |
| Text.StripIsTrims | grounding/ocr_grounding.py:98-99 | stripping both ends at once equals `rstrip` after `lstrip` |
| Text.LowerIdempotent | grounding/ocr_grounding.py:101-103 | lower-casing twice is lower-casing once |
| Text.ContainsIff | grounding/ocr_grounding.py:110 | `sub in s` holds exactly when `sub` occurs in `s` at some position |
| Text.ContainsSelf | grounding/ocr_grounding.py:110 | every string contains itself and the empty string |
| PySlice.Prefix | data/api_client.py:51 | `s[:stop]` is a prefix of `s`, of length `min(stop, len(s))` for non-negative `stop` and the length minus \|stop\| (at least 0) for negative `stop` |
| Retry.DefaultPolicy | utils/retry.py:9-15 | three attempts, delay 1.0, backoff 1.0, every exception caught |
| Retry.RetryWithSettings | utils/retry.py:38-68 | with three attempts, delay 1.0, no backoff and every exception caught: one to three calls, a value iff the last call returned (and then its value), an exception only after the third failed call and never `raise None`, and a one-second sleep after each failed call but the last |
| Retry.RetryDefaults | utils/retry.py:9-15 | the decorator's defaults behave as just described |
| Retry.RetryingCorrect | utils/retry.py:38-68 | from attempt k the loop calls attempts in order, every call before the last raised a caught exception, the last call decides the outcome, and the events are the schedule of the failed attempts |
| Retry.RetriedCalls | utils/retry.py:38-68 | at most `max_attempts` calls, all but the last raising a caught exception; a value iff the last call returned, and otherwise the last call's exception |
| Retry.RetriesCaughtFailure | utils/retry.py:38-61 | when attempts 1..k all raised a caught exception and `k < max_attempts`, attempt k + 1 is made |
| Retry.RetryReturnsFirstSuccess | utils/retry.py:38-46 | a returned value is that of the first call that did not raise, every earlier call raised a caught exception, and no later call is made |
| Retry.RetryRaisesLast | utils/retry.py:48-49 | when every attempt raises a caught exception, the last one is re-raised after exactly `max_attempts` calls |
| Retry.RetryPropagatesUncaught | utils/retry.py:48 | an uncaught exception propagates from the attempt that raised it, with no further call |
| Retry.RetryWithoutAttempts | utils/retry.py:38-68 | with `max_attempts < 1` no call is made and the wrapper executes `raise None` |
| Retry.ScheduleEvents | utils/retry.py:51-61 | every callback event is for a failed attempt before the final one in range, with that attempt's error; the i-th sleep lasts `delay * backoff^(k + i - 1)` |
| Retry.RetryCallbackNotAfterLast | utils/retry.py:51-57 | `on_retry(attempt, e)` is called only for an attempt before the last call |
| Retry.RetrySleeps | utils/retry.py:35 | one sleep after each failed attempt except the last call; the sleep after attempt k lasts `delay * backoff^(k-1)` |
| Retry.RetryOnException | utils/retry.py:32-68 | the wrapper loop computes exactly `Retried`: outcome, number of calls, callbacks and sleeps |
| Retry.RetryFunction | utils/retry.py:131-177 | the `retry_function` loop computes exactly `Retried` without a callback |
| Retry.RetryContext.constructor | utils/retry.py:88-100 | the settings are stored, the current attempt is 0 and the current delay is the initial delay |
| Retry.RetryContext.Iterate | utils/retry.py:108-111 | a fresh generator bound to this context, positioned at attempt 1 |
| Retry.RetryContext.ShouldRetry | utils/retry.py:113-128 | yes iff the exception is caught and the current attempt is below `max_attempts`; a yes sleeps for the current delay and multiplies it by `backoff`; the delay stays `initial_delay * backoff^retries` |
| Retry.AttemptIterator.Next | utils/retry.py:108-111 | yields 1..`max_attempts` in order, setting `current_attempt` to each value yielded, then stops without changing it |
| Validation.ValidateCoordinates | utils/validation.py:10-31 | true iff 0 <= x < screen_width and 0 <= y < screen_height |
| Validation.DefaultBounds | utils/validation.py:10 | the defaults make the screen 1920x1080 |
| Validation.AgreesWithValidateResult | utils/validation.py:23-31 | `validate_coordinates` agrees with a strategy's `validate_result` on every point |
| Validation.FindWindowByTitle | utils/validation.py:85-99 | the first window in enumeration order whose title matches (equal in exact mode, a case-insensitive substring otherwise); None when none matches or the enumeration raised |
| Validation.TitleMatchesOccurrence | utils/validation.py:92-93 | in the default mode a title matches when the lowercased pattern occurs in the lowercased title |
| Validation.TitleMatchesCaseInsensitive | utils/validation.py:92-93 | default-mode matching ignores the case of the title and of the pattern |
| Validation.VerifyWindowActive | utils/validation.py:139-159 | true iff an active window exists and its lowercased title contains the lowercased pattern; false on an exception |
| Validation.ActiveUsesTitleRule | utils/validation.py:150-156 | `verify_window_active` applies the default-mode title rule of `find_window_by_title` |
| ApiClient.NewClient | data/api_client.py:18-27 | an empty or absent URL becomes the configured API URL, and a zero or absent timeout becomes 5 |
| ApiClient.ValidatePost | data/api_client.py:103-120 | true iff `id`, `title` and `body` are all keys of the post |
| ApiClient.ValidatePosts | data/api_client.py:122-139 | the filter is no longer than its input and every post it keeps has the required fields |
| ApiClient.ValidatePostsCounts | data/api_client.py:122-139 | the filter keeps every valid post exactly as often as it occurs and drops every invalid one |
| ApiClient.ValidatePostsAppend | data/api_client.py:132 | the filter keeps the original order: filtering a concatenation filters each part |
| ApiClient.ValidatePostsIdempotent | data/api_client.py:132 | filtering twice is filtering once |
| ApiClient.NatToStringDigits | data/api_client.py:163 | `str(n)` is a non-empty string of decimal digits whose value is n |
| ApiClient.IntToStringRoundTrip | data/api_client.py:163 | `int(str(i)) == i` |
| ApiClient.FormatPostContent | data/api_client.py:141-151 | succeeds iff the post has `title` and `body`; otherwise it raises KeyError for `title` first, then `body` |
| ApiClient.TitleBodySplit | data/api_client.py:151 | the text `Title: <t>\n\n<b>` determines `t` and `b` when `t` has no line break |
| ApiClient.FormatPostContentInjective | data/api_client.py:151 | for titles without line breaks, equal contents have equal titles and equal bodies |
| ApiClient.GetPostFilename | data/api_client.py:153-163 | succeeds iff the post has an `id`; otherwise it raises KeyError for `id` |
| ApiClient.FilenameDeterminesId | data/api_client.py:163 | posts with different numeric ids get different file names |
| ApiClient.EffectiveCount | data/api_client.py:43 | a falsy count becomes 10; a truthy one is kept |
| ApiClient.EffectiveCountIdempotent | data/api_client.py:70-73 | defaulting the count twice, once in the caller and once in `fetch_posts`, is defaulting it once |
| ApiClient.FetchPolicy | data/api_client.py:32 | two attempts one second apart, retrying on RequestException only |
| ApiClient.TruncationKeepsPrefix | data/api_client.py:51 | the fetched list is a prefix of the response, of length `min(count, len)` for a positive count and of at most 10 for an absent one |
| ApiClient.FetchPosts | data/api_client.py:32-58 | one or two requests, with a second one exactly when the first raised a RequestException; it returns exactly when the last request produced a response, and then returns that response's first `count` posts; otherwise it raises the last request's error |
| ApiClient.LoadFallbackData | data/api_client.py:79-101 | a missing file is an error (FileNotFoundError); otherwise a prefix of the file's posts, of length `min(count, len)` for a positive count |
| ApiClient.FetchPostsWithFallback | data/api_client.py:60-77 | the fallback file is used exactly when the last request of `fetch_posts` raised; otherwise the first `count` posts of that response are returned; one RequestException followed by a response does not reach the fallback |

## Left out
- Floating point: confidences, thresholds, products and delays are exact reals, so IEEE rounding is not modelled.
- Text.LowerChar: lower-cases only ASCII and the Latin-1 capitals that map within Latin-1, not all of Unicode.
- Logging: every `self.logger`/`logger` call is a side effect only. The confidence, strategy names and attempt numbers the engine and the retry loops log are not modelled.
- Retry.RetryOnException: `time.sleep` and `on_retry` are recorded as events and not performed. An exception raised inside `on_retry` is not modelled.
- Retry.RetryOnException: a negative sleep is recorded as an ordinary event. With `delay < 0`, or a `backoff < 0` that makes a later delay negative, Python's `time.sleep` raises ValueError, which escapes the loop after the attempt that failed. `Retried` and the lemmas about it (RetriedCalls, RetryRaisesLast, RetrySleeps) describe the run as if the sleep had succeeded, so for such settings they are not the source's behaviour.
- Retry.RetryFunction: the same holds for its `time.sleep(current_delay)`: a negative delay raises ValueError in the source, and the model does not capture it.
- Retry.RetryContext.ShouldRetry: a yes with a negative current delay raises ValueError from `time.sleep` in the source. The model records the sleep and scales the delay instead.
- Retry.RetryContext: `__enter__`/`__exit__` only return the context and never suppress an exception, so they are not modelled.
- Validation.FindWindowByTitle: the polling loop with its timeout and sleep is wall-clock behaviour. Only one scan (`timeout <= 0`) is modelled.
- Validation.FindWindowByTitle: window titles are strings. A `window.title` that raises, or that is None so that `.lower()` raises, mid-scan is caught and ends the scan with None. The model does not capture that; it would go on to later windows.
- `validate_file_path`, `wait_for_window` and `get_screen_size` (utils/validation.py) are filesystem, wall-clock and OS queries outside the core.
- `TemplateGrounding.update_template`, the template file check (FileNotFoundError), the BotCity/EasyOCR availability checks (ImportError), OCR languages, GPU use and the SSL override are configuration. They are not modelled.
- Strategy names and `__repr__` are not modelled, because nothing in the core decides on them.
- The detectors are inputs:
  - BotCity's `find`/`get_last_element`, EasyOCR's `readtext` and the sequence matcher's `ratio` are not modelled;
  - one matcher is assumed for all rungs of an adaptive call, so a screen that changes between rungs is not modelled.
- `BaseGrounding.locate`/`get_confidence` are abstract; every concrete strategy's `get_confidence` returns its `last_confidence`.
- MultiStrategy.MultiStrategyGrounding.constructor: the list passed in is aliased by the Python object, and later changes made through the caller's reference are not modelled.
- MultiStrategy.MultiStrategyGrounding.Locate: a strategy that was not called but shares its state object with one that was (the same object listed twice, or an adaptive strategy wrapping a listed template strategy) is not described. Only the answering strategy's new confidence is given; those of the rejected strategies follow from `Call` for each call but are not collected in `Locate`'s contract.
- MultiStrategy.Outcome: an explicitly passed `None` keyword is not distinguished from an absent one. The engine passes only the keywords given to it.
- TemplateGrounding.Element: `score` is an optional real. A `score` attribute that exists but holds None, or another non-number, is not modelled. The source would store it, fail in the log's `:.3f` formatting, catch the TypeError and record -1 with no point.
- OcrGrounding.Detection: polygon corners are integers. The float corners EasyOCR may return are not modelled.
- FuzzyOCRGrounding.locate does not update `last_detections`, and neither does the model.
- ApiClient.Json: post fields are integers or strings. Floats (which `str` renders as `1.0`), booleans, null, nested values and non-object list entries are not modelled.
- ApiClient.LoadFallbackData: the FileNotFoundError of a missing file is the `None` result. A file that exists but does not parse (`json.load` raising) is not modelled: `FallbackFile` is either missing or a list of posts.
- ApiClient.FetchPosts: `requests.get`, `raise_for_status` and `response.json()` are collapsed to one outcome per attempt, and the timeout value is not used.
- `create_fallback_data` and the `__main__` blocks are not modelled: they write files or print.
- PostAPIClient is a value, since no method changes its fields; `fallback_data_path` is the `FallbackFile` input.
- The re-export `__init__` modules are not modelled, because they contain no logic.
