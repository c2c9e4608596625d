/** Text grounding (grounding/ocr_grounding.py): `OCRGrounding` filters EasyOCR detections by
    confidence and matches their text exactly or by substring; `FuzzyOCRGrounding` scores them by
    OCR confidence times string similarity. Both keep the best candidate of a left-to-right scan. */
module OcrGrounding {
  import opened Wrappers
  import opened Text
  import opened BaseGrounding
  import PySlice

  /** `config.OCR_CONFIDENCE_THRESHOLD`. */
  const OCR_CONFIDENCE_THRESHOLD: real := 0.6
  /** The default `fuzzy_threshold`. */
  const FUZZY_THRESHOLD: real := 0.8
  /** The similarity the substring fallback gives when one text contains the other. */
  const FALLBACK_SIMILARITY: real := 0.9

  /** One entry of `reader.readtext(...)`: a polygon, the recognised text and its confidence. */
  datatype Detection = Detection(box: seq<(int, int)>, text: string, confidence: real)

  /** What `reader.readtext` does for the current screenshot: its detections, or an exception. */
  datatype ReadOutcome = Read(detections: seq<Detection>) | ReaderRaised

  // ---------------------------------------------------------------------------------------------
  // Centroid of a detection polygon: `int(sum(xs) / len(xs))`

  /** `int(a / n)` for a positive `n`: true division, then truncation toward zero. */
  function TruncDiv(a: int, n: int): int
    requires n > 0
  {
    if a >= 0 then a / n else -((-a) / n)
  }

  lemma FloorDivBounds(a: nat, n: int)
    requires n > 0
    ensures ((a / n) as real) <= (a as real) / (n as real) < ((a / n + 1) as real)
  {
    var q, m := a / n, a % n;
    assert a == q * n + m && 0 <= m < n;
    assert (a as real) == (q as real) * (n as real) + (m as real);
    assert (a as real) / (n as real) == (q as real) + (m as real) / (n as real);
  }

  /** `TruncDiv` is the integer part of the real quotient: the floor for a non-negative
      dividend, the ceiling for a negative one. */
  lemma TruncDivIsIntegerPart(a: int, n: int)
    requires n > 0
    ensures a >= 0 ==> (TruncDiv(a, n) as real) <= (a as real) / (n as real) < ((TruncDiv(a, n) + 1) as real)
    ensures a < 0 ==> ((TruncDiv(a, n) - 1) as real) < (a as real) / (n as real) <= (TruncDiv(a, n) as real)
  {
    if a >= 0 {
      FloorDivBounds(a, n);
    } else {
      FloorDivBounds(-a, n);
      assert ((-a) as real) / (n as real) == -((a as real) / (n as real));
    }
  }

  function SumX(box: seq<(int, int)>): int {
    if box == [] then 0 else SumX(box[..|box| - 1]) + box[|box| - 1].0
  }

  function SumY(box: seq<(int, int)>): int {
    if box == [] then 0 else SumY(box[..|box| - 1]) + box[|box| - 1].1
  }

  /** The polygon's centroid, each coordinate truncated toward zero. An empty polygon divides by
      zero in the source; callers handle that case before calling. */
  function Centroid(box: seq<(int, int)>): Point
    requires |box| > 0
  {
    Point(TruncDiv(SumX(box), |box|), TruncDiv(SumY(box), |box|))
  }

  lemma {:induction false} SumXBounds(box: seq<(int, int)>, w: int)
    requires forall i :: 0 <= i < |box| ==> 0 <= box[i].0 < w
    ensures 0 <= SumX(box) <= |box| * (w - 1)
  {
    if box != [] {
      SumXBounds(box[..|box| - 1], w);
    }
  }

  lemma {:induction false} SumYBounds(box: seq<(int, int)>, h: int)
    requires forall i :: 0 <= i < |box| ==> 0 <= box[i].1 < h
    ensures 0 <= SumY(box) <= |box| * (h - 1)
  {
    if box != [] {
      SumYBounds(box[..|box| - 1], h);
    }
  }

  lemma MeanBelow(sum: int, n: int, w: int)
    requires n > 0 && 0 <= sum <= n * (w - 1)
    ensures 0 <= sum / n < w
  {
  }

  /** A polygon whose corners all lie inside a `w` x `h` screenshot has its centroid inside too. */
  lemma CentroidInside(box: seq<(int, int)>, screenshot: Screenshot)
    requires |box| > 0
    requires forall i :: 0 <= i < |box| ==>
      0 <= box[i].0 < screenshot.width && 0 <= box[i].1 < screenshot.height
    ensures ValidateResult(Some(Centroid(box)), screenshot)
  {
    SumXBounds(box, screenshot.width);
    SumYBounds(box, screenshot.height);
    MeanBelow(SumX(box), |box|, screenshot.width);
    MeanBelow(SumY(box), |box|, screenshot.height);
  }

  // ---------------------------------------------------------------------------------------------
  // The best-candidate scan shared by both `locate` methods

  /** A detection as the scan sees it: whether it qualifies, the score it competes with,
      and its polygon (whose centroid is computed whenever it becomes the best so far). */
  datatype Candidate = Candidate(qualifies: bool, score: real, box: seq<(int, int)>)

  /** The scan's state: the best index and score so far, or the ZeroDivisionError raised
      while taking the centroid of an empty polygon. */
  datatype Scan = Scanning(best: Option<nat>, bestScore: real) | Crashed

  /** Candidate `k` beats the initial score 0.0 and every earlier qualifying candidate strictly,
      so the scan's `>` test makes it the best so far. */
  predicate IsRecord(cands: seq<Candidate>, k: int)
    requires 0 <= k < |cands|
  {
    && cands[k].qualifies
    && cands[k].score > 0.0
    && forall j :: 0 <= j < k && cands[j].qualifies ==> cands[j].score < cands[k].score
  }

  /** The scan over the first `n` candidates, starting from best score 0.0 and replacing the best
      only on a strictly larger score; taking the centroid of an empty polygon crashes it. */
  function ScanPrefix(cands: seq<Candidate>, n: nat): Scan
    requires n <= |cands|
  {
    if n == 0 then Scanning(None, 0.0)
    else
      match ScanPrefix(cands, n - 1)
      case Crashed => Crashed
      case Scanning(best, s) =>
        var c := cands[n - 1];
        if c.qualifies && c.score > s then
          if |c.box| == 0 then Crashed else Scanning(Some(n - 1), c.score)
        else Scanning(best, s)
  }

  /** The scan's best is the earliest maximal-scoring qualifying candidate and its score is
      positive; the scan crashes exactly when some candidate that would have become the best has
      an empty polygon. */
  lemma {:induction false} ScanPrefixCorrect(cands: seq<Candidate>, n: nat)
    requires n <= |cands|
    ensures var r := ScanPrefix(cands, n);
      && (r.Scanning? ==> forall k :: 0 <= k < n && IsRecord(cands, k) ==> |cands[k].box| > 0)
      && (r.Crashed? ==> exists k :: 0 <= k < n && IsRecord(cands, k) && |cands[k].box| == 0)
      && (r.Scanning? && r.best.None? ==>
           && r.bestScore == 0.0
           && forall j :: 0 <= j < n && cands[j].qualifies ==> cands[j].score <= 0.0)
      && (r.Scanning? && r.best.Some? ==>
           && r.best.value < n
           && cands[r.best.value].qualifies
           && r.bestScore == cands[r.best.value].score > 0.0
           && |cands[r.best.value].box| > 0
           && (forall j :: 0 <= j < n && cands[j].qualifies ==> cands[j].score <= r.bestScore)
           && (forall j :: 0 <= j < r.best.value && cands[j].qualifies ==> cands[j].score < r.bestScore))
  {
    if n > 0 {
      ScanPrefixCorrect(cands, n - 1);
      var prev := ScanPrefix(cands, n - 1);
      if prev.Scanning? {
        var c := cands[n - 1];
        if !(c.qualifies && c.score > prev.bestScore) {
          assert !IsRecord(cands, n - 1) by {
            if prev.best.Some? && c.qualifies {
              assert cands[prev.best.value].qualifies && cands[prev.best.value].score == prev.bestScore;
            }
          }
        }
      }
    }
  }

  /** A best candidate the scan has kept exists and has a non-empty polygon. */
  lemma ScanBestValid(cands: seq<Candidate>, n: nat)
    requires n <= |cands|
    ensures var r := ScanPrefix(cands, n);
      r.Scanning? && r.best.Some? ==> r.best.value < n && |cands[r.best.value].box| > 0
  {
    ScanPrefixCorrect(cands, n);
  }

  /** Once the scan has crashed it stays crashed. */
  lemma {:induction false} CrashPersists(cands: seq<Candidate>, i: nat, n: nat)
    requires i <= n <= |cands|
    requires ScanPrefix(cands, i).Crashed?
    ensures ScanPrefix(cands, n).Crashed?
    decreases n - i
  {
    if i < n {
      CrashPersists(cands, i + 1, n);
    }
  }

  /** One step of the scan, for the loops that perform it. */
  lemma ScanStep(cands: seq<Candidate>, n: nat)
    requires n < |cands| && ScanPrefix(cands, n).Scanning?
    ensures var s := ScanPrefix(cands, n);
      var c := cands[n];
      ScanPrefix(cands, n + 1) ==
        if c.qualifies && c.score > s.bestScore then (if |c.box| == 0 then Crashed else Scanning(Some(n), c.score))
        else s
  {
  }

  /** One step of the scan, as a loop that has assessed candidate `n` (its verdict and, when it
      qualifies, its score) performs it. */
  lemma ScanAdvance(cands: seq<Candidate>, n: nat, qualifies: bool, score: real)
    requires n < |cands| && ScanPrefix(cands, n).Scanning?
    requires cands[n].qualifies == qualifies && (qualifies ==> cands[n].score == score)
    ensures var s := ScanPrefix(cands, n);
      ScanPrefix(cands, n + 1) ==
        if qualifies && score > s.bestScore then (if |cands[n].box| == 0 then Crashed else Scanning(Some(n), score))
        else s
  {
    ScanStep(cands, n);
  }

  // ---------------------------------------------------------------------------------------------
  // OCRGrounding.locate

  /** Text as compared by `locate`: stripped, and lower-cased unless matching is case-sensitive. */
  function Normalise(s: string, caseSensitive: bool): string {
    if caseSensitive then Strip(s) else Lower(Strip(s))
  }

  /** Exact mode: equal normalised texts. Partial mode: the normalised target is a substring
      of the normalised detected text. */
  predicate TextMatches(detected: string, target: string, caseSensitive: bool, exactMatch: bool) {
    var d := Normalise(detected, caseSensitive);
    var t := Normalise(target, caseSensitive);
    if exactMatch then d == t else Contains(d, t)
  }

  /** A detection competes in `locate` iff it passes the confidence threshold and its text matches;
      it competes with its raw OCR confidence. */
  predicate Passes(d: Detection, target: string, threshold: real, caseSensitive: bool, exactMatch: bool) {
    d.confidence >= threshold && TextMatches(d.text, target, caseSensitive, exactMatch)
  }

  function OcrCandidates(dets: seq<Detection>, target: string, threshold: real, caseSensitive: bool, exactMatch: bool)
    : (r: seq<Candidate>)
    ensures |r| == |dets|
    ensures forall i :: 0 <= i < |dets| ==>
      r[i] == Candidate(Passes(dets[i], target, threshold, caseSensitive, exactMatch), dets[i].confidence, dets[i].box)
  {
    seq(|dets|, i requires 0 <= i < |dets| =>
      Candidate(Passes(dets[i], target, threshold, caseSensitive, exactMatch), dets[i].confidence, dets[i].box))
  }

  /** One `OCRGrounding.locate` call: the returned point and the recorded `last_confidence`.
      A reader exception and the centroid's ZeroDivisionError are both caught and give -1. */
  function OcrAttempt(threshold: real, read: ReadOutcome, target: string, caseSensitive: bool, exactMatch: bool)
    : Attempt
  {
    match read
    case ReaderRaised => Attempt(None, -1.0)
    case Read(dets) =>
      var cands := OcrCandidates(dets, target, threshold, caseSensitive, exactMatch);
      ScanBestValid(cands, |dets|);
      match ScanPrefix(cands, |dets|)
      case Crashed => Attempt(None, -1.0)
      case Scanning(None, _) => Attempt(None, 0.0)
      case Scanning(Some(k), s) => Attempt(Some(Centroid(dets[k].box)), s)
  }

  /** A point found by OCR `locate` is the centroid of the earliest detection with the highest
      confidence among those that pass the threshold and match; that confidence is positive and
      is what `last_confidence` records. */
  lemma OcrLocateChoosesBest(threshold: real, dets: seq<Detection>, target: string, caseSensitive: bool, exactMatch: bool)
    ensures var a := OcrAttempt(threshold, Read(dets), target, caseSensitive, exactMatch);
      a.coords.Some? ==> exists k ::
        && 0 <= k < |dets|
        && Passes(dets[k], target, threshold, caseSensitive, exactMatch)
        && |dets[k].box| > 0
        && a.coords == Some(Centroid(dets[k].box))
        && a.confidence == dets[k].confidence > 0.0
        && (forall j :: 0 <= j < |dets| && Passes(dets[j], target, threshold, caseSensitive, exactMatch) ==>
              dets[j].confidence <= a.confidence)
        && (forall j :: 0 <= j < k && Passes(dets[j], target, threshold, caseSensitive, exactMatch) ==>
              dets[j].confidence < a.confidence)
  {
    var cands := OcrCandidates(dets, target, threshold, caseSensitive, exactMatch);
    var s := ScanPrefix(cands, |dets|);
    ScanPrefixCorrect(cands, |dets|);
    if s.Scanning? && s.best.Some? {
      var k := s.best.value;
      assert cands[k].qualifies;
      forall j | 0 <= j < |dets| && Passes(dets[j], target, threshold, caseSensitive, exactMatch)
        ensures dets[j].confidence <= s.bestScore
      {
        assert cands[j].qualifies;
      }
      forall j | 0 <= j < k && Passes(dets[j], target, threshold, caseSensitive, exactMatch)
        ensures dets[j].confidence < s.bestScore
      {
        assert cands[j].qualifies;
      }
    }
  }

  /** OCR `locate` reports "no match" (no point, confidence 0) exactly when no detection that
      passes the threshold and matches has positive confidence: a zero-confidence match is never
      chosen, and any positive one is either found or ends in the -1 of an empty polygon. */
  lemma OcrLocateNotFound(threshold: real, dets: seq<Detection>, target: string, caseSensitive: bool, exactMatch: bool)
    ensures OcrAttempt(threshold, Read(dets), target, caseSensitive, exactMatch) == Attempt(None, 0.0) <==>
      forall j :: 0 <= j < |dets| && Passes(dets[j], target, threshold, caseSensitive, exactMatch) ==>
        dets[j].confidence <= 0.0
  {
    var cands := OcrCandidates(dets, target, threshold, caseSensitive, exactMatch);
    var s := ScanPrefix(cands, |dets|);
    ScanPrefixCorrect(cands, |dets|);
    if s.Crashed? {
      var k :| 0 <= k < |dets| && IsRecord(cands, k) && |cands[k].box| == 0;
      assert Passes(dets[k], target, threshold, caseSensitive, exactMatch) && dets[k].confidence > 0.0;
    } else if s.best.Some? {
      var k := s.best.value;
      assert Passes(dets[k], target, threshold, caseSensitive, exactMatch) && dets[k].confidence > 0.0;
    } else {
      forall j | 0 <= j < |dets| && Passes(dets[j], target, threshold, caseSensitive, exactMatch)
        ensures dets[j].confidence <= 0.0
      {
        assert cands[j].qualifies;
      }
    }
  }

  /** When every polygon has corners, OCR `locate` on a successful read never records -1. */
  lemma OcrLocateNoCrash(threshold: real, dets: seq<Detection>, target: string, caseSensitive: bool, exactMatch: bool)
    requires forall j :: 0 <= j < |dets| ==> |dets[j].box| > 0
    ensures OcrAttempt(threshold, Read(dets), target, caseSensitive, exactMatch).confidence != -1.0
  {
    var cands := OcrCandidates(dets, target, threshold, caseSensitive, exactMatch);
    var s := ScanPrefix(cands, |dets|);
    ScanPrefixCorrect(cands, |dets|);
  }

  /** With detector confidences at most 1, OCR `locate` records -1, 0 or a value in (0, 1]. */
  lemma OcrConfidenceDomain(threshold: real, read: ReadOutcome, target: string, caseSensitive: bool, exactMatch: bool)
    requires read.Read? ==> forall j :: 0 <= j < |read.detections| ==> read.detections[j].confidence <= 1.0
    ensures ValidConfidence(OcrAttempt(threshold, read, target, caseSensitive, exactMatch).confidence)
  {
    if read.Read? {
      var cands := OcrCandidates(read.detections, target, threshold, caseSensitive, exactMatch);
      var s := ScanPrefix(cands, |read.detections|);
      ScanPrefixCorrect(cands, |read.detections|);
      if s.Scanning? && s.best.Some? {
        assert cands[s.best.value].score == read.detections[s.best.value].confidence;
      }
    }
  }

  // ---------------------------------------------------------------------------------------------
  // get_all_text and find_multiple

  /** An entry of `get_all_text`: the raw text, its confidence and its centroid. */
  datatype TextHit = TextHit(text: string, confidence: real, centre: Point)

  /** An entry of `find_multiple`: `(x, y, confidence)`. */
  datatype Hit = Hit(x: int, y: int, confidence: real)

  /** `find_multiple`'s filter: the stripped, lower-cased text contains `target.lower()` (the target
      itself is not stripped) and the confidence reaches the threshold. */
  predicate FindsTarget(d: Detection, target: string, threshold: real) {
    Contains(Lower(Strip(d.text)), Lower(target)) && d.confidence >= threshold
  }

  /** The hit `find_multiple` records for a detection: its centroid and its confidence. */
  function HitOf(d: Detection): Hit
    requires |d.box| > 0
  {
    Hit(Centroid(d.box).x, Centroid(d.box).y, d.confidence)
  }

  /** `find_multiple`'s loop over the first `n` detections: the hits of the matching ones in
      detector order, or the ZeroDivisionError of the first matching detection with an empty
      polygon (nothing in `find_multiple` catches it). */
  function MatchScan(dets: seq<Detection>, target: string, threshold: real, n: nat): Result<seq<Hit>, Fault>
    requires n <= |dets|
  {
    if n == 0 then Ok([])
    else
      match MatchScan(dets, target, threshold, n - 1)
      case Err(e) => Err(e)
      case Ok(hits) =>
        var d := dets[n - 1];
        if !FindsTarget(d, target, threshold) then Ok(hits)
        else if |d.box| == 0 then Err(ZeroDivision)
        else Ok(hits + [HitOf(d)])
  }

  /** The loop fails, with ZeroDivisionError, exactly when some matching detection has an empty
      polygon; otherwise it records at most one hit per detection. */
  lemma {:induction false} MatchScanFails(dets: seq<Detection>, target: string, threshold: real, n: nat)
    requires n <= |dets|
    ensures var r := MatchScan(dets, target, threshold, n);
      && (r.Ok? <==> forall i :: 0 <= i < n && FindsTarget(dets[i], target, threshold) ==> |dets[i].box| > 0)
      && (r.Err? ==> r.error == ZeroDivision)
      && (r.Ok? ==> |r.value| <= n)
  {
    if n > 0 {
      MatchScanFails(dets, target, threshold, n - 1);
    }
  }

  /** The indices, in increasing order, of the matching detections among the first `n`. */
  function MatchingIndices(dets: seq<Detection>, target: string, threshold: real, n: nat): seq<nat>
    requires n <= |dets|
  {
    if n == 0 then []
    else MatchingIndices(dets, target, threshold, n - 1) + if FindsTarget(dets[n - 1], target, threshold) then [n - 1] else []
  }

  /** `MatchingIndices` holds each matching index below `n` once, in increasing order, and nothing else. */
  lemma {:induction false} MatchingIndicesAre(dets: seq<Detection>, target: string, threshold: real, n: nat)
    requires n <= |dets|
    ensures var idx := MatchingIndices(dets, target, threshold, n);
      && (forall k :: 0 <= k < |idx| ==> idx[k] < n)
      && (forall k, l :: 0 <= k < l < |idx| ==> idx[k] < idx[l])
      && (forall i :: 0 <= i < n ==> (i in idx <==> FindsTarget(dets[i], target, threshold)))
  {
    if n > 0 {
      var prev := MatchingIndices(dets, target, threshold, n - 1);
      MatchingIndicesAre(dets, target, threshold, n - 1);
      var idx := MatchingIndices(dets, target, threshold, n);
      if FindsTarget(dets[n - 1], target, threshold) {
        assert idx == prev + [n - 1];
        forall i | 0 <= i < n
          ensures i in idx <==> FindsTarget(dets[i], target, threshold)
        {
          assert i in idx <==> i in prev || i == n - 1;
        }
      } else {
        assert idx == prev;
      }
    }
  }

  /** When the loop succeeds, its hits are, one for one and in order, those of the matching
      detections, each of which has a non-empty polygon. */
  lemma {:induction false} MatchScanHits(dets: seq<Detection>, target: string, threshold: real, n: nat)
    requires n <= |dets|
    ensures var r := MatchScan(dets, target, threshold, n);
      var idx := MatchingIndices(dets, target, threshold, n);
      r.Ok? ==>
        && |r.value| == |idx|
        && forall k :: 0 <= k < |idx| ==>
             idx[k] < |dets| && |dets[idx[k]].box| > 0 && r.value[k] == HitOf(dets[idx[k]])
  {
    if n > 0 {
      MatchScanHits(dets, target, threshold, n - 1);
      MatchingIndicesAre(dets, target, threshold, n - 1);
    }
  }

  /** Once the loop has failed it stays failed. */
  lemma {:induction false} MatchScanErrPersists(dets: seq<Detection>, target: string, threshold: real, i: nat, n: nat)
    requires i <= n <= |dets|
    requires MatchScan(dets, target, threshold, i).Err?
    ensures MatchScan(dets, target, threshold, n) == MatchScan(dets, target, threshold, i)
    decreases n - i
  {
    if i < n {
      MatchScanErrPersists(dets, target, threshold, i + 1, n);
    }
  }

  predicate SortedDesc(s: seq<Hit>) {
    forall i, j :: 0 <= i < j < |s| ==> s[i].confidence >= s[j].confidence
  }

  /** The hits of confidence exactly `c`, in order. */
  function WithConfidence(s: seq<Hit>, c: real): seq<Hit> {
    if s == [] then []
    else WithConfidence(s[..|s| - 1], c) + (if s[|s| - 1].confidence == c then [s[|s| - 1]] else [])
  }

  lemma {:induction false} WithConfidenceAppend(a: seq<Hit>, b: seq<Hit>, c: real)
    ensures WithConfidence(a + b, c) == WithConfidence(a, c) + WithConfidence(b, c)
    decreases |b|
  {
    if b == [] {
      assert a + b == a;
    } else {
      assert (a + b)[..|a + b| - 1] == a + b[..|b| - 1];
      WithConfidenceAppend(a, b[..|b| - 1], c);
    }
  }

  lemma {:induction false} WithConfidenceNone(s: seq<Hit>, c: real)
    requires forall i :: 0 <= i < |s| ==> s[i].confidence < c
    ensures WithConfidence(s, c) == []
  {
    if s != [] {
      WithConfidenceNone(s[..|s| - 1], c);
    }
  }

  /** Insert `h` after every entry whose confidence is at least `h`'s: stable insertion. */
  function InsertDesc(sorted: seq<Hit>, h: Hit): seq<Hit> {
    if sorted == [] then [h]
    else if sorted[0].confidence >= h.confidence then [sorted[0]] + InsertDesc(sorted[1..], h)
    else [h] + sorted
  }

  /** `matches.sort(key=lambda m: m[2], reverse=True)`: Python's sort is stable, also with `reverse`. */
  function SortDesc(hits: seq<Hit>): seq<Hit> {
    if hits == [] then []
    else InsertDesc(SortDesc(hits[..|hits| - 1]), hits[|hits| - 1])
  }

  lemma {:induction false} InsertDescPermutes(sorted: seq<Hit>, h: Hit)
    ensures multiset(InsertDesc(sorted, h)) == multiset(sorted) + multiset{h}
  {
    if sorted != [] && sorted[0].confidence >= h.confidence {
      InsertDescPermutes(sorted[1..], h);
      assert sorted == [sorted[0]] + sorted[1..];
    }
  }

  lemma {:induction false} InsertDescSorted(sorted: seq<Hit>, h: Hit)
    requires SortedDesc(sorted)
    ensures SortedDesc(InsertDesc(sorted, h))
  {
    if sorted != [] && sorted[0].confidence >= h.confidence {
      var rest := InsertDesc(sorted[1..], h);
      InsertDescSorted(sorted[1..], h);
      InsertDescPermutes(sorted[1..], h);
      forall i | 0 <= i < |rest| ensures sorted[0].confidence >= rest[i].confidence {
        assert rest[i] in multiset(rest);
        assert rest[i] in multiset(sorted[1..]) || rest[i] == h;
      }
    }
  }

  lemma WithConfidenceSingle(h: Hit, c: real)
    ensures WithConfidence([h], c) == if h.confidence == c then [h] else []
  {
    assert [h][..0] == [];
  }

  /** Putting `h` in front of entries all of lower confidence adds it at the end of its own group. */
  lemma InsertDescFront(sorted: seq<Hit>, h: Hit, c: real)
    requires SortedDesc(sorted)
    requires sorted != [] && sorted[0].confidence < h.confidence
    ensures WithConfidence([h] + sorted, c) == WithConfidence(sorted, c) + (if h.confidence == c then [h] else [])
  {
    WithConfidenceAppend([h], sorted, c);
    WithConfidenceSingle(h, c);
    if h.confidence == c {
      WithConfidenceNone(sorted, c);
    }
  }

  lemma {:induction false} InsertDescStable(sorted: seq<Hit>, h: Hit, c: real)
    requires SortedDesc(sorted)
    ensures WithConfidence(InsertDesc(sorted, h), c) ==
      WithConfidence(sorted, c) + (if h.confidence == c then [h] else [])
  {
    if sorted == [] {
      WithConfidenceSingle(h, c);
    } else if sorted[0].confidence >= h.confidence {
      var head, rest := [sorted[0]], sorted[1..];
      assert sorted == head + rest;
      InsertDescStable(rest, h, c);
      WithConfidenceAppend(head, InsertDesc(rest, h), c);
      WithConfidenceAppend(head, rest, c);
    } else {
      InsertDescFront(sorted, h, c);
    }
  }

  /** The sort orders by confidence, highest first, permutes its input, and is stable: the entries
      of any one confidence keep their original relative order. */
  lemma {:induction false} SortDescCorrect(hits: seq<Hit>)
    ensures SortedDesc(SortDesc(hits))
    ensures multiset(SortDesc(hits)) == multiset(hits)
    ensures forall c :: WithConfidence(SortDesc(hits), c) == WithConfidence(hits, c)
  {
    if hits != [] {
      var init, last := hits[..|hits| - 1], hits[|hits| - 1];
      SortDescCorrect(init);
      InsertDescSorted(SortDesc(init), last);
      InsertDescPermutes(SortDesc(init), last);
      forall c ensures WithConfidence(SortDesc(hits), c) == WithConfidence(hits, c) {
        InsertDescStable(SortDesc(init), last, c);
        assert hits[..|hits| - 1] == init;
      }
      assert hits == init + [last];
    }
  }

  /** `if max_results: matches = matches[:max_results]`: 0 and None mean no cap. */
  function Cap(hits: seq<Hit>, maxResults: Option<int>): seq<Hit> {
    if maxResults.Some? && maxResults.value != 0 then PySlice.Prefix(hits, maxResults.value) else hits
  }

  // ---------------------------------------------------------------------------------------------
  // FuzzyOCRGrounding

  /** `SequenceMatcher(None, a, b).ratio()`, treated as an unknown function whose values lie
      in [0, 1], as difflib documents. */
  type Ratio = f: (string, string) -> real | forall a, b :: 0.0 <= f(a, b) <= 1.0
    witness (a: string, b: string) => 0.0

  /** The substring fallback used when no sequence matcher is available. */
  function FallbackSimilarity(text1: string, text2: string): (r: real)
    ensures r == 0.0 || r == FALLBACK_SIMILARITY
  {
    var t1, t2 := Lower(text1), Lower(text2);
    if Contains(t2, t1) || Contains(t1, t2) then FALLBACK_SIMILARITY else 0.0
  }

  /** The fallback is symmetric, gives 0.9 to a text compared with itself, and gives 0.9 exactly
      when one lower-cased text occurs inside the other. */
  lemma FallbackSimilarityProperties(text1: string, text2: string)
    ensures FallbackSimilarity(text1, text2) == FallbackSimilarity(text2, text1)
    ensures FallbackSimilarity(text1, text1) == FALLBACK_SIMILARITY
    ensures FallbackSimilarity(text1, text2) == FALLBACK_SIMILARITY <==>
      (exists i :: OccursAt(Lower(text2), Lower(text1), i)) || (exists i :: OccursAt(Lower(text1), Lower(text2), i))
  {
    ContainsSelf(Lower(text1));
    ContainsIff(Lower(text2), Lower(text1));
    ContainsIff(Lower(text1), Lower(text2));
  }

  /** `_fuzzy_match`: the matcher's ratio of the lower-cased texts, or the substring fallback. */
  function FuzzyMatch(matcher: Option<Ratio>, text1: string, text2: string): (r: real)
    ensures 0.0 <= r <= 1.0
  {
    if matcher.Some? then matcher.value(Lower(text1), Lower(text2)) else FallbackSimilarity(text1, text2)
  }

  /** `_fuzzy_match` as a function of the two texts, for the matcher chosen at construction. */
  function FuzzyMatcher(matcher: Option<Ratio>): (f: Ratio)
    ensures forall text1, text2 :: f(text1, text2) == FuzzyMatch(matcher, text1, text2)
  {
    (text1: string, text2: string) => FuzzyMatch(matcher, text1, text2)
  }

  /** `_fuzzy_match(text.strip(), target.strip())` for one detection, where `fuzzy` is the
      object's `_fuzzy_match` (see FuzzyMatcher). */
  function Similarity(d: Detection, target: string, fuzzy: Ratio): (r: real)
    ensures 0.0 <= r <= 1.0
  {
    fuzzy(Strip(d.text), Strip(target))
  }

  /** A detection competes in fuzzy `locate` iff its confidence reaches the OCR threshold and its
      similarity to the target reaches the fuzzy threshold; it competes with confidence x similarity. */
  function FuzzyCandidate(d: Detection, target: string, threshold: real, fuzzyThreshold: real,
                          fuzzy: Ratio): Candidate
  {
    var similarity := Similarity(d, target, fuzzy);
    Candidate(d.confidence >= threshold && similarity >= fuzzyThreshold, d.confidence * similarity, d.box)
  }

  function FuzzyCandidates(dets: seq<Detection>, target: string, threshold: real, fuzzyThreshold: real,
                           fuzzy: Ratio): (r: seq<Candidate>)
    ensures |r| == |dets|
    ensures forall i :: 0 <= i < |dets| ==> r[i] == FuzzyCandidate(dets[i], target, threshold, fuzzyThreshold, fuzzy)
  {
    seq(|dets|, i requires 0 <= i < |dets| => FuzzyCandidate(dets[i], target, threshold, fuzzyThreshold, fuzzy))
  }

  /** One fuzzy `locate` call. It has no exception handler, so a reader exception or an empty
      polygon propagates (Err) and `last_confidence` is not written. */
  function FuzzyAttempt(threshold: real, fuzzyThreshold: real, fuzzy: Ratio, read: ReadOutcome,
                        target: string): Result<Attempt, Fault>
  {
    match read
    case ReaderRaised => Err(DetectorFailure)
    case Read(dets) =>
      var cands := FuzzyCandidates(dets, target, threshold, fuzzyThreshold, fuzzy);
      ScanBestValid(cands, |dets|);
      match ScanPrefix(cands, |dets|)
      case Crashed => Err(ZeroDivision)
      case Scanning(None, _) => Ok(Attempt(None, 0.0))
      case Scanning(Some(k), s) => Ok(Attempt(Some(Centroid(dets[k].box)), s))
  }

  lemma FuzzyCandidateIs(d: Detection, target: string, threshold: real, fuzzyThreshold: real, fuzzy: Ratio)
    ensures var c := FuzzyCandidate(d, target, threshold, fuzzyThreshold, fuzzy);
      && (c.qualifies <==> d.confidence >= threshold && Similarity(d, target, fuzzy) >= fuzzyThreshold)
      && c.score == d.confidence * Similarity(d, target, fuzzy)
      && c.box == d.box
  {
  }

  /** A fuzzy match is the earliest qualifying detection with the largest confidence x similarity;
      its similarity reached the fuzzy threshold, and the recorded confidence is that product. */
  lemma FuzzyLocateChoosesBest(threshold: real, fuzzyThreshold: real, fuzzy: Ratio,
                               dets: seq<Detection>, target: string)
    ensures var r := FuzzyAttempt(threshold, fuzzyThreshold, fuzzy, Read(dets), target);
      var cands := FuzzyCandidates(dets, target, threshold, fuzzyThreshold, fuzzy);
      r.Ok? && r.value.coords.Some? ==> exists k ::
        && 0 <= k < |dets|
        && dets[k].confidence >= threshold
        && Similarity(dets[k], target, fuzzy) >= fuzzyThreshold
        && |dets[k].box| > 0
        && r.value.coords == Some(Centroid(dets[k].box))
        && r.value.confidence == cands[k].score > 0.0
        && (forall j :: 0 <= j < |dets| && cands[j].qualifies ==> cands[j].score <= r.value.confidence)
        && (forall j :: 0 <= j < k && cands[j].qualifies ==> cands[j].score < r.value.confidence)
  {
    var cands := FuzzyCandidates(dets, target, threshold, fuzzyThreshold, fuzzy);
    var s := ScanPrefix(cands, |dets|);
    ScanPrefixCorrect(cands, |dets|);
    if s.Scanning? && s.best.Some? {
      var k := s.best.value;
      FuzzyCandidateIs(dets[k], target, threshold, fuzzyThreshold, fuzzy);
      assert cands[k].qualifies;
    }
  }

  /** Fuzzy `locate` reports "no match" (no point, confidence 0) exactly when no detection that
      passes both thresholds has a positive confidence x similarity; and whenever it returns
      without a point, the confidence it records is 0. */
  lemma FuzzyLocateNotFound(threshold: real, fuzzyThreshold: real, fuzzy: Ratio,
                            dets: seq<Detection>, target: string)
    ensures FuzzyAttempt(threshold, fuzzyThreshold, fuzzy, Read(dets), target) == Ok(Attempt(None, 0.0)) <==>
      forall j :: (0 <= j < |dets| && dets[j].confidence >= threshold &&
                   Similarity(dets[j], target, fuzzy) >= fuzzyThreshold) ==>
        dets[j].confidence * Similarity(dets[j], target, fuzzy) <= 0.0
    ensures var r := FuzzyAttempt(threshold, fuzzyThreshold, fuzzy, Read(dets), target);
      r.Ok? && r.value.coords.None? ==> r.value.confidence == 0.0
  {
    var cands := FuzzyCandidates(dets, target, threshold, fuzzyThreshold, fuzzy);
    var s := ScanPrefix(cands, |dets|);
    ScanPrefixCorrect(cands, |dets|);
    if s.Crashed? {
      var k :| 0 <= k < |dets| && IsRecord(cands, k) && |cands[k].box| == 0;
      FuzzyCandidateIs(dets[k], target, threshold, fuzzyThreshold, fuzzy);
    } else if s.best.Some? {
      var k := s.best.value;
      FuzzyCandidateIs(dets[k], target, threshold, fuzzyThreshold, fuzzy);
    } else {
      forall j | 0 <= j < |dets| && dets[j].confidence >= threshold &&
        Similarity(dets[j], target, fuzzy) >= fuzzyThreshold
        ensures dets[j].confidence * Similarity(dets[j], target, fuzzy) <= 0.0
      {
        FuzzyCandidateIs(dets[j], target, threshold, fuzzyThreshold, fuzzy);
      }
    }
  }

  /** A detection whose similarity is below the fuzzy threshold is never chosen, however high its
      OCR confidence: whatever the scan picks passed both thresholds. */
  lemma FuzzyRejectsDissimilar(threshold: real, fuzzyThreshold: real, fuzzy: Ratio,
                               dets: seq<Detection>, target: string, k: nat)
    requires k < |dets|
    ensures var r := ScanPrefix(FuzzyCandidates(dets, target, threshold, fuzzyThreshold, fuzzy), |dets|);
      r.Scanning? && r.best == Some(k) ==>
        Similarity(dets[k], target, fuzzy) >= fuzzyThreshold && dets[k].confidence >= threshold
  {
    var cands := FuzzyCandidates(dets, target, threshold, fuzzyThreshold, fuzzy);
    ScanPrefixCorrect(cands, |dets|);
    FuzzyCandidateIs(dets[k], target, threshold, fuzzyThreshold, fuzzy);
  }

  lemma ProductAtMostOne(a: real, b: real)
    requires 0.0 <= a <= 1.0 && 0.0 <= b <= 1.0
    ensures a * b <= 1.0
  {
    assert (1.0 - a) * b >= 0.0;
    assert a * b == b - (1.0 - a) * b;
  }

  /** With detector confidences in [0, 1] and a ratio in [0, 1], fuzzy `locate` records 0 or a
      value in (0, 1]. */
  lemma FuzzyScoreAtMostOne(d: Detection, target: string, threshold: real, fuzzyThreshold: real, fuzzy: Ratio)
    requires d.confidence <= 1.0
    ensures FuzzyCandidate(d, target, threshold, fuzzyThreshold, fuzzy).score <= 1.0
  {
    var sim := Similarity(d, target, fuzzy);
    if d.confidence >= 0.0 {
      ProductAtMostOne(d.confidence, sim);
    } else {
      assert d.confidence * sim <= 0.0;
    }
  }

  lemma FuzzyConfidenceDomain(threshold: real, fuzzyThreshold: real, fuzzy: Ratio,
                              read: ReadOutcome, target: string)
    requires read.Read? ==> forall j :: 0 <= j < |read.detections| ==> read.detections[j].confidence <= 1.0
    ensures var r := FuzzyAttempt(threshold, fuzzyThreshold, fuzzy, read, target);
      r.Ok? ==> ValidConfidence(r.value.confidence)
  {
    if read.Read? {
      var dets := read.detections;
      var cands := FuzzyCandidates(dets, target, threshold, fuzzyThreshold, fuzzy);
      var s := ScanPrefix(cands, |dets|);
      ScanPrefixCorrect(cands, |dets|);
      if s.Scanning? && s.best.Some? {
        var k := s.best.value;
        FuzzyScoreAtMostOne(dets[k], target, threshold, fuzzyThreshold, fuzzy);
        assert s.bestScore <= 1.0;
      }
    }
  }

  // ---------------------------------------------------------------------------------------------
  // The strategy objects

  /** How `find_multiple` orders and caps its hits. With no truthy cap the result is a stable
      reordering of the hits, highest confidence first; with a positive cap it is the first
      `max_results` of that ordering; either way it is sorted. */
  lemma SortAndCap(hits: seq<Hit>, maxResults: Option<int>)
    ensures var all := SortDesc(hits);
      var r := Cap(all, maxResults);
      && SortedDesc(r)
      && multiset(all) == multiset(hits)
      && (forall c :: WithConfidence(all, c) == WithConfidence(hits, c))
      && r == all[..|r|]
      && (maxResults.None? || maxResults.value == 0 ==> r == all)
      && (maxResults.Some? && maxResults.value > 0 ==> |r| == if maxResults.value < |hits| then maxResults.value else |hits|)
  {
    var all := SortDesc(hits);
    SortDescCorrect(hits);
    var r := Cap(all, maxResults);
    forall i, j | 0 <= i < j < |r| ensures r[i].confidence >= r[j].confidence {
      assert r[i] == all[i] && r[j] == all[j];
    }
    assert |all| == |hits| by {
      assert |multiset(all)| == |multiset(hits)|;
    }
  }

  /** `OCRGrounding`. The EasyOCR reader is not part of the object here: each call receives what
      `reader.readtext` produces for its screenshot. */
  class OCRGrounding {
    /** `confidence_threshold or config.OCR_CONFIDENCE_THRESHOLD`. */
    const confidenceThreshold: real
    /** `self.last_confidence`: -1 until the first locate call. */
    var lastConfidence: real
    /** `self.last_detections`: the raw output of the most recent successful read in `locate`. */
    var lastDetections: seq<Detection>

    constructor (confidenceThreshold: Option<real>)
      ensures this.confidenceThreshold == OrDefault(confidenceThreshold, OCR_CONFIDENCE_THRESHOLD)
      ensures lastConfidence == -1.0 && lastDetections == []
    {
      this.confidenceThreshold := OrDefault(confidenceThreshold, OCR_CONFIDENCE_THRESHOLD);
      lastConfidence := -1.0;
      lastDetections := [];
    }

    /** The body of `locate`'s loop up to its test: a detection below the threshold is skipped,
        otherwise its text must match the target. */
    method Assess(d: Detection, target: string, caseSensitive: bool, exactMatch: bool) returns (isMatch: bool)
      ensures isMatch == Passes(d, target, confidenceThreshold, caseSensitive, exactMatch)
    {
      if d.confidence < confidenceThreshold {
        return false;
      }
      isMatch := TextMatches(d.text, target, caseSensitive, exactMatch);
    }

    /** `locate`: one left-to-right scan keeping the best match so far; every exception inside
        (from the reader, or the centroid of an empty polygon) is caught and recorded as -1. */
    method Locate(screenshot: Screenshot, target: string, caseSensitive: bool, exactMatch: bool, read: ReadOutcome)
      returns (coords: Option<Point>)
      modifies this`lastConfidence, this`lastDetections
      ensures Attempt(coords, lastConfidence) == OcrAttempt(confidenceThreshold, read, target, caseSensitive, exactMatch)
      ensures lastDetections == if read.Read? then read.detections else old(lastDetections)
    {
      if read.ReaderRaised? {
        lastConfidence := -1.0;
        return None;
      }
      var results := read.detections;
      lastDetections := results;
      ghost var cands := OcrCandidates(results, target, confidenceThreshold, caseSensitive, exactMatch);
      var bestMatch: Option<Point> := None;
      var bestConfidence := 0.0;
      ghost var bestIndex: Option<nat> := None;
      var i := 0;
      while i < |results|
        invariant 0 <= i <= |results|
        invariant lastDetections == results
        invariant ScanPrefix(cands, i) == Scanning(bestIndex, bestConfidence)
        invariant bestIndex.None? ==> bestMatch.None?
        invariant bestIndex.Some? ==>
          bestIndex.value < |results| && |results[bestIndex.value].box| > 0 &&
          bestMatch == Some(Centroid(results[bestIndex.value].box))
      {
        var d := results[i];
        var isMatch := Assess(d, target, caseSensitive, exactMatch);
        ScanAdvance(cands, i, isMatch, d.confidence);
        if isMatch && d.confidence > bestConfidence {
          if |d.box| == 0 {
            CrashPersists(cands, i + 1, |results|);
            lastConfidence := -1.0;
            return None;
          }
          bestMatch := Some(Centroid(d.box));
          bestConfidence := d.confidence;
          bestIndex := Some(i);
        }
        i := i + 1;
      }
      if bestMatch.Some? {
        lastConfidence := bestConfidence;
        return bestMatch;
      }
      lastConfidence := 0.0;
      return None;
    }

    /** `get_confidence`: the `last_confidence` the most recent `locate` recorded (-1 before any). */
    function GetConfidence(): (r: real)
      reads this`lastConfidence
      ensures r == lastConfidence
    {
      lastConfidence
    }

    /** `get_all_text`: every detection with its centroid, in detector order and without any
        confidence filter. Nothing is caught: a reader exception or an empty polygon propagates. */
    method GetAllText(screenshot: Screenshot, read: ReadOutcome) returns (r: Result<seq<TextHit>, Fault>)
      ensures read.ReaderRaised? ==> r == Err(DetectorFailure)
      ensures read.Read? ==> (r.Ok? <==> forall i :: 0 <= i < |read.detections| ==> |read.detections[i].box| > 0)
      ensures read.Read? && r.Err? ==> r.error == ZeroDivision
      ensures r.Ok? ==>
        && |r.value| == |read.detections|
        && forall i :: 0 <= i < |r.value| ==>
             && |read.detections[i].box| > 0
             && r.value[i] == TextHit(read.detections[i].text, read.detections[i].confidence,
                                      Centroid(read.detections[i].box))
    {
      if read.ReaderRaised? {
        return Err(DetectorFailure);
      }
      var results := read.detections;
      var textResults: seq<TextHit> := [];
      var i := 0;
      while i < |results|
        invariant 0 <= i <= |results|
        invariant |textResults| == i
        invariant forall j :: 0 <= j < i ==>
          |results[j].box| > 0 && textResults[j] == TextHit(results[j].text, results[j].confidence, Centroid(results[j].box))
      {
        var d := results[i];
        if |d.box| == 0 {
          return Err(ZeroDivision);
        }
        textResults := textResults + [TextHit(d.text, d.confidence, Centroid(d.box))];
        i := i + 1;
      }
      return Ok(textResults);
    }

    /** `find_multiple`: the matching detections' centroids, sorted by confidence (highest first,
        stable) and cut to `max_results` when that is truthy. Nothing is caught. */
    method FindMultiple(screenshot: Screenshot, target: string, maxResults: Option<int>, read: ReadOutcome)
      returns (r: Result<seq<Hit>, Fault>)
      ensures read.ReaderRaised? ==> r == Err(DetectorFailure)
      ensures read.Read? ==>
        var m := MatchScan(read.detections, target, confidenceThreshold, |read.detections|);
        r == if m.Ok? then Ok(Cap(SortDesc(m.value), maxResults)) else Err(m.error)
    {
      if read.ReaderRaised? {
        return Err(DetectorFailure);
      }
      var results := read.detections;
      var matches: seq<Hit> := [];
      var i := 0;
      while i < |results|
        invariant 0 <= i <= |results|
        invariant MatchScan(results, target, confidenceThreshold, i) == Ok(matches)
      {
        var d := results[i];
        if FindsTarget(d, target, confidenceThreshold) {
          if |d.box| == 0 {
            MatchScanErrPersists(results, target, confidenceThreshold, i + 1, |results|);
            return Err(ZeroDivision);
          }
          var c := Centroid(d.box);
          matches := matches + [Hit(c.x, c.y, d.confidence)];
        }
        i := i + 1;
      }
      matches := SortDesc(matches);
      if maxResults.Some? && maxResults.value != 0 {
        matches := PySlice.Prefix(matches, maxResults.value);
      }
      return Ok(matches);
    }
  }

  /** `FuzzyOCRGrounding` extends `OCRGrounding`; the inherited state and methods (`get_all_text`,
      `find_multiple`, `get_confidence`) are the `ocr` part. The constructor's `matcher` is difflib's
      `SequenceMatcher` ratio, or None when difflib could not be imported. The constructor's
      `fuzzyThreshold` is `fuzzy_threshold` as the caller passes it; a caller that omits it passes
      `FUZZY_THRESHOLD`. A plain default, unlike `or`, keeps an explicit 0.0. */
  class FuzzyOCRGrounding {
    const ocr: OCRGrounding
    const fuzzyThreshold: real
    /** `self._fuzzy_match`, fixed by the matcher chosen at construction. */
    const fuzzyMatch: Ratio

    constructor (confidenceThreshold: Option<real>, fuzzyThreshold: real, matcher: Option<Ratio>)
      ensures fresh(ocr)
      ensures ocr.confidenceThreshold == OrDefault(confidenceThreshold, OCR_CONFIDENCE_THRESHOLD)
      ensures ocr.lastConfidence == -1.0 && ocr.lastDetections == []
      ensures this.fuzzyThreshold == fuzzyThreshold && fuzzyMatch == FuzzyMatcher(matcher)
    {
      ocr := new OCRGrounding(confidenceThreshold);
      this.fuzzyThreshold := fuzzyThreshold;
      fuzzyMatch := FuzzyMatcher(matcher);
    }

    /** The body of fuzzy `locate`'s loop up to its test: a detection below the OCR threshold is
        skipped; otherwise its similarity must reach the fuzzy threshold, and it competes with
        its confidence times its similarity. */
    method Assess(d: Detection, target: string) returns (qualifies: bool, combinedScore: real)
      ensures var c := FuzzyCandidate(d, target, ocr.confidenceThreshold, fuzzyThreshold, fuzzyMatch);
        qualifies == c.qualifies && (qualifies ==> combinedScore == c.score)
    {
      if d.confidence < ocr.confidenceThreshold {
        return false, 0.0;
      }
      var similarity := fuzzyMatch(Strip(d.text), Strip(target));
      combinedScore := d.confidence * similarity;
      qualifies := similarity >= fuzzyThreshold;
    }

    /** The loop of fuzzy `locate` over the reader's detections: the best match and its score
        (0.0 when nothing qualified), or the ZeroDivisionError of an empty polygon. */
    method BestFuzzyMatch(results: seq<Detection>, target: string) returns (r: Result<Attempt, Fault>)
      ensures r == FuzzyAttempt(ocr.confidenceThreshold, fuzzyThreshold, fuzzyMatch, Read(results), target)
    {
      ghost var cands := FuzzyCandidates(results, target, ocr.confidenceThreshold, fuzzyThreshold, fuzzyMatch);
      var bestMatch: Option<Point> := None;
      var bestScore := 0.0;
      ghost var bestIndex: Option<nat> := None;
      var i := 0;
      while i < |results|
        invariant 0 <= i <= |results|
        invariant ScanPrefix(cands, i) == Scanning(bestIndex, bestScore)
        invariant bestIndex.None? ==> bestMatch.None?
        invariant bestIndex.Some? ==>
          bestIndex.value < |results| && |results[bestIndex.value].box| > 0 &&
          bestMatch == Some(Centroid(results[bestIndex.value].box))
      {
        var d := results[i];
        var qualifies, combinedScore := Assess(d, target);
        ScanAdvance(cands, i, qualifies, combinedScore);
        if qualifies && combinedScore > bestScore {
          if |d.box| == 0 {
            CrashPersists(cands, i + 1, |results|);
            return Err(ZeroDivision);
          }
          bestMatch := Some(Centroid(d.box));
          bestScore := combinedScore;
          bestIndex := Some(i);
        }
        i := i + 1;
      }
      r := Ok(Attempt(bestMatch, if bestMatch.Some? then bestScore else 0.0));
    }

    /** Fuzzy `locate` (any keyword arguments are accepted and ignored). It catches nothing: a
        reader exception or an empty polygon propagates and `last_confidence` keeps its value.
        It does not update `last_detections`. */
    method Locate(screenshot: Screenshot, target: string, read: ReadOutcome) returns (r: LocateOutcome)
      modifies ocr`lastConfidence
      ensures match FuzzyAttempt(ocr.confidenceThreshold, fuzzyThreshold, fuzzyMatch, read, target)
        case Ok(a) => r == Returned(a.coords) && ocr.lastConfidence == a.confidence
        case Err(f) => r == Raised(f) && ocr.lastConfidence == old(ocr.lastConfidence)
    {
      if read.ReaderRaised? {
        return Raised(DetectorFailure);
      }
      var scan := BestFuzzyMatch(read.detections, target);
      match scan
      case Err(f) =>
        return Raised(f);
      case Ok(a) =>
        ocr.lastConfidence := a.confidence;
        return Returned(a.coords);
    }
  }
}
