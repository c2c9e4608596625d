/** Python's slice `s[:stop]` on a list, including its treatment of negative `stop`. */
module PySlice {

  /** `s[:stop]`: a non-negative `stop` keeps the first `stop` elements (or all of them);
      a negative `stop` drops `-stop` elements from the end. */
  function Prefix<T>(s: seq<T>, stop: int): (r: seq<T>)
    ensures |r| == (if stop >= 0 then (if stop < |s| then stop else |s|)
                    else (if |s| + stop > 0 then |s| + stop else 0))
    ensures r == s[..|r|]
  {
    if stop >= 0 then (if stop < |s| then s[..stop] else s)
    else (if |s| + stop > 0 then s[..|s| + stop] else [])
  }
}
