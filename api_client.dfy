/** data/api_client.py, class PostAPIClient: posts fetched from the API with one retry, the
    local fallback file, and the helpers that check and format a post. The network and the
    file system are inputs. */
module ApiClient {
  import opened Wrappers
  import PySlice
  import Retry

  const API_URL: string := "https://jsonplaceholder.typicode.com/posts"
  const API_TIMEOUT: int := 5
  const POSTS_COUNT: int := 10

  /** The JSON values a post's fields hold here: numbers (ids) and strings. */
  datatype Json = JInt(i: int) | JStr(s: string)

  /** A post: a JSON object. */
  type Post = map<string, Json>

  /** The keys `validate_post` requires, in the order it checks them. */
  const REQUIRED_FIELDS: seq<string> := ["id", "title", "body"]

  /** The client's settings: `api_url or config.API_URL`, `timeout or config.API_TIMEOUT`. */
  datatype PostApiClient = PostApiClient(apiUrl: string, timeout: int)

  function NewClient(apiUrl: Option<string>, timeout: Option<int>): (c: PostApiClient)
    ensures c.apiUrl == (if apiUrl.Some? && apiUrl.value != "" then apiUrl.value else API_URL)
    ensures c.timeout == (if timeout.Some? && timeout.value != 0 then timeout.value else API_TIMEOUT)
  {
    PostApiClient(if apiUrl.Some? && apiUrl.value != "" then apiUrl.value else API_URL,
                  if timeout.Some? && timeout.value != 0 then timeout.value else API_TIMEOUT)
  }

  predicate HasRequiredFields(post: Post) {
    "id" in post && "title" in post && "body" in post
  }

  /** `validate_post`: the required keys are checked in order and the first missing one makes
      the post invalid. */
  method ValidatePost(post: Post) returns (ok: bool)
    ensures ok == HasRequiredFields(post)
  {
    for i := 0 to |REQUIRED_FIELDS|
      invariant forall j :: 0 <= j < i ==> REQUIRED_FIELDS[j] in post
    {
      if REQUIRED_FIELDS[i] !in post {
        return false;
      }
    }
    assert REQUIRED_FIELDS[0] in post && REQUIRED_FIELDS[1] in post && REQUIRED_FIELDS[2] in post;
    return true;
  }

  /** `validate_posts`: the list comprehension keeping the valid posts. The result is no longer
      than the input, and every post in it has the required fields. */
  function ValidatePosts(posts: seq<Post>): (r: seq<Post>)
    ensures |r| <= |posts|
    ensures forall i :: 0 <= i < |r| ==> HasRequiredFields(r[i])
  {
    if posts == [] then []
    else (if HasRequiredFields(posts[0]) then [posts[0]] else []) + ValidatePosts(posts[1..])
  }

  /** The filter keeps exactly the valid posts, each as often as it occurs, and drops the rest. */
  lemma {:induction false} ValidatePostsCounts(posts: seq<Post>)
    ensures forall p :: multiset(ValidatePosts(posts))[p] == if HasRequiredFields(p) then multiset(posts)[p] else 0
  {
    if posts != [] {
      var rest := ValidatePosts(posts[1..]);
      ValidatePostsCounts(posts[1..]);
      var head := if HasRequiredFields(posts[0]) then [posts[0]] else [];
      var r := ValidatePosts(posts);
      assert r == head + rest;
      assert posts == [posts[0]] + posts[1..];
      forall p ensures multiset(r)[p] == if HasRequiredFields(p) then multiset(posts)[p] else 0 {
        assert multiset(r)[p] == multiset(head)[p] + multiset(rest)[p];
        assert multiset(posts)[p] == multiset([posts[0]])[p] + multiset(posts[1..])[p];
      }
    }
  }

  /** The filter keeps the original order: filtering a concatenation filters each part. */
  lemma {:induction false} ValidatePostsAppend(a: seq<Post>, b: seq<Post>)
    ensures ValidatePosts(a + b) == ValidatePosts(a) + ValidatePosts(b)
    decreases |a|
  {
    if a == [] {
      assert a + b == b;
    } else {
      assert (a + b)[0] == a[0];
      assert (a + b)[1..] == a[1..] + b;
      ValidatePostsAppend(a[1..], b);
    }
  }

  /** Filtering twice is filtering once. */
  lemma {:induction false} ValidatePostsIdempotent(posts: seq<Post>)
    ensures ValidatePosts(ValidatePosts(posts)) == ValidatePosts(posts)
  {
    if posts != [] {
      var head := if HasRequiredFields(posts[0]) then [posts[0]] else [];
      ValidatePostsAppend(head, ValidatePosts(posts[1..]));
      ValidatePostsIdempotent(posts[1..]);
      if head != [] {
        assert ValidatePosts(head) == head by {
          assert head[1..] == [];
        }
      }
    }
  }

  /** Python's `str(n)` for a natural number: decimal digits, no leading zeros. */
  function NatToString(n: nat): string
    decreases n
  {
    if n < 10 then [('0' as int + n) as char]
    else NatToString(n / 10) + [('0' as int + n % 10) as char]
  }

  /** Python's `str(i)` for an integer: a minus sign before the digits when negative. */
  function IntToString(i: int): string {
    if i < 0 then "-" + NatToString(-i) else NatToString(i)
  }

  /** `int(s)`, the inverse of `str` on the strings it produces. */
  function DigitsValue(s: string): int {
    if s == [] then 0 else DigitsValue(s[..|s| - 1]) * 10 + (s[|s| - 1] as int - '0' as int)
  }

  function ParseInt(s: string): int {
    if s != [] && s[0] == '-' then -DigitsValue(s[1..]) else DigitsValue(s)
  }

  lemma {:induction false} NatToStringDigits(n: nat)
    ensures var s := NatToString(n);
      s != [] && (forall i :: 0 <= i < |s| ==> '0' <= s[i] <= '9') && DigitsValue(s) == n
    decreases n
  {
    if n >= 10 {
      NatToStringDigits(n / 10);
      var s := NatToString(n);
      assert s[..|s| - 1] == NatToString(n / 10);
    }
  }

  /** `int(str(i)) == i`. */
  lemma IntToStringRoundTrip(i: int)
    ensures ParseInt(IntToString(i)) == i
  {
    if i < 0 {
      NatToStringDigits(-i);
      assert IntToString(i)[1..] == NatToString(-i);
    } else {
      NatToStringDigits(i);
    }
  }

  /** The text of a field in an f-string. */
  function JsonText(v: Json): string {
    match v
    case JInt(i) => IntToString(i)
    case JStr(s) => s
  }

  /** A KeyError for a missing field. */
  datatype KeyError = KeyError(key: string)

  /** `format_post_content`: `Title: <title>`, a blank line, then the body. A missing field is
      a KeyError, `title` being looked up first. */
  function FormatPostContent(post: Post): (r: Result<string, KeyError>)
    ensures r.Ok? <==> "title" in post && "body" in post
    ensures r.Err? ==> r.error == KeyError(if "title" !in post then "title" else "body")
  {
    if "title" !in post then Err(KeyError("title"))
    else if "body" !in post then Err(KeyError("body"))
    else Ok("Title: " + JsonText(post["title"]) + "\n\n" + JsonText(post["body"]))
  }

  /** The position of the first line break in `s` (`|s|` when there is none). */
  function NewlineIndex(s: string): nat {
    if s == [] || s[0] == '\n' then 0 else 1 + NewlineIndex(s[1..])
  }

  lemma {:induction false} NewlineIndexAfter(t: string, rest: string)
    requires '\n' !in t && rest != [] && rest[0] == '\n'
    ensures NewlineIndex(t + rest) == |t|
  {
    if t == [] {
      assert t + rest == rest;
    } else {
      assert (t + rest)[0] == t[0];
      assert (t + rest)[1..] == t[1..] + rest;
      NewlineIndexAfter(t[1..], rest);
    }
  }

  /** The text `Title: <t>\n\n<b>` determines `t` and `b` when `t` has no line break. */
  lemma TitleBodySplit(t1: string, b1: string, t2: string, b2: string)
    requires '\n' !in t1 && '\n' !in t2
    requires "Title: " + t1 + "\n\n" + b1 == "Title: " + t2 + "\n\n" + b2
    ensures t1 == t2 && b1 == b2
  {
    var c := "Title: " + t1 + "\n\n" + b1;
    assert c[7..] == t1 + ("\n\n" + b1) == t2 + ("\n\n" + b2);
    NewlineIndexAfter(t1, "\n\n" + b1);
    NewlineIndexAfter(t2, "\n\n" + b2);
    assert t1 == c[7..7 + |t1|] == t2;
    assert b1 == c[9 + |t1|..] == b2;
  }

  /** The content starts with the title line and ends with the body; for a title without a line
      break, title and body are recovered from the content. */
  lemma FormatPostContentInjective(p1: Post, p2: Post)
    requires FormatPostContent(p1).Ok? && FormatPostContent(p2).Ok?
    requires '\n' !in JsonText(p1["title"]) && '\n' !in JsonText(p2["title"])
    requires FormatPostContent(p1) == FormatPostContent(p2)
    ensures JsonText(p1["title"]) == JsonText(p2["title"]) && JsonText(p1["body"]) == JsonText(p2["body"])
  {
    TitleBodySplit(JsonText(p1["title"]), JsonText(p1["body"]), JsonText(p2["title"]), JsonText(p2["body"]));
  }


  /** `get_post_filename`: `post_<id>.txt`; a missing id is a KeyError. */
  function GetPostFilename(post: Post): (r: Result<string, KeyError>)
    ensures r.Ok? <==> "id" in post
    ensures r.Err? ==> r.error == KeyError("id")
  {
    if "id" !in post then Err(KeyError("id"))
    else Ok("post_" + JsonText(post["id"]) + ".txt")
  }

  /** Posts with different numeric ids get different file names, so writing one post per file
      never overwrites another. */
  lemma FilenameDeterminesId(p1: Post, p2: Post)
    requires "id" in p1 && "id" in p2 && p1["id"].JInt? && p2["id"].JInt?
    requires GetPostFilename(p1) == GetPostFilename(p2)
    ensures p1["id"] == p2["id"]
  {
    var s1, s2 := IntToString(p1["id"].i), IntToString(p2["id"].i);
    var n := GetPostFilename(p1).value;
    assert n == "post_" + s1 + ".txt" == "post_" + s2 + ".txt";
    assert |s1| == |s2|;
    assert s1 == n[5..5 + |s1|] == s2;
    IntToStringRoundTrip(p1["id"].i);
    IntToStringRoundTrip(p2["id"].i);
  }

  /** `count or config.POSTS_COUNT`: None and 0 are falsy. */
  function EffectiveCount(count: Option<int>): (c: int)
    ensures c != 0
    ensures count.Some? && count.value != 0 ==> c == count.value
    ensures count.None? || count.value == 0 ==> c == POSTS_COUNT
  {
    if count.Some? && count.value != 0 then count.value else POSTS_COUNT
  }

  /** Defaulting the count twice, as `fetch_posts_with_fallback` and `fetch_posts` both do,
      is defaulting it once. */
  lemma EffectiveCountIdempotent(count: Option<int>)
    ensures EffectiveCount(Some(EffectiveCount(count))) == EffectiveCount(count)
  {
  }

  /** Why a request attempt raised: a `requests.RequestException`, which the retry decorator
      catches, or any other exception, which it lets through. */
  datatype FetchError = RequestException | OtherException

  /** One HTTP attempt: the decoded JSON list of posts, or an exception. */
  datatype HttpResult = Payload(posts: seq<Post>) | Failed(error: FetchError)

  /** The fallback file: absent, or holding a JSON list of posts. */
  datatype FallbackFile = Missing | Present(posts: seq<Post>)

  /** The decorator on `fetch_posts`: two attempts, one second apart, retrying only on
      `RequestException`. */
  function FetchPolicy(): (p: Retry.Policy<FetchError>)
    ensures p.maxAttempts == 2 && p.delay == 1.0 && p.backoff == 1.0
    ensures p.catches(RequestException) && !p.catches(OtherException)
  {
    Retry.Policy(2, 1.0, 1.0, (e: FetchError) => e == RequestException)
  }

  /** The undecorated body of `fetch_posts` on attempt `k`: the first `count` posts of the
      response. */
  function FetchAttempt(count: Option<int>, http: nat -> HttpResult): nat -> Retry.CallResult<seq<Post>, FetchError> {
    (k: nat) =>
      match http(k)
      case Payload(posts) => Retry.Success(PySlice.Prefix(posts, EffectiveCount(count)))
      case Failed(e) => Retry.Failure(e)
  }

  lemma FetchAttemptAt(count: Option<int>, http: nat -> HttpResult, k: nat)
    ensures FetchAttempt(count, http)(k) ==
      if http(k).Payload? then Retry.Success(PySlice.Prefix(http(k).posts, EffectiveCount(count)))
      else Retry.Failure(http(k).error)
  {
  }

  /** `fetch_posts(count)` under its retry decorator; `http(k)` is what the `k`-th request
      yields. It makes one or two requests, a second one only when the first raised a
      RequestException; it returns exactly when its last request produced a response, and then
      returns the first `count` posts of that response. */
  function FetchPosts(client: PostApiClient, count: Option<int>, http: nat -> HttpResult)
    : (f: Retry.Run<seq<Post>, FetchError>)
    ensures 1 <= f.calls <= 2
    ensures f.outcome.Value? <==> http(f.calls).Payload?
    ensures f.outcome.Value? ==> f.outcome.value == PySlice.Prefix(http(f.calls).posts, EffectiveCount(count))
    ensures f.calls == 2 <==> http(1) == Failed(RequestException)
    ensures f.outcome.Raise? <==> http(f.calls).Failed?
    ensures f.outcome.Raise? ==> f.outcome.error == http(f.calls).error
  {
    var p := FetchPolicy();
    var call := FetchAttempt(count, http);
    var f := Retry.Retried(p, false, call);
    Retry.RetriedCalls(p, false, call);
    FetchAttemptAt(count, http, f.calls);
    FetchAttemptAt(count, http, 1);
    if http(1) == Failed(RequestException) then
      Retry.RetriesCaughtFailure(p, false, call, 1);
      f
    else f
  }

  /** `load_fallback_data(count)`: the first `count` posts of the file; a missing file is an
      error. */
  function LoadFallbackData(client: PostApiClient, count: Option<int>, file: FallbackFile): (r: Option<seq<Post>>)
    ensures r.None? <==> file.Missing?
    ensures r.Some? ==> |r.value| <= |file.posts| && r.value == file.posts[..|r.value|]
    ensures r.Some? && EffectiveCount(count) > 0 ==>
      |r.value| == if EffectiveCount(count) < |file.posts| then EffectiveCount(count) else |file.posts|
  {
    match file
    case Missing => None
    case Present(posts) => Some(PySlice.Prefix(posts, EffectiveCount(count)))
  }

  /** `fetch_posts_with_fallback(count)`: the fetched posts when `fetch_posts` returns, and
      otherwise the fallback data; None when the fallback file is missing too. The fallback is
      used exactly when the last request raised: both requests raised a RequestException, or the
      first raised anything else. */
  function FetchPostsWithFallback(client: PostApiClient, count: Option<int>, http: nat -> HttpResult,
                                  file: FallbackFile): (r: Option<seq<Post>>)
    ensures var c := EffectiveCount(count);
      var f := FetchPosts(client, Some(c), http);
      r == if http(f.calls).Payload? then Some(PySlice.Prefix(http(f.calls).posts, c))
           else LoadFallbackData(client, Some(c), file)
    ensures var c := EffectiveCount(count);
      http(1) == Failed(RequestException) && http(2).Payload? ==> r == Some(PySlice.Prefix(http(2).posts, c))
  {
    var c := EffectiveCount(count);
    var fetched := FetchPosts(client, Some(c), http);
    if fetched.outcome.Value? then Some(fetched.outcome.value)
    else LoadFallbackData(client, Some(c), file)
  }

  /** A positive count keeps the first `count` posts (all of them when there are fewer); a
      negative one, being truthy, drops posts from the end as Python's slice does. */
  lemma TruncationKeepsPrefix(posts: seq<Post>, count: Option<int>)
    ensures var c := EffectiveCount(count);
      var r := PySlice.Prefix(posts, c);
      && r == posts[..|r|]
      && (c > 0 ==> |r| == if c < |posts| then c else |posts|)
      && (count.None? ==> |r| == if |posts| < POSTS_COUNT then |posts| else POSTS_COUNT)
  {
  }
}
