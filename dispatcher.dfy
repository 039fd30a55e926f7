/** `processRequest`: post the image, retry on rate limiting, classify a successful answer. */
module Dispatcher {
  import opened Basics
  import opened Strings
  import opened Detection

  /** Retries allowed after a 429 answer; the guard `retries <= MAX_NUM_RETRIES` admits one more. */
  const MAX_NUM_RETRIES: nat := 10
  /** Largest number of posts one call makes: 11 retries after the first post. */
  const MAX_POSTS: nat := MAX_NUM_RETRIES + 2

  const TOO_MANY_REQUESTS := 429
  const JSON_TYPE := "application/json"
  const IMAGE_TYPE := "image"

  /** One HTTP answer. `contentLength` is the `content-length` header as a number, `contentType`
      the `content-type` header, `content` the raw body and `parsed` what `response.json()`
      yields for it. */
  datatype Response = Response(
    status: int,
    contentLength: Option<int>,
    contentType: Option<string>,
    content: seq<byte>,
    parsed: seq<Face>)

  /** What the call returns: `None`, the parsed JSON, or the raw image bytes. */
  datatype Outcome = NoResult | Parsed(faces: seq<Face>) | RawImage(bytes: seq<byte>)

  predicate IsSuccess(status: int)
  {
    status == 200 || status == 201
  }

  /** The 200/201 branch: a zero content-length first, then the JSON test, then the image test,
      both on the lower-cased content-type. */
  function ClassifySuccess(r: Response): Outcome
  {
    if r.contentLength == Some(0) then NoResult
    else if r.contentType.Some? then
      var ct := Lower(r.contentType.value);
      if Contains(ct, JSON_TYPE) then
        (if |r.content| > 0 then Parsed(r.parsed) else NoResult)
      else if Contains(ct, IMAGE_TYPE) then RawImage(r.content)
      else NoResult
    else NoResult
  }

  /** The result the call returns when `r` is the last answer it received. */
  function Verdict(r: Response): Outcome
  {
    if IsSuccess(r.status) then ClassifySuccess(r) else NoResult
  }

  /** Index of the post the call stops after, counting from post `i`: the first answer that is
      not a 429, or the last post the retry bound allows. */
  function StopIndex(post: nat -> Response, i: nat): (k: nat)
    requires i < MAX_POSTS
    ensures i <= k < MAX_POSTS
    ensures forall j :: i <= j < k ==> post(j).status == TOO_MANY_REQUESTS
    ensures k < MAX_POSTS - 1 ==> post(k).status != TOO_MANY_REQUESTS
    decreases MAX_POSTS - i
  {
    if i == MAX_POSTS - 1 || post(i).status != TOO_MANY_REQUESTS then i
    else StopIndex(post, i + 1)
  }

  /** Number of posts one call makes against the server `post` (answer to the n-th post). */
  function PostCount(post: nat -> Response): nat
  {
    StopIndex(post, 0) + 1
  }

  /** What one call returns against the server `post`. */
  function RequestOutcome(post: nat -> Response): Outcome
  {
    Verdict(post(StopIndex(post, 0)))
  }

  /** The retry loop. `post(n)` is the answer to the n-th post of this call. Returns the result,
      the number of posts made and the final retry counter (one one-second sleep per retry). */
  method ProcessRequest(post: nat -> Response) returns (result: Outcome, posts: nat, retries: nat)
    ensures 1 <= posts <= MAX_POSTS
    ensures forall j :: 0 <= j < posts - 1 ==> post(j).status == TOO_MANY_REQUESTS
    ensures posts < MAX_POSTS ==> post(posts - 1).status != TOO_MANY_REQUESTS
    ensures result == Verdict(post(posts - 1))
    ensures retries == posts - 1
    ensures posts == PostCount(post) && result == RequestOutcome(post)
  {
    retries := 0;
    result := NoResult;
    posts := 0;
    while true
      invariant retries <= MAX_NUM_RETRIES + 1
      invariant posts == retries
      invariant forall j :: 0 <= j < posts ==> post(j).status == TOO_MANY_REQUESTS
      invariant result == NoResult
      decreases MAX_NUM_RETRIES + 1 - retries
    {
      var response := post(posts);
      posts := posts + 1;
      if response.status == TOO_MANY_REQUESTS {
        if retries <= MAX_NUM_RETRIES {
          retries := retries + 1;
          continue;
        } else {
          assert result == Verdict(response);
          break;
        }
      } else if IsSuccess(response.status) {
        result := ClassifySuccess(response);
      }
      assert result == Verdict(response);
      break;
    }
    StopIndexIsFirstStop(post, posts - 1);
  }

  /** StopIndex is pinned down by its contract: any index with the same two properties equals it. */
  lemma StopIndexIsFirstStop(post: nat -> Response, k: nat)
    requires k < MAX_POSTS
    requires forall j :: 0 <= j < k ==> post(j).status == TOO_MANY_REQUESTS
    requires k < MAX_POSTS - 1 ==> post(k).status != TOO_MANY_REQUESTS
    ensures StopIndex(post, 0) == k
  {
  }

  /** An unbroken run of 429 answers ends the call after the 12th post, with no result. */
  lemma RateLimitedRunExhausts(post: nat -> Response)
    requires forall j :: 0 <= j < MAX_POSTS ==> post(j).status == TOO_MANY_REQUESTS
    ensures PostCount(post) == MAX_POSTS == 12
    ensures RequestOutcome(post) == NoResult
  {
  }

  /** After `k` answers of 429, the first other answer ends the call and decides its result. */
  lemma FirstOtherAnswerDecides(post: nat -> Response, k: nat)
    requires k < MAX_POSTS
    requires forall j :: 0 <= j < k ==> post(j).status == TOO_MANY_REQUESTS
    requires post(k).status != TOO_MANY_REQUESTS
    ensures PostCount(post) == k + 1
    ensures RequestOutcome(post) == if IsSuccess(post(k).status) then ClassifySuccess(post(k)) else NoResult
  {
    StopIndexIsFirstStop(post, k);
  }

  /** A status other than 200, 201 or 429 on the first post ends the call at once with no result. */
  lemma ErrorStatusIsFinal(post: nat -> Response)
    requires post(0).status != TOO_MANY_REQUESTS && !IsSuccess(post(0).status)
    ensures PostCount(post) == 1
    ensures RequestOutcome(post) == NoResult
  {
    FirstOtherAnswerDecides(post, 0);
  }

  /** StopIndex reads the server only at posts `i` to 11. */
  lemma {:induction false} StopIndexReadsPrefix(p: nat -> Response, q: nat -> Response, i: nat)
    requires i < MAX_POSTS
    requires forall j :: i <= j < MAX_POSTS ==> p(j) == q(j)
    ensures StopIndex(p, i) == StopIndex(q, i)
    decreases MAX_POSTS - i
  {
    if i < MAX_POSTS - 1 && p(i).status == TOO_MANY_REQUESTS {
      StopIndexReadsPrefix(p, q, i + 1);
    }
  }

  /** The call never looks past its 12th answer: servers that agree on the first 12 answers
      give the same number of posts and the same result. */
  lemma OnlyTwelveAnswersMatter(p: nat -> Response, q: nat -> Response)
    requires forall j :: 0 <= j < MAX_POSTS ==> p(j) == q(j)
    ensures PostCount(p) == PostCount(q)
    ensures RequestOutcome(p) == RequestOutcome(q)
  {
    StopIndexReadsPrefix(p, q, 0);
  }

  /** A result is parsed JSON only when the call stopped on a 200/201 answer with a non-empty
      body whose type contains `application/json`, and then it is that answer's parsed body. */
  lemma ParsedComesFromJsonAnswer(post: nat -> Response)
    requires RequestOutcome(post).Parsed?
    ensures var r := post(PostCount(post) - 1);
      IsSuccess(r.status) && r.contentLength != Some(0) && r.contentType.Some? &&
      Contains(Lower(r.contentType.value), JSON_TYPE) && |r.content| > 0 &&
      RequestOutcome(post) == Parsed(r.parsed)
  {
  }

  /** Header order: a zero content-length yields no result whatever the content-type says. */
  lemma ZeroLengthYieldsNothing(r: Response)
    requires r.contentLength == Some(0)
    ensures Verdict(r) == NoResult
  {
  }

  /** A content-type containing `application/json` in any letter case yields the parsed body,
      or no result when the body is empty. */
  lemma JsonTypeYieldsParsedBody(r: Response, i: int)
    requires IsSuccess(r.status) && r.contentLength != Some(0) && r.contentType.Some?
    requires OccursAt(Lower(r.contentType.value), JSON_TYPE, i)
    ensures |r.content| > 0 ==> Verdict(r) == Parsed(r.parsed)
    ensures |r.content| == 0 ==> Verdict(r) == NoResult
  {
    OccurrenceIsFound(Lower(r.contentType.value), JSON_TYPE, i);
  }

  /** A content-type containing `image` but not `application/json` yields the raw body bytes. */
  lemma ImageTypeYieldsRawBytes(r: Response, i: int)
    requires IsSuccess(r.status) && r.contentLength != Some(0) && r.contentType.Some?
    requires forall j :: !OccursAt(Lower(r.contentType.value), JSON_TYPE, j)
    requires OccursAt(Lower(r.contentType.value), IMAGE_TYPE, i)
    ensures Verdict(r) == RawImage(r.content)
  {
    ContainsIff(Lower(r.contentType.value), JSON_TYPE);
    OccurrenceIsFound(Lower(r.contentType.value), IMAGE_TYPE, i);
  }

  /** A missing content-type, or one containing neither pattern, leaves the result `None`. */
  lemma UnknownTypeYieldsNothing(r: Response)
    requires r.contentType.Some? ==>
      (forall j :: !OccursAt(Lower(r.contentType.value), JSON_TYPE, j)) &&
      (forall j :: !OccursAt(Lower(r.contentType.value), IMAGE_TYPE, j))
    ensures Verdict(r) == NoResult
  {
    if r.contentType.Some? {
      ContainsIff(Lower(r.contentType.value), JSON_TYPE);
      ContainsIff(Lower(r.contentType.value), IMAGE_TYPE);
    }
  }

  /** The JSON test ignores letter case: `Application/JSON; charset=utf-8` is parsed. */
  lemma MixedCaseJsonIsParsed(r: Response)
    requires r.status == 200 && r.contentLength == None && |r.content| > 0
    requires r.contentType == Some("Application/JSON; charset=utf-8")
    ensures Verdict(r) == Parsed(r.parsed)
  {
    var ct := Lower(r.contentType.value);
    assert |ct| == |r.contentType.value|;
    assert forall i :: 0 <= i < |ct| ==> ct[i] == LowerChar(r.contentType.value[i]);
    assert ct[..16] == JSON_TYPE;
    assert OccursAt(ct, JSON_TYPE, 0);
    JsonTypeYieldsParsedBody(r, 0);
  }
}
