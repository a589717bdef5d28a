/** The generation client (`call_gemini`): prompt assembly, the bounded
    retry loop that retries only HTTP 429 with exponential backoff, and the
    parsing of the two response shapes the service may return.

    The network, the clock and `time.sleep` are replaced by a value `Net`
    that is threaded through every call: `script` holds the outcome of each
    HTTP request in the order they are issued, `requests` logs the requests
    sent, `delays` logs every sleep in seconds, and `calls` logs every
    invocation of the client together with what it returned. */
module GeminiClient {
  import opened Common
  import opened PyJson

  const Model: string := "gemini-flash-latest"
  const MaxRetries: nat := 3
  const InitialBackoff: nat := 2
  const DefaultBase: string := "https://generativelanguage.googleapis.com/v1beta"
  const DefaultMaxTokens: int := 2048
  const RateLimited: int := 429

  /** The sampling temperatures the stages use; they are only tags here. */
  datatype Temp = T01 | T02 | T025 | T03

  /** The process environment the client reads: GEMINI_API_KEY and
      GEMINI_BASE_URL (None when unset). */
  datatype Config = Config(apiKey: Option<string>, baseUrl: Option<string>)

  /** What one HTTP request yields: a response whose body decodes as JSON,
      a response whose body does not, a status `raise_for_status` rejects,
      or any other exception from the transport. */
  datatype Outcome =
    | Reply(body: Json)
    | Garbled
    | HttpError(status: int)
    | ConnectionFailure

  /** One POST: endpoint, key parameter, prompt text and generation config. */
  datatype Request = Request(url: string, key: string, prompt: string, temperature: Temp, maxTokens: int)

  /** One invocation of the client as its caller sees it. */
  datatype Call = Call(system: string, user: string, temperature: Temp, reply: Result<string>)

  datatype Net = Net(script: seq<Outcome>, requests: seq<Request>, delays: seq<nat>, calls: seq<Call>)

  /** The outcome of the `i`-th request from now; once the script is used
      up, the service is unreachable. */
  function OutcomeAt(net: Net, i: nat): Outcome {
    var k := |net.requests| + i;
    if k < |net.script| then net.script[k] else ConnectionFailure
  }

  /** `net'` is `net` after some more activity: the script is the same and
      every log has only grown. */
  predicate Extends(net: Net, net': Net) {
    && net'.script == net.script
    && |net.requests| <= |net'.requests| && net'.requests[..|net.requests|] == net.requests
    && |net.delays| <= |net'.delays| && net'.delays[..|net.delays|] == net.delays
    && |net.calls| <= |net'.calls| && net'.calls[..|net.calls|] == net.calls
  }

  lemma ExtendsTransitive(a: Net, b: Net, c: Net)
    requires Extends(a, b) && Extends(b, c)
    ensures Extends(a, c)
  {
    assert c.requests[..|a.requests|] == c.requests[..|b.requests|][..|a.requests|];
    assert c.delays[..|a.delays|] == c.delays[..|b.delays|][..|a.delays|];
    assert c.calls[..|a.calls|] == c.calls[..|b.calls|][..|a.calls|];
  }

  // ---------------------------------------------------------------------
  // Request assembly

  const EndpointPath: string := "/models/" + Model + ":generateContent"

  /** GEMINI_BASE_URL, or the public endpoint when it is unset. */
  function Base(cfg: Config): string {
    if cfg.baseUrl.Some? then cfg.baseUrl.value else DefaultBase
  }

  /** `_build_url()`: the base followed by the model's generateContent path. */
  function BuildUrl(cfg: Config): (url: string)
    ensures |url| == |Base(cfg)| + |EndpointPath|
    ensures url[..|Base(cfg)|] == Base(cfg) && url[|Base(cfg)|..] == EndpointPath
  {
    Base(cfg) + EndpointPath
  }

  /** `not gemini_api_key` is false: the variable is set and non-empty. */
  predicate HasKey(cfg: Config) {
    cfg.apiKey.Some? && cfg.apiKey.value != ""
  }

  /** The single prompt text: role instructions, a blank line, task input. */
  function PromptText(system: string, user: string): string {
    system + "\n\n" + user
  }

  function Pow2(k: nat): nat {
    if k == 0 then 1 else 2 * Pow2(k - 1)
  }

  /** Seconds slept after a 429 on attempt `attempt` (counted from 0). */
  function Backoff(attempt: nat): nat {
    InitialBackoff * Pow2(attempt)
  }

  /** The backoff starts at two seconds and doubles with every attempt, so
      the two sleeps the retry loop can make last 2 and 4 seconds. */
  lemma BackoffDoubles(attempt: nat)
    ensures Backoff(0) == 2
    ensures Backoff(attempt + 1) == 2 * Backoff(attempt)
    ensures Backoff(1) == 4
  {
  }

  // ---------------------------------------------------------------------
  // Response parsing

  predicate IsFenceAt(t: string, i: int)
    requires 0 <= i <= |t| - 3
  {
    t[i] == '`' && t[i + 1] == '`' && t[i + 2] == '`'
  }

  /** No three consecutive backticks anywhere in `t`. */
  predicate FenceFree(t: string) {
    forall i :: 0 <= i <= |t| - 3 ==> !IsFenceAt(t, i)
  }

  /** `re.sub(r"```(?:json)?\s*\n?", "", s)`: scanning left to right, every
      run of three backticks is removed together with a `json` tag right
      after it and all the whitespace after that. */
  function StripFences(s: string): string
    decreases |s|
  {
    if |s| >= 3 && IsFenceAt(s, 0) then
      StripFences(TrimLeft(Untagged(s[3..])))
    else if s == [] then []
    else [s[0]] + StripFences(s[1..])
  }

  /** What follows a fence once the optional `json` tag is taken off. */
  function Untagged(rest: string): string {
    if |rest| >= 4 && rest[..4] == "json" then rest[4..] else rest
  }

  /** After the substitution no fence is left: a backtick that is kept is
      never followed by a removed fence, since it would have started one. */
  lemma {:induction false} FencesRemoved(s: string)
    ensures FenceFree(StripFences(s))
    decreases |s|
  {
    if |s| >= 3 && IsFenceAt(s, 0) {
      FencesRemoved(TrimLeft(Untagged(s[3..])));
    } else if s != [] {
      var tail := StripFences(s[1..]);
      FencesRemoved(s[1..]);
      var r := [s[0]] + tail;
      assert StripFences(s) == r;
      forall i | 0 <= i <= |r| - 3 ensures !IsFenceAt(r, i) {
        if i == 0 {
          KeptBacktick(s);
        } else {
          assert r[i] == tail[i - 1] && r[i + 1] == tail[i] && r[i + 2] == tail[i + 1];
          assert !IsFenceAt(tail, i - 1);
        }
      }
    }
  }

  /** A kept leading backtick is not followed by two more in the output. */
  lemma KeptBacktick(s: string)
    requires s != [] && !(|s| >= 3 && IsFenceAt(s, 0))
    ensures var r := [s[0]] + StripFences(s[1..]);
      |r| >= 3 ==> !IsFenceAt(r, 0)
  {
    var t := s[1..];
    if s[0] == '`' && |t| >= 1 && t[0] == '`' {
      assert !(|t| >= 3 && IsFenceAt(t, 0));
      assert StripFences(t) == [t[0]] + StripFences(t[1..]);
      var u := t[1..];
      if u != [] {
        assert u[0] != '`';
        assert !(|u| >= 3 && IsFenceAt(u, 0));
        assert StripFences(u) == [u[0]] + StripFences(u[1..]);
      }
    }
  }

  /** Text without fences passes through the substitution unchanged. */
  lemma {:induction false} FenceFreeUnchanged(s: string)
    requires FenceFree(s)
    ensures StripFences(s) == s
    decreases |s|
  {
    if s != [] {
      assert !(|s| >= 3 && IsFenceAt(s, 0));
      var t := s[1..];
      assert FenceFree(t) by {
        forall i | 0 <= i <= |t| - 3 ensures !IsFenceAt(t, i) {
          assert !IsFenceAt(s, i + 1);
        }
      }
      FenceFreeUnchanged(t);
    }
  }

  /** Text without backticks is kept as it stands, and the substitution
      carries on with what follows it. */
  lemma {:induction false} KeepsPrefix(a: string, b: string)
    requires forall i :: 0 <= i < |a| ==> a[i] != '`'
    ensures StripFences(a + b) == a + StripFences(b)
    decreases |a|
  {
    if a == [] {
      assert a + b == b;
    } else {
      var s := a + b;
      assert s[0] == a[0];
      assert s[1..] == a[1..] + b;
      KeepsPrefix(a[1..], b);
    }
  }

  /** One match of the pattern: the three backticks, the `json` tag when
      present and all the whitespace after them are removed together, and
      the substitution resumes at the first character that is not
      whitespace. Without a tag, text that starts with `json` right after
      the backticks would lose it as a tag, so that case is excluded. */
  lemma FenceStep(tag: string, w: string, b: string)
    requires tag == "json" || tag == ""
    requires forall i :: 0 <= i < |w| ==> IsSpace(w[i])
    requires b == [] || !IsSpace(b[0])
    requires tag == "" && w == [] ==> !(|b| >= 4 && b[..4] == "json")
    ensures StripFences("```" + tag + w + b) == StripFences(b)
  {
    var s := "```" + tag + w + b;
    FenceSplit(tag, w, b);
    UntagStep(tag, w, b);
    TrimLeftSpaces(w, b);
    assert StripFences(s) == StripFences(TrimLeft(Untagged(s[3..])));
  }

  /** The match starts with the fence, and the tag, the whitespace and the
      rest follow it. */
  lemma FenceSplit(tag: string, w: string, b: string)
    ensures var s := "```" + tag + w + b;
      |s| >= 3 && IsFenceAt(s, 0) && s[3..] == tag + w + b
  {
    var s := "```" + tag + w + b;
    assert s == "```" + (tag + w + b);
  }

  /** The optional tag is taken off exactly when it is there. */
  lemma UntagStep(tag: string, w: string, b: string)
    requires tag == "json" || tag == ""
    requires forall i :: 0 <= i < |w| ==> IsSpace(w[i])
    requires tag == "" && w == [] ==> !(|b| >= 4 && b[..4] == "json")
    ensures Untagged(tag + w + b) == w + b
  {
    var rest := tag + w + b;
    if tag == "json" {
      assert rest == "json" + (w + b);
      assert rest[..4] == "json";
    } else {
      assert rest == w + b;
      if w != [] {
        assert rest[0] == w[0];
        SpaceIsNoTag(rest);
      }
    }
  }

  /** Text that starts with whitespace does not start with the `json` tag. */
  lemma SpaceIsNoTag(t: string)
    requires |t| > 0 && IsSpace(t[0])
    ensures !(|t| >= 4 && t[..4] == "json")
  {
    assert !IsSpace('j');
    assert |t| >= 4 ==> t[..4][0] == t[0];
  }

  /** A reply wrapped in a `json` fence comes back as its body followed by
      the newline before the closing fence, which the later `strip()`
      removes. */
  lemma FencedReply(j: string)
    requires j != [] && !IsSpace(j[0])
    requires forall i :: 0 <= i < |j| ==> j[i] != '`'
    ensures StripFences("```json\n" + j + "\n```") == j + "\n"
  {
    OpeningFence(j);
    ClosingFence(j + "\n");
  }

  /** The opening fence, its tag and the newline after it go. */
  lemma OpeningFence(j: string)
    requires j != [] && !IsSpace(j[0])
    ensures StripFences("```json\n" + j + "\n```") == StripFences((j + "\n") + "```")
  {
    var rest := (j + "\n") + "```";
    WrappedSplit(j);
    assert rest[0] == j[0];
    FenceStep("json", "\n", rest);
  }

  /** A closing fence at the very end goes, and the text before it stays. */
  lemma ClosingFence(body: string)
    requires forall i :: 0 <= i < |body| ==> body[i] != '`'
    ensures StripFences(body + "```") == body
  {
    KeepsPrefix(body, "```");
    assert StripFences("```") == [];
    assert body + [] == body;
  }

  lemma WrappedSplit(j: string)
    ensures "```json\n" + j + "\n```" == "```" + "json" + "\n" + ((j + "\n") + "```")
  {
    assert "```json\n" == "```" + "json" + "\n";
    assert "\n```" == "\n" + "```";
  }

  lemma FenceFreeSlice(t: string, a: nat, b: nat)
    requires FenceFree(t) && a <= b <= |t|
    ensures FenceFree(t[a..b])
  {
    var u := t[a..b];
    forall i | 0 <= i <= |u| - 3 ensures !IsFenceAt(u, i) {
      assert !IsFenceAt(t, a + i);
    }
  }

  /** The nested-candidate shape: the first part's `text` of the first
      candidate, when that lookup gets that far. `Ok(None)` means the shape
      is absent or the text is falsy; Python errors on values of the wrong
      kind propagate. */
  function CandidateText(data: Json): Result<Option<string>> {
    var hasCandidates :- Contains(data, "candidates");
    if !hasCandidates then Ok(None) else
    var candidates :- Index(data, "candidates");
    if !(candidates.JArr? && |candidates.items| > 0) then Ok(None) else
    var candidate := candidates.items[0];
    var hasContent :- Contains(candidate, "content");
    if !hasContent then Ok(None) else
    var content :- Index(candidate, "content");
    var hasParts :- Contains(content, "parts");
    if !hasParts then Ok(None) else
    var parts :- Index(content, "parts");
    if !(parts.JArr? && |parts.items| > 0) then Ok(None) else
    var text :- Get(parts.items[0], "text", JStr(""));
    if !Truthy(text) then Ok(None)
    else if text.JStr? then Ok(Some(text.s))
    else Err(TypeError)  // re.sub on a value that is not a string
  }

  /** The fallback `key in data and isinstance(data[key], str)`. */
  function FlatField(data: Json, key: string): Result<Option<string>> {
    var has :- Contains(data, key);
    if !has then Ok(None) else
    var v :- Index(data, key);
    if v.JStr? then Ok(Some(v.s)) else Ok(None)
  }

  function FlatText(data: Json): Result<string> {
    var text :- FlatField(data, "text");
    if text.Some? then Ok(text.value) else
    var content :- FlatField(data, "content");
    if content.Some? then Ok(content.value) else Err(UnexpectedFormat)
  }

  /** The text `call_gemini` returns for a decoded response body. */
  function ParseResponse(data: Json): Result<string> {
    var candidate :- CandidateText(data);
    match candidate
    case Some(t) => Ok(Strip(StripFences(t)))
    case None => FlatText(data)
  }

  /** Nested-candidate shape: a non-empty first-part text comes back with
      its fences removed and stripped. */
  lemma NestedResponse(m: map<string, Json>, candidate: map<string, Json>,
                       content: map<string, Json>, part: map<string, Json>, t: string)
    requires "candidates" in m && m["candidates"].JArr?
    requires |m["candidates"].items| > 0 && m["candidates"].items[0] == JObj(candidate)
    requires "content" in candidate && candidate["content"] == JObj(content)
    requires "parts" in content && content["parts"].JArr?
    requires |content["parts"].items| > 0 && content["parts"].items[0] == JObj(part)
    requires "text" in part && part["text"] == JStr(t) && t != []
    ensures var r := ParseResponse(JObj(m));
      && r == Ok(Strip(StripFences(t)))
      && FenceFree(r.value)
      && (|r.value| > 0 ==> !IsSpace(r.value[0]) && !IsSpace(r.value[|r.value| - 1]))
  {
    var data := JObj(m);
    assert Contains(data, "candidates") == Ok(true);
    assert Contains(JObj(candidate), "content") == Ok(true);
    assert Contains(JObj(content), "parts") == Ok(true);
    assert Get(JObj(part), "text", JStr("")) == Ok(JStr(t));
    assert CandidateText(data) == Ok(Some(t));
    StrippedFenceFree(t);
  }

  /** Stripping a text with its fences removed leaves it fence-free. */
  lemma StrippedFenceFree(t: string)
    ensures FenceFree(Strip(StripFences(t)))
  {
    FencesRemoved(t);
    StrippedKeepsFenceFree(StripFences(t));
  }

  /** Stripping whitespace cannot create a fence. */
  lemma StrippedKeepsFenceFree(u: string)
    requires FenceFree(u)
    ensures FenceFree(Strip(u))
  {
    var l := TrimLeft(u);
    SuffixFenceFree(u, l);
    PrefixFenceFree(l, TrimRight(l));
  }

  lemma SuffixFenceFree(u: string, l: string)
    requires FenceFree(u) && |l| <= |u| && l == u[|u| - |l|..]
    ensures FenceFree(l)
  {
    FenceFreeSlice(u, |u| - |l|, |u|);
    assert u[|u| - |l|..|u|] == l;
  }

  lemma PrefixFenceFree(u: string, l: string)
    requires FenceFree(u) && |l| <= |u| && l == u[..|l|]
    ensures FenceFree(l)
  {
    FenceFreeSlice(u, 0, |l|);
    assert u[0..|l|] == l;
  }

  /** Flat shape: without a usable candidate text, a top-level string
      `text` (looked at first) or `content` is returned verbatim; with
      neither, the format is reported as unexpected. */
  lemma FlatResponse(m: map<string, Json>)
    requires CandidateText(JObj(m)) == Ok(None)
    ensures "text" in m && m["text"].JStr? ==> ParseResponse(JObj(m)) == Ok(m["text"].s)
    ensures !("text" in m && m["text"].JStr?) && "content" in m && m["content"].JStr? ==>
      ParseResponse(JObj(m)) == Ok(m["content"].s)
    ensures !("text" in m && m["text"].JStr?) && !("content" in m && m["content"].JStr?) ==>
      ParseResponse(JObj(m)) == Err(UnexpectedFormat)
  {
  }

  // ---------------------------------------------------------------------
  // The retry loop

  /** How a non-retried outcome ends the call. */
  function Settle(o: Outcome): Result<string> {
    match o
    case Reply(body) => ParseResponse(body)
    case Garbled => Err(BodyNotJson)
    case HttpError(status) => Err(HttpStatus(status))
    case ConnectionFailure => Err(TransportFailure)
  }

  predicate Retried(o: Outcome, attempt: nat) {
    o == HttpError(RateLimited) && attempt < MaxRetries - 1
  }

  /** How the loop ended: with an outcome it did not retry, or by running
      out of iterations. */
  datatype Ending = Settled(o: Outcome) | Exhausted

  /** The return or raise that follows the loop's ending. */
  function Finish(e: Ending): Result<string> {
    match e
    case Settled(o) => Settle(o)
    case Exhausted => Err(RetriesExhausted)
  }

  /** The `for attempt in range(MAX_RETRIES)` loop from iteration `attempt`
      on. */
  function Attempts(req: Request, net: Net, attempt: nat): (Ending, Net)
    decreases MaxRetries - attempt
  {
    if attempt >= MaxRetries then (Exhausted, net)
    else
      var o := OutcomeAt(net, 0);
      var sent := net.(requests := net.requests + [req]);
      if Retried(o, attempt) then
        Attempts(req, sent.(delays := sent.delays + [Backoff(attempt)]), attempt + 1)
      else (Settled(o), sent)
  }

  /** `call_gemini(system, user, temperature, max_output_tokens)`. */
  function CallSpec(cfg: Config, net: Net, system: string, user: string, temp: Temp, maxTokens: int)
    : (Result<string>, Net)
  {
    var (r, after) :=
      if !HasKey(cfg) then (Err(MissingApiKey), net)
      else
        var (e, sent) := Attempts(Request(BuildUrl(cfg), cfg.apiKey.value, PromptText(system, user), temp, maxTokens), net, 0);
        (Finish(e), sent);
    (r, after.(calls := after.calls + [Call(system, user, temp, r)]))
  }

  function Repeat<T>(x: T, k: nat): (r: seq<T>)
    ensures |r| == k && forall i :: 0 <= i < k ==> r[i] == x
  {
    if k == 0 then [] else Repeat(x, k - 1) + [x]
  }

  /** What the loop does from iteration `attempt` on: it sends the same
      request `k` times, at least once and never past MAX_RETRIES; every
      request but the last got a 429 and was followed by the backoff of its
      iteration; the loop ends with the last outcome, never by running out. */
  lemma AttemptsShape(req: Request, net: Net, attempt: nat)
    requires attempt < MaxRetries
    ensures var (r, after) := Attempts(req, net, attempt);
      var k := |after.requests| - |net.requests|;
      && 1 <= k <= MaxRetries - attempt
      && after.requests == net.requests + Repeat(req, k)
      && after.delays == net.delays + seq(k - 1, i requires 0 <= i < k - 1 => Backoff(attempt + i))
      && after.calls == net.calls && after.script == net.script
      && (forall i :: 0 <= i < k - 1 ==> OutcomeAt(net, i) == HttpError(RateLimited))
      && !Retried(OutcomeAt(net, k - 1), attempt + k - 1)
      && r == Settled(OutcomeAt(net, k - 1))
  {
    AttemptsTrace(req, net, attempt);
    AttemptsRateLimited(req, net, attempt);
    AttemptsSettled(req, net, attempt);
  }

  /** The requests and delays of the loop from iteration `attempt` on. */
  lemma {:induction false} AttemptsTrace(req: Request, net: Net, attempt: nat)
    requires attempt < MaxRetries
    ensures var (r, after) := Attempts(req, net, attempt);
      var k := |after.requests| - |net.requests|;
      && 1 <= k <= MaxRetries - attempt
      && after.requests == net.requests + Repeat(req, k)
      && after.delays == net.delays + seq(k - 1, i requires 0 <= i < k - 1 => Backoff(attempt + i))
      && after.calls == net.calls && after.script == net.script
    decreases MaxRetries - attempt
  {
    var sent := net.(requests := net.requests + [req]);
    if Retried(OutcomeAt(net, 0), attempt) {
      var next := sent.(delays := sent.delays + [Backoff(attempt)]);
      assert Attempts(req, net, attempt) == Attempts(req, next, attempt + 1);
      AttemptsTrace(req, next, attempt + 1);
      var (r, after) := Attempts(req, next, attempt + 1);
      var k := |after.requests| - |net.requests|;
      assert after.requests == net.requests + Repeat(req, k) by {
        assert Repeat(req, k) == [req] + Repeat(req, k - 1);
      }
      var rest := seq(k - 2, i requires 0 <= i < k - 2 => Backoff(attempt + 1 + i));
      assert seq(k - 1, i requires 0 <= i < k - 1 => Backoff(attempt + i)) == [Backoff(attempt)] + rest;
    }
  }

  /** Every request of the loop but the last was answered with a 429. */
  lemma {:induction false} AttemptsRateLimited(req: Request, net: Net, attempt: nat)
    requires attempt < MaxRetries
    ensures var (r, after) := Attempts(req, net, attempt);
      forall i :: 0 <= i < |after.requests| - |net.requests| - 1 ==> OutcomeAt(net, i) == HttpError(RateLimited)
    decreases MaxRetries - attempt
  {
    var sent := net.(requests := net.requests + [req]);
    if Retried(OutcomeAt(net, 0), attempt) {
      var next := sent.(delays := sent.delays + [Backoff(attempt)]);
      assert Attempts(req, net, attempt) == Attempts(req, next, attempt + 1);
      AttemptsRateLimited(req, next, attempt + 1);
      var after := Attempts(req, next, attempt + 1).1;
      forall i | 0 <= i < |after.requests| - |net.requests| - 1 ensures OutcomeAt(net, i) == HttpError(RateLimited) {
        if i > 0 { assert OutcomeAt(net, i) == OutcomeAt(next, i - 1); }
      }
    }
  }

  /** The outcome of the last request of the loop settles the call. */
  lemma {:induction false} AttemptsSettled(req: Request, net: Net, attempt: nat)
    requires attempt < MaxRetries
    ensures var (r, after) := Attempts(req, net, attempt);
      var k := |after.requests| - |net.requests|;
      && 1 <= k
      && !Retried(OutcomeAt(net, k - 1), attempt + k - 1)
      && r == Settled(OutcomeAt(net, k - 1))
    decreases MaxRetries - attempt
  {
    var sent := net.(requests := net.requests + [req]);
    if Retried(OutcomeAt(net, 0), attempt) {
      var next := sent.(delays := sent.delays + [Backoff(attempt)]);
      assert Attempts(req, net, attempt) == Attempts(req, next, attempt + 1);
      AttemptsSettled(req, next, attempt + 1);
      AttemptsTrace(req, next, attempt + 1);
      var after := Attempts(req, next, attempt + 1).1;
      var k := |after.requests| - |net.requests|;
      assert OutcomeAt(net, k - 1) == OutcomeAt(next, k - 2);
    }
  }

  /** No outcome settles into the error raised after the loop. */
  lemma SettleNeverExhausted(o: Outcome)
    ensures Settle(o) != Err(RetriesExhausted)
  {
  }

  /** The client's whole contract: a missing key fails before any request;
      otherwise between one and MAX_RETRIES identical requests are sent, the
      delays are a prefix of [2, 4], only 429 answers are retried, the last
      outcome decides the result (so a 429 on the last attempt re-raises the
      HTTP error), and the "failed after retries" error never occurs. */
  lemma CallShape(cfg: Config, net: Net, system: string, user: string, temp: Temp, maxTokens: int)
    ensures var (r, after) := CallSpec(cfg, net, system, user, temp, maxTokens);
      var k := |after.requests| - |net.requests|;
      && Extends(net, after)
      && after.calls == net.calls + [Call(system, user, temp, r)]
      && r != Err(RetriesExhausted)
      && (!HasKey(cfg) ==> r == Err(MissingApiKey) && k == 0 && after.delays == net.delays)
      && (HasKey(cfg) ==>
        && 1 <= k <= MaxRetries
        && (forall i :: |net.requests| <= i < |after.requests| ==>
              after.requests[i] == Request(BuildUrl(cfg), cfg.apiKey.value, PromptText(system, user), temp, maxTokens))
        && after.delays == net.delays + [2, 4][..k - 1]
        && (forall i :: 0 <= i < k - 1 ==> OutcomeAt(net, i) == HttpError(429))
        && (k < MaxRetries ==> OutcomeAt(net, k - 1) != HttpError(429))
        && r == Settle(OutcomeAt(net, k - 1)))
  {
    var (r, after) := CallSpec(cfg, net, system, user, temp, maxTokens);
    if HasKey(cfg) {
      var req := Request(BuildUrl(cfg), cfg.apiKey.value, PromptText(system, user), temp, maxTokens);
      AttemptsShape(req, net, 0);
      var k := |after.requests| - |net.requests|;
      SettleNeverExhausted(OutcomeAt(net, k - 1));
      assert Backoff(0) == 2 && Backoff(1) == 4;
      var waits := seq(k - 1, i requires 0 <= i < k - 1 => Backoff(i));
      assert waits == [2, 4][..k - 1] by {
        if k == 2 { assert waits == [2]; } else if k == 3 { assert waits == [2, 4]; }
      }
      assert after.requests[..|net.requests|] == net.requests;
      assert after.delays[..|net.delays|] == net.delays;
    } else {
      assert after.requests == net.requests;
    }
  }

  /** Two 429 answers and then a response: two backoffs of 2 s and 4 s,
      three requests, and the parsed text. */
  lemma RateLimitedTwiceThenReply(cfg: Config, body: Json, system: string, user: string, temp: Temp)
    requires HasKey(cfg)
    ensures var net := Net([HttpError(429), HttpError(429), Reply(body)], [], [], []);
      var (r, after) := CallSpec(cfg, net, system, user, temp, DefaultMaxTokens);
      r == ParseResponse(body) && after.delays == [2, 4] && |after.requests| == 3
  {
    var net := Net([HttpError(429), HttpError(429), Reply(body)], [], [], []);
    CallShape(cfg, net, system, user, temp, DefaultMaxTokens);
  }

  /** A 429 on every attempt: the third one re-raises the HTTP error with
      no further sleep and no fourth request. */
  lemma RateLimitedThrice(cfg: Config, system: string, user: string, temp: Temp)
    requires HasKey(cfg)
    ensures var net := Net([HttpError(429), HttpError(429), HttpError(429), Reply(JNull)], [], [], []);
      var (r, after) := CallSpec(cfg, net, system, user, temp, DefaultMaxTokens);
      r == Err(HttpStatus(429)) && after.delays == [2, 4] && |after.requests| == 3
  {
    var net := Net([HttpError(429), HttpError(429), HttpError(429), Reply(JNull)], [], [], []);
    CallShape(cfg, net, system, user, temp, DefaultMaxTokens);
  }

  /** `call_gemini`: the retry loop, run against the scripted service. */
  /** The part of `CallShape` the client method needs: the call only
      appends to the log, and records itself once. */
  lemma CallLogged(cfg: Config, net: Net, system: string, user: string, temp: Temp, maxTokens: int)
    ensures var (r, after) := CallSpec(cfg, net, system, user, temp, maxTokens);
      Extends(net, after) && after.calls == net.calls + [Call(system, user, temp, r)]
  {
    CallShape(cfg, net, system, user, temp, maxTokens);
  }

  method CallGemini(cfg: Config, net: Net, system: string, user: string, temp: Temp, maxTokens: int)
    returns (r: Result<string>, net': Net)
    ensures (r, net') == CallSpec(cfg, net, system, user, temp, maxTokens)
    ensures Extends(net, net') && net'.calls == net.calls + [Call(system, user, temp, r)]
  {
    CallLogged(cfg, net, system, user, temp, maxTokens);
    if !HasKey(cfg) {
      r := Err(MissingApiKey);
      net' := net.(calls := net.calls + [Call(system, user, temp, r)]);
      return;
    }
    var req := Request(BuildUrl(cfg), cfg.apiKey.value, PromptText(system, user), temp, maxTokens);
    net' := net;
    var attempt: nat := 0;
    while attempt < MaxRetries
      invariant attempt <= MaxRetries
      invariant Attempts(req, net', attempt) == Attempts(req, net, 0)
      invariant net'.calls == net.calls
    {
      var outcome := OutcomeAt(net', 0);
      net' := net'.(requests := net'.requests + [req]);
      if outcome == HttpError(RateLimited) && attempt < MaxRetries - 1 {
        net' := net'.(delays := net'.delays + [Backoff(attempt)]);  // time.sleep(backoff)
        attempt := attempt + 1;
        continue;
      }
      r := Finish(Settled(outcome));
      net' := net'.(calls := net'.calls + [Call(system, user, temp, r)]);
      return;
    }
    r := Err(RetriesExhausted);
    net' := net'.(calls := net'.calls + [Call(system, user, temp, r)]);
  }
}
