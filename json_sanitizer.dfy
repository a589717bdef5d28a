/** The structured-output extractor (`safe_json_load`): three strategies
    tried in order — the whole text, the first fenced block, then the span
    from the first `{` to the brace that brings the nesting depth back to
    zero. `json.loads` is the abstract `parse`. */
module JsonSanitizer {
  import opened Common
  import opened PyJson

  // ---------------------------------------------------------------------
  // Brace depth

  /** +1 for an opening brace, -1 for a closing one. Braces inside string
      literals count like any other. */
  function Delta(c: char): int {
    if c == '{' then 1 else if c == '}' then -1 else 0
  }

  /** Nesting depth after reading all of `t`. */
  function Depth(t: string): int
    decreases |t|
  {
    if t == [] then 0 else Depth(t[..|t| - 1]) + Delta(t[|t| - 1])
  }

  /** Depth of the span `t[start..k]`; zero outside the text. */
  function SpanDepth(t: string, start: int, k: int): int {
    if 0 <= start <= k <= |t| then Depth(t[start..k]) else 0
  }

  /** `j` is where the object opened at `start` closes: the depth of
      `t[start..j+1]` is zero and every shorter non-empty prefix of the span
      is still open. */
  predicate ClosesAt(t: string, start: int, j: int) {
    && 0 <= start <= j < |t|
    && SpanDepth(t, start, j + 1) == 0
    && forall k :: start < k <= j ==> SpanDepth(t, start, k) > 0
  }

  /** The depth never returns to zero after `start`. */
  predicate NeverCloses(t: string, start: int) {
    forall k :: start < k <= |t| ==> SpanDepth(t, start, k) > 0
  }

  /** `text.find(c)`. */
  function FindChar(t: string, c: char): (r: Option<nat>)
    ensures r.Some? ==> r.value < |t| && t[r.value] == c && forall j :: 0 <= j < r.value ==> t[j] != c
    ensures r.None? ==> forall j :: 0 <= j < |t| ==> t[j] != c
  {
    if t == [] then None
    else if t[0] == c then Some(0)
    else match FindChar(t[1..], c)
      case Some(i) => Some(i + 1)
      case None => None
  }

  /** The brace loop from index `i` with the current `depth`: the index of
      the closing brace that brings the depth to zero, if any. */
  function ScanFrom(t: string, i: nat, depth: int): (r: Option<nat>)
    requires i <= |t|
    ensures r.Some? ==> i <= r.value < |t|
    decreases |t| - i
  {
    if i == |t| then None
    else if t[i] == '{' then ScanFrom(t, i + 1, depth + 1)
    else if t[i] == '}' then
      if depth - 1 == 0 then Some(i) else ScanFrom(t, i + 1, depth - 1)
    else ScanFrom(t, i + 1, depth)
  }

  lemma DepthStep(t: string, start: nat, i: nat)
    requires start <= i < |t|
    ensures SpanDepth(t, start, i + 1) == SpanDepth(t, start, i) + Delta(t[i])
  {
    assert t[start..i + 1][..i - start] == t[start..i];
  }

  /** The scan finds exactly the closing position of the object opened at
      `start`, or reports that it never closes. */
  lemma {:induction false} ScanFinds(t: string, start: nat, i: nat, depth: int)
    requires start <= i <= |t| && depth == SpanDepth(t, start, i)
    requires i == start ==> i < |t| && t[i] == '{'
    requires forall k :: start < k <= i ==> SpanDepth(t, start, k) > 0
    ensures ScanFrom(t, i, depth).Some? ==> ClosesAt(t, start, ScanFrom(t, i, depth).value)
    ensures ScanFrom(t, i, depth).None? ==> NeverCloses(t, start)
    decreases |t| - i
  {
    if i < |t| {
      DepthStep(t, start, i);
      if t[i] == '{' {
        ScanFinds(t, start, i + 1, depth + 1);
      } else if t[i] == '}' {
        if depth - 1 != 0 {
          ScanFinds(t, start, i + 1, depth - 1);
        }
      } else {
        ScanFinds(t, start, i + 1, depth);
      }
    }
  }

  /** At most one position closes a given opening brace. */
  lemma ClosesAtUnique(t: string, start: int, j1: int, j2: int)
    requires ClosesAt(t, start, j1) && ClosesAt(t, start, j2)
    ensures j1 == j2
  {
    assert j1 < j2 ==> SpanDepth(t, start, j1 + 1) > 0;
    assert j2 < j1 ==> SpanDepth(t, start, j2 + 1) > 0;
  }

  // ---------------------------------------------------------------------
  // The fenced block: re.search(r"```(?:json)?\s*\n([\s\S]*?)\n```", text)

  predicate CloserAt(t: string, e: int)
    requires 0 <= e <= |t| - 4
  {
    t[e] == '\n' && t[e + 1] == '`' && t[e + 2] == '`' && t[e + 3] == '`'
  }

  /** The lazy body: the first `\n```` at or after `e`. */
  function FirstCloser(t: string, e: nat): (r: Option<nat>)
    requires e <= |t|
    ensures r.Some? ==> e <= r.value <= |t| - 4 && CloserAt(t, r.value)
    ensures r.Some? ==> forall x :: e <= x < r.value ==> !CloserAt(t, x)
    ensures r.None? ==> NoCloserFrom(t, e)
    decreases |t| - e
  {
    if e + 4 > |t| then None
    else if CloserAt(t, e) then Some(e)
    else FirstCloser(t, e + 1)
  }

  /** Length of the whitespace run `\s*` starting at `q`. */
  function SpaceRun(t: string, q: nat): (n: nat)
    requires q <= |t|
    ensures q + n <= |t|
    ensures forall i :: q <= i < q + n ==> IsSpace(t[i])
    ensures q + n < |t| ==> !IsSpace(t[q + n])
    decreases |t| - q
  {
    if q < |t| && IsSpace(t[q]) then 1 + SpaceRun(t, q + 1) else 0
  }

  /** No `\n```` starts at or after `e`. */
  predicate NoCloserFrom(t: string, e: int) {
    forall x :: 0 <= e <= x <= |t| - 4 ==> !CloserAt(t, x)
  }

  /** The lazy body `[c, e)`: it ends at the first `\n```` at or after `c`. */
  predicate BodyAt(t: string, c: int, e: int) {
    && 0 <= c <= e <= |t| - 4
    && CloserAt(t, e)
    && forall x :: c <= x < e ==> !CloserAt(t, x)
  }

  /** `\s*\n` can match `[s, c)`: a whitespace run that ends in a newline. */
  predicate NewlineAfterSpaces(t: string, s: int, c: int) {
    && 0 <= s < c <= |t|
    && t[c - 1] == '\n'
    && forall i :: s <= i < c ==> IsSpace(t[i])
  }

  /** `\s*\n([\s\S]*?)\n```` tried at `s`, as backtracking does: the
      longest whitespace run ending in a newline after which a closer still
      follows, then the shortest body. `r` is the body span, or none when
      no run ending in a newline is followed by a closer. */
  ghost predicate GreedyBody(t: string, s: int, r: Option<(nat, nat)>) {
    match r
    case Some((c, e)) =>
      && NewlineAfterSpaces(t, s, c)
      && BodyAt(t, c, e)
      && forall c' :: c < c' && NewlineAfterSpaces(t, s, c') ==> NoCloserFrom(t, c')
    case None =>
      forall c :: NewlineAfterSpaces(t, s, c) ==> NoCloserFrom(t, c)
  }

  /** `\s*\n([\s\S]*?)\n```` at `q`, the newline tried at `q + len` and
      then ever earlier, as backtracking shortens the whitespace run. The
      result is the body span `[c, e)`. */
  function AfterSpaces(t: string, q: nat, len: nat): (r: Option<(nat, nat)>)
    requires q + len <= |t|
    ensures r.Some? ==> q < r.value.0 <= r.value.1 <= |t|
    ensures r.Some? ==>
      && r.value.0 <= q + len + 1 && t[r.value.0 - 1] == '\n'
      && BodyAt(t, r.value.0, r.value.1)
      && forall n :: r.value.0 <= n <= q + len && n < |t| && t[n] == '\n' ==> NoCloserFrom(t, n + 1)
    ensures r.None? ==>
      forall n :: q <= n <= q + len && n < |t| && t[n] == '\n' ==> NoCloserFrom(t, n + 1)
    decreases len
  {
    var n := q + len;
    var here :=
      if n < |t| && t[n] == '\n' then
        match FirstCloser(t, n + 1)
        case Some(e) => Some((n + 1, e))
        case None => None
      else None;
    if here.Some? || len == 0 then here else AfterSpaces(t, q, len - 1)
  }

  /** The run tried in full from `s` is exactly the greedy choice. */
  lemma SpacesThenBody(t: string, s: nat)
    requires s <= |t|
    ensures GreedyBody(t, s, AfterSpaces(t, s, SpaceRun(t, s)))
  {
    var len := SpaceRun(t, s);
    var r := AfterSpaces(t, s, len);
    // a run ending in a newline stays inside the maximal whitespace run
    assert forall c :: NewlineAfterSpaces(t, s, c) ==> c - 1 < s + len;
    if r.Some? {
      var (c, e) := r.value;
      assert c - 1 < s + len;
      assert NewlineAfterSpaces(t, s, c);
    }
  }

  /** Where the `\s*` of the pattern starts: after the fence, and after a
      `json` tag when one follows it. */
  function TagEnd(t: string, p: nat): nat
    requires p + 3 <= |t|
  {
    if p + 7 <= |t| && t[p + 3..p + 7] == "json" then p + 7 else p + 3
  }

  /** The match of the fence pattern starting exactly at `p`, if any: the
      `json` tag is tried first, then its absence. */
  function FenceMatchAt(t: string, p: nat): (r: Option<(nat, nat)>)
    requires p <= |t|
    ensures r.Some? ==> p < r.value.0 <= r.value.1 <= |t|
  {
    if p + 3 <= |t| && t[p..p + 3] == "```" then
      var q := p + 3;
      var tagged :=
        if q + 4 <= |t| && t[q..q + 4] == "json" then AfterSpaces(t, q + 4, SpaceRun(t, q + 4))
        else None;
      if tagged.Some? then tagged else AfterSpaces(t, q, SpaceRun(t, q))
    else None
  }

  /** A match at `p` is a fence, an optional `json` tag, the longest
      whitespace run ending in a newline that a closer still follows, and
      the body up to the first closer after it. A fence followed by `json`
      matches only with the tag, since `j` is neither whitespace nor a
      newline; without a run and a closer after it there is no match. */
  lemma FenceMatchShape(t: string, p: nat)
    requires p <= |t|
    ensures FenceMatchAt(t, p).Some? ==> p + 3 <= |t| && t[p..p + 3] == "```"
    ensures p + 3 <= |t| && t[p..p + 3] == "```" ==> GreedyBody(t, TagEnd(t, p), FenceMatchAt(t, p))
  {
    if p + 3 <= |t| && t[p..p + 3] == "```" {
      var q := p + 3;
      SpacesThenBody(t, TagEnd(t, p));
      if q + 4 <= |t| && t[q..q + 4] == "json" {
        assert t[q] == 'j' && SpaceRun(t, q) == 0;
      }
    }
  }

  /** `re.search`: the leftmost position where the pattern matches. */
  function FirstFencedBlock(t: string, p: nat): (r: Option<(nat, nat)>)
    requires p <= |t|
    ensures r.Some? ==> p < r.value.0 <= r.value.1 <= |t|
    decreases |t| - p
  {
    if p == |t| then None
    else
      match FenceMatchAt(t, p)
      case Some(span) => Some(span)
      case None => FirstFencedBlock(t, p + 1)
  }

  /** The block found is the match at the leftmost position from `p` on
      where the pattern matches; none is found when it matches nowhere. */
  lemma {:induction false} LeftmostFence(t: string, p: nat)
    requires p <= |t|
    ensures var r := FirstFencedBlock(t, p);
      && (r.Some? ==> exists q :: (p <= q < |t| && FenceMatchAt(t, q) == r &&
            forall q' :: p <= q' < q ==> FenceMatchAt(t, q').None?))
      && (r.None? ==> forall q :: p <= q <= |t| ==> FenceMatchAt(t, q).None?)
    decreases |t| - p
  {
    if p == |t| {
      assert FenceMatchAt(t, p).None?;
    } else if FenceMatchAt(t, p).None? {
      LeftmostFence(t, p + 1);
      var r := FirstFencedBlock(t, p + 1);
      assert FirstFencedBlock(t, p) == r;
      if r.Some? {
        var q :| p + 1 <= q < |t| && FenceMatchAt(t, q) == r &&
          forall q' :: p + 1 <= q' < q ==> FenceMatchAt(t, q').None?;
        assert forall q' :: p <= q' < q ==> FenceMatchAt(t, q').None?;
      } else {
        forall q | p <= q <= |t| ensures FenceMatchAt(t, q).None? {
          if q != p {
            assert p + 1 <= q <= |t|;
          }
        }
      }
    } else {
      assert FenceMatchAt(t, p) == FirstFencedBlock(t, p);
    }
  }

  // ---------------------------------------------------------------------
  // safe_json_load

  /** What `safe_json_load(text)` returns or raises. */
  function Extracted(parse: string -> Option<Json>, text: string): (r: Result<Json>)
    ensures IsBlank(text) <==> r == Err(EmptyResponse)
    ensures !IsBlank(text) && parse(text).Some? ==> r == Ok(parse(text).value)
    ensures !IsBlank(text) && parse(text).None? && FirstFencedBlock(text, 0).Some? &&
            parse(text[FirstFencedBlock(text, 0).value.0..FirstFencedBlock(text, 0).value.1]).Some? ==>
      r == Ok(parse(text[FirstFencedBlock(text, 0).value.0..FirstFencedBlock(text, 0).value.1]).value)
    ensures r.Err? ==> r.error in {EmptyResponse, NoObjectFound, InvalidExtracted, NoValidObject}
    ensures r.Ok? ==> exists a, b :: 0 <= a <= b <= |text| && parse(text[a..b]) == Some(r.value)
  {
    if IsBlank(text) then Err(EmptyResponse)
    else if parse(text).Some? then
      assert text[0..|text|] == text;
      Ok(parse(text).value)
    else
      var fenced :=
        match FirstFencedBlock(text, 0)
        case Some((c, e)) => parse(text[c..e])
        case None => None;
      if fenced.Some? then Ok(fenced.value)
      else BraceExtracted(parse, text)
  }

  /** The third strategy: the span from the first `{` to the position where
      the scan sees the depth return to zero. */
  function BraceExtracted(parse: string -> Option<Json>, text: string): Result<Json> {
    match FindChar(text, '{')
    case None => Err(NoObjectFound)
    case Some(start) =>
      match ScanFrom(text, start, 0)
      case None => Err(NoValidObject)
      case Some(j) =>
        (match parse(text[start..j + 1])
         case Some(v) => Ok(v)
         case None => Err(InvalidExtracted))
  }

  /** The third strategy in declarative terms: when the first two fail and
      the text has a `{`, the only span tried runs from the first `{` to the
      position where it closes; if it fails to parse no other span is tried,
      and if the depth never returns to zero the text is reported as having
      no valid object. Without any `{`, no object is found. */
  lemma BraceStrategy(parse: string -> Option<Json>, text: string)
    requires !IsBlank(text) && parse(text).None?
    requires FirstFencedBlock(text, 0).None? ||
             parse(text[FirstFencedBlock(text, 0).value.0..FirstFencedBlock(text, 0).value.1]).None?
    ensures FindChar(text, '{').None? ==> Extracted(parse, text) == Err(NoObjectFound)
    ensures FindChar(text, '{').Some? ==>
      var start := FindChar(text, '{').value;
      && (NeverCloses(text, start) ==> Extracted(parse, text) == Err(NoValidObject))
      && (forall j :: ClosesAt(text, start, j) ==>
            Extracted(parse, text) ==
              (if parse(text[start..j + 1]).Some? then Ok(parse(text[start..j + 1]).value)
               else Err(InvalidExtracted)))
  {
    FallsToBraces(parse, text);
    BraceCases(parse, text);
  }

  /** When the first two strategies fail, the brace strategy decides. */
  lemma FallsToBraces(parse: string -> Option<Json>, text: string)
    requires !IsBlank(text) && parse(text).None?
    requires FirstFencedBlock(text, 0).None? ||
             parse(text[FirstFencedBlock(text, 0).value.0..FirstFencedBlock(text, 0).value.1]).None?
    ensures Extracted(parse, text) == BraceExtracted(parse, text)
  {
  }

  /** The outcomes of the brace strategy, case by case. */
  lemma BraceCases(parse: string -> Option<Json>, text: string)
    ensures FindChar(text, '{').None? ==> BraceExtracted(parse, text) == Err(NoObjectFound)
    ensures FindChar(text, '{').Some? ==>
      var start := FindChar(text, '{').value;
      && (NeverCloses(text, start) ==> BraceExtracted(parse, text) == Err(NoValidObject))
      && (forall j :: ClosesAt(text, start, j) ==>
            BraceExtracted(parse, text) ==
              (if parse(text[start..j + 1]).Some? then Ok(parse(text[start..j + 1]).value)
               else Err(InvalidExtracted)))
  {
    if FindChar(text, '{').Some? {
      var start := FindChar(text, '{').value;
      assert text[start..start] == [];
      ScanFinds(text, start, start, 0);
      forall j | ClosesAt(text, start, j)
        ensures ScanFrom(text, start, 0) == Some(j)
      {
        ScanClosesAt(text, start, j);
      }
    }
  }

  /** The scan from an opening brace stops exactly where that brace closes. */
  lemma ScanClosesAt(text: string, start: nat, j: int)
    requires start < |text| && text[start] == '{'
    requires ClosesAt(text, start, j)
    ensures ScanFrom(text, start, 0) == Some(j)
  {
    assert text[start..start] == [];
    ScanFinds(text, start, start, 0);
    var found := ScanFrom(text, start, 0);
    assert found.None? ==> SpanDepth(text, start, j + 1) > 0;
    if found.Some? {
      ClosesAtUnique(text, start, found.value, j);
    }
  }

  /** A balanced object: it opens with `{`, its depth returns to zero at
      its last character and not before. */
  predicate Balanced(obj: string) {
    |obj| > 0 && obj[0] == '{' && ClosesAt(obj, 0, |obj| - 1)
  }

  /** Nested objects and later brace pairs do not confuse the scan: after
      a prefix without `{`, a balanced object is exactly the span found,
      whatever follows it. */
  lemma FirstBalancedSpan(pre: string, obj: string, post: string)
    requires forall i :: 0 <= i < |pre| ==> pre[i] != '{'
    requires Balanced(obj)
    ensures FindChar(pre + obj + post, '{') == Some(|pre|)
    ensures ScanFrom(pre + obj + post, |pre|, 0) == Some(|pre| + |obj| - 1)
    ensures (pre + obj + post)[|pre|..|pre| + |obj|] == obj
  {
    var text := pre + obj + post;
    var start := |pre|;
    FindAfterPrefix(pre, obj + post);
    assert text == pre + (obj + post);
    SpanTransfer(pre, obj, post);
    var last: nat := start + |obj| - 1;
    ScanClosesAt(text, start, last);
    assert ScanFrom(text, start, 0) == Some(last);
  }

  lemma FindAfterPrefix(pre: string, rest: string)
    requires forall i :: 0 <= i < |pre| ==> pre[i] != '{'
    requires |rest| > 0 && rest[0] == '{'
    ensures FindChar(pre + rest, '{') == Some(|pre|)
  {
    var text := pre + rest;
    assert text[|pre|] == '{';
    forall i | 0 <= i < |pre| ensures text[i] != '{' {
      assert text[i] == pre[i];
    }
  }

  lemma SpanTransfer(pre: string, obj: string, post: string)
    requires Balanced(obj)
    ensures var text := pre + obj + post;
      && text[|pre|..|pre| + |obj|] == obj
      && ClosesAt(text, |pre|, |pre| + |obj| - 1)
  {
    var text := pre + obj + post;
    var start := |pre|;
    forall k | start <= k <= start + |obj| ensures SpanDepth(text, start, k) == SpanDepth(obj, 0, k - start) {
      assert text[start..k] == obj[0..k - start];
    }
    assert text[start..start + |obj|] == obj;
  }

  /** No `\n```` inside `j`. */
  predicate NoCloser(j: string) {
    forall e :: 0 <= e <= |j| - 4 ==> !CloserAt(j, e)
  }

  function Fenced(j: string): string {
    "```json\n" + j + "\n```"
  }

  lemma FirstCloserAt(t: string, e: nat, target: nat)
    requires e <= target <= |t| - 4 && CloserAt(t, target)
    requires forall x :: e <= x < target ==> !CloserAt(t, x)
    ensures FirstCloser(t, e) == Some(target)
    decreases target - e
  {
    if e < target {
      FirstCloserAt(t, e + 1, target);
    }
  }

  /** A JSON text wrapped in a ```json fence yields the same value as the
      bare text, when the wrapped form itself is not JSON. */
  lemma FencedAsUnwrapped(parse: string -> Option<Json>, j: string, v: Json)
    requires |j| > 0 && !IsSpace(j[0]) && NoCloser(j)
    requires parse(j) == Some(v) && parse(Fenced(j)).None?
    ensures Extracted(parse, Fenced(j)) == Extracted(parse, j) == Ok(v)
  {
    var t := Fenced(j);
    var close := 8 + |j|;
    assert t[8..close] == j;
    assert CloserAt(t, close);
    forall x | 8 <= x < close ensures !CloserAt(t, x) {
      if x + 4 <= close {
        assert t[x..x + 4] == j[x - 8..x - 4];
        assert !CloserAt(j, x - 8);
      } else {
        assert t[close] == '\n';
      }
    }
    FirstCloserAt(t, 8, close);
    assert t[..3] == "```" && t[3..7] == "json";
    assert SpaceRun(t, 8) == 0;
    assert SpaceRun(t, 7) == 1;
    assert AfterSpaces(t, 7, 1) == Some((8, close));
    assert FenceMatchAt(t, 0) == Some((8, close));
    assert !IsBlank(t) by { assert !IsSpace(t[0]); }
    assert !IsBlank(j) by { assert !IsSpace(j[0]); }
  }

  /** `safe_json_load`, with the brace loop written out. */
  method SafeJsonLoad(parse: string -> Option<Json>, text: string) returns (r: Result<Json>)
    ensures r == Extracted(parse, text)
  {
    if IsBlank(text) {
      return Err(EmptyResponse);
    }
    var direct := parse(text);
    if direct.Some? {
      return Ok(direct.value);
    }
    var block := FirstFencedBlock(text, 0);
    if block.Some? {
      var inner := parse(text[block.value.0..block.value.1]);
      if inner.Some? {
        return Ok(inner.value);
      }
    }
    r := BraceScan(parse, text);
  }

  /** The third strategy's loop: the depth count from the first `{`. */
  method BraceScan(parse: string -> Option<Json>, text: string) returns (r: Result<Json>)
    ensures r == BraceExtracted(parse, text)
  {
    var found := FindChar(text, '{');
    if found.None? {
      return Err(NoObjectFound);
    }
    var start := found.value;
    var depth := 0;
    var i := start;
    while i < |text|
      invariant start <= i <= |text|
      invariant ScanFrom(text, i, depth) == ScanFrom(text, start, 0)
    {
      if text[i] == '{' {
        depth := depth + 1;
      } else if text[i] == '}' {
        depth := depth - 1;
        if depth == 0 {
          var span := parse(text[start..i + 1]);
          if span.Some? {
            return Ok(span.value);
          }
          return Err(InvalidExtracted);
        }
      }
      i := i + 1;
    }
    r := Err(NoValidObject);
  }
}
