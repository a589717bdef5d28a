/** JSON values as the Python backend sees them after `json.loads`, and the
    handful of Python built-ins the pipeline applies to them: `in`,
    subscription, `dict.get`, iteration, truthiness, `str.strip` and `int()`.
    The library functions whose internals do not matter (`json.loads`,
    `json.dumps`, `str()`, and the order in which a parsed dict yields its
    keys) are fields of `Lib`, so that only their identity is modelled. */
module PyJson {
  import opened Common

  /** A JSON value (RFC 8259). Objects are Python dicts, keyed by string. */
  datatype Json =
    | JNull
    | JBool(b: bool)
    | JInt(i: int)
    | JFloat(r: real)
    | JStr(s: string)
    | JArr(items: seq<Json>)
    | JObj(fields: map<string, Json>)

  /** The library functions the pipeline calls but whose internals are not
      part of the model: `parse` is `json.loads` (None when it raises
      JSONDecodeError), `repr` is `str(value)`, `dumps` is
      `json.dumps(value, ensure_ascii=False)`, `keyOrder` is the order in
      which iterating a parsed dict yields its keys. */
  datatype Lib = Lib(
    parse: string -> Option<Json>,
    repr: Json -> string,
    dumps: Json -> string,
    keyOrder: map<string, Json> -> seq<string>)

  /** `ks` lists every key of `m` exactly once and nothing else. */
  predicate KeyListing(ks: seq<string>, m: map<string, Json>) {
    && (forall i, j :: 0 <= i < j < |ks| ==> ks[i] != ks[j])
    && (forall k :: k in ks ==> k in m)
    && (forall k :: k in m ==> k in ks)
  }

  /** What Python guarantees of dict iteration, whatever the order: each
      key is yielded exactly once. */
  ghost predicate ValidLib(lib: Lib) {
    forall m :: KeyListing(lib.keyOrder(m), m)
  }

  /** Some listing of a set of keys. */
  ghost function KeysListed(s: set<string>): (ks: seq<string>)
    ensures forall i, j :: 0 <= i < j < |ks| ==> ks[i] != ks[j]
    ensures forall k :: k in ks <==> k in s
    decreases |s|
  {
    if s == {} then []
    else
      var k :| k in s;
      [k] + KeysListed(s - {k})
  }

  /** The assumption is consistent: some library meets it. */
  lemma ValidLibExists()
    ensures exists lib :: ValidLib(lib)
  {
    var lib := Lib(_ => None, _ => "", _ => "", (m: map<string, Json>) => KeysListed(m.Keys));
    assert forall m: map<string, Json> :: lib.keyOrder(m) == KeysListed(m.Keys);
    assert ValidLib(lib);
  }

  // ---------------------------------------------------------------------
  // Whitespace and str.strip()

  /** The characters for which Python's `str.isspace()` holds; this is also
      what `\s` matches in a `re` pattern over `str`. */
  predicate IsSpace(c: char) {
    c == ' ' || ('\t' <= c <= '\r') || ('\U{1C}' <= c <= '\U{1F}') ||
    c == '\U{85}' || c == '\U{A0}' || c == '\U{1680}' ||
    ('\U{2000}' <= c <= '\U{200A}') || c == '\U{2028}' || c == '\U{2029}' ||
    c == '\U{202F}' || c == '\U{205F}' || c == '\U{3000}'
  }

  predicate IsBlank(s: string) {
    forall i :: 0 <= i < |s| ==> IsSpace(s[i])
  }

  /** `s.lstrip()`: the suffix of `s` left after dropping leading whitespace. */
  function TrimLeft(s: string): (r: string)
    ensures |r| <= |s| && r == s[|s| - |r|..]
    ensures forall i :: 0 <= i < |s| - |r| ==> IsSpace(s[i])
    ensures |r| > 0 ==> !IsSpace(r[0])
    decreases |s|
  {
    if |s| > 0 && IsSpace(s[0]) then TrimLeft(s[1..]) else s
  }

  /** Dropping the leading whitespace of `w + b`, where `w` is all
      whitespace and `b` does not start with any, leaves `b`. */
  lemma {:induction false} TrimLeftSpaces(w: string, b: string)
    requires forall i :: 0 <= i < |w| ==> IsSpace(w[i])
    requires b == [] || !IsSpace(b[0])
    ensures TrimLeft(w + b) == b
    decreases |w|
  {
    if w == [] {
      assert w + b == b;
    } else {
      assert (w + b)[0] == w[0];
      assert (w + b)[1..] == w[1..] + b;
      TrimLeftSpaces(w[1..], b);
    }
  }

  /** `s.rstrip()`: the prefix of `s` left after dropping trailing whitespace. */
  function TrimRight(s: string): (r: string)
    ensures |r| <= |s| && r == s[..|r|]
    ensures forall i :: |r| <= i < |s| ==> IsSpace(s[i])
    ensures |r| > 0 ==> !IsSpace(r[|r| - 1])
    decreases |s|
  {
    if |s| > 0 && IsSpace(s[|s| - 1]) then TrimRight(s[..|s| - 1]) else s
  }

  /** `s.strip()`. It is empty exactly when `s` is all whitespace. */
  function Strip(s: string): (r: string)
    ensures r == [] <==> IsBlank(s)
    ensures |r| > 0 ==> !IsSpace(r[0]) && !IsSpace(r[|r| - 1])
  {
    var l := TrimLeft(s);
    StripEmpty(s, l);
    TrimRight(l)
  }

  lemma StripEmpty(s: string, l: string)
    requires l == TrimLeft(s)
    ensures TrimRight(l) == [] <==> IsBlank(s)
    ensures |TrimRight(l)| > 0 ==> !IsSpace(TrimRight(l)[0])
  {
    var r := TrimRight(l);
    var k := |s| - |l|;
    if |l| > 0 {
      assert !IsSpace(s[k]);
      assert l[0] in l;
    }
    if |r| > 0 {
      assert r[0] == l[0];
    }
  }

  /** `needle in haystack` for two strings: substring containment. */
  predicate IsSubstring(needle: string, haystack: string) {
    exists i :: 0 <= i <= |haystack| - |needle| && OccursAt(needle, haystack, i)
  }

  predicate OccursAt(needle: string, haystack: string, i: int)
    requires 0 <= i <= |haystack| - |needle|
  {
    haystack[i..i + |needle|] == needle
  }

  // ---------------------------------------------------------------------
  // Containers

  /** Python truthiness of a JSON value (`if value:`). */
  predicate Truthy(v: Json) {
    match v
    case JNull => false
    case JBool(b) => b
    case JInt(i) => i != 0
    case JFloat(r) => r != 0.0
    case JStr(s) => s != []
    case JArr(xs) => xs != []
    case JObj(m) => m != map[]
  }

  /** `key in v` for a string key: dict membership, list membership or
      substring test; a number, boolean or None raises TypeError. */
  function Contains(v: Json, key: string): Result<bool> {
    match v
    case JObj(m) => Ok(key in m)
    case JArr(xs) => Ok(JStr(key) in xs)
    case JStr(s) => Ok(IsSubstring(key, s))
    case _ => Err(TypeError)
  }

  /** `v[key]` for a string key: only a dict can be subscripted by a string;
      a missing key raises KeyError. */
  function Index(v: Json, key: string): (r: Result<Json>)
    ensures r.Ok? <==> v.JObj? && key in v.fields
    ensures r.Ok? ==> r.value == v.fields[key]
    ensures r.Err? ==> r.error == (if v.JObj? then KeyError else TypeError)
  {
    match v
    case JObj(m) => if key in m then Ok(m[key]) else Err(KeyError)
    case _ => Err(TypeError)
  }

  /** `d.get(key, default)` on a dict already known to be one. */
  function Lookup(m: map<string, Json>, key: string, default: Json): Json {
    if key in m then m[key] else default
  }

  /** `v.get(key, default)`: only dicts have `.get`. */
  function Get(v: Json, key: string, default: Json): Result<Json> {
    match v
    case JObj(m) => Ok(Lookup(m, key, default))
    case _ => Err(AttributeError)
  }

  /** The elements `for item in v` visits: a list's elements, a string's
      characters (as one-character strings), a dict's keys; iterating a
      number, a boolean or None raises TypeError. */
  function IterItems(lib: Lib, v: Json): (r: Result<seq<Json>>)
    ensures r.Ok? <==> v.JArr? || v.JStr? || v.JObj?
    ensures v.JArr? ==> r == Ok(v.items)
    ensures v.JStr? || v.JObj? ==> forall i :: 0 <= i < |r.value| ==> r.value[i].JStr?
  {
    match v
    case JArr(xs) => Ok(xs)
    case JStr(s) => Ok(seq(|s|, i requires 0 <= i < |s| => JStr([s[i]])))
    case JObj(m) =>
      var ks := lib.keyOrder(m);
      Ok(seq(|ks|, i requires 0 <= i < |ks| => JStr(ks[i])))
    case _ => Err(TypeError)
  }

  /** Iterating a dict visits each of its keys exactly once, as strings;
      an empty dict visits nothing. */
  lemma DictIteration(lib: Lib, m: map<string, Json>)
    requires ValidLib(lib)
    ensures IterItems(lib, JObj(m)).Ok?
    ensures var ks := IterItems(lib, JObj(m)).value;
      && (forall i, j :: 0 <= i < j < |ks| ==> ks[i] != ks[j])
      && (forall k :: JStr(k) in ks <==> k in m)
      && (m == map[] <==> ks == [])
  {
    var order := lib.keyOrder(m);
    assert KeyListing(order, m);
    var ks := IterItems(lib, JObj(m)).value;
    assert |ks| == |order| && forall i :: 0 <= i < |ks| ==> ks[i] == JStr(order[i]);
    forall k
      ensures JStr(k) in ks <==> k in m
    {
      if JStr(k) in ks {
        var i :| 0 <= i < |ks| && ks[i] == JStr(k);
        assert order[i] == k;
      }
      if k in m {
        var i :| 0 <= i < |order| && order[i] == k;
        assert ks[i] == JStr(k);
      }
    }
    if m != map[] {
      var k :| k in m;
      assert JStr(k) in ks;
    }
    if ks != [] {
      assert order[0] in m;
    }
  }

  // ---------------------------------------------------------------------
  // int()

  predicate IsDigit(c: char) { '0' <= c <= '9' }

  /** The digit part Python's `int()` accepts in base 10: ASCII digits,
      with single underscores allowed between two digits. */
  predicate WellFormedDigits(d: string) {
    && |d| > 0
    && IsDigit(d[0])
    && IsDigit(d[|d| - 1])
    && (forall i :: 0 <= i < |d| ==> IsDigit(d[i]) || d[i] == '_')
    && (forall i :: 0 <= i < |d| - 1 ==> d[i] == '_' ==> d[i + 1] != '_')
  }

  /** The number the digits of `d` spell, underscores skipped. */
  function DigitsValue(d: string): nat
    decreases |d|
  {
    if d == [] then 0
    else if d[|d| - 1] == '_' then DigitsValue(d[..|d| - 1])
    else if IsDigit(d[|d| - 1]) then 10 * DigitsValue(d[..|d| - 1]) + (d[|d| - 1] - '0') as nat
    else DigitsValue(d[..|d| - 1])
  }

  /** `int(s)` for a string: surrounding whitespace is stripped, one sign
      is allowed, then base-10 digits. None is Python's ValueError. */
  function ParseIntText(s: string): Option<int> {
    var t := Strip(s);
    if |t| > 0 && (t[0] == '+' || t[0] == '-') then
      if WellFormedDigits(t[1..]) then
        var n: int := DigitsValue(t[1..]);
        Some(if t[0] == '-' then -n else n)
      else None
    else if WellFormedDigits(t) then Some(DigitsValue(t))
    else None
  }

  /** Truncation toward zero, as `int()` does to a float. */
  function Truncate(r: real): (n: int)
    ensures r >= 0.0 ==> 0.0 <= n as real <= r < n as real + 1.0
    ensures r < 0.0 ==> n as real - 1.0 < r <= n as real <= 0.0
  {
    if r >= 0.0 then r.Floor else -((-r).Floor)
  }

  /** Python's `int(v)` on a parsed JSON value. */
  function IntOf(v: Json): (r: Result<int>)
    ensures v.JInt? ==> r == Ok(v.i)
    ensures v.JNull? || v.JArr? || v.JObj? ==> r == Err(TypeError)
    ensures v.JStr? ==> r.Ok? || r == Err(ValueError)
    ensures v.JFloat? ==> r == Ok(Truncate(v.r))
    ensures v.JBool? ==> r == Ok(if v.b then 1 else 0)
  {
    match v
    case JBool(b) => Ok(if b then 1 else 0)
    case JInt(i) => Ok(i)
    case JFloat(x) => Ok(Truncate(x))
    case JStr(s) =>
      (match ParseIntText(s)
       case Some(n) => Ok(n)
       case None => Err(ValueError))
    case _ => Err(TypeError)
  }

  /** A character `int()` never accepts in a string: not an ASCII digit, an
      underscore, a sign or whitespace (a decimal point, a slash, a
      letter). */
  predicate Foreign(c: char) {
    !IsDigit(c) && c != '_' && c != '+' && c != '-' && !IsSpace(c)
  }

  /** `int()` of a blank string raises ValueError. */
  lemma IntRejectsBlank(s: string)
    requires IsBlank(s)
    ensures IntOf(JStr(s)) == Err(ValueError)
  {
    assert Strip(s) == [];
  }

  /** `int()` of a string holding a character it never accepts raises
      ValueError, so "7.5", "7/10" and "high" are rejected. */
  lemma IntRejectsForeign(s: string, i: nat)
    requires i < |s| && Foreign(s[i])
    ensures IntOf(JStr(s)) == Err(ValueError)
  {
    ForeignInStrip(s, i);
    NoDigitsForm(s);
  }

  /** The foreign character is still there after `strip()`, so the stripped
      text has neither integer form. */
  lemma ForeignInStrip(s: string, i: nat)
    requires i < |s| && Foreign(s[i])
    ensures var t := Strip(s);
      && !WellFormedDigits(t)
      && (|t| > 0 && (t[0] == '+' || t[0] == '-') ==> !WellFormedDigits(t[1..]))
  {
    var x := StripKeepsSolid(s, i);
    ForeignUnparsed(Strip(s), x, s[i]);
  }

  /** A stripped text that is neither signed digits nor digits is not an
      integer. */
  lemma NoDigitsForm(s: string)
    requires var t := Strip(s);
      && !WellFormedDigits(t)
      && (|t| > 0 && (t[0] == '+' || t[0] == '-') ==> !WellFormedDigits(t[1..]))
    ensures ParseIntText(s).None?
  {
  }

  /** A character that is not whitespace survives `strip()`, shifted by
      the leading whitespace removed. */
  lemma StripKeepsSolid(s: string, i: nat) returns (x: nat)
    requires i < |s| && !IsSpace(s[i])
    ensures x < |Strip(s)| && Strip(s)[x] == s[i]
  {
    var l := TrimLeft(s);
    x := i - (|s| - |l|);
    LeftKeeps(s, i);
    assert l[x] == s[i];
    RightKeeps(l, x);
    var t := TrimRight(l);
    assert t[x] == s[i];
    assert Strip(s) == t;
  }

  lemma LeftKeeps(s: string, i: nat)
    requires i < |s| && !IsSpace(s[i])
    ensures var l := TrimLeft(s);
      |s| - |l| <= i && l[i - (|s| - |l|)] == s[i]
  {
    var l := TrimLeft(s);
    var k := |s| - |l|;
    assert l == s[k..];
  }

  lemma RightKeeps(l: string, x: nat)
    requires x < |l| && !IsSpace(l[x])
    ensures x < |TrimRight(l)| && TrimRight(l)[x] == l[x]
  {
    var t := TrimRight(l);
    assert t == l[..|t|];
  }

  /** Neither the signed nor the unsigned form admits a foreign character. */
  lemma ForeignUnparsed(t: string, x: int, c: char)
    requires 0 <= x < |t| && t[x] == c && Foreign(c)
    ensures !WellFormedDigits(t)
    ensures |t| > 0 && (t[0] == '+' || t[0] == '-') ==> !WellFormedDigits(t[1..])
  {
    if |t| > 0 && (t[0] == '+' || t[0] == '-') {
      assert t[1..][x - 1] == c;
    }
  }

  /** The decimal rendering of a natural number, as a model writes a score
      it puts in quotes. */
  function Decimal(n: nat): (d: string)
    decreases n
  {
    if n < 10 then ['0' + n as char] else Decimal(n / 10) + ['0' + (n % 10) as char]
  }

  lemma {:induction false} DecimalDigits(n: nat)
    ensures WellFormedDigits(Decimal(n)) && DigitsValue(Decimal(n)) == n
    decreases n
  {
    var d := Decimal(n);
    if n >= 10 {
      DecimalDigits(n / 10);
      assert d[..|d| - 1] == Decimal(n / 10);
    }
  }

  lemma StripDigits(d: string)
    requires WellFormedDigits(d)
    ensures Strip(d) == d
  {
    assert !IsSpace(d[0]) && !IsSpace(d[|d| - 1]);
    assert TrimLeft(d) == d;
  }

  /** A score the generator returns as a quoted decimal, with or without a
      minus sign, is coerced by `int()` to the number it spells. */
  lemma QuotedScoreCoerces(n: nat)
    ensures IntOf(JStr(Decimal(n))) == Ok(n)
    ensures IntOf(JStr("-" + Decimal(n))) == Ok(-(n as int))
  {
    var d := Decimal(n);
    DecimalDigits(n);
    StripDigits(d);
    var neg := "-" + d;
    NegativeStrips(d);
    assert neg[1..] == d;
  }

  lemma NegativeStrips(d: string)
    requires WellFormedDigits(d)
    ensures Strip("-" + d) == "-" + d
  {
    var neg := "-" + d;
    assert !IsSpace(neg[0]);
    assert TrimLeft(neg) == neg;
    assert !IsSpace(neg[|neg| - 1]);
    assert TrimRight(neg) == neg;
  }
}
