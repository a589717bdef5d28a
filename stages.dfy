/** What the planning, clinical and patent stages share: their role
    instructions, the statement `d[key] = normalize_list(d.get(key, []))`
    that each applies to its list fields, and the chain generate → refine →
    extract they run to obtain their report. */
module Stages {
  import opened Common
  import opened PyJson
  import opened GeminiClient
  import opened JsonSanitizer
  import opened Normalizer
  import opened Refiner

  /** The role instructions of each stage; their wording is not modelled. */
  datatype Prompts = Prompts(
    planner: string,
    synthesis: string,
    clinical: string,
    patent: string,
    validator: string)

  /** The prior value of `key`, or `[]` when it is absent. */
  function Prior(m: map<string, Json>, key: string): Json {
    Lookup(m, key, JArr([]))
  }

  /** `d[key] = normalize_list(d.get(key, []))` on a dict `d`. */
  function NormalizedField(lib: Lib, m: map<string, Json>, key: string): Result<map<string, Json>> {
    var xs :- NormalizedList(lib, Prior(m, key));
    Ok(m[key := JArr(xs)])
  }

  method NormalizeField(lib: Lib, m: map<string, Json>, key: string) returns (r: Result<map<string, Json>>)
    ensures r == NormalizedField(lib, m, key)
  {
    var xs := NormalizeList(lib, Prior(m, key));
    if xs.Err? {
      return Err(xs.error);
    }
    r := Ok(m[key := JArr(xs.value)]);
  }

  /** Such statements for `keys`, one after another. */
  function NormalizedFields(lib: Lib, m: map<string, Json>, keys: seq<string>): Result<map<string, Json>>
    decreases |keys|
  {
    if keys == [] then Ok(m)
    else
      var m' :- NormalizedField(lib, m, keys[0]);
      NormalizedFields(lib, m', keys[1..])
  }

  function KeySet(keys: seq<string>): set<string> {
    set k | k in keys
  }

  predicate Distinct(keys: seq<string>) {
    forall i, j :: 0 <= i < j < |keys| ==> keys[i] != keys[j]
  }

  /** The field normalisation both ways round: it succeeds exactly when the
      prior value of every named key can be iterated (TypeError otherwise);
      then every named key holds its normalised prior value, an absent one
      is added, and every other key keeps its value. */
  lemma FieldsEffect(lib: Lib, m: map<string, Json>, keys: seq<string>)
    requires Distinct(keys)
    ensures var r := NormalizedFields(lib, m, keys);
      && (r.Ok? <==> forall i :: 0 <= i < |keys| ==> NormalizedList(lib, Prior(m, keys[i])).Ok?)
      && (r.Err? ==> r.error == TypeError)
      && (r.Ok? ==>
        && r.value.Keys == m.Keys + KeySet(keys)
        && (forall i :: 0 <= i < |keys| ==>
              r.value[keys[i]] == JArr(NormalizedList(lib, Prior(m, keys[i])).value))
        && (forall k :: k in m && k !in keys ==> r.value[k] == m[k]))
  {
    FieldsSucceed(lib, m, keys);
    FieldsKeys(lib, m, keys);
    FieldsValues(lib, m, keys);
  }

  /** `FieldsEffect` with the keys quantified by membership. */
  lemma FieldsByKey(lib: Lib, m: map<string, Json>, keys: seq<string>)
    requires Distinct(keys)
    ensures var r := NormalizedFields(lib, m, keys);
      && (r.Ok? <==> forall k :: k in keys ==> NormalizedList(lib, Prior(m, k)).Ok?)
      && (r.Err? ==> r.error == TypeError)
      && (r.Ok? ==>
        && r.value.Keys == m.Keys + KeySet(keys)
        && (forall k :: k in keys ==>
              && NormalizedList(lib, Prior(m, k)).Ok?
              && r.value[k] == JArr(NormalizedList(lib, Prior(m, k)).value))
        && (forall k :: k in m && k !in keys ==> r.value[k] == m[k]))
  {
    FieldsEffect(lib, m, keys);
    assert forall k :: k in keys ==> exists i :: 0 <= i < |keys| && keys[i] == k;
  }

  /** Normalising `keys[0]` leaves the prior values of the other keys. */
  lemma PriorsKept(lib: Lib, m: map<string, Json>, keys: seq<string>)
    requires Distinct(keys) && keys != [] && NormalizedField(lib, m, keys[0]).Ok?
    ensures Distinct(keys[1..])
    ensures forall i :: 1 <= i < |keys| ==>
      Prior(NormalizedField(lib, m, keys[0]).value, keys[i]) == Prior(m, keys[i])
  {
  }

  lemma {:induction false} FieldsSucceed(lib: Lib, m: map<string, Json>, keys: seq<string>)
    requires Distinct(keys)
    ensures var r := NormalizedFields(lib, m, keys);
      && (r.Ok? <==> forall i :: 0 <= i < |keys| ==> NormalizedList(lib, Prior(m, keys[i])).Ok?)
      && (r.Err? ==> r.error == TypeError)
    decreases |keys|
  {
    if keys != [] {
      FailsOnlyOnScalars(lib, Prior(m, keys[0]));
      var first := NormalizedField(lib, m, keys[0]);
      if first.Ok? {
        PriorsKept(lib, m, keys);
        FieldsSucceed(lib, first.value, keys[1..]);
        assert forall i :: 1 <= i < |keys| ==> keys[i] == keys[1..][i - 1];
      }
    }
  }

  lemma {:induction false} FieldsKeys(lib: Lib, m: map<string, Json>, keys: seq<string>)
    ensures var r := NormalizedFields(lib, m, keys);
      r.Ok? ==>
        && r.value.Keys == m.Keys + KeySet(keys)
        && (forall k :: k in m && k !in keys ==> r.value[k] == m[k])
    decreases |keys|
  {
    if keys != [] {
      var first := NormalizedField(lib, m, keys[0]);
      if first.Ok? {
        FieldsKeys(lib, first.value, keys[1..]);
        assert KeySet(keys) == {keys[0]} + KeySet(keys[1..]);
        assert forall k :: k in keys && k != keys[0] ==> k in keys[1..];
      }
    }
  }

  lemma {:induction false} FieldsValues(lib: Lib, m: map<string, Json>, keys: seq<string>)
    requires Distinct(keys)
    ensures var r := NormalizedFields(lib, m, keys);
      r.Ok? ==> forall i :: 0 <= i < |keys| ==>
        && keys[i] in r.value
        && NormalizedList(lib, Prior(m, keys[i])).Ok?
        && r.value[keys[i]] == JArr(NormalizedList(lib, Prior(m, keys[i])).value)
    decreases |keys|
  {
    FieldsSucceed(lib, m, keys);
    FieldsKeys(lib, m, keys);
    if keys != [] {
      var first := NormalizedField(lib, m, keys[0]);
      if first.Ok? {
        PriorsKept(lib, m, keys);
        FieldsValues(lib, first.value, keys[1..]);
        FieldsKeys(lib, first.value, keys[1..]);
        assert forall i :: 1 <= i < |keys| ==> keys[i] == keys[1..][i - 1];
        assert keys[0] !in keys[1..];
      }
    }
  }

  /** A call's reply handed to `safe_json_load`, or the error the call
      raised. */
  function ExtractedReply(parse: string -> Option<Json>, c: Call): Result<Json> {
    if c.reply.Err? then Err(c.reply.error) else Extracted(parse, c.reply.value)
  }

  /** The calls a stage appended to the log: its own generation call with
      the given instructions, input and temperature; if that returned text,
      exactly one refine call on that text; nothing more. */
  predicate RefinedDraft(lib: Lib, validator: string, calls: seq<Call>,
                         system: string, user: string, temp: Temp, checklist: seq<string>)
  {
    && 1 <= |calls| <= 2
    && calls[0].system == system && calls[0].user == user && calls[0].temperature == temp
    && (|calls| == 2 <==> calls[0].reply.Ok?)
    && (|calls| == 2 ==>
          && calls[1].system == validator
          && calls[1].user == RefinePrompt(lib, calls[0].reply.value, checklist)
          && calls[1].temperature == T01)
  }

  /** A chain whose extraction succeeded made both of its calls. */
  lemma DraftLength(lib: Lib, validator: string, calls: seq<Call>,
                    system: string, user: string, temp: Temp, checklist: seq<string>)
    requires RefinedDraft(lib, validator, calls, system, user, temp, checklist)
    requires ExtractedReply(lib.parse, calls[|calls| - 1]).Ok?
    ensures |calls| == 2
  {
  }

  /** generate → refine → extract: the extraction runs on the refined text,
      never on the first draft, and any error propagates. */
  method Draft(lib: Lib, cfg: Config, net: Net, validator: string,
               system: string, user: string, temp: Temp, checklist: seq<string>)
    returns (r: Result<Json>, net': Net)
    ensures Extends(net, net')
    ensures RefinedDraft(lib, validator, net'.calls[|net.calls|..], system, user, temp, checklist)
    ensures r == ExtractedReply(lib.parse, net'.calls[|net'.calls| - 1])
  {
    var raw;
    raw, net' := CallGemini(cfg, net, system, user, temp, DefaultMaxTokens);
    assert net'.calls[|net.calls|..] == [Call(system, user, temp, raw)];
    if raw.Err? {
      return Err(raw.error), net';
    }
    var net1 := net';
    var refined;
    refined, net' := RefineWithTrm(lib, cfg, net1, validator, raw.value, checklist);
    ExtendsTransitive(net, net1, net');
    assert net'.calls[|net.calls|..] ==
      [Call(system, user, temp, raw), Call(validator, RefinePrompt(lib, raw.value, checklist), T01, refined)];
    if refined.Err? {
      return Err(refined.error), net';
    }
    r := SafeJsonLoad(lib.parse, refined.value);
  }
}
