/** The master agent: `master_plan` turns the query into an investigation
    plan, `master_synthesis` merges the three reports into the final
    assessment. */
module Master {
  import opened Common
  import opened PyJson
  import opened GeminiClient
  import opened JsonSanitizer
  import opened Normalizer
  import opened Stages

  const PlanChecklist: seq<string> := [
    "At least one clinical task exists",
    "At least one patent task exists",
    "Tasks are answerable using public data",
    "No market or financial analysis"]

  /** The plan fields normalised after extraction, in statement order. */
  const PlanLists: seq<string> := ["objectives", "assumptions", "constraints", "required_sources"]

  /** The synthesis fields normalised after extraction, in statement order. */
  const SynthesisLists: seq<string> :=
    ["aligned_signals", "key_risks", "recommended_next_steps", "explicit_limitations", "contradictions"]

  const ScoreKey: string := "hypothesis_strength_score"

  /** Appended to the synthesis instructions for the one regeneration. */
  const StrictSuffix: string := "\n\nIMPORTANT: Output ONLY raw JSON. No text."

  function QueryPrompt(query: string): string {
    "Query: " + query
  }

  // ---------------------------------------------------------------------
  // master_plan

  /** The normalisation statements of `master_plan` applied to the
      extracted plan; `.get` on anything but a dict raises AttributeError. */
  function PlanNormalized(lib: Lib, plan: Json): Result<Json> {
    if !plan.JObj? then Err(AttributeError)
    else
      var m :- NormalizedFields(lib, plan.fields, PlanLists);
      Ok(JObj(m))
  }

  /** Which plan fields change: the four list fields hold their normalised
      prior value (`[]` when absent), and `drug`, `indication`, `tasks` and
      every other key keep their value. It fails exactly when the plan is
      not a dict (AttributeError) or one of the four holds a value that
      cannot be iterated (TypeError). */
  lemma PlanEffect(lib: Lib, plan: Json)
    ensures var r := PlanNormalized(lib, plan);
      && (!plan.JObj? ==> r == Err(AttributeError))
      && (plan.JObj? ==>
        && (r.Ok? <==> forall k :: k in PlanLists ==> NormalizedList(lib, Prior(plan.fields, k)).Ok?)
        && (r.Err? ==> r.error == TypeError))
      && (r.Ok? ==>
        && r.value.JObj?
        && r.value.fields.Keys == plan.fields.Keys + KeySet(PlanLists)
        && (forall k :: k in PlanLists ==>
              r.value.fields[k] == JArr(NormalizedList(lib, Prior(plan.fields, k)).value))
        && (forall k :: k in plan.fields && k !in PlanLists ==> r.value.fields[k] == plan.fields[k]))
  {
    if plan.JObj? {
      FieldsByKey(lib, plan.fields, PlanLists);
    }
  }

  /** What `master_plan(query)` did, read off the calls it appended: the
      planner call at temperature 0.3 on "Query: " + query, one refine of
      its answer, extraction of the refined text, then the plan
      normalisation; the first error raised is the result. */
  predicate PlanStage(lib: Lib, prompts: Prompts, query: string, calls: seq<Call>, r: Result<Json>) {
    && RefinedDraft(lib, prompts.validator, calls, prompts.planner, QueryPrompt(query), T03, PlanChecklist)
    && r == (var e := ExtractedReply(lib.parse, calls[|calls| - 1]);
             if e.Err? then Err(e.error) else PlanNormalized(lib, e.value))
  }

  /** A stage that returned its report made exactly its two calls. */
  lemma PlanStageLength(lib: Lib, prompts: Prompts, query: string, calls: seq<Call>, r: Result<Json>)
    requires PlanStage(lib, prompts, query, calls, r) && r.Ok?
    ensures |calls| == 2
  {
    DraftLength(lib, prompts.validator, calls, prompts.planner, QueryPrompt(query), T03, PlanChecklist);
  }

  /** `master_plan(query)`. */
  method MasterPlan(lib: Lib, prompts: Prompts, cfg: Config, net: Net, query: string)
    returns (r: Result<Json>, net': Net)
    ensures Extends(net, net')
    ensures PlanStage(lib, prompts, query, net'.calls[|net.calls|..], r)
  {
    var plan;
    plan, net' := Draft(lib, cfg, net, prompts.validator, prompts.planner, QueryPrompt(query), T03, PlanChecklist);
    ghost var calls := net'.calls[|net.calls|..];
    assert calls[|calls| - 1] == net'.calls[|net'.calls| - 1];
    if plan.Err? {
      return Err(plan.error), net';
    }
    r := NormalizePlan(lib, plan.value);
  }

  /** The normalisation statements of `master_plan`, in place on the
      extracted plan. */
  method NormalizePlan(lib: Lib, plan: Json) returns (r: Result<Json>)
    ensures r == PlanNormalized(lib, plan)
  {
    if !plan.JObj? {
      return Err(AttributeError);
    }
    var m0 := plan.fields;
    var m1 :- NormalizeField(lib, m0, "objectives");
    var m2 :- NormalizeField(lib, m1, "assumptions");
    var m3 :- NormalizeField(lib, m2, "constraints");
    var m4 :- NormalizeField(lib, m3, "required_sources");
    assert NormalizedFields(lib, m3, ["required_sources"]) == Ok(m4);
    assert NormalizedFields(lib, m2, ["constraints", "required_sources"]) == Ok(m4);
    assert NormalizedFields(lib, m1, ["assumptions", "constraints", "required_sources"]) == Ok(m4);
    r := Ok(JObj(m4));
  }

  // ---------------------------------------------------------------------
  // master_synthesis

  /** The user prompt of both synthesis calls: the three reports dumped
      together under the keys `plan`, `clinical` and `patent`. */
  function SynthesisInput(lib: Lib, plan: Json, clinical: Json, patent: Json): string {
    lib.dumps(JObj(map["plan" := plan, "clinical" := clinical, "patent" := patent]))
  }

  /** The statements of `master_synthesis` after extraction: the five list
      fields are normalised, then the score is coerced. */
  function SynthesisNormalized(lib: Lib, synthesis: Json): Result<Json> {
    if !synthesis.JObj? then Err(AttributeError)
    else
      var m :- NormalizedFields(lib, synthesis.fields, SynthesisLists);
      var m' :- ScoreCoerced(lib, m);
      Ok(JObj(m'))
  }

  /** The score statements: its `value` is replaced by `int(value)`, then
      its `rationale` is normalised. */
  function ScoreCoerced(lib: Lib, m: map<string, Json>): Result<map<string, Json>> {
    var score :- Index(JObj(m), ScoreKey);
    var value :- Index(score, "value");
    var n :- IntOf(value);
    var scored := score.fields["value" := JInt(n)];
    var rationale :- NormalizedField(lib, scored, "rationale");
    Ok(m[ScoreKey := JObj(rationale)])
  }

  /** The score coercion and its failures: a missing score or a missing
      `value` raises KeyError, a score that is not a dict raises TypeError,
      a value `int()` rejects raises its error, and otherwise the score
      holds the integer and the normalised rationale, its other keys
      unchanged, and nothing outside the score changes. */
  lemma ScoreEffect(lib: Lib, m: map<string, Json>)
    ensures var r := ScoreCoerced(lib, m);
      && (ScoreKey !in m ==> r == Err(KeyError))
      && (ScoreKey in m && !m[ScoreKey].JObj? ==> r == Err(TypeError))
      && (ScoreKey in m && m[ScoreKey].JObj? && "value" !in m[ScoreKey].fields ==> r == Err(KeyError))
      && (ScoreKey in m && m[ScoreKey].JObj? && "value" in m[ScoreKey].fields ==>
            var score := m[ScoreKey].fields;
            var n := IntOf(score["value"]);
            && (n.Err? ==> r == Err(n.error))
            && (n.Ok? ==>
                  var rationale := NormalizedList(lib, Prior(score, "rationale"));
                  && (rationale.Err? ==> r == Err(TypeError))
                  && (rationale.Ok? ==>
                        r == Ok(m[ScoreKey := JObj(score["value" := JInt(n.value)]["rationale" := JArr(rationale.value)])]))))
  {
    if ScoreKey in m && m[ScoreKey].JObj? && "value" in m[ScoreKey].fields {
      var score := m[ScoreKey].fields;
      var n := IntOf(score["value"]);
      if n.Ok? {
        assert Prior(score["value" := JInt(n.value)], "rationale") == Prior(score, "rationale");
        FailsOnlyOnScalars(lib, Prior(score, "rationale"));
      }
    }
  }

  /** The other synthesis fields: the five lists hold their normalised prior
      value, every key but the score keeps its value, and a synthesis that
      is not a dict raises AttributeError. */
  lemma SynthesisEffect(lib: Lib, synthesis: Json)
    ensures var r := SynthesisNormalized(lib, synthesis);
      && (!synthesis.JObj? ==> r == Err(AttributeError))
      && (synthesis.JObj? && NormalizedFields(lib, synthesis.fields, SynthesisLists).Err? ==>
            r == Err(TypeError))
      && (r.Ok? ==>
        && synthesis.JObj? && r.value.JObj?
        && r.value.fields.Keys == synthesis.fields.Keys + KeySet(SynthesisLists)
        && (forall k :: k in SynthesisLists ==>
              && NormalizedList(lib, Prior(synthesis.fields, k)).Ok?
              && r.value.fields[k] == JArr(NormalizedList(lib, Prior(synthesis.fields, k)).value))
        && (forall k :: k in synthesis.fields && k !in SynthesisLists && k != ScoreKey ==>
              r.value.fields[k] == synthesis.fields[k]))
  {
    if synthesis.JObj? {
      var before := synthesis.fields;
      FieldsByKey(lib, before, SynthesisLists);
      var lists := NormalizedFields(lib, before, SynthesisLists);
      if lists.Ok? {
        var scored := ScoreCoerced(lib, lists.value);
        ScoreOnly(lib, lists.value);
        if scored.Ok? {
          var after := scored.value;
          assert SynthesisNormalized(lib, synthesis) == Ok(JObj(after));
          assert ScoreKey !in SynthesisLists;
          forall k | k in SynthesisLists
            ensures after[k] == JArr(NormalizedList(lib, Prior(before, k)).value)
          {
            assert after[k] == lists.value[k];
          }
          forall k | k in before && k !in SynthesisLists && k != ScoreKey
            ensures after[k] == before[k]
          {
            assert after[k] == lists.value[k];
          }
        }
      }
    }
  }

  /** The score statements touch no key but the score. */
  lemma ScoreOnly(lib: Lib, m: map<string, Json>)
    ensures var r := ScoreCoerced(lib, m);
      r.Ok? ==> r.value.Keys == m.Keys && forall k :: k in m && k != ScoreKey ==> r.value[k] == m[k]
  {
  }

  /** A score the generator wrote as a quoted decimal ends up as that
      integer. */
  lemma QuotedScore(lib: Lib, m: map<string, Json>, score: map<string, Json>, n: nat)
    requires ScoreKey in m && m[ScoreKey] == JObj(score)
    requires "value" in score && score["value"] == JStr(Decimal(n))
    requires NormalizedList(lib, Prior(score, "rationale")).Ok?
    ensures var r := ScoreCoerced(lib, m);
      r.Ok? && r.value[ScoreKey].fields["value"] == JInt(n)
  {
    ScoreEffect(lib, m);
    QuotedScoreCoerces(n);
  }

  /** The normalisation statements of `master_synthesis`, in place on the
      extracted value. */
  method NormalizeSynthesis(lib: Lib, synthesis: Json) returns (r: Result<Json>)
    ensures r == SynthesisNormalized(lib, synthesis)
  {
    if !synthesis.JObj? {
      return Err(AttributeError);
    }
    var m0 := synthesis.fields;
    var m1 :- NormalizeField(lib, m0, "aligned_signals");
    var m2 :- NormalizeField(lib, m1, "key_risks");
    var m3 :- NormalizeField(lib, m2, "recommended_next_steps");
    var m4 :- NormalizeField(lib, m3, "explicit_limitations");
    var m5 :- NormalizeField(lib, m4, "contradictions");
    assert NormalizedFields(lib, m4, ["contradictions"]) == Ok(m5);
    assert NormalizedFields(lib, m3, ["explicit_limitations", "contradictions"]) == Ok(m5);
    assert NormalizedFields(lib, m2, ["recommended_next_steps", "explicit_limitations", "contradictions"]) == Ok(m5);
    assert NormalizedFields(lib, m1, SynthesisLists[1..]) == Ok(m5);
    var m6 :- CoerceScore(lib, m5);
    r := Ok(JObj(m6));
  }

  /** The score statements of `master_synthesis`, in place. */
  method CoerceScore(lib: Lib, m: map<string, Json>) returns (r: Result<map<string, Json>>)
    ensures r == ScoreCoerced(lib, m)
  {
    var score :- Index(JObj(m), ScoreKey);
    var value :- Index(score, "value");
    var n :- IntOf(value);
    var scored := score.fields["value" := JInt(n)];
    var m' := m[ScoreKey := JObj(scored)];
    var rationale :- NormalizeField(lib, scored, "rationale");
    m' := m'[ScoreKey := JObj(rationale)];
    assert m' == m[ScoreKey := JObj(rationale)];
    r := Ok(m');
  }

  /** What `master_synthesis(plan, clinical, patent)` did, read off the
      calls it appended: the synthesis call at temperature 0.25; when its
      text cannot be extracted, exactly one more call with the strict
      instructions at temperature 0.1, and no other call; the result is the
      normalisation of the last text extracted, or the first error. */
  predicate SynthesisStage(lib: Lib, prompts: Prompts, plan: Json, clinical: Json, patent: Json,
                           calls: seq<Call>, r: Result<Json>)
  {
    var user := SynthesisInput(lib, plan, clinical, patent);
    && 1 <= |calls| <= 2
    && calls[0].system == prompts.synthesis && calls[0].user == user && calls[0].temperature == T025
    && (|calls| == 2 <==> calls[0].reply.Ok? && Extracted(lib.parse, calls[0].reply.value).Err?)
    && (|calls| == 2 ==>
          calls[1].system == prompts.synthesis + StrictSuffix && calls[1].user == user &&
          calls[1].temperature == T01)
    && r == (var e := ExtractedReply(lib.parse, calls[|calls| - 1]);
             if e.Err? then Err(e.error) else SynthesisNormalized(lib, e.value))
  }

  /** `master_synthesis(plan, clinical, patent)`. */
  method MasterSynthesis(lib: Lib, prompts: Prompts, cfg: Config, net: Net,
                         plan: Json, clinical: Json, patent: Json)
    returns (r: Result<Json>, net': Net)
    ensures Extends(net, net')
    ensures SynthesisStage(lib, prompts, plan, clinical, patent, net'.calls[|net.calls|..], r)
  {
    var user := SynthesisInput(lib, plan, clinical, patent);
    var raw;
    raw, net' := CallGemini(cfg, net, prompts.synthesis, user, T025, DefaultMaxTokens);
    assert net'.calls[|net.calls|..] == [Call(prompts.synthesis, user, T025, raw)];
    if raw.Err? {
      return Err(raw.error), net';
    }
    var synthesis := SafeJsonLoad(lib.parse, raw.value);
    if synthesis.Err? {
      var net1 := net';
      var retry;
      retry, net' := CallGemini(cfg, net1, prompts.synthesis + StrictSuffix, user, T01, DefaultMaxTokens);
      ExtendsTransitive(net, net1, net');
      assert net'.calls[|net.calls|..] ==
        [Call(prompts.synthesis, user, T025, raw), Call(prompts.synthesis + StrictSuffix, user, T01, retry)];
      if retry.Err? {
        return Err(retry.error), net';
      }
      synthesis := SafeJsonLoad(lib.parse, retry.value);
      if synthesis.Err? {
        return Err(synthesis.error), net';
      }
    }
    r := NormalizeSynthesis(lib, synthesis.value);
  }
}
