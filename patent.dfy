/** `run_patent_agent`: the patent landscape report for a plan, with its
    list fields normalised and a `freedom_to_operate` dict unwrapped to its
    `status`. */
module Patent {
  import opened Common
  import opened PyJson
  import opened GeminiClient
  import opened Normalizer
  import opened Stages

  const PatentChecklist: seq<string> := [
    "No legal claims made",
    "Freedom to operate matches evidence",
    "Expiry logic not overstated",
    "Risks clearly articulated"]

  /** The report fields normalised after extraction, in statement order. */
  const PatentLists: seq<string> := ["risks", "whitespace_opportunities"]

  const FtoKey: string := "freedom_to_operate"

  /** `freedom_to_operate` after the fix: a dict holding `status` is
      replaced by that status; anything else, and an absent key, stays. */
  function FtoFixed(m: map<string, Json>): map<string, Json> {
    var fto := Lookup(m, FtoKey, JNull);
    if fto.JObj? && "status" in fto.fields then m[FtoKey := fto.fields["status"]] else m
  }

  /** The unwrapping keeps every key and touches only `freedom_to_operate`. */
  lemma FtoEffect(m: map<string, Json>)
    ensures FtoFixed(m).Keys == m.Keys
    ensures forall k :: k in m && k != FtoKey ==> FtoFixed(m)[k] == m[k]
    ensures FtoKey in m && m[FtoKey].JObj? && "status" in m[FtoKey].fields ==>
      FtoFixed(m)[FtoKey] == m[FtoKey].fields["status"]
    ensures FtoKey in m && !(m[FtoKey].JObj? && "status" in m[FtoKey].fields) ==>
      FtoFixed(m)[FtoKey] == m[FtoKey]
  {
  }

  /** The statements of `run_patent_agent` after extraction. */
  function ReportNormalized(lib: Lib, report: Json): Result<Json> {
    if !report.JObj? then Err(AttributeError)
    else
      var m :- NormalizedFields(lib, report.fields, PatentLists);
      Ok(JObj(FtoFixed(m)))
  }

  /** Which report fields change: the two list fields hold their normalised
      prior value; `freedom_to_operate` is unwrapped exactly when it is a
      dict holding `status`, and otherwise keeps its value or stays absent;
      `key_patents`, `drug`, `indication` and every other key keep their
      value. It fails exactly when the report is not a dict
      (AttributeError) or a list field cannot be iterated (TypeError). */
  lemma ReportEffect(lib: Lib, report: Json)
    ensures var r := ReportNormalized(lib, report);
      && (!report.JObj? ==> r == Err(AttributeError))
      && (report.JObj? ==>
        && (r.Ok? <==> forall k :: k in PatentLists ==> NormalizedList(lib, Prior(report.fields, k)).Ok?)
        && (r.Err? ==> r.error == TypeError))
      && (r.Ok? ==>
        var before := report.fields;
        var after := r.value.fields;
        && r.value.JObj?
        && after.Keys == before.Keys + KeySet(PatentLists)
        && (forall k :: k in PatentLists ==>
              && NormalizedList(lib, Prior(before, k)).Ok?
              && after[k] == JArr(NormalizedList(lib, Prior(before, k)).value))
        && (forall k :: k in before && k !in PatentLists && k != FtoKey ==> after[k] == before[k])
        && (FtoKey in before && before[FtoKey].JObj? && "status" in before[FtoKey].fields ==>
              after[FtoKey] == before[FtoKey].fields["status"])
        && (FtoKey in before && !(before[FtoKey].JObj? && "status" in before[FtoKey].fields) ==>
              after[FtoKey] == before[FtoKey])
        && (FtoKey !in before ==> FtoKey !in after))
  {
    if report.JObj? {
      var before := report.fields;
      FieldsByKey(lib, before, PatentLists);
      assert FtoKey !in PatentLists;
      var lists := NormalizedFields(lib, before, PatentLists);
      if lists.Ok? {
        var after := FtoFixed(lists.value);
        FtoEffect(lists.value);
        assert ReportNormalized(lib, report) == Ok(JObj(after));
        forall k | k in PatentLists
          ensures after[k] == JArr(NormalizedList(lib, Prior(before, k)).value)
        {
          assert after[k] == lists.value[k];
        }
        forall k | k in before && k !in PatentLists && k != FtoKey
          ensures after[k] == before[k]
        {
          assert after[k] == lists.value[k];
        }
      }
    }
  }

  /** What `run_patent_agent(plan)` did, read off the calls it appended:
      the patent call at temperature 0.2 on the plan's JSON dump, one
      refine with the patent checklist, extraction of the refined text,
      then the report normalisation; the first error raised is the result. */
  predicate PatentStage(lib: Lib, prompts: Prompts, plan: Json, calls: seq<Call>, r: Result<Json>) {
    && RefinedDraft(lib, prompts.validator, calls, prompts.patent, lib.dumps(plan), T02, PatentChecklist)
    && r == (var e := ExtractedReply(lib.parse, calls[|calls| - 1]);
             if e.Err? then Err(e.error) else ReportNormalized(lib, e.value))
  }

  /** A stage that returned its report made exactly its two calls. */
  lemma PatentStageLength(lib: Lib, prompts: Prompts, plan: Json, calls: seq<Call>, r: Result<Json>)
    requires PatentStage(lib, prompts, plan, calls, r) && r.Ok?
    ensures |calls| == 2
  {
    DraftLength(lib, prompts.validator, calls, prompts.patent, lib.dumps(plan), T02, PatentChecklist);
  }

  /** `run_patent_agent(plan)`. */
  method RunPatentAgent(lib: Lib, prompts: Prompts, cfg: Config, net: Net, plan: Json)
    returns (r: Result<Json>, net': Net)
    ensures Extends(net, net')
    ensures PatentStage(lib, prompts, plan, net'.calls[|net.calls|..], r)
  {
    var report;
    report, net' := Draft(lib, cfg, net, prompts.validator, prompts.patent, lib.dumps(plan), T02, PatentChecklist);
    ghost var calls := net'.calls[|net.calls|..];
    assert calls[|calls| - 1] == net'.calls[|net'.calls| - 1];
    if report.Err? {
      return Err(report.error), net';
    }
    if !report.value.JObj? {
      return Err(AttributeError), net';
    }
    var m0 := report.value.fields;
    var m1 :- NormalizeField(lib, m0, "risks");
    var m2 :- NormalizeField(lib, m1, "whitespace_opportunities");
    assert NormalizedFields(lib, m1, ["whitespace_opportunities"]) == Ok(m2);
    var m := m2;
    var fto := Lookup(m, FtoKey, JNull);
    if fto.JObj? && "status" in fto.fields {
      m := m[FtoKey := fto.fields["status"]];
    }
    r := Ok(JObj(m));
  }
}
