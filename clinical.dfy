/** `run_clinical_agent`: the clinical evidence report for a plan, with its
    `confidence_notes` and every evidence item's `limitations` normalised. */
module Clinical {
  import opened Common
  import opened PyJson
  import opened GeminiClient
  import opened Normalizer
  import opened Stages

  const ClinicalChecklist: seq<string> := [
    "Every evidence item has a source_id",
    "Claims are conservative",
    "Limitations are explicitly stated",
    "No overstated conclusions"]

  /** `ev["limitations"] = normalize_list(ev.get("limitations", []))` for
      one visited item; only a dict has `.get`. */
  function EvidenceNormalized(lib: Lib, ev: Json): Result<Json> {
    if !ev.JObj? then Err(AttributeError)
    else
      var f :- NormalizedField(lib, ev.fields, "limitations");
      Ok(JObj(f))
  }

  /** The loop over the visited items, in order; the first failure stops
      it. */
  function EachNormalized(lib: Lib, evs: seq<Json>): Result<seq<Json>>
    decreases |evs|
  {
    if evs == [] then Ok([])
    else
      var done :- EachNormalized(lib, evs[..|evs| - 1]);
      var last :- EvidenceNormalized(lib, evs[|evs| - 1]);
      Ok(done + [last])
  }

  /** The statements of `run_clinical_agent` after extraction. Iterating a
      missing `evidence` visits the default `[]`, which is not stored;
      iterating an `evidence` string or dict visits its characters or keys,
      which have no `.get`. */
  function ReportNormalized(lib: Lib, report: Json): Result<Json> {
    if !report.JObj? then Err(AttributeError)
    else
      var m :- NormalizedField(lib, report.fields, "confidence_notes");
      var visited :- IterItems(lib, Lookup(m, "evidence", JArr([])));
      var updated :- EachNormalized(lib, visited);
      Ok(JObj(if "evidence" in m && m["evidence"].JArr? then m["evidence" := JArr(updated)] else m))
  }

  /** The loop over evidence both ways round: it succeeds exactly when every
      item is a dict whose `limitations` can be normalised; then it keeps
      the length and order and each item's only change is its
      `limitations`; otherwise the error is that of the first item that
      fails. */
  lemma {:induction false} EachEffect(lib: Lib, evs: seq<Json>)
    ensures var r := EachNormalized(lib, evs);
      && (r.Ok? <==> forall i :: 0 <= i < |evs| ==> EvidenceNormalized(lib, evs[i]).Ok?)
      && (r.Ok? ==>
            && |r.value| == |evs|
            && forall i :: 0 <= i < |evs| ==> r.value[i] == EvidenceNormalized(lib, evs[i]).value)
      && (r.Err? ==>
            exists i :: 0 <= i < |evs| && FirstFailure(lib, evs, i) && EvidenceNormalized(lib, evs[i]) == Err(r.error))
    decreases |evs|
  {
    if evs != [] {
      var init := evs[..|evs| - 1];
      EachEffect(lib, init);
      assert forall i :: 0 <= i < |init| ==> init[i] == evs[i];
      var done := EachNormalized(lib, init);
      if done.Err? {
        var i :| 0 <= i < |init| && FirstFailure(lib, init, i) &&
          EvidenceNormalized(lib, init[i]) == Err(done.error);
        assert FirstFailure(lib, evs, i);
      } else if EvidenceNormalized(lib, evs[|evs| - 1]).Err? {
        assert FirstFailure(lib, evs, |evs| - 1);
      }
    }
  }

  /** Item `i` is the first one the loop cannot update. */
  predicate FirstFailure(lib: Lib, evs: seq<Json>, i: int)
    requires 0 <= i < |evs|
  {
    EvidenceNormalized(lib, evs[i]).Err? &&
    forall j :: 0 <= j < i ==> EvidenceNormalized(lib, evs[j]).Ok?
  }

  /** One item's update: `limitations` holds its normalised prior value
      (`[]` when absent) and every other key is unchanged; an item that is
      not a dict raises AttributeError. */
  lemma EvidenceEffect(lib: Lib, ev: Json)
    ensures var r := EvidenceNormalized(lib, ev);
      && (!ev.JObj? ==> r == Err(AttributeError))
      && (ev.JObj? ==> (r.Ok? <==> NormalizedList(lib, Prior(ev.fields, "limitations")).Ok?))
      && (r.Ok? ==>
        && ev.JObj? && r.value.JObj?
        && r.value.fields.Keys == ev.fields.Keys + {"limitations"}
        && r.value.fields["limitations"] == JArr(NormalizedList(lib, Prior(ev.fields, "limitations")).value)
        && (forall k :: k in ev.fields && k != "limitations" ==> r.value.fields[k] == ev.fields[k]))
  {
  }

  /** When the stage succeeds and which error it raises: it succeeds
      exactly when `confidence_notes` normalises, iterating `evidence`
      succeeds, and every item visited can be updated; otherwise the error
      is that of the first of these steps to fail. Which report fields
      change: `confidence_notes` holds its normalised prior value, an
      `evidence` list keeps its length and order with each item updated,
      and `drug`, `indication`, `overall_signal` and every other key keep
      their value. */
  lemma ReportEffect(lib: Lib, report: map<string, Json>)
    ensures var r := ReportNormalized(lib, JObj(report));
      var notes := NormalizedList(lib, Prior(report, "confidence_notes"));
      var visited := IterItems(lib, Lookup(report, "evidence", JArr([])));
      && (r.Ok? <==> notes.Ok? && visited.Ok? && EachNormalized(lib, visited.value).Ok?)
      && (r.Err? ==>
            r.error == (if notes.Err? then notes.error
                        else if visited.Err? then visited.error
                        else EachNormalized(lib, visited.value).error))
    ensures var r := ReportNormalized(lib, JObj(report));
      r.Ok? ==>
        && r.value.JObj?
        && r.value.fields.Keys == report.Keys + {"confidence_notes"}
        && NormalizedList(lib, Prior(report, "confidence_notes")).Ok?
        && r.value.fields["confidence_notes"] == JArr(NormalizedList(lib, Prior(report, "confidence_notes")).value)
        && (forall k :: k in report && k != "confidence_notes" && k != "evidence" ==>
              r.value.fields[k] == report[k])
        && ("evidence" in report && report["evidence"].JArr? ==>
              var evs := report["evidence"].items;
              && r.value.fields["evidence"].JArr?
              && |r.value.fields["evidence"].items| == |evs|
              && forall i :: 0 <= i < |evs| ==>
                   && EvidenceNormalized(lib, evs[i]).Ok?
                   && r.value.fields["evidence"].items[i] == EvidenceNormalized(lib, evs[i]).value)
        && (!("evidence" in report && report["evidence"].JArr?) ==>
              "evidence" in report ==> r.value.fields["evidence"] == report["evidence"])
  {
    var m := NormalizedField(lib, report, "confidence_notes");
    if m.Ok? {
      assert Lookup(m.value, "evidence", JArr([])) == Lookup(report, "evidence", JArr([]));
      var visited := IterItems(lib, Lookup(m.value, "evidence", JArr([])));
      if visited.Ok? {
        EachEffect(lib, visited.value);
      }
    }
  }

  /** An evidence item that is not a dict, or an `evidence` value that is a
      non-empty string, stops the stage with AttributeError; an `evidence`
      that is None or a number stops it with TypeError. */
  lemma EvidenceFailures(lib: Lib, report: map<string, Json>, i: nat)
    requires NormalizedField(lib, report, "confidence_notes").Ok?
    requires "evidence" in report
    ensures var ev := report["evidence"];
      && (ev.JNull? || ev.JBool? || ev.JInt? || ev.JFloat? ==>
            ReportNormalized(lib, JObj(report)) == Err(TypeError))
      && (ev.JStr? && ev.s != [] ==>
            ReportNormalized(lib, JObj(report)) == Err(AttributeError))
      && (ev.JArr? && i < |ev.items| && !ev.items[i].JObj? &&
          (forall j :: 0 <= j < i ==> EvidenceNormalized(lib, ev.items[j]).Ok?) ==>
            ReportNormalized(lib, JObj(report)) == Err(AttributeError))
  {
    var m := NormalizedField(lib, report, "confidence_notes").value;
    assert m["evidence"] == report["evidence"];
    var ev := report["evidence"];
    if ev.JStr? && ev.s != [] {
      EachEffect(lib, IterItems(lib, ev).value);
      assert FirstFailure(lib, IterItems(lib, ev).value, 0);
    }
    if ev.JArr? && i < |ev.items| && !ev.items[i].JObj? &&
       (forall j :: 0 <= j < i ==> EvidenceNormalized(lib, ev.items[j]).Ok?) {
      EachEffect(lib, ev.items);
      assert FirstFailure(lib, ev.items, i);
    }
  }

  /** An `evidence` dict is iterated over its keys, which are strings with
      no `.get`: an empty one leaves the report as the normalisation of
      `confidence_notes` made it, and any other raises AttributeError. */
  lemma EvidenceDict(lib: Lib, report: map<string, Json>)
    requires ValidLib(lib)
    requires NormalizedField(lib, report, "confidence_notes").Ok?
    requires "evidence" in report && report["evidence"].JObj?
    ensures report["evidence"].fields == map[] ==>
      ReportNormalized(lib, JObj(report)) == Ok(JObj(NormalizedField(lib, report, "confidence_notes").value))
    ensures report["evidence"].fields != map[] ==>
      ReportNormalized(lib, JObj(report)) == Err(AttributeError)
  {
    var m := NormalizedField(lib, report, "confidence_notes").value;
    assert m["evidence"] == report["evidence"];
    var ev := report["evidence"];
    DictIteration(lib, ev.fields);
    var visited := IterItems(lib, ev).value;
    if ev.fields != map[] {
      EachEffect(lib, visited);
      assert FirstFailure(lib, visited, 0);
    }
  }

  /** What `run_clinical_agent(plan)` did, read off the calls it appended:
      the clinical call at temperature 0.2 on the plan's JSON dump, one
      refine with the clinical checklist, extraction of the refined text,
      then the report normalisation; the first error raised is the result. */
  predicate ClinicalStage(lib: Lib, prompts: Prompts, plan: Json, calls: seq<Call>, r: Result<Json>) {
    && RefinedDraft(lib, prompts.validator, calls, prompts.clinical, lib.dumps(plan), T02, ClinicalChecklist)
    && r == (var e := ExtractedReply(lib.parse, calls[|calls| - 1]);
             if e.Err? then Err(e.error) else ReportNormalized(lib, e.value))
  }

  /** A stage that returned its report made exactly its two calls. */
  lemma ClinicalStageLength(lib: Lib, prompts: Prompts, plan: Json, calls: seq<Call>, r: Result<Json>)
    requires ClinicalStage(lib, prompts, plan, calls, r) && r.Ok?
    ensures |calls| == 2
  {
    DraftLength(lib, prompts.validator, calls, prompts.clinical, lib.dumps(plan), T02, ClinicalChecklist);
  }

  /** `run_clinical_agent(plan)`. */
  method RunClinicalAgent(lib: Lib, prompts: Prompts, cfg: Config, net: Net, plan: Json)
    returns (r: Result<Json>, net': Net)
    ensures Extends(net, net')
    ensures ClinicalStage(lib, prompts, plan, net'.calls[|net.calls|..], r)
  {
    var report;
    report, net' := Draft(lib, cfg, net, prompts.validator, prompts.clinical, lib.dumps(plan), T02, ClinicalChecklist);
    ghost var calls := net'.calls[|net.calls|..];
    assert calls[|calls| - 1] == net'.calls[|net'.calls| - 1];
    if report.Err? {
      return Err(report.error), net';
    }
    r := NormalizeReport(lib, report.value);
  }

  /** The normalisation statements of `run_clinical_agent`, in place on
      the extracted report. */
  method NormalizeReport(lib: Lib, report: Json) returns (r: Result<Json>)
    ensures r == ReportNormalized(lib, report)
  {
    if !report.JObj? {
      return Err(AttributeError);
    }
    var m :- NormalizeField(lib, report.fields, "confidence_notes");
    var visited :- IterItems(lib, Lookup(m, "evidence", JArr([])));
    var updated: seq<Json> := [];
    for i := 0 to |visited|
      invariant EachNormalized(lib, visited[..i]) == Ok(updated)
    {
      assert visited[..i + 1][..i] == visited[..i];
      var ev := visited[i];
      if !ev.JObj? {
        EachFailsFrom(lib, visited, i + 1);
        return Err(AttributeError);
      }
      var limitations := NormalizeField(lib, ev.fields, "limitations");
      if limitations.Err? {
        EachFailsFrom(lib, visited, i + 1);
        return Err(limitations.error);
      }
      updated := updated + [JObj(limitations.value)];
    }
    assert visited[..|visited|] == visited;
    if "evidence" in m && m["evidence"].JArr? {
      m := m["evidence" := JArr(updated)];
    }
    r := Ok(JObj(m));
  }

  /** Once a prefix fails, every longer prefix fails the same way. */
  lemma {:induction false} EachFailsFrom(lib: Lib, evs: seq<Json>, n: nat)
    requires n <= |evs| && EachNormalized(lib, evs[..n]).Err?
    ensures EachNormalized(lib, evs) == EachNormalized(lib, evs[..n])
    decreases |evs| - n
  {
    if n < |evs| {
      assert evs[..n + 1][..n] == evs[..n];
      EachFailsFrom(lib, evs, n + 1);
    } else {
      assert evs[..n] == evs;
    }
  }
}
