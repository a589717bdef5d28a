/** `run_analysis`: the four stages run one after another, and their
    outputs are returned under fixed keys. */
module Orchestrator {
  import opened Common
  import opened PyJson
  import opened GeminiClient
  import opened Stages
  import Master
  import Clinical
  import Patent

  const ResultKeys: set<string> := {"master", "clinical", "patent", "synthesis"}

  /** The outputs of a completed run under their keys. */
  function Assembled(plan: Json, clinical: Json, patent: Json, synthesis: Json): Json {
    JObj(map["master" := plan, "clinical" := clinical, "patent" := patent, "synthesis" := synthesis])
  }

  /** What `run_analysis(query)` did, read off the calls it appended. The
      calls are those of the plan, clinical, patent and synthesis stages, in
      that order: the clinical and patent stages both receive the plan,
      synthesis receives the three outputs, and the result holds exactly
      those four outputs under `master`, `clinical`, `patent` and
      `synthesis`. The first stage that raises ends the run: its error is
      the result, no later stage is called and no partial result is
      returned. */
  ghost predicate AnalysisLog(lib: Lib, prompts: Prompts, query: string, calls: seq<Call>, r: Result<Json>) {
    && (r.Ok? ==>
      && r.value.JObj? && r.value.fields.Keys == ResultKeys
      && Completion(lib, prompts, query, calls, r.value.fields["master"], r.value.fields["clinical"],
                    r.value.fields["patent"], r.value.fields["synthesis"]))
    && (r.Err? ==>
      || Master.PlanStage(lib, prompts, query, calls, r)
      || (2 <= |calls| && exists plan ::
            && Master.PlanStage(lib, prompts, query, calls[..2], Ok(plan))
            && Clinical.ClinicalStage(lib, prompts, plan, calls[2..], r))
      || (4 <= |calls| && exists plan, clinical ::
            && Master.PlanStage(lib, prompts, query, calls[..2], Ok(plan))
            && Clinical.ClinicalStage(lib, prompts, plan, calls[2..4], Ok(clinical))
            && Patent.PatentStage(lib, prompts, plan, calls[4..], r))
      || (6 <= |calls| && exists plan, clinical, patent ::
            && Master.PlanStage(lib, prompts, query, calls[..2], Ok(plan))
            && Clinical.ClinicalStage(lib, prompts, plan, calls[2..4], Ok(clinical))
            && Patent.PatentStage(lib, prompts, plan, calls[4..6], Ok(patent))
            && Master.SynthesisStage(lib, prompts, plan, clinical, patent, calls[6..], r)))
  }

  /** The calls of a run in which every stage returned its output: two
      each for the plan, clinical and patent stages, then one or two for
      synthesis. */
  ghost predicate Completion(lib: Lib, prompts: Prompts, query: string, calls: seq<Call>,
                             plan: Json, clinical: Json, patent: Json, synthesis: Json)
  {
    && 7 <= |calls| <= 8
    && Master.PlanStage(lib, prompts, query, calls[..2], Ok(plan))
    && Clinical.ClinicalStage(lib, prompts, plan, calls[2..4], Ok(clinical))
    && Patent.PatentStage(lib, prompts, plan, calls[4..6], Ok(patent))
    && Master.SynthesisStage(lib, prompts, plan, clinical, patent, calls[6..], Ok(synthesis))
  }

  /** `run_analysis(query)`. */
  method RunAnalysis(lib: Lib, prompts: Prompts, cfg: Config, net: Net, query: string)
    returns (r: Result<Json>, net': Net)
    ensures Extends(net, net')
    ensures AnalysisLog(lib, prompts, query, net'.calls[|net.calls|..], r)
  {
    var n := |net.calls|;
    var plan;
    plan, net' := Master.MasterPlan(lib, prompts, cfg, net, query);
    if plan.Err? {
      PlanFailed(lib, prompts, query, net'.calls[n..], plan);
      return plan, net';
    }
    var net1 := net';
    var clinical;
    clinical, net' := Clinical.RunClinicalAgent(lib, prompts, cfg, net1, plan.value);
    ExtendsTransitive(net, net1, net');
    Segments(net1.calls, net'.calls, n);
    if clinical.Err? {
      ClinicalFailed(lib, prompts, query, net1.calls[n..], net'.calls[|net1.calls|..], plan, clinical);
      return clinical, net';
    }
    var net2 := net';
    var patent;
    patent, net' := Patent.RunPatentAgent(lib, prompts, cfg, net2, plan.value);
    ExtendsTransitive(net, net2, net');
    Segments(net2.calls, net'.calls, n);
    Segments(net1.calls, net2.calls, n);
    if patent.Err? {
      PatentFailed(lib, prompts, query, net1.calls[n..], net2.calls[|net1.calls|..], net'.calls[|net2.calls|..],
                   plan, clinical, patent);
      return patent, net';
    }
    var net3 := net';
    var synthesis;
    synthesis, net' := Master.MasterSynthesis(lib, prompts, cfg, net3, plan.value, clinical.value, patent.value);
    ExtendsTransitive(net, net3, net');
    Segments(net3.calls, net'.calls, n);
    Segments(net2.calls, net3.calls, n);
    if synthesis.Err? {
      SynthesisFailed(lib, prompts, query, net1.calls[n..], net2.calls[|net1.calls|..], net3.calls[|net2.calls|..],
                      net'.calls[|net3.calls|..], plan, clinical, patent, synthesis);
      return synthesis, net';
    }
    r := Ok(Assembled(plan.value, clinical.value, patent.value, synthesis.value));
    StagesCompose(lib, prompts, query, net1.calls[n..], net2.calls[|net1.calls|..], net3.calls[|net2.calls|..],
                  net'.calls[|net3.calls|..], plan, clinical, patent, synthesis);
    Completed(lib, prompts, query, net'.calls[n..], plan.value, clinical.value, patent.value, synthesis.value);
  }

  /** The calls after position `n` of a log that grew from `before` to
      `after`: the earlier ones, then the new ones. */
  lemma Segments(before: seq<Call>, after: seq<Call>, n: nat)
    requires n <= |before| <= |after| && after[..|before|] == before
    ensures after[n..] == before[n..] + after[|before|..]
  {
  }

  lemma PlanFailed(lib: Lib, prompts: Prompts, query: string, calls: seq<Call>, plan: Result<Json>)
    requires plan.Err? && Master.PlanStage(lib, prompts, query, calls, plan)
    ensures AnalysisLog(lib, prompts, query, calls, plan)
  {
  }

  lemma ClinicalFailed(lib: Lib, prompts: Prompts, query: string, planCalls: seq<Call>, clinicalCalls: seq<Call>,
                       plan: Result<Json>, clinical: Result<Json>)
    requires plan.Ok? && clinical.Err?
    requires Master.PlanStage(lib, prompts, query, planCalls, plan)
    requires Clinical.ClinicalStage(lib, prompts, plan.value, clinicalCalls, clinical)
    ensures AnalysisLog(lib, prompts, query, planCalls + clinicalCalls, clinical)
  {
    Master.PlanStageLength(lib, prompts, query, planCalls, plan);
    Halves(planCalls, clinicalCalls);
  }

  lemma PatentFailed(lib: Lib, prompts: Prompts, query: string,
                     planCalls: seq<Call>, clinicalCalls: seq<Call>, patentCalls: seq<Call>,
                     plan: Result<Json>, clinical: Result<Json>, patent: Result<Json>)
    requires plan.Ok? && clinical.Ok? && patent.Err?
    requires Master.PlanStage(lib, prompts, query, planCalls, plan)
    requires Clinical.ClinicalStage(lib, prompts, plan.value, clinicalCalls, clinical)
    requires Patent.PatentStage(lib, prompts, plan.value, patentCalls, patent)
    ensures AnalysisLog(lib, prompts, query, planCalls + clinicalCalls + patentCalls, patent)
  {
    Master.PlanStageLength(lib, prompts, query, planCalls, plan);
    Clinical.ClinicalStageLength(lib, prompts, plan.value, clinicalCalls, clinical);
    Thirds(planCalls, clinicalCalls, patentCalls);
  }

  lemma SynthesisFailed(lib: Lib, prompts: Prompts, query: string,
                        planCalls: seq<Call>, clinicalCalls: seq<Call>, patentCalls: seq<Call>,
                        synthesisCalls: seq<Call>,
                        plan: Result<Json>, clinical: Result<Json>, patent: Result<Json>, synthesis: Result<Json>)
    requires plan.Ok? && clinical.Ok? && patent.Ok? && synthesis.Err?
    requires Master.PlanStage(lib, prompts, query, planCalls, plan)
    requires Clinical.ClinicalStage(lib, prompts, plan.value, clinicalCalls, clinical)
    requires Patent.PatentStage(lib, prompts, plan.value, patentCalls, patent)
    requires Master.SynthesisStage(lib, prompts, plan.value, clinical.value, patent.value, synthesisCalls, synthesis)
    ensures AnalysisLog(lib, prompts, query, planCalls + clinicalCalls + patentCalls + synthesisCalls, synthesis)
  {
    Master.PlanStageLength(lib, prompts, query, planCalls, plan);
    Clinical.ClinicalStageLength(lib, prompts, plan.value, clinicalCalls, clinical);
    Patent.PatentStageLength(lib, prompts, plan.value, patentCalls, patent);
    Quarters(planCalls, clinicalCalls, patentCalls, synthesisCalls);
  }

  lemma Completed(lib: Lib, prompts: Prompts, query: string, calls: seq<Call>,
                  plan: Json, clinical: Json, patent: Json, synthesis: Json)
    requires Completion(lib, prompts, query, calls, plan, clinical, patent, synthesis)
    ensures AnalysisLog(lib, prompts, query, calls, Ok(Assembled(plan, clinical, patent, synthesis)))
  {
    var a := Assembled(plan, clinical, patent, synthesis);
    assert a.fields["master"] == plan && a.fields["clinical"] == clinical;
    assert a.fields["patent"] == patent && a.fields["synthesis"] == synthesis;
    assert a.fields.Keys == ResultKeys;
  }

  lemma StagesCompose(lib: Lib, prompts: Prompts, query: string,
                      planCalls: seq<Call>, clinicalCalls: seq<Call>, patentCalls: seq<Call>,
                      synthesisCalls: seq<Call>,
                      plan: Result<Json>, clinical: Result<Json>, patent: Result<Json>, synthesis: Result<Json>)
    requires plan.Ok? && clinical.Ok? && patent.Ok? && synthesis.Ok?
    requires Master.PlanStage(lib, prompts, query, planCalls, plan)
    requires Clinical.ClinicalStage(lib, prompts, plan.value, clinicalCalls, clinical)
    requires Patent.PatentStage(lib, prompts, plan.value, patentCalls, patent)
    requires Master.SynthesisStage(lib, prompts, plan.value, clinical.value, patent.value, synthesisCalls, synthesis)
    ensures Completion(lib, prompts, query, planCalls + clinicalCalls + patentCalls + synthesisCalls,
                       plan.value, clinical.value, patent.value, synthesis.value)
  {
    Master.PlanStageLength(lib, prompts, query, planCalls, plan);
    Clinical.ClinicalStageLength(lib, prompts, plan.value, clinicalCalls, clinical);
    Patent.PatentStageLength(lib, prompts, plan.value, patentCalls, patent);
    Quarters(planCalls, clinicalCalls, patentCalls, synthesisCalls);
  }

  /** Two segments of a log, the first of two calls. */
  lemma Halves(a: seq<Call>, b: seq<Call>)
    requires |a| == 2
    ensures var log := a + b; 2 <= |log| && log[..2] == a && log[2..] == b
  {
    var log := a + b;
    assert log[..2] == a && log[2..] == b;
  }

  /** Three segments of a log, the first two of two calls each. */
  lemma Thirds(a: seq<Call>, b: seq<Call>, c: seq<Call>)
    requires |a| == 2 && |b| == 2
    ensures var log := a + b + c; 4 <= |log| && log[..2] == a && log[2..4] == b && log[4..] == c
  {
    var log := a + b + c;
    assert log[..2] == a && log[2..4] == b && log[4..] == c;
  }

  /** Four segments of a log, the first three of two calls each. */
  lemma Quarters(a: seq<Call>, b: seq<Call>, c: seq<Call>, d: seq<Call>)
    requires |a| == 2 && |b| == 2 && |c| == 2
    ensures var log := a + b + c + d;
      && |log| == 6 + |d|
      && log[..2] == a && log[2..4] == b && log[4..6] == c && log[6..] == d
  {
    var log := a + b + c + d;
    assert log[..2] == a && log[2..4] == b;
    assert log[4..6] == c && log[6..] == d;
  }
}
