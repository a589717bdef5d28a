/** `refine_with_trm`: a single validation pass. The draft and a checklist
    go to the generator in one call at temperature 0.1, and whatever it
    answers is the refined draft; nothing checks it against the checklist. */
module Refiner {
  import opened Common
  import opened PyJson
  import opened GeminiClient

  const ChecklistHeading: string := "\nCHECKLIST:\n"
  const OutputHeading: string := "\n\nJSON OUTPUT:\n"

  /** `str(checklist)`: the printed form of a list of strings. */
  function PrintedChecklist(lib: Lib, checklist: seq<string>): string {
    lib.repr(JArr(seq(|checklist|, i requires 0 <= i < |checklist| => JStr(checklist[i]))))
  }

  /** The part of the user prompt before the draft. */
  function RefineHeader(lib: Lib, checklist: seq<string>): string {
    ChecklistHeading + PrintedChecklist(lib, checklist) + OutputHeading
  }

  /** The user prompt: the printed checklist, then the draft verbatim. */
  function RefinePrompt(lib: Lib, content: string, checklist: seq<string>): string {
    RefineHeader(lib, checklist) + content + "\n"
  }

  /** The printed checklist comes first, right after its heading, and the
      draft follows verbatim between the output heading and the final
      newline. */
  lemma PromptLayout(lib: Lib, content: string, checklist: seq<string>)
    ensures var p := RefinePrompt(lib, content, checklist);
      var printed := PrintedChecklist(lib, checklist);
      var h := |RefineHeader(lib, checklist)|;
      && |p| == h + |content| + 1
      && p[..|ChecklistHeading|] == ChecklistHeading
      && p[|ChecklistHeading|..|ChecklistHeading| + |printed|] == printed
      && p[h - |OutputHeading|..h] == OutputHeading
      && p[h..h + |content|] == content
      && p[|p| - 1] == '\n'
  {
    var p := RefinePrompt(lib, content, checklist);
    var printed := PrintedChecklist(lib, checklist);
    var header := RefineHeader(lib, checklist);
    assert p == ChecklistHeading + printed + OutputHeading + content + "\n";
    assert p[..|ChecklistHeading|] == ChecklistHeading;
    assert p[|ChecklistHeading|..|ChecklistHeading| + |printed|] == printed;
    assert p[|header|..|header| + |content|] == content;
  }

  /** Different drafts give different prompts: the draft is embedded
      unchanged, so the generator sees all of it. */
  lemma {:induction false} DraftRecoverable(lib: Lib, c1: string, c2: string, checklist: seq<string>)
    requires RefinePrompt(lib, c1, checklist) == RefinePrompt(lib, c2, checklist)
    ensures c1 == c2
  {
    PromptLayout(lib, c1, checklist);
    PromptLayout(lib, c2, checklist);
  }

  /** `refine_with_trm(content_json, checklist)`, with `validator` the
      validator's role instructions. */
  method RefineWithTrm(lib: Lib, cfg: Config, net: Net, validator: string, content: string,
                       checklist: seq<string>)
    returns (r: Result<string>, net': Net)
    ensures (r, net') == CallSpec(cfg, net, validator, RefinePrompt(lib, content, checklist), T01, DefaultMaxTokens)
    ensures Extends(net, net')
    ensures net'.calls == net.calls + [Call(validator, RefinePrompt(lib, content, checklist), T01, r)]
  {
    var userPrompt := RefinePrompt(lib, content, checklist);
    r, net' := CallGemini(cfg, net, validator, userPrompt, T01, DefaultMaxTokens);
  }
}
