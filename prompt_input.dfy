/** The prompt step (frontend/src/components/PromptInput.jsx): a free-text instruction
    or one of six example instructions, and the submit guard. */
module PromptInput {
  import opened Wrappers
  import opened JsText

  datatype Example = Example(id: nat, title: string, prompt: string)

  const Examples: seq<Example> := [
    Example(1, "Executive Summary",
      "Create a concise executive summary highlighting key decisions, action items, and important outcomes from this meeting."),
    Example(2, "Action Items",
      "Extract all action items, assignees, and deadlines mentioned in this meeting. Organize them in a clear, actionable format."),
    Example(3, "Bullet Points",
      "Summarize the main points of this meeting in clear bullet points, focusing on the most important topics discussed."),
    Example(4, "Technical Summary",
      "Provide a technical summary of this meeting, focusing on technical decisions, architecture discussions, and implementation details."),
    Example(5, "Stakeholder Update",
      "Create a stakeholder-friendly summary that explains the key outcomes and next steps in non-technical language."),
    Example(6, "Custom Format",
      "Summarize this meeting in a structured format with sections for: Key Decisions, Action Items, Next Steps, and Important Notes.")
  ]

  /** Six examples with the distinct ids 1 to 6, in order. */
  lemma ExamplesNumbered()
    ensures |Examples| == 6
    ensures forall i :: 0 <= i < |Examples| ==> Examples[i].id == i + 1
    ensures forall i, j :: 0 <= i < j < |Examples| ==> Examples[i].id != Examples[j].id
  {
  }

  class PromptForm {
    var customPrompt: string
    var selectedExample: Option<nat>

    constructor ()
      ensures customPrompt == "" && selectedExample == None
    {
      customPrompt := "";
      selectedExample := None;
    }

    /** `disabled={!customPrompt.trim() || isLoading}` on the submit button. */
    function SubmitDisabled(isLoading: bool): (r: bool)
      reads this
      ensures r <==> IsBlank(customPrompt) || isLoading
    {
      Trim(customPrompt) == "" || isLoading
    }

    /** `handleExampleSelect(example)`. */
    method HandleExampleSelect(example: Example)
      modifies this
      ensures customPrompt == example.prompt && selectedExample == Some(example.id)
    {
      selectedExample := Some(example.id);
      customPrompt := example.prompt;
    }

    /** `handleCustomPrompt`: typing replaces the instruction and clears the selection. */
    method HandleCustomPrompt(value: string)
      modifies this
      ensures customPrompt == value && selectedExample == None
    {
      customPrompt := value;
      selectedExample := None;
    }

    /** `handleSubmit`: a blank instruction is not submitted; otherwise it is passed to
        `onSubmit` untrimmed. Submitting happens exactly when the idle button is enabled. */
    method HandleSubmit() returns (submitted: Option<string>)
      ensures submitted.None? <==> IsBlank(customPrompt)
      ensures submitted.Some? ==> submitted.value == customPrompt
      ensures submitted.Some? <==> !SubmitDisabled(false)
    {
      if Trim(customPrompt) == "" {
        return None;
      }
      submitted := Some(customPrompt);
    }
  }
}
