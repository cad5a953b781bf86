/** The summary service (backend/services/aiService.js) in its in-memory mode: the
    prompt sent to the completion API and the process-wide `global.summaries` map.
    The completion API, `uuidv4()` and `new Date()` are parameters. */
module AiService {
  import opened Wrappers
  import opened JsText

  const Model := "llama3-8b-8192"
  const NotConfigured := "AI service not configured. Please set GROQ_API_KEY environment variable."
  const GenerationFailed := "Failed to generate summary"
  const SummaryNotFound := "Summary not found"

  const SystemPrompt :=
    "You are an expert meeting summarizer. Your task is to create a comprehensive, well-structured summary based on the user's specific instructions. \n"
    + "\n"
    + "Guidelines:\n"
    + "- Follow the user's custom instructions exactly\n"
    + "- Maintain the key points and important details\n"
    + "- Use clear, professional language\n"
    + "- Structure the output appropriately (bullet points, paragraphs, etc. as requested)\n"
    + "- Focus on actionable items and key decisions\n"
    + "- Include relevant context and background information"

  const PromptHead := "Please summarize the following meeting transcript according to these instructions: \""
  const TranscriptHead := "\"\n\nMeeting Transcript:\n"
  const PromptTail := "\n\nPlease provide a well-structured summary that follows the user's specific requirements."

  /** The user message: the instruction in quotes, then the transcript, both verbatim. */
  function UserPrompt(customPrompt: string, transcript: string): string
  {
    PromptHead + customPrompt + TranscriptHead + transcript + PromptTail
  }

  /** Reads the transcript back out of a user message, given the instruction's length. */
  function TranscriptOf(userPrompt: string, promptLength: nat): string
  {
    var start := |PromptHead| + promptLength + |TranscriptHead|;
    if start + |PromptTail| <= |userPrompt| then userPrompt[start..|userPrompt| - |PromptTail|] else ""
  }

  /** Reads the instruction back out of a user message, given its length. */
  function InstructionOf(userPrompt: string, promptLength: nat): string
  {
    if |PromptHead| + promptLength <= |userPrompt| then userPrompt[|PromptHead|..|PromptHead| + promptLength] else ""
  }

  /** The instruction and the transcript are embedded verbatim and can be read back. */
  lemma UserPromptEmbedsBoth(customPrompt: string, transcript: string)
    ensures InstructionOf(UserPrompt(customPrompt, transcript), |customPrompt|) == customPrompt
    ensures TranscriptOf(UserPrompt(customPrompt, transcript), |customPrompt|) == transcript
  {
    var u := UserPrompt(customPrompt, transcript);
    var a := |PromptHead|;
    var b := a + |customPrompt| + |TranscriptHead|;
    assert u == PromptHead + customPrompt + TranscriptHead + transcript + PromptTail;
    assert u[a..a + |customPrompt|] == customPrompt;
    assert u[b..|u| - |PromptTail|] == transcript;
  }

  /** The arguments of `groq.chat.completions.create`; temperature 0.3 is kept as 30 hundredths. */
  datatype CompletionRequest = CompletionRequest(
    systemContent: string,
    userContent: string,
    model: string,
    temperatureHundredths: int,
    maxTokens: int,
    topP: int,
    stream: bool)

  /** What the API answered: `choices[0]?.message?.content` and `usage?.total_tokens`. */
  datatype Completion = Completion(content: Option<string>, totalTokens: Option<int>)

  function BuildRequest(customPrompt: string, transcript: string): (req: CompletionRequest)
    ensures req.model == Model && req.maxTokens == 4000 && !req.stream
    ensures req.systemContent == SystemPrompt && req.userContent == UserPrompt(customPrompt, transcript)
  {
    CompletionRequest(SystemPrompt, UserPrompt(customPrompt, transcript), Model, 30, 4000, 1, false)
  }

  /** `completion.usage?.total_tokens || 0`. */
  function TokensUsed(c: Completion): (n: int)
    ensures c.totalTokens.None? ==> n == 0
    ensures c.totalTokens.Some? ==> n == c.totalTokens.value
  {
    if c.totalTokens.Some? && c.totalTokens.value != 0 then c.totalTokens.value else 0
  }

  /** A stored summary record; `updatedAt` and `editedSummary` are absent until the first edit. */
  datatype Summary = Summary(
    id: string,
    fileId: string,
    originalPrompt: string,
    generatedSummary: string,
    editedSummary: Option<string>,
    model: string,
    createdAt: Timestamp,
    updatedAt: Option<Timestamp>,
    tokensUsed: int)

  /** The in-place edit `updateSummary` makes to a stored record. */
  function WithEdit(s: Summary, editedSummary: string, now: Timestamp): (r: Summary)
    ensures r.editedSummary == Some(editedSummary) && r.updatedAt == Some(now)
    ensures r.(editedSummary := s.editedSummary, updatedAt := s.updatedAt) == s
  {
    s.(editedSummary := Some(editedSummary), updatedAt := Some(now))
  }

  /** Editing twice with the same text leaves the same edited text as editing once;
      only the timestamp of the last edit survives. */
  lemma EditIdempotent(s: Summary, text: string, t1: Timestamp, t2: Timestamp)
    ensures WithEdit(WithEdit(s, text, t1), text, t2).editedSummary == WithEdit(s, text, t1).editedSummary
    ensures WithEdit(WithEdit(s, text, t1), text, t2) == WithEdit(s, text, t2)
  {
  }

  /** `global.summaries`: `created` records whether the Map has been made yet. */
  class SummaryStore {
    var created: bool
    var summaries: map<string, Summary>

    ghost predicate Valid()
      reads this
    {
      && (!created ==> summaries == map[])
      && (forall id :: id in summaries ==> summaries[id].id == id && summaries[id].generatedSummary != "")
    }

    constructor ()
      ensures Valid() && !created && summaries == map[]
    {
      created := false;
      summaries := map[];
    }

    /** `getSummaryById`: `null` for an uncreated map or an unknown key, never an error. */
    function GetSummaryById(id: string): (r: Option<Summary>)
      reads this
      requires Valid()
      ensures r.Some? <==> id in summaries
      ensures r.Some? ==> r.value == summaries[id] && r.value.id == id
    {
      if !created || id !in summaries then None else Some(summaries[id])
    }

    /** `generateSummary` in memory mode. The API key is checked before any request is
        handed to `complete`; `sent` is that request, if one was made. */
    method GenerateSummary(
      fileId: string, customPrompt: string, transcriptText: string,
      apiKey: Option<string>, complete: CompletionRequest -> Completion,
      summaryId: string, now: Timestamp)
      returns (r: Result<Summary>, sent: Option<CompletionRequest>)
      requires Valid()
      requires summaryId !in summaries
      modifies this
      ensures Valid()
      ensures !Truthy(apiKey) ==> r == Err(NotConfigured) && sent == None
      ensures Truthy(apiKey) ==> sent == Some(BuildRequest(customPrompt, transcriptText))
      ensures Truthy(apiKey) && !Truthy(complete(BuildRequest(customPrompt, transcriptText)).content)
              ==> r == Err(GenerationFailed)
      ensures r.Ok? <==> Truthy(apiKey) && Truthy(complete(BuildRequest(customPrompt, transcriptText)).content)
      ensures r.Err? ==> summaries == old(summaries) && created == old(created)
      ensures r.Ok? ==>
                var c := complete(BuildRequest(customPrompt, transcriptText));
                && Truthy(apiKey) && Truthy(c.content)
                && r.value == Summary(summaryId, fileId, customPrompt, c.content.value, None, Model, now, None, TokensUsed(c))
                && created && summaries == old(summaries)[summaryId := r.value]
      ensures r.Ok? ==> GetSummaryById(summaryId) == Some(r.value)
    {
      if !Truthy(apiKey) {
        return Err(NotConfigured), None;
      }
      var request := BuildRequest(customPrompt, transcriptText);
      sent := Some(request);
      var completion := complete(request);
      if !Truthy(completion.content) {
        return Err(GenerationFailed), sent;
      }
      var record := Summary(summaryId, fileId, customPrompt, completion.content.value, None, Model, now, None, TokensUsed(completion));
      if !created {
        created := true;
        summaries := map[];
      }
      summaries := summaries[summaryId := record];
      r := Ok(record);
    }

    /** `updateSummary` in memory mode: sets `editedSummary` and `updatedAt` on one entry. */
    method UpdateSummary(summaryId: string, editedSummary: string, now: Timestamp) returns (r: Result<Summary>)
      requires Valid()
      modifies this
      ensures Valid() && created == old(created)
      ensures summaryId !in old(summaries) ==> r == Err(SummaryNotFound) && summaries == old(summaries)
      ensures summaryId in old(summaries) ==>
                && r == Ok(WithEdit(old(summaries)[summaryId], editedSummary, now))
                && summaries == old(summaries)[summaryId := r.value]
                && r.value.generatedSummary == old(summaries)[summaryId].generatedSummary
    {
      if !created || summaryId !in summaries {
        return Err(SummaryNotFound);
      }
      var record := WithEdit(summaries[summaryId], editedSummary, now);
      summaries := summaries[summaryId := record];
      r := Ok(record);
    }
  }
}
