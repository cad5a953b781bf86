/** The summary controller (backend/controllers/summarizeController.js): the guards in
    front of the summary service and the JSON bodies it answers with. Errors the
    service throws become `500 { error: message }`. Calls the controller makes into the
    stores are calls of the store methods. */
module SummarizeController {
  import opened Wrappers
  import opened JsText
  import opened Json
  import opened AiService
  import opened FileService

  const FileNotFound := "File not found"
  const NoTextContent := "No text content found in the uploaded file"
  const EditedRequired := "Edited summary is required"
  const Generated := "Summary generated successfully"
  const Updated := "Summary updated successfully"

  /** A stored summary as `res.json` writes it; fields that were never set are absent. */
  function SummaryJson(s: Summary): (o: Object)
    ensures o.Keys >= {"id", "fileId", "originalPrompt", "generatedSummary", "model", "createdAt", "tokensUsed"}
    ensures "editedSummary" in o <==> s.editedSummary.Some?
    ensures "updatedAt" in o <==> s.updatedAt.Some?
    ensures "summaryId" !in o && "summary" !in o && "success" !in o && "message" !in o
    ensures o["id"] == JStr(s.id)
  {
    var base := map[
      "id" := JStr(s.id), "fileId" := JStr(s.fileId), "originalPrompt" := JStr(s.originalPrompt),
      "generatedSummary" := JStr(s.generatedSummary), "model" := JStr(s.model),
      "createdAt" := JStr(s.createdAt), "tokensUsed" := JNum(s.tokensUsed)];
    var withEdit := if s.editedSummary.Some? then base["editedSummary" := JStr(s.editedSummary.value)] else base;
    if s.updatedAt.Some? then withEdit["updatedAt" := JStr(s.updatedAt.value)] else withEdit
  }

  /** Reads a summary record back out of a JSON object, as the browser sees it. */
  function SummaryOfJson(o: Object): Option<Summary>
  {
    if && "id" in o && o["id"].JStr? && "fileId" in o && o["fileId"].JStr?
       && "originalPrompt" in o && o["originalPrompt"].JStr? && "generatedSummary" in o && o["generatedSummary"].JStr?
       && "model" in o && o["model"].JStr? && "createdAt" in o && o["createdAt"].JStr?
       && "tokensUsed" in o && o["tokensUsed"].JNum?
    then
      var edited := if "editedSummary" in o && o["editedSummary"].JStr? then Some(o["editedSummary"].s) else None;
      var updated := if "updatedAt" in o && o["updatedAt"].JStr? then Some(o["updatedAt"].s) else None;
      Some(Summary(o["id"].s, o["fileId"].s, o["originalPrompt"].s, o["generatedSummary"].s, edited,
                   o["model"].s, o["createdAt"].s, updated, o["tokensUsed"].n))
    else None
  }

  /** The success body of `generateSummary`: `success`, `message`, the record spread in,
      and `summary` set to the generated text. */
  function GeneratedBody(s: Summary): (o: Object)
    ensures o.Keys == SummaryJson(s).Keys + {"success", "message", "summary"}
    ensures o["success"] == JBool(true) && o["message"] == JStr(Generated)
    ensures o["summary"] == JStr(s.generatedSummary)
    ensures forall k :: k in SummaryJson(s) ==> o[k] == SummaryJson(s)[k]
  {
    map["success" := JBool(true), "message" := JStr(Generated)] + SummaryJson(s) + map["summary" := JStr(s.generatedSummary)]
  }

  /** Every field of the record survives serialisation: the browser reads back exactly
      the stored record. */
  lemma SummaryJsonRoundTrip(s: Summary)
    ensures SummaryOfJson(SummaryJson(s)) == Some(s)
  {
    var o := SummaryJson(s);
    assert o["id"] == JStr(s.id) && o["fileId"] == JStr(s.fileId) && o["model"] == JStr(s.model);
    assert o["originalPrompt"] == JStr(s.originalPrompt) && o["generatedSummary"] == JStr(s.generatedSummary);
    assert o["createdAt"] == JStr(s.createdAt) && o["tokensUsed"] == JNum(s.tokensUsed);
    assert s.editedSummary.Some? ==> o["editedSummary"] == JStr(s.editedSummary.value);
    assert s.updatedAt.Some? ==> o["updatedAt"] == JStr(s.updatedAt.value);
  }

  /** The generate response carries the record too: the extra fields do not disturb it. */
  lemma GeneratedBodyRoundTrip(s: Summary)
    ensures SummaryOfJson(GeneratedBody(s)) == Some(s)
  {
    var o := SummaryJson(s);
    var g := GeneratedBody(s);
    SummaryJsonRoundTrip(s);
    assert "editedSummary" in g <==> "editedSummary" in o;
    assert "updatedAt" in g <==> "updatedAt" in o;
  }

  /** `generateSummary(req, res)`. `fileId` and `customPrompt` are what the validation
      middleware let through; the rest is passed on to the summary service. `sent` is the
      completion request made, if any. */
  method GenerateSummary(
    files: FileStore, summaries: SummaryStore, fileId: string, customPrompt: string,
    apiKey: Option<string>, complete: CompletionRequest -> Completion, summaryId: string, now: Timestamp)
    returns (res: HttpResponse, sent: Option<CompletionRequest>)
    requires files.Valid() && summaries.Valid()
    requires summaryId !in summaries.summaries
    modifies summaries
    ensures summaries.Valid()
    ensures files.GetFileById(fileId).None? ==>
              res == ErrorResponse(404, FileNotFound) && sent == None && summaries.summaries == old(summaries.summaries)
    ensures files.GetFileById(fileId).Some? && IsBlank(files.files[fileId].extractedText) ==>
              res == ErrorResponse(400, NoTextContent) && sent == None && summaries.summaries == old(summaries.summaries)
    ensures files.GetFileById(fileId).Some? && !IsBlank(files.files[fileId].extractedText) ==>
              sent == (if Truthy(apiKey) then Some(BuildRequest(customPrompt, Trim(files.files[fileId].extractedText))) else None)
    ensures files.GetFileById(fileId).Some? && !IsBlank(files.files[fileId].extractedText) && !Truthy(apiKey) ==>
              res == ErrorResponse(500, NotConfigured)
    ensures files.GetFileById(fileId).Some? && !IsBlank(files.files[fileId].extractedText) && Truthy(apiKey) ==>
              var c := complete(BuildRequest(customPrompt, Trim(files.files[fileId].extractedText)));
              && (res.status == 200 <==> Truthy(c.content))
              && (!Truthy(c.content) ==> res == ErrorResponse(500, GenerationFailed))
              && (Truthy(c.content) ==>
                    var record := Summary(summaryId, fileId, customPrompt, c.content.value, None, Model, now, None, TokensUsed(c));
                    && summaries.summaries == old(summaries.summaries)[summaryId := record]
                    && res == HttpResponse(200, GeneratedBody(record)))
    ensures res.status == 500 ==> (res == ErrorResponse(500, NotConfigured) || res == ErrorResponse(500, GenerationFailed))
    ensures res.status != 200 ==> summaries.summaries == old(summaries.summaries)
    ensures res.status == 200 ==>
              && summaryId in summaries.summaries
              && summaries.summaries == old(summaries.summaries)[summaryId := summaries.summaries[summaryId]]
              && summaries.summaries[summaryId].fileId == fileId
              && res.body == GeneratedBody(summaries.summaries[summaryId])
  {
    var fileInfo := files.GetFileById(fileId);
    if fileInfo.None? {
      return ErrorResponse(404, FileNotFound), None;
    }
    assert fileInfo.value == files.files[fileId];
    var transcriptText := Trim(fileInfo.value.extractedText);
    if transcriptText == "" {
      return ErrorResponse(400, NoTextContent), None;
    }
    var r;
    r, sent := summaries.GenerateSummary(fileId, customPrompt, transcriptText, apiKey, complete, summaryId, now);
    if r.Err? {
      return ErrorResponse(500, r.message), sent;
    }
    res := HttpResponse(200, GeneratedBody(r.value));
  }

  /** `getSummary(req, res)`. */
  function GetSummary(summaries: SummaryStore, summaryId: string): (res: HttpResponse)
    reads summaries
    requires summaries.Valid()
    ensures summaryId !in summaries.summaries <==> res == ErrorResponse(404, SummaryNotFound)
    ensures summaryId in summaries.summaries ==>
              && res.status == 200 && res.body.Keys == {"success", "summary"}
              && res.body["success"] == JBool(true)
              && res.body["summary"].JObj?
              && SummaryOfJson(res.body["summary"].fields) == Some(summaries.summaries[summaryId])
  {
    var found := summaries.GetSummaryById(summaryId);
    if found.None? then ErrorResponse(404, SummaryNotFound)
    else
      SummaryJsonRoundTrip(found.value);
      HttpResponse(200, map["success" := JBool(true), "summary" := JObj(SummaryJson(found.value))])
  }

  /** `editedSummary?.trim()` is truthy. */
  predicate HasEditedText(editedSummary: Option<string>) {
    editedSummary.Some? && !IsBlank(editedSummary.value)
  }

  /** The success body of `updateSummary`: the id and the edited text, untrimmed. */
  function UpdatedBody(summaryId: string, editedSummary: string): (o: Object)
    ensures StringField(o, "summaryId") == Some(summaryId) && StringField(o, "editedSummary") == Some(editedSummary)
    ensures o.Keys == {"success", "message", "summaryId", "editedSummary"}
    ensures o["success"] == JBool(true) && StringField(o, "message") == Some(Updated)
  {
    map["success" := JBool(true), "message" := JStr(Updated), "summaryId" := JStr(summaryId),
        "editedSummary" := JStr(editedSummary)]
  }

  /** `updateSummary(req, res)`: a blank edit is refused before the store is touched. */
  method UpdateSummary(summaries: SummaryStore, summaryId: string, editedSummary: Option<string>, now: Timestamp)
    returns (res: HttpResponse)
    requires summaries.Valid()
    modifies summaries
    ensures summaries.Valid()
    ensures !HasEditedText(editedSummary) ==>
              res == ErrorResponse(400, EditedRequired) && summaries.summaries == old(summaries.summaries)
    ensures HasEditedText(editedSummary) && summaryId !in old(summaries.summaries) ==>
              res == ErrorResponse(500, SummaryNotFound) && summaries.summaries == old(summaries.summaries)
    ensures HasEditedText(editedSummary) && summaryId in old(summaries.summaries) ==>
              && res == HttpResponse(200, UpdatedBody(summaryId, editedSummary.value))
              && summaries.summaries == old(summaries.summaries)[summaryId := WithEdit(old(summaries.summaries)[summaryId], editedSummary.value, now)]
  {
    if !HasEditedText(editedSummary) {
      return ErrorResponse(400, EditedRequired);
    }
    var r := summaries.UpdateSummary(summaryId, editedSummary.value, now);
    if r.Err? {
      return ErrorResponse(500, r.message);
    }
    res := HttpResponse(200, UpdatedBody(summaryId, editedSummary.value));
  }
}
