/** The four-step wizard (frontend/src/App.jsx): upload, prompt, summary, share. Each
    handler is one sequential step; what `fetch` followed by `response.json()` yields is
    a parameter (`Err` when either threw), and the request body each handler posts is
    returned. Toasts and rendering are not modelled. */
module App {
  import opened Wrappers
  import opened JsText
  import opened Json
  import opened Validation
  import opened AiService
  import opened FileService
  import opened SummarizeController
  import opened UploadController
  import opened EmailSender

  /** The body `handlePromptSubmit` posts, `{ fileId: fileData.fileId, customPrompt: prompt }`;
      an undefined `fileId` is dropped by `JSON.stringify`. */
  function SummaryRequestFor(fileData: Object, prompt: string): (o: Object)
    ensures StringField(o, "customPrompt") == Some(prompt)
    ensures "fileId" in o <==> "fileId" in fileData
    ensures "fileId" in o ==> o["fileId"] == fileData["fileId"]
  {
    (if "fileId" in fileData then map["fileId" := fileData["fileId"]] else map[]) + map["customPrompt" := JStr(prompt)]
  }

  /** The fields `validateSummaryRequest` reads from a posted body. */
  function SummaryRequestOf(o: Object): SummaryRequestBody
  {
    SummaryRequestBody(StringField(o, "fileId"), StringField(o, "customPrompt"))
  }

  /** A file the server accepted can be summarised: the upload response carries the id
      the summarize request needs, and any non-blank prompt passes validation. */
  lemma UploadedFileCanBeSummarized(rec: FileRecord, text: string, prompt: string)
    requires rec.id != "" && !IsBlank(prompt)
    ensures SummaryRequestOf(SummaryRequestFor(UploadedBody(rec, text), prompt)) == SummaryRequestBody(Some(rec.id), Some(prompt))
    ensures ValidateSummaryRequest(SummaryRequestOf(SummaryRequestFor(UploadedBody(rec, text), prompt))) == Next
  {
    var o := SummaryRequestFor(UploadedBody(rec, text), prompt);
    assert StringField(o, "fileId") == Some(rec.id);
  }

  /** A JSON array of strings, read back; `None` if an item is not a string. */
  function StringsOf(items: seq<Json>): (r: Option<seq<string>>)
    ensures r.Some? ==> |r.value| == |items|
  {
    if |items| == 0 then Some([])
    else if !items[0].JStr? then None
    else match StringsOf(items[1..])
      case None => None
      case Some(rest) => Some([items[0].s] + rest)
  }

  /** Strings survive the round trip through a JSON array. */
  lemma {:induction false} StringsRoundTrip(xs: seq<string>)
    ensures StringsOf(Strings(xs)) == Some(xs)
  {
    if |xs| > 0 {
      assert Strings(xs)[1..] == Strings(xs[1..]);
      StringsRoundTrip(xs[1..]);
      assert xs == [xs[0]] + xs[1..];
    }
  }

  /** The fields `validateEmailRequest` reads from a posted body. */
  function EmailRequestOf(o: Object): EmailRequestBody
  {
    EmailRequestBody(
      StringField(o, "summaryId"),
      if "recipientEmails" in o && o["recipientEmails"].JArr? then StringsOf(o["recipientEmails"].items) else None,
      StringField(o, "subject"),
      StringField(o, "message"))
  }

  /** The e-mail body as written, `{ summaryId: summaryData.summaryId, ...emailData }`. */
  function EmailRequestAsWritten(summaryData: Object, emailData: Object): (o: Object)
    ensures "summaryId" in o <==> "summaryId" in summaryData || "summaryId" in emailData
    ensures forall k :: k in emailData ==> k in o && o[k] == emailData[k]
  {
    (if "summaryId" in summaryData then map["summaryId" := summaryData["summaryId"]] else map[]) + emailData
  }

  /** The e-mail body with the summary's id read from the field the server sets, `id`. */
  function EmailRequestFor(summaryData: Object, emailData: Object): (o: Object)
    ensures "summaryId" !in emailData ==> ("summaryId" in o <==> "id" in summaryData)
    ensures "summaryId" !in emailData && "id" in summaryData ==> o["summaryId"] == summaryData["id"]
    ensures forall k :: k in emailData ==> k in o && o[k] == emailData[k]
  {
    (if "id" in summaryData then map["summaryId" := summaryData["id"]] else map[]) + emailData
  }

  /** What the wizard holds as `summaryData` after generation and any number of edits:
      the generate response with `summary` replaced by the last edit. */
  function SummaryDataAfterEdit(s: Summary, text: string): (o: Object)
    ensures "summaryId" !in o && "id" in o && o["id"] == JStr(s.id)
  {
    GeneratedBody(s)["summary" := JStr(text)]
  }

  /** As written, every e-mail request is refused: the summary data never holds a
      `summaryId`, so the posted body lacks it. */
  lemma AsWrittenEmailRequestRejected(s: Summary, text: string, p: EmailPayload)
    ensures "summaryId" !in EmailRequestAsWritten(SummaryDataAfterEdit(s, text), PayloadJson(p))
    ensures ValidateEmailRequest(EmailRequestOf(EmailRequestAsWritten(SummaryDataAfterEdit(s, text), PayloadJson(p))))
            == Reject(400, "Summary ID is required")
  {
  }

  /** The server reads back from the corrected body exactly the summary's id and the
      payload the form built. */
  lemma EmailRequestReadsBack(summaryData: Object, id: string, p: EmailPayload)
    requires "summaryId" !in PayloadJson(p)
    requires "id" in summaryData && summaryData["id"] == JStr(id)
    ensures EmailRequestOf(EmailRequestFor(summaryData, PayloadJson(p))) == RequestBody(id, p)
  {
    var o := EmailRequestFor(summaryData, PayloadJson(p));
    StringsRoundTrip(p.recipientEmails);
    assert o["recipientEmails"] == JArr(Strings(p.recipientEmails));
    assert StringField(o, "summaryId") == Some(id);
  }

  /** Reading the id from `id`, the request carries the summary's id and the payload, and
      passes the server's validation whenever the form let the payload through. */
  lemma CorrectedEmailRequestAccepted(s: Summary, text: string, recipients: seq<string>, subject: string, message: string, p: EmailPayload)
    requires s.id != ""
    requires Payload(recipients, subject, message) == Some(p)
    ensures EmailRequestOf(EmailRequestFor(SummaryDataAfterEdit(s, text), PayloadJson(p))) == RequestBody(s.id, p)
    ensures ValidateEmailRequest(EmailRequestOf(EmailRequestFor(SummaryDataAfterEdit(s, text), PayloadJson(p)))) == Next
  {
    EmailRequestReadsBack(SummaryDataAfterEdit(s, text), s.id, p);
    PayloadPassesServerValidation(recipients, subject, message, s.id, p);
  }

  /** The wizard's state. */
  class Wizard {
    var currentStep: int
    var fileData: Option<Object>
    var customPrompt: string
    var summaryData: Option<Object>
    var isLoading: bool

    /** Between handlers: a step from 1 to 4, and no request in flight. */
    ghost predicate Valid()
      reads this
    {
      1 <= currentStep <= 4 && !isLoading
    }

    /** The state the wizard starts in and returns to on "Start Over". */
    predicate IsInitial()
      reads this
    {
      currentStep == 1 && fileData == None && customPrompt == "" && summaryData == None && !isLoading
    }

    constructor ()
      ensures Valid() && IsInitial()
    {
      currentStep := 1;
      fileData := None;
      customPrompt := "";
      summaryData := None;
      isLoading := false;
    }

    /** `handleFileUpload(data)`: keep the upload response and go to the prompt step. */
    method HandleFileUpload(data: Object)
      requires Valid()
      modifies this
      ensures Valid()
      ensures fileData == Some(data) && currentStep == 2
      ensures customPrompt == old(customPrompt) && summaryData == old(summaryData)
    {
      fileData := Some(data);
      currentStep := 2;
    }

    /** `handlePromptSubmit(prompt)`: the prompt is recorded first; without upload data the
        handler throws before posting. `sent` is the posted body, `reply` its answer. */
    method HandlePromptSubmit(prompt: string, reply: Result<HttpResponse>) returns (sent: Option<Object>)
      requires Valid()
      modifies this
      ensures Valid()
      ensures customPrompt == prompt && fileData == old(fileData)
      ensures old(fileData).None? ==> sent == None
      ensures old(fileData).Some? ==> sent == Some(SummaryRequestFor(old(fileData).value, prompt))
      ensures sent.Some? && reply.Ok? && ResponseOk(reply.value) ==>
                summaryData == Some(reply.value.body) && currentStep == 3
      ensures !(sent.Some? && reply.Ok? && ResponseOk(reply.value)) ==>
                summaryData == old(summaryData) && currentStep == old(currentStep)
    {
      customPrompt := prompt;
      isLoading := true;
      if fileData.None? {
        isLoading := false;
        return None;
      }
      sent := Some(SummaryRequestFor(fileData.value, prompt));
      if reply.Ok? && ResponseOk(reply.value) {
        summaryData := Some(reply.value.body);
        currentStep := 3;
      }
      isLoading := false;
    }

    /** `handleSummaryUpdate(editedSummary)`: `{ ...prev, summary: editedSummary }`; the
        spread of a missing object is empty. Only `summary` changes. */
    method HandleSummaryUpdate(editedSummary: string)
      requires Valid()
      modifies this
      ensures Valid()
      ensures summaryData.Some? && "summary" in summaryData.value && summaryData.value["summary"] == JStr(editedSummary)
      ensures old(summaryData).Some? ==> summaryData.value.Keys == old(summaryData).value.Keys + {"summary"}
      ensures old(summaryData).Some? ==>
                forall k :: k in old(summaryData).value && k != "summary" ==> summaryData.value[k] == old(summaryData).value[k]
      ensures old(summaryData).None? ==> summaryData.value.Keys == {"summary"}
      ensures currentStep == old(currentStep) && fileData == old(fileData) && customPrompt == old(customPrompt)
    {
      var prev := if summaryData.Some? then summaryData.value else map[];
      summaryData := Some(prev["summary" := JStr(editedSummary)]);
    }

    /** `handleEmailSend(emailData)` with the summary id read from `id`; without summary
        data the handler throws before posting. Only a successful send moves to step 4. */
    method HandleEmailSend(emailData: Object, reply: Result<HttpResponse>) returns (sent: Option<Object>)
      requires Valid()
      modifies this
      ensures Valid()
      ensures old(summaryData).None? ==> sent == None
      ensures old(summaryData).Some? ==> sent == Some(EmailRequestFor(old(summaryData).value, emailData))
      ensures sent.Some? && reply.Ok? && ResponseOk(reply.value) ==> currentStep == 4
      ensures !(sent.Some? && reply.Ok? && ResponseOk(reply.value)) ==> currentStep == old(currentStep)
      ensures fileData == old(fileData) && customPrompt == old(customPrompt) && summaryData == old(summaryData)
    {
      if summaryData.None? {
        return None;
      }
      sent := Some(EmailRequestFor(summaryData.value, emailData));
      if reply.Ok? && ResponseOk(reply.value) {
        currentStep := 4;
      }
    }

    /** "Previous Step", shown from step 2 on. */
    method Previous()
      requires Valid() && currentStep > 1
      modifies this
      ensures Valid() && currentStep == old(currentStep) - 1
      ensures fileData == old(fileData) && customPrompt == old(customPrompt) && summaryData == old(summaryData)
    {
      currentStep := currentStep - 1;
    }

    /** "Next Step", shown on steps 2 and 3. */
    method Next()
      requires Valid() && 1 < currentStep < 4
      modifies this
      ensures Valid() && currentStep == old(currentStep) + 1
      ensures fileData == old(fileData) && customPrompt == old(customPrompt) && summaryData == old(summaryData)
    {
      currentStep := currentStep + 1;
    }

    /** "Share via Email", shown on step 3 once a summary exists. */
    method ShareViaEmail()
      requires Valid() && currentStep == 3 && summaryData.Some?
      modifies this
      ensures Valid() && currentStep == 4
      ensures fileData == old(fileData) && customPrompt == old(customPrompt) && summaryData == old(summaryData)
    {
      currentStep := 4;
    }

    /** `resetApp`: every field back to its initial value. */
    method ResetApp()
      requires Valid()
      modifies this
      ensures Valid() && IsInitial()
    {
      currentStep := 1;
      fileData := None;
      customPrompt := "";
      summaryData := None;
      isLoading := false;
    }
  }
}
