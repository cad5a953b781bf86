/** The e-mail service (backend/services/emailService.js): the recipient filter, the
    effective summary, and the mail options assembled by `sendSummaryEmail` and
    `sendTestEmail`. The transporter is left to its caller: `verifies` is the outcome
    of `transporter.verify()`, and the result is what would be handed to `sendMail`. */
module EmailService {
  import opened Wrappers
  import opened JsText
  import opened Validation
  import opened AiService

  const DefaultSubject := "Meeting Summary - AI Summarizer"
  const DefaultMessage := "Please find the meeting summary attached below."
  const NoValidRecipient := "Please enter at least one valid email address"
  const MailNotConfigured := "Email service not configured. Please set EMAIL_USER and EMAIL_PASSWORD environment variables."
  const MailConfigError := "Email service configuration error. Please check your email settings."
  const TestSubject := "AI Summarizer - Email Test"
  const TestText := "AI Summarizer Email Test - Configuration is working correctly!"

  /** The filter callback `email => email.trim() && emailRegex.test(email.trim())`. */
  predicate AcceptedRecipient(email: string) {
    Trim(email) != "" && ValidEmail(Trim(email))
  }

  /** `emails.filter(AcceptedRecipient)`: the accepted entries, untrimmed, in input order. */
  function ValidRecipients(emails: seq<string>): (r: seq<string>)
    ensures |r| <= |emails|
    ensures forall x :: x in r ==> x in emails && AcceptedRecipient(x)
    ensures forall x :: x in emails && AcceptedRecipient(x) ==> x in r
  {
    if |emails| == 0 then []
    else
      var rest := ValidRecipients(emails[1..]);
      HeadOrTail(emails);
      if AcceptedRecipient(emails[0]) then [emails[0]] + rest else rest
  }

  /** Every member of a non-empty list is its head or a member of its tail. */
  lemma HeadOrTail(xs: seq<string>)
    requires |xs| > 0
    ensures forall x :: x in xs <==> x == xs[0] || x in xs[1..]
  {
    assert xs == [xs[0]] + xs[1..];
  }

  /** Filtering distributes over concatenation, so it keeps the input order. */
  lemma {:induction false} ValidRecipientsAppend(a: seq<string>, b: seq<string>)
    ensures ValidRecipients(a + b) == ValidRecipients(a) + ValidRecipients(b)
  {
    if |a| > 0 {
      var ab := a + b;
      assert ab[0] == a[0] && ab[1..] == a[1..] + b;
      ValidRecipientsStep(ab);
      ValidRecipientsStep(a);
      ValidRecipientsAppend(a[1..], b);
      var head := if AcceptedRecipient(a[0]) then [a[0]] else [];
      assert head + (ValidRecipients(a[1..]) + ValidRecipients(b)) == (head + ValidRecipients(a[1..])) + ValidRecipients(b);
    } else {
      assert a + b == b;
    }
  }

  /** One step of the filter: the head is kept exactly when it is accepted. */
  lemma ValidRecipientsStep(xs: seq<string>)
    requires |xs| > 0
    ensures ValidRecipients(xs) == (if AcceptedRecipient(xs[0]) then [xs[0]] else []) + ValidRecipients(xs[1..])
  {
  }

  /** A list whose every entry is accepted passes through the filter unchanged. */
  lemma {:induction false} ValidRecipientsKeepsAll(emails: seq<string>)
    requires forall k :: 0 <= k < |emails| ==> AcceptedRecipient(emails[k])
    ensures ValidRecipients(emails) == emails
  {
    if |emails| > 0 {
      ValidRecipientsKeepsAll(emails[1..]);
    }
  }

  /** `validateEmails(emails)`: the accepted entries, or the error when there are none. */
  function ValidateEmails(emails: seq<string>): (r: Result<seq<string>>)
    ensures r.Err? <==> forall k :: 0 <= k < |emails| ==> !AcceptedRecipient(emails[k])
    ensures r.Err? ==> r.message == NoValidRecipient
    ensures r.Ok? ==> r.value == ValidRecipients(emails) && r.value != []
  {
    var valid := ValidRecipients(emails);
    if |valid| == 0 then Err(NoValidRecipient)
    else
      assert valid[0] in valid;
      Ok(valid)
  }

  /** Whatever passes `validateEmailRequest` comes out of `validateEmails` unchanged: every
      address the middleware let through is already trimmed and valid. */
  lemma ApprovedRequestKeepsAllRecipients(body: EmailRequestBody)
    requires ValidateEmailRequest(body) == Next
    ensures ValidateEmails(body.recipientEmails.value) == Ok(body.recipientEmails.value)
  {
    var emails := body.recipientEmails.value;
    forall k | 0 <= k < |emails| ensures AcceptedRecipient(emails[k]) {
      ValidEmailIsTrimmed(emails[k]);
    }
    ValidRecipientsKeepsAll(emails);
  }

  /** `summaryData.editedSummary || summaryData.generatedSummary`. */
  function EffectiveSummary(s: Summary): (r: string)
    ensures Truthy(s.editedSummary) ==> r == s.editedSummary.value
    ensures !Truthy(s.editedSummary) ==> r == s.generatedSummary
  {
    OrDefault(s.editedSummary, s.generatedSummary)
  }

  /** After an edit with non-empty text, that text is what gets mailed; the generated
      text is kept underneath. */
  lemma EffectiveAfterEdit(s: Summary, text: string, now: Timestamp)
    requires text != ""
    ensures EffectiveSummary(WithEdit(s, text, now)) == text
    ensures WithEdit(s, text, now).generatedSummary == s.generatedSummary
  {
  }

  /** The plain-text part of the summary e-mail. */
  function PlainText(message: string, summary: string): string
  {
    "Meeting Summary\n\n" + message + "\n\n" + summary + "\n\nGenerated using AI Summarizer."
  }

  const PlainHead := "Meeting Summary\n\n"
  const PlainTail := "\n\nGenerated using AI Summarizer."

  /** Reads the summary back out of a plain-text body, given the message's length. */
  function SummaryOfPlainText(text: string, messageLength: nat): string
  {
    var start := |PlainHead| + messageLength + 2;
    if start + |PlainTail| <= |text| then text[start..|text| - |PlainTail|] else ""
  }

  /** The summary and the message sit verbatim in the plain-text body. */
  lemma PlainTextEmbedsSummary(message: string, summary: string)
    ensures SummaryOfPlainText(PlainText(message, summary), |message|) == summary
    ensures PlainText(message, summary)[|PlainHead|..|PlainHead| + |message|] == message
  {
    var t := PlainText(message, summary);
    assert t == PlainHead + message + "\n\n" + summary + PlainTail;
    var start := |PlainHead| + |message| + 2;
    assert t[start..|t| - |PlainTail|] == summary;
  }

  /** The values `generateEmailTemplate` receives; the HTML itself embeds a local time. */
  datatype HtmlBody =
    | SummaryTemplate(message: string, summary: string, originalPrompt: string, model: string, tokensUsed: int)
    | TestTemplate

  datatype MailOptions = MailOptions(from: string, to: string, subject: string, html: HtmlBody, text: string)

  /** `process.env.EMAIL_USER` and `process.env.EMAIL_PASSWORD`. */
  datatype MailEnv = MailEnv(user: Option<string>, password: Option<string>)

  predicate MailConfigured(env: MailEnv) {
    Truthy(env.user) && Truthy(env.password)
  }

  /** `sendSummaryEmail` up to `sendMail`: `found` is what `getSummaryById` returned.
      The checks run in the order summary, configuration, transporter verification. */
  function SendSummaryEmail(
    found: Option<Summary>, recipientEmails: seq<string>, subject: Option<string>, message: Option<string>,
    env: MailEnv, verifies: bool): (r: Result<MailOptions>)
    ensures found.None? ==> r == Err(SummaryNotFound)
    ensures found.Some? && !MailConfigured(env) ==> r == Err(MailNotConfigured)
    ensures found.Some? && MailConfigured(env) && !verifies ==> r == Err(MailConfigError)
    ensures r.Ok? <==> found.Some? && MailConfigured(env) && verifies
    ensures r.Ok? ==>
              && r.value.from == env.user.value
              && r.value.to == Join(recipientEmails, ", ")
              && r.value.subject == (if Truthy(subject) then subject.value else DefaultSubject)
              && r.value.text == PlainText(OrDefault(message, DefaultMessage), EffectiveSummary(found.value))
              && r.value.html == SummaryTemplate(OrDefault(message, DefaultMessage), EffectiveSummary(found.value),
                                                 found.value.originalPrompt, found.value.model, found.value.tokensUsed)
  {
    if found.None? then Err(SummaryNotFound)
    else
      var finalSummary := EffectiveSummary(found.value);
      if !MailConfigured(env) then Err(MailNotConfigured)
      else if !verifies then Err(MailConfigError)
      else
        var emailSubject := OrDefault(subject, DefaultSubject);
        var emailMessage := OrDefault(message, DefaultMessage);
        Ok(MailOptions(
          env.user.value,
          Join(recipientEmails, ", "),
          emailSubject,
          SummaryTemplate(emailMessage, finalSummary, found.value.originalPrompt, found.value.model, found.value.tokensUsed),
          PlainText(emailMessage, finalSummary)))
  }

  /** `sendTestEmail` up to `sendMail`: configuration, then verification. */
  function SendTestEmail(testEmail: string, env: MailEnv, verifies: bool): (r: Result<MailOptions>)
    ensures !MailConfigured(env) ==> r == Err(MailNotConfigured)
    ensures MailConfigured(env) && !verifies ==> r == Err(MailConfigError)
    ensures r.Ok? <==> MailConfigured(env) && verifies
    ensures r.Ok? ==> r.value == MailOptions(env.user.value, testEmail, TestSubject, TestTemplate, TestText)
  {
    if !MailConfigured(env) then Err(MailNotConfigured)
    else if !verifies then Err(MailConfigError)
    else Ok(MailOptions(env.user.value, testEmail, TestSubject, TestTemplate, TestText))
  }

  /** The `to` header lists the recipients in their order: adding one more recipient
      appends `", "` and that address. */
  lemma RecipientsJoinedInOrder(recipients: seq<string>, extra: string)
    requires recipients != []
    ensures Join(recipients + [extra], ", ") == Join(recipients, ", ") + ", " + extra
  {
    JoinSnoc(recipients, extra, ", ");
  }
}
