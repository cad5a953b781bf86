/** The e-mail form (frontend/src/components/EmailSender.jsx): the recipient list that
    is never empty, the payload handed to `onSend`, and the test-mail form. The
    recipient filter is the one the e-mail service applies. */
module EmailSender {
  import opened Wrappers
  import opened JsText
  import opened Json
  import opened Validation
  import opened EmailService

  /** The object `handleSend` passes to `onSend`. */
  datatype EmailPayload = EmailPayload(recipientEmails: seq<string>, subject: string, message: string)

  /** The payload as a JSON object, the way `JSON.stringify` spreads it into the request. */
  function PayloadJson(p: EmailPayload): (o: Object)
    ensures o.Keys == {"recipientEmails", "subject", "message"}
    ensures o["recipientEmails"] == JArr(Strings(p.recipientEmails))
    ensures StringField(o, "subject") == Some(p.subject) && StringField(o, "message") == Some(p.message)
  {
    map["recipientEmails" := JArr(Strings(p.recipientEmails)), "subject" := JStr(p.subject), "message" := JStr(p.message)]
  }

  /** `s.trim() || fallback`. */
  function TrimmedOr(s: string, fallback: string): (r: string)
    ensures IsBlank(s) ==> r == fallback
    ensures !IsBlank(s) ==> r == Trim(s) && r != ""
  {
    if Trim(s) == "" then fallback else Trim(s)
  }

  /** The component's `validateEmails()`: `false` (here `None`) when no entry passes,
      otherwise the passing entries. */
  function CheckRecipients(recipients: seq<string>): (r: Option<seq<string>>)
    ensures r.None? <==> forall k :: 0 <= k < |recipients| ==> !AcceptedRecipient(recipients[k])
    ensures r.Some? ==> r.value == ValidRecipients(recipients) && r.value != []
  {
    match ValidateEmails(recipients)
    case Err(_) => None
    case Ok(valid) => Some(valid)
  }

  /** Every entry trimmed. */
  function TrimAll(xs: seq<string>): (r: seq<string>)
    ensures |r| == |xs| && forall k :: 0 <= k < |xs| ==> r[k] == Trim(xs[k])
  {
    seq(|xs|, k requires 0 <= k < |xs| => Trim(xs[k]))
  }

  /** The payload `handleSend` builds as written: the passing entries are sent untrimmed. */
  function PayloadAsWritten(recipients: seq<string>, subject: string, message: string): (r: Option<EmailPayload>)
    ensures r.None? <==> CheckRecipients(recipients).None?
    ensures r.Some? ==> r.value.recipientEmails == ValidRecipients(recipients)
  {
    match CheckRecipients(recipients)
    case None => None
    case Some(valid) => Some(EmailPayload(valid, TrimmedOr(subject, DefaultSubject), TrimmedOr(message, DefaultMessage)))
  }

  /** The payload `handleSend` evidently means to build: the passing entries, trimmed
      the way they were checked. */
  function Payload(recipients: seq<string>, subject: string, message: string): (r: Option<EmailPayload>)
    ensures r.None? <==> forall k :: 0 <= k < |recipients| ==> !AcceptedRecipient(recipients[k])
    ensures r.Some? ==> r.value.recipientEmails == TrimAll(ValidRecipients(recipients)) && r.value.recipientEmails != []
    ensures r.Some? ==> r.value.subject == TrimmedOr(subject, DefaultSubject) && r.value.message == TrimmedOr(message, DefaultMessage)
  {
    match CheckRecipients(recipients)
    case None => None
    case Some(valid) => Some(EmailPayload(TrimAll(valid), TrimmedOr(subject, DefaultSubject), TrimmedOr(message, DefaultMessage)))
  }

  /** The request body the server's validator reads, for a payload sent under `summaryId`. */
  function RequestBody(summaryId: string, p: EmailPayload): EmailRequestBody
  {
    EmailRequestBody(Some(summaryId), Some(p.recipientEmails), Some(p.subject), Some(p.message))
  }

  /** As written, an address the form accepts only once trimmed reaches the server
      untrimmed, and the server refuses the whole request because of it. */
  lemma AcceptedButInvalidRejected(raw: string, summaryId: string)
    requires summaryId != ""
    requires AcceptedRecipient(raw) && !ValidEmail(raw)
    ensures PayloadAsWritten([raw], DefaultSubject, DefaultMessage).Some?
    ensures ValidateEmailRequest(RequestBody(summaryId, PayloadAsWritten([raw], DefaultSubject, DefaultMessage).value))
            == Reject(400, "Invalid email format: " + raw)
  {
    var list: seq<string> := [raw];
    assert list[1..] == [];
    assert ValidRecipients(list) == list;
    assert FirstInvalid(list) == Some(0);
  }

  /** `" a@b.co"`, typed with a leading space, is such an address: it passes the form's
      trimmed check but not the server's raw one. */
  lemma PaddedAddressAcceptedNotValid()
    ensures AcceptedRecipient(" a@b.co") && !ValidEmail(" a@b.co")
  {
    TrimOfPaddedAddress();
    PlainAddressValid();
    var raw := " a@b.co";
    assert IsSpace(raw[0]);
  }

  lemma TrimOfPaddedAddress()
    ensures Trim(" a@b.co") == "a@b.co"
  {
    var raw := " a@b.co";
    var clean := "a@b.co";
    assert IsSpace(raw[0]) && raw[1..] == clean && !IsSpace(clean[0]);
    assert TrimStart(clean) == clean;
    assert TrimStart(raw) == clean;
    assert !IsSpace(clean[|clean| - 1]);
  }

  lemma PlainAddressValid()
    ensures ValidEmail("a@b.co")
  {
    var clean := "a@b.co";
    assert clean[..1] == "a" && clean[2..3] == "b" && clean[4..] == "co";
    assert AddressChar('a') && AddressChar('b') && AddressChar('c') && AddressChar('o');
    assert AllAddressChars("a") && AllAddressChars("b") && AllAddressChars("co");
    SplitIsValidEmail(clean, 1, 3);
  }

  /** Corrected, every payload the form lets through passes the server's validator. */
  lemma PayloadPassesServerValidation(recipients: seq<string>, subject: string, message: string, summaryId: string, p: EmailPayload)
    requires summaryId != ""
    requires Payload(recipients, subject, message) == Some(p)
    ensures ValidateEmailRequest(RequestBody(summaryId, p)) == Next
  {
    var valid := ValidRecipients(recipients);
    AcceptedTrimmedAreValid(valid);
    ValidAddressesPass(summaryId, p);
  }

  /** A non-empty list of valid addresses under a non-empty id passes the validator. */
  lemma ValidAddressesPass(summaryId: string, p: EmailPayload)
    requires summaryId != "" && p.recipientEmails != []
    requires forall k :: 0 <= k < |p.recipientEmails| ==> ValidEmail(p.recipientEmails[k])
    ensures ValidateEmailRequest(RequestBody(summaryId, p)) == Next
  {
  }

  /** Entries the filter accepts are valid addresses once trimmed. */
  lemma AcceptedTrimmedAreValid(xs: seq<string>)
    requires forall x :: x in xs ==> AcceptedRecipient(x)
    ensures forall k :: 0 <= k < |TrimAll(xs)| ==> ValidEmail(TrimAll(xs)[k])
  {
    var sent := TrimAll(xs);
    forall k | 0 <= k < |sent| ensures ValidEmail(sent[k]) {
      assert xs[k] in xs;
    }
  }

  /** `s.filter((_, i) => i !== index)`: position `index` removed, if there is one. */
  function RemoveAt(s: seq<string>, index: int): (r: seq<string>)
    ensures 0 <= index < |s| ==> |r| == |s| - 1
    ensures 0 <= index < |s| ==> (forall k :: 0 <= k < index ==> r[k] == s[k]) && (forall k :: index <= k < |r| ==> r[k] == s[k + 1])
    ensures !(0 <= index < |s|) ==> r == s
  {
    if 0 <= index < |s| then s[..index] + s[index + 1..] else s
  }

  /** The form's state. */
  class EmailForm {
    var recipients: seq<string>
    var subject: string
    var message: string
    var isSending: bool
    var showTestEmail: bool
    var testEmail: string

    /** Between handlers: at least one recipient row, and no send in flight. */
    ghost predicate Valid()
      reads this
    {
      |recipients| >= 1 && !isSending
    }

    constructor ()
      ensures Valid()
      ensures recipients == [""] && subject == DefaultSubject && message == DefaultMessage
      ensures !showTestEmail && testEmail == ""
    {
      recipients := [""];
      subject := DefaultSubject;
      message := DefaultMessage;
      isSending := false;
      showTestEmail := false;
      testEmail := "";
    }

    /** `addRecipient`: one more empty row at the end. */
    method AddRecipient()
      requires Valid()
      modifies this
      ensures Valid() && recipients == old(recipients) + [""]
      ensures subject == old(subject) && message == old(message)
      ensures showTestEmail == old(showTestEmail) && testEmail == old(testEmail)
    {
      recipients := recipients + [""];
    }

    /** `removeRecipient(index)`: only while more than one row is left. */
    method RemoveRecipient(index: int)
      requires Valid()
      modifies this
      ensures Valid()
      ensures |old(recipients)| > 1 ==> recipients == RemoveAt(old(recipients), index)
      ensures |old(recipients)| == 1 ==> recipients == old(recipients)
      ensures subject == old(subject) && message == old(message)
      ensures showTestEmail == old(showTestEmail) && testEmail == old(testEmail)
    {
      if |recipients| > 1 {
        recipients := RemoveAt(recipients, index);
      }
    }

    /** `updateRecipient(index, value)` for a row on screen. */
    method UpdateRecipient(index: nat, value: string)
      requires Valid() && index < |recipients|
      modifies this
      ensures Valid() && |recipients| == |old(recipients)|
      ensures recipients[index] == value
      ensures forall k :: 0 <= k < |recipients| && k != index ==> recipients[k] == old(recipients)[k]
      ensures subject == old(subject) && message == old(message)
      ensures showTestEmail == old(showTestEmail) && testEmail == old(testEmail)
    {
      recipients := recipients[index := value];
    }

    /** The subject and message inputs. */
    method SetSubjectAndMessage(newSubject: string, newMessage: string)
      requires Valid()
      modifies this
      ensures Valid() && subject == newSubject && message == newMessage
      ensures recipients == old(recipients) && showTestEmail == old(showTestEmail) && testEmail == old(testEmail)
    {
      subject := newSubject;
      message := newMessage;
    }

    /** The test-address input and its show/hide toggle. */
    method SetTestEmail(value: string, toggle: bool)
      requires Valid()
      modifies this
      ensures Valid() && testEmail == value
      ensures showTestEmail == (if toggle then !old(showTestEmail) else old(showTestEmail))
      ensures recipients == old(recipients) && subject == old(subject) && message == old(message)
    {
      testEmail := value;
      if toggle {
        showTestEmail := !showTestEmail;
      }
    }

    /** `handleSend`: `sent` is what is handed to `onSend`; nothing is sent when no
        recipient passes. The form's own state is the same afterwards. */
    method HandleSend() returns (sent: Option<EmailPayload>)
      requires Valid()
      modifies this
      ensures Valid()
      ensures sent == Payload(recipients, subject, message)
      ensures recipients == old(recipients) && subject == old(subject) && message == old(message)
      ensures showTestEmail == old(showTestEmail) && testEmail == old(testEmail)
    {
      var payload := Payload(recipients, subject, message);
      if payload.None? {
        return None;
      }
      var p := Deliver(payload.value);
      sent := Some(p);
    }

    /** The send itself: `isSending` is raised while `onSend` runs and lowered afterwards. */
    method Deliver(payload: EmailPayload) returns (p: EmailPayload)
      requires Valid()
      modifies this
      ensures Valid() && p == payload
      ensures recipients == old(recipients) && subject == old(subject) && message == old(message)
      ensures showTestEmail == old(showTestEmail) && testEmail == old(testEmail)
    {
      isSending := true;
      p := payload;
      isSending := false;
    }

    /** `handleTestEmail`: a blank address, then a malformed one, is refused before any
        request; `sent` is the trimmed address posted, and `reply` the server's answer. */
    method HandleTestEmail(reply: Result<HttpResponse>) returns (sent: Option<string>)
      requires Valid()
      modifies this
      ensures Valid()
      ensures IsBlank(old(testEmail)) ==> sent == None
      ensures sent.Some? <==> ValidEmail(Trim(old(testEmail)))
      ensures sent.Some? ==> sent.value == Trim(old(testEmail)) && ValidateTestEmailRequest(sent) == Next
      ensures sent.Some? && reply.Ok? && ResponseOk(reply.value) ==> !showTestEmail && testEmail == ""
      ensures !(sent.Some? && reply.Ok? && ResponseOk(reply.value)) ==>
                showTestEmail == old(showTestEmail) && testEmail == old(testEmail)
      ensures recipients == old(recipients) && subject == old(subject) && message == old(message)
    {
      var address := Trim(testEmail);
      if address == "" {
        return None;
      }
      if !ValidEmail(address) {
        return None;
      }
      isSending := true;
      sent := Some(address);
      if reply.Ok? && ResponseOk(reply.value) {
        showTestEmail := false;
        testEmail := "";
      }
      isSending := false;
    }
  }
}
