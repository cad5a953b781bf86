/** The request-validation middleware (backend/middleware/validation.js): the e-mail
    pattern and the guard chains that run before the controllers. */
module Validation {
  import opened Wrappers
  import opened JsText

  /** What a middleware does with a request: pass it on, or answer it. */
  datatype Verdict = Next | Reject(status: int, error: string)

  /** A character of the class `[^\s@]`. */
  predicate AddressChar(c: char) {
    !IsSpace(c) && c != '@'
  }

  predicate AllAddressChars(s: string) {
    forall k :: 0 <= k < |s| ==> AddressChar(s[k])
  }

  /** The regular expression `^[^\s@]+@[^\s@]+\.[^\s@]+$` read literally: `s` splits as
      local part, `@`, domain head, `.`, domain tail, each part one or more `[^\s@]`. */
  ghost predicate MatchesEmailPattern(s: string) {
    exists at, dot ::
      0 < at && at + 1 < dot && dot + 1 < |s| && s[at] == '@' && s[dot] == '.'
      && AllAddressChars(s[..at]) && AllAddressChars(s[at + 1..dot]) && AllAddressChars(s[dot + 1..])
  }

  /** The domain holds a `.` that is neither its first nor its last character. */
  predicate InnerDot(d: string) {
    |d| >= 3 && '.' in d[1..|d| - 1]
  }

  /** `validateEmail(email)`, decided character by character: exactly one `@`, no white
      space, a non-empty part before the `@`, and an inner `.` after it. */
  predicate ValidEmail(s: string) {
    && NoSpace(s)
    && multiset(s)['@'] == 1
    && var at := IndexOf(s, '@');
       0 < at < |s| && InnerDot(s[at + 1..])
  }

  /** The character-level decision agrees with the regular expression, both ways. */
  lemma ValidEmailMatchesPattern(s: string)
    ensures ValidEmail(s) <==> MatchesEmailPattern(s)
  {
    if ValidEmail(s) {
      ValidEmailHasSplit(s);
    }
    if MatchesEmailPattern(s) {
      var at, dot :| 0 < at && at + 1 < dot && dot + 1 < |s| && s[at] == '@' && s[dot] == '.'
        && AllAddressChars(s[..at]) && AllAddressChars(s[at + 1..dot]) && AllAddressChars(s[dot + 1..]);
      SplitIsValidEmail(s, at, dot);
    }
  }

  lemma ValidEmailHasSplit(s: string)
    requires ValidEmail(s)
    ensures MatchesEmailPattern(s)
  {
    var at := IndexOf(s, '@');
    var d := s[at + 1..];
    var j :| 1 <= j < |d| - 1 && d[1..|d| - 1][j - 1] == '.';
    var dot := at + 1 + j;
    AtSplit(s, at);
    assert s[dot] == '.';
    assert AllAddressChars(s[..at]);
    assert AllAddressChars(s[at + 1..dot]);
    assert AllAddressChars(s[dot + 1..]);
  }

  lemma SplitIsValidEmail(s: string, at: nat, dot: nat)
    requires 0 < at && at + 1 < dot && dot + 1 < |s| && s[at] == '@' && s[dot] == '.'
    requires AllAddressChars(s[..at]) && AllAddressChars(s[at + 1..dot]) && AllAddressChars(s[dot + 1..])
    ensures ValidEmail(s)
  {
    var tail := s[at + 1..];
    DomainChars(s, at, dot);
    SingleAt(s, at);
    IndexOfAfterPrefix(s, at);
    assert tail[1..|tail| - 1][dot - at - 2] == '.';
  }

  /** The domain head, the `.` and the domain tail together are `[^\s@]` characters. */
  lemma DomainChars(s: string, at: nat, dot: nat)
    requires at + 1 < dot < |s| && s[dot] == '.'
    requires AllAddressChars(s[at + 1..dot]) && AllAddressChars(s[dot + 1..])
    ensures AllAddressChars(s[at + 1..])
  {
    var tail := s[at + 1..];
    forall k | 0 <= k < |tail| ensures AddressChar(tail[k]) {
      if k < dot - at - 1 {
        assert tail[k] == s[at + 1..dot][k];
      } else if k > dot - at - 1 {
        assert tail[k] == s[dot + 1..][k - (dot - at)];
      }
    }
  }

  /** An `@` between two runs of `[^\s@]` characters is the only `@`, and the whole has no
      white space. */
  lemma SingleAt(s: string, at: nat)
    requires at < |s| && s[at] == '@'
    requires AllAddressChars(s[..at]) && AllAddressChars(s[at + 1..])
    ensures NoSpace(s) && multiset(s)['@'] == 1 && '@' !in s[..at]
  {
    var tail := s[at + 1..];
    assert s == s[..at] + [s[at]] + tail;
    NoAtCount(s[..at]);
    NoAtCount(tail);
    assert multiset(s) == multiset(s[..at]) + multiset([s[at]]) + multiset(tail);
    forall k | 0 <= k < |s| ensures !IsSpace(s[k]) {
      if k < at {
        assert s[k] == s[..at][k];
      } else if k > at {
        assert s[k] == tail[k - at - 1];
      }
    }
    assert '@' !in s[..at] by {
      assert forall k :: 0 <= k < at ==> s[..at][k] != '@';
    }
  }

  /** At the first `@` of a string with a single `@`, every other character is `[^\s@]`. */
  lemma AtSplit(s: string, at: nat)
    requires NoSpace(s) && multiset(s)['@'] == 1
    requires at == IndexOf(s, '@') && at < |s|
    ensures forall k :: 0 <= k < |s| && k != at ==> AddressChar(s[k])
  {
    NoSecondAt(s, at);
    forall k | 0 <= k < |s| && k != at ensures s[k] != '@' {
      if k < at {
        assert s[k] == s[..at][k];
      } else {
        assert s[k] == s[at + 1..][k - at - 1];
      }
    }
  }

  lemma NoSecondAt(s: string, at: nat)
    requires at < |s| && s[at] == '@' && multiset(s)['@'] == 1
    ensures '@' !in s[at + 1..]
  {
    var tail := s[at + 1..];
    assert s == s[..at] + [s[at]] + tail;
    assert multiset(s) == multiset(s[..at]) + multiset([s[at]]) + multiset(tail);
  }

  lemma NoAtCount(s: string)
    requires AllAddressChars(s)
    ensures multiset(s)['@'] == 0
  {
    assert forall k :: 0 <= k < |s| ==> s[k] != '@';
    assert '@' !in s;
  }

  lemma IndexOfAfterPrefix(s: string, at: nat)
    requires at < |s| && s[at] == '@' && '@' !in s[..at]
    ensures IndexOf(s, '@') == at
  {
  }

  /** `validateFileUpload`: answers 400 exactly when multer left no file on the request. */
  function ValidateFileUpload<F>(file: Option<F>): (v: Verdict)
    ensures v.Next? <==> file.Some?
    ensures file.None? ==> v == Reject(400, "No file uploaded")
  {
    if file.None? then Reject(400, "No file uploaded") else Next
  }

  /** The body of `POST /api/summarize`; `None` is an absent (or non-string) field. */
  datatype SummaryRequestBody = SummaryRequestBody(fileId: Option<string>, customPrompt: Option<string>)

  /** `validateSummaryRequest`: the file id is checked first, then the prompt. */
  function ValidateSummaryRequest(body: SummaryRequestBody): (v: Verdict)
    ensures !Truthy(body.fileId) ==> v == Reject(400, "File ID is required")
    ensures Truthy(body.fileId) && (body.customPrompt.None? || IsBlank(body.customPrompt.value))
            ==> v == Reject(400, "Custom prompt is required")
    ensures v.Next? <==> Truthy(body.fileId) && body.customPrompt.Some? && !IsBlank(body.customPrompt.value)
  {
    if !Truthy(body.fileId) then Reject(400, "File ID is required")
    else if !Truthy(body.customPrompt) || |Trim(body.customPrompt.value)| == 0 then Reject(400, "Custom prompt is required")
    else Next
  }

  /** The body of `POST /api/email/send`; `recipientEmails` is `None` when absent or not an array. */
  datatype EmailRequestBody = EmailRequestBody(
    summaryId: Option<string>,
    recipientEmails: Option<seq<string>>,
    subject: Option<string>,
    message: Option<string>)

  /** The position of the first address `validateEmail` refuses, if any. */
  function FirstInvalid(emails: seq<string>): (r: Option<nat>)
    ensures r.Some? ==> r.value < |emails| && !ValidEmail(emails[r.value])
    ensures r.Some? ==> forall k :: 0 <= k < r.value ==> ValidEmail(emails[k])
    ensures r.None? <==> forall k :: 0 <= k < |emails| ==> ValidEmail(emails[k])
  {
    if |emails| == 0 then None
    else if !ValidEmail(emails[0]) then Some(0)
    else match FirstInvalid(emails[1..])
      case None => None
      case Some(i) => Some(i + 1)
  }

  /** `validateEmailRequest`: summary id, then a non-empty recipient array, then each
      address in list order; the first refused address is named in the answer. */
  function ValidateEmailRequest(body: EmailRequestBody): (v: Verdict)
    ensures !Truthy(body.summaryId) ==> v == Reject(400, "Summary ID is required")
    ensures Truthy(body.summaryId) && (body.recipientEmails.None? || body.recipientEmails.value == [])
            ==> v == Reject(400, "At least one recipient email is required")
    ensures v.Next? <==> Truthy(body.summaryId) && body.recipientEmails.Some? && body.recipientEmails.value != []
                         && forall k :: 0 <= k < |body.recipientEmails.value| ==> ValidEmail(body.recipientEmails.value[k])
    ensures Truthy(body.summaryId) && body.recipientEmails.Some? && body.recipientEmails.value != []
            && v.Reject? ==>
              exists i :: 0 <= i < |body.recipientEmails.value|
                && !ValidEmail(body.recipientEmails.value[i])
                && (forall k :: 0 <= k < i ==> ValidEmail(body.recipientEmails.value[k]))
                && v == Reject(400, "Invalid email format: " + body.recipientEmails.value[i])
  {
    if !Truthy(body.summaryId) then Reject(400, "Summary ID is required")
    else if body.recipientEmails.None? || |body.recipientEmails.value| == 0 then
      Reject(400, "At least one recipient email is required")
    else match FirstInvalid(body.recipientEmails.value)
      case Some(i) => Reject(400, "Invalid email format: " + body.recipientEmails.value[i])
      case None => Next
  }

  /** `validateTestEmailRequest`: a missing address is reported before a malformed one. */
  function ValidateTestEmailRequest(testEmail: Option<string>): (v: Verdict)
    ensures !Truthy(testEmail) ==> v == Reject(400, "Test email address is required")
    ensures Truthy(testEmail) && !ValidEmail(testEmail.value) ==> v == Reject(400, "Invalid email format")
    ensures v.Next? <==> testEmail.Some? && ValidEmail(testEmail.value)
  {
    if !Truthy(testEmail) then Reject(400, "Test email address is required")
    else if !ValidEmail(testEmail.value) then Reject(400, "Invalid email format")
    else Next
  }

  /** A valid address is never empty and holds no white space, so trimming leaves it alone. */
  lemma ValidEmailIsTrimmed(s: string)
    requires ValidEmail(s)
    ensures s != "" && Trim(s) == s
  {
    TrimNoSpace(s);
  }
}
