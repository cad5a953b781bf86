/** The Express error handler (backend/middleware/errorHandler.js): a decision table from
    the fields of a thrown error to an HTTP status and an `{ error, message }` body. */
module ErrorHandler {
  import opened Wrappers
  import opened Json

  /** The fields the handler reads: `name`, `message`, `status` (Groq client errors),
      `code` (multer and nodemailer errors) and `details`; absent fields are `None`. */
  datatype ErrorInfo = ErrorInfo(name: string, message: string, status: Option<int>, code: Option<string>, details: Option<Json>)

  /** The status and the `{ error, message, details }` body; `details` is `None` where the
      body has no such key (`res.json` drops an undefined value). */
  datatype ErrorReply = ErrorReply(status: int, error: string, message: string, details: Option<Json>)

  const Development := "development"

  /** True when the error's `status` field is the number `n`. */
  predicate StatusIs(err: ErrorInfo, n: int) {
    err.status == Some(n)
  }

  predicate CodeIs(err: ErrorInfo, c: string) {
    err.code == Some(c)
  }

  /** `errorHandler(err, ...)`, with `process.env.NODE_ENV` as `nodeEnv`. */
  function HandleError(err: ErrorInfo, nodeEnv: Option<string>): (r: ErrorReply)
    ensures r.status in {400, 401, 429, 500}
    ensures err.name == "ValidationError" ==> r == ErrorReply(400, "Validation Error", err.message, err.details)
    ensures err.name == "MulterError" && CodeIs(err, "LIMIT_FILE_SIZE")
            ==> r == ErrorReply(400, "File too large", "File size must be less than 10MB", None)
    ensures err.name == "MulterError" && !CodeIs(err, "LIMIT_FILE_SIZE")
            ==> r == ErrorReply(400, "File upload error", err.message, None)
    ensures r.status == 429 <==> err.name != "ValidationError" && err.name != "MulterError" && StatusIs(err, 429)
    ensures err.name != "ValidationError" ==> r.details == None
    ensures r.error == "Internal server error" ==> r.status == 500
    ensures r.error == "Internal server error" && nodeEnv != Some(Development) ==> r.message == "Something went wrong!"
    ensures r.error == "Internal server error" && nodeEnv == Some(Development) ==> r.message == err.message
  {
    if err.name == "ValidationError" then ErrorReply(400, "Validation Error", err.message, err.details)
    else if err.name == "MulterError" then
      if CodeIs(err, "LIMIT_FILE_SIZE") then ErrorReply(400, "File too large", "File size must be less than 10MB", None)
      else ErrorReply(400, "File upload error", err.message, None)
    else if StatusIs(err, 401) then ErrorReply(401, "Invalid API key", "Please check your Groq API configuration.", None)
    else if StatusIs(err, 429) then ErrorReply(429, "Rate limit exceeded", "Please try again later.", None)
    else if StatusIs(err, 400) then ErrorReply(400, "Invalid request to AI service", err.message, None)
    else if CodeIs(err, "EAUTH") then ErrorReply(401, "Email authentication failed", "Please check your email credentials.", None)
    else if CodeIs(err, "ECONNECTION") then ErrorReply(500, "Email service connection failed", "Please try again later.", None)
    else if CodeIs(err, "EMESSAGE") then ErrorReply(400, "Invalid email message format", err.message, None)
    else ErrorReply(500, "Internal server error", if nodeEnv == Some(Development) then err.message else "Something went wrong!", None)
  }

  /** A `ValidationError` is answered with 400 whatever its status and code say. */
  lemma ValidationErrorIgnoresStatusAndCode(err: ErrorInfo, status: Option<int>, code: Option<string>, nodeEnv: Option<string>)
    requires err.name == "ValidationError"
    ensures HandleError(err.(status := status, code := code), nodeEnv) == HandleError(err, nodeEnv)
    ensures HandleError(err, nodeEnv).status == 400
  {
  }

  /** A Groq status of 401, 429 or 400 passes through unchanged and is decided before
      any e-mail `code` is looked at. */
  lemma StatusDecidedBeforeCode(err: ErrorInfo, code: Option<string>, nodeEnv: Option<string>)
    requires err.name != "ValidationError" && err.name != "MulterError"
    requires err.status.Some? && err.status.value in {400, 401, 429}
    ensures HandleError(err, nodeEnv).status == err.status.value
    ensures HandleError(err.(code := code), nodeEnv) == HandleError(err, nodeEnv)
  {
  }

  /** Mail transport codes map to 401, 500 and 400 when no earlier rule applies; any other
      code, or none, falls through to the 500 default. */
  lemma MailCodes(err: ErrorInfo, nodeEnv: Option<string>)
    requires err.name != "ValidationError" && err.name != "MulterError"
    requires !StatusIs(err, 401) && !StatusIs(err, 429) && !StatusIs(err, 400)
    ensures CodeIs(err, "EAUTH") ==> HandleError(err, nodeEnv).status == 401
    ensures CodeIs(err, "ECONNECTION") ==> HandleError(err, nodeEnv).status == 500
    ensures CodeIs(err, "EMESSAGE") ==> HandleError(err, nodeEnv) == ErrorReply(400, "Invalid email message format", err.message, None)
    ensures !CodeIs(err, "EAUTH") && !CodeIs(err, "ECONNECTION") && !CodeIs(err, "EMESSAGE") ==>
              HandleError(err, nodeEnv).status == 500 && HandleError(err, nodeEnv).error == "Internal server error"
  {
  }
}
