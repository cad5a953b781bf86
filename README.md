# AI Summarizer — a Dafny model of its core

The AI Summarizer is a web application. A user uploads a meeting transcript (`.txt` or
`.docx`) and writes an instruction (or picks an example one). A language-model
completion API turns the two into a summary. The user may edit the summary and then
e-mail it to a list of recipients.

This project models two parts:
- the Express backend, in its in-memory mode: the request validators, the error
  handler, the AI, file and e-mail services, and the summarize and upload controllers;
- the React front end: the wizard in `App.jsx` and its components (file upload, prompt
  input, summary editor, e-mail sender).

Each is modelled as Dafny datatypes, functions, lemmas and classes. Properties are proved
about them.

Modelling choices:
- The services' in-memory maps become classes (`SummaryStore`, `FileStore`). Each has a
  `created` flag for the lazily created map and a `map` field that the methods reassign.
- Each React component becomes a class whose fields are its `useState` variables. Its
  handlers are methods that state the whole new state.
- JSON bodies are `map<string, Json>`.
- JavaScript's `trim` whitespace set, truthiness, `lastIndexOf`, `substring` and
  POSIX `path.extname` are written out in `js_text.dfy` and `file_service.dfy`.

Everything outside the program becomes a parameter:
- the completion API is a function from request to completion;
- file contents, `mammoth`'s text, the transporter's `verify` outcome and the
  environment variables are values;
- what `fetch` returned is a `Result<HttpResponse>` (an `Err` when it threw);
- fresh ids (`uuid`) and the `new Date()` values are arguments; a date is held as the
  ISO 8601 string that `res.json` writes for it.

## Model

| member | source | states |
|---|---|---|
| Validation.ValidEmailMatchesPattern | backend/middleware/validation.js:1-4 | the character-level e-mail check holds exactly when the address matches `^[^\s@]+@[^\s@]+\.[^\s@]+$` (one `@`, no white space, non-empty local part, a `.` inside the domain), both directions |
| Validation.ValidEmailIsTrimmed | backend/middleware/validation.js:1-4 | a valid address is non-empty and has no surrounding white space |
| Validation.ValidateFileUpload | backend/middleware/validation.js:6-11 | the request passes exactly when a file is present; otherwise 400 "No file uploaded" |
| Validation.ValidateSummaryRequest | backend/middleware/validation.js:13-25 | a falsy `fileId` is rejected first; then an absent or blank prompt; it passes exactly when both are present and the prompt is not blank |
| Validation.FirstInvalid | backend/middleware/validation.js:39-43 | returns the first index whose address is invalid, with every earlier address valid; returns none exactly when all are valid |
| Validation.ValidateEmailRequest | backend/middleware/validation.js:27-46 | checks `summaryId`, then a non-empty recipient list, then each address; passes exactly when all three hold; otherwise reports the first invalid address in list order |
| Validation.ValidateTestEmailRequest | backend/middleware/validation.js:48-60 | a missing address is rejected before its format; passes exactly when the address is present and valid |
| ErrorHandler.HandleError | backend/middleware/errorHandler.js:1-75 | the status is always one of 400, 401, 429, 500; gives the ValidationError reply (with its `details`) and the Multer replies; 429 exactly for other errors with status 429; the raw message of a 500 is exposed only in development |
| ErrorHandler.ValidationErrorIgnoresStatusAndCode | backend/middleware/errorHandler.js:5-11 | a ValidationError maps to 400 whatever its status or code |
| ErrorHandler.StatusDecidedBeforeCode | backend/middleware/errorHandler.js:27-46 | statuses 400, 401 and 429 pass through unchanged, and the code cannot change the reply |
| ErrorHandler.MailCodes | backend/middleware/errorHandler.js:49-74 | with no decisive status: EAUTH maps to 401, ECONNECTION to 500, EMESSAGE to 400; any other code, or none, falls to the 500 default |
| AiService.UserPromptEmbedsBoth | backend/services/aiService.js:23-28 | the instruction and the transcript can both be read back from the user message |
| AiService.BuildRequest | backend/services/aiService.js:31-47 | the request uses model `llama3-8b-8192`, 4000 max tokens, no streaming, the fixed system prompt and the user message built from both inputs |
| AiService.TokensUsed | backend/services/aiService.js:64 | `total_tokens` when the usage reports it, 0 otherwise |
| AiService.WithEdit | backend/services/aiService.js:122-124 | sets `editedSummary` and `updatedAt`; every other field is unchanged |
| AiService.EditIdempotent | backend/services/aiService.js:122-124 | applying the same edit twice gives the same record as applying it once (only the later timestamp survives) |
| AiService.SummaryStore.constructor | backend/services/aiService.js:81-83 | a new store has no map and no entries |
| AiService.SummaryStore.GetSummaryById | backend/services/aiService.js:89-101 | returns the record exactly when the id is stored (none for an absent key or an uninitialised map), and the record carries that id |
| AiService.SummaryStore.GenerateSummary | backend/services/aiService.js:6-87 | no API key fails before any call; empty content fails; both leave the store unchanged; on success the record has the arguments, the content, the model and the token count, is stored under its id, and reads back; no other entry changes |
| AiService.SummaryStore.UpdateSummary | backend/services/aiService.js:103-127 | an unknown id fails with "Summary not found" and changes nothing; otherwise only that entry changes, by `WithEdit`, and its `generatedSummary` is kept |
| FileService.ExtnameOfPlainName | backend/services/fileService.js:9 | for a name with no directory part and a `.` after its first character, `path.extname` is the suffix from the last `.` |
| FileService.ExtractTextFromFile | backend/services/fileService.js:8-28 | succeeds exactly for `.txt` or `.docx` (after lower-casing) whose text is not blank; a `.txt` result is the contents verbatim; every failure is "Could not extract text from the uploaded file" |
| FileService.UpperCaseTxtAccepted | backend/services/fileService.js:9-13 | a `.TXT` name is read as a text file |
| FileService.FileStore.constructor | backend/services/fileService.js:49-51 | a new store has no map and no entries |
| FileService.FileStore.GetFileById | backend/services/fileService.js:63-75 | returns the record exactly when the id is stored, and the record carries that id |
| FileService.FileStore.SaveFileInfo | backend/services/fileService.js:30-61 | stores, under the fresh id, a record whose text is the argument and whose other fields are copied from the upload; no other entry changes, and it reads back |
| FileService.FileStore.DeleteFile | backend/services/fileService.js:77-94 | the id is gone afterwards and the other entries are unchanged; an absent id is a no-op; a stored file's path is handed to `unlink` |
| EmailService.ValidRecipients | backend/services/emailService.js:146-148 | keeps exactly the entries whose trim is a valid address, untrimmed, and never more than the input |
| EmailService.ValidRecipientsAppend | backend/services/emailService.js:146-148 | the filter distributes over concatenation, so the input order is kept |
| EmailService.ValidRecipientsKeepsAll | backend/services/emailService.js:146-148 | when every entry is accepted, the list is returned unchanged |
| EmailService.ValidateEmails | backend/services/emailService.js:146-155 | fails with "Please enter at least one valid email address" exactly when no entry is accepted; otherwise returns the filtered list, which is not empty |
| EmailService.ApprovedRequestKeepsAllRecipients | backend/services/emailService.js:146-155 | a request that passed the middleware loses no recipient in the service's own filter |
| EmailService.EffectiveSummary | backend/services/emailService.js:12 | the edited text when it is non-empty, the generated summary otherwise |
| EmailService.EffectiveAfterEdit | backend/services/emailService.js:12 | after a non-empty edit, the mail carries the edited text, and the generated summary is kept |
| EmailService.PlainTextEmbedsSummary | backend/services/emailService.js:48 | the message and the summary can both be read back from the plain-text body |
| EmailService.SendSummaryEmail | backend/services/emailService.js:5-65 | the checks run in the order: unknown summary, missing credentials, failed verification; on success the mail goes from the user to the joined recipients, with a defaulted subject and message and the effective summary |
| EmailService.SendTestEmail | backend/services/emailService.js:67-98 | missing credentials, then failed verification, are the only failures; otherwise the fixed test mail goes to the given address |
| EmailService.RecipientsJoinedInOrder | backend/services/emailService.js:45 | appending a recipient appends `", "` and that address to the `to` field |
| SummarizeController.SummaryJson | backend/controllers/summarizeController.js:17-22 | the serialised record has every mandatory field, has the optional ones exactly when set, and uses none of the response's own keys |
| SummarizeController.SummaryJsonRoundTrip | backend/controllers/summarizeController.js:17-22 | the record can be read back from its JSON |
| SummarizeController.GeneratedBody | backend/controllers/summarizeController.js:17-22 | the success body adds `success`, the message and `summary` equal to the generated text, and keeps every record field |
| SummarizeController.GeneratedBodyRoundTrip | backend/controllers/summarizeController.js:17-22 | the stored record can be read back from the success body |
| SummarizeController.GenerateSummary | backend/controllers/summarizeController.js:5-26 | an unknown file gives 404, and blank text gives 400; neither calls the AI service; the AI receives the trimmed text; with a key, the reply is 200 exactly when the completion has content; no key gives 500 "AI service not configured", empty content 500 "Failed to generate summary", and failures leave the store unchanged; success adds exactly the new record (the arguments, the content, the model, the timestamp, the token count) and returns it in the body |
| SummarizeController.GetSummary | backend/controllers/summarizeController.js:28-39 | 404 exactly when the id is unknown; otherwise 200 with a body from which the stored record reads back |
| SummarizeController.UpdatedBody | backend/controllers/summarizeController.js:50-55 | the body echoes the id and the edited text untrimmed |
| SummarizeController.UpdateSummary | backend/controllers/summarizeController.js:41-59 | absent or blank text gives 400 and leaves the store unchanged; an unknown id gives 500 "Summary not found"; otherwise the entry gets the edit and the body echoes it |
| UploadController.Preview | backend/controllers/uploadController.js:26 | the text itself when it fits the limit; otherwise its first `limit` characters plus `"..."`; never longer than the limit plus 3 |
| UploadController.PreviewTruncatedIff | backend/controllers/uploadController.js:26 | the preview is longer than the limit exactly when the text is, and it always starts with the text's prefix |
| UploadController.FileIdField | backend/controllers/uploadController.js:23 | `fileId` is present exactly when the record has an id |
| UploadController.UploadedBody | backend/controllers/uploadController.js:20-27 | the body reports success, the message, the original name, the text length, the 200-character preview and the id |
| UploadController.UploadFile | backend/controllers/uploadController.js:4-31 | an extraction failure gives 500 and stores nothing; otherwise the record is stored under the fresh id and the body describes it |
| UploadController.FileInfoJson | backend/controllers/uploadController.js:42-51 | the info carries the size, the text length and a 500-character preview, but not the text itself |
| UploadController.GetFileInfo | backend/controllers/uploadController.js:33-56 | 404 exactly when the file is unknown; otherwise 200 with the file's info |
| UploadController.DeleteFile | backend/controllers/uploadController.js:58-70 | always reports success; afterwards the file is unknown and the other files are unchanged |
| TextStats.Words | frontend/src/components/EmailSender.jsx:106 | the words are non-empty and contain no white space; there are none exactly when the text is blank |
| TextStats.SplitGivesWords | frontend/src/components/EmailSender.jsx:106 | splitting on white-space runs and dropping empty pieces gives exactly the words |
| TextStats.WordsOfTrim | frontend/src/components/EmailSender.jsx:106 | trimming first does not change the words |
| TextStats.WordCount | frontend/src/components/SummaryEditor.jsx:78 | the number of words of the text; zero exactly when the text is blank |
| App.SummaryRequestFor | frontend/src/App.jsx:33-36 | the request carries the instruction and the upload's `fileId` when it has one |
| App.UploadedFileCanBeSummarized | frontend/src/App.jsx:33-36 | the request built from an upload response and a non-blank instruction passes the server's summary validation |
| App.StringsOf | frontend/src/App.jsx:71-74 | reading a JSON array as strings keeps its length |
| App.StringsRoundTrip | frontend/src/App.jsx:71-74 | a list of strings reads back from its JSON array |
| App.EmailRequestAsWritten | frontend/src/App.jsx:71-74 | the request has `summaryId` only when the summary data or the form data has one; the form fields are kept |
| App.AsWrittenEmailRequestRejected | frontend/src/App.jsx:72 | the summary data after generation and editing has no `summaryId`, so the request is rejected with 400 "Summary ID is required" |
| App.EmailRequestFor | frontend/src/App.jsx:71-74 | the request's `summaryId` is the summary's `id`; the form fields are kept |
| App.SummaryDataAfterEdit | frontend/src/App.jsx:56-62 | the summary data after generation and editing has `id` and no `summaryId` |
| App.EmailRequestReadsBack | frontend/src/App.jsx:71-74 | the server reads back exactly the summary id and the form's payload |
| App.CorrectedEmailRequestAccepted | frontend/src/App.jsx:64-89 | a payload the form sends, joined to the edited summary's id, passes the server's e-mail validation |
| App.Wizard.constructor | frontend/src/App.jsx:11-15 | starts on step 1 with no file, an empty prompt, no summary, not loading |
| App.Wizard.HandleFileUpload | frontend/src/App.jsx:17-21 | stores the upload and moves to step 2; nothing else changes |
| App.Wizard.HandlePromptSubmit | frontend/src/App.jsx:23-54 | records the prompt; sends a request only with an upload; success stores the response and moves to step 3; anything else leaves the summary and step unchanged; not loading afterwards |
| App.Wizard.HandleSummaryUpdate | frontend/src/App.jsx:56-62 | replaces only the `summary` field of the summary data |
| App.Wizard.HandleEmailSend | frontend/src/App.jsx:64-89 | corrected (see Findings, App.jsx:72): sends the request whose `summaryId` is the summary's `id`; success moves to step 4; failure leaves the step unchanged; no other field changes |
| App.Wizard.Previous | frontend/src/App.jsx:224-231 | available only above step 1, moves one step back and keeps the step in 1..4 |
| App.Wizard.Next | frontend/src/App.jsx:233-239 | available only below step 4, moves one step on and keeps the step in 1..4 |
| App.Wizard.ShareViaEmail | frontend/src/App.jsx:181-187 | from step 3 with a summary, moves to step 4 |
| App.Wizard.ResetApp | frontend/src/App.jsx:91-97 | restores every field to its initial value |
| EmailSender.PayloadJson | frontend/src/components/EmailSender.jsx:50-54 | the body has exactly the recipients, the subject and the message |
| EmailSender.TrimmedOr | frontend/src/components/EmailSender.jsx:52-53 | a blank field falls back to the default; otherwise the trimmed value, which is not empty |
| EmailSender.CheckRecipients | frontend/src/components/EmailSender.jsx:30-40 | none exactly when no entry's trim is a valid address; otherwise the accepted entries in order, which are not empty |
| EmailSender.TrimAll | frontend/src/components/EmailSender.jsx:50-54 | each entry trimmed, the length kept |
| EmailSender.PayloadAsWritten | frontend/src/components/EmailSender.jsx:42-61 | sends nothing exactly when no entry is accepted; otherwise sends the accepted entries untrimmed |
| EmailSender.AcceptedButInvalidRejected | frontend/src/components/EmailSender.jsx:30-40 | at the handler: an entry accepted only after trimming is sent untrimmed, and the server would reject it with "Invalid email format: " and the entry |
| EmailSender.PaddedAddressAcceptedNotValid | frontend/src/components/EmailSender.jsx:30-40 | `" a@b.co"` is accepted by `validateEmails` but is not a valid address |
| EmailSender.Payload | frontend/src/components/EmailSender.jsx:42-61 | sends nothing exactly when no entry is accepted; otherwise the accepted entries trimmed, in order and non-empty, with the trimmed subject and message or their defaults |
| EmailSender.PayloadPassesServerValidation | frontend/src/components/EmailSender.jsx:42-61 | whatever the form sends passes the server's e-mail validation |
| EmailSender.RemoveAt | frontend/src/components/EmailSender.jsx:19 | removes exactly the entry at the index and keeps the others in order |
| EmailSender.EmailForm.constructor | frontend/src/components/EmailSender.jsx:6-11 | starts with one empty recipient, the default subject and message, and the test field hidden and empty |
| EmailSender.EmailForm.AddRecipient | frontend/src/components/EmailSender.jsx:13-15 | appends exactly one empty entry |
| EmailSender.EmailForm.RemoveRecipient | frontend/src/components/EmailSender.jsx:17-22 | removes the entry only when there are more than one, so the list is never empty |
| EmailSender.EmailForm.UpdateRecipient | frontend/src/components/EmailSender.jsx:24-28 | changes only the given position and keeps the length |
| EmailSender.EmailForm.SetSubjectAndMessage | frontend/src/components/EmailSender.jsx:175-186 | the subject and message inputs replace their fields only |
| EmailSender.EmailForm.SetTestEmail | frontend/src/components/EmailSender.jsx:197-239 | the test address input and the show/hide toggle change only their fields |
| EmailSender.EmailForm.HandleSend | frontend/src/components/EmailSender.jsx:42-61 | sends exactly the corrected payload, nothing when validation fails; the form fields are unchanged and nothing is in flight afterwards |
| EmailSender.EmailForm.Deliver | frontend/src/components/EmailSender.jsx:48-60 | `isSending` is false again once `onSend` returns; the form fields are unchanged |
| EmailSender.EmailForm.HandleTestEmail | frontend/src/components/EmailSender.jsx:63-104 | a blank address is refused before its format; sends the trimmed address exactly when it is valid, and the server accepts it; success hides and clears the field; otherwise the field is kept |
| SummaryEditor.ChangeFigure | frontend/src/components/SummaryEditor.jsx:143 | the absolute difference of the two lengths; zero exactly when they are equal |
| SummaryEditor.ChangeFigureSymmetric | frontend/src/components/SummaryEditor.jsx:143 | the figure does not depend on which text is the original |
| SummaryEditor.Editor.constructor | frontend/src/components/SummaryEditor.jsx:5-9 | starts with the prop as the edited text, not editing, no changes |
| SummaryEditor.Editor.ReceiveSummary | frontend/src/components/SummaryEditor.jsx:12-15 | a new summary prop resets the edited text to it and clears `hasChanges` |
| SummaryEditor.Editor.HandleTextChange | frontend/src/components/SummaryEditor.jsx:42-46 | `hasChanges` holds exactly when the new text differs from the original |
| SummaryEditor.Editor.HandleSave | frontend/src/components/SummaryEditor.jsx:48-62 | a no-op without changes; otherwise hands the text to `onUpdate`, clears `hasChanges` only on success, and nothing is in flight afterwards |
| SummaryEditor.Editor.AutoSave | frontend/src/components/SummaryEditor.jsx:18-32 | saves exactly when `handleSave` would (unsaved changes always differ from the original), with the same outcome |
| SummaryEditor.Editor.HandleReset | frontend/src/components/SummaryEditor.jsx:64-68 | restores the original text and clears `hasChanges` |
| SummaryEditor.Editor.HandleToggleEdit | frontend/src/components/SummaryEditor.jsx:70-76 | flips edit mode; leaving it with changes saves them first |
| PromptInput.ExamplesNumbered | frontend/src/components/PromptInput.jsx:8-45 | there are six examples with the distinct ids 1 to 6, in order |
| PromptInput.PromptForm.constructor | frontend/src/components/PromptInput.jsx:5-6 | starts with an empty instruction and no selection |
| PromptInput.PromptForm.SubmitDisabled | frontend/src/components/PromptInput.jsx:128 | the button is disabled exactly when the instruction is blank or a request is loading |
| PromptInput.PromptForm.HandleExampleSelect | frontend/src/components/PromptInput.jsx:47-50 | selecting an example copies its instruction and records its id |
| PromptInput.PromptForm.HandleCustomPrompt | frontend/src/components/PromptInput.jsx:60-63 | typing replaces the instruction and clears the selection |
| PromptInput.PromptForm.HandleSubmit | frontend/src/components/PromptInput.jsx:52-58 | submits the untrimmed instruction exactly when it is not blank, which is exactly when the idle button is enabled |
| FileUpload.ClientExtension | frontend/src/components/FileUpload.jsx:15-21 | the lower-cased name from its last `.` on, starting with `.`; the whole lower-cased name when there is no `.` |
| FileUpload.CheckDrop | frontend/src/components/FileUpload.jsx:10-27 | checks, in order, for no file, then a wrong extension, then a size over 10 MiB; a file that passes all three is accepted |
| FileUpload.SizeBoundary | frontend/src/components/FileUpload.jsx:24-27 | exactly 10 MiB is accepted, and one byte more is too large |
| FileUpload.NoDotRejected | frontend/src/components/FileUpload.jsx:15-21 | a name without a `.` is always the wrong type |
| FileUpload.ClientAgreesWithServer | frontend/src/components/FileUpload.jsx:15-21 | for an ordinary name, the client's extension is the one the file service dispatches on |
| FileUpload.LeadingDotNameDisagrees | frontend/src/components/FileUpload.jsx:15-21 | a name like `.txt` passes the client's check, but the server finds no extension and refuses to extract its text |
| FileUpload.Uploader.constructor | frontend/src/components/FileUpload.jsx:7-8 | starts not uploading and with no file |
| FileUpload.Uploader.OnDrop | frontend/src/components/FileUpload.jsx:10-55 | a rejected drop changes nothing; an accepted one is kept and handed on when the server answers 2xx, and cleared otherwise; never left uploading |

## Left out

- The MongoDB branches of the services and the summary and file schemas: only the in-memory mode is modelled.
- The completion API (Groq), `mammoth`, `fs.readFile`/`fs.unlink`, `nodemailer`'s `createTransport`/`verify`/`sendMail`, and `fetch` are foreign calls. Their results are parameters, and their own I/O errors are not modelled beyond the outcomes the code distinguishes.
- The result of `sendMail` (message id, accepted list) is not modelled.
- The HTML mail templates: `HtmlBody` records only the values they embed, not the markup.
- `uuid` and `new Date()` are arguments, and `toLocaleString` is left out.
- The buffer branch of `uploadFile` (uploadController.js:10-12) calls `extractTextFromBuffer`, which fileService.js does not define. Only the disk-path branch is modelled.
- Lengths are counted in characters, not UTF-16 code units. This affects the 200/500 previews, `textLength`, the change figure and the character count.
- Lower-casing is ASCII only.
- A JSON value of the wrong type where a string is expected is read as absent.
- The debounce timer of the summary editor and any interleaving of asynchronous handlers are not modelled.
- SummaryEditor.Editor.HandleToggleEdit: the save the source starts without awaiting is treated as finishing before edit mode flips.
- Toasts, console logging, rendering, `downloadSummary`, `formatFileSize` and the drop-zone configuration are not modelled. The toast texts of the upload step are kept only as constants.
- PromptInput.ExamplesNumbered: the six example instructions are kept verbatim, but the model states only their ids and count, not that their texts are non-blank.
- App.Wizard.HandleEmailSend: posts the corrected request. As written (App.jsx:72) the request has no `summaryId`, so every send is rejected with 400 and step 4 is never reached through this handler; App.AsWrittenEmailRequestRejected states that.
- EmailSender.EmailForm.HandleSend: sends the trimmed addresses (the corrected behaviour). In the rendered form this agrees with the source: the browser strips ASCII padding, and native validation blocks a submit with any other white space.
- The browser's sanitisation of `type="email"` inputs (EmailSender.jsx:136) and native form validation (line 129) are not modelled. The handler-level mismatch in Findings is therefore latent in the rendered component.
- The routes, server entry points, configuration and `emailController.js` are not part of this model.

## Findings

| source | as written | input that shows it | evidently intended | confidence | as-written member | corrected member |
|---|---|---|---|---|---|---|
| frontend/src/App.jsx:72 | the e-mail request takes `summaryId: summaryData.summaryId`, but the generate response (backend/controllers/summarizeController.js:17-22) carries the id under `id` | any generated summary, then Send | send the summary's `id` as `summaryId` | not executed | App.AsWrittenEmailRequestRejected | App.CorrectedEmailRequestAccepted |
| frontend/src/components/EmailSender.jsx:30-40 | `validateEmails` accepts an entry by its trimmed value but returns it untrimmed, and `handleSend` sends it (lines 50-54). The mismatch is latent: the inputs are `type="email"` (line 136) in a validating form (line 129), so the browser strips the padding before the handler sees it | the handler's state holding `" a@b.co"`, which the server would reject with 400 "Invalid email format:  a@b.co" | send the trimmed addresses | not executed; latent, masked by the input type | EmailSender.AcceptedButInvalidRejected | EmailSender.PayloadPassesServerValidation |
