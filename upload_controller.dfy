/** The upload controller (backend/controllers/uploadController.js): extraction, saving,
    and the preview-bearing JSON bodies. The file's bytes are not read here: the
    contents the `.txt` reader and the `.docx` converter would produce are parameters. */
module UploadController {
  import opened Wrappers
  import opened JsText
  import opened Json
  import opened FileService

  const Uploaded := "File uploaded and text extracted successfully"
  const Deleted := "File deleted successfully"
  const FileNotFound := "File not found"

  /** `text.substring(0, limit) + (text.length > limit ? '...' : '')`. */
  function Preview(text: string, limit: nat): (r: string)
    ensures |text| <= limit ==> r == text
    ensures |text| > limit ==> r == text[..limit] + "..." && |r| == limit + 3
    ensures |r| <= limit + 3
  {
    Prefix(text, limit) + (if |text| > limit then "..." else "")
  }

  /** The preview is longer than the limit exactly when the text was cut, and it always
      starts with the text's first characters. */
  lemma PreviewTruncatedIff(text: string, limit: nat)
    ensures |Preview(text, limit)| > limit <==> |text| > limit
    ensures Prefix(text, limit) <= Preview(text, limit)
  {
  }

  /** `savedFile.id || savedFile._id`: a memory-mode record has no `_id`, so an empty id
      leaves the key out of the body. */
  function FileIdField(rec: FileRecord): (o: Object)
    ensures rec.id != "" ==> o == map["fileId" := JStr(rec.id)]
    ensures rec.id == "" ==> o == map[]
  {
    if rec.id != "" then map["fileId" := JStr(rec.id)] else map[]
  }

  /** The success body of `uploadFile`. */
  function UploadedBody(rec: FileRecord, extractedText: string): (o: Object)
    ensures "success" in o && o["success"] == JBool(true)
    ensures StringField(o, "message") == Some(Uploaded)
    ensures StringField(o, "originalName") == Some(rec.originalName)
    ensures "textLength" in o && o["textLength"] == JNum(|extractedText|)
    ensures StringField(o, "preview") == Some(Preview(extractedText, 200))
    ensures StringField(o, "fileId") == (if rec.id != "" then Some(rec.id) else None)
  {
    map["success" := JBool(true), "message" := JStr(Uploaded)] + FileIdField(rec)
    + map["originalName" := JStr(rec.originalName), "textLength" := JNum(|extractedText|),
          "preview" := JStr(Preview(extractedText, 200))]
  }

  /** `uploadFile(req, res)` for a file multer stored on disk. Extraction fails before
      anything is saved; otherwise the record is saved under the fresh `fileId`. */
  method UploadFile(files: FileStore, fileData: UploadMeta, txtContents: string, docxText: string, fileId: string, now: Timestamp)
    returns (res: HttpResponse)
    requires files.Valid()
    requires fileId !in files.files
    modifies files
    ensures files.Valid()
    ensures ExtractTextFromFile(fileData.originalname, txtContents, docxText).Err? ==>
              res == ErrorResponse(500, ExtractionFailed) && files.files == old(files.files)
    ensures ExtractTextFromFile(fileData.originalname, txtContents, docxText).Ok? ==>
              var text := ExtractTextFromFile(fileData.originalname, txtContents, docxText).value;
              var rec := FileRecord(fileId, fileData.originalname, fileData.filename, fileData.path,
                                    fileData.size, fileData.mimetype, text, now);
              && files.files == old(files.files)[fileId := rec]
              && res == HttpResponse(200, UploadedBody(rec, text))
  {
    var extracted := ExtractTextFromFile(fileData.originalname, txtContents, docxText);
    if extracted.Err? {
      return ErrorResponse(500, extracted.message);
    }
    var savedFile := files.SaveFileInfo(fileData, extracted.value, fileId, now);
    res := HttpResponse(200, UploadedBody(savedFile, extracted.value));
  }

  /** The `file` object `getFileInfo` answers with. */
  function FileInfoJson(rec: FileRecord): (o: Object)
    ensures "fileSize" in o && o["fileSize"] == JNum(rec.fileSize)
    ensures "textLength" in o && o["textLength"] == JNum(|rec.extractedText|)
    ensures StringField(o, "preview") == Some(Preview(rec.extractedText, 500))
    ensures StringField(o, "originalName") == Some(rec.originalName)
    ensures "extractedText" !in o
  {
    (if rec.id != "" then map["id" := JStr(rec.id)] else map[])
    + map["originalName" := JStr(rec.originalName), "fileSize" := JNum(rec.fileSize),
          "textLength" := JNum(|rec.extractedText|), "uploadedAt" := JStr(rec.uploadedAt),
          "preview" := JStr(Preview(rec.extractedText, 500))]
  }

  /** `getFileInfo(req, res)`. */
  function GetFileInfo(files: FileStore, fileId: string): (res: HttpResponse)
    reads files
    requires files.Valid()
    ensures fileId !in files.files <==> res == ErrorResponse(404, FileNotFound)
    ensures fileId in files.files ==>
              && res.status == 200 && res.body.Keys == {"success", "file"}
              && res.body["file"] == JObj(FileInfoJson(files.files[fileId]))
  {
    var found := files.GetFileById(fileId);
    if found.None? then ErrorResponse(404, FileNotFound)
    else HttpResponse(200, map["success" := JBool(true), "file" := JObj(FileInfoJson(found.value))])
  }

  /** `deleteFile(req, res)`: success whether or not the id was known. `unlinked` is the
      path handed to `fs.unlink`, if any. */
  method DeleteFile(files: FileStore, fileId: string) returns (res: HttpResponse, unlinked: Option<string>)
    requires files.Valid()
    modifies files
    ensures files.Valid()
    ensures res == HttpResponse(200, map["success" := JBool(true), "message" := JStr(Deleted)])
    ensures files.files == old(files.files) - {fileId}
    ensures GetFileInfo(files, fileId) == ErrorResponse(404, FileNotFound)
    ensures unlinked.Some? <==> fileId in old(files.files)
  {
    unlinked := files.DeleteFile(fileId);
    res := HttpResponse(200, map["success" := JBool(true), "message" := JStr(Deleted)]);
  }
}
