/** The file service (backend/services/fileService.js) in its in-memory mode: text
    extraction dispatched on the file-name extension, and the process-wide
    `global.uploadedFiles` map. What `fs.readFile` and `mammoth.extractRawText` return
    is passed in; `uuidv4()` and `new Date()` are parameters. */
module FileService {
  import opened Wrappers
  import opened JsText

  const ExtractionFailed := "Could not extract text from the uploaded file"

  /** The multer file object fields the service copies. */
  datatype UploadMeta = UploadMeta(originalname: string, filename: string, path: string, size: nat, mimetype: string)

  datatype FileRecord = FileRecord(
    id: string,
    originalName: string,
    fileName: string,
    filePath: string,
    fileSize: nat,
    mimeType: string,
    extractedText: string,
    uploadedAt: Timestamp)

  /** `p` without its trailing `/` characters. */
  function StripTrailingSlashes(p: string): (r: string)
    ensures r <= p
    ensures r == "" || r[|r| - 1] != '/'
  {
    if |p| > 0 && p[|p| - 1] == '/' then StripTrailingSlashes(p[..|p| - 1]) else p
  }

  /** The last path component, as Node's POSIX `path` module sees it. */
  function LastComponent(p: string): (r: string)
    ensures '/' !in r
  {
    var q := StripTrailingSlashes(p);
    SubstringFrom(q, LastIndexOf(q, '/') + 1)
  }

  /** `path.extname(p)` (POSIX): from the last `.` of the last component to its end; empty
      when there is no `.`, when the only `.` starts the component, or for `..`. */
  function Extname(p: string): (r: string)
    ensures r == "" || (r[0] == '.' && '.' !in r[1..] && '/' !in r)
  {
    var part := LastComponent(p);
    var d := LastIndexOf(part, '.');
    if d <= 0 || part == ".." then "" else part[d..]
  }

  /** For a name without `/` whose last `.` sits at position `d > 0`, the extension is
      everything from that `.` on (`..` excepted). */
  lemma ExtnameOfPlainName(name: string, d: nat)
    requires '/' !in name && name != ".."
    requires 0 < d < |name| && name[d] == '.'
    requires forall k :: d < k < |name| ==> name[k] != '.'
    ensures Extname(name) == name[d..]
  {
    assert name[|name| - 1] != '/';
    assert StripTrailingSlashes(name) == name;
    assert LastComponent(name) == name;
    LastIndexOfAt(name, '.', d);
  }

  /** The extension as the service compares it: `path.extname(name).toLowerCase()`. */
  function ExtensionOf(originalName: string): string
  {
    LowerAscii(Extname(originalName))
  }

  /** `extractTextFromFile(filePath, originalName)`. `txtContents` is what reading the file
      as UTF-8 gives, `docxText` what the .docx converter gives. */
  function ExtractTextFromFile(originalName: string, txtContents: string, docxText: string): (r: Result<string>)
    ensures r.Ok? ==> ((ExtensionOf(originalName) == ".txt" && r.value == txtContents)
                       || (ExtensionOf(originalName) == ".docx" && r.value == docxText))
    ensures r.Ok? <==> ((ExtensionOf(originalName) == ".txt" && !IsBlank(txtContents))
                        || (ExtensionOf(originalName) == ".docx" && !IsBlank(docxText)))
    ensures r.Err? ==> r.message == ExtractionFailed
  {
    var ext := ExtensionOf(originalName);
    var text := if ext == ".txt" then txtContents else if ext == ".docx" then docxText else "";
    if Trim(text) == "" then Err(ExtractionFailed) else Ok(text)
  }

  /** Upper-case extensions are read like lower-case ones: `notes.TXT` gives its contents. */
  lemma UpperCaseTxtAccepted(stem: string, txtContents: string, docxText: string)
    requires stem != "" && '/' !in stem
    requires !IsBlank(txtContents)
    ensures ExtractTextFromFile(stem + ".TXT", txtContents, docxText) == Ok(txtContents)
  {
    var name := stem + ".TXT";
    assert |name| == |stem| + 4 && name != "..";
    assert forall k :: |stem| < k < |name| ==> name[k] == "TXT"[k - |stem| - 1];
    ExtnameOfPlainName(name, |stem|);
    assert name[|stem|..] == ".TXT";
    var lower := LowerAscii(".TXT");
    assert lower[0] == '.' && lower[1] == 't' && lower[2] == 'x' && lower[3] == 't';
    assert lower == ".txt";
    assert ExtensionOf(name) == ".txt";
  }

  /** `global.uploadedFiles`: `created` records whether the Map has been made yet. */
  class FileStore {
    var created: bool
    var files: map<string, FileRecord>

    ghost predicate Valid()
      reads this
    {
      && (!created ==> files == map[])
      && (forall id :: id in files ==> files[id].id == id)
    }

    constructor ()
      ensures Valid() && !created && files == map[]
    {
      created := false;
      files := map[];
    }

    /** `getFileById`: `null` for an uncreated map or an unknown key. */
    function GetFileById(id: string): (r: Option<FileRecord>)
      reads this
      requires Valid()
      ensures r.Some? <==> id in files
      ensures r.Some? ==> r.value == files[id] && r.value.id == id
    {
      if !created || id !in files then None else Some(files[id])
    }

    /** `saveFileInfo` in memory mode: a new record under the fresh id `fileId`. */
    method SaveFileInfo(fileData: UploadMeta, extractedText: string, fileId: string, now: Timestamp) returns (rec: FileRecord)
      requires Valid()
      requires fileId !in files
      modifies this
      ensures Valid() && created
      ensures rec == FileRecord(fileId, fileData.originalname, fileData.filename, fileData.path,
                                fileData.size, fileData.mimetype, extractedText, now)
      ensures files == old(files)[fileId := rec]
      ensures GetFileById(fileId) == Some(rec)
    {
      if !created {
        created := true;
        files := map[];
      }
      rec := FileRecord(fileId, fileData.originalname, fileData.filename, fileData.path,
                        fileData.size, fileData.mimetype, extractedText, now);
      files := files[fileId := rec];
    }

    /** `deleteFile` in memory mode. `unlinked` is the stored path handed to `fs.unlink`
        (whose failure is only logged); deleting an unknown id changes nothing. */
    method DeleteFile(fileId: string) returns (unlinked: Option<string>)
      requires Valid()
      modifies this
      ensures Valid() && created == old(created)
      ensures files == old(files) - {fileId}
      ensures GetFileById(fileId) == None
      ensures fileId in old(files) ==> unlinked == Some(old(files)[fileId].filePath)
      ensures fileId !in old(files) ==> unlinked == None && files == old(files)
    {
      if created && fileId in files {
        unlinked := Some(files[fileId].filePath);
        files := files - {fileId};
      } else {
        unlinked := None;
      }
    }
  }
}
