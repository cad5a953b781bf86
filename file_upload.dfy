/** The upload step (frontend/src/components/FileUpload.jsx): the client-side accept rule
    for a dropped file, and the `uploading`/`uploadedFile` transitions of `onDrop`. What
    `fetch` followed by `response.json()` yields is a parameter (`Err` when either threw).
    Toasts, the drop-zone widget and `formatFileSize` are not modelled. */
module FileUpload {
  import opened Wrappers
  import opened JsText
  import opened Json
  import opened FileService

  /** `10 * 1024 * 1024` bytes. */
  const MaxSize: nat := 10 * 1024 * 1024

  const WrongTypeMessage := "Please upload a .txt or .docx file"
  const TooLargeMessage := "File size must be less than 10MB"

  /** The browser `File` fields the component reads. */
  datatype DroppedFile = DroppedFile(name: string, size: nat, mimeType: string)

  /** The outcome of the client-side checks, in the order they are made. */
  datatype DropCheck = NoFile | WrongType | TooLarge | Accepted(file: DroppedFile)

  /** `file.name.toLowerCase().substring(file.name.lastIndexOf('.'))`: from the last `.` on,
      lower-cased; the whole lower-cased name when there is no `.` (`substring(-1)`). */
  function ClientExtension(name: string): (r: string)
    ensures '.' !in name ==> r == LowerAscii(name)
    ensures '.' in name ==> r == LowerAscii(name)[LastIndexOf(name, '.')..] && |r| >= 1 && r[0] == '.'
  {
    SubstringFrom(LowerAscii(name), LastIndexOf(name, '.'))
  }

  /** `['.txt', '.docx'].includes(fileExtension)`. */
  predicate AllowedExtension(ext: string) {
    ext == ".txt" || ext == ".docx"
  }

  /** The guards of `onDrop`: an empty list, then the extension, then the size. */
  function CheckDrop(files: seq<DroppedFile>): (r: DropCheck)
    ensures r == NoFile <==> |files| == 0
    ensures r == WrongType <==> |files| > 0 && !AllowedExtension(ClientExtension(files[0].name))
    ensures r == TooLarge <==> |files| > 0 && AllowedExtension(ClientExtension(files[0].name)) && files[0].size > MaxSize
    ensures r.Accepted? <==> |files| > 0 && AllowedExtension(ClientExtension(files[0].name)) && files[0].size <= MaxSize
    ensures r.Accepted? ==> r.file == files[0]
  {
    if |files| == 0 then NoFile
    else if !AllowedExtension(ClientExtension(files[0].name)) then WrongType
    else if files[0].size > MaxSize then TooLarge
    else Accepted(files[0])
  }

  /** A file of exactly 10 MiB with an allowed name is accepted; one byte more is not. */
  lemma SizeBoundary(name: string, mimeType: string)
    requires AllowedExtension(ClientExtension(name))
    ensures CheckDrop([DroppedFile(name, MaxSize, mimeType)]).Accepted?
    ensures CheckDrop([DroppedFile(name, MaxSize + 1, mimeType)]) == TooLarge
  {
  }

  /** Lower-casing produces a `.` only from a `.`. */
  lemma LowerKeepsNoDot(name: string)
    requires '.' !in name
    ensures '.' !in LowerAscii(name)
  {
    var lower := LowerAscii(name);
    forall k | 0 <= k < |lower| ensures lower[k] != '.' {
      assert name[k] in name;
    }
  }

  /** A name without a `.` never has an allowed extension, so it is rejected whatever its
      size. */
  lemma NoDotRejected(name: string, size: nat, mimeType: string)
    requires '.' !in name
    ensures !AllowedExtension(ClientExtension(name))
    ensures CheckDrop([DroppedFile(name, size, mimeType)]) == WrongType
  {
    LowerKeepsNoDot(name);
  }

  /** For an ordinary file name (no directory part, a `.` after its first character), the
      client computes the same extension the file service dispatches on. */
  lemma ClientAgreesWithServer(name: string)
    requires '/' !in name && name != ".."
    requires LastIndexOf(name, '.') > 0
    ensures ClientExtension(name) == ExtensionOf(name)
  {
    var d := LastIndexOf(name, '.');
    ExtnameOfPlainName(name, d);
    LowerOfSuffix(name, d);
  }

  /** Lower-casing commutes with taking a suffix. */
  lemma LowerOfSuffix(s: string, d: nat)
    requires d <= |s|
    ensures LowerAscii(s)[d..] == LowerAscii(s[d..])
  {
    var lower := LowerAscii(s);
    var tail := LowerAscii(s[d..]);
    forall k | 0 <= k < |tail| ensures tail[k] == lower[d..][k] {
      assert s[d..][k] == s[d + k];
    }
  }

  /** A name whose only `.` is its first character (such as `.txt`) is judged by the client
      on the whole name, while `path.extname` gives it no extension at all: the file
      service then refuses to extract any text from it. */
  lemma LeadingDotNameDisagrees(name: string, txtContents: string, docxText: string)
    requires |name| > 1 && name[0] == '.' && '.' !in name[1..] && '/' !in name
    ensures ClientExtension(name) == LowerAscii(name)
    ensures Extname(name) == ""
    ensures ExtractTextFromFile(name, txtContents, docxText) == Err(ExtractionFailed)
  {
    LastIndexOfAt(name, '.', 0);
    assert name[|name| - 1] != '/';
    assert StripTrailingSlashes(name) == name;
    assert LastComponent(name) == name;
    assert Extname(name) == "";
    var empty := LowerAscii("");
    assert |empty| == 0;
  }

  /** The component's state. */
  class Uploader {
    var uploading: bool
    var uploadedFile: Option<DroppedFile>

    /** Between drops: no upload in flight. */
    ghost predicate Valid()
      reads this
    {
      !uploading
    }

    constructor ()
      ensures Valid() && uploadedFile == None
    {
      uploading := false;
      uploadedFile := None;
    }

    /** `onDrop(acceptedFiles)`: a dropped file that fails a check changes nothing; an
        accepted one is shown while it uploads, kept when the server answers with a 2xx
        status (its body is `delivered` to `onFileUpload`), and cleared otherwise. */
    method OnDrop(files: seq<DroppedFile>, reply: Result<HttpResponse>) returns (delivered: Option<Object>)
      requires Valid()
      modifies this
      ensures Valid()
      ensures !CheckDrop(files).Accepted? ==> delivered == None && uploadedFile == old(uploadedFile)
      ensures CheckDrop(files).Accepted? && reply.Ok? && ResponseOk(reply.value) ==>
                delivered == Some(reply.value.body) && uploadedFile == Some(files[0])
      ensures CheckDrop(files).Accepted? && !(reply.Ok? && ResponseOk(reply.value)) ==>
                delivered == None && uploadedFile == None
    {
      var verdict := CheckDrop(files);
      if !verdict.Accepted? {
        return None;
      }
      uploading := true;
      uploadedFile := Some(verdict.file);
      if reply.Ok? && ResponseOk(reply.value) {
        delivered := Some(reply.value.body);
      } else {
        delivered := None;
        uploadedFile := None;
      }
      uploading := false;
    }
  }
}
