/**
  The upload file validator: the file's extension taken from its name, the
  per-extension size limits, the allowed extensions and MIME types, and the
  magic-byte check of the file's first bytes.
 */
module FileValidator {
  import opened StringUtil
  import opened Options

  newtype Byte = x: int | 0 <= x < 256

  /** What the validator reads of a `File`. */
  datatype FileData = FileData(name: string, size: nat, mimeType: string)

  const MB: nat := 1024 * 1024

  const AllowedMimeTypes: seq<string> := [
    "application/pdf",
    "application/msword",
    "application/vnd.openxmlformats-officedocument.wordprocessingml.document",
    "application/vnd.ms-excel",
    "application/vnd.openxmlformats-officedocument.spreadsheetml.sheet",
    "text/plain",
    "text/csv",
    "image/jpeg",
    "image/jpg",
    "image/png",
    "image/webp",
    "image/tiff"]

  const AllowedExtensions: seq<string> :=
    [".pdf", ".doc", ".docx", ".xls", ".xlsx", ".txt", ".csv", ".jpg", ".jpeg", ".png", ".webp", ".tiff"]

  const ImageExtensions: seq<string> := [".jpg", ".jpeg", ".png", ".webp", ".tiff"]

  /** The index of the last `.` in `s`, if any. */
  function LastDot(s: string): (r: Option<nat>)
    ensures r.None? ==> forall j :: 0 <= j < |s| ==> s[j] != '.'
    ensures r.Some? ==> r.value < |s| && s[r.value] == '.' && forall j :: r.value < j < |s| ==> s[j] != '.'
  {
    if |s| == 0 then None
    else if s[|s| - 1] == '.' then Some(|s| - 1)
    else LastDot(s[..|s| - 1])
  }

  /**
    `getFileExtension`: the lower-cased match of `/\.[^.]+$/`, a dot and at
    least one following character, none of them a dot, ending the name.
   */
  function GetFileExtension(name: string): (r: Option<string>)
    ensures r.Some? <==> (exists j :: 0 <= j < |name| && name[j] == '.') && name[|name| - 1] != '.'
    ensures r.Some? ==>
      2 <= |r.value| <= |name| && r.value[0] == '.' && (forall j :: 1 <= j < |r.value| ==> r.value[j] != '.')
      && r.value == ToLower(name[|name| - |r.value|..])
  {
    var dot := LastDot(name);
    if dot.Some? && dot.value < |name| - 1 then Some(ToLower(name[dot.value..])) else None
  }

  /** A name ending in `.e`, where `e` is non-empty and dot-free, has extension `.e`, lower-cased. */
  lemma {:induction false} ExtensionOfName(base: string, e: string)
    requires |e| > 0 && forall j :: 0 <= j < |e| ==> e[j] != '.'
    ensures GetFileExtension(base + "." + e) == Some(ToLower("." + e))
  {
    var name := base + "." + e;
    assert name[|base|] == '.';
    assert name[|name| - 1] == e[|e| - 1];
    var dot := LastDot(name);
    assert dot.value == |base|;
    assert name[|base|..] == "." + e;
  }

  /** `String.prototype.replace('.', '')`: the first dot removed. */
  function RemoveFirstDot(s: string): (r: string)
    ensures |r| == |s| || |r| == |s| - 1
  {
    if |s| == 0 then ""
    else if s[0] == '.' then s[1..]
    else [s[0]] + RemoveFirstDot(s[1..])
  }

  /** `getMaxFileSize`. */
  function GetMaxFileSize(extension: string): (size: nat)
    ensures size in {MB, 5 * MB, 10 * MB}
  {
    SizeForExt(RemoveFirstDot(ToLower(extension)))
  }

  /** The size table of `getMaxFileSize`, by extension without its dot. */
  function SizeForExt(ext: string): (size: nat)
    ensures size == MB <==> ext == "txt"
    ensures size == 5 * MB <==> ext in ["xls", "xlsx", "csv", "jpg", "jpeg", "png", "webp", "tiff"]
  {
    if ext == "pdf" then 10 * MB
    else if ext == "doc" || ext == "docx" then 10 * MB
    else if ext == "xls" || ext == "xlsx" then 5 * MB
    else if ext == "txt" then MB
    else if ext == "csv" then 5 * MB
    else if ext in ["jpg", "jpeg", "png", "webp", "tiff"] then 5 * MB
    else 10 * MB
  }

  /** A dot followed by lower-case letters is its own lower-case form, and drops its dot for the size table. */
  lemma {:induction false} PlainExtension(x: string)
    requires forall i :: 0 <= i < |x| ==> 'a' <= x[i] <= 'z'
    ensures ToLower("." + x) == "." + x
    ensures GetMaxFileSize("." + x) == SizeForExt(x)
  {
    var e := "." + x;
    assert forall i :: 0 <= i < |e| ==> ToLower(e)[i] == e[i];
    assert ToLower(e) == e;
    assert e[0] == '.' && e[1..] == x;
  }

  /** Each allowed extension is its own lower-case form; its size limit: text 1MB, spreadsheets, CSV and images 5MB, the rest 10MB. */
  lemma {:induction false} AllowedExtensionLimit(i: int)
    requires 0 <= i < |AllowedExtensions|
    ensures ToLower(AllowedExtensions[i]) == AllowedExtensions[i]
    ensures GetMaxFileSize(AllowedExtensions[i]) == MB <==> AllowedExtensions[i] == ".txt"
    ensures GetMaxFileSize(AllowedExtensions[i]) == 5 * MB <==> AllowedExtensions[i] in [".xls", ".xlsx", ".csv"] + ImageExtensions
  {
    var x := AllowedExtensions[i][1..];
    assert AllowedExtensions[i] == "." + x;
    PlainExtension(x);
  }

  /** `MAGIC_BYTES[ext]`: the signature an extension's content must start with, if it has one. */
  function MagicBytes(ext: string): Option<seq<Byte>> {
    if ext == "pdf" then Some([0x25, 0x50, 0x44, 0x46])
    else if ext == "docx" || ext == "xlsx" then Some([0x50, 0x4B, 0x03, 0x04])
    else if ext == "jpg" then Some([0xFF, 0xD8, 0xFF])
    else if ext == "png" then Some([0x89, 0x50, 0x4E, 0x47, 0x0D, 0x0A, 0x1A, 0x0A])
    else None
  }

  /** The comparison loop from index `i` on: a missing byte never matches. */
  function MatchesFrom(bytes: seq<Byte>, expected: seq<Byte>, i: nat): (ok: bool)
    requires i <= |expected| && i <= |bytes|
    ensures ok <==> |expected| <= |bytes| && bytes[i..|expected|] == expected[i..]
    decreases |expected| - i
  {
    if i == |expected| then true
    else if i >= |bytes| || bytes[i] != expected[i] then false
    else
      var ok := MatchesFrom(bytes, expected, i + 1);
      assert ok && |expected| <= |bytes| ==> bytes[i..|expected|] == [bytes[i]] + bytes[i + 1..|expected|];
      assert expected[i..] == [expected[i]] + expected[i + 1..];
      ok
  }

  /**
    `verifyMagicBytes`: an extension without a signature is accepted;
    otherwise the first 16 bytes read must start with the signature.
   */
  function VerifyMagicBytes(content: seq<Byte>, extension: string): (ok: bool)
    ensures MagicBytes(RemoveFirstDot(ToLower(extension))).None? ==> ok
    ensures var sig := MagicBytes(RemoveFirstDot(ToLower(extension)));
      sig.Some? ==> (ok <==> |sig.value| <= |content| && content[..|sig.value|] == sig.value)
  {
    var expected := MagicBytes(RemoveFirstDot(ToLower(extension)));
    if expected.None? then true
    else
      var head := if |content| <= 16 then content else content[..16];
      var ok := MatchesFrom(head, expected.value, 0);
      assert |expected.value| <= 8;
      assert |expected.value| <= |head| ==> head[..|expected.value|] == content[..|expected.value|];
      ok
  }

  /** Content that starts with its extension's signature passes, whatever follows. */
  lemma {:induction false} SignedContentPasses(extension: string, rest: seq<Byte>)
    requires MagicBytes(RemoveFirstDot(ToLower(extension))).Some?
    ensures VerifyMagicBytes(MagicBytes(RemoveFirstDot(ToLower(extension))).value + rest, extension)
  {
    var sig := MagicBytes(RemoveFirstDot(ToLower(extension))).value;
    assert (sig + rest)[..|sig|] == sig;
  }

  datatype FileError =
    | InvalidName                 // 'Nome do arquivo inválido'
    | NoExtension                 // 'Arquivo sem extensão'
    | NotAllowed(shown: string)   // 'Tipo de arquivo não permitido: ...'
    | TooLarge(size: nat, maxSize: nat)
    | EmptyFile                   // 'Arquivo vazio'

  datatype FileInfo = FileInfo(name: string, size: nat, mimeType: string, extension: string)

  datatype FileValidation = FileValidation(
    isValid: bool,
    error: Option<FileError>,
    warnings: seq<FileWarning>,
    fileInfo: Option<FileInfo>)

  /** The warnings a validation can carry, and their text. */
  datatype FileWarning = AllowedExtensionsHint | UnknownMimeType(mimeType: string) | ContentMismatch | ContentUnchecked

  function WarningText(w: FileWarning): string {
    match w
    case AllowedExtensionsHint =>
      "Extensões permitidas: .pdf, .doc, .docx, .xls, .xlsx, .txt, .csv, .jpg, .jpeg, .png, .webp, .tiff"
    case UnknownMimeType(mimeType) => "Tipo MIME não reconhecido: " + mimeType + ". Validando por extensão."
    case ContentMismatch => "Conteúdo do arquivo não corresponde à extensão. Pode estar corrompido."
    case ContentUnchecked => "Não foi possível verificar integridade do arquivo"
  }

  /** The warnings of an accepted file: an unknown MIME type first, then the content check's verdict. */
  function AcceptedWarnings(mimeType: string, extension: string, content: Option<seq<Byte>>): (ws: seq<FileWarning>)
    ensures UnknownMimeType(mimeType) in ws <==> mimeType !in AllowedMimeTypes
    ensures content.Some? ==> (ContentMismatch in ws <==> !VerifyMagicBytes(content.value, extension))
    ensures content.None? ==> ContentUnchecked in ws
    ensures AllowedExtensionsHint !in ws
  {
    var mimeWarnings := if mimeType !in AllowedMimeTypes then [UnknownMimeType(mimeType)] else [];
    var contentWarnings :=
      if content.None? then [ContentUnchecked]
      else if !VerifyMagicBytes(content.value, extension) then [ContentMismatch]
      else [];
    mimeWarnings + contentWarnings
  }

  predicate ExtensionAllowed(extension: string) {
    ToLower(extension) in AllowedExtensions
  }

  /** The conditions under which a file is accepted, in the order they are checked. */
  predicate Acceptable(file: FileData) {
    Trim(file.name) != "" && GetFileExtension(file.name).Some?
    && ExtensionAllowed(GetFileExtension(file.name).value)
    && file.size <= GetMaxFileSize(GetFileExtension(file.name).value) && file.size != 0
  }

  /**
    `validateFile`: `content` is the file's bytes, or None when reading them
    fails. Name, extension present, extension allowed, size limit and empty
    file are checked in that order; an unknown MIME type and content not
    matching the extension only add warnings.
   */
  function ValidateFile(file: FileData, content: Option<seq<Byte>>): (r: FileValidation)
    ensures r.isValid <==> r.error.None?
    ensures r.isValid <==> Acceptable(file)
    ensures Trim(file.name) == "" ==> r.error == Some(InvalidName)
    ensures Trim(file.name) != "" && GetFileExtension(file.name).None? ==> r.error == Some(NoExtension)
    ensures Trim(file.name) != "" && GetFileExtension(file.name).Some? && !ExtensionAllowed(GetFileExtension(file.name).value) ==>
      r.error == Some(NotAllowed(GetFileExtension(file.name).value)) && r.warnings == [AllowedExtensionsHint]
    ensures (Trim(file.name) != "" && GetFileExtension(file.name).Some? && ExtensionAllowed(GetFileExtension(file.name).value)
             && file.size > GetMaxFileSize(GetFileExtension(file.name).value)) ==>
      r.error == Some(TooLarge(file.size, GetMaxFileSize(GetFileExtension(file.name).value)))
    ensures (Trim(file.name) != "" && GetFileExtension(file.name).Some? && ExtensionAllowed(GetFileExtension(file.name).value)
             && file.size <= GetMaxFileSize(GetFileExtension(file.name).value) && file.size == 0) ==>
      r.error == Some(EmptyFile)
    ensures r.error == Some(EmptyFile) ==> file.size == 0 && ExtensionAllowed(GetFileExtension(file.name).value)
    ensures r.error.Some? && r.error.value.TooLarge? ==>
      r.error.value.size == file.size && file.size > r.error.value.maxSize
    ensures r.isValid ==> r.fileInfo == Some(FileInfo(file.name, file.size, file.mimeType, GetFileExtension(file.name).value))
    ensures r.isValid ==> (UnknownMimeType(file.mimeType) in r.warnings <==> file.mimeType !in AllowedMimeTypes)
    ensures r.isValid && content.Some? ==>
      (ContentMismatch in r.warnings <==> !VerifyMagicBytes(content.value, GetFileExtension(file.name).value))
    ensures r.isValid && content.None? ==> ContentUnchecked in r.warnings
  {
    if file.name == "" || Trim(file.name) == "" then
      FileValidation(false, Some(InvalidName), [], None)
    else
      var extension := GetFileExtension(file.name);
      if extension.None? then FileValidation(false, Some(NoExtension), [], None)
      else if !ExtensionAllowed(extension.value) then
        FileValidation(false, Some(NotAllowed(extension.value)), [AllowedExtensionsHint], None)
      else
        var maxSize := GetMaxFileSize(extension.value);
        if file.size > maxSize then FileValidation(false, Some(TooLarge(file.size, maxSize)), [], None)
        else if file.size == 0 then FileValidation(false, Some(EmptyFile), [], None)
        else
          FileValidation(true, None, AcceptedWarnings(file.mimeType, extension.value, content),
                         Some(FileInfo(file.name, file.size, file.mimeType, extension.value)))
  }

  /** `validateFileQuick`: the same checks without the name check, the MIME warning and the content check. */
  function ValidateFileQuick(file: FileData): (r: FileValidation)
    ensures r.isValid <==> r.error.None?
    ensures r.warnings == []
    ensures GetFileExtension(file.name).None? ==> r.error == Some(NotAllowed("desconhecido"))
    ensures r.error.Some? && r.error.value.TooLarge? ==>
      r.error.value.size == file.size && file.size > r.error.value.maxSize
    ensures r.isValid ==> r.fileInfo == Some(FileInfo(file.name, file.size, file.mimeType, GetFileExtension(file.name).value))
  {
    var extension := GetFileExtension(file.name);
    if extension.None? || !ExtensionAllowed(extension.value) then
      FileValidation(false, Some(NotAllowed(if extension.Some? then extension.value else "desconhecido")), [], None)
    else
      var maxSize := GetMaxFileSize(extension.value);
      if file.size > maxSize then FileValidation(false, Some(TooLarge(file.size, maxSize)), [], None)
      else if file.size == 0 then FileValidation(false, Some(EmptyFile), [], None)
      else FileValidation(true, None, [], Some(FileInfo(file.name, file.size, file.mimeType, extension.value)))
  }

  /**
    The quick check accepts exactly the files the full check accepts: a
    blank name has no dot, so it has no extension either.
   */
  lemma {:induction false} QuickAgreesWithFull(file: FileData, content: Option<seq<Byte>>)
    ensures ValidateFileQuick(file).isValid <==> ValidateFile(file, content).isValid
    ensures ValidateFile(file, content).isValid ==> ValidateFileQuick(file).fileInfo == ValidateFile(file, content).fileInfo
  {
    if GetFileExtension(file.name).Some? {
      ExtensionMeansNonBlank(file.name);
    }
  }

  /** A name with an extension contains a dot, so it is not blank. */
  lemma ExtensionMeansNonBlank(name: string)
    requires GetFileExtension(name).Some?
    ensures Trim(name) != ""
  {
    var j :| 0 <= j < |name| && name[j] == '.';
    assert !IsJsSpace(name[j]);
    TrimEmptyIffBlank(name);
  }

  /** A file `validateFiles` turned down, with the reason `validateFile` gave. */
  datatype RejectedFile = RejectedFile(file: FileData, error: FileError)

  /** The verdict `validateFile` gives a file: no error, or the reason it is turned down. */
  function Verdict(file: FileData): (v: Option<FileError>)
    ensures v.None? <==> Acceptable(file)
    ensures v.Some? ==> ValidateFile(file, None).error == v
  {
    if Acceptable(file) then None else Some(ValidateFileError(file))
  }

  /** Each file in turn goes to the first list when `verdict` finds no error, to the second with its error otherwise. */
  function SortFiles(files: seq<FileData>, verdict: FileData -> Option<FileError>): (r: (seq<FileData>, seq<RejectedFile>))
    ensures |r.0| + |r.1| == |files|
  {
    if |files| == 0 then ([], [])
    else
      var rest := SortFiles(files[1..], verdict);
      var v := verdict(files[0]);
      if v.None? then ([files[0]] + rest.0, rest.1)
      else (rest.0, [RejectedFile(files[0], v.value)] + rest.1)
  }

  lemma {:induction false} SortedAccepted(files: seq<FileData>, verdict: FileData -> Option<FileError>, i: nat)
    requires i < |SortFiles(files, verdict).0|
    ensures verdict(SortFiles(files, verdict).0[i]).None? && SortFiles(files, verdict).0[i] in files
  {
    var rest := SortFiles(files[1..], verdict);
    var ok := verdict(files[0]).None?;
    if !(ok && i == 0) {
      var j := if ok then i - 1 else i;
      assert SortFiles(files, verdict).0[i] == rest.0[j];
      SortedAccepted(files[1..], verdict, j);
    }
  }

  lemma {:induction false} SortedRejected(files: seq<FileData>, verdict: FileData -> Option<FileError>, i: nat)
    requires i < |SortFiles(files, verdict).1|
    ensures var f := SortFiles(files, verdict).1[i]; verdict(f.file) == Some(f.error) && f.file in files
  {
    var rest := SortFiles(files[1..], verdict);
    var ok := verdict(files[0]).None?;
    if ok || i > 0 {
      var j := if ok then i else i - 1;
      assert SortFiles(files, verdict).1[i] == rest.1[j];
      SortedRejected(files[1..], verdict, j);
    }
  }

  lemma {:induction false} SortedAll(files: seq<FileData>, verdict: FileData -> Option<FileError>, i: nat)
    requires i < |files|
    ensures verdict(files[i]).None? ==> files[i] in SortFiles(files, verdict).0
    ensures verdict(files[i]).Some? ==> RejectedFile(files[i], verdict(files[i]).value) in SortFiles(files, verdict).1
  {
    var r := SortFiles(files, verdict);
    var rest := SortFiles(files[1..], verdict);
    var v := verdict(files[0]);
    if i == 0 {
      if v.None? {
        assert r.0[0] == files[0];
      } else {
        assert r.1[0] == RejectedFile(files[0], v.value);
      }
    } else {
      assert files[i] == files[1..][i - 1];
      SortedAll(files[1..], verdict, i - 1);
      if v.None? {
        assert r.0 == [files[0]] + rest.0 && r.1 == rest.1;
      } else {
        assert r.0 == rest.0 && r.1 == [RejectedFile(files[0], v.value)] + rest.1;
      }
    }
  }

  /**
    `validateFiles`: each file is validated in turn and goes to the accepted
    or the rejected list, both in the order given. The bytes of a file only
    ever add warnings, which this function drops, so they are not an input.
   */
  function ValidateFiles(files: seq<FileData>): (r: (seq<FileData>, seq<RejectedFile>))
    ensures |r.0| + |r.1| == |files|
  {
    SortFiles(files, Verdict)
  }

  /** Every accepted file is one of the given files and passes `validateFile`. */
  lemma AcceptedFilesPass(files: seq<FileData>, i: nat)
    requires i < |ValidateFiles(files).0|
    ensures Acceptable(ValidateFiles(files).0[i]) && ValidateFiles(files).0[i] in files
  {
    SortedAccepted(files, Verdict, i);
  }

  /** Every rejected file is one of the given files, fails `validateFile` and carries its reason. */
  lemma RejectedFilesFail(files: seq<FileData>, i: nat)
    requires i < |ValidateFiles(files).1|
    ensures var f := ValidateFiles(files).1[i];
      !Acceptable(f.file) && f.file in files && f.error == ValidateFileError(f.file)
  {
    SortedRejected(files, Verdict, i);
  }

  /** No file is lost: each goes to the accepted list or, with its reason, to the rejected one. */
  lemma EveryFileSorted(files: seq<FileData>, i: nat)
    requires i < |files|
    ensures Acceptable(files[i]) ==> files[i] in ValidateFiles(files).0
    ensures !Acceptable(files[i]) ==> RejectedFile(files[i], ValidateFileError(files[i])) in ValidateFiles(files).1
  {
    SortedAll(files, Verdict, i);
  }

  /** The reason `validateFile` turns a file down; the bytes play no part in it. */
  function ValidateFileError(file: FileData): (e: FileError)
    requires !Acceptable(file)
    ensures ValidateFile(file, None).error == Some(e)
    ensures forall content :: ValidateFile(file, content).error == Some(e)
  {
    ValidateFile(file, None).error.value
  }

  /** `isPDF`. */
  predicate IsPdf(file: FileData) {
    GetFileExtension(file.name) == Some(".pdf") || file.mimeType == "application/pdf"
  }

  /** `isImage`. */
  predicate IsImage(file: FileData) {
    GetFileExtension(file.name).Some? && GetFileExtension(file.name).value in ImageExtensions
  }

  /** `isWord`. */
  predicate IsWord(file: FileData) {
    GetFileExtension(file.name) == Some(".doc") || GetFileExtension(file.name) == Some(".docx")
  }

  /** `isExcel`. */
  predicate IsExcel(file: FileData) {
    GetFileExtension(file.name) == Some(".xls") || GetFileExtension(file.name) == Some(".xlsx")
  }

  /**
    The kinds agree with the size table: images and spreadsheets may be up
    to 5MB, Word documents and PDFs named as such up to 10MB, and all of
    them have allowed extensions.
   */
  lemma {:induction false} KindLimits(file: FileData)
    ensures IsImage(file) ==>
      ExtensionAllowed(GetFileExtension(file.name).value) && GetMaxFileSize(GetFileExtension(file.name).value) == 5 * MB
    ensures IsExcel(file) ==>
      ExtensionAllowed(GetFileExtension(file.name).value) && GetMaxFileSize(GetFileExtension(file.name).value) == 5 * MB
    ensures IsWord(file) ==>
      ExtensionAllowed(GetFileExtension(file.name).value) && GetMaxFileSize(GetFileExtension(file.name).value) == 10 * MB
    ensures GetFileExtension(file.name) == Some(".pdf") ==> ExtensionAllowed(".pdf") && GetMaxFileSize(".pdf") == 10 * MB
  {
    var ext := GetFileExtension(file.name);
    if ext.Some? && ext.value in AllowedExtensions {
      var k :| 0 <= k < |AllowedExtensions| && AllowedExtensions[k] == ext.value;
      AllowedExtensionLimit(k);
    }
  }

  /** A file named `x.PDF` is a PDF whatever its MIME type. */
  lemma {:induction false} UpperCasePdfIsPdf(base: string, mimeType: string, size: nat)
    ensures IsPdf(FileData(base + ".PDF", size, mimeType))
  {
    ExtensionOfName(base, "PDF");
    assert base + ".PDF" == base + "." + "PDF";
    LowerPdf();
  }

  lemma LowerPdf()
    ensures ToLower("." + "PDF") == ".pdf"
  {
    var l := ToLower(".PDF");
    assert LowerChar('P') == 'p' && LowerChar('D') == 'd' && LowerChar('F') == 'f';
    assert l[0] == '.' && l[1] == 'p' && l[2] == 'd' && l[3] == 'f';
  }
}
