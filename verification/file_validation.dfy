/**
 * Upload checks (src/utils/fileValidation.js): a per-category size limit, a MIME
 * type whitelist for images and documents, and warnings that never reject a file.
 */
module FileValidation {
  import opened Wrappers
  import opened Text

  const MIB := 1024 * 1024

  /** The `File` properties the checks read: `size` in bytes, `type`, `name`. */
  datatype File = File(size: nat, mimeType: string, name: string)

  /** `FILE_SIZE_LIMITS`, keyed by upper-cased category. */
  const SIZE_LIMITS: map<string, nat> := map["AVATAR" := 5 * MIB, "DOCUMENT" := 10 * MIB, "IMAGE" := 5 * MIB]

  const IMAGE_TYPES := ["image/jpeg", "image/jpg", "image/png", "image/gif", "image/webp"]

  const DOCUMENT_TYPES := [
    "application/pdf",
    "application/msword",
    "application/vnd.openxmlformats-officedocument.wordprocessingml.document"
  ]

  const CHOOSE_FILE := "Vui lòng chọn file"
  const SIZE_PREFIX := "Kích thước file không được vượt quá "
  const IMAGE_ONLY := "Chỉ hỗ trợ file ảnh: JPG, PNG, GIF, WebP"
  const DOCUMENT_ONLY := "Chỉ hỗ trợ file: PDF, DOC, DOCX"
  const TOO_SMALL := "File có vẻ quá nhỏ, có thể bị lỗi"
  const NAME_TOO_LONG := "Tên file quá dài"

  /** `{ isValid, error, warnings }`; `error` is `''` when there is none. */
  datatype Verdict = Verdict(isValid: bool, error: string, warnings: seq<string>)

  /** The limit for a category: its upper-cased entry, else the image limit. */
  function SizeLimit(category: string): (limit: nat)
    ensures ToUpperAscii(category) in SIZE_LIMITS ==> limit == SIZE_LIMITS[ToUpperAscii(category)]
    ensures ToUpperAscii(category) !in SIZE_LIMITS ==> limit == 5 * MIB
    ensures limit == 5 * MIB || limit == 10 * MIB
  {
    var key := ToUpperAscii(category);
    if key in SIZE_LIMITS then SIZE_LIMITS[key] else SIZE_LIMITS["IMAGE"]
  }

  /** The size message names the limit in whole megabytes. */
  function SizeMessage(limit: nat): (m: string)
    ensures limit == 5 * MIB ==> m == SIZE_PREFIX + "5MB"
    ensures limit == 10 * MIB ==> m == SIZE_PREFIX + "10MB"
  {
    assert RoundDiv(5 * MIB, MIB) == 5 && RoundDiv(10 * MIB, MIB) == 10;
    assert IntToString(5) == "5" && IntToString(10) == "10";
    SIZE_PREFIX + IntToString(RoundDiv(limit, MIB)) + "MB"
  }

  /** `Math.round(a / b)` for non-negative operands. */
  function RoundDiv(a: nat, b: nat): (q: nat)
    requires b > 0
  {
    (2 * a + b) / (2 * b)
  }

  predicate IsImageCategory(category: string) { category == "avatar" || category == "image" }

  /** `isImageFile`: the type is on the image whitelist, which holds only `image/` types. */
  predicate IsImageFile(f: File)
    ensures IsImageFile(f) ==> StartsWith(f.mimeType, "image/")
  {
    f.mimeType in IMAGE_TYPES
  }

  /** The error the first failing check reports, `''` when none fails. */
  function FirstError(f: File, category: string): (e: string)
    ensures f.size > SizeLimit(category) ==> e == SizeMessage(SizeLimit(category))
    ensures f.size <= SizeLimit(category) && IsImageCategory(category) && !IsImageFile(f) ==> e == IMAGE_ONLY
    ensures f.size <= SizeLimit(category) && category == "document" && f.mimeType !in DOCUMENT_TYPES ==> e == DOCUMENT_ONLY
    ensures e == "" <==> (f.size <= SizeLimit(category) && (IsImageCategory(category) ==> IsImageFile(f))
      && (category == "document" ==> f.mimeType in DOCUMENT_TYPES))
  {
    if f.size > SizeLimit(category) then SizeMessage(SizeLimit(category))
    else if IsImageCategory(category) && !IsImageFile(f) then IMAGE_ONLY
    else if category == "document" && f.mimeType !in DOCUMENT_TYPES then DOCUMENT_ONLY
    else ""
  }

  /** The warnings of an accepted image: a suspiciously small size, then a long name. */
  function Warnings(f: File, category: string): (w: seq<string>)
    ensures TOO_SMALL in w <==> IsImageCategory(category) && f.size < 1024
    ensures NAME_TOO_LONG in w <==> IsImageCategory(category) && JsLength(f.name) > 100
    ensures |w| <= 2 && (|w| == 2 ==> w == [TOO_SMALL, NAME_TOO_LONG])
  {
    if !IsImageCategory(category) then []
    else (if f.size < 1024 then [TOO_SMALL] else []) + (if JsLength(f.name) > 100 then [NAME_TOO_LONG] else [])
  }

  /**
   * `validateFile(file, type)`: a missing file is rejected; otherwise the file is
   * accepted exactly when it is within its category's size limit (equal is fine)
   * and, for the categories `avatar`, `image` and `document` (compared exactly,
   * without case folding), its type is on that category's whitelist. Only the
   * first failure is reported, and warnings come only with an accepted image.
   */
  function ValidateFile(file: Option<File>, category: string): (v: Verdict)
    ensures file.None? ==> v == Verdict(false, CHOOSE_FILE, [])
    ensures file.Some? ==> (v.isValid <==>
      && file.value.size <= SizeLimit(category)
      && (IsImageCategory(category) ==> IsImageFile(file.value))
      && (category == "document" ==> file.value.mimeType in DOCUMENT_TYPES))
    ensures v.isValid <==> v.error == ""
    ensures file.Some? ==> v.error == FirstError(file.value, category)
    ensures v.isValid ==> v.warnings == Warnings(file.value, category)
    ensures !v.isValid ==> v.warnings == []
  {
    match file
    case None => Verdict(false, CHOOSE_FILE, [])
    case Some(f) =>
      var e := FirstError(f, category);
      if e != "" then Verdict(false, e, []) else Verdict(true, "", Warnings(f, category))
  }

  /** The size limit applies to the upper-cased category while the type checks compare it exactly. */
  lemma UpperCaseDocumentSkipsTypeCheck(f: File)
    requires f.size <= 10 * MIB
    ensures ValidateFile(Some(f), "DOCUMENT").isValid
    ensures SizeLimit("Document") == 10 * MIB
  {
    assert ToUpperAscii("DOCUMENT") == "DOCUMENT";
    assert ToUpperAscii("Document") == "DOCUMENT";
  }

  /** Within 5 MB, `validateFile` accepts an image exactly when `isImageFile` holds. */
  lemma ImageCategoryMeansImageFile(f: File)
    requires f.size <= 5 * MIB
    ensures ValidateFile(Some(f), "image").isValid <==> IsImageFile(f)
    ensures ValidateFile(Some(f), "avatar").isValid <==> IsImageFile(f)
  {
    assert ToUpperAscii("image") == "IMAGE";
    assert ToUpperAscii("avatar") == "AVATAR";
  }

  /** An accepted avatar is an image file no larger than 5 MB. */
  lemma AcceptedAvatarIsImage(f: File)
    requires ValidateFile(Some(f), "avatar").isValid
    ensures IsImageFile(f) && f.size <= 5 * MIB
  {
    assert ToUpperAscii("avatar") == "AVATAR";
  }

  /** A file exactly at the limit passes the size check; one byte more fails it. */
  lemma SizeBoundary(f: File, category: string)
    requires f.size == SizeLimit(category)
    ensures ValidateFile(Some(f), category).error != SizeMessage(SizeLimit(category))
    ensures ValidateFile(Some(f.(size := f.size + 1)), category).error == SizeMessage(SizeLimit(category))
  {
  }

  /** The name never changes the verdict or the error, only the warnings. */
  lemma NameOnlyWarns(f: File, category: string, name: string)
    ensures ValidateFile(Some(f.(name := name)), category).isValid == ValidateFile(Some(f), category).isValid
    ensures ValidateFile(Some(f.(name := name)), category).error == ValidateFile(Some(f), category).error
  {
  }

  /** The size check comes first: an oversized file reports the size, whatever its type. */
  lemma SizeReportedFirst(f: File, category: string)
    requires f.size > SizeLimit(category)
    ensures ValidateFile(Some(f), category).error == SizeMessage(SizeLimit(category))
  {
  }

  /** A file within its size limit but of the wrong type reports its category's type message. */
  lemma TypeReportedWithinLimit(f: File, category: string)
    requires f.size <= SizeLimit(category)
    ensures IsImageCategory(category) && !IsImageFile(f) ==> ValidateFile(Some(f), category) == Verdict(false, IMAGE_ONLY, [])
    ensures category == "document" && f.mimeType !in DOCUMENT_TYPES
      ==> ValidateFile(Some(f), category) == Verdict(false, DOCUMENT_ONLY, [])
  {
  }
}
