/**
 * The avatar check of the image helpers (src/utils/imageUtils.js): unlike
 * `validateFile`, it accepts any `image/` type and reports every failure.
 */
module ImageUtils {
  import opened Wrappers
  import opened Text
  import opened FileValidation

  const MAX_IMAGE_SIZE := 5 * 1024 * 1024

  const NOT_AN_IMAGE := "File phải là ảnh (JPG, PNG, GIF)"
  const TOO_LARGE := "Kích thước file không được vượt quá 5MB"
  const LONG_NAME := "Tên file quá dài"

  datatype ImageVerdict = ImageVerdict(isValid: bool, errors: seq<string>)

  /** The position of each check: type, then size, then name. */
  function CheckRank(e: string): nat {
    if e == NOT_AN_IMAGE then 0 else if e == TOO_LARGE then 1 else if e == LONG_NAME then 2 else 3
  }

  /**
   * `validateImageFile(file)`: one error per failed check, in the order type, size,
   * name; the file is valid exactly when there is none.
   */
  function ValidateImageFile(f: File): (v: ImageVerdict)
    ensures NOT_AN_IMAGE in v.errors <==> !StartsWith(f.mimeType, "image/")
    ensures TOO_LARGE in v.errors <==> f.size > MAX_IMAGE_SIZE
    ensures LONG_NAME in v.errors <==> JsLength(f.name) > 100
    ensures |v.errors| <= 3
    ensures forall i :: 0 <= i < |v.errors| ==> CheckRank(v.errors[i]) < 3
    ensures forall i, j :: 0 <= i < j < |v.errors| ==> CheckRank(v.errors[i]) < CheckRank(v.errors[j])
    ensures v.isValid <==> v.errors == []
  {
    var errors :=
      (if !StartsWith(f.mimeType, "image/") then [NOT_AN_IMAGE] else [])
      + (if f.size > MAX_IMAGE_SIZE then [TOO_LARGE] else [])
      + (if JsLength(f.name) > 100 then [LONG_NAME] else []);
    ImageVerdict(errors == [], errors)
  }

  /** The errors keep the check order: a type error, if any, comes first. */
  lemma TypeErrorFirst(f: File)
    requires !StartsWith(f.mimeType, "image/")
    ensures ValidateImageFile(f).errors[0] == NOT_AN_IMAGE
  {
  }

  /** Every failed check is reported: a file failing all three gets all three errors in order. */
  lemma AllErrorsAccumulate(f: File)
    requires !StartsWith(f.mimeType, "image/") && f.size > MAX_IMAGE_SIZE && JsLength(f.name) > 100
    ensures ValidateImageFile(f).errors == [NOT_AN_IMAGE, TOO_LARGE, LONG_NAME]
  {
  }

  /** Every whitelisted image type starts with `image/`. */
  lemma WhitelistIsImages(t: string)
    requires t in IMAGE_TYPES
    ensures StartsWith(t, "image/")
  {
  }

  /**
   * An avatar `validateFile` accepts passes this check too, unless its name is
   * longer than 100 units, which `validateFile` only warns about.
   */
  lemma AcceptedAvatarPassesImageCheck(f: File)
    requires ValidateFile(Some(f), "avatar").isValid && JsLength(f.name) <= 100
    ensures ValidateImageFile(f).isValid
  {
    AcceptedAvatarIsImage(f);
    WhitelistIsImages(f.mimeType);
  }

  /** The converse fails: an SVG passes this check but is not on the avatar whitelist. */
  lemma SvgOnlyPassesImageCheck()
    ensures ValidateImageFile(File(2048, "image/svg+xml", "a.svg")).isValid
    ensures !ValidateFile(Some(File(2048, "image/svg+xml", "a.svg")), "avatar").isValid
  {
    assert "image/svg+xml"[..6] == "image/";
    assert ToUpperAscii("avatar") == "AVATAR";
  }
}
