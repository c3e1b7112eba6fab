/**
 * The two client-side helpers of `web/src/utils/helpers.js` that hold
 * logic: the upload check `validatePDFFile` and the display helper
 * `truncateText`.
 */
module WebHelpers {
  import opened Options

  /** The two properties of a browser `File` the check reads. */
  datatype FileInfo = FileInfo(mimeType: string, size: int)

  /** `maxSize`: 10 MiB. */
  const MaxPdfSize: int := 10 * 1024 * 1024

  const NoFileError: string := "No file selected"
  const NotPdfError: string := "File must be a PDF"

  /** The size message with `formatFileSize(maxSize)` spelled out: 10 MiB prints as `10 MB`. */
  const TooLargeError: string := "File size must be less than 10 MB"

  /**
   * `validatePDFFile(file)`; `None` stands for a missing file.  Without a
   * file there is exactly one error; otherwise the type error comes before
   * the size error, and a PDF within the limit has none.
   */
  function ValidatePdfFile(file: Option<FileInfo>): (errors: seq<string>)
    ensures file.None? ==> errors == [NoFileError]
    ensures file.Some? ==> (NotPdfError in errors <==> file.value.mimeType != "application/pdf")
    ensures file.Some? ==> (TooLargeError in errors <==> file.value.size > MaxPdfSize)
    ensures file.Some? ==> NoFileError !in errors
    ensures |errors| == 2 ==> errors == [NotPdfError, TooLargeError]
    ensures errors == [] <==> file.Some? && file.value.mimeType == "application/pdf" && file.value.size <= MaxPdfSize
  {
    match file
    case None => [NoFileError]
    case Some(f) =>
      var typeErrors := if f.mimeType != "application/pdf" then [NotPdfError] else [];
      typeErrors + (if f.size > MaxPdfSize then [TooLargeError] else [])
  }

  /** `maxLength`'s default. */
  const DefaultMaxLength: int := 100

  /**
   * `truncateText(text, maxLength)`: unchanged when it fits, otherwise its
   * first `maxLength` characters and an ellipsis.  `substr` reads a negative
   * length as 0.
   */
  function TruncateText(text: string, maxLength: int): (r: string)
    ensures |text| <= maxLength ==> r == text
    ensures |text| > maxLength ==> |r| == (if maxLength < 0 then 0 else maxLength) + 3
    ensures |text| > maxLength ==> r[|r| - 3..] == "..." && r[..|r| - 3] <= text
  {
    if |text| <= maxLength then text
    else text[..if maxLength < 0 then 0 else maxLength] + "..."
  }

  /** `truncateText(text)` with the default limit. */
  function TruncateTextDefault(text: string): (r: string)
    ensures |r| <= DefaultMaxLength + 3
    ensures |text| <= DefaultMaxLength ==> r == text
  {
    TruncateText(text, DefaultMaxLength)
  }

  // ---------------------------------------------------------------- properties

  /** Truncating again with the same limit changes nothing. */
  lemma TruncateIdempotent(text: string, maxLength: int)
    requires maxLength >= 0
    ensures TruncateText(TruncateText(text, maxLength), maxLength) == TruncateText(text, maxLength)
  {
    if |text| > maxLength {
      var r := TruncateText(text, maxLength);
      assert r[..maxLength] == text[..maxLength];
    }
  }
}
