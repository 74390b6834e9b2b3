/** The attachment chip shown above the chat input: whether a file is an image,
    which icon a non-image file gets from its extension, and the unit in which
    its size is shown. */
module FilePreview {
  import opened Basics
  import opened Text

  /** The fields of a browser `File` that the components read: its name, its
      MIME type (`file.type`) and its size in bytes. */
  datatype File = File(name: string, mimeType: string, size: nat)

  /** A file is an image when its MIME type begins with "image/" (case matters). */
  predicate IsImage(file: File)
    ensures IsImage(file) <==> "image/" <= file.mimeType
  {
    StartsWith(file.mimeType, "image/")
  }

  /** The extension: the last piece of the name split at '.', lower-cased. */
  function Extension(name: string): (ext: string)
    ensures |ext| <= |name|
    ensures '.' !in ext
  {
    var parts := Split(name, '.');
    LastPieceIsTextAfterLastSeparator(name, '.');
    Lower(parts[|parts| - 1])
  }

  /** The extension is the lower-cased text after the last '.', or the whole
      lower-cased name when it has no '.'. */
  lemma ExtensionIsTextAfterLastDot(name: string)
    ensures var ext := Extension(name);
      && ext == Lower(name[|name| - |ext|..])
      && '.' !in name[|name| - |ext|..]
      && (|ext| < |name| ==> name[|name| - |ext| - 1] == '.')
  {
    LastPieceIsTextAfterLastSeparator(name, '.');
  }

  /** Names that differ only in the case of ASCII letters have the same extension. */
  lemma ExtensionIgnoresCase(a: string, b: string)
    requires Lower(a) == Lower(b)
    ensures Extension(a) == Extension(b)
  {
    LastPieceOfLower(a, '.');
    LastPieceOfLower(b, '.');
  }

  /** The icon kinds of the preview chip. */
  datatype Icon = TextIcon | SpreadsheetIcon | JsonIcon | GenericIcon

  /** The `switch` on the extension. */
  function IconForExtension(ext: string): (icon: Icon)
    ensures icon == TextIcon <==> ext in {"pdf", "doc", "docx", "txt"}
    ensures icon == SpreadsheetIcon <==> ext in {"csv", "xlsx", "xls"}
    ensures icon == JsonIcon <==> ext == "json"
  {
    if ext == "pdf" || ext == "doc" || ext == "docx" || ext == "txt" then TextIcon
    else if ext == "csv" || ext == "xlsx" || ext == "xls" then SpreadsheetIcon
    else if ext == "json" then JsonIcon
    else GenericIcon
  }

  /** `getFileIcon`: images get no icon (their preview is shown instead); any
      other file gets the icon of its extension. */
  function FileIcon(file: File): (icon: Option<Icon>)
    ensures icon.None? <==> IsImage(file)
    ensures icon.Some? ==> icon.value == IconForExtension(Extension(file.name))
  {
    if IsImage(file) then None else Some(IconForExtension(Extension(file.name)))
  }

  /** Classification ignores the case of the name's letters. */
  lemma FileIconIgnoresCase(a: File, b: File)
    requires Lower(a.name) == Lower(b.name) && a.mimeType == b.mimeType
    ensures FileIcon(a) == FileIcon(b)
  {
    ExtensionIgnoresCase(a.name, b.name);
  }

  const KiB: nat := 1024
  const MiB: nat := 1024 * 1024

  /** How `formatFileSize` shows a size: the exact number of bytes followed by
      " B", or the size divided by the unit, followed by the unit. */
  datatype SizeLabel = Exact(text: string) | Scaled(amount: real, unit: string)

  /** Below 1024 bytes the size is shown exactly in bytes; below 1048576 in KB;
      from there on in MB. The scaled amount is the exact quotient. */
  function FormatFileSize(bytes: nat): (shown: SizeLabel)
    ensures shown.Exact? <==> bytes < KiB
    ensures shown.Scaled? ==> shown.unit == (if bytes < MiB then "KB" else "MB")
    ensures shown.Scaled? && shown.unit == "KB" ==>
      shown.amount * (KiB as real) == bytes as real && 1.0 <= shown.amount < KiB as real
    ensures shown.Scaled? && shown.unit == "MB" ==>
      shown.amount * (MiB as real) == bytes as real && 1.0 <= shown.amount
  {
    if bytes < KiB then Exact(NatToString(bytes) + " B")
    else if bytes < MiB then Scaled(bytes as real / KiB as real, "KB")
    else Scaled(bytes as real / MiB as real, "MB")
  }

  /** The bytes label is the decimal number followed by " B", and reading the
      number back gives the size. */
  lemma ExactSizeReadsBack(bytes: nat)
    requires bytes < KiB
    ensures var text := FormatFileSize(bytes).text;
      && |text| >= 3 && text[|text| - 2..] == " B"
      && (forall i :: 0 <= i < |text| - 2 ==> IsDigit(text[i]))
      && ParseDecimal(text[..|text| - 2]) == bytes
  {
    var text := FormatFileSize(bytes).text;
    assert text[..|text| - 2] == NatToString(bytes);
    ParseNatToString(bytes);
  }
}
