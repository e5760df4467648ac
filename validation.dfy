/** The checks `handleFileSelect` makes on a chosen file before reading it. */
module FileValidation {
  import opened Strings

  /** The largest accepted file, 10 MiB. */
  const MaxFileBytes: nat := 10 * 1024 * 1024

  /** What the browser reports about a selected file. */
  datatype FileInfo = FileInfo(size: nat, mimeType: string)

  /** The outcome of the checks; each rejection has its own message. */
  datatype FileCheck = Accepted | TooLarge | NotAnImage

  /** The size limit is checked first, then the MIME type must start with "image/". */
  function ValidateFile(file: FileInfo): (r: FileCheck)
    ensures r == TooLarge <==> file.size > MaxFileBytes
    ensures r == NotAnImage <==> file.size <= MaxFileBytes && !StartsWith(file.mimeType, "image/")
    ensures r == Accepted <==> file.size <= MaxFileBytes && StartsWith(file.mimeType, "image/")
  {
    if file.size > MaxFileBytes then TooLarge
    else if !StartsWith(file.mimeType, "image/") then NotAnImage
    else Accepted
  }

  /** An oversized file gets the size error whatever its type: the type is not examined. */
  lemma OversizeIgnoresType(size: nat, t1: string, t2: string)
    requires size > MaxFileBytes
    ensures ValidateFile(FileInfo(size, t1)) == ValidateFile(FileInfo(size, t2)) == TooLarge
  {
  }

  /** A file of exactly 10 MiB passes the size check; only its type can reject it. */
  lemma ExactLimitPassesSize(mimeType: string)
    ensures ValidateFile(FileInfo(MaxFileBytes, mimeType)) != TooLarge
    ensures ValidateFile(FileInfo(MaxFileBytes, mimeType)) == Accepted <==> StartsWith(mimeType, "image/")
  {
  }
}
