/** The upload check run before a file is read (script.js and
    frontend/script.js, `validateFile`). */
module Upload {
  import opened Wrappers
  import opened Json

  /** 5 MiB. */
  const MaxFileSize: nat := 5 * 1024 * 1024
  const AllowedFileType: string := "application/json"

  datatype FileError = TooLarge | NotJson

  /** The text of the thrown error. */
  function Message(e: FileError): string {
    match e
    case TooLarge => "File size exceeds " + NatToString(MaxFileSize / 1024 / 1024) + "MB limit"
    case NotJson => "Only JSON files are allowed"
  }

  /** `validateFile(file)`: accepted exactly when the size is at most 5 MiB
      and the type is exactly "application/json"; an oversized file is
      reported as such whatever its type, because the size check runs
      first. */
  function ValidateFile(size: nat, fileType: string): (r: Result<bool, FileError>)
    ensures r.Success? <==> size <= MaxFileSize && fileType == AllowedFileType
    ensures r.Success? ==> r.value
    ensures r == Failure(TooLarge) <==> size > MaxFileSize
    ensures r == Failure(NotJson) <==> size <= MaxFileSize && fileType != AllowedFileType
  {
    if size > MaxFileSize then Failure(TooLarge)
    else if fileType != AllowedFileType then Failure(NotJson)
    else Success(true)
  }

  /** A JSON file of exactly 5 MiB passes and one byte more does not; the
      size error reads "File size exceeds 5MB limit". */
  lemma Boundary()
    ensures ValidateFile(5242880, "application/json") == Success(true)
    ensures ValidateFile(5242881, "application/json") == Failure(TooLarge)
    ensures Message(TooLarge) == "File size exceeds 5MB limit"
  {
  }
}
