/** `FileValidationPipe`: the guards an upload passes before the vision
    endpoint sees it. */
module FileValidation {
  import opened Outcomes
  import opened JsonValues
  import opened Uploads

  const AllowedMimeTypes: seq<string> := ["image/jpeg", "image/png", "image/jpg"]

  /** 2 MiB. */
  const MaximumFileSize: nat := 1024 * 1024 * 2

  const FileRequired: string := "File is required"
  const InvalidFileType: string := "Invalid file type. Only JPEG and PNG files are allowed"
  const FileTooLarge: string := "File size is too large"

  /** An upload that every guard lets through. */
  predicate Acceptable(file: UploadedFile) {
    file.mimetype in AllowedMimeTypes && file.size <= MaximumFileSize
  }

  /** `transform`: presence, then the MIME allow-list, then the size limit;
      the first guard that fails decides the exception, and an accepted
      file is returned as it came. */
  function Validate(upload: Option<UploadedFile>): (r: Result<UploadedFile, Failure>)
    ensures r.Ok? <==> upload.Some? && Acceptable(upload.value)
    ensures r.Ok? ==> r.value == upload.value
    ensures upload.None? ==> r == Err(HttpException(Some(BadRequest), FileRequired))
    ensures upload.Some? && upload.value.mimetype !in AllowedMimeTypes
            ==> r == Err(HttpException(Some(UnprocessableEntity), InvalidFileType))
    ensures upload.Some? && upload.value.mimetype in AllowedMimeTypes && upload.value.size > MaximumFileSize
            ==> r == Err(HttpException(Some(UnprocessableEntity), FileTooLarge))
  {
    match upload
    case None => Err(HttpException(Some(BadRequest), FileRequired))
    case Some(file) =>
      if file.mimetype !in AllowedMimeTypes then Err(HttpException(Some(UnprocessableEntity), InvalidFileType))
      else if file.size > MaximumFileSize then Err(HttpException(Some(UnprocessableEntity), FileTooLarge))
      else Ok(file)
  }

  /** The size limit is inclusive: a file of exactly 2097152 bytes of an
      allowed type passes, one byte more is refused. */
  lemma SizeLimitInclusive(file: UploadedFile)
    requires file.mimetype in AllowedMimeTypes
    ensures file.size == 2097152 ==> Validate(Some(file)) == Ok(file)
    ensures file.size == 2097153 ==> Validate(Some(file)) == Err(HttpException(Some(422), "File size is too large"))
  {
  }

  /** The type guard runs before the size guard: a wrong-type file is
      reported as a wrong type whatever its size. */
  lemma TypeCheckedBeforeSize(file: UploadedFile)
    requires file.mimetype !in AllowedMimeTypes
    ensures Validate(Some(file)).Err?
    ensures Validate(Some(file)).error.message == InvalidFileType
  {
  }

  /** Validation is idempotent: an accepted file passes again unchanged. */
  lemma ValidateIdempotent(upload: Option<UploadedFile>)
    ensures Validate(upload).Ok? ==> Validate(Some(Validate(upload).value)) == Validate(upload)
  {
  }

  /** Acceptance does not depend on the file's contents or name. */
  lemma ValidateIgnoresContents(file: UploadedFile, buffer: seq<byte>, name: string)
    ensures Validate(Some(file.(buffer := buffer, originalname := name))).Ok? == Validate(Some(file)).Ok?
  {
  }
}
