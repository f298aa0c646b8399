/** The uploaded file as the multipart interceptor hands it to the
    ingredients endpoint (`Express.Multer.File`, kept in memory). */
module Uploads {
  newtype byte = x: int | 0 <= x < 256

  /** The fields of the upload the core reads: the declared MIME type, the
      size in bytes, the contents and the client's file name. */
  datatype UploadedFile = UploadedFile(mimetype: string, size: nat, buffer: seq<byte>, originalname: string)
}
