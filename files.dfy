/** A file chosen in a browser form, as far as the screens look at it. */
module Files {

  /** `File.name`, `File.type` (the MIME type) and `File.size` in bytes. */
  datatype File = File(name: string, mimeType: string, size: int)
}
