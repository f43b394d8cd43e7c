/** Value types shared by the server actions, the validation schema and the uploader. */
module Types {

  datatype Option<+T> = None | Some(value: T)

  /** The envelope every server action returns: `{success: true, data}` or `{success: false, error}`. */
  datatype ActionResponse<+T> = Success(data: T) | Failure(error: string)

  /** A browser `File`, reduced to what the application reads of it: its name, its size in bytes and its MIME type. */
  datatype File = File(name: string, size: nat, mimeType: string)
}
