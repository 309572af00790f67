/** Values shared by the browser client and the Flask backend. */
module Common {

  datatype Option<+T> = None | Some(value: T)

  /** The bytes of an image, kept opaque: they are only ever passed along. */
  datatype Blob = Blob(id: nat)

  /** A browser `File` (and, on the server, the uploaded file it arrives as):
      its bytes and the file name the browser sends with it. */
  datatype File = File(content: Blob, name: string)
}
