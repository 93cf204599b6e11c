/** Values shared by every screen of the dashboard. */
module Common {

  /** JavaScript's `undefined`/`null` versus a present value. */
  datatype Option<+T> = None | Some(value: T)

  /** Server-assigned identifiers (`_id`) are strings. */
  type Id = string

  /** A browser `File` as far as the screens look at it: its name and MIME type. */
  datatype File = File(name: string, mime: string)
}
