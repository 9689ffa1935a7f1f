/** A value that may be absent: `null` in the C# and TypeScript sources. */
module Wrappers {

  datatype Option<+T> = None | Some(value: T)
}
