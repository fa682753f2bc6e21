/** Optional values and the clock shared by the whole model. */
module Wrappers {

  /** A Java reference that may be `null`, or a lookup that may find nothing. */
  datatype Option<T> = None | Some(value: T)

  /** A `java.time.LocalDateTime` reading: only the order of instants matters here. */
  type Time = nat

  /** `String.valueOf` of a possibly-null string, as string concatenation renders it. */
  function NullText(s: Option<string>): string
  {
    if s.Some? then s.value else "null"
  }
}
