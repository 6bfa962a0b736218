/** What several modules share: optional values and the front of a sequence. */
module Wrappers {

  datatype Option<+T> = None | Some(value: T)

  /** The first n elements, or all of them if there are fewer. */
  function Take<T>(s: seq<T>, n: nat): seq<T> {
    if n <= |s| then s[..n] else s
  }
}
