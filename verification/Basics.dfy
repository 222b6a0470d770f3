/** What several modules share: a value that may be missing, the smaller of two numbers, joining. */
module Basics {
  datatype Option<T> = None | Some(value: T)

  function Min(a: nat, b: nat): nat { if a < b then a else b }

  /** The pieces with a separator between them. */
  function Join<T>(pieces: seq<seq<T>>, separator: T): seq<T> {
    if pieces == [] then []
    else if |pieces| == 1 then pieces[0]
    else pieces[0] + [separator] + Join(pieces[1..], separator)
  }
}
