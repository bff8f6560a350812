/** Small definitions that several parts of the model share. */
module Common {

  datatype Option<+T> = None | Some(value: T)

  function Min(a: int, b: int): int {
    if a < b then a else b
  }

  function Max(a: int, b: int): int {
    if a > b then a else b
  }

  ghost predicate NoDup<T>(s: seq<T>) {
    forall i, j :: 0 <= i < j < |s| ==> s[i] != s[j]
  }

  /** Nothing is in `b` that was not in `a`. */
  ghost predicate OnlyFrom<T(!new)>(b: seq<T>, a: seq<T>) {
    forall x :: x in b ==> x in a
  }
}
