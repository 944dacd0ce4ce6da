/** What several models share. */
module Common {
  datatype Option<T> = None | Some(value: T)

  ghost predicate Increasing(s: seq<nat>) { forall i, j :: 0 <= i < j < |s| ==> s[i] < s[j] }

  /** The number of characters before the first newline. */
  function LineEnd(s: string): (n: nat)
    ensures n <= |s| && (n < |s| ==> s[n] == '\n') && '\n' !in s[..n]
  {
    if s == [] || s[0] == '\n' then 0 else 1 + LineEnd(s[1..])
  }
}
