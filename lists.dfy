/** Python list operations the simulator relies on. */
module Lists {

  /** `list.index`: the position of the first occurrence of `x` (Python
      raises ValueError when there is none, so callers check `x in s`). */
  function IndexOf<T(==)>(s: seq<T>, x: T): (i: nat)
    requires x in s
    ensures i < |s| && s[i] == x
    ensures forall k :: 0 <= k < i ==> s[k] != x
  {
    if s[0] == x then 0 else 1 + IndexOf(s[1..], x)
  }

  /** Python's `s[k]` for an index in [-|s|, |s|): a negative index counts
      from the end. */
  function PyIndex<T>(s: seq<T>, k: int): T
    requires -|s| <= k < |s|
  {
    if k < 0 then s[k + |s|] else s[k]
  }
}
