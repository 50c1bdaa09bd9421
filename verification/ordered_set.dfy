/**
 * Finite sets that remember insertion order, as a JavaScript `Set` does and
 * as the storage service lists names: sequences without repeats.
 */
module OrderedSet {

  predicate NoDup<T(==)>(s: seq<T>) {
    forall i, j :: 0 <= i < j < |s| ==> s[i] != s[j]
  }

  /** `set.add(x)`: appended when new, otherwise the set is unchanged. */
  function Insert<T(==,!new)>(s: seq<T>, x: T): (r: seq<T>)
    ensures forall y :: y in r <==> y in s || y == x
    ensures NoDup(s) ==> NoDup(r)
    ensures x in s ==> r == s
    ensures x !in s ==> r == s + [x]
  {
    if x in s then s else s + [x]
  }

  /** Adds each of `xs` in turn. */
  function InsertAll<T(==,!new)>(s: seq<T>, xs: seq<T>): (r: seq<T>)
    decreases |xs|
    ensures forall y :: y in r <==> y in s || y in xs
    ensures NoDup(s) ==> NoDup(r)
  {
    if |xs| == 0 then s else InsertAll(Insert(s, xs[0]), xs[1..])
  }

  /** `set.delete(x)`: the elements other than `x`, in order. */
  function Without<T(==,!new)>(s: seq<T>, x: T): (r: seq<T>)
    ensures |r| <= |s|
    ensures forall y :: y in r <==> y in s && y != x
    ensures NoDup(s) ==> NoDup(r)
  {
    if |s| == 0 then []
    else
      var rest := Without(s[1..], x);
      if s[0] == x then rest
      else
        assert s[0] !in s[1..] ==> s[0] !in rest;
        [s[0]] + rest
  }
}
