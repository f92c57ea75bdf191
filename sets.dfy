/** JavaScript `Set`s as duplicate-free sequences in insertion order. */
module Sets {

  /** No element occurs twice. */
  predicate Distinct<T(==)>(s: seq<T>) {
    forall i, j :: 0 <= i < j < |s| ==> s[i] != s[j]
  }

  /** `set.add(x)`: appended unless already present. */
  function Insert<T(==)>(s: seq<T>, x: T): (r: seq<T>)
    ensures Distinct(s) ==> Distinct(r)
    ensures x in r && (forall y :: y in s ==> y in r)
    ensures forall y :: y in r ==> y in s || y == x
    ensures x in s ==> r == s
    ensures x !in s ==> r == s + [x]
  {
    if x in s then s else s + [x]
  }

  /** `set.delete(x)`: every other element, in order. */
  function Delete<T(==)>(s: seq<T>, x: T): (r: seq<T>)
    ensures x !in r && (forall y :: y in r ==> y in s)
    ensures forall y :: y in s && y != x ==> y in r
    ensures |r| <= |s|
    ensures x !in s ==> r == s
    decreases |s|
  {
    if s == [] then []
    else (if s[0] == x then [] else [s[0]]) + Delete(s[1..], x)
  }

  /** The elements of `r` deleted from `s` one after the other: the
      elements of `s` that are not in `r`. */
  function DeleteAll<T(==)>(s: seq<T>, r: seq<T>): (t: seq<T>)
    ensures forall y :: y in t ==> y in s && y !in r
    ensures forall y :: y in s && y !in r ==> y in t
    decreases |r|
  {
    if r == [] then s
    else
      var n := |r| - 1;
      assert r == r[..n] + [r[n]];
      Delete(DeleteAll(s, r[..n]), r[n])
  }

  /** Deleting the first i + 1 elements of `r` is deleting the first i,
      then the (i + 1)-th. */
  lemma DeleteAllStep<T>(s: seq<T>, r: seq<T>, i: nat)
    requires i < |r|
    ensures DeleteAll(s, r[..i + 1]) == Delete(DeleteAll(s, r[..i]), r[i])
  {
    assert r[..i + 1][..i] == r[..i];
  }

  /** Deleting keeps a sequence duplicate-free, and from a duplicate-free
      sequence it removes exactly one element when present. */
  lemma {:induction false} DeleteDistinct<T>(s: seq<T>, x: T)
    requires Distinct(s)
    ensures Distinct(Delete(s, x))
    ensures x in s ==> |Delete(s, x)| == |s| - 1
    decreases |s|
  {
    if s != [] {
      var tail := s[1..];
      assert Distinct(tail);
      DeleteDistinct(tail, x);
      var r := Delete(s, x);
      if s[0] != x {
        assert s[0] !in tail;
        assert r == [s[0]] + Delete(tail, x);
      } else {
        assert x !in tail;
      }
    }
  }

  /** In a duplicate-free sequence, deleting the element at position i from
      the suffix starting there leaves the suffix after it. */
  lemma DeleteHead<T>(s: seq<T>, i: nat)
    requires Distinct(s) && i < |s|
    ensures Delete(s[i..], s[i]) == s[i + 1..]
  {
    assert s[i..][1..] == s[i + 1..];
    assert s[i] !in s[i + 1..];
  }
}
