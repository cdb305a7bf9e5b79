/** The java.util.List operations the binding uses to edit its lists in
    place: remove(Object), which drops the first equal element, and
    remove(int), which drops the element at an index. */
module Lists {
  import opened Common

  predicate NoDuplicates<T(==)>(s: seq<T>)
  {
    forall i, j :: 0 <= i < j < |s| ==> s[i] != s[j]
  }

  /** List.remove(Object): drop the first occurrence of x, if any. */
  function RemoveFirst<T(==)>(s: seq<T>, x: T): (r: seq<T>)
    ensures x !in s ==> r == s
    ensures x in s ==> |r| == |s| - 1
    ensures forall y :: y in r ==> y in s
    ensures forall y :: y in s && y != x ==> y in r
  {
    if s == [] then []
    else if s[0] == x then s[1..]
    else [s[0]] + RemoveFirst(s[1..], x)
  }

  /** Removal keeps the other elements in their order: the result is the
      list with exactly one position i cut out, the first holding x. */
  lemma {:induction false} RemoveFirstCutsFirst<T>(s: seq<T>, x: T) returns (i: nat)
    requires x in s
    ensures i < |s| && s[i] == x && x !in s[..i]
    ensures RemoveFirst(s, x) == s[..i] + s[i + 1..]
  {
    if s[0] == x {
      i := 0;
      assert s[..0] == [] && s[0 + 1..] == s[1..];
    } else {
      assert x in s[1..] by {
        var k :| 0 <= k < |s| && s[k] == x;
        assert s[1..][k - 1] == x;
      }
      var j := RemoveFirstCutsFirst(s[1..], x);
      i := j + 1;
      assert s[..i] == [s[0]] + s[1..][..j];
      assert s[i + 1..] == s[1..][j + 1..];
    }
  }

  /** On a duplicate-free list, removing x leaves a duplicate-free list
      without x. */
  lemma RemoveFirstRemoves<T>(s: seq<T>, x: T)
    requires NoDuplicates(s)
    ensures x !in RemoveFirst(s, x)
    ensures NoDuplicates(RemoveFirst(s, x))
  {
    if x in s {
      var i := RemoveFirstCutsFirst(s, x);
      var r := RemoveFirst(s, x);
      forall a, b | 0 <= a < b < |r|
        ensures r[a] != r[b]
      {
        var a' := if a < i then a else a + 1;
        var b' := if b < i then b else b + 1;
        assert r[a] == s[a'] && r[b] == s[b'];
      }
      forall k | 0 <= k < |r|
        ensures r[k] != x
      {
        var k' := if k < i then k else k + 1;
        assert r[k] == s[k'] && k' != i;
      }
    }
  }

  /** Removing an element appended to a list that did not hold it gives
      back the list. */
  lemma {:induction false} RemoveFirstAppendAbsent<T>(s: seq<T>, x: T)
    requires x !in s
    ensures RemoveFirst(s + [x], x) == s
  {
    if s != [] {
      assert (s + [x])[1..] == s[1..] + [x];
      RemoveFirstAppendAbsent(s[1..], x);
    }
  }

  /** As a multiset, removing x takes away one x (when there is one). */
  lemma {:induction false} RemoveFirstMultiset<T>(s: seq<T>, x: T)
    ensures multiset(RemoveFirst(s, x)) == multiset(s) - multiset{x}
  {
    if s != [] {
      assert s == [s[0]] + s[1..];
      if s[0] != x {
        RemoveFirstMultiset(s[1..], x);
        assert RemoveFirst(s, x) == [s[0]] + RemoveFirst(s[1..], x);
      }
    }
  }

  /** List.remove(int): drop the element at index i; an index outside the
      list throws. */
  function RemoveAt<T>(s: seq<T>, i: int): (r: Result<seq<T>, Error>)
    ensures r.Ok? <==> 0 <= i < |s|
    ensures r.Ok? ==> |r.value| == |s| - 1 && r.value[..i] == s[..i] && r.value[i..] == s[i + 1..]
    ensures r.Err? ==> r.error == IndexOutOfBounds
  {
    if 0 <= i < |s| then Ok(s[..i] + s[i + 1..]) else Err(IndexOutOfBounds)
  }
}
