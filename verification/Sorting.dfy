/** Stable insertion into a list ordered by a total preorder. */
module Sorting {

  ghost predicate Preorder<T(!new)>(le: (T, T) -> bool) {
    && (forall x, y :: le(x, y) || le(y, x))
    && (forall x, y, z :: le(x, y) && le(y, z) ==> le(x, z))
  }

  ghost predicate Ordered<T>(s: seq<T>, le: (T, T) -> bool) {
    forall i, j :: 0 <= i < j < |s| ==> le(s[i], s[j])
  }

  function Insert<T>(s: seq<T>, x: T, le: (T, T) -> bool): seq<T> {
    if s == [] || !le(s[0], x) then [x] + s else [s[0]] + Insert(s[1..], x, le)
  }

  function Sort<T>(s: seq<T>, le: (T, T) -> bool): seq<T> {
    if s == [] then [] else Insert(Sort(s[..|s| - 1], le), s[|s| - 1], le)
  }

  lemma {:induction false} InsertKeepsElements<T>(s: seq<T>, x: T, le: (T, T) -> bool)
    ensures multiset(Insert(s, x, le)) == multiset(s) + multiset{x}
  {
    if s == [] || !le(s[0], x) {
    } else {
      InsertKeepsElements(s[1..], x, le);
      assert s == [s[0]] + s[1..];
    }
  }

  lemma {:induction false} InsertKeepsOrder<T(!new)>(s: seq<T>, x: T, le: (T, T) -> bool)
    requires Preorder(le) && Ordered(s, le)
    ensures Ordered(Insert(s, x, le), le)
  {
    if s == [] {
    } else if !le(s[0], x) {
      forall j | 0 <= j < |s|
        ensures le(x, s[j])
      {
        assert le(x, s[0]);
        assert j > 0 ==> le(s[0], s[j]);
      }
    } else {
      var rest := Insert(s[1..], x, le);
      InsertKeepsOrder(s[1..], x, le);
      InsertKeepsElements(s[1..], x, le);
      forall j | 0 <= j < |rest|
        ensures le(s[0], rest[j])
      {
        assert rest[j] in multiset(rest);
        assert rest[j] == x || rest[j] in s[1..];
      }
    }
  }

  lemma {:induction false} SortIsOrderedPermutation<T(!new)>(s: seq<T>, le: (T, T) -> bool)
    requires Preorder(le)
    ensures multiset(Sort(s, le)) == multiset(s) && |Sort(s, le)| == |s|
    ensures Ordered(Sort(s, le), le)
    ensures forall x :: x in Sort(s, le) <==> x in s
  {
    if s == [] {
    } else {
      var (front, last) := (s[..|s| - 1], s[|s| - 1]);
      SortIsOrderedPermutation(front, le);
      InsertKeepsElements(Sort(front, le), last, le);
      InsertKeepsOrder(Sort(front, le), last, le);
      assert s == front + [last];
    }
    assert |multiset(Sort(s, le))| == |multiset(s)|;
    forall x
      ensures x in Sort(s, le) <==> x in s
    {
      assert x in Sort(s, le) <==> x in multiset(Sort(s, le));
      assert x in s <==> x in multiset(s);
    }
  }
}
