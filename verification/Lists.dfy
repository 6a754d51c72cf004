/** Helpers shared by the models: an optional value, the Redis list removal, the size of a subset. */
module Lists {

  datatype Option<+T> = None | Some(value: T)

  /** LREM key 1 x: drops the first occurrence of x, if there is one. */
  function RemoveFirst<T(==)>(s: seq<T>, x: T): seq<T> {
    if s == [] then []
    else if s[0] == x then s[1..]
    else [s[0]] + RemoveFirst(s[1..], x)
  }

  /** Occurrences of x in s. */
  function Count<T(==)>(s: seq<T>, x: T): (n: nat)
  {
    multiset(s)[x]
  }

  lemma CountAppend<T>(s: seq<T>, y: T, x: T)
    ensures Count(s + [y], x) == Count(s, x) + (if x == y then 1 else 0)
  {
  }

  lemma CountTail<T>(s: seq<T>, x: T)
    requires s != []
    ensures Count(s, x) == Count(s[1..], x) + (if x == s[0] then 1 else 0)
  {
    assert s == [s[0]] + s[1..];
  }

  lemma {:induction false} CountRemoved<T>(s: seq<T>, x: T, y: T)
    ensures Count(RemoveFirst(s, x), y) == Count(s, y) - (if x == y && y in s then 1 else 0)
  {
    if s != [] {
      assert s == [s[0]] + s[1..];
      if s[0] != x {
        CountRemoved(s[1..], x, y);
      }
    }
  }

  lemma {:induction false} MemberRemoved<T>(s: seq<T>, x: T, y: T)
    ensures y in RemoveFirst(s, x) <==> if x == y then Count(s, y) >= 2 else y in s
  {
    CountRemoved(s, x, y);
  }

  lemma SubsetSize<T>(a: set<T>, b: set<T>)
    requires a <= b
    ensures |a| <= |b|
  {
    assert b == a + (b - a);
  }
}
