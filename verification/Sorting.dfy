/** `Array.sort` as a function: what it returns is ordered and a permutation of its argument. */
module Sorting {

  ghost predicate TotalOrder<T(!new)>(le: (T, T) -> bool) {
    && (forall a, b :: le(a, b) || le(b, a))
    && (forall a, b, c :: le(a, b) && le(b, c) ==> le(a, c))
  }

  ghost predicate Ordered<T>(le: (T, T) -> bool, s: seq<T>) {
    forall i, j | 0 <= i < j < |s| :: le(s[i], s[j])
  }

  function Insert<T(==,!new)>(le: (T, T) -> bool, s: seq<T>, x: T): (longer: seq<T>)
    ensures |longer| == |s| + 1
    ensures forall y :: y in longer <==> y in s || y == x
  {
    if s == [] then [x]
    else if le(x, s[0]) then [x] + s
    else [s[0]] + Insert(le, s[1..], x)
  }

  function Sort<T(==,!new)>(le: (T, T) -> bool, s: seq<T>): (sorted: seq<T>)
    ensures |sorted| == |s|
    ensures forall y :: y in sorted <==> y in s
  {
    if s == [] then [] else Insert(le, Sort(le, s[1..]), s[0])
  }

  lemma {:induction false} InsertKeepsOrder<T(!new)>(le: (T, T) -> bool, s: seq<T>, x: T)
    requires TotalOrder(le) && Ordered(le, s)
    ensures Ordered(le, Insert(le, s, x))
    decreases |s|
  {
    if s == [] {
    } else if le(x, s[0]) {
      forall i | 0 <= i < |s| ensures le(x, s[i]) {
        assert i > 0 ==> le(s[0], s[i]);
      }
    } else {
      InsertKeepsOrder(le, s[1..], x);
      var rest := Insert(le, s[1..], x);
      forall i | 0 <= i < |rest| ensures le(s[0], rest[i]) {
        assert rest[i] in rest;
      }
    }
  }

  lemma {:induction false} SortOrders<T(!new)>(le: (T, T) -> bool, s: seq<T>)
    requires TotalOrder(le)
    ensures Ordered(le, Sort(le, s))
    decreases |s|
  {
    hide Insert, TotalOrder, Ordered;
    if s == [] {
      NothingIsOrdered(le, s);
    } else {
      SortOrders(le, s[1..]);
      InsertKeepsOrder(le, Sort(le, s[1..]), s[0]);
    }
  }

  lemma NothingIsOrdered<T(!new)>(le: (T, T) -> bool, s: seq<T>)
    requires s == []
    ensures Ordered(le, Sort(le, s))
  {
  }

  ghost predicate NoRepeats<T>(s: seq<T>) {
    forall i, j | 0 <= i < j < |s| :: s[i] != s[j]
  }

  lemma {:induction false} InsertKeepsDistinct<T(!new)>(le: (T, T) -> bool, s: seq<T>, x: T)
    requires NoRepeats(s) && x !in s
    ensures NoRepeats(Insert(le, s, x))
    decreases |s|
  {
    if s == [] || le(x, s[0]) {
    } else {
      InsertKeepsDistinct(le, s[1..], x);
      var rest := Insert(le, s[1..], x);
      forall i | 0 <= i < |rest| ensures rest[i] != s[0] {
        assert rest[i] in rest;
      }
    }
  }

  lemma {:induction false} SortKeepsDistinct<T(!new)>(le: (T, T) -> bool, s: seq<T>)
    requires NoRepeats(s)
    ensures NoRepeats(Sort(le, s))
    decreases |s|
  {
    hide Insert;
    if s == [] {
    } else {
      SortKeepsDistinct(le, s[1..]);
      InsertKeepsDistinct(le, Sort(le, s[1..]), s[0]);
    }
  }
}
