// Sorting by a string key, as Python's sorted() does.
module Sorting {

  // Code-point order of strings.
  predicate Less(a: string, b: string) {
    if b == "" then false
    else if a == "" then true
    else a[0] < b[0] || (a[0] == b[0] && Less(a[1..], b[1..]))
  }

  predicate AtMost(a: string, b: string) { !Less(b, a) }

  lemma {:induction false} LessTotal(a: string, b: string)
    ensures Less(a, b) || Less(b, a) || a == b
    ensures !(Less(a, b) && Less(b, a))
  {
    if a != "" && b != "" && a[0] == b[0] {
      LessTotal(a[1..], b[1..]);
      if a[1..] == b[1..] { assert a == [a[0]] + a[1..] && b == [b[0]] + b[1..]; }
    }
  }

  lemma {:induction false} LessTransitive(a: string, b: string, c: string)
    requires Less(a, b) && Less(b, c)
    ensures Less(a, c)
  {
    if a != "" && a[0] == b[0] == c[0] { LessTransitive(a[1..], b[1..], c[1..]); }
  }

  lemma AtMostTransitive(a: string, b: string, c: string)
    requires AtMost(a, b) && AtMost(b, c)
    ensures AtMost(a, c)
  {
    LessTotal(a, b);
    LessTotal(b, c);
    if Less(c, a) {
      if a == b || b == c {
      } else {
        LessTransitive(c, a, b);
      }
      LessTotal(c, b);
    }
  }

  function Insert<T>(x: T, xs: seq<T>, key: T -> string): seq<T> {
    if xs == [] then [x]
    else if Less(key(x), key(xs[0])) then [x] + xs
    else [xs[0]] + Insert(x, xs[1..], key)
  }

  // Stable: an element goes after the ones that compare equal and came before it.
  function SortBy<T>(xs: seq<T>, key: T -> string): (r: seq<T>)
    ensures |r| == |xs|
    decreases |xs|
  {
    if xs == [] then [] else InsertLength(xs[|xs| - 1], SortBy(xs[..|xs| - 1], key), key)
  }

  function InsertLength<T>(x: T, xs: seq<T>, key: T -> string): (r: seq<T>)
    ensures r == Insert(x, xs, key) && |r| == |xs| + 1
  {
    InsertSize(x, xs, key);
    Insert(x, xs, key)
  }

  lemma {:induction false} InsertSize<T>(x: T, xs: seq<T>, key: T -> string)
    ensures |Insert(x, xs, key)| == |xs| + 1
  {
    if xs != [] { InsertSize(x, xs[1..], key); }
  }

  ghost predicate Ordered<T>(xs: seq<T>, key: T -> string) {
    forall i, j | 0 <= i < j < |xs| :: AtMost(key(xs[i]), key(xs[j]))
  }

  lemma {:induction false} InsertPermutes<T>(x: T, xs: seq<T>, key: T -> string)
    ensures multiset(Insert(x, xs, key)) == multiset(xs) + multiset{x}
  {
    if xs != [] {
      assert xs == [xs[0]] + xs[1..];
      InsertPermutes(x, xs[1..], key);
    }
  }

  lemma {:induction false} SortPermutes<T>(xs: seq<T>, key: T -> string)
    ensures multiset(SortBy(xs, key)) == multiset(xs)
    decreases |xs|
  {
    if xs != [] {
      var n := |xs| - 1;
      assert xs == xs[..n] + [xs[n]];
      SortPermutes(xs[..n], key);
      InsertPermutes(xs[n], SortBy(xs[..n], key), key);
    }
  }

  lemma {:induction false} InsertOrders<T>(x: T, xs: seq<T>, key: T -> string)
    requires Ordered(xs, key)
    ensures Ordered(Insert(x, xs, key), key)
  {
    if xs == [] {
    } else if Less(key(x), key(xs[0])) {
      LessTotal(key(x), key(xs[0]));
      forall j | 0 < j < |xs| ensures AtMost(key(x), key(xs[j])) {
        AtMostTransitive(key(x), key(xs[0]), key(xs[j]));
      }
    } else {
      var rest := Insert(x, xs[1..], key);
      InsertOrders(x, xs[1..], key);
      InsertPermutes(x, xs[1..], key);
      forall j | 0 <= j < |rest| ensures AtMost(key(xs[0]), key(rest[j])) {
        assert rest[j] in multiset(rest);
        if rest[j] != x {
          assert rest[j] in xs[1..];
        }
      }
    }
  }

  lemma {:induction false} SortOrders<T>(xs: seq<T>, key: T -> string)
    ensures Ordered(SortBy(xs, key), key)
    decreases |xs|
  {
    if xs != [] {
      SortOrders(xs[..|xs| - 1], key);
      InsertOrders(xs[|xs| - 1], SortBy(xs[..|xs| - 1], key), key);
    }
  }

  lemma SortMembers<T>(xs: seq<T>, key: T -> string)
    ensures forall x :: x in SortBy(xs, key) <==> x in xs
  {
    SortPermutes(xs, key);
    forall x ensures x in SortBy(xs, key) <==> x in xs {
      assert x in SortBy(xs, key) <==> x in multiset(SortBy(xs, key));
      assert x in xs <==> x in multiset(xs);
    }
  }

  lemma AnotherOccurrence<T>(b: seq<T>, x: T, k: nat) returns (l: nat)
    requires k < |b| && b[k] == x && multiset(b)[x] >= 2
    ensures l < |b| && l != k && b[l] == x
  {
    assert b == b[..k] + [b[k]] + b[k + 1..];
    assert x in multiset(b[..k]) + multiset(b[k + 1..]);
    if x in b[..k] {
      l :| l < k && b[l] == x;
    } else {
      assert x in b[k + 1..];
      var m: nat :| m < |b| - k - 1 && b[k + 1..][m] == x;
      l := k + 1 + m;
    }
  }

  // Two places of a sequence have two places of any permutation of it.
  lemma PermutedPair<T>(a: seq<T>, b: seq<T>, i: nat, j: nat) returns (k: nat, l: nat)
    requires multiset(a) == multiset(b) && i < j < |a|
    ensures k < |b| && l < |b| && k != l && b[k] == a[i] && b[l] == a[j]
  {
    assert a[i] in multiset(b) && a[j] in multiset(b);
    k :| k < |b| && b[k] == a[i];
    if a[i] != a[j] {
      l :| l < |b| && b[l] == a[j];
    } else {
      assert a == a[..i] + [a[i]] + a[i + 1..j] + [a[j]] + a[j + 1..];
      assert multiset(a)[a[i]] >= 2;
      l := AnotherOccurrence(b, a[i], k);
    }
  }

  lemma HeadIsLeast<T>(a: seq<T>, x: T, key: T -> string)
    requires Ordered(a, key) && x in multiset(a)
    ensures AtMost(key(a[0]), key(x))
  {
    var i: nat :| i < |a| && a[i] == x;
    LessTotal(key(x), key(x));
  }

  lemma TailOf<T>(a: seq<T>, key: T -> string)
    requires a != [] && Ordered(a, key)
    ensures Ordered(a[1..], key) && multiset(a[1..]) == multiset(a) - multiset{a[0]}
  {
    assert a == [a[0]] + a[1..];
  }

  ghost predicate DistinctKeys<T(!new)>(m: multiset<T>, key: T -> string) {
    forall x, y | x in m && y in m && key(x) == key(y) :: x == y
  }

  // Two sorted orders of the same elements start with the same one.
  lemma HeadsAgree<T(!new)>(a: seq<T>, b: seq<T>, key: T -> string)
    requires Ordered(a, key) && Ordered(b, key) && multiset(a) == multiset(b) && a != [] && b != []
    requires DistinctKeys(multiset(a), key)
    ensures a[0] == b[0]
  {
    assert a[0] in multiset(b) && b[0] in multiset(a);
    HeadIsLeast(a, b[0], key);
    HeadIsLeast(b, a[0], key);
    LessTotal(key(a[0]), key(b[0]));
  }

  lemma DistinctTail<T(!new)>(a: seq<T>, key: T -> string)
    requires a != [] && DistinctKeys(multiset(a), key) && multiset(a[1..]) == multiset(a) - multiset{a[0]}
    ensures DistinctKeys(multiset(a[1..]), key)
  {
    assert forall x | x in multiset(a[1..]) :: x in multiset(a);
  }

  lemma HeadAndTailDecide<T>(a: seq<T>, b: seq<T>)
    requires a != [] && b != [] && a[0] == b[0] && a[1..] == b[1..]
    ensures a == b
  {
    assert a == [a[0]] + a[1..] && b == [b[0]] + b[1..];
  }

  lemma SameLength<T>(a: seq<T>, b: seq<T>)
    requires multiset(a) == multiset(b)
    ensures |a| == |b|
  {
    assert |a| == |multiset(a)| && |b| == |multiset(b)|;
  }

  lemma TailsAgree<T(!new)>(a: seq<T>, b: seq<T>, key: T -> string)
    requires Ordered(a, key) && Ordered(b, key) && multiset(a) == multiset(b)
    requires DistinctKeys(multiset(a), key) && a != [] && b != [] && a[0] == b[0]
    ensures Ordered(a[1..], key) && Ordered(b[1..], key) && multiset(a[1..]) == multiset(b[1..])
    ensures DistinctKeys(multiset(a[1..]), key)
  {
    TailOf(a, key);
    TailOf(b, key);
    DistinctTail(a, key);
  }

  // With different keys there is one sorted order.
  lemma {:induction false} SortedIsUnique<T(!new)>(a: seq<T>, b: seq<T>, key: T -> string)
    requires Ordered(a, key) && Ordered(b, key) && multiset(a) == multiset(b)
    requires DistinctKeys(multiset(a), key)
    ensures a == b
    decreases |a|
  {
    SameLength(a, b);
    if a != [] {
      HeadsAgree(a, b, key);
      TailsAgree(a, b, key);
      SortedIsUnique(a[1..], b[1..], key);
      HeadAndTailDecide(a, b);
    }
  }

  // ----- Mapping a sequence -----

  function MapSeq<T, U>(f: T -> U, xs: seq<T>): (ys: seq<U>)
    ensures |ys| == |xs|
    ensures forall i | 0 <= i < |xs| :: ys[i] == f(xs[i])
  {
    if xs == [] then [] else [f(xs[0])] + MapSeq(f, xs[1..])
  }

  lemma {:induction false} MapInsert<T, U>(f: T -> U, x: T, xs: seq<T>, key: T -> string)
    ensures multiset(MapSeq(f, Insert(x, xs, key))) == multiset(MapSeq(f, xs)) + multiset{f(x)}
  {
    if xs != [] {
      if Less(key(x), key(xs[0])) {
        assert ([x] + xs)[1..] == xs;
      } else {
        var rest := Insert(x, xs[1..], key);
        assert ([xs[0]] + rest)[1..] == rest;
        MapInsert(f, x, xs[1..], key);
      }
    }
  }

  lemma {:induction false} MapAppend<T, U>(f: T -> U, xs: seq<T>, x: T)
    ensures MapSeq(f, xs + [x]) == MapSeq(f, xs) + [f(x)]
  {
  }

  // Sorting before or after a mapping makes no difference to what is there.
  lemma {:induction false} MapSortPermutes<T, U>(f: T -> U, xs: seq<T>, key: T -> string)
    ensures multiset(MapSeq(f, SortBy(xs, key))) == multiset(MapSeq(f, xs))
    decreases |xs|
  {
    if xs != [] {
      var n := |xs| - 1;
      var front, last := xs[..n], xs[n];
      assert xs == front + [last];
      MapSortPermutes(f, front, key);
      MapInsert(f, last, SortBy(front, key), key);
      MapAppend(f, front, last);
      assert SortBy(xs, key) == Insert(last, SortBy(front, key), key);
    }
  }
}
