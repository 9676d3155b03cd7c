/** Sorting by key as the standard library does it (stably), and the sorted sets behind `BTreeSet` collections. */
module Ordering {
  import opened Sequences

  /** Strings compare code point by code point. */
  predicate LexLess(a: string, b: string) {
    if b == [] then false
    else if a == [] then true
    else if a[0] != b[0] then a[0] < b[0]
    else LexLess(a[1..], b[1..])
  }

  lemma {:induction false} LexTrichotomy(a: string, b: string)
    ensures LexLess(a, b) || a == b || LexLess(b, a)
    ensures !(LexLess(a, b) && LexLess(b, a))
    ensures !LexLess(a, a)
  {
    if a != [] {
      LexTrichotomy(a[1..], if b == [] then [] else b[1..]);
    }
    if a != [] && b != [] && a[0] == b[0] {
      assert a == [a[0]] + a[1..] && b == [b[0]] + b[1..];
    }
  }

  lemma {:induction false} LexTransitive(a: string, b: string, c: string)
    requires LexLess(a, b) && LexLess(b, c)
    ensures LexLess(a, c)
  {
    if a != [] && b != [] && c != [] && a[0] == b[0] && b[0] == c[0] {
      LexTransitive(a[1..], b[1..], c[1..]);
    }
  }

  /** Strictly increasing: sorted and free of repeats. */
  ghost predicate Increasing(s: seq<string>) {
    forall i, j :: 0 <= i < j < |s| ==> LexLess(s[i], s[j])
  }

  /** Insert into a sorted set; a value already there is left alone. */
  function Insert(x: string, s: seq<string>): (r: seq<string>)
  {
    if s == [] then [x]
    else if x == s[0] then s
    else if LexLess(x, s[0]) then [x] + s
    else [s[0]] + Insert(x, s[1..])
  }

  /** Collecting a list into a sorted set and listing it again. */
  function SortedSet(values: seq<string>): (r: seq<string>) {
    if values == [] then [] else Insert(values[0], SortedSet(values[1..]))
  }

  lemma {:induction false} InsertSorted(x: string, s: seq<string>)
    requires Increasing(s)
    ensures Increasing(Insert(x, s))
    ensures forall y :: y in Insert(x, s) <==> y == x || y in s
  {
    if s == [] {
    } else {
      assert s == [s[0]] + s[1..];
      LexTrichotomy(x, s[0]);
      if x == s[0] {
      } else if LexLess(x, s[0]) {
        forall j | 0 <= j < |s| ensures LexLess(x, s[j]) {
          if j > 0 {
            LexTransitive(x, s[0], s[j]);
          }
        }
      } else {
        InsertSorted(x, s[1..]);
        var rest := Insert(x, s[1..]);
        forall j | 0 <= j < |rest| ensures LexLess(s[0], rest[j]) {
          assert rest[j] in rest;
        }
      }
    }
  }

  lemma {:induction false} SortedSetSpec(values: seq<string>)
    ensures Increasing(SortedSet(values))
    ensures forall y :: y in SortedSet(values) <==> y in values
  {
    if values != [] {
      SortedSetSpec(values[1..]);
      InsertSorted(values[0], SortedSet(values[1..]));
      assert values == [values[0]] + values[1..];
    }
  }

  ghost predicate IncreasingBy<T>(rank: T -> string, s: seq<T>) {
    forall i, j :: 0 <= i < j < |s| ==> LexLess(rank(s[i]), rank(s[j]))
  }

  lemma HeadIsLeast<T>(rank: T -> string, s: seq<T>, x: T)
    requires IncreasingBy(rank, s) && x in s
    ensures x == s[0] || LexLess(rank(s[0]), rank(x))
  {
    var i :| 0 <= i < |s| && s[i] == x;
  }

  lemma HeadOnlyFirst<T>(rank: T -> string, s: seq<T>)
    requires IncreasingBy(rank, s) && s != []
    ensures s[0] !in s[1..]
  {
    if s[0] in s[1..] {
      var i :| 0 <= i < |s| - 1 && s[1..][i] == s[0];
      assert LexLess(rank(s[0]), rank(s[i + 1]));
      LexTrichotomy(rank(s[0]), rank(s[0]));
    }
  }

  lemma FirstIsMember<T>(s: seq<T>)
    ensures s == [] || exists x :: x in s
  {
    if s != [] {
      assert s[0] in s;
    }
  }

  /** A list whose ranks strictly increase is determined by its members. */
  lemma {:induction false} IncreasingByUnique<T>(rank: T -> string, a: seq<T>, b: seq<T>)
    requires IncreasingBy(rank, a) && IncreasingBy(rank, b)
    requires forall x :: x in a <==> x in b
    ensures a == b
  {
    if a == [] || b == [] {
      FirstIsMember(a);
      FirstIsMember(b);
    } else {
      assert a[0] in a && b[0] in b;
      HeadIsLeast(rank, a, b[0]);
      HeadIsLeast(rank, b, a[0]);
      LexTrichotomy(rank(a[0]), rank(b[0]));
      HeadOnlyFirst(rank, a);
      HeadOnlyFirst(rank, b);
      assert a == [a[0]] + a[1..] && b == [b[0]] + b[1..];
      forall x ensures x in a[1..] <==> x in b[1..] {
        assert x in a <==> x == a[0] || x in a[1..];
        assert x in b <==> x == b[0] || x in b[1..];
      }
      IncreasingByUnique(rank, a[1..], b[1..]);
    }
  }

  function Itself(s: string): string {
    s
  }

  /** A sorted set is determined by its members. */
  lemma IncreasingUnique(a: seq<string>, b: seq<string>)
    requires Increasing(a) && Increasing(b)
    requires forall x :: x in a <==> x in b
    ensures a == b
  {
    IncreasingByUnique(Itself, a, b);
  }

  lemma SortedSetOfIncreasing(s: seq<string>)
    requires Increasing(s)
    ensures SortedSet(s) == s
  {
    SortedSetSpec(s);
    IncreasingUnique(SortedSet(s), s);
  }

  /** Stable insertion of one element, by the rank the comparison gives it. */
  function InsertBy<T>(x: T, rank: T -> string, s: seq<T>): (r: seq<T>) {
    if s == [] || !LexLess(rank(s[0]), rank(x)) then [x] + s
    else [s[0]] + InsertBy(x, rank, s[1..])
  }

  /** `sort_by` on a derived key. */
  function SortBy<T>(rank: T -> string, s: seq<T>): (r: seq<T>) {
    if s == [] then [] else InsertBy(s[0], rank, SortBy(rank, s[1..]))
  }

  ghost predicate SortedBy<T>(rank: T -> string, s: seq<T>) {
    forall i, j :: 0 <= i < j < |s| ==> !LexLess(rank(s[j]), rank(s[i]))
  }

  lemma {:induction false} InsertByPermutes<T>(x: T, rank: T -> string, s: seq<T>)
    ensures multiset(InsertBy(x, rank, s)) == multiset(s) + multiset{x}
  {
    if s == [] || !LexLess(rank(s[0]), rank(x)) {
    } else {
      InsertByPermutes(x, rank, s[1..]);
      assert s == [s[0]] + s[1..];
    }
  }

  lemma {:induction false} SortByPermutes<T>(rank: T -> string, s: seq<T>)
    ensures Permutation(SortBy(rank, s), s)
  {
    if s != [] {
      SortByPermutes(rank, s[1..]);
      InsertByPermutes(s[0], rank, SortBy(rank, s[1..]));
      assert s == [s[0]] + s[1..];
    }
  }

  lemma {:induction false} InsertBySorted<T>(x: T, rank: T -> string, s: seq<T>)
    requires SortedBy(rank, s)
    ensures SortedBy(rank, InsertBy(x, rank, s))
  {
    if s == [] {
    } else if !LexLess(rank(s[0]), rank(x)) {
      forall j | 0 <= j < |s| ensures !LexLess(rank(s[j]), rank(x)) {
        LexTrichotomy(rank(s[0]), rank(x));
        LexTrichotomy(rank(s[0]), rank(s[j]));
        if LexLess(rank(s[j]), rank(x)) && j > 0 && rank(s[0]) != rank(s[j]) {
          LexTransitive(rank(s[0]), rank(s[j]), rank(x));
        }
      }
    } else {
      InsertBySorted(x, rank, s[1..]);
      InsertByPermutes(x, rank, s[1..]);
      var rest := InsertBy(x, rank, s[1..]);
      forall j | 0 <= j < |rest| ensures !LexLess(rank(rest[j]), rank(s[0])) {
        assert rest[j] in multiset(rest);
        LexTrichotomy(rank(s[0]), rank(x));
      }
    }
  }

  lemma {:induction false} SortBySorted<T>(rank: T -> string, s: seq<T>)
    ensures SortedBy(rank, SortBy(rank, s))
  {
    if s != [] {
      SortBySorted(rank, s[1..]);
      InsertBySorted(s[0], rank, SortBy(rank, s[1..]));
    }
  }

  // ----- sorting by a comparison

  ghost predicate TotalPreorder<T(!new)>(leq: (T, T) -> bool) {
    && (forall a, b :: leq(a, b) || leq(b, a))
    && (forall a, b, c :: leq(a, b) && leq(b, c) ==> leq(a, c))
  }

  function InsertWith<T>(x: T, leq: (T, T) -> bool, s: seq<T>): (r: seq<T>) {
    if s == [] || leq(x, s[0]) then [x] + s else [s[0]] + InsertWith(x, leq, s[1..])
  }

  /** `sort_by_key` on a key compared with `leq`. */
  function SortWith<T>(leq: (T, T) -> bool, s: seq<T>): (r: seq<T>) {
    if s == [] then [] else InsertWith(s[0], leq, SortWith(leq, s[1..]))
  }

  ghost predicate SortedWith<T>(leq: (T, T) -> bool, s: seq<T>) {
    forall i, j :: 0 <= i < j < |s| ==> leq(s[i], s[j])
  }

  lemma {:induction false} InsertWithPermutes<T>(x: T, leq: (T, T) -> bool, s: seq<T>)
    ensures multiset(InsertWith(x, leq, s)) == multiset(s) + multiset{x}
  {
    if s != [] && !leq(x, s[0]) {
      InsertWithPermutes(x, leq, s[1..]);
      assert s == [s[0]] + s[1..];
    }
  }

  lemma {:induction false} InsertWithSorted<T(!new)>(x: T, leq: (T, T) -> bool, s: seq<T>)
    requires TotalPreorder(leq) && SortedWith(leq, s)
    ensures SortedWith(leq, InsertWith(x, leq, s))
  {
    if s != [] {
      assert forall y :: leq(x, s[0]) && leq(s[0], y) ==> leq(x, y);
      assert leq(x, s[0]) || leq(s[0], x);
      hide TotalPreorder;
      if !leq(x, s[0]) {
        InsertWithSorted(x, leq, s[1..]);
        InsertWithPermutes(x, leq, s[1..]);
        var rest := InsertWith(x, leq, s[1..]);
        forall j | 0 <= j < |rest| ensures leq(s[0], rest[j]) {
          assert rest[j] in multiset(rest);
        }
      }
    }
  }

  lemma {:induction false} SortWithSpec<T(!new)>(leq: (T, T) -> bool, s: seq<T>)
    requires TotalPreorder(leq)
    ensures SortedWith(leq, SortWith(leq, s)) && Permutation(SortWith(leq, s), s)
  {
    if s != [] {
      SortWithSpec(leq, s[1..]);
      InsertWithSorted(s[0], leq, SortWith(leq, s[1..]));
      InsertWithPermutes(s[0], leq, SortWith(leq, s[1..]));
      assert s == [s[0]] + s[1..];
    }
  }
}
