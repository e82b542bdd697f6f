/** Sequence vocabulary shared by the model: prefixes and suffixes, filters,
    first-seen deduplication, joining, and the ORDER BY of a query. */
module Sequences {

  function Min(a: int, b: int): int {
    if a <= b then a else b
  }

  function Max(a: int, b: int): int {
    if a <= b then b else a
  }

  /** The first `n` elements, or all of them: LIMIT n. */
  function Take<T>(s: seq<T>, n: nat): seq<T> {
    if |s| <= n then s else s[..n]
  }

  /** The last `n` elements, or all of them: `s[-n:]` for a positive n. */
  function Last<T>(s: seq<T>, n: nat): seq<T> {
    if |s| <= n then s else s[|s| - n..]
  }

  function Reverse<T>(s: seq<T>): (r: seq<T>)
    ensures |r| == |s|
    ensures forall i :: 0 <= i < |s| ==> r[i] == s[|s| - 1 - i]
  {
    if s == [] then [] else [s[|s| - 1]] + Reverse(s[..|s| - 1])
  }

  function Map<T, U>(f: T -> U, s: seq<T>): (r: seq<U>)
    ensures |r| == |s|
    ensures forall i :: 0 <= i < |s| ==> r[i] == f(s[i])
  {
    seq(|s|, i requires 0 <= i < |s| => f(s[i]))
  }

  function Filter<T(!new)>(p: T -> bool, s: seq<T>): seq<T>
  {
    if s == [] then []
    else
      var rest := Filter(p, s[..|s| - 1]);
      if p(s[|s| - 1]) then rest + [s[|s| - 1]] else rest
  }

  lemma {:induction false} FilterMembers<T(!new)>(p: T -> bool, s: seq<T>)
    ensures forall x :: x in Filter(p, s) <==> x in s && p(x)
    ensures |Filter(p, s)| <= |s|
  {
    if s != [] {
      FilterMembers(p, s[..|s| - 1]);
      assert s == s[..|s| - 1] + [s[|s| - 1]];
    }
  }

  lemma {:induction false} FilterConcat<T(!new)>(p: T -> bool, a: seq<T>, b: seq<T>)
    ensures Filter(p, a + b) == Filter(p, a) + Filter(p, b)
  {
    if b == [] {
      assert a + b == a;
    } else {
      assert (a + b)[..|a + b| - 1] == a + b[..|b| - 1];
      FilterConcat(p, a, b[..|b| - 1]);
    }
  }

  lemma {:induction false} FilterAll<T(!new)>(p: T -> bool, s: seq<T>)
    requires forall x :: x in s ==> p(x)
    ensures Filter(p, s) == s
  {
    if s != [] {
      FilterAll(p, s[..|s| - 1]);
      assert s == s[..|s| - 1] + [s[|s| - 1]];
    }
  }

  lemma {:induction false} FilterNone<T(!new)>(p: T -> bool, s: seq<T>)
    requires forall x :: x in s ==> !p(x)
    ensures Filter(p, s) == []
  {
    if s != [] {
      FilterNone(p, s[..|s| - 1]);
    }
  }

  predicate Distinct<T(==)>(s: seq<T>) {
    forall i, j :: 0 <= i < j < |s| ==> s[i] != s[j]
  }

  /** Keeps the first occurrence of every element: `dict.fromkeys`. */
  function Dedup<T(==,!new)>(s: seq<T>): seq<T>
  {
    if s == [] then []
    else
      var rest := Dedup(s[..|s| - 1]);
      if s[|s| - 1] in rest then rest else rest + [s[|s| - 1]]
  }

  lemma {:induction false} DedupMembers<T(!new)>(s: seq<T>)
    ensures forall x :: x in Dedup(s) <==> x in s
    ensures Distinct(Dedup(s))
    ensures |Dedup(s)| <= |s|
  {
    if s != [] {
      DedupMembers(s[..|s| - 1]);
      assert s == s[..|s| - 1] + [s[|s| - 1]];
    }
  }

  lemma {:induction false} DedupDistinct<T(!new)>(s: seq<T>)
    requires Distinct(s)
    ensures Dedup(s) == s
  {
    if s != [] {
      DedupDistinct(s[..|s| - 1]);
      assert s == s[..|s| - 1] + [s[|s| - 1]];
      assert s[|s| - 1] !in s[..|s| - 1];
      DedupMembers(s[..|s| - 1]);
    }
  }

  /** Concatenation of a sequence of sequences. */
  function Flatten<T>(s: seq<seq<T>>): seq<T> {
    if s == [] then [] else Flatten(s[..|s| - 1]) + s[|s| - 1]
  }

  lemma ConcatAssociates<T>(a: seq<T>, b: seq<T>, c: seq<T>)
    ensures (a + b) + c == a + (b + c)
  {
  }

  lemma FlattenSnoc<T>(front: seq<seq<T>>, last: seq<T>)
    ensures Flatten(front + [last]) == Flatten(front) + last
  {
    assert (front + [last])[..|front|] == front;
  }

  lemma {:induction false} FlattenConcat<T>(a: seq<seq<T>>, b: seq<seq<T>>)
    ensures Flatten(a + b) == Flatten(a) + Flatten(b)
  {
    if b == [] {
      assert a + b == a;
    } else {
      hide Flatten;
      var front, last := b[..|b| - 1], b[|b| - 1];
      assert b == front + [last];
      ConcatAssociates(a, front, [last]);
      FlattenSnoc(a + front, last);
      FlattenSnoc(front, last);
      FlattenConcat(a, front);
      ConcatAssociates(Flatten(a), Flatten(front), last);
    }
  }

  /** `separator.join(values)`. */
  function Join(separator: string, values: seq<string>): string {
    if values == [] then ""
    else if |values| == 1 then values[0]
    else Join(separator, values[..|values| - 1]) + separator + values[|values| - 1]
  }

  lemma JoinSnoc(separator: string, front: seq<string>, last: string)
    requires front != []
    ensures Join(separator, front + [last]) == Join(separator, front) + (separator + last)
  {
    assert (front + [last])[..|front|] == front;
    ConcatAssociates(Join(separator, front), separator, last);
  }

  lemma {:induction false} JoinConcat(separator: string, a: seq<string>, b: seq<string>)
    requires a != [] && b != []
    ensures Join(separator, a + b) == Join(separator, a) + separator + Join(separator, b)
  {
    var front, last := b[..|b| - 1], b[|b| - 1];
    assert b == front + [last];
    if front == [] {
      JoinSnoc(separator, a, last);
      ConcatAssociates(Join(separator, a), separator, last);
    } else {
      hide Join;
      ConcatAssociates(a, front, [last]);
      JoinSnoc(separator, a + front, last);
      JoinSnoc(separator, front, last);
      JoinConcat(separator, a, front);
      ConcatAssociates(Join(separator, a) + separator, Join(separator, front), separator + last);
    }
  }

  lemma LastOfConcat<T>(a: seq<T>, b: seq<T>, n: nat)
    requires |b| >= n
    ensures Last(a + b, n) == Last(b, n)
  {
    assert (a + b)[|a| + |b| - n..] == b[|b| - n..];
  }

  /** Suffixes of suffixes: cutting early never changes what a later cut keeps. */
  lemma LastOfLast<T>(x: seq<T>, y: seq<T>, n: nat)
    ensures Last(Last(x, n) + y, n) == Last(x + y, n)
  {
    if |x| > n {
      var cut := |x| - n;
      assert x == x[..cut] + x[cut..];
      assert x + y == x[..cut] + (x[cut..] + y);
      LastOfConcat(x[..cut], x[cut..] + y, n);
    }
  }

  /** ORDER BY key ASC, as a stable insertion sort. */
  function InsertBy<T>(key: T -> int, x: T, s: seq<T>): seq<T> {
    if s == [] then [x]
    else if key(s[|s| - 1]) <= key(x) then s + [x]
    else InsertBy(key, x, s[..|s| - 1]) + [s[|s| - 1]]
  }

  function OrderBy<T>(key: T -> int, s: seq<T>): seq<T> {
    if s == [] then [] else InsertBy(key, s[|s| - 1], OrderBy(key, s[..|s| - 1]))
  }

  predicate Ordered<T>(key: T -> int, s: seq<T>) {
    forall i, j :: 0 <= i < j < |s| ==> key(s[i]) <= key(s[j])
  }

  /** Rows already in order come back as they are. */
  lemma {:induction false} OrderByIdentity<T>(key: T -> int, s: seq<T>)
    requires Ordered(key, s)
    ensures OrderBy(key, s) == s
  {
    if s != [] {
      OrderByIdentity(key, s[..|s| - 1]);
      assert s == s[..|s| - 1] + [s[|s| - 1]];
    }
  }

  lemma OrderedSnoc<T>(key: T -> int, front: seq<T>, last: T)
    requires Ordered(key, front) && forall y :: y in front ==> key(y) <= key(last)
    ensures Ordered(key, front + [last])
  {
  }

  lemma OrderedFront<T>(key: T -> int, front: seq<T>, last: T)
    requires Ordered(key, front + [last])
    ensures Ordered(key, front) && forall y :: y in front ==> key(y) <= key(last)
  {
    var s := front + [last];
    assert forall i :: 0 <= i < |front| ==> s[i] == front[i];
    assert s[|front|] == last;
  }

  lemma MultisetSnoc<T>(front: seq<T>, last: T)
    ensures multiset(front + [last]) == multiset(front) + multiset{last}
  {
  }

  lemma SameMembers<T>(a: seq<T>, b: seq<T>, x: T)
    requires multiset(a) == multiset(b) + multiset{x}
    ensures forall y :: y in a ==> y in b || y == x
  {
    forall y | y in a ensures y in b || y == x {
      assert y in multiset(a);
    }
  }

  lemma {:induction false} InsertBySorts<T>(key: T -> int, x: T, s: seq<T>)
    requires Ordered(key, s)
    ensures Ordered(key, InsertBy(key, x, s)) && multiset(InsertBy(key, x, s)) == multiset(s) + multiset{x}
  {
    if s == [] {
    } else {
      var front, last := s[..|s| - 1], s[|s| - 1];
      assert s == front + [last];
      hide Ordered;
      OrderedFront(key, front, last);
      if key(last) <= key(x) {
        OrderedSnoc(key, s, x);
        MultisetSnoc(s, x);
      } else {
        InsertBySorts(key, x, front);
        SameMembers(InsertBy(key, x, front), front, x);
        OrderedSnoc(key, InsertBy(key, x, front), last);
        MultisetSnoc(InsertBy(key, x, front), last);
        MultisetSnoc(front, last);
      }
    }
  }

  /** ORDER BY gives the same rows, in ascending order of the key. */
  lemma {:induction false} OrderBySorts<T>(key: T -> int, s: seq<T>)
    ensures Ordered(key, OrderBy(key, s)) && multiset(OrderBy(key, s)) == multiset(s)
  {
    hide OrderBy, InsertBy, Ordered;
    if s == [] {
      NothingOrdered(key);
    } else {
      var front, last := s[..|s| - 1], s[|s| - 1];
      OrderBySorts(key, front);
      InsertBySorts(key, last, OrderBy(key, front));
      assert s == front + [last];
      OrderBySnoc(key, front, last);
      MultisetSnoc(front, last);
    }
  }

  lemma OrderBySnoc<T>(key: T -> int, front: seq<T>, last: T)
    ensures OrderBy(key, front + [last]) == InsertBy(key, last, OrderBy(key, front))
  {
    assert (front + [last])[..|front|] == front;
  }

  lemma NothingOrdered<T>(key: T -> int)
    ensures OrderBy(key, []) == [] && Ordered(key, [])
  {
  }

  lemma FilterSnoc<T(!new)>(p: T -> bool, front: seq<T>, last: T)
    ensures Filter(p, front + [last]) == if p(last) then Filter(p, front) + [last] else Filter(p, front)
  {
    assert (front + [last])[..|front|] == front;
  }

  lemma {:induction false} InsertByAmong<T(!new)>(p: T -> bool, key: T -> int, x: T, s: seq<T>)
    requires p(x) ==> forall y :: y in s && p(y) ==> key(y) <= key(x)
    ensures Filter(p, InsertBy(key, x, s)) == if p(x) then Filter(p, s) + [x] else Filter(p, s)
  {
    hide Filter;
    if s == [] {
      FilterSnoc(p, [], x);
      assert [] + [x] == [x];
      NothingFiltered(p);
    } else {
      var front, last := s[..|s| - 1], s[|s| - 1];
      assert s == front + [last];
      FilterSnoc(p, front, last);
      if key(last) <= key(x) {
        FilterSnoc(p, s, x);
      } else {
        InsertByAmong(p, key, x, front);
        FilterSnoc(p, InsertBy(key, x, front), last);
      }
    }
  }

  lemma NothingFiltered<T(!new)>(p: T -> bool)
    ensures Filter(p, []) == []
  {
  }

  /** Rows of one sort that are in order already stay in the order they have. */
  lemma {:induction false} OrderByKeeps<T(!new)>(p: T -> bool, key: T -> int, s: seq<T>)
    requires forall i, j :: 0 <= i < j < |s| && p(s[i]) && p(s[j]) ==> key(s[i]) <= key(s[j])
    ensures Filter(p, OrderBy(key, s)) == Filter(p, s)
  {
    if s != [] {
      var front, last := s[..|s| - 1], s[|s| - 1];
      assert s == front + [last];
      forall y | y in front && p(y) && p(last) ensures key(y) <= key(last) {
        var i :| 0 <= i < |front| && front[i] == y;
        assert s[i] == y && s[|s| - 1] == last;
      }
      OrderByKeeps(p, key, front);
      OrderBySorts(key, front);
      SameElements(OrderBy(key, front), front);
      hide Filter, Ordered;
      InsertByAmong(p, key, last, OrderBy(key, front));
      FilterSnoc(p, front, last);
    }
  }

  lemma SameElements<T>(a: seq<T>, b: seq<T>)
    requires multiset(a) == multiset(b)
    ensures forall y :: y in a <==> y in b
  {
    assert forall y :: y in a <==> y in multiset(a);
    assert forall y :: y in b <==> y in multiset(b);
  }

  /** The index of the first row satisfying the query, or the number of rows. */
  function IndexWhere<T>(p: T -> bool, rows: seq<T>): (k: nat)
    ensures k <= |rows|
    ensures k < |rows| ==> p(rows[k])
    ensures forall i :: 0 <= i < k ==> !p(rows[i])
  {
    if rows == [] || p(rows[0]) then 0 else 1 + IndexWhere(p, rows[1..])
  }

  /** The text stands in `s` at position `i`. */
  predicate StandsAt(s: string, i: nat, text: string) {
    i + |text| <= |s| && s[i..i + |text|] == text
  }

  lemma StandsAtEach(s: string, i: nat, text: string, k: nat)
    requires StandsAt(s, i, text) && k < |text|
    ensures s[i + k] == text[k]
  {
    assert s[i..i + |text|][k] == text[k];
  }
}
