/** Vocabulary shared by every component: optional values, outcomes, and sorted lists. */

module Wrappers {
  datatype Option<+T> = None | Some(value: T) {
    function GetOr(default: T): T {
      match this
      case Some(v) => v
      case None => default
    }
  }

  datatype Result<+T, +E> = Success(value: T) | Failure(error: E) {
    function GetOr(default: T): T {
      match this
      case Success(v) => v
      case Failure(_) => default
    }
  }
}

module Numbers {
  function Max(a: int, b: int): int {
    if a < b then b else a
  }

  function Min(a: int, b: int): int {
    if a < b then a else b
  }
}

/** Lists: filtering, looking up, and comparing lists of distinct identities. */
module Lists {
  function Filter<T(!new)>(s: seq<T>, keep: T -> bool): (r: seq<T>)
    ensures forall x :: x in r <==> x in s && keep(x)
  {
    if s == [] then [] else (if keep(s[0]) then [s[0]] else []) + Filter(s[1..], keep)
  }

  lemma {:induction false} FilterSnoc<T(!new)>(s: seq<T>, x: T, keep: T -> bool)
    ensures Filter(s + [x], keep) == Filter(s, keep) + (if keep(x) then [x] else [])
  {
    if s == [] {
      assert s + [x] == [x];
    } else {
      assert (s + [x])[1..] == s[1..] + [x];
      FilterSnoc(s[1..], x, keep);
    }
  }

  lemma FilterSingle<T(!new)>(x: T, keep: T -> bool)
    ensures Filter([x], keep) == if keep(x) then [x] else []
  {
    var none: seq<T> := [];
    assert none + [x] == [x];
    FilterSnoc(none, x, keep);
  }

  lemma {:induction false} FilterAlike<T(!new)>(s: seq<T>, f: T -> bool, g: T -> bool)
    requires forall x | x in s :: f(x) == g(x)
    ensures Filter(s, f) == Filter(s, g)
  {
    if s != [] { FilterAlike(s[1..], f, g); }
  }

  lemma AppendedTwice<T>(a: seq<T>, b: seq<T>, c: seq<T>)
    ensures a + (b + c) == (a + b) + c
  {
  }

  lemma TakeOneMore<T>(s: seq<T>, k: nat)
    requires k < |s|
    ensures s[..k + 1] == s[..k] + [s[k]]
  {
  }

  function Map<T, U>(s: seq<T>, f: T -> U): (r: seq<U>)
    ensures |r| == |s| && forall i | 0 <= i < |s| :: r[i] == f(s[i])
  {
    seq(|s|, i requires 0 <= i < |s| => f(s[i]))
  }

  ghost predicate Distinct<T>(s: seq<T>) {
    forall i, j | 0 <= i < j < |s| :: s[i] != s[j]
  }

  /** Filtering keeps what is said of the members distinct. */
  lemma {:induction false} FilterKeepsDistinct<T(!new), U>(s: seq<T>, keep: T -> bool, f: T -> U)
    requires Distinct(Map(s, f))
    ensures Distinct(Map(Filter(s, keep), f))
  {
    if s != [] {
      var rest := Filter(s[1..], keep);
      forall i, j | 0 <= i < j < |s[1..]| ensures Map(s[1..], f)[i] != Map(s[1..], f)[j] {
        assert Map(s, f)[i + 1] != Map(s, f)[j + 1];
      }
      FilterKeepsDistinct(s[1..], keep, f);
      forall i | 0 <= i < |rest| ensures f(rest[i]) != f(s[0]) {
        assert rest[i] in rest;
        var j :| 0 <= j < |s[1..]| && s[1..][j] == rest[i];
        assert Map(s, f)[0] != Map(s, f)[j + 1];
      }
      if keep(s[0]) { assert Map([s[0]] + rest, f) == [f(s[0])] + Map(rest, f); }
    }
  }

  /** `new Set(list)`. */
  function Values<T(==)>(s: seq<T>): set<T> {
    set x | x in s
  }

  ghost function Elements<T>(s: seq<T>): set<T> {
    set x | x in s
  }

  lemma {:induction false} DistinctCount<T>(s: seq<T>)
    ensures |Elements(s)| <= |s|
    ensures |Elements(s)| == |s| <==> Distinct(s)
  {
    if s != [] {
      var front, last := s[..|s| - 1], s[|s| - 1];
      assert s == front + [last];
      DistinctCount(front);
      assert Elements(s) == Elements(front) + {last};
      if last in front { assert Elements(s) == Elements(front); }
    }
  }

  /** A distinct list drawn from another one of the same length holds all of it, and the other is distinct too. */
  lemma DistinctFillsSameLength<T>(s: seq<T>, all: seq<T>)
    requires Distinct(s) && |s| == |all| && Elements(s) <= Elements(all)
    ensures Elements(s) == Elements(all) && Distinct(all)
  {
    DistinctCount(s);
    DistinctCount(all);
    SubsetOfSameSize(Elements(s), Elements(all));
  }

  lemma SubsetOfSameSize<T>(a: set<T>, b: set<T>)
    requires a <= b && |a| >= |b|
    ensures a == b
  {
    assert b == a + (b - a);
    assert |b| == |a| + |b - a|;
  }
}

/** The code-unit order that `Array.prototype.sort` uses on strings, and what a sort may assume of its order. */
module Ordering {
  predicate StringLeq(a: string, b: string) {
    a == "" || (b != "" && (a[0] < b[0] || (a[0] == b[0] && StringLeq(a[1..], b[1..]))))
  }

  ghost predicate TotalPreorder<T(!new)>(leq: (T, T) -> bool) {
    && (forall x, y :: leq(x, y) || leq(y, x))
    && (forall x, y, z :: leq(x, y) && leq(y, z) ==> leq(x, z))
  }

  ghost predicate TotalOrder<T(!new)>(leq: (T, T) -> bool) {
    TotalPreorder(leq) && forall x, y :: leq(x, y) && leq(y, x) ==> x == y
  }

  lemma {:induction false} StringLeqTotal(a: string, b: string)
    ensures StringLeq(a, b) || StringLeq(b, a)
  {
    if a != "" && b != "" && a[0] == b[0] { StringLeqTotal(a[1..], b[1..]); }
  }

  lemma {:induction false} StringLeqTransitive(a: string, b: string, c: string)
    requires StringLeq(a, b) && StringLeq(b, c)
    ensures StringLeq(a, c)
  {
    if a != "" && a[0] == b[0] == c[0] { StringLeqTransitive(a[1..], b[1..], c[1..]); }
  }

  lemma {:induction false} StringLeqAntisymmetric(a: string, b: string)
    requires StringLeq(a, b) && StringLeq(b, a)
    ensures a == b
  {
    if a != "" {
      StringLeqAntisymmetric(a[1..], b[1..]);
      assert a == [a[0]] + a[1..] && b == [b[0]] + b[1..];
    }
  }

  lemma StringOrder()
    ensures TotalOrder(StringLeq)
  {
    forall x, y ensures StringLeq(x, y) || StringLeq(y, x) { StringLeqTotal(x, y); }
    forall x, y, z | StringLeq(x, y) && StringLeq(y, z) ensures StringLeq(x, z) { StringLeqTransitive(x, y, z); }
    forall x, y | StringLeq(x, y) && StringLeq(y, x) ensures x == y { StringLeqAntisymmetric(x, y); }
  }
}

/** A stable sort, as `Array.prototype.sort` is. */
module Sorting {
  import opened Lists
  import opened Ordering

  function Insert<T>(x: T, s: seq<T>, leq: (T, T) -> bool): seq<T> {
    if s == [] || leq(x, s[0]) then [x] + s else [s[0]] + Insert(x, s[1..], leq)
  }

  function SortBy<T>(s: seq<T>, leq: (T, T) -> bool): seq<T> {
    if s == [] then [] else Insert(s[0], SortBy(s[1..], leq), leq)
  }

  ghost predicate SortedBy<T>(s: seq<T>, leq: (T, T) -> bool) {
    forall i, j | 0 <= i < j < |s| :: leq(s[i], s[j])
  }

  lemma {:induction false} InsertKeepsElements<T>(x: T, s: seq<T>, leq: (T, T) -> bool)
    ensures multiset(Insert(x, s, leq)) == multiset{x} + multiset(s)
  {
    if s != [] {
      assert s == [s[0]] + s[1..];
      InsertKeepsElements(x, s[1..], leq);
    }
  }

  lemma {:induction false} SortKeepsElements<T>(s: seq<T>, leq: (T, T) -> bool)
    ensures multiset(SortBy(s, leq)) == multiset(s)
    ensures |SortBy(s, leq)| == |s|
    ensures forall x :: x in SortBy(s, leq) <==> x in s
  {
    if s != [] {
      SortKeepsElements(s[1..], leq);
      InsertKeepsElements(s[0], SortBy(s[1..], leq), leq);
      assert s == [s[0]] + s[1..];
    }
    assert |SortBy(s, leq)| == |multiset(SortBy(s, leq))| == |multiset(s)| == |s|;
    forall x ensures x in SortBy(s, leq) <==> x in s {
      assert x in multiset(s) <==> x in s;
      assert x in multiset(SortBy(s, leq)) <==> x in SortBy(s, leq);
    }
  }

  lemma {:induction false} InsertSorted<T(!new)>(x: T, s: seq<T>, leq: (T, T) -> bool)
    requires TotalPreorder(leq) && SortedBy(s, leq)
    ensures SortedBy(Insert(x, s, leq), leq)
  {
    if s != [] && !leq(x, s[0]) {
      var rest := Insert(x, s[1..], leq);
      InsertSorted(x, s[1..], leq);
      InsertKeepsElements(x, s[1..], leq);
      forall k | 0 <= k < |rest| ensures leq(s[0], rest[k]) {
        assert rest[k] in multiset(rest);
        assert rest[k] == x || rest[k] in s[1..];
      }
    }
  }

  lemma {:induction false} SortSorts<T(!new)>(s: seq<T>, leq: (T, T) -> bool)
    requires TotalPreorder(leq)
    ensures SortedBy(SortBy(s, leq), leq)
  {
    if s != [] {
      SortSorts(s[1..], leq);
      InsertSorted(s[0], SortBy(s[1..], leq), leq);
    }
  }

  lemma {:induction false} InsertKeepsImages<T, U>(x: T, s: seq<T>, leq: (T, T) -> bool, f: T -> U)
    ensures multiset(Map(Insert(x, s, leq), f)) == multiset{f(x)} + multiset(Map(s, f))
  {
    if s == [] || leq(x, s[0]) {
      assert Map([x] + s, f) == [f(x)] + Map(s, f);
    } else {
      InsertKeepsImages(x, s[1..], leq, f);
      assert Map([s[0]] + Insert(x, s[1..], leq), f) == [f(s[0])] + Map(Insert(x, s[1..], leq), f);
      assert Map(s, f) == [f(s[0])] + Map(s[1..], f);
    }
  }

  /** Sorting a list permutes what any function says of its members. */
  lemma {:induction false} SortKeepsImages<T, U>(s: seq<T>, leq: (T, T) -> bool, f: T -> U)
    ensures multiset(Map(SortBy(s, leq), f)) == multiset(Map(s, f))
  {
    if s != [] {
      SortKeepsImages(s[1..], leq, f);
      InsertKeepsImages(s[0], SortBy(s[1..], leq), leq, f);
      assert Map(s, f) == [f(s[0])] + Map(s[1..], f);
    }
  }

  /** Sorting an already sorted list changes nothing. */
  lemma {:induction false} SortOfSorted<T>(s: seq<T>, leq: (T, T) -> bool)
    requires SortedBy(s, leq)
    ensures SortBy(s, leq) == s
  {
    if s != [] { SortOfSorted(s[1..], leq); }
  }
}

/** `[...new Set(values)].sort()`: the canonical list form of a set of strings. */
module SortedSets {
  import opened Lists
  import opened Ordering
  import opened Sorting

  /** The distinct values, each kept at its first occurrence, as a `Set` iterates. */
  function Dedupe(s: seq<string>): seq<string> {
    if s == [] then []
    else
      var front, last := s[..|s| - 1], s[|s| - 1];
      if last in front then Dedupe(front) else Dedupe(front) + [last]
  }

  function SortedUnique(s: seq<string>): seq<string> {
    SortBy(Dedupe(s), StringLeq)
  }

  lemma {:induction false} DedupeElements(s: seq<string>)
    ensures Distinct(Dedupe(s)) && (forall x :: x in Dedupe(s) <==> x in s)
  {
    if s != [] {
      DedupeElements(s[..|s| - 1]);
      assert s == s[..|s| - 1] + [s[|s| - 1]];
    }
  }

  lemma {:induction false} DedupeOfDistinct(s: seq<string>)
    requires Distinct(s)
    ensures Dedupe(s) == s
  {
    if s != [] {
      DedupeOfDistinct(s[..|s| - 1]);
      assert s == s[..|s| - 1] + [s[|s| - 1]];
    }
  }

  lemma {:induction false} DistinctMultiplicity(s: seq<string>)
    ensures Distinct(s) <==> forall x :: multiset(s)[x] <= 1
  {
    if s != [] {
      var front, last := s[..|s| - 1], s[|s| - 1];
      assert s == front + [last];
      DistinctMultiplicity(front);
      if Distinct(s) {
        assert last !in multiset(front);
      } else if Distinct(front) {
        assert last in front;
        assert multiset(s)[last] == multiset(front)[last] + 1;
      } else {
        var x :| multiset(front)[x] > 1;
        assert multiset(s)[x] >= multiset(front)[x];
      }
    }
  }

  lemma SortKeepsDistinct(s: seq<string>, leq: (string, string) -> bool)
    requires Distinct(s)
    ensures Distinct(SortBy(s, leq))
  {
    SortKeepsElements(s, leq);
    DistinctMultiplicity(s);
    DistinctMultiplicity(SortBy(s, leq));
  }

  lemma SortedUniqueElements(s: seq<string>)
    ensures SortedBy(SortedUnique(s), StringLeq) && Distinct(SortedUnique(s))
    ensures forall x :: x in SortedUnique(s) <==> x in s
  {
    StringOrder();
    DedupeElements(s);
    SortSorts(Dedupe(s), StringLeq);
    SortKeepsElements(Dedupe(s), StringLeq);
    SortKeepsDistinct(Dedupe(s), StringLeq);
  }

  /** The sorted distinct form of a list tells its values and nothing else. */
  lemma SortedUniqueIff(s: seq<string>, t: seq<string>)
    ensures SortedUnique(s) == SortedUnique(t) <==> forall x :: x in s <==> x in t
  {
    SortedUniqueElements(s);
    SortedUniqueElements(t);
    if forall x :: x in s <==> x in t { OneSortedForm(SortedUnique(s), SortedUnique(t)); }
  }

  lemma {:induction false} OneSortedForm(a: seq<string>, b: seq<string>)
    requires SortedBy(a, StringLeq) && SortedBy(b, StringLeq) && Distinct(a) && Distinct(b)
    requires forall x :: x in a <==> x in b
    ensures a == b
  {
    DistinctCount(a);
    DistinctCount(b);
    assert Elements(a) == Elements(b);
    if a != [] {
      assert a[0] in b && b[0] in a;
      var i :| 0 <= i < |b| && b[i] == a[0];
      var j :| 0 <= j < |a| && a[j] == b[0];
      if i > 0 {
        assert StringLeq(b[0], b[i]) && StringLeq(a[0], a[j]);
        StringLeqAntisymmetric(a[0], b[0]);
      }
      assert a[0] == b[0];
      RestHolds(a, b);
      OneSortedForm(a[1..], b[1..]);
      assert a == [a[0]] + a[1..] && b == [b[0]] + b[1..];
    }
  }

  lemma RestHolds(a: seq<string>, b: seq<string>)
    requires a != [] && b != [] && a[0] == b[0] && Distinct(a) && Distinct(b)
    requires forall x :: x in a <==> x in b
    ensures forall x :: x in a[1..] <==> x in b[1..]
  {
    forall x ensures x in a[1..] <==> x in b[1..] {
      if x in a[1..] {
        var i :| 0 <= i < |a[1..]| && a[1..][i] == x;
        assert a[0] != a[i + 1];
        assert x in a && x in b && b == [b[0]] + b[1..];
      }
      if x in b[1..] {
        var i :| 0 <= i < |b[1..]| && b[1..][i] == x;
        assert b[0] != b[i + 1];
        assert x in b && x in a && a == [a[0]] + a[1..];
      }
    }
  }

  lemma SortedUniqueIdempotent(s: seq<string>)
    ensures SortedUnique(SortedUnique(s)) == SortedUnique(s)
  {
    SortedUniqueElements(s);
    DedupeOfDistinct(SortedUnique(s));
    SortOfSorted(SortedUnique(s), StringLeq);
  }
}

/** Instants. A supplied timestamp is either a canonical ISO-8601 instant or text that is not one. */
module Timestamps {
  datatype Stamp = Canonical(ms: int) | Malformed(text: string) {
    /** Whether the supplied text is a non-empty string, which is what the source tests optional fields for. */
    predicate Supplied() {
      Malformed? ==> text != ""
    }
  }

  predicate Before(a: Stamp, b: Stamp) {
    a.Canonical? && b.Canonical? && a.ms < b.ms
  }
}

/** The text and identifier checks that commands must pass. */
module Texts {
  predicate IsSpace(c: char) {
    || c in " \t\n\r\U{000B}\U{000C}\U{00A0}\U{1680}\U{2028}\U{2029}\U{202F}\U{205F}\U{3000}\U{FEFF}"
    || '\U{2000}' <= c <= '\U{200A}'
  }

  /** Non-blank, without surrounding white space, and not longer than `maximum`. */
  predicate ValidText(value: string, maximum: nat) {
    0 < |value| <= maximum && !IsSpace(value[0]) && !IsSpace(value[|value| - 1])
  }

  /** Whether a value has anything left after trimming. */
  predicate NonBlank(value: string) {
    exists i | 0 <= i < |value| :: !IsSpace(value[i])
  }

  predicate IsAlphanumeric(c: char) {
    'a' <= c <= 'z' || 'A' <= c <= 'Z' || '0' <= c <= '9'
  }

  /** A letter or digit, then between `low` and `high` letters, digits, dots, underscores, colons or hyphens. */
  predicate ValidIdentifier(value: string, low: nat, high: nat) {
    && 1 + low <= |value| <= 1 + high
    && IsAlphanumeric(value[0])
    && forall i | 1 <= i < |value| :: IsAlphanumeric(value[i]) || value[i] in "._:-"
  }
}
