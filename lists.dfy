/**
 * Sequence operations shared by the pages: JavaScript's `filter`, `find`
 * and `new Set(...)` de-duplication, and the `.order(...)` / `.limit(...)`
 * that the table queries ask of the backend, with ordering by a text column
 * taken as code-point lexicographic order.
 */
module Lists {
  import opened Js

  /** `s.filter(p)`: the elements that satisfy `p`, in their original order. */
  function Filter<T>(s: seq<T>, p: T -> bool): (r: seq<T>)
    ensures |r| <= |s|
    ensures forall i :: 0 <= i < |r| ==> p(r[i])
  {
    if s == [] then []
    else
      var rest := Filter(s[1..], p);
      if p(s[0]) then [s[0]] + rest else rest
  }

  /** `Filter` keeps every occurrence of each element that satisfies `p`, and nothing else. */
  lemma {:induction false} FilterMultiset<T(!new)>(s: seq<T>, p: T -> bool)
    ensures forall x :: multiset(Filter(s, p))[x] == if p(x) then multiset(s)[x] else 0
  {
    if s != [] {
      FilterMultiset(s[1..], p);
      assert s == [s[0]] + s[1..];
    }
  }

  /** An element is kept by `Filter` exactly when it is in `s` and satisfies `p`. */
  lemma FilterMembership<T(!new)>(s: seq<T>, p: T -> bool, x: T)
    ensures x in Filter(s, p) <==> x in s && p(x)
  {
    FilterMultiset(s, p);
    assert x in Filter(s, p) <==> multiset(Filter(s, p))[x] > 0;
    assert x in s <==> multiset(s)[x] > 0;
  }

  lemma ConcatAssociative<T>(a: seq<T>, b: seq<T>, c: seq<T>)
    ensures a + (b + c) == (a + b) + c
  {
  }

  /** Filtering a sequence that starts with `y` keeps `y` in front when `p` holds of it. */
  lemma FilterCons<T(!new)>(y: T, s: seq<T>, p: T -> bool)
    ensures Filter([y] + s, p) == (if p(y) then [y] else []) + Filter(s, p)
  {
    assert ([y] + s)[1..] == s;
  }

  /** Filtering a sequence extended by one element extends the filtered sequence by that element when it is kept. */
  lemma {:induction false} FilterSnoc<T(!new)>(s: seq<T>, x: T, p: T -> bool)
    ensures Filter(s + [x], p) == Filter(s, p) + (if p(x) then [x] else [])
  {
    var tail := if p(x) then [x] else [];
    if s == [] {
      FilterCons(x, [], p);
      assert [x] + [] == s + [x];
    } else {
      var y := s[0];
      var head := if p(y) then [y] else [];
      assert s == [y] + s[1..];
      assert s + [x] == [y] + (s[1..] + [x]);
      FilterCons(y, s[1..] + [x], p);
      FilterSnoc(s[1..], x, p);
      FilterCons(y, s[1..], p);
      var a := Filter(s[1..] + [x], p);
      var b := Filter(s[1..], p);
      assert Filter(s + [x], p) == head + a;
      assert Filter(s, p) == head + b;
      ConcatAssociative(head, b, tail);
    }
  }

  /** Filtering two arrangements of the same elements keeps the same elements. */
  lemma FilterPermutation<T(!new)>(s: seq<T>, t: seq<T>, p: T -> bool)
    requires multiset(s) == multiset(t)
    ensures multiset(Filter(s, p)) == multiset(Filter(t, p))
  {
    FilterMultiset(s, p);
    FilterMultiset(t, p);
    forall x ensures multiset(Filter(s, p))[x] == multiset(Filter(t, p))[x] {
    }
  }

  /** `s.findIndex(p)`: the position of the first element satisfying `p`, or -1. */
  function FindIndex<T>(s: seq<T>, p: T -> bool): (i: int)
    ensures -1 <= i < |s|
    ensures i >= 0 ==> p(s[i])
    ensures forall j :: 0 <= j < |s| && (i == -1 || j < i) ==> !p(s[j])
  {
    if s == [] then -1
    else if p(s[0]) then 0
    else
      var i := FindIndex(s[1..], p);
      if i == -1 then -1 else i + 1
  }

  /** `s.find(p)`: the first element satisfying `p`, or `undefined`. */
  function FindFirst<T(==)>(s: seq<T>, p: T -> bool): (r: Option<T>)
    ensures r.None? <==> forall j :: 0 <= j < |s| ==> !p(s[j])
    ensures r.Some? ==> exists i :: 0 <= i < |s| && s[i] == r.value && p(s[i]) && forall j :: 0 <= j < i ==> !p(s[j])
  {
    var i := FindIndex(s, p);
    if i == -1 then None else Some(s[i])
  }

  /** `.limit(n)`: the first `n` rows, or all of them when there are fewer. */
  function Limit<T>(s: seq<T>, n: nat): (r: seq<T>)
    ensures r <= s
    ensures |r| == if |s| < n then |s| else n
  {
    if |s| <= n then s else s[..n]
  }

  // ---------------------------------------------------------------------
  // ordering by a text key

  /** `a` sorts no later than `b` in code-point lexicographic order. */
  predicate LexLe(a: string, b: string)
    decreases |a|
  {
    |a| == 0 || (|b| > 0 && (a[0] < b[0] || (a[0] == b[0] && LexLe(a[1..], b[1..]))))
  }

  lemma {:induction false} LexLeTotal(a: string, b: string)
    ensures LexLe(a, b) || LexLe(b, a)
    decreases |a|
  {
    if |a| > 0 && |b| > 0 && a[0] == b[0] {
      LexLeTotal(a[1..], b[1..]);
    }
  }

  lemma {:induction false} LexLeTransitive(a: string, b: string, c: string)
    requires LexLe(a, b) && LexLe(b, c)
    ensures LexLe(a, c)
    decreases |a|
  {
    if |a| > 0 && a[0] == b[0] && b[0] == c[0] {
      LexLeTransitive(a[1..], b[1..], c[1..]);
    }
  }

  /** `a` may come before `b` in an ascending (or, when `desc`, descending) ordering. */
  predicate InOrder(a: string, b: string, desc: bool)
  {
    if desc then LexLe(b, a) else LexLe(a, b)
  }

  lemma InOrderTotal(a: string, b: string, desc: bool)
    ensures InOrder(a, b, desc) || InOrder(b, a, desc)
  {
    LexLeTotal(a, b);
  }

  lemma InOrderTransitive(a: string, b: string, c: string, desc: bool)
    requires InOrder(a, b, desc) && InOrder(b, c, desc)
    ensures InOrder(a, c, desc)
  {
    if desc { LexLeTransitive(c, b, a); } else { LexLeTransitive(a, b, c); }
  }

  /** Every pair of rows is in order by `key`. */
  predicate SortedBy<T>(s: seq<T>, key: T -> string, desc: bool)
  {
    forall i, j :: 0 <= i < j < |s| ==> InOrder(key(s[i]), key(s[j]), desc)
  }

  /** A row that may precede every row of an ordered sequence may be put in front of it. */
  lemma ConsSorted<T>(x: T, s: seq<T>, key: T -> string, desc: bool)
    requires SortedBy(s, key, desc)
    requires forall j :: 0 <= j < |s| ==> InOrder(key(x), key(s[j]), desc)
    ensures SortedBy([x] + s, key, desc)
  {
    var r := [x] + s;
    forall i, j | 0 <= i < j < |r| ensures InOrder(key(r[i]), key(r[j]), desc) {
      if i > 0 {
        assert r[i] == s[i - 1] && r[j] == s[j - 1];
      }
    }
  }

  /** A row that may precede the first row of an ordered sequence may precede all of them. */
  lemma BeforeFirstBeforeAll<T>(x: T, s: seq<T>, key: T -> string, desc: bool)
    requires SortedBy(s, key, desc) && s != []
    requires InOrder(key(x), key(s[0]), desc)
    ensures forall j :: 0 <= j < |s| ==> InOrder(key(x), key(s[j]), desc)
  {
    forall j | 0 < j < |s| ensures InOrder(key(x), key(s[j]), desc) {
      InOrderTransitive(key(x), key(s[0]), key(s[j]), desc);
    }
  }

  /**
   * The first row of an ordered sequence may precede every row of any
   * arrangement of the rest of it together with a row it may precede.
   */
  lemma HeadBeforeRest<T>(x: T, s: seq<T>, rest: seq<T>, key: T -> string, desc: bool)
    requires SortedBy(s, key, desc) && s != []
    requires InOrder(key(s[0]), key(x), desc)
    requires multiset(rest) == multiset(s[1..]) + multiset{x}
    ensures forall j :: 0 <= j < |rest| ==> InOrder(key(s[0]), key(rest[j]), desc)
  {
    forall j | 0 <= j < |rest| ensures InOrder(key(s[0]), key(rest[j]), desc) {
      assert rest[j] in multiset(rest);
      if rest[j] != x {
        assert rest[j] in multiset(s[1..]);
        var k :| 0 <= k < |s[1..]| && s[1..][k] == rest[j];
        assert s[k + 1] == rest[j];
      }
    }
  }

  /** Inserts `x` into rows already in order, before the first row it may precede. */
  function Insert<T>(x: T, s: seq<T>, key: T -> string, desc: bool): (r: seq<T>)
    requires SortedBy(s, key, desc)
    ensures SortedBy(r, key, desc)
    ensures multiset(r) == multiset(s) + multiset{x}
    ensures |r| == |s| + 1
  {
    if s == [] then [x]
    else if InOrder(key(x), key(s[0]), desc) then
      BeforeFirstBeforeAll(x, s, key, desc);
      ConsSorted(x, s, key, desc);
      [x] + s
    else
      var rest := Insert(x, s[1..], key, desc);
      InOrderTotal(key(x), key(s[0]), desc);
      assert s == [s[0]] + s[1..];
      HeadBeforeRest(x, s, rest, key, desc);
      assert SortedBy(s[1..], key, desc);
      ConsSorted(s[0], rest, key, desc);
      [s[0]] + rest
  }

  /** `.order(column)`: the rows sorted by `key`, ascending or descending. */
  function SortBy<T>(s: seq<T>, key: T -> string, desc: bool): (r: seq<T>)
    ensures SortedBy(r, key, desc)
    ensures multiset(r) == multiset(s)
    ensures |r| == |s|
  {
    if s == [] then []
    else
      assert s == [s[0]] + s[1..];
      Insert(s[0], SortBy(s[1..], key, desc), key, desc)
  }

  /** A prefix of an ordered sequence is ordered, holds some of its rows, and precedes the rows after it. */
  lemma SortedPrefix<T>(r: seq<T>, s: seq<T>, key: T -> string, desc: bool)
    requires SortedBy(s, key, desc) && r <= s
    ensures SortedBy(r, key, desc)
    ensures multiset(r) <= multiset(s)
    ensures forall i, k :: 0 <= i < |r| <= k < |s| ==> InOrder(key(r[i]), key(s[k]), desc)
  {
    assert s == r + s[|r|..];
    assert multiset(s) == multiset(r) + multiset(s[|r|..]);
    assert forall i :: 0 <= i < |r| ==> r[i] == s[i];
  }

  /** Filtering rows that are in order keeps them in order. */
  lemma {:induction false} FilterSorted<T(!new)>(s: seq<T>, p: T -> bool, key: T -> string, desc: bool)
    requires SortedBy(s, key, desc)
    ensures SortedBy(Filter(s, p), key, desc)
  {
    if s != [] {
      FilterSorted(s[1..], p, key, desc);
      var rest := Filter(s[1..], p);
      if p(s[0]) {
        forall j | 0 <= j < |rest| ensures InOrder(key(s[0]), key(rest[j]), desc) {
          FilterMembership(s[1..], p, rest[j]);
          var k :| 0 <= k < |s[1..]| && s[1..][k] == rest[j];
          assert s[k + 1] == rest[j];
        }
      }
    }
  }

  // ---------------------------------------------------------------------
  // de-duplication

  /** No element occurs twice. */
  predicate NoDuplicates<T(==)>(s: seq<T>)
  {
    forall i, j :: 0 <= i < j < |s| ==> s[i] != s[j]
  }

  /** The position of `x` in `s` is the same in any prefix of `s` that holds it. */
  lemma IndexOfInPrefix<T>(s: seq<T>, k: nat, x: T)
    requires k <= |s| && x in s[..k]
    ensures IndexOf(s, x) == IndexOf(s[..k], x)
  {
    var i := IndexOf(s, x);
    var i' := IndexOf(s[..k], x);
    assert s[..k][..i'] == s[..i'];
  }

  /**
   * `Array.from(new Set(s))`: each distinct element once, in the order of
   * its first occurrence in `s`.
   */
  function Distinct<T(==,!new)>(s: seq<T>): (r: seq<T>)
    ensures forall x :: x in r <==> x in s
    ensures NoDuplicates(r)
    ensures forall i, j :: 0 <= i < j < |r| ==> IndexOf(s, r[i]) < IndexOf(s, r[j])
  {
    if s == [] then []
    else
      var init := s[..|s| - 1];
      var x := s[|s| - 1];
      var r := Distinct(init);
      assert s == init + [x];
      forall y | y in r ensures IndexOf(s, y) == IndexOf(init, y) {
        IndexOfInPrefix(s, |s| - 1, y);
      }
      if x in r then r
      else
        assert IndexOf(s, x) == |s| - 1;
        r + [x]
  }

  /**
   * One `query = query.<filter>(…)` step on an ordered query: the rows that
   * pass `keep`, still in order, each kept as often as it occurred.
   */
  method Narrow<T(!new)>(rows: seq<T>, keep: T -> bool, key: T -> string, desc: bool) returns (r: seq<T>)
    requires SortedBy(rows, key, desc)
    ensures SortedBy(r, key, desc)
    ensures forall x :: multiset(r)[x] == if keep(x) then multiset(rows)[x] else 0
  {
    FilterSorted(rows, keep, key, desc);
    FilterMultiset(rows, keep);
    r := Filter(rows, keep);
  }
}
