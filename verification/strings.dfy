/**
 * String operations the core uses: `startsWith`, `includes`, `join`, and the default
 * `Array.prototype.sort` order, lexicographic over `char` (Unicode scalar values; JavaScript
 * compares UTF-16 code units, which order the same below U+10000).
 */
module Strings {

  /** `s.startsWith(prefix)`. */
  predicate StartsWith(s: string, prefix: string) {
    |prefix| <= |s| && s[..|prefix|] == prefix
  }

  /** `s.includes(sub)`. */
  predicate Contains(s: string, sub: string)
    decreases |s|
  {
    StartsWith(s, sub) || (|s| > 0 && Contains(s[1..], sub))
  }

  lemma StartsWithConcat(a: string, b: string)
    ensures StartsWith(a + b, a)
  {
    assert (a + b)[..|a|] == a;
  }

  /** An occurrence of `sub` at position `i` makes `s` contain it. */
  lemma {:induction false} ContainsAt(s: string, sub: string, i: nat)
    requires i + |sub| <= |s| && s[i..i + |sub|] == sub
    ensures Contains(s, sub)
  {
    if i == 0 {
      assert s[..|sub|] == s[0..|sub|];
    } else {
      assert s[1..][i - 1..i - 1 + |sub|] == s[i..i + |sub|];
      ContainsAt(s[1..], sub, i - 1);
    }
  }

  /** A string contains every piece it is built from. */
  lemma ContainsInfix(a: string, b: string, c: string)
    ensures Contains(a + b + c, b)
  {
    assert (a + b + c)[|a|..|a| + |b|] == b;
    ContainsAt(a + b + c, b, |a|);
  }

  /** A string that lacks some character of `sub` does not contain `sub`. */
  lemma {:induction false} ContainsChar(s: string, sub: string, j: nat)
    requires j < |sub| && Contains(s, sub)
    ensures sub[j] in s
  {
    if StartsWith(s, sub) {
      assert s[j] == sub[j];
    } else {
      ContainsChar(s[1..], sub, j);
      assert s == [s[0]] + s[1..];
    }
  }

  /** `parts.join(sep)`. */
  function Join(parts: seq<string>, sep: string): string {
    if |parts| == 0 then ""
    else if |parts| == 1 then parts[0]
    else parts[0] + sep + Join(parts[1..], sep)
  }

  /** `a <= b` in the order the default sort uses: lexicographic by character, a prefix first. */
  predicate Below(a: string, b: string) {
    |a| == 0 || (|b| > 0 && (a[0] < b[0] || (a[0] == b[0] && Below(a[1..], b[1..]))))
  }

  lemma {:induction false} BelowReflexive(a: string)
    ensures Below(a, a)
  {
    if |a| > 0 {
      BelowReflexive(a[1..]);
    }
  }

  lemma {:induction false} BelowTotal(a: string, b: string)
    ensures Below(a, b) || Below(b, a)
  {
    if |a| > 0 && |b| > 0 && a[0] == b[0] {
      BelowTotal(a[1..], b[1..]);
    }
  }

  lemma {:induction false} BelowAntisymmetric(a: string, b: string)
    requires Below(a, b) && Below(b, a)
    ensures a == b
  {
    if |a| > 0 && |b| > 0 {
      BelowAntisymmetric(a[1..], b[1..]);
      assert a == [a[0]] + a[1..] && b == [b[0]] + b[1..];
    }
  }

  lemma {:induction false} BelowTransitive(a: string, b: string, c: string)
    requires Below(a, b) && Below(b, c)
    ensures Below(a, c)
  {
    if |a| > 0 && |b| > 0 && |c| > 0 && a[0] == b[0] && b[0] == c[0] {
      BelowTransitive(a[1..], b[1..], c[1..]);
    }
  }

  predicate Sorted(s: seq<string>) {
    forall i, j :: 0 <= i < j < |s| ==> Below(s[i], s[j])
  }

  /** An element below every element of a sorted sequence can go in front of it. */
  lemma ConsSorted(x: string, s: seq<string>)
    requires Sorted(s)
    requires forall j | 0 <= j < |s| :: Below(x, s[j])
    ensures Sorted([x] + s)
  {
    forall i, j | 0 <= i < j < |s| + 1 ensures Below(([x] + s)[i], ([x] + s)[j]) {
      assert ([x] + s)[j] == s[j - 1];
      if i > 0 {
        assert ([x] + s)[i] == s[i - 1];
      }
    }
  }

  /** Below the head of a sorted sequence is below all of it. */
  lemma BelowHeadBelowAll(x: string, s: seq<string>)
    requires Sorted(s) && |s| > 0 && Below(x, s[0])
    ensures forall j | 0 <= j < |s| :: Below(x, s[j])
  {
    forall j | 0 < j < |s| ensures Below(x, s[j]) {
      BelowTransitive(x, s[0], s[j]);
    }
  }

  /** The head of a sorted sequence is below its tail with an element above the head added. */
  lemma HeadBelowInserted(x: string, s: seq<string>, rest: seq<string>)
    requires Sorted(s) && |s| > 0 && Below(s[0], x)
    requires multiset(rest) == multiset(s[1..]) + multiset{x}
    ensures forall j | 0 <= j < |rest| :: Below(s[0], rest[j])
  {
    forall j | 0 <= j < |rest| ensures Below(s[0], rest[j]) {
      assert rest[j] in multiset(rest);
      if rest[j] != x {
        assert rest[j] in multiset(s[1..]);
        var k :| 0 <= k < |s[1..]| && s[1..][k] == rest[j];
        assert s[k + 1] == rest[j];
      }
    }
  }

  /** Insert `x` before the first element it is below. */
  function Insert(x: string, s: seq<string>): seq<string>
  {
    if s == [] then [x]
    else if Below(x, s[0]) then [x] + s
    else [s[0]] + Insert(x, s[1..])
  }

  /** Inserting adds `x` to the multiset and keeps a sorted sequence sorted. */
  lemma {:induction false} InsertSorts(x: string, s: seq<string>)
    ensures multiset(Insert(x, s)) == multiset(s) + multiset{x}
    ensures Sorted(s) ==> Sorted(Insert(x, s))
  {
    if s == [] {
    } else if Below(x, s[0]) {
      if Sorted(s) {
        BelowHeadBelowAll(x, s);
        ConsSorted(x, s);
      }
    } else {
      var rest := Insert(x, s[1..]);
      InsertSorts(x, s[1..]);
      assert s == [s[0]] + s[1..];
      if Sorted(s) {
        BelowTotal(x, s[0]);
        assert Sorted(s[1..]);
        HeadBelowInserted(x, s, rest);
        ConsSorted(s[0], rest);
      }
    }
  }

  /** `[...s].sort()`: insertion sort in the default order; `s` itself is a value and is not changed. */
  function Sort(s: seq<string>): seq<string>
  {
    if s == [] then [] else Insert(s[0], Sort(s[1..]))
  }

  /** The sorted list is a permutation of its input and is in ascending order. */
  lemma {:induction false} SortSorts(s: seq<string>)
    ensures multiset(Sort(s)) == multiset(s)
    ensures Sorted(Sort(s))
  {
    if s != [] {
      SortSorts(s[1..]);
      InsertSorts(s[0], Sort(s[1..]));
      assert s == [s[0]] + s[1..];
    }
  }

  /** The first element of a sorted sequence is below every element. */
  lemma SortedFirstBelow(s: seq<string>, k: int)
    requires Sorted(s) && 0 <= k < |s|
    ensures Below(s[0], s[k])
  {
    if k == 0 {
      BelowReflexive(s[0]);
    }
  }

  /** Dropping the first element keeps a sequence sorted and takes that element out of its multiset. */
  lemma SortedTail(s: seq<string>)
    requires Sorted(s) && |s| > 0
    ensures Sorted(s[1..])
    ensures multiset(s[1..]) == multiset(s) - multiset{s[0]}
  {
    assert s == [s[0]] + s[1..];
  }

  /** Two sorted arrangements of the same strings are the same sequence. */
  lemma {:induction false} SortedUnique(a: seq<string>, b: seq<string>)
    requires Sorted(a) && Sorted(b) && multiset(a) == multiset(b)
    ensures a == b
  {
    if |a| == 0 {
      assert |multiset(b)| == 0;
    } else {
      assert |b| == |multiset(b)| == |multiset(a)| == |a|;
      assert a[0] in multiset(b);
      var k :| 0 <= k < |b| && b[k] == a[0];
      assert b[0] in multiset(a);
      var m :| 0 <= m < |a| && a[m] == b[0];
      SortedFirstBelow(b, k);
      SortedFirstBelow(a, m);
      BelowAntisymmetric(a[0], b[0]);
      SortedTail(a);
      SortedTail(b);
      SortedUnique(a[1..], b[1..]);
      assert a == [a[0]] + a[1..] && b == [b[0]] + b[1..];
    }
  }

  /** Sorting forgets the order of its input. */
  lemma SortPermutationInvariant(a: seq<string>, b: seq<string>)
    requires multiset(a) == multiset(b)
    ensures Sort(a) == Sort(b)
  {
    SortSorts(a);
    SortSorts(b);
    SortedUnique(Sort(a), Sort(b));
  }

  /** `k` is in `s` and no element of `s` is below it. */
  predicate IsLeast(k: string, s: set<string>) {
    k in s && forall j | j in s :: Below(k, j)
  }

  /** A finite set of strings has a least element. */
  lemma {:induction false} LeastOf(s: set<string>) returns (k: string)
    requires s != {}
    ensures IsLeast(k, s)
    decreases |s|
  {
    var x :| x in s;
    if s == {x} {
      BelowReflexive(x);
      k := x;
    } else {
      var m := LeastOf(s - {x});
      BelowTotal(m, x);
      if Below(m, x) {
        k := m;
      } else {
        forall j | j in s ensures Below(x, j) {
          if j == x {
            BelowReflexive(x);
          } else {
            assert j in s - {x};
            BelowTransitive(x, m, j);
          }
        }
        k := x;
      }
    }
  }

  lemma LeastUnique(a: string, b: string, s: set<string>)
    requires IsLeast(a, s) && IsLeast(b, s)
    ensures a == b
  {
    BelowAntisymmetric(a, b);
  }

  /** The least element of a non-empty set of strings. */
  function Least(s: set<string>): (k: string)
    requires s != {}
    ensures IsLeast(k, s)
  {
    assert exists w :: IsLeast(w, s) by {
      var w := LeastOf(s);
    }
    assert forall a, b | IsLeast(a, s) && IsLeast(b, s) :: a == b by {
      forall a, b | IsLeast(a, s) && IsLeast(b, s) ensures a == b {
        LeastUnique(a, b, s);
      }
    }
    var k :| IsLeast(k, s);
    k
  }

  /** The strings of a set in ascending order: a listing of an object's keys. */
  function SortedKeys(s: set<string>): (r: seq<string>)
    ensures |r| == |s| && forall k :: k in r <==> k in s
    decreases |s|
  {
    if s == {} then [] else [Least(s)] + SortedKeys(s - {Least(s)})
  }
}
