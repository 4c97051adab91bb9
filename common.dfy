/** Numeric conventions of the JavaScript runtime, an Option type, filtering,
    sums and the library sort, shared by every other module. */
module Common {

  datatype Option<T> = None | Some(value: T)

  /** Math.round on a finite number: the nearest integer, a half rounded up. */
  function Round(x: real): (r: int)
    ensures x - 0.5 < r as real <= x + 0.5
  {
    (x + 0.5).Floor
  }

  lemma {:induction false} RoundMonotone(x: real, y: real)
    requires x <= y
    ensures Round(x) <= Round(y)
  {
  }

  /** Math.round of an integral value is that value. */
  lemma RoundOfInt(n: int)
    ensures Round(n as real) == n
  {
  }

  /** Math.trunc(a / b): integer division rounding toward zero. */
  function TruncDiv(a: int, b: int): (q: int)
    requires b > 0
    ensures a >= 0 ==> 0 <= q * b <= a < q * b + b
    ensures a < 0 ==> q * b - b < a <= q * b <= 0
  {
    if a >= 0 then
      DivFloor(a, b);
      a / b
    else
      DivFloor(-a, b);
      -((-a) / b)
  }

  lemma DivFloor(a: int, b: int)
    requires a >= 0 && b > 0
    ensures 0 <= (a / b) * b <= a < (a / b) * b + b
  {
    var q, r := a / b, a % b;
    assert a == q * b + r && 0 <= r < b;
    assert q >= 0;
    assert q * b >= 0;
  }

  /** JavaScript's `%`: the remainder carries the sign of the dividend. */
  function JsRem(a: int, b: int): (r: int)
    requires b > 0
    ensures a == TruncDiv(a, b) * b + r
    ensures a >= 0 ==> 0 <= r < b
    ensures a < 0 ==> -b < r <= 0
  {
    a - TruncDiv(a, b) * b
  }

  const MinuteMs: int := 60000
  const DayMs: int := 86400000

  /** date-fns differenceInMinutes(later, earlier): whole minutes, truncated toward zero. */
  function DiffMinutes(later: int, earlier: int): (m: int)
    ensures earlier <= later ==> 0 <= m && m * MinuteMs <= later - earlier < (m + 1) * MinuteMs
    ensures later < earlier ==> m <= 0
  {
    TruncDiv(later - earlier, MinuteMs)
  }

  /** A mean of n values within [lo, hi] lies within [lo, hi]. */
  lemma MeanWithin(total: int, n: int, lo: int, hi: int)
    requires n > 0 && n * lo <= total <= n * hi
    ensures lo as real <= total as real / n as real <= hi as real
  {
    var q := total as real / n as real;
    assert q * n as real == total as real;
    assert (n * lo) as real == n as real * lo as real;
    assert (n * hi) as real == n as real * hi as real;
  }

  /** A quotient bounded by m bounds the dividend by m times the divisor. */
  lemma DivAtMost(s: real, c: real, m: real)
    requires c > 0.0 && s / c <= m
    ensures s <= c * m
  {
    assert (s / c) * c == s;
    assert (s / c) * c <= m * c;
  }

  /** A dividend bounded by m times the divisor bounds the quotient by m. */
  lemma AtMostDiv(s: real, c: real, m: real)
    requires c > 0.0 && s <= c * m
    ensures s / c <= m
  {
    assert s / c <= (c * m) / c;
  }

  /** c times m; a named term keeps the solver from unfolding products. */
  function Scale(c: int, m: real): real { c as real * m }

  /** Totals bounded by m times their counts add up to a total so bounded. */
  lemma AddBounds(s: int, c: int, s1: int, c1: int, s2: int, c2: int, m: real)
    requires s == s1 + s2 && c == c1 + c2
    requires s1 as real <= Scale(c1, m) && s2 as real <= Scale(c2, m)
    ensures s as real <= Scale(c, m)
  {
    assert c as real * m == c1 as real * m + c2 as real * m;
  }

  function Min(a: int, b: int): int { if a <= b then a else b }
  function Max(a: int, b: int): int { if a >= b then a else b }
  function MinReal(a: real, b: real): real { if a <= b then a else b }

  /** Array.prototype.filter. */
  function Filter<T>(s: seq<T>, p: T -> bool): (r: seq<T>)
    ensures |r| <= |s|
    ensures forall i :: 0 <= i < |r| ==> p(r[i])
  {
    if s == [] then []
    else if p(s[0]) then [s[0]] + Filter(s[1..], p)
    else Filter(s[1..], p)
  }

  /** The filter keeps exactly the elements that pass. */
  lemma {:induction false} FilterMembers<T>(s: seq<T>, p: T -> bool, x: T)
    ensures x in Filter(s, p) <==> x in s && p(x)
  {
    if s != [] {
      FilterMembers(s[1..], p, x);
      assert s == [s[0]] + s[1..];
    }
  }

  /** A filter that nothing passes is empty. */
  lemma {:induction false} FilterNone<T>(s: seq<T>, p: T -> bool)
    requires forall x :: x in s ==> !p(x)
    ensures Filter(s, p) == []
  {
    if s != [] {
      FilterNone(s[1..], p);
    }
  }

  /** A filter that everything passes keeps the whole sequence. */
  lemma {:induction false} FilterAll<T>(s: seq<T>, q: T -> bool)
    requires forall i :: 0 <= i < |s| ==> q(s[i])
    ensures Filter(s, q) == s
  {
    if s != [] {
      FilterAll(s[1..], q);
    }
  }

  lemma {:induction false} FilterAppend<T>(s: seq<T>, t: seq<T>, p: T -> bool)
    ensures Filter(s + t, p) == Filter(s, p) + Filter(t, p)
  {
    if s != [] {
      assert (s + t)[1..] == s[1..] + t;
      FilterAppend(s[1..], t, p);
    } else {
      assert s + t == t;
    }
  }

  /** Filtering and then appending one more element. */
  lemma FilterSnoc<T>(s: seq<T>, x: T, p: T -> bool)
    ensures Filter(s + [x], p) == Filter(s, p) + (if p(x) then [x] else [])
  {
    FilterAppend(s, [x], p);
  }

  lemma {:induction false} FilterMultiset<T>(s: seq<T>, p: T -> bool)
    ensures multiset(Filter(s, p)) <= multiset(s)
  {
    if s != [] {
      FilterMultiset(s[1..], p);
      assert s == [s[0]] + s[1..];
    }
  }

  /** Two filters with the same verdict on every element agree. */
  lemma {:induction false} FilterExt<T>(s: seq<T>, p: T -> bool, q: T -> bool)
    requires forall x :: x in s ==> p(x) == q(x)
    ensures Filter(s, p) == Filter(s, q)
  {
    if s != [] {
      FilterExt(s[1..], p, q);
    }
  }

  /** Sum of a sequence of integers. */
  function SumInts(s: seq<int>): int
  {
    if s == [] then 0 else SumInts(s[..|s| - 1]) + s[|s| - 1]
  }

  lemma {:induction false} SumIntsAppend(s: seq<int>, t: seq<int>)
    ensures SumInts(s + t) == SumInts(s) + SumInts(t)
  {
    if t != [] {
      assert (s + t)[..|s + t| - 1] == s + t[..|t| - 1];
      SumIntsAppend(s, t[..|t| - 1]);
    } else {
      assert s + t == s;
    }
  }

  // ---- The library sort -------------------------------------------------

  /** The elements' keys never decrease. */
  ghost predicate SortedBy<T>(s: seq<T>, key: T -> int)
  {
    forall i, j :: 0 <= i < j < |s| ==> key(s[i]) <= key(s[j])
  }

  /** Places x after every element whose key is not larger than x's. */
  function InsertBy<T>(x: T, s: seq<T>, key: T -> int): seq<T>
  {
    if s == [] then [x]
    else if key(x) < key(s[0]) then [x] + s
    else [s[0]] + InsertBy(x, s[1..], key)
  }

  /** Array.prototype.sort with a numeric comparator: a stable sort by key. */
  function SortBy<T>(s: seq<T>, key: T -> int): seq<T>
  {
    if s == [] then [] else InsertBy(s[|s| - 1], SortBy(s[..|s| - 1], key), key)
  }

  /** Neighbouring keys never decrease. */
  ghost predicate AdjacentSorted<T>(s: seq<T>, key: T -> int)
  {
    forall i :: 0 <= i < |s| - 1 ==> key(s[i]) <= key(s[i + 1])
  }

  lemma AdjacentToSorted<T>(s: seq<T>, key: T -> int)
    requires AdjacentSorted(s, key)
    ensures SortedBy(s, key)
  {
    forall i, j | 0 <= i < j < |s| ensures key(s[i]) <= key(s[j]) {
      var k := i;
      while k < j
        invariant i <= k <= j
        invariant key(s[i]) <= key(s[k])
      {
        k := k + 1;
      }
    }
  }

  lemma {:induction false} InsertByShape<T>(x: T, s: seq<T>, key: T -> int)
    ensures multiset(InsertBy(x, s, key)) == multiset(s) + multiset{x}
    ensures |InsertBy(x, s, key)| == |s| + 1
    ensures InsertBy(x, s, key)[0] == if s == [] || key(x) < key(s[0]) then x else s[0]
  {
    if s != [] && key(x) >= key(s[0]) {
      var rest := InsertBy(x, s[1..], key);
      InsertByShape(x, s[1..], key);
      assert InsertBy(x, s, key) == [s[0]] + rest;
      assert s == [s[0]] + s[1..];
      assert multiset(s) == multiset{s[0]} + multiset(s[1..]);
    }
  }

  lemma {:induction false} InsertByFacts<T>(x: T, s: seq<T>, key: T -> int)
    requires AdjacentSorted(s, key)
    ensures multiset(InsertBy(x, s, key)) == multiset(s) + multiset{x}
    ensures AdjacentSorted(InsertBy(x, s, key), key)
  {
    InsertByShape(x, s, key);
    if s != [] && key(x) >= key(s[0]) {
      var tail := s[1..];
      assert AdjacentSorted(tail, key) by {
        forall i | 0 <= i < |tail| - 1 ensures key(tail[i]) <= key(tail[i + 1]) {
          assert tail[i] == s[i + 1] && tail[i + 1] == s[i + 2];
        }
      }
      InsertByFacts(x, tail, key);
      InsertByShape(x, tail, key);
      var rest := InsertBy(x, tail, key);
      var r := [s[0]] + rest;
      assert InsertBy(x, s, key) == r;
      forall i | 0 <= i < |r| - 1 ensures key(r[i]) <= key(r[i + 1]) {
        if i == 0 {
          assert r[1] == rest[0];
          assert tail != [] ==> tail[0] == s[1];
        } else {
          assert r[i] == rest[i - 1] && r[i + 1] == rest[i];
        }
      }
    }
  }

  lemma {:induction false} SortByAdjacent<T>(s: seq<T>, key: T -> int)
    ensures AdjacentSorted(SortBy(s, key), key)
  {
    if s != [] {
      SortByAdjacent(s[..|s| - 1], key);
      InsertByFacts(s[|s| - 1], SortBy(s[..|s| - 1], key), key);
    }
  }

  /** The library sort's promise: the result is ordered by key and is a
      permutation of its input. */
  lemma {:induction false} SortByFacts<T>(s: seq<T>, key: T -> int)
    ensures multiset(SortBy(s, key)) == multiset(s)
    ensures SortedBy(SortBy(s, key), key)
    ensures |SortBy(s, key)| == |s|
  {
    if s != [] {
      var init := s[..|s| - 1];
      SortByAdjacent(init, key);
      InsertByFacts(s[|s| - 1], SortBy(init, key), key);
      assert s == init + [s[|s| - 1]];
      SortByFacts(init, key);
    }
    SortByAdjacent(s, key);
    AdjacentToSorted(SortBy(s, key), key);
    assert |multiset(SortBy(s, key))| == |multiset(s)|;
  }
}
