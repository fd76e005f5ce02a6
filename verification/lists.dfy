/** The list operations the router performs on Python lists: `filter`, `list.index`,
    the stable `list.sort(key=...)`, and the ordering of `str` values used as sort keys. */
module Lists {

  datatype Option<T> = None | Some(value: T)

  /** `list(filter(keep, s))` where keep holds exactly of the members of chosen: the elements
      of s that are chosen, in their original order and with their repetitions. */
  function Select<T>(s: seq<T>, chosen: set<T>): (r: seq<T>)
    ensures |r| <= |s|
    ensures forall x | x in r :: x in s && x in chosen
    ensures forall x | x in s && x in chosen :: x in r
  {
    if s == [] then []
    else
      assert s == [s[0]] + s[1..];
      (if s[0] in chosen then [s[0]] else []) + Select(s[1..], chosen)
  }

  /** Selecting from a concatenation selects from each part and keeps the parts in order:
      the selection never reorders what it keeps. */
  lemma {:induction false} SelectConcat<T>(s: seq<T>, t: seq<T>, chosen: set<T>)
    ensures Select(s + t, chosen) == Select(s, chosen) + Select(t, chosen)
  {
    if s != [] {
      var st := s + t;
      assert st[0] == s[0];
      assert st[1..] == s[1..] + t;
      SelectConcat(s[1..], t, chosen);
      var head := if s[0] in chosen then [s[0]] else [];
      calc {
        Select(st, chosen);
        head + Select(s[1..] + t, chosen);
        head + (Select(s[1..], chosen) + Select(t, chosen));
        (head + Select(s[1..], chosen)) + Select(t, chosen);
      }
    } else {
      assert s + t == t;
    }
  }

  /** Extending the list by one element extends the selection by that element when it is
      chosen. */
  lemma SelectSnoc<T>(s: seq<T>, x: T, chosen: set<T>)
    ensures Select(s + [x], chosen) == Select(s, chosen) + (if x in chosen then [x] else [])
  {
    SelectConcat(s, [x], chosen);
    assert Select([x], chosen) == (if x in chosen then [x] else []) + Select([], chosen);
  }

  /** Selecting everything keeps the list; selecting nothing of it empties it. */
  lemma {:induction false} SelectAllOrNone<T>(s: seq<T>, chosen: set<T>)
    ensures (forall x | x in s :: x in chosen) ==> Select(s, chosen) == s
    ensures (forall x | x in s :: x !in chosen) ==> Select(s, chosen) == []
  {
    if s != [] {
      SelectAllOrNone(s[1..], chosen);
      assert s == [s[0]] + s[1..];
    }
  }

  /** Nothing is selected exactly when no element of s is chosen. */
  lemma SelectEmpty<T>(s: seq<T>, chosen: set<T>)
    ensures Select(s, chosen) == [] <==> forall x | x in s :: x !in chosen
  {
    SelectAllOrNone(s, chosen);
  }

  function Reversed<T>(s: seq<T>): (r: seq<T>)
    ensures |r| == |s|
    ensures forall i :: 0 <= i < |s| ==> r[i] == s[|s| - 1 - i]
  {
    seq(|s|, i requires 0 <= i < |s| => s[|s| - 1 - i])
  }

  /** `s.index(x)`: the position of the first occurrence of x (the Python code raises ValueError
      when x is absent; every caller here guarantees presence). */
  function IndexOf<T(==)>(s: seq<T>, x: T): (i: nat)
    requires x in s
    ensures i < |s| && s[i] == x
    ensures forall j :: 0 <= j < i ==> s[j] != x
  {
    if s[0] == x then 0 else 1 + IndexOf(s[1..], x)
  }

  /** Distinct elements of a list have distinct first positions. */
  lemma IndexOfInjective<T>(s: seq<T>, x: T, y: T)
    requires x in s && y in s && x != y
    ensures IndexOf(s, x) != IndexOf(s, y)
  {}

  /** Insert x in front of the first element that is not smaller than x. */
  function Insert<T>(x: T, s: seq<T>, lt: (T, T) -> bool): (r: seq<T>)
    ensures |r| == |s| + 1
    ensures multiset(r) == multiset(s) + multiset{x}
  {
    if s == [] || !lt(s[0], x) then [x] + s
    else
      assert s == [s[0]] + s[1..];
      [s[0]] + Insert(x, s[1..], lt)
  }

  /** The stable sort of `list.sort`: insertion sort placing each element before the equal
      elements that follow it in the input (`SortByStable`). */
  function SortBy<T>(s: seq<T>, lt: (T, T) -> bool): (r: seq<T>)
    ensures |r| == |s|
    ensures multiset(r) == multiset(s)
  {
    if s == [] then []
    else
      assert s == [s[0]] + s[1..];
      Insert(s[0], SortBy(s[1..], lt), lt)
  }

  predicate SortedBy<T>(s: seq<T>, lt: (T, T) -> bool) {
    forall i, j :: 0 <= i < j < |s| ==> !lt(s[j], s[i])
  }

  /** lt is a strict weak order on the elements of xs: asymmetric, and "not smaller" is
      transitive. */
  ghost predicate StrictWeakOrderOn<T>(xs: seq<T>, lt: (T, T) -> bool) {
    && (forall a, b | a in xs && b in xs :: lt(a, b) ==> !lt(b, a))
    && (forall a, b, c | a in xs && b in xs && c in xs :: !lt(a, b) && !lt(b, c) ==> !lt(a, c))
  }

  lemma {:induction false} InsertSorted<T>(x: T, s: seq<T>, lt: (T, T) -> bool)
    requires StrictWeakOrderOn([x] + s, lt) && SortedBy(s, lt)
    ensures SortedBy(Insert(x, s, lt), lt)
    ensures forall k :: 0 <= k < |Insert(x, s, lt)| ==> Insert(x, s, lt)[k] == x || Insert(x, s, lt)[k] in s
  {
    if s != [] && lt(s[0], x) {
      var h, t := s[0], s[1..];
      assert forall a | a in [x] + t :: a in [x] + s;
      InsertSorted(x, t, lt);
      InsertPast(h, t, x, lt);
      var tail := Insert(x, t, lt);
      forall j | 0 <= j < |tail| ensures !lt(tail[j], h) && (tail[j] == x || tail[j] in s) {
        if tail[j] != x {
          var k :| 0 <= k < |t| && t[k] == tail[j];
          assert s[k + 1] == tail[j];
        }
      }
      SortedCons(h, tail, lt);
    } else {
      forall j | 0 <= j < |s| ensures !lt(s[j], x) {
        assert s[j] in [x] + s && s[0] in [x] + s && x in [x] + s;
      }
      SortedCons(x, s, lt);
    }
  }

  /** A sorted list stays sorted behind a head that no element precedes. */
  lemma SortedCons<T>(h: T, s: seq<T>, lt: (T, T) -> bool)
    requires SortedBy(s, lt) && forall j | 0 <= j < |s| :: !lt(s[j], h)
    ensures SortedBy([h] + s, lt)
  {
    var r := [h] + s;
    forall i, j | 0 <= i < j < |r| ensures !lt(r[j], r[i]) {
      assert r[j] == s[j - 1];
      if i > 0 {
        assert r[i] == s[i - 1];
      }
    }
  }

  /** The stable sort yields a list ordered by lt (for a strict weak order). */
  lemma {:induction false} SortBySorted<T>(s: seq<T>, lt: (T, T) -> bool)
    requires StrictWeakOrderOn(s, lt)
    ensures SortedBy(SortBy(s, lt), lt)
  {
    if s != [] {
      assert forall a | a in s[1..] :: a in s;
      SortBySorted(s[1..], lt);
      var t := SortBy(s[1..], lt);
      assert forall a | a in t :: a in multiset(t);
      assert forall a | a in [s[0]] + t :: a in s;
      InsertSorted(s[0], t, lt);
    }
  }

  /** Inserting x keeps the order of a set of peers; when x is one of them and follows none
      of them, it goes in front of them, since x goes before the first element it does not
      follow. */
  lemma {:induction false} InsertSelect<T>(x: T, t: seq<T>, lt: (T, T) -> bool, peers: set<T>)
    requires x in peers ==> forall y | y in t && y in peers :: !lt(y, x)
    ensures Select(Insert(x, t, lt), peers) == if x in peers then [x] + Select(t, peers) else Select(t, peers)
  {
    if t == [] || !lt(t[0], x) {
      SelectCons([x] + t, peers);
      assert ([x] + t)[1..] == t;
    } else {
      var h := t[0];
      assert forall y | y in t[1..] :: y in t;
      InsertSelect(x, t[1..], lt, peers);
      SelectCons([h] + Insert(x, t[1..], lt), peers);
      assert ([h] + Insert(x, t[1..], lt))[1..] == Insert(x, t[1..], lt);
      SelectCons(t, peers);
    }
  }

  /** Stability: the stable sort keeps the input order of any set of elements none of which
      precedes another, such as the elements that share one sort key. */
  lemma {:induction false} SortByStable<T>(s: seq<T>, lt: (T, T) -> bool, peers: set<T>)
    requires forall a, b | a in s && b in s && a in peers && b in peers :: !lt(a, b)
    ensures Select(SortBy(s, lt), peers) == Select(s, peers)
  {
    if s != [] {
      var x, tail := s[0], s[1..];
      assert forall y | y in tail :: y in s;
      SortByStable(tail, lt, peers);
      var sorted := SortBy(tail, lt);
      assert forall y | y in sorted :: y in tail by {
        forall y | y in sorted ensures y in tail {
          assert y in multiset(sorted);
        }
      }
      InsertSelect(x, sorted, lt, peers);
      SelectCons(s, peers);
    }
  }

  /** Inserting x, which every element of low precedes and no element of rest does, after
      the prefix low. */
  lemma {:induction false} InsertAfter<T>(x: T, low: seq<T>, rest: seq<T>, lt: (T, T) -> bool)
    requires forall e | e in low :: lt(e, x)
    requires rest != [] ==> !lt(rest[0], x)
    ensures Insert(x, low + rest, lt) == low + [x] + rest
  {
    if low != [] {
      var h, t := low[0], low[1..];
      assert low == [h] + t;
      InsertAfter(x, t, rest, lt);
      Associate([h], t, rest);
      InsertPast(h, t + rest, x, lt);
      Associate([h], t + [x], rest);
      Associate([h], t, [x]);
    } else {
      assert low + rest == rest;
    }
  }

  /** x goes behind a head that precedes it. */
  lemma InsertPast<T>(h: T, s: seq<T>, x: T, lt: (T, T) -> bool)
    requires lt(h, x)
    ensures Insert(x, [h] + s, lt) == [h] + Insert(x, s, lt)
  {
    assert ([h] + s)[1..] == s;
  }

  /** When lt only says "a is in the first class and b in the second", the stable sort puts
      the first class before the second and keeps the input order within each class. */
  lemma {:induction false} SortTwoClasses<T>(s: seq<T>, first: set<T>, second: set<T>, lt: (T, T) -> bool)
    requires forall x | x in s :: (x in first) != (x in second)
    requires forall a, b | a in s && b in s :: lt(a, b) <==> a in first && b in second
    ensures SortBy(s, lt) == Select(s, first) + Select(s, second)
  {
    if s != [] {
      var x, tail := s[0], s[1..];
      var low, high := Select(tail, first), Select(tail, second);
      assert SortBy(s, lt) == Insert(x, low + high, lt) by {
        SortTwoClasses(tail, first, second, lt);
      }
      assert Select(s, first) == (if x in first then [x] + low else low)
          && Select(s, second) == (if x in first then high else [x] + high) by {
        SelectCons(s, first);
        SelectCons(s, second);
      }
      assert (forall e | e in low :: lt(e, x) <==> x !in first) && (forall e | e in high :: !lt(e, x)) by {
        assert forall e | e in tail :: e in s;
      }
      InsertIntoClasses(x, low, high, x in first, lt);
    }
  }

  lemma SelectCons<T>(s: seq<T>, chosen: set<T>)
    requires s != []
    ensures Select(s, chosen) == if s[0] in chosen then [s[0]] + Select(s[1..], chosen) else Select(s[1..], chosen)
  {
    assert [] + Select(s[1..], chosen) == Select(s[1..], chosen);
  }

  /** One step of the two-class sort: x goes in front of both classes when it is in the
      first, and between them when it is in the second. */
  lemma InsertIntoClasses<T>(x: T, low: seq<T>, high: seq<T>, xFirst: bool, lt: (T, T) -> bool)
    requires forall e | e in low :: lt(e, x) <==> !xFirst
    requires forall e | e in high :: !lt(e, x)
    ensures Insert(x, low + high, lt) == (if xFirst then [x] + low else low) + (if xFirst then high else [x] + high)
  {
    if xFirst {
      if low != [] {
        assert (low + high)[0] == low[0];
      } else if high != [] {
        assert (low + high)[0] == high[0];
      }
      assert Insert(x, low + high, lt) == [x] + (low + high);
      Associate([x], low, high);
    } else {
      InsertAfter(x, low, high, lt);
      Associate(low, [x], high);
    }
  }

  lemma Associate<T>(a: seq<T>, b: seq<T>, c: seq<T>)
    ensures a + (b + c) == a + b + c
  {
  }

  /** Two blocks, every element of low strictly before every element of high and the
      elements of each block all equivalent: whichever block comes first in the input, the
      stable sort yields low followed by high. */
  lemma SortBlocks<T>(low: seq<T>, high: seq<T>, lt: (T, T) -> bool)
    requires forall a, b | a in low && b in high :: lt(a, b) && !lt(b, a)
    requires forall a, b | a in low && b in low :: !lt(a, b)
    requires forall a, b | a in high && b in high :: !lt(a, b)
    ensures SortBy(low + high, lt) == low + high
    ensures SortBy(high + low, lt) == low + high
  {
    var first, second := set x | x in low, set x | x in high;
    forall x | x in high ensures x !in first {
      assert x in low ==> lt(x, x) && !lt(x, x);
    }
    SortBlocksAs(low + high, low, high, lt);
    SortBlocksAs(high + low, low, high, lt);
    PickBlock(low, high, first);
    PickBlock(high, low, second);
  }

  /** An input made of the elements of the two blocks sorts into its low elements followed
      by its high elements. */
  lemma SortBlocksAs<T>(input: seq<T>, low: seq<T>, high: seq<T>, lt: (T, T) -> bool)
    requires forall a, b | a in low && b in high :: lt(a, b) && !lt(b, a)
    requires forall a, b | a in low && b in low :: !lt(a, b)
    requires forall a, b | a in high && b in high :: !lt(a, b)
    requires forall x | x in input :: x in low || x in high
    ensures SortBy(input, lt) == Select(input, set x | x in low) + Select(input, set x | x in high)
  {
    var first, second := set x | x in low, set x | x in high;
    forall x | x in input ensures (x in first) != (x in second) {
      assert x in low && x in high ==> lt(x, x) && !lt(x, x);
    }
    SortTwoClasses(input, first, second, lt);
  }

  /** Selecting the members of one block from either concatenation of two disjoint blocks
      gives that block back. */
  lemma PickBlock<T>(block: seq<T>, other: seq<T>, chosen: set<T>)
    requires forall x | x in block :: x in chosen
    requires forall x | x in other :: x !in chosen
    ensures Select(block + other, chosen) == block && Select(other + block, chosen) == block
  {
    SelectConcat(block, other, chosen);
    SelectConcat(other, block, chosen);
    SelectAllOrNone(block, chosen);
    SelectAllOrNone(other, chosen);
    assert block + [] == block && [] + block == block;
  }

  /** Python's `str` ordering: lexicographic by code point, a proper prefix first. */
  predicate LexLess(a: string, b: string)
    decreases |a|
    ensures LexLess(a, b) ==> a != b
    ensures |a| < |b| && a == b[..|a|] ==> LexLess(a, b)
  {
    if b == [] then false
    else if a == [] then true
    else if a[0] != b[0] then a[0] < b[0]
    else LexLess(a[1..], b[1..])
  }

  /** The string ordering is a strict total order: irreflexive, transitive and total. */
  lemma {:induction false} LexLessTotal(a: string, b: string)
    ensures a == b || LexLess(a, b) || LexLess(b, a)
    ensures !(LexLess(a, b) && LexLess(b, a))
    decreases |a|
  {
    if a != [] && b != [] && a[0] == b[0] {
      LexLessTotal(a[1..], b[1..]);
      if a[1..] == b[1..] {
        assert a == [a[0]] + a[1..] && b == [b[0]] + b[1..];
      }
    }
  }

  lemma {:induction false} LexLessTransitive(a: string, b: string, c: string)
    requires LexLess(a, b) && LexLess(b, c)
    ensures LexLess(a, c)
    decreases |a|
  {
    if a != [] && a[0] == b[0] && b[0] == c[0] {
      LexLessTransitive(a[1..], b[1..], c[1..]);
    }
  }
}
