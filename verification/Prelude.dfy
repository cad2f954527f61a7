/** Small shared vocabulary: results, bytes, counting, sorted listings and decimal numerals. */
module Prelude {

  datatype Option<+T> = None | Some(value: T)

  datatype Result<+T, +E> = Ok(value: T) | Err(error: E)

  newtype byte = x: int | 0 <= x < 256

  type Bytes = seq<byte>

  // ---------------------------------------------------------------- integer ranges

  /** The integers k with lo <= k < hi. */
  function Range(lo: int, hi: int): (s: set<int>)
    ensures forall k :: k in s <==> lo <= k < hi
    ensures |s| == if lo <= hi then hi - lo else 0
    decreases hi - lo
  {
    if lo < hi then Range(lo, hi - 1) + {hi - 1} else {}
  }

  lemma {:induction false} SubsetSize<T>(a: set<T>, b: set<T>)
    requires a <= b
    ensures |a| <= |b|
    ensures |a| == |b| ==> a == b
  {
    assert b == a + (b - a);
    assert |b| == |a| + |b - a|;
  }

  lemma Pick<T>(s: set<T>) returns (x: T)
    requires s != {}
    ensures x in s
  {
    x :| x in s;
  }

  lemma {:induction false} SameElements(a: set<int>, b: set<int>)
    requires forall k :: k in a <==> k in b
    ensures a == b
  {
    if a - b != {} {
      var k := Pick(a - b);
      assert false;
    }
    if b - a != {} {
      var k := Pick(b - a);
      assert false;
    }
    assert a == a * b == b;
  }

  lemma {:induction false} SameMap<V>(a: map<int, V>, b: map<int, V>)
    requires forall k :: k in a <==> k in b
    requires forall k :: k in a ==> a[k] == b[k]
    ensures a == b
  {
    if a != b {
      var k := Difference(a, b);
      assert false;
    }
  }

  lemma Difference<K, V>(a: map<K, V>, b: map<K, V>) returns (k: K)
    requires a != b
    ensures (k in a <==> k !in b) || (k in a && k in b && a[k] != b[k])
  {
    k :| (k in a && k !in b) || (k in b && k !in a) || (k in a && k in b && a[k] != b[k]);
  }

  // ---------------------------------------------------------------- ascending listings (ORDER BY id ASC)

  ghost predicate Ascending(s: seq<int>) {
    forall i, j :: 0 <= i < j < |s| ==> s[i] < s[j]
  }

  predicate IsMinimum(ids: set<int>, m: int) {
    m in ids && forall k :: k in ids ==> m <= k
  }

  lemma {:induction false} MinimumExists(ids: set<int>)
    requires ids != {}
    ensures exists m :: IsMinimum(ids, m)
  {
    var x := Pick(ids);
    if ids == {x} {
      assert IsMinimum(ids, x);
    } else {
      MinimumExists(ids - {x});
      var rest :| IsMinimum(ids - {x}, rest);
      assert forall k :: k in ids ==> k == x || k in ids - {x};
      assert IsMinimum(ids, if rest < x then rest else x);
    }
  }

  ghost function Minimum(ids: set<int>): (m: int)
    requires ids != {}
    ensures IsMinimum(ids, m)
  {
    MinimumExists(ids);
    var m :| IsMinimum(ids, m);
    m
  }

  predicate IsMaximum(ids: set<int>, m: int) {
    m in ids && forall k :: k in ids ==> k <= m
  }

  lemma {:induction false} MaximumExists(ids: set<int>)
    requires ids != {}
    ensures exists m :: IsMaximum(ids, m)
  {
    var x := Pick(ids);
    if ids == {x} {
      assert IsMaximum(ids, x);
    } else {
      MaximumExists(ids - {x});
      var rest :| IsMaximum(ids - {x}, rest);
      assert forall k :: k in ids ==> k == x || k in ids - {x};
      assert IsMaximum(ids, if rest > x then rest else x);
    }
  }

  /** The elements of `ids`, each once, smallest first. */
  ghost function Listing(ids: set<int>): (s: seq<int>)
    ensures Ascending(s)
    ensures forall k :: k in s <==> k in ids
    ensures |s| == |ids|
  {
    if ids == {} then []
    else
      var m := Minimum(ids);
      var rest := Listing(ids - {m});
      assert forall k :: k in rest ==> m < k;
      [m] + rest
  }

  /** An ascending sequence is determined by its elements. */
  lemma {:induction false} ListingUnique(s: seq<int>, ids: set<int>)
    requires Ascending(s)
    requires forall k :: k in s <==> k in ids
    ensures s == Listing(ids)
    decreases |s|
  {
    if s == [] {
      SameElements(ids, {});
    } else {
      var m, t := s[0], s[1..];
      assert s == [m] + t;
      assert m in s;
      assert IsMinimum(ids, m);
      assert Minimum(ids) == m;
      TailElements(s);
      ListingUnique(t, ids - {m});
    }
  }

  lemma {:induction false} TailElements(s: seq<int>)
    requires s != [] && Ascending(s)
    ensures Ascending(s[1..])
    ensures forall k :: k in s[1..] <==> k in s && k != s[0]
  {
    forall k | k in s && k != s[0] ensures k in s[1..] {
      var i :| 0 <= i < |s| && s[i] == k;
      assert s[1..][i - 1] == k;
    }
  }

  /** Listing a set that splits at a bound is listing the low part, then the high part. */
  lemma {:induction false} ListingSplits(ids: set<int>, low: set<int>, high: set<int>, bound: int)
    requires ids == low + high
    requires forall k :: k in low ==> k <= bound
    requires forall k :: k in high ==> bound < k
    ensures Listing(ids) == Listing(low) + Listing(high)
  {
    var a, b := Listing(low), Listing(high);
    assert forall i :: 0 <= i < |a| ==> a[i] in low;
    assert forall i :: 0 <= i < |b| ==> b[i] in high;
    ListingUnique(a + b, ids);
  }

  lemma {:induction false} ListingOfRange(lo: int, hi: int)
    requires lo <= hi
    ensures |Listing(Range(lo, hi))| == hi - lo
    ensures forall k :: 0 <= k < hi - lo ==> Listing(Range(lo, hi))[k] == lo + k
  {
    var s := seq(hi - lo, i => lo + i);
    forall k | k in Range(lo, hi) ensures k in s {
      assert s[k - lo] == k;
    }
    ListingUnique(s, Range(lo, hi));
  }

  // ---------------------------------------------------------------- duplicate-free lists

  ghost predicate Distinct<T>(s: seq<T>) {
    forall i, j :: 0 <= i < j < |s| ==> s[i] != s[j]
  }

  /** The elements of s outside `gone`, in order. */
  ghost function Except<T>(s: seq<T>, gone: set<T>): seq<T> {
    if s == [] then []
    else
      var last := s[|s| - 1];
      Except(s[..|s| - 1], gone) + (if last in gone then [] else [last])
  }

  lemma {:induction false} ExceptMembers<T>(s: seq<T>, gone: set<T>)
    ensures forall x :: x in Except(s, gone) <==> x in s && x !in gone
    ensures |Except(s, gone)| <= |s|
  {
    if s != [] {
      assert s == s[..|s| - 1] + [s[|s| - 1]];
      ExceptMembers(s[..|s| - 1], gone);
    }
  }

  lemma {:induction false} ExceptNothing<T>(s: seq<T>, gone: set<T>)
    requires forall x :: x in s ==> x !in gone
    ensures Except(s, gone) == s
  {
    if s != [] {
      assert s == s[..|s| - 1] + [s[|s| - 1]];
      ExceptNothing(s[..|s| - 1], gone);
    }
  }

  lemma {:induction false} ExceptAppend<T>(a: seq<T>, b: seq<T>, gone: set<T>)
    ensures Except(a + b, gone) == Except(a, gone) + Except(b, gone)
  {
    if b == [] {
      assert a + b == a;
    } else {
      var n := |b| - 1;
      assert (a + b)[..|a + b| - 1] == a + b[..n];
      ExceptAppend(a, b[..n], gone);
    }
  }

  lemma {:induction false} ExceptOne<T>(x: T, gone: set<T>)
    ensures Except([x], gone) == if x in gone then [] else [x]
  {
    assert [x][..0] == [];
  }

  lemma {:induction false} ExceptMiddle<T>(head: seq<T>, c: T, tail: seq<T>)
    requires c !in head && c !in tail
    ensures Except(head + [c] + tail, {c}) == head + tail
    decreases |tail|
  {
    var s := head + [c] + tail;
    if tail == [] {
      assert s[..|s| - 1] == head;
      ExceptNothing(head, {c});
    } else {
      var m := |tail| - 1;
      assert s[..|s| - 1] == head + [c] + tail[..m];
      ExceptMiddle(head, c, tail[..m]);
      assert head + tail == head + tail[..m] + [tail[m]];
    }
  }

  /** Deleting the one occurrence of an element of a duplicate-free list. */
  lemma {:induction false} DeleteAt<T>(s: seq<T>, i: nat)
    requires Distinct(s) && i < |s|
    ensures s[..i] + s[i + 1..] == Except(s, {s[i]})
  {
    assert s == s[..i] + [s[i]] + s[i + 1..];
    ExceptMiddle(s[..i], s[i], s[i + 1..]);
  }

  lemma {:induction false} ExceptTwice<T>(s: seq<T>, a: set<T>, b: set<T>)
    ensures Except(Except(s, a), b) == Except(s, a + b)
  {
    if s != [] {
      var n := |s| - 1;
      var init, x := s[..n], s[n];
      assert s == init + [x];
      ExceptTwice(init, a, b);
      ExceptAppend(init, [x], a);
      ExceptAppend(init, [x], a + b);
      ExceptAppend(Except(init, a), Except([x], a), b);
      ExceptOneTwice(x, a, b);
    }
  }

  lemma {:induction false} ExceptOneTwice<T>(x: T, a: set<T>, b: set<T>)
    ensures Except(Except([x], a), b) == Except([x], a + b)
  {
    ExceptOne(x, a);
    ExceptOne(x, b);
    ExceptOne(x, a + b);
  }

  ghost function Elements<T>(s: seq<T>): set<T> {
    set x | x in s
  }

  lemma {:induction false} ElementsSnoc<T>(s: seq<T>, j: nat)
    requires j < |s|
    ensures Elements(s[..j + 1]) == Elements(s[..j]) + {s[j]}
  {
    assert s[..j + 1] == s[..j] + [s[j]];
  }

  /** Removing one by one the distinct members listed in `stale`, with the first j already gone. */
  lemma {:induction false} ExceptNext<T>(s: seq<T>, stale: seq<T>, j: nat, gone: set<T>)
    requires Distinct(stale) && j < |stale| && gone == Elements(stale[..j]) && stale[j] in s
    ensures stale[j] in Except(s, gone)
    ensures Except(Except(s, gone), {stale[j]}) == Except(s, gone + {stale[j]})
    ensures gone + {stale[j]} == Elements(stale[..j + 1])
  {
    ElementsSnoc(stale, j);
    ExceptTwice(s, gone, {stale[j]});
    ExceptMembers(s, gone);
  }

  lemma {:induction false} ExceptDistinct<T>(s: seq<T>, gone: set<T>)
    requires Distinct(s)
    ensures Distinct(Except(s, gone))
  {
    if s != [] {
      var n := |s| - 1;
      ExceptDistinct(s[..n], gone);
      ExceptMembers(s[..n], gone);
      assert forall i :: 0 <= i < n ==> s[..n][i] == s[i];
      assert s[n] !in s[..n];
    }
  }

  // ---------------------------------------------------------------- decimal numerals (%d)

  function Digit(d: nat): (c: char)
    requires d < 10
    ensures '0' <= c <= '9'
    ensures c as int == '0' as int + d
  {
    ('0' as int + d) as char
  }

  function Decimal(n: nat): (s: string)
    ensures |s| > 0 && forall k :: 0 <= k < |s| ==> '0' <= s[k] <= '9'
  {
    if n < 10 then [Digit(n)] else Decimal(n / 10) + [Digit(n % 10)]
  }

  lemma {:induction false} DecimalInjective(m: nat, n: nat)
    requires Decimal(m) == Decimal(n)
    ensures m == n
    decreases m
  {
    var a, b := Decimal(m), Decimal(n);
    assert a[|a| - 1] == Digit(m % 10) && b[|b| - 1] == Digit(n % 10);
    if m >= 10 && n >= 10 {
      assert a[..|a| - 1] == Decimal(m / 10);
      assert b[..|b| - 1] == Decimal(n / 10);
      DecimalInjective(m / 10, n / 10);
    }
  }

  // ---------------------------------------------------------------- strings cut at a separator

  ghost predicate Lacks(s: string, c: char) {
    forall k :: 0 <= k < |s| ==> s[k] != c
  }

  /** Cutting at the first separator is unambiguous: the part before it lacks the separator. */
  lemma {:induction false} CutAtSeparator(a: string, x: string, b: string, y: string, c: char)
    requires Lacks(a, c) && Lacks(b, c)
    requires a + [c] + x == b + [c] + y
    ensures a == b && x == y
  {
    var s := a + [c] + x;
    assert s[|a|] == s[|b|] == c;
    assert forall k :: 0 <= k < |a| ==> s[k] == a[k];
    assert forall k :: 0 <= k < |b| ==> s[k] == b[k];
    assert |a| == |b|;
    assert a == s[..|a|] == b;
    assert x == s[|a| + 1..] == y;
  }
}
