/**
 * The array operations the components use on their lists: `filter`,
 * `Array.from(new Set(xs))`, `findIndex`, and the order-preservation
 * property ("is a subsequence of") that filtering promises.
 */
module Collections {

  /** `a` can be obtained from `b` by deleting elements, keeping the order of the rest. */
  predicate IsSubsequence<T(==)>(a: seq<T>, b: seq<T>)
    decreases |b|
  {
    a == [] || (b != [] && if a[0] == b[0] then IsSubsequence(a[1..], b[1..]) else IsSubsequence(a, b[1..]))
  }

  /** Any sequence is a subsequence of itself. */
  lemma {:induction false} SubsequenceReflexive<T>(s: seq<T>)
    ensures IsSubsequence(s, s)
  {
    if s != [] { SubsequenceReflexive(s[1..]); }
  }

  /** Dropping one position leaves a subsequence. */
  lemma {:induction false} SkipOneIsSubsequence<T>(s: seq<T>, i: nat)
    requires i < |s|
    ensures IsSubsequence(s[..i] + s[i + 1..], s)
  {
    if i == 0 {
      assert s[..0] + s[1..] == s[1..];
      SubsequenceReflexive(s[1..]);
      SubsequenceOfTail(s[1..], s);
    } else {
      SkipOneIsSubsequence(s[1..], i - 1);
      assert s[..i] + s[i + 1..] == [s[0]] + (s[1..][..i - 1] + s[1..][i..]);
    }
  }

  /** A subsequence of the tail is a subsequence of the whole. */
  lemma {:induction false} SubsequenceOfTail<T>(a: seq<T>, s: seq<T>)
    requires s != [] && IsSubsequence(a, s[1..])
    ensures IsSubsequence(a, s)
    decreases |s|, 0
  {
    if a != [] && a[0] == s[0] {
      // Greedy matching may take s[0] for a[0]; the rest of `a` still fits into s[1..].
      SubsequenceDropHead(a, s[1..]);
    }
  }

  /** If `a` fits into `s`, then `a` without its first element also fits into `s`. */
  lemma {:induction false} SubsequenceDropHead<T>(a: seq<T>, s: seq<T>)
    requires a != [] && IsSubsequence(a, s)
    ensures IsSubsequence(a[1..], s)
    decreases |s|, 1
  {
    if a[0] == s[0] {
      SubsequenceOfTail(a[1..], s);
    } else {
      SubsequenceDropHead(a, s[1..]);
      SubsequenceOfTail(a[1..], s);
    }
  }

  /** Every element of a subsequence is an element of the whole. */
  lemma {:induction false} SubsequenceMember<T>(a: seq<T>, b: seq<T>, x: T)
    requires IsSubsequence(a, b) && x in a
    ensures x in b
    decreases |b|
  {
    if a[0] == b[0] {
      if x != a[0] {
        assert x in a[1..];
        SubsequenceMember(a[1..], b[1..], x);
      }
    } else {
      SubsequenceMember(a, b[1..], x);
    }
  }

  /** A prefix of a subsequence is still a subsequence. */
  lemma {:induction false} SubsequencePrefix<T>(a: seq<T>, b: seq<T>, k: nat)
    requires IsSubsequence(a, b) && k <= |a|
    ensures IsSubsequence(a[..k], b)
    decreases |b|
  {
    if k > 0 {
      if a[0] == b[0] {
        SubsequencePrefix(a[1..], b[1..], k - 1);
        assert a[..k][1..] == a[1..][..k - 1];
      } else {
        SubsequencePrefix(a, b[1..], k);
      }
    }
  }

  /** `s.map(f)`. */
  function Map<T, U>(s: seq<T>, f: T -> U): (r: seq<U>)
    ensures |r| == |s|
    ensures forall i :: 0 <= i < |s| ==> r[i] == f(s[i])
  {
    seq(|s|, i requires 0 <= i < |s| => f(s[i]))
  }

  /** `s.filter(p)`. */
  function Filter<T>(s: seq<T>, p: T -> bool): (r: seq<T>)
    ensures |r| <= |s|
    ensures forall x | x in r :: x in s && p(x)
    ensures forall x | x in s && p(x) :: x in r
  {
    if s == [] then [] else (if p(s[0]) then [s[0]] else []) + Filter(s[1..], p)
  }

  /** Filtering keeps the surviving elements in their original relative order. */
  lemma {:induction false} FilterIsSubsequence<T>(s: seq<T>, p: T -> bool)
    ensures IsSubsequence(Filter(s, p), s)
  {
    if s != [] {
      FilterIsSubsequence(s[1..], p);
      if p(s[0]) {
        assert Filter(s, p) == [s[0]] + Filter(s[1..], p);
      } else {
        assert Filter(s, p) == Filter(s[1..], p);
      }
    }
  }

  /** A filter that keeps everything returns the sequence unchanged. */
  lemma {:induction false} FilterAll<T>(s: seq<T>, p: T -> bool)
    requires forall x :: x in s ==> p(x)
    ensures Filter(s, p) == s
  {
    if s != [] {
      FilterAll(s[1..], p);
    }
  }

  /** Filtering distributes over concatenation. */
  lemma {:induction false} FilterAppend<T>(a: seq<T>, b: seq<T>, p: T -> bool)
    ensures Filter(a + b, p) == Filter(a, p) + Filter(b, p)
  {
    if a == [] {
      assert a + b == b;
    } else {
      assert (a + b)[1..] == a[1..] + b;
      FilterAppend(a[1..], b, p);
    }
  }

  /** A filter keeps every copy of a value it accepts and no copy of a value it rejects. */
  lemma {:induction false} FilterCount<T>(s: seq<T>, p: T -> bool, x: T)
    ensures multiset(Filter(s, p))[x] == if p(x) then multiset(s)[x] else 0
  {
    if s != [] {
      FilterCount(s[1..], p, x);
      assert s == [s[0]] + s[1..];
      assert multiset(s) == multiset{s[0]} + multiset(s[1..]);
      if p(s[0]) {
        assert Filter(s, p) == [s[0]] + Filter(s[1..], p);
        assert multiset(Filter(s, p)) == multiset{s[0]} + multiset(Filter(s[1..], p));
      } else {
        assert Filter(s, p) == Filter(s[1..], p);
      }
    }
  }

  /**
   * The first `k` values a filter keeps are what it keeps of some prefix of
   * the input; when `k` is all it keeps, the prefix is the whole input.
   */
  lemma {:induction false} FilterPrefixCut<T>(s: seq<T>, p: T -> bool, k: nat) returns (m: nat)
    requires k <= |Filter(s, p)|
    ensures m <= |s|
    ensures Filter(s, p)[..k] == Filter(s[..m], p)
    ensures k == |Filter(s, p)| ==> m == |s|
  {
    if s == [] {
      m := 0;
    } else if k == 0 && k < |Filter(s, p)| {
      m := 0;
      assert s[..m] == [];
    } else if p(s[0]) {
      FilterKeptHead(s, p);
      var m' := FilterPrefixCut(s[1..], p, k - 1);
      m := m' + 1;
      CutStepKept(s, p, k, m');
    } else {
      FilterDroppedHead(s, p);
      var m' := FilterPrefixCut(s[1..], p, k);
      m := m' + 1;
      CutStepDropped(s, p, k, m');
    }
  }

  /** A kept head stays in front of what the filter keeps of the tail. */
  lemma FilterKeptHead<T>(s: seq<T>, p: T -> bool)
    requires s != [] && p(s[0])
    ensures Filter(s, p) == [s[0]] + Filter(s[1..], p)
  {
  }

  /** A dropped head leaves what the filter keeps of the tail. */
  lemma FilterDroppedHead<T>(s: seq<T>, p: T -> bool)
    requires s != [] && !p(s[0])
    ensures Filter(s, p) == Filter(s[1..], p)
  {
  }

  /** One step of `FilterPrefixCut` past a head the filter keeps. */
  lemma CutStepKept<T>(s: seq<T>, p: T -> bool, k: nat, m: nat)
    requires s != [] && p(s[0]) && 1 <= k <= |Filter(s, p)|
    requires Filter(s, p) == [s[0]] + Filter(s[1..], p)
    requires m <= |s[1..]| && Filter(s[1..], p)[..k - 1] == Filter(s[1..][..m], p)
    requires k - 1 == |Filter(s[1..], p)| ==> m == |s[1..]|
    ensures m + 1 <= |s|
    ensures Filter(s, p)[..k] == Filter(s[..m + 1], p)
    ensures k == |Filter(s, p)| ==> m + 1 == |s|
  {
    FilterLongerPrefix(s, p, m);
    assert Filter(s, p)[..k] == [s[0]] + Filter(s[1..], p)[..k - 1];
  }

  /** One step of `FilterPrefixCut` past a head the filter drops. */
  lemma CutStepDropped<T>(s: seq<T>, p: T -> bool, k: nat, m: nat)
    requires s != [] && !p(s[0]) && k <= |Filter(s, p)|
    requires Filter(s, p) == Filter(s[1..], p)
    requires m <= |s[1..]| && Filter(s[1..], p)[..k] == Filter(s[1..][..m], p)
    requires k == |Filter(s[1..], p)| ==> m == |s[1..]|
    ensures m + 1 <= |s|
    ensures Filter(s, p)[..k] == Filter(s[..m + 1], p)
    ensures k == |Filter(s, p)| ==> m + 1 == |s|
  {
    FilterLongerPrefix(s, p, m);
  }

  /** Filtering a prefix one longer than a prefix of the tail: the head's fate, then the tail's prefix. */
  lemma FilterLongerPrefix<T>(s: seq<T>, p: T -> bool, m: nat)
    requires m < |s|
    ensures Filter(s[..m + 1], p) == (if p(s[0]) then [s[0]] else []) + Filter(s[1..][..m], p)
  {
    assert s[..m + 1][1..] == s[1..][..m];
  }

  /** No value occurs twice. */
  predicate NoDuplicates<T(==)>(s: seq<T>) {
    forall i, j :: 0 <= i < j < |s| ==> s[i] != s[j]
  }

  /** The index of the first occurrence of `x` in `s`. */
  function FirstIndex<T(==)>(s: seq<T>, x: T): (k: nat)
    requires x in s
    ensures k < |s| && s[k] == x && x !in s[..k]
  {
    if s[0] == x then 0
    else
      var k := 1 + FirstIndex(s[1..], x);
      assert s[..k] == [s[0]] + s[1..][..k - 1];
      k
  }

  /** Appending an element does not move the first occurrence of a value already present. */
  lemma FirstIndexAppend<T>(s: seq<T>, y: T, x: T)
    requires x in s
    ensures FirstIndex(s + [y], x) == FirstIndex(s, x)
  {
    var k, k' := FirstIndex(s, x), FirstIndex(s + [y], x);
    assert (s + [y])[..k'] == s[..k'] || k' == |s|;
  }

  /** `Array.from(new Set(s))`: every value of `s` once, in order of first occurrence. */
  function Distinct<T(==)>(s: seq<T>): (r: seq<T>)
    ensures forall x | x in r :: x in s
    ensures forall x | x in s :: x in r
    ensures NoDuplicates(r)
  {
    if s == [] then []
    else
      var init, last := s[..|s| - 1], s[|s| - 1];
      assert s == init + [last];
      var d := Distinct(init);
      if last in d then d else d + [last]
  }

  /** The distinct values appear in the order in which `s` first mentions them. */
  lemma {:induction false} DistinctFirstOccurrenceOrder<T>(s: seq<T>)
    ensures forall i, j :: 0 <= i < j < |Distinct(s)| ==> FirstIndex(s, Distinct(s)[i]) < FirstIndex(s, Distinct(s)[j])
  {
    if s != [] {
      var init, last := s[..|s| - 1], s[|s| - 1];
      assert s == init + [last];
      DistinctFirstOccurrenceOrder(init);
      var d := Distinct(init);
      forall x | x in init ensures FirstIndex(s, x) == FirstIndex(init, x) {
        FirstIndexAppend(init, last, x);
      }
      if last !in d {
        assert last !in init;
        assert FirstIndex(s, last) == |init|;
      }
    }
  }

  /** `s.findIndex(pred)`: the first index whose element satisfies `p`, or -1. */
  function FindIndex<T>(s: seq<T>, p: T -> bool): (k: int)
    ensures -1 <= k < |s|
    ensures k == -1 <==> forall i :: 0 <= i < |s| ==> !p(s[i])
    ensures k >= 0 ==> p(s[k]) && forall i :: 0 <= i < k ==> !p(s[i])
  {
    if s == [] then -1
    else if p(s[0]) then 0
    else
      var k := FindIndex(s[1..], p);
      if k == -1 then -1 else k + 1
  }
}
