/** Small helpers shared by every component: an optional value, JavaScript
    numbers, sequence filtering and stable sorting, and the string operations
    (`toLowerCase`, `trim`, `includes`) the application relies on. */
module Common {

  datatype Option<+T> = None | Some(value: T)

  /** A JavaScript number as produced by `parseFloat`: either NaN or a value.
      Infinities and float rounding are not modelled. */
  datatype Num = NaN | Val(v: real)

  /** JavaScript truthiness of a number: NaN and 0 are falsy. */
  predicate Truthy(n: Num) {
    n.Val? && n.v != 0.0
  }

  // ---- Sequences ----

  /** `r` is `s` with some elements deleted: the elements of `r` occur in
      `s` in the same order. */
  predicate Subsequence<T(==)>(r: seq<T>, s: seq<T>)
    decreases |s|
  {
    r == [] || (s != [] && ((r[0] == s[0] && Subsequence(r[1..], s[1..])) || Subsequence(r, s[1..])))
  }

  /** Every sequence is a sub-sequence of itself. */
  lemma {:induction false} SubsequenceRefl<T>(s: seq<T>)
    ensures Subsequence(s, s)
    decreases |s|
  {
    if s != [] {
      SubsequenceRefl(s[1..]);
    }
  }

  /** A sub-sequence holds each value at most as often as the whole. */
  lemma {:induction false} SubsequenceCounts<T>(r: seq<T>, s: seq<T>)
    requires Subsequence(r, s)
    ensures multiset(r) <= multiset(s)
    decreases |s|
  {
    if r != [] {
      assert s == [s[0]] + s[1..];
      if r[0] == s[0] && Subsequence(r[1..], s[1..]) {
        SubsequenceCounts(r[1..], s[1..]);
        assert r == [r[0]] + r[1..];
      } else {
        SubsequenceCounts(r, s[1..]);
      }
    }
  }

  /** `Array.prototype.filter`: the elements satisfying `p`, in order. */
  function Filter<T(!new)>(s: seq<T>, p: T -> bool): (r: seq<T>)
    ensures |r| <= |s|
    ensures forall x :: x in r <==> x in s && p(x)
    ensures multiset(r) <= multiset(s)
    ensures Subsequence(r, s)
    decreases |s|
  {
    if s == [] then []
    else
      var rest := Filter(s[1..], p);
      assert s == [s[0]] + s[1..];
      if p(s[0]) then [s[0]] + rest else rest
  }

  /** Filtering one element keeps it exactly when it passes. */
  lemma FilterSingle<T(!new)>(x: T, p: T -> bool)
    ensures Filter([x], p) == if p(x) then [x] else []
  {
    assert [x][1..] == [];
  }

  /** Filtering a concatenation filters each part and keeps them in order. */
  lemma {:induction false} FilterAppend<T(!new)>(a: seq<T>, b: seq<T>, p: T -> bool)
    ensures Filter(a + b, p) == Filter(a, p) + Filter(b, p)
    decreases |a|
  {
    if a == [] {
      assert a + b == b;
    } else {
      assert (a + b)[1..] == a[1..] + b;
      FilterAppend(a[1..], b, p);
    }
  }

  /** The filter is the only sub-sequence of passing elements that keeps
      every copy of each passing value. */
  lemma {:induction false} FilterIsTheSubsequence<T(!new)>(r: seq<T>, s: seq<T>, p: T -> bool)
    requires Subsequence(r, s)
    requires forall i :: 0 <= i < |r| ==> p(r[i])
    requires forall x :: p(x) ==> multiset(r)[x] == multiset(s)[x]
    ensures r == Filter(s, p)
    decreases |s|
  {
    if s == [] {
    } else {
      var x, t := s[0], s[1..];
      assert s == [x] + t;
      if r != [] {
        assert r == [r[0]] + r[1..];
      }
      if p(x) {
        if r == [] {
          assert false;
        } else if r[0] != x || !Subsequence(r[1..], t) {
          assert Subsequence(r, t);
          SubsequenceCounts(r, t);
          assert false;
        }
        FilterIsTheSubsequence(r[1..], t, p);
      } else {
        assert r != [] ==> r[0] != x by {
          if r != [] {
            assert p(r[0]);
          }
        }
        assert Subsequence(r, t);
        FilterIsTheSubsequence(r, t, p);
      }
    }
  }

  /** Filtering with a predicate every element satisfies keeps the sequence. */
  lemma {:induction false} FilterKeepsAll<T(!new)>(s: seq<T>, p: T -> bool)
    ensures (forall i :: 0 <= i < |s| ==> p(s[i])) ==> Filter(s, p) == s
    decreases |s|
  {
    if s != [] {
      FilterKeepsAll(s[1..], p);
    }
  }

  /** Filtering keeps every copy of an element that satisfies the predicate. */
  lemma {:induction false} FilterCounts<T(!new)>(s: seq<T>, p: T -> bool)
    ensures forall x :: p(x) ==> multiset(Filter(s, p))[x] == multiset(s)[x]
    decreases |s|
  {
    if s != [] {
      FilterCounts(s[1..], p);
      assert s == [s[0]] + s[1..];
    }
  }

  /** True when the sequence never holds the same element twice. */
  predicate NoDup<T(==)>(s: seq<T>) {
    forall i, j :: 0 <= i < j < |s| ==> s[i] != s[j]
  }

  /** `FilterNoDup` as an implication, for use inside expressions. */
  lemma FilterNoDupWhen<T(!new)>(s: seq<T>, p: T -> bool)
    ensures NoDup(s) ==> NoDup(Filter(s, p))
  {
    if NoDup(s) {
      FilterNoDup(s, p);
    }
  }

  /** Filtering a sequence without duplicates leaves none. */
  lemma {:induction false} FilterNoDup<T(!new)>(s: seq<T>, p: T -> bool)
    requires NoDup(s)
    ensures NoDup(Filter(s, p))
    decreases |s|
  {
    if s != [] {
      var tail := s[1..];
      assert NoDup(tail) by {
        forall i, j | 0 <= i < j < |tail|
          ensures tail[i] != tail[j]
        {
          assert tail[i] == s[i + 1] && tail[j] == s[j + 1];
        }
      }
      FilterNoDup(tail, p);
      assert s[0] !in tail by {
        forall k | 0 <= k < |tail|
          ensures tail[k] != s[0]
        {
          assert tail[k] == s[k + 1];
        }
      }
      var rest := Filter(tail, p);
      if p(s[0]) {
        assert s[0] !in rest;
        var r := [s[0]] + rest;
        forall i, j | 0 <= i < j < |r|
          ensures r[i] != r[j]
        {
          if i == 0 {
            assert r[j] == rest[j - 1];
          } else {
            assert r[i] == rest[i - 1] && r[j] == rest[j - 1];
          }
        }
      }
    }
  }

  /** Sorted ascending by an integer key. */
  predicate SortedBy<T>(s: seq<T>, key: T -> int) {
    forall i, j :: 0 <= i < j < |s| ==> key(s[i]) <= key(s[j])
  }

  /** Inserts `x` into a sorted sequence after every element whose key is not
      greater than its own, which is what keeps `SortBy` stable. */
  function Insert<T>(x: T, s: seq<T>, key: T -> int): (r: seq<T>)
    requires SortedBy(s, key)
    ensures SortedBy(r, key)
    ensures multiset(r) == multiset(s) + multiset{x}
    ensures |r| == |s| + 1
    decreases |s|
  {
    if s == [] then [x]
    else if key(s[|s| - 1]) <= key(x) then s + [x]
    else
      var init := s[..|s| - 1];
      var last := s[|s| - 1];
      assert s == init + [last];
      var r0 := Insert(x, init, key);
      BoundedByLast(r0, init, x, last, key);
      r0 + [last]
  }

  /** Helper for `Insert`: every element of a permutation of `init + [x]` has
      a key no greater than `last`'s, when `x` and `init` do. */
  lemma BoundedByLast<T>(r0: seq<T>, init: seq<T>, x: T, last: T, key: T -> int)
    requires multiset(r0) == multiset(init) + multiset{x}
    requires forall i :: 0 <= i < |init| ==> key(init[i]) <= key(last)
    requires key(x) < key(last)
    ensures forall i :: 0 <= i < |r0| ==> key(r0[i]) <= key(last)
  {
    forall i | 0 <= i < |r0|
      ensures key(r0[i]) <= key(last)
    {
      assert r0[i] in multiset(r0);
      if r0[i] != x {
        assert r0[i] in multiset(init);
        assert r0[i] in init;
      }
    }
  }

  /** A stable sort by an integer key (JavaScript's `Array.prototype.sort` is
      stable), written as insertion sort from the back. */
  function SortBy<T>(s: seq<T>, key: T -> int): (r: seq<T>)
    ensures SortedBy(r, key)
    ensures multiset(r) == multiset(s)
    ensures |r| == |s|
    decreases |s|
  {
    if s == [] then []
    else
      var init := s[..|s| - 1];
      assert s == init + [s[|s| - 1]];
      Insert(s[|s| - 1], SortBy(init, key), key)
  }

  /** Sorting a sequence that is already sorted leaves it as it is. */
  lemma {:induction false} SortBySorted<T>(s: seq<T>, key: T -> int)
    requires SortedBy(s, key)
    ensures SortBy(s, key) == s
    decreases |s|
  {
    if s != [] {
      var init, x := s[..|s| - 1], s[|s| - 1];
      assert s == init + [x];
      assert SortedBy(init, key);
      SortBySorted(init, key);
      if init != [] {
        assert key(init[|init| - 1]) <= key(x);
      }
    }
  }

  /** Inserting an element whose key is at least every key of a sorted
      sequence appends it. */
  lemma InsertAbove<T>(x: T, s: seq<T>, key: T -> int)
    requires SortedBy(s, key)
    requires forall i :: 0 <= i < |s| ==> key(s[i]) <= key(x)
    ensures Insert(x, s, key) == s + [x]
  {
  }

  /** Appending elements whose keys lie above every key of `a`, in
      ascending order, commutes with sorting: they stay at the end. */
  lemma {:induction false} SortByAppendAbove<T>(a: seq<T>, b: seq<T>, key: T -> int)
    requires SortedBy(b, key)
    requires b != [] ==> forall i :: 0 <= i < |a| ==> key(a[i]) < key(b[0])
    ensures SortBy(a + b, key) == SortBy(a, key) + b
    decreases |b|
  {
    if b == [] {
      assert a + b == a;
    } else {
      var binit := b[..|b| - 1];
      SortedDropLast(b, key);
      SortByAppendAbove(a, binit, key);
      AppendAboveStep(a, b, key);
    }
  }

  /** The sorted prefix of a sorted sequence, and its bound by the last key. */
  lemma SortedDropLast<T>(b: seq<T>, key: T -> int)
    requires b != [] && SortedBy(b, key)
    ensures SortedBy(b[..|b| - 1], key)
    ensures |b| > 1 ==> b[..|b| - 1][0] == b[0]
    ensures forall j :: 0 <= j < |b| - 1 ==> key(b[j]) <= key(b[|b| - 1])
    ensures key(b[0]) <= key(b[|b| - 1])
  {
  }

  /** The inductive step of `SortByAppendAbove`. */
  lemma AppendAboveStep<T>(a: seq<T>, b: seq<T>, key: T -> int)
    requires b != []
    requires forall j :: 0 <= j < |b| - 1 ==> key(b[j]) <= key(b[|b| - 1])
    requires key(b[0]) <= key(b[|b| - 1])
    requires forall i :: 0 <= i < |a| ==> key(a[i]) < key(b[0])
    requires SortBy(a + b[..|b| - 1], key) == SortBy(a, key) + b[..|b| - 1]
    ensures SortBy(a + b, key) == SortBy(a, key) + b
  {
    SortByUnfoldAppend(a, b, key);
    var sa := SortBy(a, key);
    KeysBelow(a, sa, key(b[0]), key);
    InsertLastAbove(sa, b, key);
    SplitLast(sa, b);
  }

  /** The last element of `b` lands at the end of `sa + b[..|b| - 1]`. */
  lemma InsertLastAbove<T>(sa: seq<T>, b: seq<T>, key: T -> int)
    requires b != []
    requires SortedBy(sa + b[..|b| - 1], key)
    requires forall i :: 0 <= i < |sa| ==> key(sa[i]) < key(b[0])
    requires forall j :: 0 <= j < |b| - 1 ==> key(b[j]) <= key(b[|b| - 1])
    requires key(b[0]) <= key(b[|b| - 1])
    ensures Insert(b[|b| - 1], sa + b[..|b| - 1], key) == sa + b[..|b| - 1] + [b[|b| - 1]]
  {
    var binit := b[..|b| - 1];
    var last := b[|b| - 1];
    ConcatBelow(sa, binit, key(last), key);
    InsertAbove(last, sa + binit, key);
  }

  /** `x + b` written with the last element of `b` split off. */
  lemma SplitLast<T>(x: seq<T>, b: seq<T>)
    requires b != []
    ensures x + b[..|b| - 1] + [b[|b| - 1]] == x + b
  {
    assert b[..|b| - 1] + [b[|b| - 1]] == b;
  }

  /** One unfolding of `SortBy`. */
  lemma SortByUnfold<T>(s: seq<T>, key: T -> int)
    requires s != []
    ensures SortBy(s, key) == Insert(s[|s| - 1], SortBy(s[..|s| - 1], key), key)
  {
  }

  /** One unfolding of `SortBy` on `a + b` for a non-empty `b`. */
  lemma SortByUnfoldAppend<T>(a: seq<T>, b: seq<T>, key: T -> int)
    requires b != []
    ensures SortBy(a + b, key) == Insert(b[|b| - 1], SortBy(a + b[..|b| - 1], key), key)
  {
    SortByUnfold(a + b, key);
    DropLastAppend(a, b);
  }

  /** Dropping the last element of `a + b` drops it from `b`. */
  lemma DropLastAppend<T>(a: seq<T>, b: seq<T>)
    requires b != []
    ensures (a + b)[..|a + b| - 1] == a + b[..|b| - 1]
    ensures (a + b)[|a + b| - 1] == b[|b| - 1]
  {
  }

  /** A permutation keeps every key below a common bound. */
  lemma KeysBelow<T>(a: seq<T>, sa: seq<T>, bound: int, key: T -> int)
    requires multiset(sa) == multiset(a)
    requires forall i :: 0 <= i < |a| ==> key(a[i]) < bound
    ensures forall i :: 0 <= i < |sa| ==> key(sa[i]) < bound
  {
    forall i | 0 <= i < |sa|
      ensures key(sa[i]) < bound
    {
      assert sa[i] in multiset(a);
    }
  }

  /** Keys of a concatenation stay below a bound both parts stay below. */
  lemma ConcatBelow<T>(x: seq<T>, y: seq<T>, bound: int, key: T -> int)
    requires forall i :: 0 <= i < |x| ==> key(x[i]) <= bound
    requires forall j :: 0 <= j < |y| ==> key(y[j]) <= bound
    ensures forall i :: 0 <= i < |x + y| ==> key((x + y)[i]) <= bound
  {
  }

  // ---- Strings ----

  /** `String.prototype.toLowerCase` on one character, for the ASCII and
      Latin-1 letters; every other character is returned unchanged. */
  function LowerChar(c: char): char {
    if 'A' <= c <= 'Z' then (c as int + 32) as char
    else if 'À' <= c <= 'Þ' && c != '×' then (c as int + 32) as char
    else c
  }

  function Lower(s: string): (r: string)
    ensures |r| == |s|
    ensures forall i :: 0 <= i < |s| ==> r[i] == LowerChar(s[i])
  {
    seq(|s|, i requires 0 <= i < |s| => LowerChar(s[i]))
  }

  /** White space as `String.prototype.trim` sees it: the ECMAScript
      WhiteSpace characters (tab, vertical tab, form feed, byte-order mark
      and the Unicode space separators) and the LineTerminator characters. */
  predicate IsSpace(c: char) {
    c == '\t' || c == '\U{000B}' || c == '\U{000C}' || c == '\U{FEFF}'
    || c == ' ' || c == '\U{00A0}' || c == '\U{1680}' || '\U{2000}' <= c <= '\U{200A}'
    || c == '\U{202F}' || c == '\U{205F}' || c == '\U{3000}'
    || c == '\n' || c == '\r' || c == '\U{2028}' || c == '\U{2029}'
  }

  function TrimStart(s: string): (r: string)
    ensures |r| <= |s| && r == s[|s| - |r|..]
    ensures r == [] || !IsSpace(r[0])
    ensures forall i :: 0 <= i < |s| - |r| ==> IsSpace(s[i])
    decreases |s|
  {
    if s != [] && IsSpace(s[0]) then TrimStart(s[1..]) else s
  }

  function TrimEnd(s: string): (r: string)
    ensures |r| <= |s| && r == s[..|r|]
    ensures r == [] || !IsSpace(r[|r| - 1])
    ensures forall i :: |r| <= i < |s| ==> IsSpace(s[i])
    decreases |s|
  {
    if s != [] && IsSpace(s[|s| - 1]) then TrimEnd(s[..|s| - 1]) else s
  }

  /** `String.prototype.trim`. */
  function Trim(s: string): (r: string)
    ensures |r| <= |s|
    ensures r == [] || (!IsSpace(r[0]) && !IsSpace(r[|r| - 1]))
    ensures r == [] <==> forall i :: 0 <= i < |s| ==> IsSpace(s[i])
  {
    var a := TrimStart(s);
    var b := TrimEnd(a);
    assert b != [] ==> b[0] == a[0];
    assert a != [] ==> b != [];
    b
  }

  /** Trimming is idempotent: a trimmed string has nothing left to trim. */
  lemma TrimIdempotent(s: string)
    ensures Trim(Trim(s)) == Trim(s)
  {
    var t := Trim(s);
    assert TrimStart(t) == t;
    assert TrimEnd(t) == t;
  }

  /** `String.prototype.includes`: `sub` occurs in `s` at some position. */
  predicate Contains(s: string, sub: string) {
    exists k :: 0 <= k <= |s| - |sub| && SubstringAt(s, sub, k)
  }

  /** `sub` occurs in `s` starting at position `k`. */
  predicate SubstringAt(s: string, sub: string, k: int) {
    0 <= k <= |s| - |sub| && s[k..k + |sub|] == sub
  }

  /** The key under which ingredients and recipe names are compared:
      lower-cased, then trimmed. */
  function NormalKey(s: string): string {
    Trim(Lower(s))
  }
}
