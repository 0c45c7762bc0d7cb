/** The string operations of the Go library that the model needs: trimming and
    the byte order of strings, which on valid text is the order of code points. */
module Text {
  /** The white space of strings.TrimSpace. */
  predicate IsSpace(c: char) {
    '\t' <= c <= '\r' || c == ' ' || c == '\U{85}' || c == '\U{A0}' || c == '\U{1680}'
    || '\U{2000}' <= c <= '\U{200A}' || c == '\U{2028}' || c == '\U{2029}' || c == '\U{202F}'
    || c == '\U{205F}' || c == '\U{3000}'
  }

  function TrimLeft(s: string): string {
    if s != "" && IsSpace(s[0]) then TrimLeft(s[1..]) else s
  }

  function TrimRight(s: string): string {
    if s != "" && IsSpace(s[|s| - 1]) then TrimRight(s[..|s| - 1]) else s
  }

  function TrimSpace(s: string): string {
    TrimRight(TrimLeft(s))
  }

  lemma {:induction false} TrimLeftEnds(s: string)
    ensures TrimLeft(s) == "" || !IsSpace(TrimLeft(s)[0])
    ensures s != "" && !IsSpace(s[|s| - 1]) ==> TrimLeft(s) != "" && TrimLeft(s)[|TrimLeft(s)| - 1] == s[|s| - 1]
  {
    if s != "" && IsSpace(s[0]) {
      TrimLeftEnds(s[1..]);
    }
  }

  lemma {:induction false} TrimRightEnds(s: string)
    ensures TrimRight(s) == "" || !IsSpace(TrimRight(s)[|TrimRight(s)| - 1])
    ensures s != "" && !IsSpace(s[0]) ==> TrimRight(s) != "" && TrimRight(s)[0] == s[0]
  {
    if s != "" && IsSpace(s[|s| - 1]) {
      TrimRightEnds(s[..|s| - 1]);
    }
  }

  /** Trimming trimmed text changes nothing. */
  lemma TrimSpaceIdempotent(s: string)
    ensures TrimSpace(TrimSpace(s)) == TrimSpace(s)
  {
    TrimLeftEnds(s);
    TrimRightEnds(TrimLeft(s));
  }

  /** r is s without the blanks at its ends: what is cut is blank, and what is left starts and
      ends with something else. */
  ghost predicate IsTrimmed(s: string, r: string) {
    exists i, j :: 0 <= i <= j <= |s| && r == s[i..j]
      && (forall k :: 0 <= k < i || j <= k < |s| ==> IsSpace(s[k]))
      && (i < j ==> !IsSpace(s[i]) && !IsSpace(s[j - 1]))
  }

  lemma {:induction false} TrimLeftCuts(s: string) returns (i: nat)
    ensures i <= |s| && TrimLeft(s) == s[i..] && forall k :: 0 <= k < i ==> IsSpace(s[k])
  {
    i := 0;
    if s != "" && IsSpace(s[0]) {
      var j := TrimLeftCuts(s[1..]);
      assert forall k :: 0 < k < j + 1 ==> s[k] == s[1..][k - 1];
      i := j + 1;
    }
  }

  lemma {:induction false} TrimRightCuts(s: string) returns (j: nat)
    ensures j <= |s| && TrimRight(s) == s[..j] && forall k :: j <= k < |s| ==> IsSpace(s[k])
  {
    j := |s|;
    if s != "" && IsSpace(s[|s| - 1]) {
      j := TrimRightCuts(s[..|s| - 1]);
    }
  }

  /** Trimming takes the blanks off both ends, all of them and nothing else. */
  lemma TrimSpaceTrims(s: string)
    ensures IsTrimmed(s, TrimSpace(s))
  {
    var i := TrimLeftCuts(s);
    var j := TrimRightCuts(s[i..]);
    TrimLeftEnds(s);
    TrimRightEnds(s[i..]);
    assert TrimSpace(s) == s[i..i + j];
    assert forall k :: 0 <= k < |s[i..]| ==> s[i + k] == s[i..][k];
    assert j == 0 ==> i == |s|;
  }

  /** The order of Go strings. */
  predicate Less(a: string, b: string) {
    b != "" && (a == "" || a[0] < b[0] || (a[0] == b[0] && Less(a[1..], b[1..])))
  }

  /** At the first difference the smaller character decides; a proper beginning comes first. */
  lemma {:induction false} LessIsLexicographic(a: string, b: string)
    ensures Less(a, b) <==>
            exists k :: 0 <= k <= |a| && k < |b| && a[..k] == b[..k] && (k == |a| || a[k] < b[k])
  {
    if a != "" && b != "" {
      assert a == [a[0]] + a[1..] && b == [b[0]] + b[1..];
      if a[0] == b[0] {
        LessIsLexicographic(a[1..], b[1..]);
        if Less(a, b) {
          var k :| 0 <= k <= |a[1..]| && k < |b[1..]| && a[1..][..k] == b[1..][..k]
                   && (k == |a[1..]| || a[1..][k] < b[1..][k]);
          assert a[..k + 1] == [a[0]] + a[1..][..k] && b[..k + 1] == [b[0]] + b[1..][..k];
        }
        if k :| 0 <= k <= |a| && k < |b| && a[..k] == b[..k] && (k == |a| || a[k] < b[k]) {
          assert k > 0 && a[1..][..k - 1] == a[..k][1..] && b[1..][..k - 1] == b[..k][1..];
        }
      } else {
        assert a[..0] == b[..0];
        assert forall k :: 0 < k <= |a| && k <= |b| ==> a[..k][0] == a[0] && b[..k][0] == b[0];
      }
    } else if b != "" {
      assert a[..0] == b[..0];
    }
  }

  lemma {:induction false} LessTotal(a: string, b: string)
    ensures Less(a, b) || a == b || Less(b, a)
    ensures !(Less(a, b) && Less(b, a)) && !(Less(a, b) && a == b)
  {
    if a != "" && b != "" && a[0] == b[0] {
      LessTotal(a[1..], b[1..]);
      assert a == [a[0]] + a[1..] && b == [b[0]] + b[1..];
    }
  }

  lemma {:induction false} LessTransitive(a: string, b: string, c: string)
    requires Less(a, b) && Less(b, c)
    ensures Less(a, c)
  {
    if a != "" && a[0] == b[0] && b[0] == c[0] {
      LessTransitive(a[1..], b[1..], c[1..]);
    }
  }

  // ---------------------------------------------------------------- sorting by a key

  /** The key of a list of plain strings. */
  function Self(s: string): string {
    s
  }

  predicate SortedBy<T>(key: T -> string, xs: seq<T>) {
    forall i, j :: 0 <= i < j < |xs| ==> !Less(key(xs[j]), key(xs[i]))
  }

  predicate StrictlySortedBy<T>(key: T -> string, xs: seq<T>) {
    forall i, j :: 0 <= i < j < |xs| ==> Less(key(xs[i]), key(xs[j]))
  }

  function InsertBy<T>(key: T -> string, x: T, xs: seq<T>): seq<T> {
    if xs == [] || !Less(key(xs[0]), key(x)) then [x] + xs
    else [xs[0]] + InsertBy(key, x, xs[1..])
  }

  /** sort.Slice and sort.Strings. */
  function SortBy<T>(key: T -> string, xs: seq<T>): seq<T> {
    if xs == [] then [] else InsertBy(key, xs[0], SortBy(key, xs[1..]))
  }

  lemma {:induction false} InsertByElements<T(!new)>(key: T -> string, x: T, xs: seq<T>)
    ensures multiset(InsertBy(key, x, xs)) == multiset(xs) + multiset{x}
  {
    if xs != [] && Less(key(xs[0]), key(x)) {
      InsertByElements(key, x, xs[1..]);
      assert xs == [xs[0]] + xs[1..];
    }
  }

  lemma {:induction false} InsertBySorts<T(!new)>(key: T -> string, x: T, xs: seq<T>)
    requires SortedBy(key, xs)
    ensures SortedBy(key, InsertBy(key, x, xs))
    ensures InsertBy(key, x, xs)[0] == x || (xs != [] && InsertBy(key, x, xs)[0] == xs[0])
  {
    if xs == [] {
    } else if Less(key(xs[0]), key(x)) {
      InsertBySorts(key, x, xs[1..]);
      LessTotal(key(xs[0]), key(x));
      HeadBelow(key, xs[0], InsertBy(key, x, xs[1..]));
    } else {
      HeadBelow(key, x, xs);
    }
  }

  /** Putting something not above the head in front of a sorted list keeps it sorted. */
  lemma HeadBelow<T(!new)>(key: T -> string, x: T, xs: seq<T>)
    requires SortedBy(key, xs) && (xs != [] ==> !Less(key(xs[0]), key(x)))
    ensures SortedBy(key, [x] + xs)
  {
    forall j | 0 <= j < |xs| ensures !Less(key(xs[j]), key(x)) {
      LessTotal(key(xs[0]), key(xs[j]));
      if Less(key(xs[0]), key(xs[j])) && Less(key(xs[j]), key(x)) {
        LessTransitive(key(xs[0]), key(xs[j]), key(x));
      }
    }
  }

  lemma {:induction false} SortBySorts<T(!new)>(key: T -> string, xs: seq<T>)
    ensures SortedBy(key, SortBy(key, xs)) && multiset(SortBy(key, xs)) == multiset(xs)
  {
    if xs != [] {
      SortBySorts(key, xs[1..]);
      InsertBySorts(key, xs[0], SortBy(key, xs[1..]));
      InsertByElements(key, xs[0], SortBy(key, xs[1..]));
      assert xs == [xs[0]] + xs[1..];
    }
  }

  lemma {:induction false} InsertByStrict<T(!new)>(key: T -> string, x: T, xs: seq<T>)
    requires StrictlySortedBy(key, xs) && forall y :: y in xs ==> key(y) != key(x)
    ensures StrictlySortedBy(key, InsertBy(key, x, xs))
    ensures forall y :: y in InsertBy(key, x, xs) <==> y == x || y in xs
  {
    if xs != [] {
      LessTotal(key(xs[0]), key(x));
      assert xs[0] in xs;
      if Less(key(xs[0]), key(x)) {
        InsertByStrict(key, x, xs[1..]);
        var tail := InsertBy(key, x, xs[1..]);
        assert xs == [xs[0]] + xs[1..];
        forall j | 0 <= j < |tail| ensures Less(key(xs[0]), key(tail[j])) {
          var y := tail[j];
          assert y in tail;
          assert y == x || y in xs[1..];
          if tail[j] != x {
            assert tail[j] in xs[1..];
            var k :| 0 <= k < |xs[1..]| && xs[1..][k] == tail[j];
            assert Less(key(xs[0]), key(xs[k + 1]));
          }
        }
      } else {
        forall j | 0 <= j < |xs| ensures Less(key(x), key(xs[j])) {
          if j > 0 { LessTransitive(key(x), key(xs[0]), key(xs[j])); }
        }
      }
    }
  }

  /** Sorting a list with distinct keys gives a strictly sorted list of the same elements. */
  lemma {:induction false} SortByDistinct<T(!new)>(key: T -> string, xs: seq<T>)
    requires forall i, j :: 0 <= i < j < |xs| ==> key(xs[i]) != key(xs[j])
    ensures StrictlySortedBy(key, SortBy(key, xs))
    ensures forall x :: x in SortBy(key, xs) <==> x in xs
  {
    if xs != [] {
      SortByDistinct(key, xs[1..]);
      var sorted := SortBy(key, xs[1..]);
      forall y | y in sorted ensures key(y) != key(xs[0]) {
        assert y in xs[1..];
        var k :| 0 <= k < |xs[1..]| && xs[1..][k] == y;
        assert key(xs[0]) != key(xs[k + 1]);
      }
      InsertByStrict(key, xs[0], SortBy(key, xs[1..]));
      assert xs == [xs[0]] + xs[1..];
    }
  }

  lemma HeadIsLeast<T(!new)>(key: T -> string, xs: seq<T>, x: T)
    requires StrictlySortedBy(key, xs) && x in xs
    ensures x == xs[0] || Less(key(xs[0]), key(x))
    ensures x in xs[1..] <==> x != xs[0]
  {
    var i :| 0 <= i < |xs| && xs[i] == x;
    LessTotal(key(xs[0]), key(xs[0]));
    assert xs == [xs[0]] + xs[1..];
    assert x in xs[1..] ==> Less(key(xs[0]), key(x)) by {
      if x in xs[1..] {
        var k :| 0 <= k < |xs[1..]| && xs[1..][k] == x;
        assert Less(key(xs[0]), key(xs[k + 1]));
      }
    }
  }

  lemma SameElementsSameEmptiness<T(!new)>(xs: seq<T>, ys: seq<T>)
    requires forall x :: x in xs <==> x in ys
    ensures xs == [] <==> ys == []
  {
    assert xs != [] ==> xs[0] in xs;
    assert ys != [] ==> ys[0] in ys;
  }

  /** A strictly sorted list is determined by its elements. */
  lemma {:induction false} StrictlySortedUnique<T(!new)>(key: T -> string, xs: seq<T>, ys: seq<T>)
    requires StrictlySortedBy(key, xs) && StrictlySortedBy(key, ys)
    requires forall x :: x in xs <==> x in ys
    ensures xs == ys
  {
    SameElementsSameEmptiness(xs, ys);
    if xs != [] {
      assert xs[0] in ys && ys[0] in xs;
      HeadIsLeast(key, ys, xs[0]);
      HeadIsLeast(key, xs, ys[0]);
      LessTotal(key(xs[0]), key(ys[0]));
      assert xs == [xs[0]] + xs[1..] && ys == [ys[0]] + ys[1..];
      forall x ensures x in xs[1..] <==> x in ys[1..] {
        if x in xs { HeadIsLeast(key, xs, x); HeadIsLeast(key, ys, x); }
      }
      StrictlySortedUnique(key, xs[1..], ys[1..]);
    }
  }
}
