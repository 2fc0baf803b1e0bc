/**
 * The string operations the track projection uses: `sort.Strings` and
 * `strings.Join`. Go orders strings byte by byte; on the model's strings
 * (sequences of code points) the order is code point by code point, which is
 * the same order for UTF-8 text.
 */
module Text {
  import opened Sequences

  /** `a <= b` on strings: lexicographic, a proper prefix first. */
  predicate AtMost(a: string, b: string) {
    a == [] || (b != [] && (a[0] < b[0] || (a[0] == b[0] && AtMost(a[1..], b[1..]))))
  }

  lemma {:induction false} AtMostReflexive(a: string)
    ensures AtMost(a, a)
  {
    if a != [] {
      AtMostReflexive(a[1..]);
    }
  }

  lemma {:induction false} AtMostTotal(a: string, b: string)
    ensures AtMost(a, b) || AtMost(b, a)
  {
    if a != [] && b != [] && a[0] == b[0] {
      AtMostTotal(a[1..], b[1..]);
    }
  }

  lemma {:induction false} AtMostTransitive(a: string, b: string, c: string)
    requires AtMost(a, b) && AtMost(b, c)
    ensures AtMost(a, c)
  {
    if a != [] && b != [] && c != [] && a[0] == b[0] && b[0] == c[0] {
      AtMostTransitive(a[1..], b[1..], c[1..]);
    }
  }

  lemma {:induction false} AtMostAntisymmetric(a: string, b: string)
    requires AtMost(a, b) && AtMost(b, a)
    ensures a == b
  {
    if a != [] {
      AtMostAntisymmetric(a[1..], b[1..]);
      assert a == [a[0]] + a[1..] && b == [b[0]] + b[1..];
    }
  }

  /** Ascending order, as `sort.Strings` leaves a slice. */
  predicate Sorted(s: seq<string>) {
    forall i, j :: 0 <= i < j < |s| ==> AtMost(s[i], s[j])
  }

  /** Every string of `s` is at least `lo`. */
  predicate LowerBound(lo: string, s: seq<string>) {
    forall j :: 0 <= j < |s| ==> AtMost(lo, s[j])
  }

  lemma HeadBoundsSorted(x: string, s: seq<string>)
    requires Sorted(s) && s != [] && AtMost(x, s[0])
    ensures LowerBound(x, s)
  {
    forall j | 0 < j < |s| ensures AtMost(x, s[j]) {
      AtMostTransitive(x, s[0], s[j]);
    }
  }

  /** A lower bound of `s` and of `x` bounds every arrangement of `s` with `x` added. */
  lemma BoundCarries(lo: string, x: string, s: seq<string>, r: seq<string>)
    requires AtMost(lo, x) && LowerBound(lo, s)
    requires multiset(r) == multiset(s) + multiset{x}
    ensures LowerBound(lo, r)
  {
    forall j | 0 <= j < |r| ensures AtMost(lo, r[j]) {
      assert r[j] in multiset(r);
      if r[j] != x {
        assert r[j] in multiset(s);
        var k :| 0 <= k < |s| && s[k] == r[j];
      }
    }
  }

  lemma ConsSorted(lo: string, r: seq<string>)
    requires Sorted(r) && LowerBound(lo, r)
    ensures Sorted([lo] + r)
  {
  }

  function Insert(x: string, s: seq<string>): (r: seq<string>)
    requires Sorted(s)
    ensures Sorted(r) && multiset(r) == multiset(s) + multiset{x}
  {
    if s == [] then [x]
    else if AtMost(x, s[0]) then
      HeadBoundsSorted(x, s);
      ConsSorted(x, s);
      [x] + s
    else
      assert s == [s[0]] + s[1..];
      AtMostTotal(x, s[0]);
      var r' := Insert(x, s[1..]);
      assert LowerBound(s[0], s[1..]) by {
        forall j | 0 <= j < |s[1..]| ensures AtMost(s[0], s[1..][j]) {
          assert s[1..][j] == s[j + 1];
        }
      }
      BoundCarries(s[0], x, s[1..], r');
      ConsSorted(s[0], r');
      [s[0]] + r'
  }

  /** `sort.Strings`: the names in ascending order. */
  function SortStrings(s: seq<string>): (r: seq<string>)
    ensures Sorted(r) && multiset(r) == multiset(s)
  {
    if s == [] then []
    else
      assert s == [s[0]] + s[1..];
      Insert(s[0], SortStrings(s[1..]))
  }

  lemma SortedHeadIsLeast(a: seq<string>, x: string)
    requires Sorted(a) && x in multiset(a)
    ensures AtMost(a[0], x)
  {
    var i :| 0 <= i < |a| && a[i] == x;
    if i == 0 {
      AtMostReflexive(x);
    }
  }

  lemma SortedTail(a: seq<string>)
    requires Sorted(a) && a != []
    ensures Sorted(a[1..]) && multiset(a[1..]) == multiset(a) - multiset{a[0]}
  {
    assert a == [a[0]] + a[1..];
  }

  lemma SortedSameHead(a: seq<string>, b: seq<string>)
    requires Sorted(a) && Sorted(b) && multiset(a) == multiset(b) && a != []
    ensures b != [] && a[0] == b[0]
  {
    assert a[0] in multiset(a);
    assert b[0] in multiset(b);
    SortedHeadIsLeast(a, b[0]);
    SortedHeadIsLeast(b, a[0]);
    AtMostAntisymmetric(a[0], b[0]);
  }

  /**
   * There is only one ascending arrangement of a multiset of strings, so the result of
   * `sort.Strings` does not depend on the sorting algorithm or on its stability.
   */
  lemma {:induction false} SortedUnique(a: seq<string>, b: seq<string>)
    requires Sorted(a) && Sorted(b) && multiset(a) == multiset(b)
    ensures a == b
  {
    if a != [] {
      SortedSameHead(a, b);
      SortedTail(a);
      SortedTail(b);
      SortedUnique(a[1..], b[1..]);
      assert a == [a[0]] + a[1..] && b == [b[0]] + b[1..];
    }
  }

  /** `strings.Join(parts, sep)`. */
  function Join(parts: seq<string>, sep: string): string {
    if parts == [] then ""
    else if |parts| == 1 then parts[0]
    else parts[0] + sep + Join(parts[1..], sep)
  }

  function TotalLength(parts: seq<string>): nat {
    if parts == [] then 0 else |parts[0]| + TotalLength(parts[1..])
  }

  /** The joined string holds every part and one separator between each two. */
  lemma {:induction false} JoinLength(parts: seq<string>, sep: string)
    ensures |Join(parts, sep)| == TotalLength(parts) + (if parts == [] then 0 else (|parts| - 1) * |sep|)
  {
    if |parts| > 1 {
      JoinLength(parts[1..], sep);
    }
  }

  /** The joined string spelled out: the first part, then each later part behind one separator, in order. */
  lemma {:induction false} JoinSpelledOut(parts: seq<string>, sep: string)
    requires parts != []
    ensures Join(parts, sep) ==
      parts[0] + Flatten(seq(|parts| - 1, i requires 0 <= i < |parts| - 1 => sep + parts[i + 1]))
  {
    var tail := seq(|parts| - 1, i requires 0 <= i < |parts| - 1 => sep + parts[i + 1]);
    if |parts| == 1 {
      assert tail == [];
    } else {
      var rest := seq(|parts| - 2, i requires 0 <= i < |parts| - 2 => sep + parts[1..][i + 1]);
      JoinSpelledOut(parts[1..], sep);
      assert tail == [sep + parts[1]] + rest;
      calc {
        Join(parts, sep);
        parts[0] + sep + Join(parts[1..], sep);
        parts[0] + sep + (parts[1] + Flatten(rest));
        parts[0] + ((sep + parts[1]) + Flatten(rest));
        parts[0] + Flatten(tail);
      }
    }
  }

  /** Joining two non-empty runs of parts puts one separator between their joins. */
  lemma {:induction false} JoinAppend(a: seq<string>, b: seq<string>, sep: string)
    requires a != [] && b != []
    ensures Join(a + b, sep) == Join(a, sep) + sep + Join(b, sep)
  {
    if |a| > 1 {
      assert (a + b)[1..] == a[1..] + b;
      JoinAppend(a[1..], b, sep);
    } else {
      assert (a + b)[1..] == b;
    }
  }
}
