/**
 * `array.sort((a, b) => a.label.localeCompare(b.label))`: the built-in sort is stable,
 * modelled here as a stable insertion sort on sequences ordered by `Text.LessEq` of a label.
 */
module Sorting {
  import opened Text

  predicate SortedBy<T>(s: seq<T>, labelOf: T -> string) {
    forall i, j :: 0 <= i < j < |s| ==> LessEq(labelOf(s[i]), labelOf(s[j]))
  }

  /** No two elements share a projection (for example, a key). */
  predicate DistinctBy<T>(s: seq<T>, key: T -> string) {
    forall i, j :: 0 <= i < j < |s| ==> key(s[i]) != key(s[j])
  }

  /** Inserts `x` after every element whose label is not greater: equal labels keep their order. */
  function InsertBy<T>(x: T, s: seq<T>, labelOf: T -> string): (r: seq<T>)
    ensures multiset(r) == multiset(s) + multiset{x}
    ensures SortedBy(s, labelOf) ==> SortedBy(r, labelOf)
  {
    if s == [] then [x]
    else if LessEq(labelOf(s[0]), labelOf(x)) then
      var t := InsertBy(x, s[1..], labelOf);
      assert s == [s[0]] + s[1..];
      SortedAfterHead(s[0], t, s[1..], x, labelOf);
      [s[0]] + t
    else
      LessEqTotal(labelOf(s[0]), labelOf(x));
      SortedBeforeHead(x, s, labelOf);
      [x] + s
  }

  lemma SortedAfterHead<T>(h: T, t: seq<T>, rest: seq<T>, x: T, labelOf: T -> string)
    requires multiset(t) == multiset(rest) + multiset{x}
    requires SortedBy([h] + rest, labelOf) ==> SortedBy(t, labelOf)
    requires LessEq(labelOf(h), labelOf(x))
    ensures SortedBy([h] + rest, labelOf) ==> SortedBy([h] + t, labelOf)
  {
    if SortedBy([h] + rest, labelOf) {
      forall j | 0 <= j < |t| ensures LessEq(labelOf(h), labelOf(t[j])) {
        assert t[j] in multiset(t);
        if t[j] != x {
          var k :| 0 <= k < |rest| && rest[k] == t[j];
          assert ([h] + rest)[0] == h && ([h] + rest)[k + 1] == t[j];
          assert LessEq(labelOf(([h] + rest)[0]), labelOf(([h] + rest)[k + 1]));
        }
      }
    }
  }

  lemma SortedBeforeHead<T>(x: T, s: seq<T>, labelOf: T -> string)
    requires s != [] && LessEq(labelOf(x), labelOf(s[0]))
    ensures SortedBy(s, labelOf) ==> SortedBy([x] + s, labelOf)
  {
    if SortedBy(s, labelOf) {
      forall j | 0 <= j < |s| ensures LessEq(labelOf(x), labelOf(s[j])) {
        if j > 0 {
          LessEqTransitive(labelOf(x), labelOf(s[0]), labelOf(s[j]));
        }
      }
    }
  }

  /** The stable sort: each element, from first to last, is inserted into the sorted prefix. */
  function SortBy<T>(s: seq<T>, labelOf: T -> string): (r: seq<T>)
    ensures multiset(r) == multiset(s)
    ensures SortedBy(r, labelOf)
  {
    if s == [] then []
    else
      assert s == s[..|s| - 1] + [s[|s| - 1]];
      InsertBy(s[|s| - 1], SortBy(s[..|s| - 1], labelOf), labelOf)
  }

  /** The elements whose label is `l`, in order. */
  function WithLabel<T>(s: seq<T>, labelOf: T -> string, l: string): seq<T> {
    if s == [] then [] else (if labelOf(s[0]) == l then [s[0]] else []) + WithLabel(s[1..], labelOf, l)
  }

  lemma WithLabelCons<T>(h: T, t: seq<T>, labelOf: T -> string, l: string)
    ensures WithLabel([h] + t, labelOf, l) == (if labelOf(h) == l then [h] else []) + WithLabel(t, labelOf, l)
  {
    assert ([h] + t)[0] == h && ([h] + t)[1..] == t;
  }

  lemma {:induction false} WithLabelAppend<T>(a: seq<T>, b: seq<T>, labelOf: T -> string, l: string)
    ensures WithLabel(a + b, labelOf, l) == WithLabel(a, labelOf, l) + WithLabel(b, labelOf, l)
  {
    if a == [] {
      assert a + b == b;
    } else {
      WithLabelAppend(a[1..], b, labelOf, l);
      assert a == [a[0]] + a[1..] && a + b == [a[0]] + (a[1..] + b);
      WithLabelCons(a[0], a[1..] + b, labelOf, l);
      WithLabelCons(a[0], a[1..], labelOf, l);
    }
  }

  lemma {:induction false} WithLabelNone<T>(s: seq<T>, labelOf: T -> string, l: string)
    requires forall j :: 0 <= j < |s| ==> labelOf(s[j]) != l
    ensures WithLabel(s, labelOf, l) == []
  {
    if s != [] {
      assert forall j :: 1 <= j < |s| ==> s[1..][j - 1] == s[j];
      WithLabelNone(s[1..], labelOf, l);
    }
  }

  lemma SortedTail<T>(s: seq<T>, labelOf: T -> string)
    requires s != [] && SortedBy(s, labelOf)
    ensures SortedBy(s[1..], labelOf)
  {
    forall i, j | 0 <= i < j < |s[1..]| ensures LessEq(labelOf(s[1..][i]), labelOf(s[1..][j])) {
      assert s[1..][i] == s[i + 1] && s[1..][j] == s[j + 1];
    }
  }

  /** In a sorted list headed by a label greater than `x`'s, no element has `x`'s label. */
  lemma NoEqualAfterGreater<T>(x: T, s: seq<T>, labelOf: T -> string)
    requires s != [] && SortedBy(s, labelOf) && !LessEq(labelOf(s[0]), labelOf(x))
    ensures forall j :: 0 <= j < |s| ==> labelOf(s[j]) != labelOf(x)
  {
    forall j | 0 <= j < |s| ensures labelOf(s[j]) != labelOf(x) {
      if j > 0 {
        assert LessEq(labelOf(s[0]), labelOf(s[j]));
      } else {
        LessEqReflexive(labelOf(x));
      }
    }
  }

  /** Inserting into a sorted list puts `x` after every element with the same label. */
  lemma {:induction false} InsertByStable<T>(x: T, s: seq<T>, labelOf: T -> string, l: string)
    requires SortedBy(s, labelOf)
    ensures WithLabel(InsertBy(x, s, labelOf), labelOf, l) ==
      WithLabel(s, labelOf, l) + (if labelOf(x) == l then [x] else [])
  {
    if s == [] {
      assert InsertBy(x, s, labelOf) == [x] + [];
      WithLabelCons(x, [], labelOf, l);
    } else if LessEq(labelOf(s[0]), labelOf(x)) {
      SortedTail(s, labelOf);
      InsertByStable(x, s[1..], labelOf, l);
      InsertByStableAfterHead(x, s, labelOf, l);
    } else {
      InsertByStableFirst(x, s, labelOf, l);
    }
  }

  lemma ConcatAssoc<T>(a: seq<T>, b: seq<T>, c: seq<T>)
    ensures a + (b + c) == (a + b) + c
  {
  }

  lemma InsertByHead<T>(x: T, s: seq<T>, labelOf: T -> string)
    requires s != [] && LessEq(labelOf(s[0]), labelOf(x))
    ensures InsertBy(x, s, labelOf) == [s[0]] + InsertBy(x, s[1..], labelOf)
  {
  }

  /** The step of `InsertByStable` where `x` goes after the head, given the result for the tail. */
  lemma InsertByStableAfterHead<T>(x: T, s: seq<T>, labelOf: T -> string, l: string)
    requires s != [] && LessEq(labelOf(s[0]), labelOf(x))
    requires WithLabel(InsertBy(x, s[1..], labelOf), labelOf, l) ==
      WithLabel(s[1..], labelOf, l) + (if labelOf(x) == l then [x] else [])
    ensures WithLabel(InsertBy(x, s, labelOf), labelOf, l) ==
      WithLabel(s, labelOf, l) + (if labelOf(x) == l then [x] else [])
  {
    var t := InsertBy(x, s[1..], labelOf);
    var head := if labelOf(s[0]) == l then [s[0]] else [];
    var rest := WithLabel(s[1..], labelOf, l);
    var extra := if labelOf(x) == l then [x] else [];
    InsertByHead(x, s, labelOf);
    WithLabelCons(s[0], t, labelOf, l);
    assert WithLabel(InsertBy(x, s, labelOf), labelOf, l) == head + (rest + extra);
    ConcatAssoc(head, rest, extra);
    assert WithLabel(s, labelOf, l) == head + rest;
  }

  /** The step of `InsertByStable` where `x` goes in front of a sorted list whose head is greater. */
  lemma InsertByStableFirst<T>(x: T, s: seq<T>, labelOf: T -> string, l: string)
    requires s != [] && SortedBy(s, labelOf) && !LessEq(labelOf(s[0]), labelOf(x))
    ensures WithLabel(InsertBy(x, s, labelOf), labelOf, l) ==
      WithLabel(s, labelOf, l) + (if labelOf(x) == l then [x] else [])
  {
    assert InsertBy(x, s, labelOf) == [x] + s;
    WithLabelCons(x, s, labelOf, l);
    if labelOf(x) == l {
      NoEqualAfterGreater(x, s, labelOf);
      WithLabelNone(s, labelOf, l);
    }
  }

  lemma SplitLast<T>(s: seq<T>)
    requires s != []
    ensures s == s[..|s| - 1] + [s[|s| - 1]]
  {
  }

  /** The sort is stable: the elements with any one label keep their input order. */
  lemma {:induction false} SortByStable<T>(s: seq<T>, labelOf: T -> string, l: string)
    ensures WithLabel(SortBy(s, labelOf), labelOf, l) == WithLabel(s, labelOf, l)
  {
    if s != [] {
      var p := s[..|s| - 1];
      var x := s[|s| - 1];
      assert SortBy(s, labelOf) == InsertBy(x, SortBy(p, labelOf), labelOf);
      SortByStable(p, labelOf, l);
      InsertByStable(x, SortBy(p, labelOf), labelOf, l);
      SplitLast(s);
      WithLabelAppend(p, [x], labelOf, l);
      WithLabelCons(x, [], labelOf, l);
    }
  }

  /** Putting an element with a fresh key in front keeps keys distinct. */
  lemma DistinctCons<T>(h: T, t: seq<T>, key: T -> string)
    requires DistinctBy(t, key)
    requires forall y :: y in t ==> key(y) != key(h)
    ensures DistinctBy([h] + t, key)
  {
    var r := [h] + t;
    forall i, j | 0 <= i < j < |r| ensures key(r[i]) != key(r[j]) {
      assert r[j] == t[j - 1];
      if i > 0 {
        assert r[i] == t[i - 1];
      }
    }
  }

  /** Every element of an insertion is the inserted one or an element of the list. */
  lemma InsertByMember<T>(x: T, s: seq<T>, labelOf: T -> string, y: T)
    requires y in InsertBy(x, s, labelOf)
    ensures y == x || y in s
  {
    assert y in multiset(InsertBy(x, s, labelOf));
  }

  lemma {:induction false} InsertByDistinct<T>(x: T, s: seq<T>, labelOf: T -> string, key: T -> string)
    requires DistinctBy(s, key)
    requires forall y :: y in s ==> key(y) != key(x)
    ensures DistinctBy(InsertBy(x, s, labelOf), key)
  {
    if s == [] {
    } else if LessEq(labelOf(s[0]), labelOf(x)) {
      var t := InsertBy(x, s[1..], labelOf);
      assert forall y :: y in s[1..] ==> y in s;
      InsertByDistinct(x, s[1..], labelOf, key);
      forall y | y in t ensures key(y) != key(s[0]) {
        InsertByMember(x, s[1..], labelOf, y);
        if y != x {
          var k :| 0 <= k < |s[1..]| && s[1..][k] == y;
          assert s[k + 1] == y;
        }
      }
      DistinctCons(s[0], t, key);
    } else {
      DistinctCons(x, s, key);
    }
  }

  /** Sorting keeps keys distinct. */
  lemma {:induction false} SortByDistinct<T>(s: seq<T>, labelOf: T -> string, key: T -> string)
    requires DistinctBy(s, key)
    ensures DistinctBy(SortBy(s, labelOf), key)
  {
    if s != [] {
      var p := s[..|s| - 1];
      var x := s[|s| - 1];
      SortByDistinct(p, labelOf, key);
      var sp := SortBy(p, labelOf);
      forall y | y in sp ensures key(y) != key(x) {
        assert y in multiset(sp);
        var k :| 0 <= k < |p| && p[k] == y;
        assert s[k] == y;
      }
      InsertByDistinct(x, sp, labelOf, key);
    }
  }
}
