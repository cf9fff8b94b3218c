/** Sequences: their elements, what is left when some are left out, and sorted strings. */
module Sequences {

  ghost function Elems<T>(xs: seq<T>): set<T> {
    set x | x in xs
  }

  predicate NoDup<T(==)>(xs: seq<T>) {
    forall i, j :: 0 <= i < j < |xs| ==> xs[i] != xs[j]
  }

  /** An order in which a set or map may be ranged over. */
  ghost predicate Enumerates<T>(order: seq<T>, s: set<T>) {
    NoDup(order) && Elems(order) == s
  }

  /** xs is ys with some elements left out. */
  ghost predicate Subsequence<T>(xs: seq<T>, ys: seq<T>) {
    xs == [] ||
    (ys != [] && (Subsequence(xs, ys[..|ys| - 1]) ||
                  (xs[|xs| - 1] == ys[|ys| - 1] && Subsequence(xs[..|xs| - 1], ys[..|ys| - 1]))))
  }

  lemma SubsequenceGrows<T>(xs: seq<T>, ys: seq<T>, more: seq<T>)
    requires Subsequence(xs, ys) && |more| <= 1
    ensures Subsequence(xs, ys + more) && Subsequence(xs + more, ys + more)
  {
    if more == [] {
      assert xs + more == xs && ys + more == ys;
    } else {
      assert (ys + more)[..|ys|] == ys && (xs + more)[..|xs|] == xs;
    }
  }

  lemma {:induction false} SubsequenceOfSelf<T>(xs: seq<T>)
    ensures Subsequence(xs, xs)
  {
    if xs == [] {
    } else {
      SubsequenceOfSelf(xs[..|xs| - 1]);
    }
  }

  lemma {:induction false} SubsequenceMembers<T>(xs: seq<T>, ys: seq<T>, x: T)
    requires Subsequence(xs, ys) && x in xs
    ensures x in ys
  {
    var n := |ys| - 1;
    if Subsequence(xs, ys[..n]) {
      SubsequenceMembers(xs, ys[..n], x);
    } else if x != xs[|xs| - 1] {
      SubsequenceMembers(xs[..|xs| - 1], ys[..n], x);
    }
  }

  // ---- sorted strings --------------------------------------------------------

  predicate AtMost(a: string, b: string) {
    a == [] || (b != [] && (a[0] < b[0] || (a[0] == b[0] && AtMost(a[1..], b[1..]))))
  }

  lemma {:induction false} AtMostTotal(a: string, b: string)
    ensures AtMost(a, b) || AtMost(b, a)
  {
    if a != [] && b != [] && a[0] == b[0] {
      AtMostTotal(a[1..], b[1..]);
    }
  }

  lemma {:induction false} AtMostTransitive(a: string, b: string, c: string)
    requires AtMost(a, b) && AtMost(b, c)
    ensures AtMost(a, c)
  {
    if a != [] && b != [] && c != [] && a[0] == b[0] == c[0] {
      AtMostTransitive(a[1..], b[1..], c[1..]);
    }
  }

  /** a comes before b in the dictionary: b begins with a, or a has the smaller character where
      they first differ. */
  lemma {:induction false} AtMostIff(a: string, b: string)
    ensures AtMost(a, b) <==> a <= b || exists k :: 0 <= k < |a| && k < |b| && a[..k] == b[..k] && a[k] < b[k]
  {
    if a == [] || b == [] {
    } else if a[0] != b[0] {
      assert a[0] < b[0] ==> a[..0] == b[..0];
      forall k | 0 < k < |a| && k < |b| ensures a[..k] != b[..k] {
        assert a[..k][0] == a[0] && b[..k][0] == b[0];
      }
    } else {
      var a', b' := a[1..], b[1..];
      AtMostIff(a', b');
      assert a <= b <==> a' <= b' by {
        assert a == [a[0]] + a' && b == [b[0]] + b';
      }
      if k :| 0 <= k < |a'| && k < |b'| && a'[..k] == b'[..k] && a'[k] < b'[k] {
        assert a[..k + 1] == [a[0]] + a'[..k] && b[..k + 1] == [b[0]] + b'[..k];
      }
      if k :| 0 <= k < |a| && k < |b| && a[..k] == b[..k] && a[k] < b[k] {
        assert a'[..k - 1] == a[..k][1..] && b'[..k - 1] == b[..k][1..];
      }
    }
  }

  ghost predicate Sorted(xs: seq<string>) {
    forall i, j :: 0 <= i < j < |xs| ==> AtMost(xs[i], xs[j])
  }

  function Inserted(xs: seq<string>, x: string): seq<string> {
    if xs == [] || AtMost(x, xs[0]) then [x] + xs else [xs[0]] + Inserted(xs[1..], x)
  }

  lemma {:induction false} InsertedElems(xs: seq<string>, x: string)
    ensures forall y :: y in Inserted(xs, x) <==> y in xs || y == x
    ensures NoDup(xs) && x !in xs ==> NoDup(Inserted(xs, x))
  {
    if xs == [] || AtMost(x, xs[0]) {
    } else {
      InsertedElems(xs[1..], x);
      assert xs == [xs[0]] + xs[1..];
      if NoDup(xs) && x !in xs {
        var rest := Inserted(xs[1..], x);
        assert xs[0] !in xs[1..] && xs[0] !in rest;
        assert forall j :: 0 <= j < |rest| ==> rest[j] in rest;
      }
    }
  }

  lemma {:induction false} InsertedSorted(xs: seq<string>, x: string)
    requires Sorted(xs)
    ensures Sorted(Inserted(xs, x))
  {
    if xs == [] {
    } else if AtMost(x, xs[0]) {
      forall j | 0 <= j < |xs| ensures AtMost(x, xs[j]) {
        if j > 0 {
          AtMostTransitive(x, xs[0], xs[j]);
        }
      }
    } else {
      AtMostTotal(x, xs[0]);
      var rest := Inserted(xs[1..], x);
      InsertedSorted(xs[1..], x);
      InsertedElems(xs[1..], x);
      forall j | 0 <= j < |rest| ensures AtMost(xs[0], rest[j]) {
        assert rest[j] in rest;
      }
    }
  }
}
