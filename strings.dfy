/** Joining serialized fragments with a separator, as the library's tuple
    serializer does for a clause's list of tables. */
module Strings {

  /** Every fragment of `ds`, each preceded by `sep`. */
  function Prefixed(ds: seq<string>, sep: string): (r: string)
    ensures |ds| == 0 ==> r == ""
  {
    if ds == [] then "" else sep + ds[0] + Prefixed(ds[1..], sep)
  }

  /** The fragments of `xs` in order, with `sep` between neighbours only. */
  function Join(xs: seq<string>, sep: string): string
  {
    if xs == [] then "" else xs[0] + Prefixed(xs[1..], sep)
  }

  /** Prefixing distributes over concatenation of fragment lists. */
  lemma {:induction false} PrefixedAppend(xs: seq<string>, ys: seq<string>, sep: string)
    ensures Prefixed(xs + ys, sep) == Prefixed(xs, sep) + Prefixed(ys, sep)
  {
    if xs == [] {
      assert xs + ys == ys;
    } else {
      assert (xs + ys)[1..] == xs[1..] + ys;
      PrefixedAppend(xs[1..], ys, sep);
    }
  }

  /** Joining a non-empty list followed by more fragments puts `sep` before
      every one of the later fragments. */
  lemma JoinAppend(xs: seq<string>, ys: seq<string>, sep: string)
    requires |xs| > 0
    ensures Join(xs + ys, sep) == Join(xs, sep) + Prefixed(ys, sep)
  {
    assert (xs + ys)[1..] == xs[1..] + ys;
    PrefixedAppend(xs[1..], ys, sep);
  }

  /** Appending one fragment to a non-empty join adds one separator and the fragment. */
  lemma JoinSnoc(xs: seq<string>, d: string, sep: string)
    requires |xs| > 0
    ensures Join(xs + [d], sep) == Join(xs, sep) + sep + d
  {
    JoinAppend(xs, [d], sep);
    assert Prefixed([d], sep) == sep + d + Prefixed([], sep);
  }

  /** One more fragment: a separator first unless nothing was joined yet. */
  lemma JoinStep(xs: seq<string>, d: string, sep: string)
    ensures Join(xs + [d], sep) == if xs == [] then d else Join(xs, sep) + sep + d
  {
    if xs == [] {
      assert xs + [d] == [d];
      assert Join([d], sep) == d + Prefixed([], sep);
    } else {
      JoinSnoc(xs, d, sep);
    }
  }

  lemma Associative(a: string, b: string, c: string)
    ensures a + b + c == a + (b + c)
  {
  }

  /** The number of times `c` occurs in `s`. */
  function Count(s: string, c: char): nat
  {
    multiset(s)[c]
  }

  lemma CountAppend(a: string, b: string, c: char)
    ensures Count(a + b, c) == Count(a, c) + Count(b, c)
  {
    assert multiset(a + b) == multiset(a) + multiset(b);
  }

  /** Fragments none of which contains `c`. */
  predicate FreeOf(xs: seq<string>, c: char)
  {
    forall i :: 0 <= i < |xs| ==> c !in xs[i]
  }

  lemma {:induction false} PrefixedCount(ds: seq<string>, c: char)
    requires FreeOf(ds, c)
    ensures Count(Prefixed(ds, [c]), c) == |ds|
  {
    if ds != [] {
      assert FreeOf(ds[1..], c) by {
        forall i | 0 <= i < |ds[1..]| ensures c !in ds[1..][i] {
          assert ds[1..][i] == ds[i + 1];
        }
      }
      PrefixedCount(ds[1..], c);
      assert c !in ds[0];
      assert Count(ds[0], c) == 0;
      CountAppend([c], ds[0], c);
      CountAppend([c] + ds[0], Prefixed(ds[1..], [c]), c);
    }
  }

  /** Joining N >= 1 fragments that do not contain the separator character
      yields exactly N - 1 separators. */
  lemma JoinSeparatorCount(xs: seq<string>, c: char)
    requires |xs| > 0 && FreeOf(xs, c)
    ensures Count(Join(xs, [c]), c) == |xs| - 1
  {
    assert FreeOf(xs[1..], c) by {
      forall i | 0 <= i < |xs[1..]| ensures c !in xs[1..][i] {
        assert xs[1..][i] == xs[i + 1];
      }
    }
    PrefixedCount(xs[1..], c);
    assert c !in xs[0];
    assert Count(xs[0], c) == 0;
    CountAppend(xs[0], Prefixed(xs[1..], [c]), c);
  }
}
