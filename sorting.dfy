/**
 The order Python's `sorted` puts strings in (lexicographic on code points) and
 the `sorted(list(set(xs)))` step of the index builder: the elements of `xs`,
 each once, in strictly ascending order.
 */
module Sorting {
  import opened Builtins

  /** `s < t` on Python strings: the first differing code point decides, a proper prefix comes first. */
  predicate Less(s: string, t: string)
  {
    if s == [] then t != []
    else t != [] && (s[0] < t[0] || (s[0] == t[0] && Less(s[1..], t[1..])))
  }

  lemma {:induction false} LessIrreflexive(s: string)
    ensures !Less(s, s)
  {
    if s != [] {
      LessIrreflexive(s[1..]);
    }
  }

  lemma {:induction false} LessTransitive(s: string, t: string, u: string)
    requires Less(s, t) && Less(t, u)
    ensures Less(s, u)
  {
    if s != [] && s[0] == t[0] && t[0] == u[0] {
      LessTransitive(s[1..], t[1..], u[1..]);
    }
  }

  lemma {:induction false} LessTotal(s: string, t: string)
    ensures s == t || Less(s, t) || Less(t, s)
  {
    if s != [] && t != [] && s[0] == t[0] {
      LessTotal(s[1..], t[1..]);
      if s[1..] == t[1..] {
        assert s == [s[0]] + s[1..] && t == [t[0]] + t[1..];
      }
    }
  }

  /** Sorted by `Less` with no element repeated. */
  predicate StrictlyAscending(xs: seq<string>)
  {
    forall i, j :: 0 <= i < j < |xs| ==> Less(xs[i], xs[j])
  }

  /** Prepending an element below every element keeps a list strictly ascending. */
  lemma PrependBelow(x: string, xs: seq<string>)
    requires StrictlyAscending(xs)
    requires forall y :: y in xs ==> Less(x, y)
    ensures StrictlyAscending([x] + xs)
  {
    var r := [x] + xs;
    forall i, j | 0 <= i < j < |r|
      ensures Less(r[i], r[j])
    {
      if i > 0 {
        assert r[i] == xs[i - 1] && r[j] == xs[j - 1];
      } else {
        assert r[j] in xs;
      }
    }
  }

  /** The head of a strictly ascending list is below every later element and so occurs once. */
  lemma HeadIsLeast(xs: seq<string>)
    requires StrictlyAscending(xs) && xs != []
    ensures forall y :: y in xs[1..] ==> Less(xs[0], y)
    ensures xs[0] !in xs[1..]
  {
    forall y | y in xs[1..]
      ensures Less(xs[0], y)
    {
      var j :| 0 <= j < |xs[1..]| && xs[1..][j] == y;
      assert xs[j + 1] == y;
    }
    if xs[0] in xs[1..] {
      LessIrreflexive(xs[0]);
    }
  }

  /** Adds `w` to a strictly ascending list unless it is already there. */
  function Insert(xs: seq<string>, w: string): (r: seq<string>)
    requires StrictlyAscending(xs)
    ensures StrictlyAscending(r)
    ensures Elems(r) == Elems(xs) + {w}
  {
    if xs == [] then [w]
    else if w == xs[0] then xs
    else if Less(w, xs[0]) then
      HeadIsLeast(xs);
      forall y | y in xs ensures Less(w, y) {
        if y != xs[0] { LessTransitive(w, xs[0], y); }
      }
      PrependBelow(w, xs);
      [w] + xs
    else
      var rest := Insert(xs[1..], w);
      HeadIsLeast(xs);
      LessTotal(w, xs[0]);
      assert xs == [xs[0]] + xs[1..];
      PrependBelow(xs[0], rest);
      [xs[0]] + rest
  }

  /** `sorted(list(set(xs)))`: each element of `xs` once, in strictly ascending order. */
  function SortUnique(xs: seq<string>): (r: seq<string>)
    ensures StrictlyAscending(r)
    ensures Elems(r) == Elems(xs)
  {
    if xs == [] then []
    else
      assert xs == xs[..|xs| - 1] + [xs[|xs| - 1]];
      Insert(SortUnique(xs[..|xs| - 1]), xs[|xs| - 1])
  }

  /** Two strictly ascending lists with the same elements are the same list. */
  lemma {:induction false} AscendingUnique(a: seq<string>, b: seq<string>)
    requires StrictlyAscending(a) && StrictlyAscending(b)
    requires Elems(a) == Elems(b)
    ensures a == b
  {
    if a != [] {
      assert b != [] by { assert a[0] in Elems(b); }
      HeadIsLeast(a);
      HeadIsLeast(b);
      if a[0] != b[0] {
        assert a[0] in b[1..] by { assert a[0] in b; assert b == [b[0]] + b[1..]; }
        assert b[0] in a[1..] by { assert b[0] in a; assert a == [a[0]] + a[1..]; }
        LessTransitive(a[0], b[0], a[0]);
        LessIrreflexive(a[0]);
      } else {
        assert a == [a[0]] + a[1..] && b == [b[0]] + b[1..];
        assert StrictlyAscending(a[1..]) && StrictlyAscending(b[1..]);
        assert Elems(a[1..]) == Elems(b[1..]) by {
          assert Elems(a) == {a[0]} + Elems(a[1..]);
          assert Elems(b) == {b[0]} + Elems(b[1..]);
        }
        AscendingUnique(a[1..], b[1..]);
      }
    } else {
      ElemsEmpty(b);
    }
  }

  lemma ElemsEmpty(xs: seq<string>)
    ensures Elems(xs) == {} ==> xs == []
  {
    if xs != [] {
      assert xs[0] in Elems(xs);
    }
  }

  /** Deduplicating and sorting a list that is already strictly ascending leaves it unchanged. */
  lemma SortUniqueIdempotent(xs: seq<string>)
    requires StrictlyAscending(xs)
    ensures SortUnique(xs) == xs
  {
    AscendingUnique(SortUnique(xs), xs);
  }
}
