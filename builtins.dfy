/**
 Python built-ins the idiom-chain core relies on, stated over Dafny values:
 `None`-or-value arguments, `s[0]` on a string, `set(list)` and `list(set)`.
 */
module Builtins {

  datatype Option<T> = None | Some(value: T)

  /** Python's `w[0]`: the first character of a non-empty string, as a one-character string. */
  function Key(w: string): (k: string)
    requires |w| > 0
    ensures |k| == 1 && k[0] == w[0]
  {
    w[..1]
  }

  /** Python's `set(xs)`: the elements of a list, without order or multiplicity. */
  function Elems(xs: seq<string>): (s: set<string>)
    ensures forall x :: x in s <==> x in xs
  {
    set x | x in xs
  }

  /** A list in which no element occurs twice. */
  predicate NoDuplicates<T(==)>(xs: seq<T>)
  {
    forall i, j :: 0 <= i < j < |xs| ==> xs[i] != xs[j]
  }

  /**
   Python's `list(s)` for a set `s`: every element exactly once, in an order
   the language leaves unspecified (here: whatever order the choices make).
   */
  method ListOf<T(==)>(s: set<T>) returns (xs: seq<T>)
    ensures forall x :: x in xs <==> x in s
    ensures NoDuplicates(xs)
    ensures |xs| == |s|
  {
    xs := [];
    var rest := s;
    while rest != {}
      invariant rest <= s
      invariant forall x :: x in xs <==> x in s - rest
      invariant NoDuplicates(xs)
      invariant |xs| + |rest| == |s|
      decreases rest
    {
      var x :| x in rest;
      assert x !in xs;
      xs := xs + [x];
      rest := rest - {x};
    }
  }
}
