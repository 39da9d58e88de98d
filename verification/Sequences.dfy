/** Concatenation, selection and counting. */
module Sequences {

  function Flatten<T>(parts: seq<seq<T>>): seq<T>
  {
    if parts == [] then [] else parts[0] + Flatten(parts[1..])
  }

  lemma {:induction false} FlattenConcat<T>(a: seq<seq<T>>, b: seq<seq<T>>)
    ensures Flatten(a + b) == Flatten(a) + Flatten(b)
    decreases |a|
  {
    if a == [] {
      assert a + b == b;
    } else {
      assert (a + b)[1..] == a[1..] + b;
      FlattenConcat(a[1..], b);
    }
  }

  lemma FlattenOne<T>(a: seq<seq<T>>, x: seq<T>)
    ensures Flatten(a + [x]) == Flatten(a) + x && Flatten([x] + a) == x + Flatten(a)
  {
    FlattenConcat(a, [x]);
    assert [x][1..] == [] && ([x] + a)[1..] == a;
  }

  /** The elements that stay, in order. */
  function Filter<T>(s: seq<T>, stays: T -> bool): seq<T>
  {
    if s == [] then [] else (if stays(s[0]) then [s[0]] else []) + Filter(s[1..], stays)
  }

  lemma {:induction false} FilterAppend<T>(s: seq<T>, x: T, stays: T -> bool)
    ensures Filter(s + [x], stays) == Filter(s, stays) + if stays(x) then [x] else []
    decreases |s|
  {
    if s == [] {
      assert s + [x] == [x] && [x][1..] == [];
    } else {
      FilterAppend(s[1..], x, stays);
      var head, tail := if stays(s[0]) then [s[0]] else [], if stays(x) then [x] else [];
      assert (s + [x])[1..] == s[1..] + [x];
      assert Filter(s + [x], stays) == head + (Filter(s[1..], stays) + tail);
    }
  }

  /** How many of the first `n` numbers have the property. */
  ghost function Count(n: nat, p: nat -> bool): nat
  {
    var those := set i: nat | i < n && p(i);
    |those|
  }

  lemma CountStep(n: nat, p: nat -> bool)
    ensures Count(0, p) == 0
    ensures Count(n + 1, p) == Count(n, p) + if p(n) then 1 else 0
  {
    var before, those := set i: nat | i < n && p(i), set i: nat | i < n + 1 && p(i);
    assert those == before + if p(n) then {n} else {};
    assert (set i: nat | i < 0 && p(i)) == {};
  }
}
