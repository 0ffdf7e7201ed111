/** Definitions shared by the models. */
module Basics {

  datatype Option<+T> = None | Some(value: T)

  function Abs(x: int): int { if x < 0 then -x else x }

  function Max(x: int, y: int): int { if x < y then y else x }

  /** How often x occurs in s. */
  ghost function Times<T>(s: seq<T>, x: T): nat {
    if s == [] then 0 else Times(s[..|s| - 1], x) + (if s[|s| - 1] == x then 1 else 0)
  }

  lemma AppendTimes<T>(s: seq<T>, y: T, x: T)
    ensures Times(s + [y], x) == Times(s, x) + (if y == x then 1 else 0)
  {
    assert (s + [y])[..|s|] == s;
  }

  lemma {:induction false} ConcatTimes<T>(s: seq<T>, t: seq<T>, x: T)
    ensures Times(s + t, x) == Times(s, x) + Times(t, x)
  {
    if t == [] {
      assert s + t == s;
    } else {
      ConcatTimes(s, t[..|t| - 1], x);
      assert (s + t)[..|s + t| - 1] == s + t[..|t| - 1];
    }
  }

  lemma PrependTimes<T>(y: T, s: seq<T>, x: T)
    ensures Times([y] + s, x) == (if y == x then 1 else 0) + Times(s, x)
  {
    AppendTimes([], y, x);
    assert [] + [y] == [y];
    ConcatTimes([y], s, x);
  }

  lemma {:induction false} AbsentTimes<T>(s: seq<T>, x: T)
    requires x !in s
    ensures Times(s, x) == 0
  {
    if s != [] {
      AbsentTimes(s[..|s| - 1], x);
    }
  }

  lemma {:induction false} PresentTimes<T>(s: seq<T>, x: T)
    ensures x in s <==> Times(s, x) > 0
  {
    if s != [] {
      PresentTimes(s[..|s| - 1], x);
      assert s == s[..|s| - 1] + [s[|s| - 1]];
    }
  }
}
