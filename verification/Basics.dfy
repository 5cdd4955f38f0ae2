/** Types shared by the component models. */
module Basics {

  datatype Option<+T> = None | Some(value: T)

  function Max(a: int, b: int): int {
    if a >= b then a else b
  }

  function Min(a: int, b: int): int {
    if a <= b then a else b
  }

  lemma Regroup<T>(a: seq<T>, b: seq<T>, c: seq<T>)
    ensures a + b + c == a + (b + c)
  {
  }

  /** The last `n` of a list, or all of it. */
  function Newest<T>(s: seq<T>, n: nat): seq<T> {
    if |s| <= n then s else s[|s| - n..]
  }

  lemma NewestOfNewest<T>(s: seq<T>, more: seq<T>, n: nat)
    ensures Newest(Newest(s, n) + more, n) == Newest(s + more, n)
  {
  }

  /** The elements to keep, in order. */
  function Filtered<T>(s: seq<T>, keep: T -> bool): seq<T> {
    if s == [] then []
    else Filtered(s[..|s| - 1], keep) + if keep(s[|s| - 1]) then [s[|s| - 1]] else []
  }

  lemma {:induction false} FilteredJoins<T>(a: seq<T>, b: seq<T>, keep: T -> bool)
    ensures Filtered(a + b, keep) == Filtered(a, keep) + Filtered(b, keep)
  {
    if b == [] {
      assert a + b == a;
    } else {
      var n := |b| - 1;
      var all := a + b;
      assert all[..|all| - 1] == a + b[..n] && all[|all| - 1] == b[n];
      FilteredJoins(a, b[..n], keep);
      Regroup(Filtered(a, keep), Filtered(b[..n], keep), if keep(b[n]) then [b[n]] else []);
    }
  }
}
