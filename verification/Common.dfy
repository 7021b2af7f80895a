/** Small shared vocabulary: row identifiers, optional values, transaction results and sums. */
module Common {
  /** A database row identifier. */
  type Id = nat

  datatype Option<+T> = None | Some(value: T)

  /** The outcome of a transaction: the committed value, or the reason it was rolled back. */
  datatype Result<+T, +E> = Ok(value: T) | Err(error: E)

  /** Sum of a sequence of quantities. */
  function Total(s: seq<int>): int {
    if s == [] then 0 else Total(s[..|s| - 1]) + s[|s| - 1]
  }

  lemma TotalAppend(s: seq<int>, x: int)
    ensures Total(s + [x]) == Total(s) + x
  {
    assert (s + [x])[..|s|] == s;
  }

  lemma {:induction false} TotalPlus(s: seq<int>, t: seq<int>, u: seq<int>)
    requires |s| == |t| == |u|
    requires forall i :: 0 <= i < |s| ==> u[i] == s[i] + t[i]
    ensures Total(u) == Total(s) + Total(t)
  {
    if s != [] {
      var n := |s| - 1;
      TotalPlus(s[..n], t[..n], u[..n]);
    }
  }

  lemma {:induction false} TotalMonotone(s: seq<int>, t: seq<int>)
    requires |s| == |t|
    requires forall i :: 0 <= i < |s| ==> s[i] <= t[i]
    ensures Total(s) <= Total(t)
  {
    if s != [] {
      var n := |s| - 1;
      TotalMonotone(s[..n], t[..n]);
    }
  }

  lemma {:induction false} TotalZero(s: seq<int>)
    requires forall i :: 0 <= i < |s| ==> s[i] == 0
    ensures Total(s) == 0
  {
    if s != [] { TotalZero(s[..|s| - 1]); }
  }

  lemma {:induction false} TotalConcat(s: seq<int>, t: seq<int>)
    ensures Total(s + t) == Total(s) + Total(t)
  {
    if t == [] {
      assert s + t == s;
    } else {
      var n := |t| - 1;
      TotalConcat(s, t[..n]);
      assert (s + t)[..|s| + n] == s + t[..n];
    }
  }
}
