/** What every other module shares: Option, Result, the range of 32-bit numbers, concatenation. */
module Wrappers {

  const UINT32_LIMIT: int := 0x1_0000_0000

  datatype Option<+T> = None | Some(value: T)

  datatype Result<+T, +E> = Ok(value: T) | Err(error: E) {
    predicate IsFailure() {
      Err?
    }

    function PropagateFailure<U>(): (r: Result<U, E>)
      requires Err?
    {
      Err(error)
    }

    function Extract(): T
      requires Ok?
    {
      value
    }
  }

  lemma Assoc<T>(a: seq<T>, b: seq<T>, c: seq<T>)
    ensures (a + b) + c == a + (b + c)
  {}

  // A cut in `a + b` is a cut in one of the two.
  lemma Splits<T>(p: seq<T>, a: seq<T>, b: seq<T>)
    requires p <= a + b
    ensures if |p| < |a| then p < a else p == a + p[|a|..] && p[|a|..] <= b
    ensures |a| <= |p| < |a + b| ==> p[|a|..] < b
  {
    if |p| < |a| {
      assert p == (a + b)[..|p|] == a[..|p|];
    } else {
      assert p[|a|..] == (a + b)[..|p|][|a|..] == b[..|p| - |a|];
    }
  }

  // The same of a cut text with something put in the place of the rest.
  lemma SplitsWith<T>(p: seq<T>, a: seq<T>, b: seq<T>, tail: seq<T>)
    requires p <= a + b
    ensures |p| < |a| ==> p < a
    ensures |a| <= |p| ==> p + tail == a + (p[|a|..] + tail) && p[|a|..] <= b
    ensures |a| <= |p| < |a + b| ==> p[|a|..] < b
  {
    Splits(p, a, b);
    if |a| <= |p| {
      Assoc(a, p[|a|..], tail);
    }
  }
}
