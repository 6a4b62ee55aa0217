/** Sequences described by how they end. */
module Traces {
  predicate Ends<T(==)>(steps: seq<T>, tail: seq<T>) {
    |tail| <= |steps| && steps[|steps| - |tail|..] == tail
  }

  /** All but the last m. */
  function Without<T>(steps: seq<T>, m: nat): seq<T>
    requires m <= |steps|
  {
    steps[..|steps| - m]
  }

  lemma EndsMore<T>(steps: seq<T>, tail: seq<T>, a: T)
    requires Ends(steps, tail)
    ensures Ends(steps + [a], tail + [a]) && Without(steps + [a], |tail| + 1) == Without(steps, |tail|)
  {
  }

  lemma EndsSuffix<T>(steps: seq<T>, middle: seq<T>, tail: seq<T>)
    ensures Ends(steps, middle + tail) ==> Ends(steps, tail)
  {
    if Ends(steps, middle + tail) {
      assert steps[|steps| - |middle + tail|..][|middle|..] == steps[|steps| - |tail|..];
    }
  }

  lemma EndsLast<T>(steps: seq<T>, tail: seq<T>)
    ensures Ends(steps, tail) && tail != [] ==> steps != [] && steps[|steps| - 1] == tail[|tail| - 1]
  {
    if Ends(steps, tail) && tail != [] {
      assert steps[|steps| - |tail|..][|tail| - 1] == steps[|steps| - 1];
    }
  }
}
