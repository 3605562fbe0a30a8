/** Sequences of events, read from their latest end. */
module Traces {

  function Before<T>(es: seq<T>): seq<T>
    requires es != []
  {
    es[..|es| - 1]
  }

  function Last<T>(es: seq<T>): T
    requires es != []
  {
    es[|es| - 1]
  }

  ghost predicate Some<T>(es: seq<T>, p: T -> bool) {
    exists i :: 0 <= i < |es| && p(es[i])
  }

  lemma SomeOneMore<T>(es: seq<T>, p: T -> bool)
    requires es != []
    ensures Some(es, p) <==> Some(Before(es), p) || p(Last(es))
  {
    if Some(es, p) {
      var i :| 0 <= i < |es| && p(es[i]);
      if i < |es| - 1 { assert p(Before(es)[i]); }
    }
    if Some(Before(es), p) {
      var i :| 0 <= i < |es| - 1 && p(Before(es)[i]);
      assert p(es[i]);
    }
  }

  /** Drops one element. */
  function Without<T>(s: seq<T>, i: nat): seq<T>
    requires i < |s|
  {
    s[..i] + s[i + 1..]
  }
}
