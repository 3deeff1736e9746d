/** Call keys of the memoizer.

    A call `cached(*args, **kwargs)` is identified by the pair of its
    positional arguments, in call order, and the items of its keyword
    dictionary. From Python 3.6 on the keyword dictionary keeps the order the
    caller wrote them in, and this module models that Python: keyword order
    is part of the key, so `f(a=1, b=2)` and `f(b=2, a=1)` are different
    keys. On Python 3.5 the items come in hash order instead.
 */
module Keys {

  /** One keyword argument: its name and its value. */
  type KeywordArg<A> = (string, A)

  /** The key `(args, tuple(kwargs.items()))`. */
  datatype Key<A> = Key(args: seq<A>, kwargs: seq<KeywordArg<A>>)

  /** Python builds a keyword dictionary, so a name occurs at most once; the
      memoizer's `Call` and `Invalidate` take only such keyword lists. */
  predicate DistinctNames<A>(kwargs: seq<KeywordArg<A>>)
  {
    forall i, j :: 0 <= i < j < |kwargs| ==> kwargs[i].0 != kwargs[j].0
  }

  /** The key of one call; the same derivation serves `cached` and `invalidate`. */
  function MakeKey<A>(args: seq<A>, kwargs: seq<KeywordArg<A>>): (k: Key<A>)
    ensures k.args == args && k.kwargs == kwargs
  {
    Key(args, kwargs)
  }

  /** Two calls share a key exactly when they agree on every positional
      argument, in order, and on every keyword item, in order. */
  lemma SameKeyIffSameCall<A>(args1: seq<A>, kwargs1: seq<KeywordArg<A>>,
                              args2: seq<A>, kwargs2: seq<KeywordArg<A>>)
    ensures MakeKey(args1, kwargs1) == MakeKey(args2, kwargs2)
            <==> args1 == args2 && kwargs1 == kwargs2
  {
  }

  /** Calls that differ in one keyword value get different keys. */
  lemma DifferentKeywordValueDifferentKey<A>(args: seq<A>, kwargs: seq<KeywordArg<A>>,
                                             i: nat, v: A)
    requires i < |kwargs| && kwargs[i].1 != v
    ensures MakeKey(args, kwargs) != MakeKey(args, kwargs[i := (kwargs[i].0, v)])
  {
    assert kwargs[i := (kwargs[i].0, v)][i].1 == v;
  }

  /** The keyword items are taken in the order given and are not sorted:
      the same two keywords written in the other order give another key. */
  lemma KeywordOrderIsSignificant<A>(args: seq<A>, n1: string, v1: A, n2: string, v2: A)
    requires n1 != n2
    ensures DistinctNames([(n1, v1), (n2, v2)]) && DistinctNames([(n2, v2), (n1, v1)])
    ensures MakeKey(args, [(n1, v1), (n2, v2)]) != MakeKey(args, [(n2, v2), (n1, v1)])
  {
    assert [(n1, v1), (n2, v2)][0] != [(n2, v2), (n1, v1)][0];
  }
}
