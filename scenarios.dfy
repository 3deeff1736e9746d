/** The behaviours exercised by the repository's tests, replayed against a
    fresh Memoizer. Each method interleaves the atomic steps the way the
    event loop does in the test and proves, from the methods' contracts
    alone, what every caller ends up with. The last two methods replay no
    test: they play the interleaving of the first finding in the README,
    once as written and once corrected.
 */
module Scenarios {
  import Keys
  import P = Protocol
  import opened Memoize

  /** Two concurrent identical calls: the first owns, the second joins; one
      invocation; both return the owner's value. */
  method ConcurrentIdenticalCalls<A(==), V, E>(args: seq<A>, kwargs: seq<Keys.KeywordArg<A>>, v: V)
    returns (first: P.Role, second: P.Role, a: P.Option<P.Outcome<V, E>>, b: P.Option<P.Outcome<V, E>>)
    requires Keys.DistinctNames(kwargs)
    ensures first == P.Owner(0) && second == P.Joined(0)
    ensures a == b == P.Some(P.Returned(v))
  {
    var m := new Memoizer<A, V, E>();
    first := m.Call(args, kwargs);
    second := m.Call(args, kwargs);
    assert m.calls == [Keys.MakeKey(args, kwargs)];
    var _ := m.Complete(first.id, P.Returned(v));
    a := m.Await(first.id);
    b := m.Await(second.id);
  }

  /** Two concurrent calls that differ in one keyword value: two owners, two
      futures, each caller gets the value of its own invocation. */
  method DifferentCallsNotCoalesced<A(==), V, E>(args: seq<A>, kwargs1: seq<Keys.KeywordArg<A>>,
                                                 kwargs2: seq<Keys.KeywordArg<A>>, v1: V, v2: V)
    returns (first: P.Role, second: P.Role, a: P.Option<P.Outcome<V, E>>, b: P.Option<P.Outcome<V, E>>)
    requires Keys.DistinctNames(kwargs1) && Keys.DistinctNames(kwargs2)
    requires kwargs1 != kwargs2
    ensures first == P.Owner(0) && second == P.Owner(1)
    ensures a == P.Some(P.Returned(v1)) && b == P.Some(P.Returned(v2))
  {
    var m := new Memoizer<A, V, E>();
    first := m.Call(args, kwargs1);
    second := m.Call(args, kwargs2);
    var _ := m.Complete(first.id, P.Returned(v1));
    var _ := m.Complete(second.id, P.Returned(v2));
    a := m.Await(first.id);
    b := m.Await(second.id);
  }

  /** A call after a successful one joins the cached future and returns the
      first value, although the wrapped coroutine would now return another. */
  method SequentialCallsMemoized<A(==), V, E>(args: seq<A>, kwargs: seq<Keys.KeywordArg<A>>, v: V)
    returns (second: P.Role, b: P.Option<P.Outcome<V, E>>)
    requires Keys.DistinctNames(kwargs)
    ensures second == P.Joined(0)
    ensures b == P.Some(P.Returned(v))
  {
    var m := new Memoizer<A, V, E>();
    var first := m.Call(args, kwargs);
    var _ := m.Complete(first.id, P.Returned(v));
    var _ := m.Await(first.id);
    second := m.Call(args, kwargs);
    b := m.Await(second.id);
  }

  /** After an invalidation the next identical call is a new owner: the
      wrapped coroutine runs again and the caller gets the new value. */
  method InvalidateForcesReinvocation<A(==), V, E>(args: seq<A>, kwargs: seq<Keys.KeywordArg<A>>, v1: V, v2: V)
    returns (found: bool, second: P.Role, b: P.Option<P.Outcome<V, E>>)
    requires Keys.DistinctNames(kwargs)
    ensures found && second == P.Owner(1)
    ensures b == P.Some(P.Returned(v2))
  {
    var m := new Memoizer<A, V, E>();
    var first := m.Call(args, kwargs);
    var _ := m.Complete(first.id, P.Returned(v1));
    found := m.Invalidate(args, kwargs);
    second := m.Call(args, kwargs);
    var _ := m.Complete(second.id, P.Returned(v2));
    b := m.Await(second.id);
  }

  /** Two calls that differ in one keyword are both cached; invalidating the
      first and calling both again re-invokes only the first. It gets the new
      value, the second still gets its cached value, and the wrapped coroutine
      was invoked with the first key, the second key and the first key again. */
  method InvalidateOneOfTwo<A(==), V, E>(args: seq<A>, kwargs1: seq<Keys.KeywordArg<A>>,
                                         kwargs2: seq<Keys.KeywordArg<A>>, v1: V, v2: V, v3: V)
    returns (third: P.Role, fourth: P.Role, c: P.Option<P.Outcome<V, E>>, d: P.Option<P.Outcome<V, E>>,
             ghost log: seq<Keys.Key<A>>)
    requires Keys.DistinctNames(kwargs1) && Keys.DistinctNames(kwargs2)
    requires kwargs1 != kwargs2
    ensures third == P.Owner(2) && fourth == P.Joined(1)
    ensures c == P.Some(P.Returned(v3)) && d == P.Some(P.Returned(v2))
    ensures log == [Keys.MakeKey(args, kwargs1), Keys.MakeKey(args, kwargs2), Keys.MakeKey(args, kwargs1)]
  {
    var m := new Memoizer<A, V, E>();
    CacheTwo(m, args, kwargs1, kwargs2, v1, v2);
    third, fourth := InvalidateFirstAndRecall(m, args, kwargs1, kwargs2, v1, v2, v3);
    c := m.Await(2);
    d := m.Await(1);
    log := m.calls;
  }

  /** The first half of InvalidateOneOfTwo: two concurrent calls with
      different keys, both completed successfully. */
  method CacheTwo<A(==), V, E>(m: Memoizer<A, V, E>, args: seq<A>, kwargs1: seq<Keys.KeywordArg<A>>,
                               kwargs2: seq<Keys.KeywordArg<A>>, v1: V, v2: V)
    requires Keys.DistinctNames(kwargs1) && Keys.DistinctNames(kwargs2)
    requires m.Valid() && m.Model() == P.Empty()
    requires kwargs1 != kwargs2
    modifies m
    ensures m.Valid()
    ensures m.cache == map[Keys.MakeKey(args, kwargs1) := 0, Keys.MakeKey(args, kwargs2) := 1]
    ensures m.slots == [P.Slot(Keys.MakeKey(args, kwargs1), P.Resolved(v1), false),
                        P.Slot(Keys.MakeKey(args, kwargs2), P.Resolved(v2), false)]
    ensures m.calls == [Keys.MakeKey(args, kwargs1), Keys.MakeKey(args, kwargs2)]
  {
    var first := m.Call(args, kwargs1);
    var second := m.Call(args, kwargs2);
    var _ := m.Complete(first.id, P.Returned(v1));
    var _ := m.Complete(second.id, P.Returned(v2));
  }

  /** The second half of InvalidateOneOfTwo: invalidate the first call, call
      both again, and complete the new invocation. */
  method InvalidateFirstAndRecall<A(==), V, E>(m: Memoizer<A, V, E>, args: seq<A>, kwargs1: seq<Keys.KeywordArg<A>>,
                                               kwargs2: seq<Keys.KeywordArg<A>>, v1: V, v2: V, v3: V)
    returns (third: P.Role, fourth: P.Role)
    requires Keys.DistinctNames(kwargs1) && Keys.DistinctNames(kwargs2)
    requires m.Valid()
    requires m.cache == map[Keys.MakeKey(args, kwargs1) := 0, Keys.MakeKey(args, kwargs2) := 1]
    requires m.slots == [P.Slot(Keys.MakeKey(args, kwargs1), P.Resolved(v1), false),
                         P.Slot(Keys.MakeKey(args, kwargs2), P.Resolved(v2), false)]
    requires m.calls == [Keys.MakeKey(args, kwargs1), Keys.MakeKey(args, kwargs2)]
    requires kwargs1 != kwargs2
    modifies m
    ensures m.Valid()
    ensures third == P.Owner(2) && fourth == P.Joined(1)
    ensures |m.slots| == 3
    ensures m.slots[1].future == P.Resolved(v2) && m.slots[2].future == P.Resolved(v3)
    ensures m.calls == [Keys.MakeKey(args, kwargs1), Keys.MakeKey(args, kwargs2), Keys.MakeKey(args, kwargs1)]
  {
    var found := m.Invalidate(args, kwargs1);
    assert m.cache == map[Keys.MakeKey(args, kwargs2) := 1];
    third := m.Call(args, kwargs1);
    assert third == P.Owner(2);
    fourth := m.Call(args, kwargs2);
    var _ := m.Complete(2, P.Returned(v3));
  }

  /** Two concurrent identical calls whose one invocation raises (or is
      cancelled): both callers get the very same exception. */
  method ConcurrentCallsShareException<A(==), V, E>(args: seq<A>, kwargs: seq<Keys.KeywordArg<A>>, e: E)
    returns (first: P.Role, second: P.Role, a: P.Option<P.Outcome<V, E>>, b: P.Option<P.Outcome<V, E>>)
    requires Keys.DistinctNames(kwargs)
    ensures first == P.Owner(0) && second == P.Joined(0)
    ensures a == b == P.Some(P.Raised(e))
  {
    var m := new Memoizer<A, V, E>();
    first := m.Call(args, kwargs);
    second := m.Call(args, kwargs);
    var keyError := m.Complete(first.id, P.Raised(e));
    assert !keyError;
    a := m.Await(first.id);
    b := m.Await(second.id);
  }

  /** A call after a failed one is a fresh owner: the failure was not cached
      and the second caller gets the second invocation's exception. */
  method SequentialCallsAfterException<A(==), V, E>(args: seq<A>, kwargs: seq<Keys.KeywordArg<A>>, e1: E, e2: E)
    returns (second: P.Role, a: P.Option<P.Outcome<V, E>>, b: P.Option<P.Outcome<V, E>>)
    requires Keys.DistinctNames(kwargs)
    ensures second == P.Owner(1)
    ensures a == P.Some(P.Raised(e1)) && b == P.Some(P.Raised(e2))
  {
    var m := new Memoizer<A, V, E>();
    var first := m.Call(args, kwargs);
    assert first == P.Owner(0);
    var _ := m.Complete(0, P.Raised(e1));
    assert m.cache == map[] && |m.slots| == 1;
    a := m.Await(0);
    second := m.Call(args, kwargs);
    assert second == P.Owner(1);
    var _ := m.Complete(1, P.Raised(e2));
    b := m.Await(1);
  }

  /** As written: a joiner of a call whose key is invalidated before the
      owner fails is never resumed, and the owner's caller gets `KeyError`. */
  method InvalidateThenFailStrandsJoiner<A(==), V, E>(args: seq<A>, kwargs: seq<Keys.KeywordArg<A>>, e: E)
    returns (keyError: bool, b: P.Option<P.Outcome<V, E>>)
    requires Keys.DistinctNames(kwargs)
    ensures keyError && b == P.None
  {
    var m := new Memoizer<A, V, E>();
    var first := m.Call(args, kwargs);
    var second := m.Call(args, kwargs);
    var _ := m.Invalidate(args, kwargs);
    keyError := m.Complete(first.id, P.Raised(e));
    b := m.Await(second.id);
  }

  /** Corrected: the same interleaving publishes the exception to the joiner. */
  method InvalidateThenFailGuarded<A(==), V, E>(args: seq<A>, kwargs: seq<Keys.KeywordArg<A>>, e: E)
    returns (b: P.Option<P.Outcome<V, E>>)
    requires Keys.DistinctNames(kwargs)
    ensures b == P.Some(P.Raised(e))
  {
    var m := new Memoizer<A, V, E>();
    var first := m.Call(args, kwargs);
    var second := m.Call(args, kwargs);
    var _ := m.Invalidate(args, kwargs);
    m.CompleteGuarded(first.id, P.Raised(e));
    b := m.Await(second.id);
  }
}
