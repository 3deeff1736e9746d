/** The `memoize` closure: one memoizer per wrapped coroutine, holding the
    `cache` dictionary from call keys to futures. Futures are kept in a slot
    table and named by their index, since a caller goes on awaiting a future
    after its cache entry is gone. Each method is one atomic stretch of the
    source between two `await`s, and its effect on the whole state is that of
    the matching step of the Protocol module.
 */
module Memoize {
  import Keys
  import P = Protocol

  class Memoizer<A(==), V, E> {
    /** `cache`: call key to slot id. */
    var cache: map<Keys.Key<A>, nat>
    /** Every future ever created, with its key and whether its owner is at work. */
    var slots: seq<P.Slot<Keys.Key<A>, V, E>>
    /** The keys the wrapped coroutine has been invoked with, in order. */
    ghost var calls: seq<Keys.Key<A>>

    ghost function Model(): P.State<Keys.Key<A>, V, E>
      reads this
    {
      P.State(cache, slots, calls)
    }

    ghost predicate Valid()
      reads this
    {
      P.Valid(Model())
    }

    /** `cache = {}` */
    constructor ()
      ensures Valid() && P.NoStranded(Model())
      ensures Model() == P.Empty()
    {
      cache := map[];
      slots := [];
      calls := [];
    }

    /** The first stretch of `cached(*args, **kwargs)`: derive the key; join
        the cached future, or create, insert and own a new one and invoke the
        wrapped coroutine. */
    method Call(args: seq<A>, kwargs: seq<Keys.KeywordArg<A>>) returns (role: P.Role)
      requires Valid() && Keys.DistinctNames(kwargs)
      modifies this
      ensures Valid()
      ensures (Model(), role) == P.Call(old(Model()), Keys.MakeKey(args, kwargs))
      ensures old(Keys.MakeKey(args, kwargs) in cache) ==>
                role == P.Joined(old(cache[Keys.MakeKey(args, kwargs)])) && unchanged(this)
      ensures old(Keys.MakeKey(args, kwargs) !in cache) ==>
                && role == P.Owner(old(|slots|))
                && slots == old(slots) + [P.Slot(Keys.MakeKey(args, kwargs), P.Pending, true)]
                && cache == old(cache)[Keys.MakeKey(args, kwargs) := role.id]
                && calls == old(calls) + [Keys.MakeKey(args, kwargs)]
    {
      var key := Keys.MakeKey(args, kwargs);
      if key in cache {
        role := P.Joined(cache[key]);
      } else {
        var id := |slots|;
        slots := slots + [P.Slot(key, P.Pending, true)];
        cache := cache[key := id];
        calls := calls + [key];
        role := P.Owner(id);
      }
    }

    /** The owner's stretch after the wrapped coroutine returns or raises, as
        written. `keyError` is true when the failure path's `del cache[key]`
        finds no entry; then the future is never published. */
    method Complete(id: nat, outcome: P.Outcome<V, E>) returns (keyError: bool)
      requires Valid() && id < |slots| && slots[id].invoking
      modifies this
      ensures Valid()
      ensures (Model(), keyError) == P.Complete(old(Model()), id, outcome)
      ensures calls == old(calls) && |slots| == old(|slots|)
      ensures forall i :: 0 <= i < |slots| && i != id ==> slots[i] == old(slots[i])
    {
      var key := slots[id].key;
      keyError := false;
      match outcome
      case Returned(v) =>
        slots := slots[id := P.Slot(key, P.Resolved(v), false)];
      case Raised(e) =>
        if key in cache {
          cache := cache - {key};
          slots := slots[id := P.Slot(key, P.Failed(e), false)];
        } else {
          keyError := true;
          slots := slots[id := P.Slot(key, P.Pending, false)];
        }
    }

    /** The corrected owner's stretch: remove the entry only if it still
        names this future, and always publish the outcome. */
    method CompleteGuarded(id: nat, outcome: P.Outcome<V, E>)
      requires Valid() && id < |slots| && slots[id].invoking
      modifies this
      ensures Valid()
      ensures old(P.NoStranded(Model())) ==> P.NoStranded(Model())
      ensures Model() == P.CompleteGuarded(old(Model()), id, outcome)
      ensures P.Observe(Model(), id) == P.Some(outcome)
    {
      P.CompletePreservesValid(Model(), id, outcome);
      if P.NoStranded(Model()) {
        P.GuardedCompletionPublishes(Model(), id, outcome);
      }
      var key := slots[id].key;
      match outcome
      case Returned(v) =>
        slots := slots[id := P.Slot(key, P.Resolved(v), false)];
      case Raised(e) =>
        if key in cache && cache[key] == id {
          cache := cache - {key};
        }
        slots := slots[id := P.Slot(key, P.Failed(e), false)];
    }

    /** `return await future`: None while it is pending, otherwise what it
        holds; owner and joiners of one future all read it here. */
    method Await(id: nat) returns (r: P.Option<P.Outcome<V, E>>)
      requires Valid() && id < |slots|
      ensures r.None? <==> slots[id].future.Pending?
      ensures forall v :: r == P.Some(P.Returned(v)) <==> slots[id].future == P.Resolved(v)
      ensures forall e :: r == P.Some(P.Raised(e)) <==> slots[id].future == P.Failed(e)
    {
      match slots[id].future
      case Pending => r := P.None;
      case Resolved(v) => r := P.Some(P.Returned(v));
      case Failed(e) => r := P.Some(P.Raised(e));
    }

    /** `invalidate(*args, **kwargs)`: `del cache[key]`; `found` is false
        where Python raises `KeyError`, and then nothing changes. */
    method Invalidate(args: seq<A>, kwargs: seq<Keys.KeywordArg<A>>) returns (found: bool)
      requires Valid() && Keys.DistinctNames(kwargs)
      modifies this
      ensures Valid()
      ensures (Model(), found) == P.Invalidate(old(Model()), Keys.MakeKey(args, kwargs))
      ensures found <==> old(Keys.MakeKey(args, kwargs) in cache)
      ensures cache == old(cache) - {Keys.MakeKey(args, kwargs)}
      ensures slots == old(slots) && calls == old(calls)
    {
      var key := Keys.MakeKey(args, kwargs);
      found := key in cache;
      if found {
        cache := cache - {key};
      }
    }
  }
}
