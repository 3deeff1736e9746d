/** The single-flight protocol of the memoizer as a state machine.

    Under cooperative scheduling every stretch of code between two `await`s
    runs without interruption, so one memoized call is three atomic steps:
    `Call` (look the key up, and when it is missing insert a fresh pending
    future and start the wrapped coroutine), `Complete` (the wrapped
    coroutine has returned or raised, and its outcome is published) and the
    final `await future`, observed through `Observe`. `Invalidate` is the
    fourth step. Futures live in a slot table indexed by slot id and are never
    removed from it, because a caller may still hold and await a future that
    is no longer in the cache.
 */
module Protocol {

  datatype Option<T> = None | Some(value: T)

  /** What the wrapped coroutine did: returned a value or raised an
      exception (cancellation is one more exception). */
  datatype Outcome<V, E> = Returned(value: V) | Raised(error: E)

  /** The state of one asyncio future. */
  datatype Future<V, E> = Pending | Resolved(value: V) | Failed(error: E)

  /** One future with the key it was created for; `invoking` is true while
      the coroutine of the caller that created it (its owner) is still
      awaiting the wrapped coroutine. */
  datatype Slot<K, V, E> = Slot(key: K, future: Future<V, E>, invoking: bool)

  /** The closure's `cache`, the slot table, and the log of invocations of
      the wrapped coroutine (the keys it was called with, in order). */
  datatype State<K, V, E> = State(cache: map<K, nat>, slots: seq<Slot<K, V, E>>, calls: seq<K>)

  /** How a call attached to its future: it created it, or it found it. */
  datatype Role = Owner(id: nat) | Joined(id: nat)

  /** Which failure path completions take: the one the source has, or the
      corrected one that removes the cache entry only if it is still the
      owner's own. */
  datatype Policy = AsWritten | Guarded

  /** One atomic step of the event loop. */
  datatype Event<K, V, E> =
    | CallEvent(key: K)
    | CompleteEvent(id: nat, outcome: Outcome<V, E>)
    | InvalidateEvent(key: K)

  function Empty<K, V, E>(): State<K, V, E>
  {
    State(map[], [], [])
  }

  /** The number of times the wrapped coroutine was invoked with key `k`. */
  function Invocations<K, V, E>(s: State<K, V, E>, k: K): nat
  {
    multiset(s.calls)[k]
  }

  /** The invariant every step keeps: one invocation per slot, every cache
      entry names a slot of its own key that has not failed, a cached pending
      slot has its owner at work, and an owner at work has not yet published. */
  ghost predicate Valid<K, V, E>(s: State<K, V, E>)
  {
    && |s.calls| == |s.slots|
    && (forall i :: 0 <= i < |s.slots| ==> s.calls[i] == s.slots[i].key)
    && (forall k :: k in s.cache ==>
          && s.cache[k] < |s.slots|
          && s.slots[s.cache[k]].key == k
          && !s.slots[s.cache[k]].future.Failed?
          && (s.slots[s.cache[k]].future.Pending? ==> s.slots[s.cache[k]].invoking))
    && (forall i :: 0 <= i < |s.slots| && s.slots[i].invoking ==> s.slots[i].future.Pending?)
  }

  /** No future is left pending once its owner has finished. */
  ghost predicate NoStranded<K, V, E>(s: State<K, V, E>)
  {
    forall i :: 0 <= i < |s.slots| && s.slots[i].future.Pending? ==> s.slots[i].invoking
  }

  /** `if key in cache: future = cache[key]`, otherwise create a future,
      insert it and invoke the wrapped coroutine once. */
  function Call<K, V, E>(s: State<K, V, E>, k: K): (r: (State<K, V, E>, Role))
    ensures r.1.Owner? <==> k !in s.cache
    ensures k in r.0.cache && r.0.cache[k] == r.1.id
    ensures r.1.Owner? ==> r.1.id == |s.slots|
    ensures r.0.cache == if r.1.Owner? then s.cache[k := |s.slots|] else s.cache
    ensures r.0.slots == if r.1.Owner? then s.slots + [Slot(k, Pending, true)] else s.slots
    ensures r.0.calls == if r.1.Owner? then s.calls + [k] else s.calls
  {
    if k in s.cache then
      (s, Joined(s.cache[k]))
    else
      var id := |s.slots|;
      (State(s.cache[k := id], s.slots + [Slot(k, Pending, true)], s.calls + [k]), Owner(id))
  }

  /** The owner's continuation as written: on success `set_result`; on an
      exception `del cache[key]` and then `set_exception`. When the key is no
      longer in the cache the `del` raises `KeyError` out of the `except`
      block, `set_exception` never runs and the second component is true:
      the owner's caller receives that `KeyError`. */
  function Complete<K, V, E>(s: State<K, V, E>, id: nat, o: Outcome<V, E>): (r: (State<K, V, E>, bool))
    requires id < |s.slots| && s.slots[id].invoking
    ensures r.1 <==> o.Raised? && s.slots[id].key !in s.cache
    ensures |r.0.slots| == |s.slots| && r.0.calls == s.calls
    ensures !r.0.slots[id].invoking && r.0.slots[id].key == s.slots[id].key
    ensures forall i :: 0 <= i < |s.slots| && i != id ==> r.0.slots[i] == s.slots[i]
    ensures !r.1 ==> Observe(r.0, id) == Some(o)
    ensures r.1 ==> Observe(r.0, id) == None
    ensures r.0.cache == if o.Raised? then s.cache - {s.slots[id].key} else s.cache
  {
    var slot := s.slots[id];
    match o
    case Returned(v) =>
      (s.(slots := s.slots[id := Slot(slot.key, Resolved(v), false)]), false)
    case Raised(e) =>
      if slot.key in s.cache then
        (s.(cache := s.cache - {slot.key}, slots := s.slots[id := Slot(slot.key, Failed(e), false)]), false)
      else
        (s.(slots := s.slots[id := Slot(slot.key, Pending, false)]), true)
  }

  /** The corrected continuation: the failure path removes the cache entry
      only when it still holds this owner's future, and always publishes. */
  function CompleteGuarded<K, V, E>(s: State<K, V, E>, id: nat, o: Outcome<V, E>): (t: State<K, V, E>)
    requires id < |s.slots| && s.slots[id].invoking
    ensures |t.slots| == |s.slots| && t.calls == s.calls
    ensures !t.slots[id].invoking && t.slots[id].key == s.slots[id].key
    ensures forall i :: 0 <= i < |s.slots| && i != id ==> t.slots[i] == s.slots[i]
    ensures Observe(t, id) == Some(o)
    ensures t.cache.Keys <= s.cache.Keys
    ensures forall k :: k in t.cache ==> t.cache[k] == s.cache[k]
    ensures forall k :: k in s.cache && k !in t.cache ==> o.Raised? && s.cache[k] == id
  {
    var slot := s.slots[id];
    match o
    case Returned(v) =>
      s.(slots := s.slots[id := Slot(slot.key, Resolved(v), false)])
    case Raised(e) =>
      var cache := if slot.key in s.cache && s.cache[slot.key] == id then s.cache - {slot.key} else s.cache;
      s.(cache := cache, slots := s.slots[id := Slot(slot.key, Failed(e), false)])
  }

  /** `del cache[key]`; the second component is false when the key is
      missing, where Python raises `KeyError` and nothing changes. */
  function Invalidate<K, V, E>(s: State<K, V, E>, k: K): (r: (State<K, V, E>, bool))
    ensures r.1 <==> k in s.cache
    ensures r.0.cache == s.cache - {k}
    ensures r.0.slots == s.slots && r.0.calls == s.calls
  {
    if k in s.cache then (s.(cache := s.cache - {k}), true) else (s, false)
  }

  /** `return await future`: None while the future is pending (the caller
      stays suspended), otherwise the value returned or the exception raised. */
  function Observe<K, V, E>(s: State<K, V, E>, id: nat): (r: Option<Outcome<V, E>>)
    requires id < |s.slots|
    ensures r.None? <==> s.slots[id].future.Pending?
    ensures s.slots[id].future.Resolved? ==> r == Some(Returned(s.slots[id].future.value))
    ensures s.slots[id].future.Failed? ==> r == Some(Raised(s.slots[id].future.error))
  {
    match s.slots[id].future
    case Pending => None
    case Resolved(v) => Some(Returned(v))
    case Failed(e) => Some(Raised(e))
  }

  /** One event; a completion of a slot whose owner is not at work cannot
      happen in the source and leaves the state alone. */
  function Step<K, V, E>(s: State<K, V, E>, ev: Event<K, V, E>, p: Policy): State<K, V, E>
  {
    match ev
    case CallEvent(k) => Call(s, k).0
    case CompleteEvent(id, o) =>
      if id < |s.slots| && s.slots[id].invoking then
        (if p.Guarded? then CompleteGuarded(s, id, o) else Complete(s, id, o).0)
      else s
    case InvalidateEvent(k) => Invalidate(s, k).0
  }

  /** Any interleaving of events. */
  function Run<K, V, E>(s: State<K, V, E>, evs: seq<Event<K, V, E>>, p: Policy): State<K, V, E>
    decreases |evs|
  {
    if evs == [] then s else Run(Step(s, evs[0], p), evs[1..], p)
  }

  function Repeat<T>(x: T, n: nat): seq<T>
  {
    if n == 0 then [] else [x] + Repeat(x, n - 1)
  }

  /* ---------------------------------------------------------------------
     Single steps
     --------------------------------------------------------------------- */

  lemma EmptyIsValid<K, V, E>()
    ensures Valid(Empty<K, V, E>()) && NoStranded(Empty<K, V, E>()) && InvokingIsCached(Empty<K, V, E>())
  {
  }

  /** A call whose key is cached inserts nothing, invokes nothing and
      attaches to the cached future. */
  lemma CallHitJoins<K, V, E>(s: State<K, V, E>, k: K)
    requires k in s.cache
    ensures Call(s, k) == (s, Joined(s.cache[k]))
  {
  }

  /** A call whose key is missing becomes the owner of one new pending
      future, cached under its key, and invokes the wrapped coroutine once
      with that key; no other entry, slot or count changes. */
  lemma CallMissOwns<K, V, E>(s: State<K, V, E>, k: K)
    requires Valid(s) && k !in s.cache
    ensures var (t, role) := Call(s, k);
      && role == Owner(|s.slots|)
      && t.slots == s.slots + [Slot(k, Pending, true)]
      && t.cache == s.cache[k := role.id]
      && Invocations(t, k) == Invocations(s, k) + 1
      && (forall k' :: k' != k ==> Invocations(t, k') == Invocations(s, k'))
  {
  }

  lemma CallPreservesValid<K, V, E>(s: State<K, V, E>, k: K)
    requires Valid(s)
    ensures Valid(Call(s, k).0)
  {
  }

  lemma CompletePreservesValid<K, V, E>(s: State<K, V, E>, id: nat, o: Outcome<V, E>)
    requires Valid(s) && id < |s.slots| && s.slots[id].invoking
    ensures Valid(Complete(s, id, o).0) && Valid(CompleteGuarded(s, id, o))
  {
  }

  lemma StepPreservesValid<K, V, E>(s: State<K, V, E>, ev: Event<K, V, E>, p: Policy)
    requires Valid(s)
    ensures Valid(Step(s, ev, p))
  {
    match ev
    case CallEvent(k) =>
      CallPreservesValid(s, k);
    case CompleteEvent(id, o) =>
      if id < |s.slots| && s.slots[id].invoking {
        CompletePreservesValid(s, id, o);
      }
    case InvalidateEvent(k) =>
  }

  lemma {:induction false} RunPreservesValid<K, V, E>(s: State<K, V, E>, evs: seq<Event<K, V, E>>, p: Policy)
    requires Valid(s)
    ensures Valid(Run(s, evs, p))
    decreases |evs|
  {
    if evs != [] {
      StepPreservesValid(s, evs[0], p);
      RunPreservesValid(Step(s, evs[0], p), evs[1..], p);
    }
  }

  /** A successful owner resolves its future with the value and leaves every
      cache entry in place, so a later call with the key joins that future
      and observes the value without a new invocation. */
  lemma SuccessIsCached<K, V, E>(s: State<K, V, E>, id: nat, v: V, p: Policy)
    requires Valid(s) && id < |s.slots| && s.slots[id].invoking
    requires s.slots[id].key in s.cache && s.cache[s.slots[id].key] == id
    ensures var t := Step(s, CompleteEvent(id, Returned(v)), p);
      var k := s.slots[id].key;
      && t.cache == s.cache
      && Observe(t, id) == Some(Returned(v))
      && Call(t, k) == (t, Joined(id))
      && Invocations(Call(t, k).0, k) == Invocations(s, k)
  {
  }

  /** A failed owner whose future is still cached removes the entry and
      publishes the very exception it got; the next call with the key becomes
      a fresh owner and invokes the wrapped coroutine again. */
  lemma FailureIsNotCached<K, V, E>(s: State<K, V, E>, id: nat, e: E, p: Policy)
    requires Valid(s) && id < |s.slots| && s.slots[id].invoking
    requires s.slots[id].key in s.cache && s.cache[s.slots[id].key] == id
    ensures var t := Step(s, CompleteEvent(id, Raised(e)), p);
      var k := s.slots[id].key;
      && t.cache == s.cache - {k}
      && Observe(t, id) == Some(Raised(e))
      && Call(t, k).1 == Owner(|s.slots|)
      && Invocations(Call(t, k).0, k) == Invocations(s, k) + 1
  {
  }

  /** As written, the failure path deletes whatever future the key holds:
      the entry disappears even when it is a newer future than the owner's. */
  lemma AsWrittenFailureDeletesCurrentEntry<K, V, E>(s: State<K, V, E>, id: nat, e: E)
    requires Valid(s) && id < |s.slots| && s.slots[id].invoking && s.slots[id].key in s.cache
    ensures var (t, keyError) := Complete(s, id, Raised(e));
      && !keyError
      && t.cache == s.cache - {s.slots[id].key}
      && Observe(t, id) == Some(Raised(e))
  {
  }

  /** As written, the failure path needs the key in the cache: without it the
      owner's caller gets `KeyError` and the future stays pending for good. */
  lemma AsWrittenFailureWithoutEntry<K, V, E>(s: State<K, V, E>, id: nat, e: E)
    requires Valid(s) && id < |s.slots| && s.slots[id].invoking && s.slots[id].key !in s.cache
    ensures var (t, keyError) := Complete(s, id, Raised(e));
      && keyError
      && t.cache == s.cache
      && Observe(t, id) == None
      && !t.slots[id].invoking
  {
  }

  /** `invalidate` succeeds exactly when the key is cached, then removes that
      entry and nothing else; futures already handed out are untouched. */
  lemma InvalidateRemovesOnlyItsKey<K, V, E>(s: State<K, V, E>, k: K)
    ensures var (t, found) := Invalidate(s, k);
      && (found <==> k in s.cache)
      && t.slots == s.slots && t.calls == s.calls
      && k !in t.cache
      && (forall k' :: k' != k ==> (k' in t.cache <==> k' in s.cache))
      && (forall k' :: k' != k && k' in s.cache ==> t.cache[k'] == s.cache[k'])
      && (!found ==> t == s)
  {
  }

  /** After invalidating a cached key, the next call with it is a new owner
      and invokes the wrapped coroutine again, while the invalidated future
      keeps whatever its waiters will observe. */
  lemma InvalidateForcesNewInvocation<K, V, E>(s: State<K, V, E>, k: K)
    requires Valid(s) && k in s.cache
    ensures var t := Invalidate(s, k).0;
      var (u, role) := Call(t, k);
      && role == Owner(|s.slots|)
      && role.id != s.cache[k]
      && Invocations(u, k) == Invocations(s, k) + 1
      && Observe(u, s.cache[k]) == Observe(s, s.cache[k])
  {
  }

  /* ---------------------------------------------------------------------
     Interleavings
     --------------------------------------------------------------------- */

  /** A settled future never changes again, whatever happens afterwards:
      every caller that awaits it, early or late, observes the same value or
      the same exception. */
  lemma {:induction false} SettledIsFinal<K, V, E>(s: State<K, V, E>, evs: seq<Event<K, V, E>>, p: Policy, id: nat)
    requires Valid(s) && id < |s.slots| && !s.slots[id].future.Pending?
    ensures id < |Run(s, evs, p).slots|
    ensures Run(s, evs, p).slots[id] == s.slots[id]
    ensures Observe(Run(s, evs, p), id) == Observe(s, id)
    decreases |evs|
  {
    if evs != [] {
      var t := Step(s, evs[0], p);
      StepPreservesValid(s, evs[0], p);
      assert id < |t.slots| && t.slots[id] == s.slots[id];
      SettledIsFinal(t, evs[1..], p, id);
    }
  }

  /** A future whose owner finished without publishing stays pending under
      every later interleaving: its waiters never resume. */
  lemma {:induction false} StrandedStaysPending<K, V, E>(s: State<K, V, E>, evs: seq<Event<K, V, E>>, p: Policy, id: nat)
    requires Valid(s) && id < |s.slots| && s.slots[id].future.Pending? && !s.slots[id].invoking
    ensures id < |Run(s, evs, p).slots|
    ensures Observe(Run(s, evs, p), id) == None
    ensures !Run(s, evs, p).slots[id].invoking
    decreases |evs|
  {
    if evs != [] {
      var t := Step(s, evs[0], p);
      StepPreservesValid(s, evs[0], p);
      assert id < |t.slots| && t.slots[id] == s.slots[id];
      StrandedStaysPending(t, evs[1..], p, id);
    }
  }

  /** A future is published at most once and only by its owner: the only
      step that changes a future is the completion of that future's own owner,
      which is at work before it and no longer after it. */
  lemma OnlyOwnerPublishes<K, V, E>(s: State<K, V, E>, ev: Event<K, V, E>, p: Policy, id: nat)
    requires Valid(s) && id < |s.slots|
    ensures var t := Step(s, ev, p);
      && id < |t.slots| && t.slots[id].key == s.slots[id].key
      && (t.slots[id] != s.slots[id] ==>
            ev.CompleteEvent? && ev.id == id && s.slots[id].invoking && !t.slots[id].invoking)
  {
  }

  /** Calls with a cached key change nothing at all: no insertion and no
      invocation, however many of them arrive. */
  lemma {:induction false} JoinersChangeNothing<K, V, E>(s: State<K, V, E>, k: K, n: nat, p: Policy)
    requires k in s.cache
    ensures Run(s, Repeat<Event<K, V, E>>(CallEvent(k), n), p) == s
    decreases n
  {
    if n > 0 {
      var evs := Repeat<Event<K, V, E>>(CallEvent(k), n);
      assert evs[0] == CallEvent(k) && evs[1..] == Repeat<Event<K, V, E>>(CallEvent(k), n - 1);
      JoinersChangeNothing(s, k, n - 1, p);
    }
  }

  /** After j >= 1 calls with one key the state is the one the first call
      left: only the first call can change anything. */
  lemma {:induction false} RepeatedCallsEqualFirst<K, V, E>(s: State<K, V, E>, k: K, j: nat, p: Policy)
    requires j >= 1
    ensures Run(s, Repeat<Event<K, V, E>>(CallEvent(k), j), p) == Call(s, k).0
  {
    var evs := Repeat<Event<K, V, E>>(CallEvent(k), j);
    assert evs[0] == CallEvent(k) && evs[1..] == Repeat<Event<K, V, E>>(CallEvent(k), j - 1);
    JoinersChangeNothing(Call(s, k).0, k, j - 1, p);
  }

  /** Coalescing: any number n >= 1 of calls with one key, interleaved with
      nothing else, invoke the wrapped coroutine once when the key was
      missing and never when it was cached. The j-th call owns the new future
      when j == 0 and the key was missing, and otherwise joins the one future
      the cache holds for the key at the end. */
  lemma {:induction false} Coalescing<K, V, E>(s: State<K, V, E>, k: K, n: nat, p: Policy)
    requires Valid(s) && n >= 1
    ensures var t := Run(s, Repeat<Event<K, V, E>>(CallEvent(k), n), p);
      && k in t.cache
      && Invocations(t, k) == Invocations(s, k) + (if k in s.cache then 0 else 1)
      && (k in s.cache ==> t == s)
      && (k !in s.cache ==> t.cache[k] == |s.slots| < |t.slots| && t.slots[|s.slots|] == Slot(k, Pending, true))
      && (forall k' :: k' != k ==> Invocations(t, k') == Invocations(s, k'))
      && (forall j :: 0 <= j < n ==>
            Call(Run(s, Repeat<Event<K, V, E>>(CallEvent(k), j), p), k).1
            == (if j == 0 && k !in s.cache then Owner(|s.slots|) else Joined(t.cache[k])))
  {
    var first := Call(s, k).0;
    assert k in first.cache;
    RepeatedCallsEqualFirst(s, k, n, p);
    if k !in s.cache {
      CallMissOwns(s, k);
    }
    forall j | 0 <= j < n
      ensures Call(Run(s, Repeat<Event<K, V, E>>(CallEvent(k), j), p), k).1
              == (if j == 0 && k !in s.cache then Owner(|s.slots|) else Joined(first.cache[k]))
    {
      if j > 0 {
        RepeatedCallsEqualFirst(s, k, j, p);
      }
    }
  }

  /* ---------------------------------------------------------------------
     Single flight between invalidations
     --------------------------------------------------------------------- */

  /** Every owner at work is the one its key's cache entry names. */
  ghost predicate InvokingIsCached<K, V, E>(s: State<K, V, E>)
  {
    forall i :: 0 <= i < |s.slots| && s.slots[i].invoking ==>
      s.slots[i].key in s.cache && s.cache[s.slots[i].key] == i
  }

  /** At most one invocation per key is in flight. */
  ghost predicate SingleFlight<K, V, E>(s: State<K, V, E>)
  {
    forall i, j ::
      (0 <= i < |s.slots| && 0 <= j < |s.slots| && s.slots[i].invoking && s.slots[j].invoking
       && s.slots[i].key == s.slots[j].key) ==> i == j
  }

  lemma InvokingIsCachedGivesSingleFlight<K, V, E>(s: State<K, V, E>)
    requires InvokingIsCached(s)
    ensures SingleFlight(s)
  {
  }

  /** Calls and completions, under either policy, keep every owner at work
      named by its key's entry; only an invalidation can orphan one. */
  lemma StepKeepsInvokingCached<K, V, E>(s: State<K, V, E>, ev: Event<K, V, E>, p: Policy)
    requires Valid(s) && InvokingIsCached(s) && !ev.InvalidateEvent?
    ensures InvokingIsCached(Step(s, ev, p))
  {
  }

  predicate NoInvalidation<K, V, E>(evs: seq<Event<K, V, E>>)
  {
    forall i :: 0 <= i < |evs| ==> !evs[i].InvalidateEvent?
  }

  /** Single flight: from a state where every owner at work is the one its
      key's entry names (the empty cache is one), any interleaving that
      contains no invalidation leaves at most one invocation per key in
      flight. */
  lemma {:induction false} SingleFlightBetweenInvalidations<K, V, E>(s: State<K, V, E>, evs: seq<Event<K, V, E>>, p: Policy)
    requires Valid(s) && InvokingIsCached(s) && NoInvalidation(evs)
    ensures InvokingIsCached(Run(s, evs, p)) && SingleFlight(Run(s, evs, p))
    decreases |evs|
  {
    if evs == [] {
      InvokingIsCachedGivesSingleFlight(s);
    } else {
      assert !evs[0].InvalidateEvent?;
      StepKeepsInvokingCached(s, evs[0], p);
      StepPreservesValid(s, evs[0], p);
      assert NoInvalidation(evs[1..]) by {
        forall i | 0 <= i < |evs[1..]| ensures !evs[1..][i].InvalidateEvent? {
          assert evs[1..][i] == evs[i + 1];
        }
      }
      SingleFlightBetweenInvalidations(Step(s, evs[0], p), evs[1..], p);
    }
  }

  /** An invalidation while the owner is at work lets a second call start a
      second invocation with the same key: single flight holds only between
      invalidations of a key. */
  lemma InvalidationBreaksSingleFlightWitness<K, V, E>(k: K)
    ensures var s := Run(Empty<K, V, E>(), [CallEvent(k), InvalidateEvent(k), CallEvent(k)], AsWritten);
      && |s.slots| == 2
      && s.slots[0] == Slot(k, Pending, true) && s.slots[1] == Slot(k, Pending, true)
      && !SingleFlight(s)
  {
    var evs: seq<Event<K, V, E>> := [CallEvent(k), InvalidateEvent(k), CallEvent(k)];
    var s1 := Step(Empty<K, V, E>(), evs[0], AsWritten);
    var s2 := Step(s1, evs[1], AsWritten);
    var s3 := Step(s2, evs[2], AsWritten);
    assert evs[1..][1..][1..] == [];
    assert Run(s2, evs[1..][1..], AsWritten) == s3;
    assert Run(s1, evs[1..], AsWritten) == s3;
  }

  /** The same for one key k: every owner of k at work is the one k's entry names. */
  ghost predicate InvokingIsCachedFor<K, V, E>(s: State<K, V, E>, k: K)
  {
    forall i :: 0 <= i < |s.slots| && s.slots[i].invoking && s.slots[i].key == k ==>
      k in s.cache && s.cache[k] == i
  }

  /** At most one invocation with key k is in flight. */
  ghost predicate SingleFlightFor<K, V, E>(s: State<K, V, E>, k: K)
  {
    forall i, j ::
      (0 <= i < |s.slots| && 0 <= j < |s.slots| && s.slots[i].invoking && s.slots[j].invoking
       && s.slots[i].key == k && s.slots[j].key == k) ==> i == j
  }

  /** Some owner of k is at work. */
  ghost predicate InFlight<K, V, E>(s: State<K, V, E>, k: K)
  {
    exists i :: 0 <= i < |s.slots| && s.slots[i].invoking && s.slots[i].key == k
  }

  /** The event invalidates k while an owner of k is at work. */
  ghost predicate InvalidatesInFlight<K, V, E>(s: State<K, V, E>, ev: Event<K, V, E>, k: K)
  {
    ev.InvalidateEvent? && ev.key == k && InFlight(s, k)
  }

  /** No event of the interleaving invalidates k while an owner of k is at work. */
  ghost predicate NoInvalidationInFlight<K, V, E>(s: State<K, V, E>, evs: seq<Event<K, V, E>>, k: K, p: Policy)
    decreases |evs|
  {
    evs == [] || (!InvalidatesInFlight(s, evs[0], k) && NoInvalidationInFlight(Step(s, evs[0], p), evs[1..], k, p))
  }

  /** Every step but an invalidation of k during an invocation of k keeps
      the owner of k at work named by k's entry. */
  lemma StepKeepsInvokingCachedFor<K, V, E>(s: State<K, V, E>, ev: Event<K, V, E>, k: K, p: Policy)
    requires Valid(s) && InvokingIsCachedFor(s, k) && !InvalidatesInFlight(s, ev, k)
    ensures InvokingIsCachedFor(Step(s, ev, p), k)
  {
  }

  /** Single flight per key: from a state where the owner of k at work, if
      any, is the one k's entry names, an interleaving that never invalidates
      k while k is being computed leaves at most one invocation of k in
      flight. Invalidations of k between its invocations, and of other keys
      at any time, are allowed. */
  lemma {:induction false} SingleFlightForKey<K, V, E>(s: State<K, V, E>, evs: seq<Event<K, V, E>>, k: K, p: Policy)
    requires Valid(s) && InvokingIsCachedFor(s, k) && NoInvalidationInFlight(s, evs, k, p)
    ensures InvokingIsCachedFor(Run(s, evs, p), k) && SingleFlightFor(Run(s, evs, p), k)
    decreases |evs|
  {
    if evs != [] {
      StepKeepsInvokingCachedFor(s, evs[0], k, p);
      StepPreservesValid(s, evs[0], p);
      SingleFlightForKey(Step(s, evs[0], p), evs[1..], k, p);
    }
  }

  /** Whether an event concerns key k in state s. */
  predicate Touches<K, V, E>(s: State<K, V, E>, ev: Event<K, V, E>, k: K)
  {
    match ev
    case CallEvent(k') => k' == k
    case CompleteEvent(id, _) => id < |s.slots| && s.slots[id].key == k
    case InvalidateEvent(k') => k' == k
  }

  /** No event of the interleaving concerns key k when it happens. */
  predicate Untouched<K, V, E>(s: State<K, V, E>, evs: seq<Event<K, V, E>>, k: K, p: Policy)
    decreases |evs|
  {
    evs == [] || (!Touches(s, evs[0], k) && Untouched(Step(s, evs[0], p), evs[1..], k, p))
  }

  /** One event that does not concern key k keeps its entry, its future and
      its invocation count. */
  lemma StepIndependent<K, V, E>(s: State<K, V, E>, ev: Event<K, V, E>, k: K, p: Policy)
    requires Valid(s) && !Touches(s, ev, k)
    ensures var t := Step(s, ev, p);
      && |s.slots| <= |t.slots|
      && (k in t.cache <==> k in s.cache)
      && (k in s.cache ==> t.cache[k] == s.cache[k] && t.slots[s.cache[k]] == s.slots[s.cache[k]])
      && Invocations(t, k) == Invocations(s, k)
  {
    match ev
    case CallEvent(k') =>
      assert Invocations(Step(s, ev, p), k) == multiset(s.calls + [k'])[k];
    case CompleteEvent(id, o) =>
    case InvalidateEvent(k') =>
  }

  /** Calls with different keys never interact: events about other keys
      leave the entry for k, the future it names and the number of
      invocations with k exactly as they were. */
  lemma {:induction false} KeysAreIndependent<K, V, E>(s: State<K, V, E>, evs: seq<Event<K, V, E>>, k: K, p: Policy)
    requires Valid(s) && Untouched(s, evs, k, p)
    ensures var t := Run(s, evs, p);
      && |s.slots| <= |t.slots|
      && (k in t.cache <==> k in s.cache)
      && (k in s.cache ==> t.cache[k] == s.cache[k] && t.slots[s.cache[k]] == s.slots[s.cache[k]])
      && Invocations(t, k) == Invocations(s, k)
    decreases |evs|
  {
    if evs != [] {
      var t := Step(s, evs[0], p);
      StepPreservesValid(s, evs[0], p);
      StepIndependent(s, evs[0], k, p);
      KeysAreIndependent(t, evs[1..], k, p);
    }
  }

  /* ---------------------------------------------------------------------
     The failure path after an invalidation
     --------------------------------------------------------------------- */

  /** As written: an owner and a joiner share a future, the key is
      invalidated, and the wrapped coroutine raises e. The owner's caller gets
      `KeyError` instead of e, and the joiner's future is pending with no
      owner left, so by StrandedStaysPending it waits forever. */
  lemma StrandedJoinerWitness<K, V, E>(k: K, e: E)
    ensures var s0 := Empty<K, V, E>();
      var (s1, owner) := Call(s0, k);
      var (s2, joiner) := Call(s1, k);
      var s3 := Invalidate(s2, k).0;
      var (s4, keyError) := Complete(s3, 0, Raised(e));
      && owner == Owner(0) && joiner == Joined(0)
      && keyError
      && Valid(s4)
      && Observe(s4, 0) == None && !s4.slots[0].invoking
      && !NoStranded(s4)
  {
  }

  /** As written: the first owner's failure deletes the entry of the newer
      future that a call after an invalidation created, although that future
      is still being computed; the next call invokes the wrapped coroutine a
      third time instead of joining it. */
  lemma EvictsNewerFutureWitness<K, V, E>(k: K, e: E)
    ensures var s0 := Empty<K, V, E>();
      var s1 := Call(s0, k).0;
      var s2 := Invalidate(s1, k).0;
      var (s3, second) := Call(s2, k);
      var s4 := Complete(s3, 0, Raised(e)).0;
      var (s5, third) := Call(s4, k);
      && second == Owner(1)
      && s4.slots[1] == Slot(k, Pending, true)
      && k !in s4.cache
      && third == Owner(2)
      && Invocations(s5, k) == 3
  {
  }

  /** Corrected: a completion publishes the owner's outcome into its future
      every time, so no future is ever left pending without an owner at work. */
  lemma GuardedCompletionPublishes<K, V, E>(s: State<K, V, E>, id: nat, o: Outcome<V, E>)
    requires Valid(s) && NoStranded(s) && id < |s.slots| && s.slots[id].invoking
    ensures var t := CompleteGuarded(s, id, o);
      && Valid(t) && NoStranded(t)
      && Observe(t, id) == Some(o)
  {
  }

  lemma {:induction false} GuardedRunNeverStrands<K, V, E>(s: State<K, V, E>, evs: seq<Event<K, V, E>>)
    requires Valid(s) && NoStranded(s)
    ensures Valid(Run(s, evs, Guarded)) && NoStranded(Run(s, evs, Guarded))
    decreases |evs|
  {
    if evs != [] {
      var t := Step(s, evs[0], Guarded);
      StepPreservesValid(s, evs[0], Guarded);
      if evs[0].CompleteEvent? && evs[0].id < |s.slots| && s.slots[evs[0].id].invoking {
        GuardedCompletionPublishes(s, evs[0].id, evs[0].outcome);
      }
      GuardedRunNeverStrands(t, evs[1..]);
    }
  }

  /** Corrected: a completion removes at most the entry that names the
      owner's own future; every other entry stays as it was. */
  lemma GuardedFailureTouchesOnlyOwnEntry<K, V, E>(s: State<K, V, E>, id: nat, o: Outcome<V, E>)
    requires Valid(s) && id < |s.slots| && s.slots[id].invoking
    ensures var t := CompleteGuarded(s, id, o);
      forall k :: (k in t.cache <==> k in s.cache && (o.Raised? ==> s.cache[k] != id))
                  && (k in t.cache ==> t.cache[k] == s.cache[k])
  {
  }
}
