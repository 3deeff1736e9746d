# aiomemoize in Dafny

A model of `memoize` from aiomemoize, a memoizer for asyncio coroutines that
coalesces concurrent calls. `memoize(func)` returns a pair `(cached,
invalidate)` that shares one `cache` dictionary. The dictionary maps each call
key to an asyncio future.

- Call key: the key of `cached(*args, **kwargs)` is `(args,
  tuple(kwargs.items()))`. Positional arguments keep their order. From
  Python 3.6 on, keyword items keep the order the caller wrote them in; the
  model assumes such a Python (see "## Left out").
- Call: when the key is cached, the caller joins the existing future.
  Otherwise the caller creates a pending future, inserts it, and becomes its
  owner. The owner awaits `func` once and publishes the result. On success it
  calls `set_result` and the entry stays. On any exception, cancellation
  included, it calls `del cache[key]` and then `set_exception`. Every caller,
  owner or joiner, returns by awaiting the same future.
- Invalidate: `invalidate` runs `del cache[key]`, which raises `KeyError` when
  the key is missing.

Under cooperative scheduling, the code between two `await`s runs without
interruption. One memoized call is therefore a sequence of atomic steps:
call, complete and await. Invalidation is one more step. The model is built
in four layers:

- `Keys` (keys.dfy) derives call keys.
- `Protocol` (protocol.dfy) is a state machine over values. It holds the
  cache map, a slot table of futures and a log of the keys the wrapped
  coroutine was invoked with (a ghost field in `Memoizer`). Futures stay in the table after their entry
  leaves the cache, because callers that already hold them still await them.
  `Run` plays any interleaving of steps. The lemmas state the protocol's
  guarantees over single steps and over whole interleavings.
- `Memoize.Memoizer` (memoize.dfy) is the closure as a class. Its fields are
  the `cache` map and the slot table, and its methods change them in place.
  Each method's contract ties the new state to the matching `Protocol` step.
- `Scenarios` (scenarios.dfy) replays the tests in test.py against a fresh
  `Memoizer`: concurrent identical calls (test.py:62-83), different
  concurrent calls (test.py:86-109), sequential identical calls
  (test.py:112-133), invalidation (test.py:136-164), a shared exception
  (test.py:167-189) and a call after an exception (test.py:192-218). It
  proves what every caller receives.

Choices the model makes, each the code's own:

- Keyword arguments are not sorted, so `f(a=1, b=2)` and `f(b=2, a=1)` are two
  keys (`Keys.KeywordOrderIsSignificant`).
- `invalidate` on a missing key fails with `KeyError`; it is not a no-op.
- The failure path deletes `cache[key]` whatever future that entry holds. A
  guarded removal (only if the entry is the owner's own future) appears only
  as the corrected half of the findings below.
- Single flight is proved for interleavings that start from the empty cache,
  or from any state where every owner at work is the one its key's entry
  names. Such an interleaving keeps at most one invocation of a key in flight
  as long as it never invalidates that key while the key is being computed
  (`Protocol.SingleFlightForKey`). An invalidation during an invocation lets
  the next call start a second invocation with the same key
  (`Protocol.InvalidationBreaksSingleFlightWitness`). Both invocations stay
  in flight until one of the two owners completes; until then single flight
  is broken for that key.

## Model

| member | source | states |
|---|---|---|
| Keys.MakeKey | aiomemoize.py:9 | the key keeps every positional argument and every keyword item, both in call order, and nothing else; `invalidate` derives it the same way (aiomemoize.py:28) |
| Keys.SameKeyIffSameCall | aiomemoize.py:9 | two calls share a key exactly when their positional arguments and their keyword items are equal, in order |
| Keys.DifferentKeywordValueDifferentKey | aiomemoize.py:9 | changing one keyword value gives a different key |
| Keys.KeywordOrderIsSignificant | aiomemoize.py:9 | the same two keywords in the other order give a different key, because the items are not sorted |
| Protocol.EmptyIsValid | aiomemoize.py:6 | the empty cache satisfies the protocol invariant, has no stranded future, and every owner at work is cached |
| Protocol.Call | aiomemoize.py:11-18 | the caller owns exactly when its key was missing; afterwards the key's entry names the caller's future; an owner's future is the new last slot, and the owner adds that entry, one pending future and one invocation and nothing else; a joiner leaves cache, slots and log unchanged |
| Protocol.Complete | aiomemoize.py:17-23 | the owner stops; on success or with its key cached it publishes its own outcome; KeyError exactly when it failed with its key gone, and then the future stays pending; a failure removes the key's entry whatever it names; other futures and the log are unchanged |
| Protocol.CompleteGuarded | aiomemoize.py:19-21 | corrected completion: the owner's outcome is always published; only an entry naming the owner's own future is removed, and only on failure; other futures and the log are unchanged |
| Protocol.Invalidate | aiomemoize.py:27-29 | found exactly when the key is cached; the cache loses that key only; slots and log are unchanged |
| Protocol.Observe | aiomemoize.py:25 | no result exactly while the future is pending; otherwise the value it was resolved with or the exception it failed with |
| Protocol.CallHitJoins | aiomemoize.py:11-12 | a call whose key is cached joins that future and changes nothing: no insertion, no invocation |
| Protocol.CallMissOwns | aiomemoize.py:13-18 | a call whose key is missing owns one new pending future cached under its key and invokes the wrapped coroutine once with it; other keys' counts and entries are unchanged |
| Protocol.CallPreservesValid | aiomemoize.py:11-18 | a call keeps the protocol invariant |
| Protocol.CompletePreservesValid | aiomemoize.py:17-23 | both completions, as written and corrected, keep the protocol invariant |
| Protocol.StepPreservesValid | aiomemoize.py:8-29 | every step keeps the invariant: one invocation per future, cache entries name a non-failed future of their own key, and a cached pending future has its owner at work |
| Protocol.RunPreservesValid | aiomemoize.py:8-29 | every interleaving of calls, completions and invalidations keeps that invariant |
| Protocol.SuccessIsCached | aiomemoize.py:22-23 | on success the future holds the value, the cache is unchanged, and the next call with the key joins it and observes the value with no new invocation |
| Protocol.FailureIsNotCached | aiomemoize.py:19-21 | on failure the entry is removed and the future holds the same exception; the next call with the key is a fresh owner and invokes again |
| Protocol.AsWrittenFailureDeletesCurrentEntry | aiomemoize.py:20 | the failure path removes the key's entry whatever future it names, and publishes the exception |
| Protocol.AsWrittenFailureWithoutEntry | aiomemoize.py:19-21 | with the key no longer cached, the failure path raises KeyError to the owner's caller and leaves the future pending with no owner at work |
| Protocol.InvalidateRemovesOnlyItsKey | aiomemoize.py:27-29 | invalidation succeeds exactly when the key is cached, then removes that entry only; on a missing key (KeyError) nothing changes; futures already handed out are untouched |
| Protocol.InvalidateForcesNewInvocation | aiomemoize.py:27-29 | after invalidating a cached key, the next call with it is a new owner with a new future and invokes again, while the old future keeps what its waiters observe |
| Protocol.SettledIsFinal | aiomemoize.py:25 | a settled future never changes under any later interleaving, so every caller awaiting it, early or late, observes the same value or exception |
| Protocol.StrandedStaysPending | aiomemoize.py:25 | a pending future whose owner has finished stays pending under every later interleaving |
| Protocol.OnlyOwnerPublishes | aiomemoize.py:14-23 | the only step that changes a future is its own owner's completion, which happens while the owner is at work and ends it |
| Protocol.JoinersChangeNothing | aiomemoize.py:11-12 | any number of calls with a cached key leave the whole state unchanged: no insertion, no invocation |
| Protocol.RepeatedCallsEqualFirst | aiomemoize.py:11-18 | after one or more calls with one key the state is what the first call left |
| Protocol.Coalescing | aiomemoize.py:11-18 | n >= 1 calls with one key invoke the wrapped coroutine once if the key was missing and never if it was cached; the first call owns the new future when the key was missing, and every other call joins the one future then cached |
| Protocol.InvokingIsCachedGivesSingleFlight | aiomemoize.py:11-18 | when every owner at work is named by its key's entry, no two owners at work share a key |
| Protocol.StepKeepsInvokingCached | aiomemoize.py:11-23 | calls and completions, under either failure path, keep every owner at work named by its key's entry |
| Protocol.SingleFlightBetweenInvalidations | aiomemoize.py:11-23 | from a state where every owner at work is the one its key's entry names (the empty cache is one), any interleaving that contains no invalidation of any key keeps that property and leaves at most one invocation per key in flight |
| Protocol.StepKeepsInvokingCachedFor | aiomemoize.py:11-29 | every step except invalidating key k while k is being computed keeps the owner of k at work named by k's entry |
| Protocol.SingleFlightForKey | aiomemoize.py:11-29 | from a state where the owner of k at work, if any, is named by k's entry, an interleaving that never invalidates k while k is being computed leaves at most one invocation of k in flight; other keys may be invalidated at any time |
| Protocol.InvalidationBreaksSingleFlightWitness | aiomemoize.py:27-29 | call, invalidate, call with one key leaves two invocations of that key in flight |
| Protocol.StepIndependent | aiomemoize.py:9-29 | a step that does not concern key k keeps k's entry, the future it names and k's invocation count |
| Protocol.KeysAreIndependent | aiomemoize.py:9-29 | interleavings of events about other keys never change k's entry, its future or its invocation count |
| Protocol.StrandedJoinerWitness | aiomemoize.py:19-21 | owner and joiner share a future, the key is invalidated, and the wrapped coroutine raises: the owner gets KeyError and the joiner's future stays pending with no owner |
| Protocol.EvictsNewerFutureWitness | aiomemoize.py:20 | a failing first owner deletes the entry of a newer, still running future, so the next call invokes a third time |
| Protocol.GuardedCompletionPublishes | aiomemoize.py:17-23 | corrected completion always publishes the owner's outcome into its future and keeps the invariant with no stranded future |
| Protocol.GuardedRunNeverStrands | aiomemoize.py:8-29 | with corrected completion, no interleaving ever leaves a pending future without its owner at work |
| Protocol.GuardedFailureTouchesOnlyOwnEntry | aiomemoize.py:20 | corrected completion removes at most the entry naming the owner's own future, and only on failure |
| Memoize.Memoizer.constructor | aiomemoize.py:6 | a new memoizer has an empty cache and slot table and satisfies the invariant |
| Memoize.Memoizer.Call | aiomemoize.py:8-18 | takes keyword items with distinct names, as a Python keyword dictionary has them; derives the key from the arguments; its effect and the role it returns are those of `Protocol.Call`, and it keeps the invariant |
| Memoize.Memoizer.Complete | aiomemoize.py:17-23 | the owner's completion as written: its effect and the KeyError flag are those of `Protocol.Complete`; other futures and the invocation log are unchanged |
| Memoize.Memoizer.CompleteGuarded | aiomemoize.py:17-23 | corrected completion: the effect of `Protocol.CompleteGuarded`, the owner's outcome published, the invariant kept, and no stranded future if there was none before |
| Memoize.Memoizer.Await | aiomemoize.py:25 | no result while the future is pending; otherwise exactly the value it was resolved with or the exception it failed with |
| Memoize.Memoizer.Invalidate | aiomemoize.py:27-29 | takes keyword items with distinct names; found exactly when the key was cached; the cache loses that key only; slots and invocation log are unchanged |
| Scenarios.ConcurrentIdenticalCalls | test.py:62-83 | two concurrent identical calls: owner and joiner of future 0, both return the owner's value |
| Scenarios.DifferentCallsNotCoalesced | test.py:86-109 | calls that differ in one keyword are two owners and each returns its own value |
| Scenarios.SequentialCallsMemoized | test.py:112-133 | a later identical call joins the cached future and returns the first value |
| Scenarios.InvalidateForcesReinvocation | test.py:136-164 | after invalidation the identical call is a new owner and returns the new value |
| Scenarios.InvalidateOneOfTwo | test.py:136-164 | two different calls are cached, the first is invalidated and both are called again: the first is a new owner with the new value, the second joins its cached value, and the invocation log is first, second, first |
| Scenarios.CacheTwo | test.py:147-149 | two concurrent calls with different keys, both completed: both cached, both resolved, two invocations |
| Scenarios.InvalidateFirstAndRecall | test.py:152-155 | invalidating the first of two cached calls and calling both again: the first is a new owner, the second joins, and the first key is invoked again |
| Scenarios.ConcurrentCallsShareException | test.py:167-189 | two concurrent identical calls both receive the same exception |
| Scenarios.SequentialCallsAfterException | test.py:192-218 | after a failure the identical call is a new owner and receives the second exception |
| Scenarios.InvalidateThenFailStrandsJoiner | aiomemoize.py:19-21 | as written, invalidating and then failing gives the owner KeyError and leaves the joiner waiting |
| Scenarios.InvalidateThenFailGuarded | aiomemoize.py:17-25 | corrected, the same interleaving delivers the exception to the joiner |

## Left out

- The asyncio event loop, task scheduling and `await` suspension: each uninterrupted stretch of code is one atomic method or step, and an interleaving is a sequence of them (`Protocol.Run`). `Await` returns no result for a pending future instead of suspending.
- The wrapped coroutine: the environment supplies its outcome to `Complete`. Cancelling the owner while it awaits the coroutine is one more raised exception, as in the source's `except BaseException`.
- Cancelling a joiner: in asyncio, cancelling a task that awaits a future also cancels that future. Every other waiter then gets `CancelledError`, and the owner's later `set_result` (aiomemoize.py:23) or `set_exception` (:21) raises `InvalidStateError`. After a successful owner, the cancelled future stays in `cache`, so every later identical call raises `CancelledError` at :25 without invoking the wrapped coroutine, until `invalidate` runs: the source can cache a failure. These asyncio internals are not modelled. A future changes only through its owner's completion, and `Protocol.Valid`'s clause that no cache entry names a failed future, `Protocol.OnlyOwnerPublishes`, `Protocol.SettledIsFinal` and `Protocol.SuccessIsCached` hold only because of that.
- Python before 3.6: `kwargs` is then an unordered dict (setup.py:21 allows Python 3.5), and `tuple(kwargs.items())` follows hash order, so the same keywords written in another order usually give the same key. The model fixes the behaviour of Python 3.6 and later, where keyword order is preserved; `Keys.KeywordOrderIsSignificant` holds there only.
- Python's exception context (test.py:221-229): the model delivers the same exception value and keeps no context chain.
- Hashing: a call with an unhashable argument raises `TypeError` at `key in cache`. Keys here are any type with equality.
- Threads: the source relies on single-threaded scheduling and takes no locks, and so does the model.
- `Protocol.Step`: a completion of a future whose owner is not at work cannot happen in the source, so it leaves the state unchanged.
- setup.py and the test helpers `async_test` and `until_called`: packaging and test scaffolding.

## Findings

| source | as written | input that shows it | evidently intended | confidence | as-written member | corrected member |
|---|---|---|---|---|---|---|
| aiomemoize.py:19-21 | the failure path runs `del cache[key]` before `set_exception`; when the key was invalidated meanwhile, the `del` raises `KeyError` out of the `except` block, and the future is never settled | two concurrent identical calls, then `invalidate` with the same arguments, then the wrapped coroutine raises `e` | every caller attached to the future receives `e` | high; not executed | Protocol.StrandedJoinerWitness | Protocol.GuardedCompletionPublishes |
| aiomemoize.py:20 | the failure path deletes whatever future the key now holds, including a newer one created after an invalidation | call, `invalidate`, identical call (a second owner, still running), then the first owner's coroutine raises | the failure removes only the owner's own entry, so the running second future stays cached and later calls join it | medium; not executed | Protocol.EvictsNewerFutureWitness | Protocol.GuardedFailureTouchesOnlyOwnEntry |
