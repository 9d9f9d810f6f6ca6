# useAsyncFn: call sequencing and state reconciliation

This project models the core of the `useAsyncFn` hook from react-use, `src/useAsyncFn.ts`, without React.
The hook wraps an asynchronous function. It keeps three pieces of state:

- the call counter `lastCallId`, which starts at 0;
- the liveness flag `isMounted`, which the model assumes is true on the first render and only ever goes from true to false (the source of `useMountedState` is not part of this model);
- the current `AsyncState` record.

Every call of the wrapper does two things. It takes the next id (pre-increment), and it makes a "soft" loading write that keeps the earlier `value` and `error` fields.
When the wrapped promise settles, its handler replaces the state with `{loading: false, value}` or `{loading: false, error}`. It does so only if the hook is still mounted and the call's id is still the counter's value. Otherwise the settlement is dropped.

Everything is in `UseAsyncFn.dfy`, module `UseAsyncFn`. It has two layers:

- A pure layer. `AsyncState` is a record; an own property of the runtime object is a `Some` field and an absent one is `None`. The two discriminators are predicates. `HookState` holds the three pieces of state. `Step` applies one event (`Invoked`, `Settled(callId, outcome)`, `Unmounted`, `DepsChanged`) and `Run` applies a trace of them in order. The lemmas about whole traces are stated on `Run`.
- An imperative layer. Class `AsyncFn` has the three fields and updates them in place. Its methods are `Invoke`, `Settle` and `Unmount`. Each method states its new fields outright and also ties `Snapshot()` to `Step`, so every trace lemma applies to the object. A ghost set `pending` holds the ids handed out whose promise has not settled yet. `Settle` requires its id to be in that set, because the handlers only ever see ids that `Invoke` produced, and each promise settles once.

A promise settling becomes an explicit `Settle` call, and calls may settle in any order. The wrapped function `fn` is not modelled: its eventual result is the `outcome` argument of `Settle`.

`Fresh(initialState)` and the constructor stand only for the first render: `useRef(0)` and `useState(initialState)` use their arguments only then (src/useAsyncFn.ts:37-39). A later change of `deps` only rebuilds the `useCallback` closure over `fn` (src/useAsyncFn.ts:57). With `fn` abstracted away, that change is the identity on `HookState`: the event `DepsChanged` keeps the counter, the flag and the state. Calls made through the old callback keep sharing the counter and the gate with calls made through the new one. So a call issued before the change and settled after it, with no new call in between, is still written to the state.

The method `OverlappingCalls` replays two overlapping calls on one `AsyncFn` object using only the methods' contracts: the later call wins, the earlier call's late result is dropped, every caller gets its own result back, and after unmount a settlement writes nothing.

On failure the rejection handler returns the error (src/useAsyncFn.ts:54), so the promise returned to the caller fulfils with the error object, unless that object is itself a thenable. `Settle` returns a `Fulfilment`, and both of its cases are fulfilments.

## Model

| member | source | states |
|---|---|---|
| UseAsyncFn.DefaultInitialState | src/useAsyncFn.ts:35 | the default initial state is a loading member of the union on which neither discriminator holds |
| UseAsyncFn.IsAsyncState | src/useAsyncFn.ts:5-18 | the model's tagged reading of the union: every loading object belongs to it, and a settled object belongs to it only when it holds exactly one of `value` and `error` |
| UseAsyncFn.BothFieldsBothDiscriminators | src/useAsyncFn.ts:8-26 | a settled object holding both `value` and `error`, which the structural interfaces accept, is outside the tagged reading and makes both discriminators true |
| UseAsyncFn.IsAsyncStateError | src/useAsyncFn.ts:20-22 | isAsyncStateError holds only when not loading, and on a member of the union it rules out a `value` field |
| UseAsyncFn.IsAsyncStateValue | src/useAsyncFn.ts:24-26 | isAsyncStateValue holds only when not loading, and on a member of the union it rules out an `error` field |
| UseAsyncFn.Discriminators | src/useAsyncFn.ts:5-26 | both discriminators are false while loading; on a member of the tagged reading they are never both true, and on a settled member exactly one holds |
| UseAsyncFn.SoftLoading | src/useAsyncFn.ts:43 | the soft write sets `loading` and keeps the `value` and `error` fields exactly; neither discriminator holds afterwards |
| UseAsyncFn.SettledState | src/useAsyncFn.ts:47-52 | an accepted settlement writes a settled member of the union holding only the outcome's field; the value discriminator holds iff the call resolved, the error one iff it rejected |
| UseAsyncFn.Delivered | src/useAsyncFn.ts:49-54 | the caller is handed the resolved value on success and the error on failure, both as fulfilments |
| UseAsyncFn.Accepts | src/useAsyncFn.ts:47-52 | the gate accepts only the id equal to the counter, and nothing once unmounted |
| UseAsyncFn.Fresh | src/useAsyncFn.ts:37-39 | on the first render the counter is 0, the hook is mounted (the model's assumption about `useMountedState`), the state is the given initial state, and no id handed out later passes the gate yet |
| UseAsyncFn.Step | src/useAsyncFn.ts:42-57 | only an invoke moves the counter, by one; only unmount clears the flag; an invoke leaves the state loading; a `deps` change leaves the hook unchanged; every event keeps the state a member of the union |
| UseAsyncFn.InvokeStep | src/useAsyncFn.ts:42-43 | one invoke raises the counter by exactly one and sets loading, keeping `value`, `error` and the liveness flag |
| UseAsyncFn.SettleStep | src/useAsyncFn.ts:46-55 | a settlement never changes the counter or the liveness flag; when unmounted, or when its id is not the counter, it changes nothing; when accepted the state is exactly the settled record and exactly the matching discriminator holds |
| UseAsyncFn.RunCounter | src/useAsyncFn.ts:37-56 | over any trace the counter grows by exactly the number of invokes: settlements, unmount and a `deps` change never change it |
| UseAsyncFn.SettlementsKeepCounter | src/useAsyncFn.ts:46-55 | a trace of settlements alone, with any ids, leaves the counter unchanged |
| UseAsyncFn.IssuedIdsConsecutive | src/useAsyncFn.ts:42 | a trace hands out one id per invoke, and the k-th id is the starting counter plus 1 plus k |
| UseAsyncFn.IssuedIdsIncrease | src/useAsyncFn.ts:42 | the ids of successive invokes strictly increase and all lie above the starting counter |
| UseAsyncFn.FreshIds | src/useAsyncFn.ts:37-42 | from the first render the first id is 1 and the ids are 1, 2, 3, ... |
| UseAsyncFn.RunMounted | src/useAsyncFn.ts:38 | after a trace the hook is mounted iff it was mounted before and the trace holds no unmount |
| UseAsyncFn.RunKeepsAsyncState | src/useAsyncFn.ts:5-18 | from a member of the AsyncState union every trace reaches a member of the union |
| UseAsyncFn.UnmountedRun | src/useAsyncFn.ts:43-52 | once unmounted no settlement of any id writes the state; the only change left is the loading flag set by a later invoke, and `value` and `error` never change again |
| UseAsyncFn.StaleIdNeverCurrent | src/useAsyncFn.ts:42-52 | after a later invoke no earlier id passes the gate again |
| UseAsyncFn.SettlementAccepted | src/useAsyncFn.ts:42-52 | call A's settlement, after any events `between`, is accepted iff the hook was mounted and `between` holds no invoke and no unmount; a dropped settlement leaves the hook exactly as it was, and an accepted one writes exactly A's settled record |
| UseAsyncFn.SettlementAcrossDepsChange | src/useAsyncFn.ts:37-57 | a call issued before a `deps` change and settled after it, with no new call in between, passes the gate and writes its settled record |
| UseAsyncFn.RunAppend | src/useAsyncFn.ts:41-57 | running two traces one after the other is running their concatenation: the hook's events compose in call order |
| UseAsyncFn.LateResultDropped | src/useAsyncFn.ts:42-52 | calls A then B are issued and B settles first: B's outcome is shown, and A's late settlement leaves it shown |
| UseAsyncFn.AsyncFn.constructor | src/useAsyncFn.ts:35-39 | on the first render the hook has counter 0, is mounted (assumed, as for `Fresh`), holds the initial state (any record, also one outside the tagged reading) and has no call in flight |
| UseAsyncFn.AsyncFn.Invoke | src/useAsyncFn.ts:42-43 | the returned id is the old counter plus one and is the new counter; it was not in flight before and is now; loading is set and `value`, `error` and the liveness flag are kept |
| UseAsyncFn.AsyncFn.Settle | src/useAsyncFn.ts:46-55 | counter and liveness flag are kept and the id is no longer in flight; the state becomes the settled record iff mounted and the id is the counter, else it is unchanged; the caller gets the outcome whatever the gate decided, a failure as a fulfilment with the error |
| UseAsyncFn.AsyncFn.Unmount | src/useAsyncFn.ts:38 | the liveness flag becomes false, the invariant is kept and nothing else changes |

## Left out

- The React machinery (`useRef`, `useState`, `useCallback`, re-rendering after `set`): the fields of `AsyncFn` stand in for the ref and the state cell, and writes happen in call order.
- The recomputation of the callback when `deps` change: the new closure over `fn` is not modelled, since `fn` itself is abstracted away; the change is the `DepsChanged` event, which keeps the whole hook state. The class has no method for it, because it changes none of the fields.
- `useMountedState`: only its answer is modelled, as the `mounted` field and the `Unmount` method. Its source is not part of this model, so the assumptions that its answer is true on the first render and only goes from true to false are the model's, not a proved fact about that hook.
- React ignores a `set` on an unmounted component. The model follows the hook's own code, where the soft loading write of an invoke after unmount is not gated.
- The wrapped function `fn`, its arguments and promise scheduling: the outcome is an argument of `Settle`, and settlement order is free.
- The TypeScript type helpers and casts (`FnReturningPromise`, `PromiseType`, the `ReturnType` casts, the `state is AsyncStateError` guard on `isAsyncStateValue`): only the runtime booleans of the predicates are modelled.
- A synchronous throw from `fn(...args)` (src/useAsyncFn.ts:45): the exception reaches the invoker after the counter bump and the soft loading write, and no handler runs. The model represents this path as an `Invoke` that is never followed by a `Settle`; the thrown exception itself is not modelled.
- Mutual exclusion of the discriminators is proved for records of the tagged reading (`IsAsyncState`), which includes every record a settlement or a soft write produces from one. An initial state holding both `value` and `error` is accepted by the constructor, and on it both discriminators hold (`BothFieldsBothDiscriminators`) until the first invoke sets `loading`, which puts the state into the tagged reading for good (`SoftLoading`, `RunKeepsAsyncState`).
- UseAsyncFn.Delivered and UseAsyncFn.AsyncFn.Settle treat every rejection reason as a plain value. If the reason is itself a thenable, the promise built by `.then` (src/useAsyncFn.ts:45) adopts it and can reject; the model still delivers `FulfilledWithError(reason)`. The state write is unaffected: it stores the reason as `error` either way.
- The counter is a JavaScript number. The model uses an unbounded `nat`, so it does not capture the loss of precision beyond 2^53 calls.
