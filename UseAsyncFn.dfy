/**
 * A model of the call-sequencing and state-reconciliation logic of the
 * `useAsyncFn` hook (src/useAsyncFn.ts).
 *
 * The hook owns three pieces of state: a call counter, a liveness flag and the
 * current AsyncState record. Invoking the wrapped function bumps the counter
 * and makes a "soft" loading write; a settlement of call `id` replaces the
 * state only when the hook is still mounted and `id` is still the latest call.
 *
 * The module has a pure layer (records, a step function over events and a run
 * over event traces, with the lemmas about traces) and an imperative layer
 * (class AsyncFn, whose methods update the three fields in place and are tied
 * to the step function).
 */
module UseAsyncFn {

  datatype Option<T> = None | Some(value: T)

  /** The runtime AsyncState object. A field that is `Some` is an own
      property of the object; `None` means the property is absent. */
  datatype AsyncState<T, E> = AsyncState(loading: bool, value: Option<T>, error: Option<E>)

  /** The default initial state `{ loading: true }`. */
  function DefaultInitialState<T, E>(): (r: AsyncState<T, E>)
    ensures IsAsyncState(r) && r.loading
    ensures !IsAsyncStateError(r) && !IsAsyncStateValue(r)
  {
    AsyncState(true, None, None)
  }

  /** `s` is one of the three members of the AsyncState union: a loading state
      (which may still carry fields merged in from an earlier state), or a
      settled state carrying exactly one of `error` and `value`. */
  predicate IsAsyncState<T, E>(s: AsyncState<T, E>)
    ensures s.loading ==> IsAsyncState(s)
    ensures !s.loading && s.value.Some? && s.error.Some? ==> !IsAsyncState(s)
    ensures !s.loading && s.value.None? && s.error.None? ==> !IsAsyncState(s)
  {
    s.loading || (s.value.Some? != s.error.Some?)
  }

  /** isAsyncStateError: not loading, and an own `error` property. */
  predicate IsAsyncStateError<T, E>(s: AsyncState<T, E>)
    ensures IsAsyncStateError(s) ==> !s.loading
    ensures IsAsyncStateError(s) && IsAsyncState(s) ==> s.value.None?
  {
    !s.loading && s.error.Some?
  }

  /** isAsyncStateValue: not loading, and an own `value` property. */
  predicate IsAsyncStateValue<T, E>(s: AsyncState<T, E>)
    ensures IsAsyncStateValue(s) ==> !s.loading
    ensures IsAsyncStateValue(s) && IsAsyncState(s) ==> s.error.None?
  {
    !s.loading && s.value.Some?
  }

  /** Both discriminators are false while loading; on a settled member of the
      union exactly one of them holds. */
  lemma Discriminators<T, E>(s: AsyncState<T, E>)
    ensures s.loading ==> !IsAsyncStateError(s) && !IsAsyncStateValue(s)
    ensures IsAsyncState(s) ==> !(IsAsyncStateError(s) && IsAsyncStateValue(s))
    ensures IsAsyncState(s) && !s.loading ==> (IsAsyncStateError(s) || IsAsyncStateValue(s))
  {
  }

  /** The interfaces are structural, so `{ loading: false, value, error }` is
      accepted as an AsyncStateError. It lies outside the tagged reading
      IsAsyncState, and on it both discriminators hold. */
  lemma BothFieldsBothDiscriminators<T, E>(v: T, e: E)
    ensures !IsAsyncState(AsyncState(false, Some(v), Some(e)))
    ensures IsAsyncStateError(AsyncState(false, Some(v), Some(e)))
    ensures IsAsyncStateValue(AsyncState(false, Some(v), Some(e)))
  {
  }

  /** The eventual outcome of the wrapped asynchronous function. */
  datatype Outcome<T, E> = Resolved(value: T) | Rejected(error: E)

  /** What the promise returned to the caller settles to. Both cases are
      fulfilments: the rejection handler returns the error object, so the
      returned promise fulfils with it, unless that object is itself a
      thenable (not modelled). */
  datatype Fulfilment<T, E> = FulfilledWithValue(value: T) | FulfilledWithError(error: E)

  /** The value the settlement handlers hand back to the caller. */
  function Delivered<T, E>(o: Outcome<T, E>): (r: Fulfilment<T, E>)
    ensures r.FulfilledWithValue? <==> o.Resolved?
    ensures o.Resolved? ==> r == FulfilledWithValue(o.value)
    ensures o.Rejected? ==> r == FulfilledWithError(o.error)
  {
    match o
    case Resolved(v) => FulfilledWithValue(v)
    case Rejected(e) => FulfilledWithError(e)
  }

  /** The soft loading write `{ ...prevState, loading: true }`. */
  function SoftLoading<T, E>(s: AsyncState<T, E>): (r: AsyncState<T, E>)
    ensures r.loading && r.value == s.value && r.error == s.error
    ensures IsAsyncState(r)
    ensures !IsAsyncStateError(r) && !IsAsyncStateValue(r)
  {
    s.(loading := true)
  }

  /** The full replacement written by an accepted settlement:
      `{ value, loading: false }` or `{ error, loading: false }`. */
  function SettledState<T, E>(o: Outcome<T, E>): (r: AsyncState<T, E>)
    ensures IsAsyncState(r) && !r.loading
    ensures IsAsyncStateValue(r) <==> o.Resolved?
    ensures IsAsyncStateError(r) <==> o.Rejected?
    ensures o.Resolved? ==> r.value == Some(o.value) && r.error == None
    ensures o.Rejected? ==> r.error == Some(o.error) && r.value == None
  {
    match o
    case Resolved(v) => AsyncState(false, Some(v), None)
    case Rejected(e) => AsyncState(false, None, Some(e))
  }

  /** The hook's state with React stripped away. */
  datatype HookState<T, E> = HookState(lastCallId: nat, mounted: bool, state: AsyncState<T, E>)

  /** The hook on its first render: `useRef(0)` and `useState(initialState)`
      use their arguments only then. */
  function Fresh<T, E>(initialState: AsyncState<T, E>): (r: HookState<T, E>)
    ensures r.lastCallId == 0 && r.mounted && r.state == initialState
    ensures forall id: nat | id > 0 :: !Accepts(r, id)
  {
    HookState(0, true, initialState)
  }

  /** The things that can happen to a hook. `DepsChanged` is a later render
      whose `deps` differ: only the callback closure is rebuilt, so the
      counter, the flag and the state all carry over, and calls made through
      the old callback keep sharing them with calls made through the new one. */
  datatype Event<T, E> =
    | Invoked
    | Settled(callId: nat, outcome: Outcome<T, E>)
    | Unmounted
    | DepsChanged

  /** The gate of both settlement handlers: still mounted and still the latest call. */
  predicate Accepts<T, E>(h: HookState<T, E>, callId: nat)
    ensures Accepts(h, callId) ==> callId == h.lastCallId
    ensures !h.mounted ==> !Accepts(h, callId)
  {
    h.mounted && callId == h.lastCallId
  }

  function Step<T, E>(h: HookState<T, E>, e: Event<T, E>): (r: HookState<T, E>)
    ensures r.lastCallId == h.lastCallId + (if e.Invoked? then 1 else 0)
    ensures r.mounted == (h.mounted && !e.Unmounted?)
    ensures e.Invoked? ==> r.state.loading
    ensures e.DepsChanged? ==> r == h
    ensures IsAsyncState(h.state) ==> IsAsyncState(r.state)
  {
    match e
    case Invoked => HookState(h.lastCallId + 1, h.mounted, SoftLoading(h.state))
    case Settled(id, o) => if Accepts(h, id) then h.(state := SettledState(o)) else h
    case Unmounted => h.(mounted := false)
    case DepsChanged => h
  }

  /** The hook after a trace of events, applied in order. */
  function Run<T, E>(h: HookState<T, E>, evs: seq<Event<T, E>>): (r: HookState<T, E>)
    decreases |evs|
  {
    if evs == [] then h else Run(Step(h, evs[0]), evs[1..])
  }

  function InvokeCount<T, E>(evs: seq<Event<T, E>>): (n: nat)
    ensures n <= |evs|
    decreases |evs|
  {
    if evs == [] then 0 else (if evs[0].Invoked? then 1 else 0) + InvokeCount(evs[1..])
  }

  predicate NoUnmount<T, E>(evs: seq<Event<T, E>>) {
    forall i | 0 <= i < |evs| :: !evs[i].Unmounted?
  }

  /** The call ids handed out by the invocations of a trace, in order. */
  function IssuedIds<T, E>(h: HookState<T, E>, evs: seq<Event<T, E>>): (ids: seq<nat>)
    decreases |evs|
  {
    if evs == [] then []
    else
      var next := Step(h, evs[0]);
      (if evs[0].Invoked? then [next.lastCallId] else []) + IssuedIds(next, evs[1..])
  }

  // ---------------------------------------------------------------------------
  // One event at a time

  /** Invoke bumps the counter by one, takes the new value as its id, and makes
      the soft loading write; the liveness flag is untouched. */
  lemma InvokeStep<T, E>(h: HookState<T, E>)
    ensures Step(h, Invoked).lastCallId == h.lastCallId + 1
    ensures Step(h, Invoked).mounted == h.mounted
    ensures Step(h, Invoked).state.loading
    ensures Step(h, Invoked).state.value == h.state.value
    ensures Step(h, Invoked).state.error == h.state.error
  {
  }

  /** A settlement never moves the counter or the liveness flag. If the gate
      accepts it, the state becomes exactly the settled record (and exactly one
      discriminator holds); otherwise nothing changes at all. */
  lemma SettleStep<T, E>(h: HookState<T, E>, callId: nat, o: Outcome<T, E>)
    ensures Step(h, Settled(callId, o)).lastCallId == h.lastCallId
    ensures Step(h, Settled(callId, o)).mounted == h.mounted
    ensures !h.mounted ==> Step(h, Settled(callId, o)) == h
    ensures callId != h.lastCallId ==> Step(h, Settled(callId, o)) == h
    ensures Accepts(h, callId) ==> Step(h, Settled(callId, o)).state == SettledState(o)
    ensures Accepts(h, callId) ==>
      (IsAsyncStateValue(Step(h, Settled(callId, o)).state) <==> o.Resolved?) &&
      (IsAsyncStateError(Step(h, Settled(callId, o)).state) <==> o.Rejected?)
  {
  }

  // ---------------------------------------------------------------------------
  // Whole traces

  /** Only invocations move the counter, each by exactly one. */
  lemma {:induction false} RunCounter<T, E>(h: HookState<T, E>, evs: seq<Event<T, E>>)
    ensures Run(h, evs).lastCallId == h.lastCallId + InvokeCount(evs)
    decreases |evs|
  {
    if evs != [] {
      RunCounter(Step(h, evs[0]), evs[1..]);
    }
  }

  /** The ids handed out are consecutive, starting right above the counter:
      one id per invocation, the k-th being lastCallId + 1 + k. */
  lemma {:induction false} IssuedIdsConsecutive<T, E>(h: HookState<T, E>, evs: seq<Event<T, E>>)
    ensures |IssuedIds(h, evs)| == InvokeCount(evs)
    ensures forall k | 0 <= k < |IssuedIds(h, evs)| :: IssuedIds(h, evs)[k] == h.lastCallId + 1 + k
    decreases |evs|
  {
    if evs != [] {
      IssuedIdsConsecutive(Step(h, evs[0]), evs[1..]);
    }
  }

  /** The ids of successive invocations strictly increase and all lie above
      the counter the trace started from. */
  lemma IssuedIdsIncrease<T, E>(h: HookState<T, E>, evs: seq<Event<T, E>>)
    ensures forall i, j | 0 <= i < j < |IssuedIds(h, evs)| :: IssuedIds(h, evs)[i] < IssuedIds(h, evs)[j]
    ensures forall k | 0 <= k < |IssuedIds(h, evs)| :: IssuedIds(h, evs)[k] > h.lastCallId
  {
    IssuedIdsConsecutive(h, evs);
  }

  /** On a fresh hook the first id is 1 and the ids are 1, 2, 3, ... */
  lemma FreshIds<T, E>(initialState: AsyncState<T, E>, evs: seq<Event<T, E>>)
    requires InvokeCount(evs) > 0
    ensures |IssuedIds(Fresh(initialState), evs)| == InvokeCount(evs)
    ensures IssuedIds(Fresh(initialState), evs)[0] == 1
    ensures forall k | 0 <= k < |IssuedIds(Fresh(initialState), evs)| :: IssuedIds(Fresh(initialState), evs)[k] == k + 1
  {
    IssuedIdsConsecutive(Fresh(initialState), evs);
  }

  /** The liveness flag is still set after a trace exactly when it was set
      before and the trace holds no unmount: it only ever goes from true to false. */
  lemma {:induction false} RunMounted<T, E>(h: HookState<T, E>, evs: seq<Event<T, E>>)
    ensures Run(h, evs).mounted <==> h.mounted && NoUnmount(evs)
    decreases |evs|
  {
    if evs != [] {
      RunMounted(Step(h, evs[0]), evs[1..]);
      assert NoUnmount(evs) <==> !evs[0].Unmounted? && NoUnmount(evs[1..]) by {
        if NoUnmount(evs[1..]) && !evs[0].Unmounted? {
          forall i | 0 <= i < |evs| ensures !evs[i].Unmounted? {
            if i > 0 { assert evs[i] == evs[1..][i - 1]; }
          }
        }
      }
    }
  }

  /** Every reachable state is a member of the AsyncState union. */
  lemma {:induction false} RunKeepsAsyncState<T, E>(h: HookState<T, E>, evs: seq<Event<T, E>>)
    requires IsAsyncState(h.state)
    ensures IsAsyncState(Run(h, evs).state)
    decreases |evs|
  {
    if evs != [] {
      RunKeepsAsyncState(Step(h, evs[0]), evs[1..]);
    }
  }

  /** Once unmounted, no settlement of any id writes the state: the only
      change left is the soft loading flag set by a later invocation, and the
      `value` and `error` fields are frozen. */
  lemma {:induction false} UnmountedRun<T, E>(h: HookState<T, E>, evs: seq<Event<T, E>>)
    requires !h.mounted
    ensures Run(h, evs).state == if InvokeCount(evs) == 0 then h.state else SoftLoading(h.state)
    ensures Run(h, evs).state.value == h.state.value && Run(h, evs).state.error == h.state.error
    decreases |evs|
  {
    if evs != [] {
      UnmountedRun(Step(h, evs[0]), evs[1..]);
    }
  }

  /** A trace of settlements alone never moves the counter, whatever ids they carry. */
  lemma {:induction false} SettlementsKeepCounter<T, E>(h: HookState<T, E>, evs: seq<Event<T, E>>)
    requires forall i | 0 <= i < |evs| :: evs[i].Settled?
    ensures Run(h, evs).lastCallId == h.lastCallId
    decreases |evs|
  {
    if evs != [] {
      SettlementsKeepCounter(Step(h, evs[0]), evs[1..]);
    }
  }

  /** Once a later invocation has happened, no id issued earlier can pass the
      gate again. */
  lemma StaleIdNeverCurrent<T, E>(h: HookState<T, E>, evs: seq<Event<T, E>>, callId: nat)
    requires callId <= h.lastCallId
    requires InvokeCount(evs) > 0
    ensures !Accepts(Run(h, evs), callId)
  {
    RunCounter(h, evs);
  }

  /** Call A is issued, then the events `between` happen, then A settles.
      A's settlement is accepted exactly when the hook was mounted and
      `between` holds neither an invocation nor an unmount; when it is
      rejected the hook is left exactly as it was. */
  lemma SettlementAccepted<T, E>(h: HookState<T, E>, between: seq<Event<T, E>>, o: Outcome<T, E>)
    ensures Accepts(Run(Step(h, Invoked), between), Step(h, Invoked).lastCallId)
            <==> h.mounted && InvokeCount(between) == 0 && NoUnmount(between)
    ensures !Accepts(Run(Step(h, Invoked), between), Step(h, Invoked).lastCallId) ==>
      Step(Run(Step(h, Invoked), between), Settled(Step(h, Invoked).lastCallId, o)) == Run(Step(h, Invoked), between)
    ensures Accepts(Run(Step(h, Invoked), between), Step(h, Invoked).lastCallId) ==>
      Step(Run(Step(h, Invoked), between), Settled(Step(h, Invoked).lastCallId, o)).state == SettledState(o)
  {
    RunCounter(Step(h, Invoked), between);
    RunMounted(Step(h, Invoked), between);
  }

  /** Call A is issued through the old callback, `deps` change, and no new
      call is made: A is still the latest call, so its settlement is written
      to the shared state. */
  lemma SettlementAcrossDepsChange<T, E>(h: HookState<T, E>, o: Outcome<T, E>)
    requires h.mounted
    ensures Accepts(Run(Step(h, Invoked), [DepsChanged]), h.lastCallId + 1)
    ensures Step(Run(Step(h, Invoked), [DepsChanged]), Settled(h.lastCallId + 1, o)).state == SettledState(o)
  {
    SettlementAccepted(h, [DepsChanged], o);
  }

  /** Running two traces one after the other is running their concatenation. */
  lemma {:induction false} RunAppend<T, E>(h: HookState<T, E>, a: seq<Event<T, E>>, b: seq<Event<T, E>>)
    ensures Run(h, a + b) == Run(Run(h, a), b)
    decreases |a|
  {
    if a == [] {
      assert a + b == b;
    } else {
      assert (a + b)[0] == a[0];
      assert (a + b)[1..] == a[1..] + b;
      RunAppend(Step(h, a[0]), a[1..], b);
    }
  }

  /** Out of order arrival: A then B are issued, B settles first and is shown;
      A's late result is then dropped and B's outcome stays. */
  lemma LateResultDropped<T, E>(h: HookState<T, E>, a: Outcome<T, E>, b: Outcome<T, E>)
    requires h.mounted
    ensures Run(h, [Invoked, Invoked, Settled(h.lastCallId + 2, b)]).state == SettledState(b)
    ensures Run(h, [Invoked, Invoked, Settled(h.lastCallId + 2, b), Settled(h.lastCallId + 1, a)]).state
            == SettledState(b)
  {
    var sb: Event<T, E> := Settled(h.lastCallId + 2, b);
    var sa: Event<T, E> := Settled(h.lastCallId + 1, a);
    var h3 := Run(h, [Invoked, Invoked, sb]);
    assert [Invoked, Invoked, sb] == [Invoked] + [Invoked] + [sb];
    RunAppend(h, [Invoked] + [Invoked], [sb]);
    RunAppend(h, [Invoked], [Invoked]);
    assert [Invoked, Invoked, sb, sa] == [Invoked, Invoked, sb] + [sa];
    RunAppend(h, [Invoked, Invoked, sb], [sa]);
  }

  // ---------------------------------------------------------------------------
  // The hook as an object whose fields change in place

  class AsyncFn<T, E> {
    /** lastCallId.current */
    var lastCallId: nat
    /** what isMounted() answers */
    var mounted: bool
    /** the stored AsyncState */
    var state: AsyncState<T, E>
    /** ids handed out by Invoke whose promise has not settled yet */
    ghost var pending: set<nat>

    ghost predicate Valid()
      reads this
    {
      forall id | id in pending :: 0 < id <= lastCallId
    }

    /** The fields as a value of the pure model. */
    function Snapshot(): (h: HookState<T, E>)
      reads this
    {
      HookState(lastCallId, mounted, state)
    }

    /** First render: the counter starts at 0 and no call is in flight. A
        later change of `deps` does not build a new object (see DepsChanged). */
    constructor (initialState: AsyncState<T, E>)
      ensures Valid()
      ensures lastCallId == 0 && mounted && state == initialState
      ensures Snapshot() == Fresh(initialState)
      ensures pending == {}
    {
      lastCallId := 0;
      mounted := true;
      state := initialState;
      pending := {};
    }

    /** The synchronous part of `callback`: take the next id and mark the
        state as loading, keeping any earlier value or error. */
    method Invoke() returns (callId: nat)
      requires Valid()
      modifies this
      ensures Valid()
      ensures callId == old(lastCallId) + 1 && lastCallId == callId
      ensures callId !in old(pending) && pending == old(pending) + {callId}
      ensures state.loading && state.value == old(state.value) && state.error == old(state.error)
      ensures mounted == old(mounted)
      ensures Snapshot() == Step(old(Snapshot()), Invoked)
    {
      lastCallId := lastCallId + 1;
      callId := lastCallId;
      state := state.(loading := true);
      pending := pending + {callId};
    }

    /** The fulfilment or rejection handler of call `callId`: write the
        settled record only if still mounted and still the latest call, and
        hand the outcome back to the caller whatever the gate decided. */
    method Settle(callId: nat, outcome: Outcome<T, E>) returns (delivered: Fulfilment<T, E>)
      requires Valid()
      requires callId in pending
      modifies this
      ensures Valid()
      ensures lastCallId == old(lastCallId) && mounted == old(mounted)
      ensures pending == old(pending) - {callId}
      ensures old(mounted) && callId == old(lastCallId) ==> state == SettledState(outcome)
      ensures !(old(mounted) && callId == old(lastCallId)) ==> state == old(state)
      ensures delivered == Delivered(outcome)
      ensures Snapshot() == Step(old(Snapshot()), Settled(callId, outcome))
    {
      if mounted && callId == lastCallId {
        match outcome
        case Resolved(v) => state := AsyncState(false, Some(v), None);
        case Rejected(e) => state := AsyncState(false, None, Some(e));
      }
      pending := pending - {callId};
      match outcome
      case Resolved(v) => delivered := FulfilledWithValue(v);
      case Rejected(e) => delivered := FulfilledWithError(e);
    }

    /** The component is torn down: isMounted() answers false from now on. */
    method Unmount()
      requires Valid()
      modifies this
      ensures Valid()
      ensures !mounted
      ensures lastCallId == old(lastCallId) && state == old(state) && pending == old(pending)
      ensures Snapshot() == Step(old(Snapshot()), Unmounted)
    {
      mounted := false;
    }
  }

  /** Two overlapping calls on one hook: the later call's result wins even
      though the earlier call settles last, and both callers still get their
      own results back. */
  method OverlappingCalls(x: int, y: int)
  {
    var hook := new AsyncFn<int, string>(DefaultInitialState());
    var first := hook.Invoke();
    var second := hook.Invoke();
    assert first == 1 && second == 2;
    var r2 := hook.Settle(second, Resolved(y));
    assert hook.state == AsyncState(false, Some(y), None);
    var r1 := hook.Settle(first, Resolved(x));
    assert hook.state == AsyncState(false, Some(y), None);
    assert r1 == FulfilledWithValue(x) && r2 == FulfilledWithValue(y);
    hook.Unmount();
    var third := hook.Invoke();
    var r3 := hook.Settle(third, Rejected("boom"));
    assert hook.state == AsyncState(true, Some(y), None);
    assert r3 == FulfilledWithError("boom");
  }
}
