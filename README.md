# Lifecycle hooks of vue-use-motion, modelled in Dafny

`registerLifeCycleHooks` binds an element's appearance to a motion's named
variants. It watches the target element reference. The watch also runs once
right away (`immediate: true`). Each run reads the variants. If they are
present and define `enter` or `leave`, it calls `set('initial')` at once when
`initial` is defined. When `enter` is defined, it queues `set('enter')` with
`nextTick`, to run after the next render flush. It never calls `set('leave')`.
When the owning component unmounts, the watch is stopped.

The model is one module, `LifeCycleHooks` (`lifecycle_hooks.dfy`):

- `Decide` is the guard and dispatch of the watch callback as a pure function
  of the variants. It returns the calls made now and the calls queued for later.
- `BinderState`, `Event`, `Step` and `Run` describe a registered binding as a
  state machine. The state holds whether the watch is live, the current target
  and variants, the queued `enter` callbacks (`pending`) and every `set` call
  made so far, in order (`log`). The events are: the target is assigned, the
  variants are assigned, the next-tick queue is drained (`Tick`), the component
  unmounts.
- `Binder` is the registration as an object with the fields `active`,
  `target`, `variants`, `pending` and `log`. The constructor `Register` is proved
  to produce `Registered`, `Evaluate` to move `State()` as `Evaluated` does, and
  each other method to move `State()` exactly as `Step` says for its event.
- The lemmas state the ordering, guard, re-evaluation and teardown properties
  over any sequence of events.

Modelling choices:

- The target is `NullTarget`, `UndefinedTarget` or `Element(h)` with `h` of an
  opaque type. The model never inspects it. As in the source, a null target
  does not stop `set` from being called (`NullTargetStillSets`).
- A Vue ref notifies its watchers only when the assigned value differs from the
  old one. So in `Step`, an assignment that leaves the target unchanged runs
  nothing. `null` and `undefined` are different values, as in JavaScript.
- The variants are `Null` (null or undefined) or `Defined` with one flag per
  entry. Each flag says whether that entry is truthy, which is what the
  source's `&&`, `||` and `if` test.
- Queued `enter` callbacks still run after unmount. The source keeps no handle
  that could cancel them.
- `set` can run while the target is still null: the immediate first run calls
  `set('initial')` whatever the target holds (`NullTargetStillSets`). The model
  follows the code.

## Model

| member | source | states |
|---|---|---|
| `LifeCycleHooks.Decide` | src/features/lifeCycleHooks.ts:19-28 | one evaluation makes no calls when the variants are null or define neither `enter` nor `leave`; `initial` is called now iff the guard passes and `initial` is defined; `enter` is queued iff the guard passes and `enter` is defined; `enter` is never immediate, `initial` never deferred, `leave` never appears; each call is made or queued at most once |
| `LifeCycleHooks.RegisterEvaluatesOnce` | src/features/lifeCycleHooks.ts:15-34 | registration leaves a live watch that has already run the callback exactly once with the current target and variants; the calls made and queued do not depend on the target |
| `LifeCycleHooks.NullTargetStillSets` | src/features/lifeCycleHooks.ts:15-31 | with a null target and variants defining `initial` and `enter`, registration logs `initial` at once and `enter` after the next flush |
| `LifeCycleHooks.OneEvaluationOrder` | src/features/lifeCycleHooks.ts:23-27 | a target change on a live watch logs `initial` during the evaluation and only queues `enter`; after the flush `enter` follows `initial` and any earlier queued `enter` calls |
| `LifeCycleHooks.TargetValueIgnored` | src/features/lifeCycleHooks.ts:17-27 | any two target values that differ from the current one give the same calls: the callback never reads the target |
| `LifeCycleHooks.VariantsChangeAloneIsSilent` | src/features/lifeCycleHooks.ts:13-20 | assigning the variants calls and queues nothing; the next evaluation uses the new variants |
| `LifeCycleHooks.UnmountTwiceIsOnce` | src/features/lifeCycleHooks.ts:36-38 | unmount stops the watch without touching the log or the queue, and a second unmount changes nothing |
| `LifeCycleHooks.LeaveNeverSet` | src/features/lifeCycleHooks.ts:19-27 | over any sequence of events, `leave` never enters the log or the queue |
| `LifeCycleHooks.UnmountedIsQuiet` | src/features/lifeCycleHooks.ts:15-38 | once the watch is stopped, no sequence of events restarts it or adds a call; only already queued `enter` calls move from the queue to the log |
| `LifeCycleHooks.SilentWithoutBinding` | src/features/lifeCycleHooks.ts:19-22 | while the variants fail the guard, or pass it through `leave` alone with neither `initial` nor `enter`, no sequence of events adds a call made or queued |
| `LifeCycleHooks.NeverSetWithoutBinding` | src/features/lifeCycleHooks.ts:19-31 | a registration whose variants never pass the guard, or define only `leave` of the three, never calls `set` and queues nothing |
| `LifeCycleHooks.RegisteredIsOrdered` | src/features/lifeCycleHooks.ts:24-31 | right after registration, with variants whose `enter` comes with an `initial`, each queued `enter` is matched by a logged `initial` |
| `LifeCycleHooks.InitialPrecedesEnter` | src/features/lifeCycleHooks.ts:23-27 | while every variants value pairs `enter` with `initial`, the ordering invariant holds over any sequence of events, so the n-th `enter` in the log comes after the n-th `initial` |
| `LifeCycleHooks.EachChangeReevaluates` | src/features/lifeCycleHooks.ts:15-29 | on a live watch, n successive target changes log n more `initial` calls and queue n more `enter` calls: no deduplication |
| `LifeCycleHooks.Binder.Register` | src/features/lifeCycleHooks.ts:5-39 | the new binder's state is the registered state: live watch, evaluated once |
| `LifeCycleHooks.Binder.Evaluate` | src/features/lifeCycleHooks.ts:17-29 | the watch callback changes the state exactly as one evaluation of `Decide` on the current variants |
| `LifeCycleHooks.Binder.SetTarget` | src/features/lifeCycleHooks.ts:15-17 | assigning the target moves the state as `Step` does: re-evaluates only on a changed value while the watch is live |
| `LifeCycleHooks.Binder.SetVariants` | src/features/lifeCycleHooks.ts:13-20 | assigning the variants only replaces them |
| `LifeCycleHooks.Binder.Flush` | src/features/lifeCycleHooks.ts:27 | draining the next-tick queue appends the queued calls to the log in order and empties the queue |
| `LifeCycleHooks.Binder.Unmount` | src/features/lifeCycleHooks.ts:36-38 | the unmount hook stops the watch and changes nothing else |

## Left out

- How `ref` wraps a plain value or keeps an existing ref (lines 11 and 13) is not modelled. The model holds the current values of both references.
- Vue's dependency tracking and the batching of `flush: 'pre'` jobs are not modelled. Each changing assignment to the target evaluates at once, before the next `Tick`. Vue queues the pre-flush job once per tick and compares only the final value with the one it last saw, so several assignments inside one tick make at most one evaluation in Vue: A→B→A makes none and A→B→C makes one, where the model makes two of each. `EachChangeReevaluates` therefore describes changes that are flushed separately. A variants assignment made after a target assignment in the same tick is read by Vue's job, whereas the model has already evaluated with the old variants.
- The real timing of `nextTick` is not modelled. Ordering between separate evaluations triggered by rapid changes is left to the host scheduler. The model keeps the queue in FIFO order.
- How `tryOnUnmounted` finds the component instance is not modelled. Whether Vue's stop handle tolerates a second call is library behaviour; `Unmount` is simply idempotent in the model.
- The content of `MotionVariants` and what `set` does to the element are foreign. A `set` call is modelled as appending its name to `log`.
- Exceptions thrown by `set` are not modelled. The module does not intercept them.
