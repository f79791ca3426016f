# Asymmetric stackful coroutines: the lifecycle engine in Dafny

This project models the coroutine lifecycle engine of an asymmetric, stackful
coroutine runtime written in Rust (`coroutine::asymmetric` and
`coroutine::raw`). A coroutine has a state (`Created`, `Running`, `Finished`,
`ForceUnwind`) and a single result cell. The resumer and the coroutine body
pass values and failures through that cell. `resume_with` and `yield_with`
write the cell just before they transfer control away, and after a panic the
wrapper's yield loop writes the sentinel there before each transfer back. The
resumer always drains the cell when control comes back. The body drains it in
`yield_back` and `take_data`, but not when the trampoline first starts it.

The model has five modules:

- `Raw` (raw.dfy): the raw transfer unit, a class pairing an opaque execution
  context with an optional owned stack (`empty`, `new`, `take_stack`,
  `set_stack`).
- `Pool` (pool.dfy): the per-thread stack pool. It is seen only through its
  take/give interface, and its idle segments form a multiset.
- `Protocol` (protocol.dfy): the engine stated on values. A `Record` holds the
  state, the cell, the point where the coroutine's saved context is parked
  (`Phase`), and the values the body has received. The coroutine body is a
  script of `Action`s: `YieldWith(v)`, `YieldBack`, `TakeData`, `Return` and
  `Panic(p)`. A transfer into the coroutine (`Enter`) runs the coroutine side
  from its parking point to its next transfer back. `Resume`, `ResumeWith`,
  `ForcedUnwind` and `IterItem` are the operations seen from the resumer.
- `Asymmetric` (asymmetric.dfy): the engine as objects updated in place.
  `CoroutineImpl` is the record both sides reach. `Coroutine` is the owning
  handle. `CoroutineRef` is the handle the body receives. Every method's
  `ensures` ties its new state and result to the `Protocol` function for that
  operation.
- `Properties` (properties.dfy): lemmas about one call or a sequence of calls.

Three consequences of the source as written shape the model:

- After a panic, the wrapper stores `Err(Panicking(payload))` in the cell
  (asymmetric.rs:224). At the head of its yield loop it overwrites that with
  `Err(Panicked)` (asymmetric.rs:232-234), before the first transfer back. So no
  resume ever returns the payload: every resume after the panic, including the
  first one, returns `Err(Panicked)` (`Properties.PanicReachesResumer`,
  `Properties.PanickedIsPermanent`, `Properties.NoCallReportsPayload`).
- A panicked coroutine never ends its iteration. The yield loop stores the
  sentinel again before every transfer back, and `next` maps it to an item
  (asymmetric.rs:351-356). So every pull yields `Some(Err(Panicked))`
  (`Properties.PanickedIterationNeverEnds`).
- The trampoline does not drain the cell before it starts the body
  (asymmetric.rs:190-197). A value sent by the first `resume_with` reaches the
  body only through `take_data`. If the body's first call is `yield_back`, or it
  returns at once, the value comes back to the resumer. If its first call is
  `yield_with(w)`, the cell is overwritten and the value is lost
  (`Properties.FirstResumeWithEchoes`, `Properties.FirstResumeWithLost`,
  `Properties.FirstResumeWithTaken`).

## Model

| member | source | states |
|---|---|---|
| `Raw.Coroutine.Empty` | Final_project/src/coroutine/raw.rs:15-20 | the record holds the inert context and no stack |
| `Raw.Coroutine.New` | Final_project/src/coroutine/raw.rs:24-29 | the record holds exactly the given context and `Some(stack)` |
| `Raw.Coroutine.TakeStack` | Final_project/src/coroutine/raw.rs:39-41 | returns the stack that was held and leaves none behind; only the stack field changes |
| `Raw.Coroutine.SetStack` | Final_project/src/coroutine/raw.rs:57-61 | installs the new stack and returns the previous one (`None` if none); the context is untouched |
| `Pool.StackPool.TakeStack` | Final_project/src/coroutine/asymmetric.rs:166-168 | when an idle segment of exactly the requested size exists, one such segment is handed out and removed from the idle multiset; only when none exists is the freshly allocated one handed out, with the idle multiset unchanged. Either way the segment is at least the requested size |
| `Pool.StackPool.GiveStack` | Final_project/src/coroutine/asymmetric.rs:136-140 | the idle multiset gains exactly the returned segment |
| `Protocol.BodyTake` | Final_project/src/coroutine/asymmetric.rs:102-107 | coroutine-side drain: nothing when the cell is empty, `v` exactly when the cell holds `Ok(v)`; an `Err` there is excluded (unreachable in the source) |
| `Protocol.ResumerTake` | Final_project/src/coroutine/asymmetric.rs:91-95 | resumer-side drain: empty cell gives `Ok(None)`, `Ok(x)` gives `Ok(Some(x))`, `Err(e)` gives `Err(e)`, each in both directions |
| `Protocol.EndBody` | Final_project/src/coroutine/asymmetric.rs:200-235 | after the body ends the state is Finished; after a panic the cell holds the sentinel `Err(Panicked)`; after a return or forced unwind the cell is untouched |
| `Protocol.NextStop` | Final_project/src/coroutine/asymmetric.rs:102-113 | the first position at or after the entry point that is not a `take_data` call (or the end of the script): every action before it is `take_data`, and the action there is not |
| `Protocol.Enter` | Final_project/src/coroutine/asymmetric.rs:190-240 | a transfer in. A first entry, and a re-entry into a parked body that is not being unwound, leave the coroutine at the `StopPhase` of its entry point: just after the first yield it reaches, or in the yield loop once it returns or panics. A first entry leaves it Running while parked and Finished otherwise, and a `yield_with` leaves its value in the cell. A parked body whose state is ForceUnwind ends Finished at once, with the cell and the received values untouched. Otherwise the parked `yield_back` hands the drained cell to the body. In the yield loop the cell is drained and discarded, and the sentinel is stored again after a panic |
| `Protocol.RunBody` | Final_project/src/coroutine/asymmetric.rs:190-240 | the body runs to its next transfer out, and where it ends is `StopPhase`: parked just after a `yield_with` or `yield_back`, in the same state, when that is the first action after its `take_data` calls; in the yield loop, Finished, after a return, the end of the script or a panic. A `yield_with` leaves its value in the cell. A `yield_back` or a return leaves the cell empty, unless no `take_data` ran, which leaves it as it was found. The cell holds an error exactly after a panic, and then it holds `Err(Panicked)`. The values received so far are kept as a prefix, and a body entered with an empty cell receives only "nothing" |
| `Protocol.Resume` | Final_project/src/coroutine/asymmetric.rs:89-96 | after a resume the cell is empty. A body that runs ends at the `StopPhase` of its entry point. An error is reported exactly when the coroutine is in the yield loop after a panic, and it is always the sentinel. A body parked again at `yield_with(v)` replies `Ok(Some(v))`. The resumer-side invariant is preserved: empty cell, and the state agrees with the parking point, so it is never ForceUnwind between calls |
| `Protocol.ResumeWith` | Final_project/src/coroutine/asymmetric.rs:115-118 | the cell is empty afterwards. A body parked in `yield_back` receives the value. In the yield loop the value is discarded and the reply is `Ok(None)` after a return or `Err(Panicked)` after a panic |
| `Protocol.Spawned` | Final_project/src/coroutine/asymmetric.rs:170-177 | a fresh coroutine is Created, has not started, has an empty cell and has received nothing, so it satisfies the resumer-side invariant for any body |
| `Protocol.ForcedUnwind` | Final_project/src/coroutine/asymmetric.rs:120-125 | nothing changes unless the state is Running. A Running coroutine ends Finished in the yield loop with an empty cell, and its body receives nothing more |
| `Protocol.IterItem` | Final_project/src/coroutine/asymmetric.rs:351-356 | `Ok(None)` becomes `None` and only it does; `Ok(Some(x))` becomes `Some(Ok(x))`; `Err(e)` becomes `Some(Err(e))` |
| `Protocol.Drive` | Final_project/src/coroutine/asymmetric.rs:267-278 | any sequence of `resume`/`resume_with` calls gives one reply per call and keeps the resumer-side invariant |
| `Protocol.Iterate` | Final_project/src/coroutine/asymmetric.rs:351-356 | n pulls give n items, and each is the reply of the matching call in a run of plain `resume`s, mapped by `IterItem` |
| `Asymmetric.CoroutineImpl.constructor` | Final_project/src/coroutine/asymmetric.rs:170-177 | a new record is Created, with an empty cell, nothing received, and the given parent and raw coroutine |
| `Asymmetric.CoroutineImpl.TakeData` | Final_project/src/coroutine/asymmetric.rs:102-108 | drains the cell and returns the pending value, or nothing |
| `Asymmetric.CoroutineImpl.RegainControl` | Final_project/src/coroutine/asymmetric.rs:74-87 | on regaining control, raises the forced-unwind signal if and only if the state is ForceUnwind, and then leaves the cell untouched; otherwise drains it and delivers the pending value |
| `Asymmetric.CoroutineImpl.FinishBody` | Final_project/src/coroutine/asymmetric.rs:200-240 | the record becomes `EndBody` of the old record: Finished, payload stored, then overwritten by the sentinel before the first yield |
| `Asymmetric.CoroutineImpl.RunBodyFrom` | Final_project/src/coroutine/asymmetric.rs:110-113 | the loop runs the body's calls (`yield_with` writes the cell and then transfers out) and ends in the record `RunBody` specifies |
| `Asymmetric.CoroutineImpl.EnterCoroutine` | Final_project/src/coroutine/asymmetric.rs:190-240 | a transfer in leaves the record `Enter` specifies: the first one sets Running and starts the body; later ones continue from the parked `yield_back` or the yield loop |
| `Asymmetric.CoroutineImpl.Resume` | Final_project/src/coroutine/asymmetric.rs:89-96 | the new record and the reply are those of `Protocol.Resume` |
| `Asymmetric.CoroutineImpl.ResumeWith` | Final_project/src/coroutine/asymmetric.rs:115-118 | stores the value in the cell, then behaves as `resume` (`Protocol.ResumeWith`) |
| `Asymmetric.CoroutineImpl.ForceUnwind` | Final_project/src/coroutine/asymmetric.rs:120-125 | the new record is `Protocol.ForcedUnwind` of the old one, and the record stays valid |
| `Asymmetric.CoroutineImpl.Drop` | Final_project/src/coroutine/asymmetric.rs:132-141 | runs the forced unwind first. Then the held stack, if any, goes back to the pool exactly once: the raw coroutine is detached and holds no stack afterwards |
| `Asymmetric.CoroutineRef.TakeData` | Final_project/src/coroutine/asymmetric.rs:337-342 | forwards `take_data` to the shared record: drains the cell and returns the pending value |
| `Asymmetric.Coroutine.Spawn` | Final_project/src/coroutine/asymmetric.rs:165-252 | takes a stack of at least the requested size from the pool, reusing an idle segment of exactly that size when there is one, and builds a Created record with an empty cell. The coroutine's context is prepared on that stack and holds it; the parent context is inert |
| `Asymmetric.Coroutine.Resume` | Final_project/src/coroutine/asymmetric.rs:267-271 | forwards `resume`; the handle stays valid |
| `Asymmetric.Coroutine.ResumeWith` | Final_project/src/coroutine/asymmetric.rs:274-278 | forwards `resume_with`; the handle stays valid |
| `Asymmetric.Coroutine.Next` | Final_project/src/coroutine/asymmetric.rs:351-356 | one `resume`, with its reply mapped by `IterItem` |
| `Asymmetric.Coroutine.Drop` | Final_project/src/coroutine/asymmetric.rs:128-141 | dropping the handle drops the record: forced unwind, then the stack goes back to the pool once |
| `Asymmetric.StackRoundTrip` | Final_project/src/coroutine/asymmetric.rs:165-168 | spawning, resuming and dropping a coroutine puts its stack back among the idle segments: a reused segment leaves the idle multiset as it was, a fresh one is added to it |
| `Asymmetric.StackReuse` | Final_project/src/coroutine/asymmetric.rs:165-168 | after such a round trip, a second spawn asking for the size the first coroutine used takes an idle segment of that size instead of allocating, so the idle multiset loses exactly that segment |
| `Properties.ResumeWithDeliversOnce` | Final_project/src/coroutine/asymmetric.rs:115-118 | a value sent to a body parked in `yield_back` is what that `yield_back` returns; no other drain during that transfer sees it |
| `Properties.YieldWithReachesResumer` | Final_project/src/coroutine/asymmetric.rs:110-113 | for any call into a coroutine that has not ended, when the first action after its `take_data` calls is `yield_with(v)`: the body parks just after it, still Running, and the call replies `Ok(Some(v))` |
| `Properties.PanicReachesResumer` | Final_project/src/coroutine/asymmetric.rs:193-234 | for any call into a coroutine that has not ended, when the first action after its `take_data` calls is a panic: that same call replies `Err(Panicked)`, and the coroutine is Finished in the yield loop after a panic |
| `Properties.YieldBackReportsNothing` | Final_project/src/coroutine/asymmetric.rs:74-87 | for any call into a coroutine that has not ended, when the first action after its `take_data` calls is `yield_back`: the body parks just after it, still Running, and the reply is `Ok(None)`. The one exception is a first call on a fresh coroutine with no `take_data` before the yield, which gets its own value back |
| `Properties.ReturnReportsNothing` | Final_project/src/coroutine/asymmetric.rs:193-240 | for any call into a coroutine that has not ended, when the body returns (or runs off its end) after only `take_data` calls: the coroutine is Finished in the yield loop after a return, and the reply is `Ok(None)`. The one exception is a first call on a fresh coroutine with no `take_data` before the return, which gets its own value back |
| `Properties.FirstResumeWithEchoes` | Final_project/src/coroutine/asymmetric.rs:190-203 | on a fresh coroutine whose body's first call is `yield_back`, or which returns at once, the first `resume_with` gets its own value back and the body has received nothing |
| `Properties.FirstResumeWithLost` | Final_project/src/coroutine/asymmetric.rs:110-113 | on a fresh coroutine whose body's first call is `yield_with(w)`, the first `resume_with` gets `w`: the value sent is overwritten and lost, and the body is parked after that yield |
| `Properties.FirstResumeWithTaken` | Final_project/src/coroutine/asymmetric.rs:102-108 | on a fresh coroutine whose body starts with `take_data`, the body receives the first value sent |
| `Properties.ImmediateReturn` | Final_project/src/coroutine/asymmetric.rs:193-203 | a body that returns at once: the first resume reports "no value" and leaves the coroutine Finished |
| `Properties.FinishedIsPermanent` | Final_project/src/coroutine/asymmetric.rs:232-240 | once Finished after a return or a forced unwind, every call reports "no value" and changes nothing |
| `Properties.PanickedIsPermanent` | Final_project/src/coroutine/asymmetric.rs:232-240 | once Finished after a panic, every call reports `Err(Panicked)` and changes nothing |
| `Properties.FinishedDriveReportsNothing` | Final_project/src/coroutine/asymmetric.rs:232-240 | over any sequence of calls, a finished coroutine reports "no value" every time |
| `Properties.PanickedDriveReportsSentinel` | Final_project/src/coroutine/asymmetric.rs:224-240 | over any sequence of calls, a panicked coroutine reports `Err(Panicked)` every time |
| `Properties.NoCallReportsPayload` | Final_project/src/coroutine/asymmetric.rs:224-234 | no call in any sequence reports an error other than the sentinel |
| `Properties.ResumeProgress` | Final_project/src/coroutine/asymmetric.rs:74-96 | each call on a coroutine that is not yet over strictly lowers the bound on the calls left |
| `Properties.YieldLoopStays` | Final_project/src/coroutine/asymmetric.rs:232-240 | a coroutine in the yield loop stays there, returned or panicked as before |
| `Properties.DriveFinishes` | Final_project/src/coroutine/asymmetric.rs:190-240 | at least as many calls as the bound leave the coroutine in the yield loop |
| `Properties.SpawnedFinishes` | Final_project/src/coroutine/asymmetric.rs:170-203 | a fresh coroutine whose body has n actions is Finished after n + 1 calls, whatever they send |
| `Properties.PanickedIterationNeverEnds` | Final_project/src/coroutine/asymmetric.rs:351-356 | iterating a panicked coroutine never ends: every pull yields `Some(Err(Panicked))` |
| `Properties.FinishedIterationIsOver` | Final_project/src/coroutine/asymmetric.rs:351-356 | iterating a coroutine that returned yields `None` on every pull |
| `Properties.ForcedUnwindThenExhausted` | Final_project/src/coroutine/asymmetric.rs:120-125 | after a forced unwind the invariant holds and every later call reports "no value" |

## Left out

- The register and stack switch (`Context::swap`, `init_with`, and the `loop {}` after the trampoline in `coroutine_initialize`) is foreign, architecture-level code. A transfer is the abstract step `EnterCoroutine`. It runs the coroutine side from where its saved context is parked (`phase`) to its next transfer back. `yield_to` (raw.rs:33-35) has no method of its own for this reason.
- `context()` and `context_mut()` (raw.rs:43-53) are plain field accesses. `Spawn` writes the `context` field directly where the source calls `init_with` through `context_mut()`.
- The coroutine body (the generic closure `F`) is a fixed, finite script of actions. The values it yields cannot depend on the values it receives. Running off the end of the script is a normal return.
- `CoroutineRef::yield_back` and `CoroutineRef::yield_with` (asymmetric.rs:314-327) are the script actions `YieldBack` and `YieldWith`. They are executed by `RunBodyFrom` and `RegainControl`, because they transfer control out and cannot return within one Dafny call.
- The `name` accessors (asymmetric.rs:98-100, 260-264, 330-334) and the `Display`/`Debug` formatting only read or format the optional label. The label is kept as the field `name`.
- The diagnostic written to standard error after a panic (asymmetric.rs:209-222) is I/O and is not modelled.
- Unwinding (`try`, `begin_unwind`, `downcast_ref`) is not modelled as unwinding. A panic is the action `Panic(payload)`, and the forced-unwind signal is the `Unwind` result of `RegainControl`. The protected call around `resume` in `force_unwind` has nothing to catch in the model.
- The stack pool's internals and its `thread_local!` storage are not part of this model. The pool is a multiset of idle segments, passed explicitly as a parameter, and fresh allocation is a parameter supplied by the allocator. The pool reuses an idle segment when its size is exactly the one requested.
- The raw-pointer aliasing (`UnsafeCell`, `transmute`, `*mut CoroutineImpl` in `CoroutineRef`, `unsafe impl Send`) is modelled as one shared object reached by both handles. The cell holds the value itself rather than a pointer to a temporary `Option`.
- `spawn` with default `Options` (asymmetric.rs:254-257) is `Spawn` with an explicit stack size. The default values are not part of this model.
- A forced-unwind signal raised in the wrapper's yield loop, outside the protected call, cannot happen: `force_unwind` acts only on a Running coroutine. The model excludes that case by precondition rather than modelling the resulting abort. `Drop` likewise requires the raw coroutine to be present, which the source's `unwrap` assumes.
