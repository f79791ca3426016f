/**
 * The coroutine engine of `coroutine::asymmetric` as objects that change in
 * place.  `CoroutineImpl` is the record both sides reach; `Coroutine` is the
 * owning handle used by the resumer; `CoroutineRef` is the handle the body
 * receives.  Every method is proved against the value-level functions of
 * module Protocol, whose properties are proved in module Properties.
 *
 * A transfer of control is the abstract step `EnterCoroutine`: it runs the
 * coroutine side from where its saved context is parked (`phase`) until it
 * transfers back to the parent.
 */
module Asymmetric {
  import opened Wrappers
  import opened Protocol
  import Raw
  import Pool

  class CoroutineImpl<T> {
    var parent: Raw.Coroutine
    var rawImpl: Option<Raw.Coroutine>
    const name: Option<string>
    /** The entry closure, as the script of calls it makes. */
    const body: Body<T>
    var state: State
    var result: Slot<T>
    /** Where the coroutine's own saved context continues on the next transfer in. */
    var phase: Phase
    /** What the body's `yield_back` and `take_data` calls have returned so far. */
    ghost var received: seq<Option<T>>

    ghost function Snapshot(): Record<T>
      reads this
    {
      Record(state, result, phase, received)
    }

    ghost predicate Valid()
      reads this
    {
      rawImpl.Some? && rawImpl.value != parent && Inv(body, Snapshot())
    }

    /** The record `spawn_opts` allocates: Created, with an empty cell. */
    constructor (body: Body<T>, name: Option<string>, parent: Raw.Coroutine, rawImpl: Raw.Coroutine)
      requires parent != rawImpl
      ensures this.body == body && this.name == name
      ensures this.parent == parent && this.rawImpl == Some(rawImpl)
      ensures Snapshot() == Spawned()
      ensures Valid()
    {
      this.parent := parent;
      this.rawImpl := Some(rawImpl);
      this.name := name;
      this.body := body;
      state := Created;
      result := None;
      phase := NotStarted;
      received := [];
    }

    /**
     * `take_data`: drains the cell and returns the pending value or nothing; an
     * error there is unreachable on the coroutine side.
     */
    method TakeData() returns (data: Option<T>)
      requires !HoldsErr(result)
      modifies this`result
      ensures data == BodyTake(old(result)) && result == None
    {
      var taken := result;
      result := None;
      data := match taken
        case None => None
        case Some(r) => Some(r.value);
    }

    /**
     * The part of `yield_back` that runs once control is back in the coroutine:
     * when the state is ForceUnwind it raises the forced-unwind signal and leaves
     * the cell alone; otherwise it drains the cell.
     */
    method RegainControl() returns (signal: Signal<T>)
      requires !state.ForceUnwind? ==> !HoldsErr(result)
      modifies this`result
      ensures state.ForceUnwind? ==> signal == Unwind && result == old(result)
      ensures !state.ForceUnwind? ==> signal == Delivered(BodyTake(old(result))) && result == None
    {
      if state.ForceUnwind? {
        signal := Unwind;
        return;
      }
      var taken := result;
      result := None;
      signal := match taken
        case None => Delivered(None)
        case Some(r) => Delivered(Some(r.value));
    }

    /**
     * The trampoline's wrapper once the protected call of the body is over, up
     * to its first transfer back: Finished, then, after a panic, the payload is
     * stored and the loop head overwrites it with the sentinel.
     */
    method FinishBody(end: BodyEnd)
      modifies this`state, this`result, this`phase
      ensures Snapshot() == EndBody(old(Snapshot()), end)
    {
      state := Finished;
      var isPanicked := end.Raised?;
      if isPanicked {
        result := Some(Err(Panicking(end.payload)));
      }
      // first pass of the endless yield loop
      if isPanicked {
        result := Some(Err(Panicked));
      }
      phase := YieldLoop(isPanicked);
    }

    /** The body runs from `body[pc]`, calling through `puller`, until it transfers back. */
    method RunBodyFrom(puller: CoroutineRef<T>, pc: nat)
      requires puller.coro == this && !HoldsErr(result)
      modifies this`state, this`result, this`phase, this`received
      ensures Snapshot() == RunBody(body, pc, old(Snapshot()))
    {
      var i := pc;
      while i < |body|
        invariant !HoldsErr(result)
        invariant RunBody(body, i, Snapshot()) == RunBody(body, pc, old(Snapshot()))
        decreases |body| - i
      {
        match body[i] {
          case YieldWith(data) =>
            result := Some(Ok(data));
            phase := InBody(i + 1);
            return;
          case YieldBack =>
            phase := InBody(i + 1);
            return;
          case TakeData =>
            var data := puller.TakeData();
            received := received + [data];
            i := i + 1;
          case Return =>
            FinishBody(Returned);
            return;
          case Panic(p) =>
            FinishBody(Raised(p));
            return;
        }
      }
      FinishBody(Returned);
    }

    /** A transfer of control into the coroutine, which runs until it transfers back. */
    method EnterCoroutine()
      requires CanEnter(Snapshot())
      modifies this`state, this`result, this`phase, this`received
      ensures Snapshot() == Enter(body, old(Snapshot()))
    {
      match phase {
        case NotStarted =>
          var puller := new CoroutineRef(this);
          state := Running;
          RunBodyFrom(puller, 0);
        case InBody(pc) =>
          var signal := RegainControl();
          match signal {
            case Unwind =>
              FinishBody(Unwound);
            case Delivered(data) =>
              received := received + [data];
              var puller := new CoroutineRef(this);
              RunBodyFrom(puller, pc);
          }
        case YieldLoop(panicked) =>
          var discarded := RegainControl();
          if panicked {
            result := Some(Err(Panicked));
          }
      }
    }

    /** `resume`: transfer to the coroutine, then drain the cell. */
    method Resume() returns (reply: Result<Option<T>>)
      requires rawImpl.Some? && CanEnter(Snapshot())
      modifies this`state, this`result, this`phase, this`received
      ensures Step(Snapshot(), reply) == Protocol.Resume(body, old(Snapshot()))
    {
      EnterCoroutine();
      var taken := result;
      result := None;
      reply := match taken
        case None => Ok(None)
        case Some(Ok(x)) => Ok(Some(x))
        case Some(Err(e)) => Err(e);
    }

    /** `resume_with`: store the value for the body, then `resume`. */
    method ResumeWith(data: T) returns (reply: Result<Option<T>>)
      requires rawImpl.Some? && (phase.YieldLoop? ==> !state.ForceUnwind?)
      modifies this`state, this`result, this`phase, this`received
      ensures Step(Snapshot(), reply) == Protocol.ResumeWith(body, old(Snapshot()), data)
    {
      result := Some(Ok(data));
      reply := Resume();
    }

    /** `force_unwind`: a Running coroutine is marked and resumed once, the outcome discarded. */
    method ForceUnwind()
      requires Valid()
      modifies this`state, this`result, this`phase, this`received
      ensures Valid()
      ensures Snapshot() == Protocol.ForcedUnwind(body, old(Snapshot()))
    {
      if state.Running? {
        state := State.ForceUnwind;
        var discarded := Resume();
      }
    }

    /**
     * `drop`: force the coroutine to completion, then hand the stack it holds,
     * if any, back to the pool, once.
     */
    method Drop(pool: Pool.StackPool)
      requires Valid()
      modifies this`state, this`result, this`phase, this`received, this`rawImpl, rawImpl.value, pool
      ensures Snapshot() == Protocol.ForcedUnwind(body, old(Snapshot()))
      ensures rawImpl == None && old(rawImpl.value).stack == None
      ensures old(rawImpl.value.stack).Some? ==>
                pool.idle == old(pool.idle) + multiset{old(rawImpl.value.stack).value}
      ensures old(rawImpl.value.stack).None? ==> pool.idle == old(pool.idle)
    {
      ForceUnwind();
      var raw := rawImpl.value;
      rawImpl := None;
      var stack := raw.TakeStack();
      if stack.Some? {
        pool.GiveStack(stack.value);
      }
    }
  }

  /** The handle the body receives; it reaches the same record as the owner. */
  class CoroutineRef<T> {
    const coro: CoroutineImpl<T>

    constructor (coro: CoroutineImpl<T>)
      ensures this.coro == coro
    {
      this.coro := coro;
    }

    /** `CoroutineRef::take_data`, forwarded to the record. */
    method TakeData() returns (data: Option<T>)
      requires !HoldsErr(coro.result)
      modifies coro`result
      ensures data == BodyTake(old(coro.result)) && coro.result == None
    {
      data := coro.TakeData();
    }
  }

  /** The owning handle. */
  class Coroutine<T> {
    const coro: CoroutineImpl<T>

    ghost predicate Valid()
      reads this, coro
    {
      coro.Valid()
    }

    /**
     * `spawn_opts`: take a stack from the pool, build a Created record with an
     * empty cell, prepare its context to start the trampoline on that stack and
     * attach the stack to it.
     */
    constructor Spawn(body: Body<T>, name: Option<string>, pool: Pool.StackPool, stackSize: nat, newStack: Raw.Stack)
      requires newStack.size >= stackSize
      modifies pool
      ensures Valid() && fresh(coro) && fresh(coro.rawImpl.value) && fresh(coro.parent)
      ensures coro.body == body && coro.name == name
      ensures coro.Snapshot() == Spawned()
      ensures coro.parent.context == Raw.Blank && coro.parent.stack == None
      ensures coro.rawImpl.value.stack.Some?
      ensures var s := coro.rawImpl.value.stack.value;
              && s.size >= stackSize
              && coro.rawImpl.value.context == Raw.Entry(s)
              && ((exists t :: t in old(pool.idle) && t.size == stackSize) ==>
                    s in old(pool.idle) && s.size == stackSize && pool.idle == old(pool.idle) - multiset{s})
              && (!(exists t :: t in old(pool.idle) && t.size == stackSize) ==>
                    s == newStack && pool.idle == old(pool.idle))
    {
      var stack := pool.TakeStack(stackSize, newStack);
      var parent := new Raw.Coroutine.Empty();
      var raw := new Raw.Coroutine.Empty();
      var impl := new CoroutineImpl(body, name, parent, raw);
      raw.context := Raw.Entry(stack);
      var previous := raw.SetStack(stack);
      coro := impl;
    }

    /** `Coroutine::resume`, forwarded to the record. */
    method Resume() returns (reply: Result<Option<T>>)
      requires Valid()
      modifies coro`state, coro`result, coro`phase, coro`received
      ensures Valid()
      ensures Step(coro.Snapshot(), reply) == Protocol.Resume(coro.body, old(coro.Snapshot()))
    {
      reply := coro.Resume();
    }

    /** `Coroutine::resume_with`, forwarded to the record. */
    method ResumeWith(data: T) returns (reply: Result<Option<T>>)
      requires Valid()
      modifies coro`state, coro`result, coro`phase, coro`received
      ensures Valid()
      ensures Step(coro.Snapshot(), reply) == Protocol.ResumeWith(coro.body, old(coro.Snapshot()), data)
    {
      reply := coro.ResumeWith(data);
    }

    /** `Iterator::next`: one `resume`, with "no value" ending the iteration. */
    method Next() returns (item: Option<Result<T>>)
      requires Valid()
      modifies coro`state, coro`result, coro`phase, coro`received
      ensures Valid()
      ensures var s := Protocol.Resume(coro.body, old(coro.Snapshot()));
              coro.Snapshot() == s.record && item == IterItem(s.reply)
    {
      var reply := Resume();
      item := match reply
        case Ok(r) => (match r case None => None case Some(x) => Some(Ok(x)))
        case Err(e) => Some(Err(e));
    }

    /** Dropping the handle drops the record it owns. */
    method Drop(pool: Pool.StackPool)
      requires Valid()
      modifies coro`state, coro`result, coro`phase, coro`received, coro`rawImpl, coro.rawImpl.value, pool
      ensures coro.Snapshot() == Protocol.ForcedUnwind(coro.body, old(coro.Snapshot()))
      ensures coro.rawImpl == None && old(coro.rawImpl.value).stack == None
      ensures old(coro.rawImpl.value.stack).Some? ==>
                pool.idle == old(pool.idle) + multiset{old(coro.rawImpl.value.stack).value}
      ensures old(coro.rawImpl.value.stack).None? ==> pool.idle == old(pool.idle)
    {
      coro.Drop(pool);
    }
  }

  /**
   * Spawning a coroutine, resuming it once and dropping it hands its stack back
   * to the pool: a segment taken from the idle ones is idle again, and a freshly
   * allocated one joins them.
   */
  method StackRoundTrip<T>(body: Body<T>, pool: Pool.StackPool, stackSize: nat, newStack: Raw.Stack)
    returns (used: Raw.Stack)
    requires newStack.size >= stackSize
    modifies pool
    ensures used.size >= stackSize && used in pool.idle
    ensures used.size == stackSize || used == newStack
    ensures (used in old(pool.idle) && pool.idle == old(pool.idle))
            || (used == newStack && pool.idle == old(pool.idle) + multiset{newStack})
  {
    var handle := new Coroutine.Spawn(body, None, pool, stackSize, newStack);
    used := handle.coro.rawImpl.value.stack.value;
    var reply := handle.Resume();
    handle.Drop(pool);
  }

  /**
   * After a round trip, a second spawn asking for a stack of the size the first
   * coroutine used takes an idle segment of that size instead of allocating
   * `spareStack`.
   */
  method StackReuse<T>(body: Body<T>, pool: Pool.StackPool, stackSize: nat, newStack: Raw.Stack, spareStack: Raw.Stack)
    returns (used: Raw.Stack, again: Raw.Stack)
    requires newStack.size >= stackSize && spareStack.size >= newStack.size
    modifies pool
    ensures used.size >= stackSize && again.size == used.size
    ensures (used in old(pool.idle) && pool.idle + multiset{again} == old(pool.idle))
            || (used == newStack && pool.idle + multiset{again} == old(pool.idle) + multiset{newStack})
  {
    used := StackRoundTrip(body, pool, stackSize, newStack);
    ghost var idle := pool.idle;
    var second := new Coroutine.Spawn(body, None, pool, used.size, spareStack);
    again := second.coro.rawImpl.value.stack.value;
    assert again in idle && pool.idle == idle - multiset{again};
  }
}
