/**
 * The coroutine lifecycle engine of `coroutine::asymmetric`, stated on values.
 *
 * A `Record` is everything about one coroutine that the resumer and the body
 * share or observe: its `State`, the single-slot result cell, the point at which
 * the coroutine's own saved context will continue (`Phase`), and the values the
 * body's `yield_back`/`take_data` calls have returned to it so far.  The body
 * itself is a script of `Action`s; the transfer of control is an abstract step
 * (`Enter`) that runs the coroutine side from its parking point to its next
 * transfer back to the parent.
 */
module Protocol {
  import opened Wrappers

  datatype State = Created | Running | Finished | ForceUnwind

  /** The opaque payload of a panic raised by the body. */
  type Payload = string

  /** The crate's error: a captured panic with its payload, or the sentinel. */
  datatype Error = Panicking(payload: Payload) | Panicked

  datatype Result<T> = Ok(value: T) | Err(error: Error)

  /** The result cell shared by both sides. */
  type Slot<T> = Option<Result<T>>

  /** What the body does next: each action is one call the body makes. */
  datatype Action<T> =
    | YieldWith(data: T)      // `CoroutineRef::yield_with(data)`
    | YieldBack               // `CoroutineRef::yield_back()`
    | TakeData                // `CoroutineRef::take_data()`
    | Return                  // the body returns normally
    | Panic(payload: Payload) // the body panics

  /** A coroutine body; running off its end is a normal return. */
  type Body<T> = seq<Action<T>>

  /**
   * Where the coroutine side continues on the next transfer in: the trampoline
   * has not started yet, the body is parked in a `yield_back` with `body[pc]` as
   * its next action, or the wrapper is parked in its endless yield loop.
   */
  datatype Phase = NotStarted | InBody(pc: nat) | YieldLoop(panicked: bool)

  /** How the protected call of the body ended. */
  datatype BodyEnd = Returned | Unwound | Raised(payload: Payload)

  datatype Record<T> = Record(state: State, slot: Slot<T>, phase: Phase, received: seq<Option<T>>)

  /** The new record and what the resumer's call returned. */
  datatype Step<T> = Step(record: Record<T>, reply: Result<Option<T>>)

  /** What `yield_back` does once control has come back to the coroutine. */
  datatype Signal<T> = Unwind | Delivered(data: Option<T>)

  /** A sequence of resumer calls and the record they leave behind. */
  datatype Run<T> = Run(record: Record<T>, replies: seq<Result<Option<T>>>)

  predicate HoldsErr<T>(slot: Slot<T>)
  {
    slot.Some? && slot.value.Err?
  }

  /**
   * The coroutine side's drain (`take_data`, and the tail of `yield_back`): the
   * pending value, or nothing.  An error in the cell is unreachable there.
   */
  function BodyTake<T>(slot: Slot<T>): (data: Option<T>)
    requires !HoldsErr(slot)
    ensures data == None <==> slot == None
    ensures data.Some? ==> slot == Some(Ok(data.value))
  {
    match slot
    case None => None
    case Some(r) => Some(r.value)
  }

  /** The resumer's drain at the end of `resume`. */
  function ResumerTake<T>(slot: Slot<T>): (reply: Result<Option<T>>)
    ensures reply == Ok(None) <==> slot == None
    ensures reply.Ok? && reply.value.Some? <==> slot.Some? && slot.value.Ok?
    ensures reply.Ok? && reply.value.Some? ==> slot == Some(Ok(reply.value.value))
    ensures reply.Err? <==> HoldsErr(slot)
    ensures reply.Err? ==> slot == Some(Err(reply.error))
  {
    match slot
    case None => Ok(None)
    case Some(Ok(x)) => Ok(Some(x))
    case Some(Err(e)) => Err(e)
  }

  /**
   * The wrapper after the protected call of the body, up to its first transfer
   * back: the state becomes Finished; after a panic the payload is stored and at
   * once overwritten by the sentinel at the head of the yield loop.
   */
  function EndBody<T>(r: Record<T>, end: BodyEnd): (r': Record<T>)
    ensures r'.state == Finished && r'.phase == YieldLoop(end.Raised?)
    ensures r'.received == r.received
    ensures end.Raised? ==> r'.slot == Some(Err(Panicked))
    ensures !end.Raised? ==> r'.slot == r.slot
  {
    var finished := r.(state := Finished);
    match end
    case Raised(p) =>
      var stored := finished.(slot := Some(Err(Panicking(p))));
      stored.(slot := Some(Err(Panicked)), phase := YieldLoop(true))
    case _ =>
      finished.(phase := YieldLoop(false))
  }

  /**
   * The first action at or after `pc` that is not a `take_data` call (or the end
   * of the script): the point where a body entered at `pc` next transfers back.
   */
  function NextStop<T>(body: Body<T>, pc: nat): (k: nat)
    ensures pc <= k && (k <= |body| || k == pc)
    ensures forall j :: pc <= j < k ==> j < |body| && body[j] == TakeData
    ensures k < |body| ==> !body[k].TakeData?
    decreases |body| - pc
  {
    if pc < |body| && body[pc].TakeData? then NextStop(body, pc + 1) else pc
  }

  /**
   * Where a body entered at `pc` is parked after its next transfer back: just
   * after the yield it stops at, or in the wrapper's yield loop once it has
   * returned (or run off its end) or panicked.
   */
  function StopPhase<T>(body: Body<T>, pc: nat): Phase
  {
    var k := NextStop(body, pc);
    if k >= |body| then YieldLoop(false)
    else
      match body[k]
      case Panic(_) => YieldLoop(true)
      case Return => YieldLoop(false)
      case _ => InBody(k + 1)
  }

  /**
   * The body runs from `body[pc]` until it transfers back to the parent: at a
   * yield, or through the wrapper once the body has returned or panicked.
   */
  function RunBody<T>(body: Body<T>, pc: nat, r: Record<T>): (r': Record<T>)
    requires !HoldsErr(r.slot)
    ensures r'.phase.InBody? ==> r'.state == r.state && pc < r'.phase.pc <= |body|
    ensures r'.phase.YieldLoop? ==> r'.state == Finished
    ensures !r'.phase.NotStarted?
    ensures HoldsErr(r'.slot) <==> r'.phase == YieldLoop(true)
    ensures HoldsErr(r'.slot) ==> r'.slot == Some(Err(Panicked))
    ensures |r.received| <= |r'.received| && r'.received[..|r.received|] == r.received
    ensures r.slot == None ==> forall i :: |r.received| <= i < |r'.received| ==> r'.received[i] == None
    // It parks at the first yield at or after `pc`, with only `take_data` calls before it.
    ensures r'.phase.InBody? ==>
              && (forall j :: pc <= j < r'.phase.pc - 1 ==> body[j] == TakeData)
              && (body[r'.phase.pc - 1].YieldWith? || body[r'.phase.pc - 1].YieldBack?)
    // A `yield_with` leaves its value in the cell; a `yield_back` leaves the cell
    // as it found it, which is empty unless it is the very first action run.
    ensures r'.phase.InBody? && body[r'.phase.pc - 1].YieldWith? ==>
              r'.slot == Some(Ok(body[r'.phase.pc - 1].data))
    ensures r'.phase.InBody? && body[r'.phase.pc - 1].YieldBack? ==>
              r'.slot == if r'.phase.pc == pc + 1 then r.slot else None
    // Which transfer back happens is fixed by the first action that is not `take_data`.
    ensures r'.phase == StopPhase(body, pc)
    // A return leaves the cell as the last `take_data` left it.
    ensures r'.phase == YieldLoop(false) ==> r'.slot == if NextStop(body, pc) == pc then r.slot else None
    decreases |body| - pc
  {
    if pc >= |body| then EndBody(r, Returned)
    else
      match body[pc]
      case YieldWith(data) => r.(slot := Some(Ok(data)), phase := InBody(pc + 1))
      case YieldBack => r.(phase := InBody(pc + 1))
      case TakeData =>
        RunBody(body, pc + 1, r.(slot := None, received := r.received + [BodyTake(r.slot)]))
      case Return => EndBody(r, Returned)
      case Panic(p) => EndBody(r, Raised(p))
  }

  /** Where the body continues on the next transfer in: its parked pc, or its start. */
  function EntryPoint<T>(r: Record<T>): nat
  {
    if r.phase.InBody? then r.phase.pc else 0
  }

  /** What a transfer into the coroutine may find: no error pending for it. */
  predicate CanEnter<T>(r: Record<T>)
  {
    !HoldsErr(r.slot) && (r.phase.YieldLoop? ==> !r.state.ForceUnwind?)
  }

  /**
   * A transfer into the coroutine, which runs until it transfers back.  The
   * trampoline sets Running before the body's first action; a parked
   * `yield_back` raises the forced unwind before it touches the cell when the
   * state is ForceUnwind, and otherwise hands the drained value to the body; the
   * yield loop after the body drains the cell, discards it, and, after a panic,
   * stores the sentinel again.
   */
  function Enter<T>(body: Body<T>, r: Record<T>): (r': Record<T>)
    requires CanEnter(r)
    ensures !r'.phase.NotStarted?
    // Control comes back from a yield: the first one after the entry point.
    ensures r'.phase.InBody? ==>
              && 0 < r'.phase.pc <= |body|
              && (body[r'.phase.pc - 1].YieldWith? || body[r'.phase.pc - 1].YieldBack?)
    ensures r'.phase.InBody? && body[r'.phase.pc - 1].YieldWith? ==>
              r'.slot == Some(Ok(body[r'.phase.pc - 1].data))
    // The body runs from its entry point to the transfer back its actions fix.
    ensures r.phase.NotStarted? ==> r'.phase == StopPhase(body, 0)
    ensures r.phase.InBody? && !r.state.ForceUnwind? ==> r'.phase == StopPhase(body, r.phase.pc)
    // A first entry is Running while the body is parked, Finished once it is over.
    ensures r.phase.NotStarted? ==> r'.state == if r'.phase.InBody? then Running else Finished
    // A forced unwind ends the body at once; the cell and what it received are untouched.
    ensures r.phase.InBody? && r.state.ForceUnwind? ==>
              r' == Record(Finished, r.slot, YieldLoop(false), r.received)
    // Otherwise the parked `yield_back` returns the drained cell to the body.
    ensures r.phase.InBody? && !r.state.ForceUnwind? ==>
              && |r'.received| > |r.received|
              && r'.received[..|r.received| + 1] == r.received + [BodyTake(r.slot)]
    // The yield loop drains and discards the cell, and stores the sentinel after a panic.
    ensures r.phase.YieldLoop? ==>
              && r'.state == r.state && r'.phase == r.phase && r'.received == r.received
              && r'.slot == if r.phase.panicked then Some(Err(Panicked)) else None
  {
    match r.phase
    case NotStarted => RunBody(body, 0, r.(state := Running))
    case InBody(pc) =>
      if r.state.ForceUnwind? then EndBody(r, Unwound)
      else RunBody(body, pc, r.(slot := None, received := r.received + [BodyTake(r.slot)]))
    case YieldLoop(panicked) =>
      var drained := r.(slot := None);
      if panicked then drained.(slot := Some(Err(Panicked))) else drained
  }

  /**
   * The resumer's side between two calls: the cell is empty, and the state
   * agrees with where the coroutine is parked (so it is never ForceUnwind).
   */
  predicate Inv<T>(body: Body<T>, r: Record<T>)
  {
    && r.slot == None
    && (r.phase.NotStarted? <==> r.state.Created?)
    && (r.phase.InBody? <==> r.state.Running?)
    && (r.phase.YieldLoop? <==> r.state.Finished?)
    && (r.phase.InBody? ==> r.phase.pc <= |body|)
  }

  /** A freshly spawned coroutine. */
  function Spawned<T>(): (r: Record<T>)
    ensures r.phase == NotStarted && r.received == []
    // Created with an empty cell, so the resumer's invariant holds whatever the body.
    ensures r.state == Created && r.slot == None
  {
    Record(Created, None, NotStarted, [])
  }

  /**
   * `resume`: transfer in, then drain the cell.  The cell is always left empty;
   * an error is reported exactly when the coroutine is parked after a panic, and
   * then it is the sentinel, never the captured payload.
   */
  function Resume<T>(body: Body<T>, r: Record<T>): (s: Step<T>)
    requires CanEnter(r)
    ensures s.record.slot == None
    ensures s.reply.Err? <==> s.record.phase == YieldLoop(true)
    ensures s.reply.Err? ==> s.reply.error == Panicked
    ensures Inv(body, r) ==> Inv(body, s.record)
    // A body that runs parks where its actions say, so a panic is reported at once.
    ensures r.phase.NotStarted? || (r.phase.InBody? && !r.state.ForceUnwind?) ==>
              s.record.phase == StopPhase(body, EntryPoint(r))
    // A reply from a parked body is the value of the `yield_with` it is parked at.
    ensures s.record.phase.InBody? ==> 0 < s.record.phase.pc <= |body|
    ensures s.record.phase.InBody? && body[s.record.phase.pc - 1].YieldWith? ==>
              s.reply == Ok(Some(body[s.record.phase.pc - 1].data))
  {
    var entered := Enter(body, r);
    Step(entered.(slot := None), ResumerTake(entered.slot))
  }

  /** `resume_with`: store the value, then `resume`. */
  function ResumeWith<T>(body: Body<T>, r: Record<T>, data: T): (s: Step<T>)
    requires r.phase.YieldLoop? ==> !r.state.ForceUnwind?
    ensures s.record.slot == None
    // A body parked in `yield_back` receives the value.
    ensures r.phase.InBody? && !r.state.ForceUnwind? ==>
              |s.record.received| > |r.received| && s.record.received[|r.received|] == Some(data)
    // In the yield loop the value is drained and discarded.
    ensures r.phase.YieldLoop? ==>
              s.record == r.(slot := None) && s.reply == if r.phase.panicked then Err(Panicked) else Ok(None)
  {
    Resume(body, r.(slot := Some(Ok(data))))
  }

  /**
   * `force_unwind`: only a Running coroutine is affected; it is marked
   * ForceUnwind and resumed once, with the outcome discarded.  The parked body
   * then unwinds without receiving anything, and the coroutine is left
   * Finished in the wrapper's yield loop with an empty cell.
   */
  function ForcedUnwind<T>(body: Body<T>, r: Record<T>): (r': Record<T>)
    requires Inv(body, r)
    ensures !r.state.Running? ==> r' == r
    ensures r.state.Running? ==> r' == Record(Finished, None, YieldLoop(false), r.received)
  {
    if r.state.Running? then Resume(body, r.(state := State.ForceUnwind)).record else r
  }

  /** `Iterator::next`: "no value" ends the iteration, anything else is an item. */
  function IterItem<T>(reply: Result<Option<T>>): (item: Option<Result<T>>)
    ensures item == None <==> reply == Ok(None)
    ensures item.Some? && item.value.Ok? <==> reply.Ok? && reply.value.Some?
    ensures item.Some? && item.value.Ok? ==> reply == Ok(Some(item.value.value))
    ensures item.Some? && item.value.Err? <==> reply.Err?
    ensures reply.Err? ==> item == Some(Err(reply.error))
  {
    match reply
    case Ok(r) => (match r case None => None case Some(x) => Some(Ok(x)))
    case Err(e) => Some(Err(e))
  }

  /** One resumer call: `resume` for `None`, `resume_with(v)` for `Some(v)`. */
  function Call<T>(body: Body<T>, r: Record<T>, send: Option<T>): Step<T>
    requires CanEnter(r)
  {
    match send
    case None => Resume(body, r)
    case Some(v) => ResumeWith(body, r, v)
  }

  /** A sequence of resumer calls, one per element of `sends`. */
  function Drive<T>(body: Body<T>, r: Record<T>, sends: seq<Option<T>>): (run: Run<T>)
    requires Inv(body, r)
    ensures |run.replies| == |sends|
    ensures Inv(body, run.record)
    decreases |sends|
  {
    if sends == [] then Run(r, [])
    else
      var s := Call(body, r, sends[0]);
      var rest := Drive(body, s.record, sends[1..]);
      Run(rest.record, [s.reply] + rest.replies)
  }

  /** `n` pulls of the iterator adapter: `next` is `resume` with its reply mapped by `IterItem`. */
  function Iterate<T>(body: Body<T>, r: Record<T>, n: nat): (items: seq<Option<Result<T>>>)
    requires Inv(body, r)
    ensures |items| == n
    // Each pull is the reply of the matching call in a run of plain `resume`s, mapped by `IterItem`.
    ensures forall i :: 0 <= i < n ==> items[i] == IterItem(Drive(body, r, seq(n, _ => None)).replies[i])
    decreases n
  {
    if n == 0 then []
    else
      var s := Resume(body, r);
      var sends: seq<Option<T>> := seq(n, _ => None);
      assert Call(body, r, sends[0]) == s;
      assert sends[1..] == seq(n - 1, _ => None);
      [IterItem(s.reply)] + Iterate(body, s.record, n - 1)
  }

  /** An upper bound on the number of resumer calls before the body is over. */
  function Remaining<T>(body: Body<T>, r: Record<T>): nat
  {
    match r.phase
    case NotStarted => |body| + 1
    case InBody(pc) => if pc <= |body| then |body| - pc + 1 else 1
    case YieldLoop(_) => 0
  }
}
