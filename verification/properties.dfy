/**
 * Properties of the coroutine lifecycle engine, proved about the value-level
 * functions of module Protocol (and hence, through their contracts, about the
 * methods of module Asymmetric).
 */
module Properties {
  import opened Wrappers
  import opened Protocol

  /**
   * A value sent with `resume_with` to a coroutine parked in the body's
   * `yield_back` is what that `yield_back` returns, and no later drain on the
   * coroutine side during that transfer sees it again.
   */
  lemma ResumeWithDeliversOnce<T>(body: Body<T>, r: Record<T>, data: T)
    requires Inv(body, r) && r.phase.InBody?
    ensures var after := ResumeWith(body, r, data).record;
            && |after.received| > |r.received|
            && after.received[..|r.received| + 1] == r.received + [Some(data)]
            && forall i :: |r.received| < i < |after.received| ==> after.received[i] == None
  {
    var pc := r.phase.pc;
    var handed := r.(slot := None, received := r.received + [Some(data)]);
    var after := RunBody(body, pc, handed);
    assert ResumeWith(body, r, data).record == after.(slot := None);
    assert after.received[..|handed.received|] == handed.received;
    assert after.received[..|r.received| + 1] == after.received[..|handed.received|];
  }

  /**
   * A body that, from where it continues, calls only `take_data` before it
   * panics makes that very call report the sentinel, and is Finished.
   */
  lemma PanicReachesResumer<T>(body: Body<T>, r: Record<T>, send: Option<T>, k: nat)
    requires Inv(body, r) && !r.phase.YieldLoop?
    requires EntryPoint(r) <= k < |body| && body[k].Panic?
    requires forall j :: EntryPoint(r) <= j < k ==> body[j] == TakeData
    ensures Call(body, r, send).reply == Err(Panicked)
    ensures Call(body, r, send).record.state == Finished
    ensures Call(body, r, send).record.phase == YieldLoop(true)
  {
  }

  /**
   * A body that, from where it continues, calls only `take_data` before
   * `yield_with(v)` parks after that yield, and the call that transferred in
   * replies `v`.
   */
  lemma YieldWithReachesResumer<T>(body: Body<T>, r: Record<T>, send: Option<T>, k: nat)
    requires Inv(body, r) && !r.phase.YieldLoop?
    requires EntryPoint(r) <= k < |body| && body[k].YieldWith?
    requires forall j :: EntryPoint(r) <= j < k ==> body[j] == TakeData
    ensures Call(body, r, send).reply == Ok(Some(body[k].data))
    ensures Call(body, r, send).record.state == Running
    ensures Call(body, r, send).record.phase == InBody(k + 1)
  {
  }

  /**
   * A body that, from where it continues, calls only `take_data` before
   * `yield_back` parks after that yield, and the resumer gets "no value"; only
   * the value of a first `resume_with` that no `take_data` drained comes back.
   */
  lemma YieldBackReportsNothing<T>(body: Body<T>, r: Record<T>, send: Option<T>, k: nat)
    requires Inv(body, r) && !r.phase.YieldLoop?
    requires EntryPoint(r) <= k < |body| && body[k] == YieldBack
    requires forall j :: EntryPoint(r) <= j < k ==> body[j] == TakeData
    ensures Call(body, r, send).reply == if r.phase.NotStarted? && k == 0 then Ok(send) else Ok(None)
    ensures Call(body, r, send).record.state == Running
    ensures Call(body, r, send).record.phase == InBody(k + 1)
  {
  }

  /**
   * A body that, from where it continues, calls only `take_data` before it
   * returns (or runs off its end) is Finished in the yield loop, and the
   * resumer gets "no value"; only the value of a first `resume_with` that no
   * `take_data` drained comes back.
   */
  lemma ReturnReportsNothing<T>(body: Body<T>, r: Record<T>, send: Option<T>, k: nat)
    requires Inv(body, r) && !r.phase.YieldLoop?
    requires EntryPoint(r) <= k <= |body| && (k == |body| || body[k] == Return)
    requires forall j :: EntryPoint(r) <= j < k ==> body[j] == TakeData
    ensures Call(body, r, send).reply == if r.phase.NotStarted? && k == 0 then Ok(send) else Ok(None)
    ensures Call(body, r, send).record.state == Finished
    ensures Call(body, r, send).record.phase == YieldLoop(false)
  {
  }

  /**
   * The first `resume_with` of a fresh coroutine whose body's first call is
   * `yield_back`, or which returns at once, gets its own value back: the
   * trampoline does not drain the cell, and the body never sees the value.
   */
  lemma FirstResumeWithEchoes<T>(body: Body<T>, data: T)
    requires body == [] || body[0] == YieldBack || body[0] == Return
    ensures ResumeWith(body, Spawned(), data).reply == Ok(Some(data))
    ensures ResumeWith(body, Spawned(), data).record.received == []
  {
  }

  /**
   * The first `resume_with` of a fresh coroutine whose body's first call is
   * `yield_with(w)` gets `w`: the sent value is overwritten in the cell and lost.
   */
  lemma FirstResumeWithLost<T>(body: Body<T>, data: T, w: T)
    requires |body| > 0 && body[0] == YieldWith(w)
    ensures ResumeWith(body, Spawned(), data) == Step(Record(Running, None, InBody(1), []), Ok(Some(w)))
  {
  }

  /** A fresh coroutine whose body starts with `take_data` receives the first value sent. */
  lemma FirstResumeWithTaken<T>(body: Body<T>, data: T)
    requires |body| > 0 && body[0] == TakeData
    ensures var after := ResumeWith(body, Spawned(), data).record;
            |after.received| > 0 && after.received[0] == Some(data)
  {
    var started: Record<T> := Record(Running, Some(Ok(data)), NotStarted, []);
    var handed := started.(slot := None, received := started.received + [BodyTake(started.slot)]);
    assert handed.received == [Some(data)];
    var taken := RunBody(body, 1, handed);
    assert RunBody(body, 0, started) == taken;
    assert Enter(body, Spawned().(slot := Some(Ok(data)))) == taken;
    assert taken.received[..1] == [Some(data)];
  }

  /** A body that returns at once: the first resume reports "no value" and the coroutine is Finished. */
  lemma ImmediateReturn<T>(body: Body<T>)
    requires body == [] || body[0] == Return
    ensures Resume(body, Spawned()) == Step(Record(Finished, None, YieldLoop(false), []), Ok(None))
  {
  }

  /** Once Finished after a return or a forced unwind, every call reports "no value" and changes nothing. */
  lemma FinishedIsPermanent<T>(body: Body<T>, r: Record<T>, send: Option<T>)
    requires Inv(body, r) && r.phase == YieldLoop(false)
    ensures Call(body, r, send) == Step(r, Ok(None))
  {
  }

  /** Once Finished after a panic, every call reports the sentinel and changes nothing. */
  lemma PanickedIsPermanent<T>(body: Body<T>, r: Record<T>, send: Option<T>)
    requires Inv(body, r) && r.phase == YieldLoop(true)
    ensures Call(body, r, send) == Step(r, Err(Panicked))
  {
  }

  /** Exhaustion is permanent and repeatable over any number of calls. */
  lemma {:induction false} FinishedDriveReportsNothing<T>(body: Body<T>, r: Record<T>, sends: seq<Option<T>>)
    requires Inv(body, r) && r.phase == YieldLoop(false)
    ensures Drive(body, r, sends).record == r
    ensures forall i :: 0 <= i < |sends| ==> Drive(body, r, sends).replies[i] == Ok(None)
    decreases |sends|
  {
    if sends != [] {
      FinishedIsPermanent(body, r, sends[0]);
      FinishedDriveReportsNothing(body, r, sends[1..]);
    }
  }

  /** After a panic, every later call reports the sentinel, never the payload. */
  lemma {:induction false} PanickedDriveReportsSentinel<T>(body: Body<T>, r: Record<T>, sends: seq<Option<T>>)
    requires Inv(body, r) && r.phase == YieldLoop(true)
    ensures Drive(body, r, sends).record == r
    ensures forall i :: 0 <= i < |sends| ==> Drive(body, r, sends).replies[i] == Err(Panicked)
    decreases |sends|
  {
    if sends != [] {
      PanickedIsPermanent(body, r, sends[0]);
      PanickedDriveReportsSentinel(body, r, sends[1..]);
    }
  }

  /** No call ever reports the captured payload: a panic always surfaces as the sentinel. */
  lemma {:induction false} NoCallReportsPayload<T>(body: Body<T>, r: Record<T>, sends: seq<Option<T>>)
    requires Inv(body, r)
    ensures forall i :: 0 <= i < |sends| && Drive(body, r, sends).replies[i].Err? ==>
                       Drive(body, r, sends).replies[i].error == Panicked
    decreases |sends|
  {
    if sends != [] {
      NoCallReportsPayload(body, Call(body, r, sends[0]).record, sends[1..]);
    }
  }

  /** Every call on a coroutine that is not yet over brings it strictly closer to its end. */
  lemma ResumeProgress<T>(body: Body<T>, r: Record<T>, send: Option<T>)
    requires Inv(body, r) && !r.phase.YieldLoop?
    ensures Remaining(body, Call(body, r, send).record) < Remaining(body, r)
  {
  }

  /** Once over, a coroutine stays over, in the same way (returned or panicked). */
  lemma YieldLoopStays<T>(body: Body<T>, r: Record<T>, send: Option<T>)
    requires Inv(body, r) && r.phase.YieldLoop?
    ensures Call(body, r, send).record.phase == r.phase
  {
  }

  /**
   * A body of n actions is over after at most n + 1 calls: the resumer never
   * re-enters code it has already run.
   */
  lemma {:induction false} DriveFinishes<T>(body: Body<T>, r: Record<T>, sends: seq<Option<T>>)
    requires Inv(body, r) && |sends| >= Remaining(body, r)
    ensures Drive(body, r, sends).record.phase.YieldLoop?
    decreases |sends|
  {
    if sends == [] {
      assert Remaining(body, r) == 0;
    } else {
      var s := Call(body, r, sends[0]);
      if r.phase.YieldLoop? {
        YieldLoopStays(body, r, sends[0]);
      } else {
        ResumeProgress(body, r, sends[0]);
      }
      DriveFinishes(body, s.record, sends[1..]);
    }
  }

  /** A fresh coroutine is over after |body| + 1 calls, whatever they send. */
  lemma SpawnedFinishes<T>(body: Body<T>, sends: seq<Option<T>>)
    requires |sends| > |body|
    ensures Drive(body, Spawned(), sends).record.state == Finished
  {
    DriveFinishes(body, Spawned(), sends);
  }

  /** Iterating a coroutine that panicked never ends: every pull yields the sentinel. */
  lemma {:induction false} PanickedIterationNeverEnds<T>(body: Body<T>, r: Record<T>, n: nat)
    requires Inv(body, r) && r.phase == YieldLoop(true)
    ensures forall i :: 0 <= i < n ==> Iterate(body, r, n)[i] == Some(Err(Panicked))
    decreases n
  {
    if n > 0 {
      PanickedIsPermanent(body, r, None);
      PanickedIterationNeverEnds(body, r, n - 1);
    }
  }

  /** Iterating a coroutine that returned ends at once and stays ended. */
  lemma {:induction false} FinishedIterationIsOver<T>(body: Body<T>, r: Record<T>, n: nat)
    requires Inv(body, r) && r.phase == YieldLoop(false)
    ensures forall i :: 0 <= i < n ==> Iterate(body, r, n)[i] == None
    decreases n
  {
    if n > 0 {
      FinishedIsPermanent(body, r, None);
      FinishedIterationIsOver(body, r, n - 1);
    }
  }

  /**
   * After a forced unwind, the coroutine behaves as one that returned: every
   * later call reports "no value".
   */
  lemma ForcedUnwindThenExhausted<T>(body: Body<T>, r: Record<T>, sends: seq<Option<T>>)
    requires Inv(body, r) && r.state.Running?
    ensures Inv(body, ForcedUnwind(body, r))
    ensures forall i :: 0 <= i < |sends| ==> Drive(body, ForcedUnwind(body, r), sends).replies[i] == Ok(None)
  {
    FinishedDriveReportsNothing(body, ForcedUnwind(body, r), sends);
  }
}
