/**
 * The raw transfer unit (`coroutine::raw`): one execution context paired with an
 * optional owned stack segment.  The register-level switch itself (`Context::swap`,
 * `init_with`) belongs to a foreign collaborator and is not modelled here; the
 * engine in module Asymmetric treats a transfer as an abstract step.
 */
module Raw {
  import opened Wrappers

  /** A stack segment, identified by `id` and tagged with its size. */
  datatype Stack = Stack(id: nat, size: nat)

  /**
   * A saved execution context, opaque to this model: either the inert context of
   * `Context::empty`, or one prepared to start the trampoline on a given stack.
   */
  datatype Context = Blank | Entry(stack: Stack)

  class Coroutine {
    var context: Context
    var stack: Option<Stack>

    /** `Coroutine::empty`: an inert context holding no stack. */
    constructor Empty()
      ensures context == Blank && stack == None
    {
      context := Blank;
      stack := None;
    }

    /** `Coroutine::new`: exactly the given context and stack. */
    constructor New(ctx: Context, s: Stack)
      ensures context == ctx && stack == Some(s)
    {
      context := ctx;
      stack := Some(s);
    }

    /** `take_stack`: moves the held stack out, leaving none behind. */
    method TakeStack() returns (s: Option<Stack>)
      modifies this`stack
      ensures s == old(stack) && stack == None
    {
      s := stack;
      stack := None;
    }

    /** `set_stack`: swaps `s` in and hands back whatever was held before. */
    method SetStack(s: Stack) returns (previous: Option<Stack>)
      modifies this`stack
      ensures stack == Some(s) && previous == old(stack)
    {
      var optStack := Some(s);
      stack, optStack := optStack, stack;
      previous := optStack;
    }
  }
}
