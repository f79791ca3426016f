/**
 * The per-thread stack pool, seen only through its take/give interface: the idle
 * segments form a multiset, and allocation of a fresh segment is a parameter
 * supplied by the stack allocator.
 */
module Pool {
  import opened Raw

  class StackPool {
    var idle: multiset<Stack>

    constructor ()
      ensures idle == multiset{}
    {
      idle := multiset{};
    }

    /**
     * Hands out an idle segment of exactly the requested size when there is one,
     * and otherwise the freshly allocated `newStack`.
     */
    method TakeStack(size: nat, newStack: Stack) returns (s: Stack)
      requires newStack.size >= size
      modifies this
      ensures s.size >= size
      ensures (exists t :: t in old(idle) && t.size == size) ==>
                s in old(idle) && s.size == size && idle == old(idle) - multiset{s}
      ensures !(exists t :: t in old(idle) && t.size == size) ==>
                s == newStack && idle == old(idle)
    {
      if exists t :: t in idle && t.size == size {
        var t :| t in idle && t.size == size;
        s := t;
        idle := idle - multiset{t};
      } else {
        s := newStack;
      }
    }

    /** Returns a segment to the idle segments for later reuse. */
    method GiveStack(s: Stack)
      modifies this
      ensures idle == old(idle) + multiset{s}
    {
      idle := idle + multiset{s};
    }
  }
}
