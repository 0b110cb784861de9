/** The microtask queue: an array with a moving head, compacted when its end is reached and grown only when full. */
module ReadyQueue {
  class Queue {
    var slots: array<nat>
    var head: nat
    var len: nat

    ghost predicate Valid()
      reads this
    {
      head + len <= slots.Length
    }

    /** The queued fibers, oldest first. */
    ghost function Contents(): (q: seq<nat>)
      reads this, slots
      requires Valid()
      ensures |q| == len
    {
      slots[head..head + len]
    }

    constructor ()
      ensures Valid() && Contents() == [] && fresh(slots)
    {
      slots, head, len := new nat[0], 0, 0;
    }

    /** Compacts before it grows, so the array grows only when every slot is in use. */
    method Push(f: nat)
      requires Valid()
      modifies this, slots
      ensures Valid() && Contents() == old(Contents()) + [f] && (fresh(slots) || slots == old(slots))
      ensures old(len) < old(slots.Length) ==> slots == old(slots)
    {
      if head + len == slots.Length {
        Compact();
        if len == slots.Length { Grow(); }
      }
      ghost var q := Contents();
      slots[head + len] := f;
      len := len + 1;
      assert Contents()[..len - 1] == q;
      assert Contents() == Contents()[..len - 1] + [f];
    }

    /** Moves the contents to the front, in place. */
    method Compact()
      requires Valid()
      modifies this`head, slots
      ensures Valid() && head == 0 && Contents() == old(Contents())
    {
      var k := 0;
      while k < len
        modifies slots
        invariant 0 <= k <= len
        invariant forall j :: 0 <= j < k ==> slots[j] == old(slots[head + j])
        invariant forall j :: head + k <= j < head + len ==> slots[j] == old(slots[j])
      {
        slots[k] := slots[head + k];
        k := k + 1;
      }
      head := 0;
    }

    method Grow()
      requires Valid() && head == 0 && len == slots.Length
      modifies this`slots
      ensures Valid() && len < slots.Length && Contents() == old(Contents()) && fresh(slots)
    {
      var bigger := new nat[if len == 0 then 16 else 2 * len];
      forall i | 0 <= i < len { bigger[i] := slots[i]; }
      slots := bigger;
    }

    method Pop() returns (f: nat)
      requires Valid() && len > 0
      modifies this`head, this`len
      ensures Valid() && slots == old(slots) && [f] + Contents() == old(Contents())
    {
      f := slots[head];
      head, len := head + 1, len - 1;
    }
  }

  datatype Op = PushOp(f: nat) | PopOp

  function Pushed(ops: seq<Op>): seq<nat> {
    if ops == [] then [] else Pushed(ops[..|ops| - 1]) + match ops[|ops| - 1] case PushOp(f) => [f] case PopOp => []
  }

  /** How many fibers are left after these calls. */
  function Level(n: nat, ops: seq<Op>): nat {
    if ops == [] then n
    else
      var k := Level(n, ops[..|ops| - 1]);
      match ops[|ops| - 1] case PushOp(_) => k + 1 case PopOp => if k == 0 then 0 else k - 1
  }

  /** Whatever the interleaving, compaction and growth never show: fibers come out in the order they went in, and what
      has not come out is still there. */
  method Serve(queue: Queue, ops: seq<Op>) returns (out: seq<nat>)
    requires queue.Valid()
    modifies queue, queue.slots
    ensures queue.Valid() && out + queue.Contents() == old(queue.Contents()) + Pushed(ops)
    ensures queue.len == Level(old(queue.len), ops)
  {
    out := [];
    var i := 0;
    while i < |ops|
      invariant i <= |ops| && queue.Valid() && (queue.slots == old(queue.slots) || fresh(queue.slots))
      invariant out + queue.Contents() == old(queue.Contents()) + Pushed(ops[..i])
      invariant queue.len == Level(old(queue.len), ops[..i])
    {
      ghost var q := queue.Contents();
      assert ops[..i + 1][..i] == ops[..i];
      match ops[i] {
        case PushOp(f) =>
          queue.Push(f);
          assert out + (q + [f]) == (out + q) + [f];
        case PopOp =>
          if queue.len > 0 {
            var f := queue.Pop();
            assert out + ([f] + queue.Contents()) == (out + [f]) + queue.Contents();
            out := out + [f];
          }
      }
      i := i + 1;
    }
    assert ops[..i] == ops;
  }
}
