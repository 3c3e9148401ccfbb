/** The fixed-capacity LIFO stack of free UMEM frames. */
module FrameAlloc {
  import opened MachineWords
  import opened Protocol

  class FrameAllocator {
    const frames: array<nat>
    var count: nat

    ghost predicate Valid()
      reads this
    {
      count <= frames.Length
    }

    /** Bottom to top. */
    ghost function Contents(): seq<nat>
      reads this, frames
      requires Valid()
    {
      frames[..count]
    }

    constructor (numFrames: U32, frameSize: U32, capacity: nat)
      requires numFrames <= capacity
      ensures Valid() && fresh(frames) && frames.Length == capacity
      ensures Contents() == seq(numFrames, i requires 0 <= i => i * frameSize)
    {
      frames := new nat[capacity](_ => 0);
      count := numFrames;
      new;
      for i := 0 to numFrames
        invariant count == numFrames
        invariant forall j :: 0 <= j < i ==> frames[j] == j * frameSize
      {
        frames[i] := i * frameSize;
      }
    }

    method Alloc() returns (frame: Option<nat>)
      requires Valid()
      modifies this`count
      ensures Valid()
      ensures old(Contents()) == [] ==> frame == None && Contents() == []
      ensures old(Contents()) != [] ==> frame.Some? && Contents() + [frame.value] == old(Contents())
    {
      if count == 0 {
        return None;
      }
      count := count - 1;
      return Some(frames[count]);
    }

    /** The stack must have room; FreeStackHasRoom shows that it always does. */
    method Free(offset: nat)
      requires Valid() && |Contents()| < frames.Length
      modifies this`count, frames
      ensures Valid() && Contents() == old(Contents()) + [offset]
    {
      assert count < frames.Length;
      frames[count] := offset;
      count := count + 1;
    }
  }
}
