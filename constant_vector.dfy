/** The growable pool of constants (`struct constant_vector`): an array of
    `double` payloads, here `real`, with a count of used slots, grown by
    a fixed block of slots when full. Adding never changes an earlier
    entry and never looks for an equal one. */
module ConstantVectors {

  /** Slots added at creation and by each growth (`CONSTANT_VECTOR_BUFFER_COUNT`). */
  const Block: nat := 8

  class ConstantVector {
    var slots: array<real>
    var count: nat

    /** The used slots fit in the array, whose length is a whole number
        of blocks. */
    ghost predicate Valid()
      reads this
    {
      count <= slots.Length && Block <= slots.Length && slots.Length % Block == 0
    }

    /** The constants added so far; entry `k` was added by the call that
        answered `k`. */
    ghost function Items(): seq<real>
      reads this, slots
      requires Valid()
    {
      slots[..count]
    }

    /** `constant_vector_init`: empty, with room for one block. */
    constructor ()
      ensures Valid() && fresh(slots)
      ensures count == 0 && slots.Length == Block
      ensures Items() == []
    {
      slots := new real[Block];
      count := 0;
    }

    /** `constant_vector_add`: stores `d` at index `count`, answers that index
        and counts it, growing first when every slot is used. */
    method Add(d: real) returns (index: nat)
      requires Valid()
      modifies this, slots
      ensures Valid()
      ensures index == old(count) && count == old(count) + 1
      ensures Items() == old(Items()) + [d]
      ensures slots.Length == if old(count) == old(slots.Length)
                              then old(slots.Length) + Block
                              else old(slots.Length)
      ensures slots == old(slots) || fresh(slots)
    {
      if count == slots.Length {
        Grow();
      }
      slots[count] := d;
      index := count;
      count := count + 1;
    }

    /** `constant_vector_grow`: one more block; the old slots move over
        unchanged, as `realloc` keeps them. */
    method Grow()
      requires Valid()
      modifies this
      ensures Valid() && fresh(slots)
      ensures count == old(count)
      ensures slots.Length == old(slots.Length) + Block
      ensures slots[..old(slots.Length)] == old(slots[..])
    {
      var bigger := new real[slots.Length + Block];
      forall i | 0 <= i < slots.Length {
        bigger[i] := slots[i];
      }
      slots := bigger;
    }
  }
}
