/** The growable token buffer the scanner appends to: an array with a
    count of used slots, grown by a fixed block of slots when full. */
module TokenVector {
  import opened Tokens

  /** Slots added at creation and by each growth (`TOKEN_VECTOR_BUFFER_COUNT`). */
  const Block: nat := 8

  class TokenVector {
    var slots: array<Token>
    var count: nat

    /** The used slots fit in the array, whose length is a whole number
        of blocks. */
    ghost predicate Valid()
      reads this
    {
      count <= slots.Length && Block <= slots.Length && slots.Length % Block == 0
    }

    /** The tokens appended so far, in order. */
    ghost function Items(): seq<Token>
      reads this, slots
      requires Valid()
    {
      slots[..count]
    }

    /** `token_vector_init`: empty, with room for one block. */
    constructor ()
      ensures Valid() && fresh(slots)
      ensures count == 0 && slots.Length == Block
      ensures Items() == []
    {
      slots := new Token[Block];
      count := 0;
    }

    /** `token_vector_add`: stores `t` at index `count` and counts it,
        growing first when every slot is used. */
    method Add(t: Token)
      requires Valid()
      modifies this, slots
      ensures Valid()
      ensures count == old(count) + 1
      ensures Items() == old(Items()) + [t]
      ensures slots.Length == if old(count) == old(slots.Length)
                              then old(slots.Length) + Block
                              else old(slots.Length)
      ensures slots == old(slots) || fresh(slots)
    {
      if count == slots.Length {
        Grow();
      }
      slots[count] := t;
      count := count + 1;
    }

    /** `token_vector_grow`: one more block; the old slots move over
        unchanged, as `realloc` keeps them. */
    method Grow()
      requires Valid()
      modifies this
      ensures Valid() && fresh(slots)
      ensures count == old(count)
      ensures slots.Length == old(slots.Length) + Block
      ensures slots[..old(slots.Length)] == old(slots[..])
    {
      var bigger := new Token[slots.Length + Block];
      forall i | 0 <= i < slots.Length {
        bigger[i] := slots[i];
      }
      slots := bigger;
    }
  }
}
