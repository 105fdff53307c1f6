/** The identity and timestamps every entity shares (base.entity.ts).
    Each entity holds one `BaseEntity` object; its id and creation time are `const`, so no
    operation can alter them after construction. The clock is the explicit parameter `now`. */
module BaseEntities {
  import opened Wrappers

  /** A point in time, in milliseconds since the epoch. */
  type Time = int

  class BaseEntity {
    const id: int
    const createdAt: Time
    var updatedAt: Time
    /** How many times `Touch` has run: one per mutation call. */
    ghost var touches: nat

    /** A supplied timestamp is kept; an absent one becomes the current time. */
    constructor (id: int, createdAt: Option<Time>, updatedAt: Option<Time>, now: Time)
      ensures this.id == id
      ensures createdAt.Some? ==> this.createdAt == createdAt.value
      ensures createdAt.None? ==> this.createdAt == now
      ensures updatedAt.Some? ==> this.updatedAt == updatedAt.value
      ensures updatedAt.None? ==> this.updatedAt == now
      ensures touches == 0
    {
      this.id := id;
      this.createdAt := createdAt.GetOr(now);
      this.updatedAt := updatedAt.GetOr(now);
      touches := 0;
    }

    /** Refreshes the update time and nothing else. */
    method Touch(now: Time)
      modifies this
      ensures updatedAt == now
      ensures touches == old(touches) + 1
    {
      updatedAt := now;
      touches := touches + 1;
    }
  }
}
