/** The Tank entity (tank.entity.ts): a name, three dimensions and an optional owner.
    Every mutator assigns its fields and then touches the update time exactly once. */
module TankEntity {
  import opened Wrappers
  import opened BaseEntities

  class Tank {
    const base: BaseEntity
    var name: string
    var width: real
    var height: real
    var length: real
    /** The owning user's id; `None` when the tank is unowned. */
    var userId: Option<int>

    /** Stores every argument as given; no dimension is checked for positivity. */
    constructor (id: int, name: string, width: real, height: real, length: real,
                 userId: Option<int>, createdAt: Option<Time>, updatedAt: Option<Time>, now: Time)
      ensures fresh(base)
      ensures base.id == id && base.createdAt == createdAt.GetOr(now)
      ensures base.updatedAt == updatedAt.GetOr(now) && base.touches == 0
      ensures this.name == name && this.width == width && this.height == height
      ensures this.length == length && this.userId == userId
    {
      base := new BaseEntity(id, createdAt, updatedAt, now);
      this.name := name;
      this.width := width;
      this.height := height;
      this.length := length;
      this.userId := userId;
    }

    /** Replaces all three dimensions together, with a single touch. */
    method UpdateDimensions(width: real, height: real, length: real, now: Time)
      modifies this, base
      ensures this.width == width && this.height == height && this.length == length
      ensures name == old(name) && userId == old(userId)
      ensures base.updatedAt == now && base.touches == old(base.touches) + 1
    {
      this.width := width;
      this.height := height;
      this.length := length;
      base.Touch(now);
    }

    method UpdateName(name: string, now: Time)
      modifies this, base
      ensures this.name == name
      ensures width == old(width) && height == old(height) && length == old(length)
      ensures userId == old(userId)
      ensures base.updatedAt == now && base.touches == old(base.touches) + 1
    {
      this.name := name;
      base.Touch(now);
    }

    method AssignToUser(userId: int, now: Time)
      modifies this, base
      ensures this.userId == Some(userId)
      ensures name == old(name) && width == old(width) && height == old(height)
      ensures length == old(length)
      ensures base.updatedAt == now && base.touches == old(base.touches) + 1
    {
      this.userId := Some(userId);
      base.Touch(now);
    }

    /** Clears the owner whatever it was, so a second call leaves it cleared too. */
    method RemoveFromUser(now: Time)
      modifies this, base
      ensures userId == None
      ensures name == old(name) && width == old(width) && height == old(height)
      ensures length == old(length)
      ensures base.updatedAt == now && base.touches == old(base.touches) + 1
    {
      userId := None;
      base.Touch(now);
    }
  }
}
