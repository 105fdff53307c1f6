/** The User entity (user.entity.ts): the identity provider's subject id and an optional
    display name. `authId` is `const`: it has no setter, so nothing reassigns it. */
module UserEntity {
  import opened Wrappers
  import opened BaseEntities

  class User {
    const base: BaseEntity
    const authId: string
    var fullname: Option<string>

    constructor (id: int, authId: string, fullname: Option<string>,
                 createdAt: Option<Time>, updatedAt: Option<Time>, now: Time)
      ensures fresh(base)
      ensures base.id == id && base.createdAt == createdAt.GetOr(now)
      ensures base.updatedAt == updatedAt.GetOr(now) && base.touches == 0
      ensures this.authId == authId && this.fullname == fullname
    {
      base := new BaseEntity(id, createdAt, updatedAt, now);
      this.authId := authId;
      this.fullname := fullname;
    }

    /** Sets the display name to the argument even when it is absent, which clears it. */
    method UpdateProfile(fullname: Option<string>, now: Time)
      modifies this, base
      ensures this.fullname == fullname
      ensures base.updatedAt == now && base.touches == old(base.touches) + 1
    {
      this.fullname := fullname;
      base.Touch(now);
    }
  }
}
