/** The Fish entity (fish.entity.ts): a name and a free-text species. */
module FishEntity {
  import opened Wrappers
  import opened BaseEntities

  class Fish {
    const base: BaseEntity
    var name: string
    var species: string

    constructor (id: int, name: string, species: string,
                 createdAt: Option<Time>, updatedAt: Option<Time>, now: Time)
      ensures fresh(base)
      ensures base.id == id && base.createdAt == createdAt.GetOr(now)
      ensures base.updatedAt == updatedAt.GetOr(now) && base.touches == 0
      ensures this.name == name && this.species == species
    {
      base := new BaseEntity(id, createdAt, updatedAt, now);
      this.name := name;
      this.species := species;
    }

    /** Sets the name whatever it was, so repeating the call leaves the same name. */
    method UpdateName(name: string, now: Time)
      modifies this, base
      ensures this.name == name && species == old(species)
      ensures base.updatedAt == now && base.touches == old(base.touches) + 1
    {
      this.name := name;
      base.Touch(now);
    }

    /** Sets the species whatever it was, so repeating the call leaves the same species. */
    method UpdateSpecies(species: string, now: Time)
      modifies this, base
      ensures this.species == species && name == old(name)
      ensures base.updatedAt == now && base.touches == old(base.touches) + 1
    {
      this.species := species;
      base.Touch(now);
    }
  }
}
