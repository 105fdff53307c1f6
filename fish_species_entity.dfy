/** The FishSpecies entity (fish-species.entity.ts): reference data about one species.
    Partial updates write only the arguments that are present ("absent means leave
    unchanged") and always touch; the alias list is kept free of duplicates by
    `AddAlias`/`RemoveAlias`. No operation checks that a minimum is at most its maximum. */
module FishSpeciesEntity {
  import opened Wrappers
  import opened Enums
  import opened BaseEntities

  /** The species' fields in the source's four groups, plus the free-text description. */
  datatype Identity = Identity(
    nameEn: string, nameVn: string, scientificName: Option<string>,
    aliases: seq<string>, imageUrl: Option<string>)

  datatype WaterParameters = WaterParameters(
    tempMin: real, tempMax: real, phMin: real, phMax: real,
    ghMin: Option<real>, ghMax: Option<real>)

  datatype TankRequirements = TankRequirements(
    minTankSize: real, sizeMax: real, bioloadLevel: real, flowPreference: FlowPreference)

  datatype Behavior = Behavior(
    careLevel: CareLevel, temperament: Temperament, dietType: DietType,
    isSchooling: bool, minSchoolSize: real, plantSafe: bool, substrateDigger: bool, jumper: bool)

  // ----- the alias list -----

  predicate NoDuplicates(s: seq<string>) {
    forall i, j :: 0 <= i < j < |s| ==> s[i] != s[j]
  }

  /** The index of the first occurrence of `a` in `s`, or -1 (JavaScript's `indexOf`). */
  function FirstIndex(s: seq<string>, a: string): (i: int)
    ensures -1 <= i < |s|
    ensures i == -1 <==> a !in s
    ensures i >= 0 ==> s[i] == a && a !in s[..i]
  {
    if s == [] then -1
    else if s[0] == a then 0
    else
      var j := FirstIndex(s[1..], a);
      assert s[1..][..j + 1] == s[1..j + 2];
      if j == -1 then -1 else j + 1
  }

  /** `s` without its first occurrence of `a` (`splice(indexOf(a), 1)`), or `s` itself. */
  function RemoveFirst(s: seq<string>, a: string): (r: seq<string>)
    ensures |r| == |s| || |r| == |s| - 1
    ensures forall x :: x in r ==> x in s
  {
    var i := FirstIndex(s, a);
    if i == -1 then s else s[..i] + s[i + 1..]
  }

  /** Removing an alias that is there drops exactly one copy of it and keeps every other
      alias, in order. */
  lemma RemoveFirstDropsOneCopy(s: seq<string>, a: string)
    requires a in s
    ensures |RemoveFirst(s, a)| == |s| - 1
    ensures multiset(RemoveFirst(s, a)) == multiset(s) - multiset{a}
  {
    var i := FirstIndex(s, a);
    assert s == s[..i] + [a] + s[i + 1..];
  }

  /** On a duplicate-free list, removing an alias leaves it absent and the list
      duplicate-free. */
  lemma RemoveFirstKeepsNoDuplicates(s: seq<string>, a: string)
    requires NoDuplicates(s)
    ensures a !in RemoveFirst(s, a) && NoDuplicates(RemoveFirst(s, a))
  {
    var i := FirstIndex(s, a);
    if i >= 0 {
      var r := RemoveFirst(s, a);
      forall k | 0 <= k < |r| ensures r[k] != a {
        if k < i { assert r[k] == s[k]; } else { assert r[k] == s[k + 1]; }
      }
      forall p, q | 0 <= p < q < |r| ensures r[p] != r[q] {
        var p' := if p < i then p else p + 1;
        var q' := if q < i then q else q + 1;
        assert r[p] == s[p'] && r[q] == s[q'];
      }
    }
  }

  /** Appending an alias that is absent keeps a duplicate-free list duplicate-free. */
  lemma AppendFreshAlias(s: seq<string>, a: string)
    requires NoDuplicates(s) && a !in s
    ensures NoDuplicates(s + [a])
  {
    var r := s + [a];
    forall p, q | 0 <= p < q < |r| ensures r[p] != r[q] {
      if q == |s| { assert r[p] == s[p]; }
    }
  }

  class FishSpecies {
    const base: BaseEntity
    var identity: Identity
    var water: WaterParameters
    var requirements: TankRequirements
    var behavior: Behavior
    var description: string

    /** Required arguments are stored as given. An omitted optional argument takes its
        default (aliases [], bioload 5, flow Moderate, not schooling, school size 1,
        plant-safe, no digger, no jumper); a supplied one is kept even when it is 0 or false.
        Inverted ranges (minimum above maximum) are stored as they are. */
    constructor (id: int, nameEn: string, nameVn: string,
                 tempMin: real, tempMax: real, phMin: real, phMax: real,
                 minTankSize: real, sizeMax: real,
                 careLevel: CareLevel, temperament: Temperament, dietType: DietType,
                 description: string,
                 scientificName: Option<string>, aliases: Option<seq<string>>,
                 imageUrl: Option<string>, ghMin: Option<real>, ghMax: Option<real>,
                 bioloadLevel: Option<real>, flowPreference: Option<FlowPreference>,
                 isSchooling: Option<bool>, minSchoolSize: Option<real>,
                 plantSafe: Option<bool>, substrateDigger: Option<bool>, jumper: Option<bool>,
                 createdAt: Option<Time>, updatedAt: Option<Time>, now: Time)
      ensures fresh(base)
      ensures base.id == id && base.createdAt == createdAt.GetOr(now)
      ensures base.updatedAt == updatedAt.GetOr(now) && base.touches == 0
      ensures identity == Identity(nameEn, nameVn, scientificName, aliases.GetOr([]), imageUrl)
      ensures water == WaterParameters(tempMin, tempMax, phMin, phMax, ghMin, ghMax)
      ensures requirements == TankRequirements(minTankSize, sizeMax, bioloadLevel.GetOr(5.0),
                                               flowPreference.GetOr(Moderate))
      ensures behavior == Behavior(careLevel, temperament, dietType, isSchooling.GetOr(false),
                                   minSchoolSize.GetOr(1.0), plantSafe.GetOr(true),
                                   substrateDigger.GetOr(false), jumper.GetOr(false))
      ensures this.description == description
    {
      base := new BaseEntity(id, createdAt, updatedAt, now);
      identity := Identity(nameEn, nameVn, scientificName, aliases.GetOr([]), imageUrl);
      water := WaterParameters(tempMin, tempMax, phMin, phMax, ghMin, ghMax);
      requirements := TankRequirements(minTankSize, sizeMax, bioloadLevel.GetOr(5.0),
                                       flowPreference.GetOr(Moderate));
      behavior := Behavior(careLevel, temperament, dietType, isSchooling.GetOr(false),
                           minSchoolSize.GetOr(1.0), plantSafe.GetOr(true),
                           substrateDigger.GetOr(false), jumper.GetOr(false));
      this.description := description;
    }

    /** Writes the present identity arguments, leaves every other field alone, and touches
        even when every argument is absent. A present value cannot clear an optional field. */
    method UpdateIdentity(nameEn: Option<string>, nameVn: Option<string>,
                          scientificName: Option<string>, imageUrl: Option<string>, now: Time)
      modifies this, base
      ensures identity == Identity(nameEn.GetOr(old(identity.nameEn)),
                                   nameVn.GetOr(old(identity.nameVn)),
                                   scientificName.OrElse(old(identity.scientificName)),
                                   old(identity.aliases),
                                   imageUrl.OrElse(old(identity.imageUrl)))
      ensures water == old(water) && requirements == old(requirements)
      ensures behavior == old(behavior) && description == old(description)
      ensures base.updatedAt == now && base.touches == old(base.touches) + 1
    {
      identity := Identity(nameEn.GetOr(identity.nameEn),
                           nameVn.GetOr(identity.nameVn),
                           scientificName.OrElse(identity.scientificName),
                           identity.aliases,
                           imageUrl.OrElse(identity.imageUrl));
      base.Touch(now);
    }

    /** Appends the alias and touches only when it is absent; when it is already there
        nothing changes, not even the update time. Either way the alias is then present,
        and a duplicate-free list stays duplicate-free. */
    method AddAlias(alias: string, now: Time)
      modifies this, base
      ensures alias in identity.aliases
      ensures old(alias in identity.aliases) ==> identity == old(identity)
      ensures old(alias in identity.aliases) ==> base.updatedAt == old(base.updatedAt)
      ensures old(alias in identity.aliases) ==> base.touches == old(base.touches)
      ensures old(alias !in identity.aliases) ==>
                identity == old(identity).(aliases := old(identity.aliases) + [alias])
      ensures old(alias !in identity.aliases) ==>
                base.updatedAt == now && base.touches == old(base.touches) + 1
      ensures old(NoDuplicates(identity.aliases)) ==> NoDuplicates(identity.aliases)
      ensures water == old(water) && requirements == old(requirements)
      ensures behavior == old(behavior) && description == old(description)
    {
      if alias !in identity.aliases {
        AppendFreshAliasIfDistinct(identity.aliases, alias);
        identity := identity.(aliases := identity.aliases + [alias]);
        base.Touch(now);
      }
    }

    /** Deletes the first occurrence of the alias, keeping the others in order, and touches;
        when the alias is absent nothing changes, not even the update time. */
    method RemoveAlias(alias: string, now: Time)
      modifies this, base
      ensures identity == old(identity).(aliases := RemoveFirst(old(identity.aliases), alias))
      ensures old(alias in identity.aliases) ==>
                base.updatedAt == now && base.touches == old(base.touches) + 1
      ensures old(alias !in identity.aliases) ==> identity == old(identity)
      ensures old(alias !in identity.aliases) ==> base.updatedAt == old(base.updatedAt)
      ensures old(alias !in identity.aliases) ==> base.touches == old(base.touches)
      ensures old(NoDuplicates(identity.aliases)) ==>
                alias !in identity.aliases && NoDuplicates(identity.aliases)
      ensures water == old(water) && requirements == old(requirements)
      ensures behavior == old(behavior) && description == old(description)
    {
      if NoDuplicates(identity.aliases) {
        RemoveFirstKeepsNoDuplicates(identity.aliases, alias);
      }
      var index := FirstIndex(identity.aliases, alias);
      if index > -1 {
        identity := identity.(aliases := identity.aliases[..index] + identity.aliases[index + 1..]);
        base.Touch(now);
      }
    }

    /** Writes the present water parameters only; inverted ranges are accepted as they are. */
    method UpdateWaterParameters(tempMin: Option<real>, tempMax: Option<real>,
                                 phMin: Option<real>, phMax: Option<real>,
                                 ghMin: Option<real>, ghMax: Option<real>, now: Time)
      modifies this, base
      ensures water == WaterParameters(tempMin.GetOr(old(water.tempMin)),
                                       tempMax.GetOr(old(water.tempMax)),
                                       phMin.GetOr(old(water.phMin)),
                                       phMax.GetOr(old(water.phMax)),
                                       ghMin.OrElse(old(water.ghMin)),
                                       ghMax.OrElse(old(water.ghMax)))
      ensures identity == old(identity) && requirements == old(requirements)
      ensures behavior == old(behavior) && description == old(description)
      ensures base.updatedAt == now && base.touches == old(base.touches) + 1
    {
      water := WaterParameters(tempMin.GetOr(water.tempMin), tempMax.GetOr(water.tempMax),
                               phMin.GetOr(water.phMin), phMax.GetOr(water.phMax),
                               ghMin.OrElse(water.ghMin), ghMax.OrElse(water.ghMax));
      base.Touch(now);
    }

    method UpdateTankRequirements(minTankSize: Option<real>, sizeMax: Option<real>,
                                  bioloadLevel: Option<real>,
                                  flowPreference: Option<FlowPreference>, now: Time)
      modifies this, base
      ensures requirements == TankRequirements(minTankSize.GetOr(old(requirements.minTankSize)),
                                               sizeMax.GetOr(old(requirements.sizeMax)),
                                               bioloadLevel.GetOr(old(requirements.bioloadLevel)),
                                               flowPreference.GetOr(old(requirements.flowPreference)))
      ensures identity == old(identity) && water == old(water)
      ensures behavior == old(behavior) && description == old(description)
      ensures base.updatedAt == now && base.touches == old(base.touches) + 1
    {
      requirements := TankRequirements(minTankSize.GetOr(requirements.minTankSize),
                                       sizeMax.GetOr(requirements.sizeMax),
                                       bioloadLevel.GetOr(requirements.bioloadLevel),
                                       flowPreference.GetOr(requirements.flowPreference));
      base.Touch(now);
    }

    method UpdateBehavior(careLevel: Option<CareLevel>, temperament: Option<Temperament>,
                          dietType: Option<DietType>, isSchooling: Option<bool>,
                          minSchoolSize: Option<real>, plantSafe: Option<bool>,
                          substrateDigger: Option<bool>, jumper: Option<bool>, now: Time)
      modifies this, base
      ensures behavior == Behavior(careLevel.GetOr(old(behavior.careLevel)),
                                   temperament.GetOr(old(behavior.temperament)),
                                   dietType.GetOr(old(behavior.dietType)),
                                   isSchooling.GetOr(old(behavior.isSchooling)),
                                   minSchoolSize.GetOr(old(behavior.minSchoolSize)),
                                   plantSafe.GetOr(old(behavior.plantSafe)),
                                   substrateDigger.GetOr(old(behavior.substrateDigger)),
                                   jumper.GetOr(old(behavior.jumper)))
      ensures identity == old(identity) && water == old(water)
      ensures requirements == old(requirements) && description == old(description)
      ensures base.updatedAt == now && base.touches == old(base.touches) + 1
    {
      behavior := Behavior(careLevel.GetOr(behavior.careLevel),
                           temperament.GetOr(behavior.temperament),
                           dietType.GetOr(behavior.dietType),
                           isSchooling.GetOr(behavior.isSchooling),
                           minSchoolSize.GetOr(behavior.minSchoolSize),
                           plantSafe.GetOr(behavior.plantSafe),
                           substrateDigger.GetOr(behavior.substrateDigger),
                           jumper.GetOr(behavior.jumper));
      base.Touch(now);
    }

    method UpdateDescription(description: string, now: Time)
      modifies this, base
      ensures this.description == description
      ensures identity == old(identity) && water == old(water)
      ensures requirements == old(requirements) && behavior == old(behavior)
      ensures base.updatedAt == now && base.touches == old(base.touches) + 1
    {
      this.description := description;
      base.Touch(now);
    }
  }

  /** `AppendFreshAlias` under the weaker premise the method has. */
  lemma AppendFreshAliasIfDistinct(s: seq<string>, a: string)
    requires a !in s
    ensures NoDuplicates(s) ==> NoDuplicates(s + [a])
  {
    if NoDuplicates(s) { AppendFreshAlias(s, a); }
  }
}
