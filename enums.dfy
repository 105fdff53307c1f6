/** The fish-species enumerations (fish-species.enum.ts) and the strings that stand for them. */
module Enums {

  datatype CareLevel = Easy | Medium | Expert
  datatype Temperament = Peaceful | SemiAggressive | Aggressive
  datatype DietType = Herbivore | Carnivore | Omnivore
  datatype FlowPreference = Slow | Moderate | Fast

  function CareLevelName(c: CareLevel): string {
    match c
    case Easy => "Easy"
    case Medium => "Medium"
    case Expert => "Expert"
  }

  function TemperamentName(t: Temperament): string {
    match t
    case Peaceful => "Peaceful"
    case SemiAggressive => "Semi-Aggressive"
    case Aggressive => "Aggressive"
  }

  function DietTypeName(d: DietType): string {
    match d
    case Herbivore => "Herbivore"
    case Carnivore => "Carnivore"
    case Omnivore => "Omnivore"
  }

  function FlowPreferenceName(f: FlowPreference): string {
    match f
    case Slow => "Slow"
    case Moderate => "Moderate"
    case Fast => "Fast"
  }

  /** The values of each enumeration, as the validator's enum check sees them. */
  const CareLevelNames: seq<string> := ["Easy", "Medium", "Expert"]
  const TemperamentNames: seq<string> := ["Peaceful", "Semi-Aggressive", "Aggressive"]
  const DietTypeNames: seq<string> := ["Herbivore", "Carnivore", "Omnivore"]
  const FlowPreferenceNames: seq<string> := ["Slow", "Moderate", "Fast"]

  /** Each enumeration's names are exactly the names of its members, and distinct members
      have distinct names, so a name identifies its member. */
  lemma NamesIdentifyMembers(c1: CareLevel, c2: CareLevel, t1: Temperament, t2: Temperament,
                             d1: DietType, d2: DietType, f1: FlowPreference, f2: FlowPreference)
    ensures CareLevelName(c1) in CareLevelNames && TemperamentName(t1) in TemperamentNames
    ensures DietTypeName(d1) in DietTypeNames && FlowPreferenceName(f1) in FlowPreferenceNames
    ensures CareLevelName(c1) == CareLevelName(c2) ==> c1 == c2
    ensures TemperamentName(t1) == TemperamentName(t2) ==> t1 == t2
    ensures DietTypeName(d1) == DietTypeName(d2) ==> d1 == d2
    ensures FlowPreferenceName(f1) == FlowPreferenceName(f2) ==> f1 == f2
  {
  }
}
