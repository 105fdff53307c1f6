/** The fish-species DTOs (fish-species.dto.ts): the decorators on `CreateFishSpeciesDto`
    and `UpdateFishSpeciesDto`, and the `FishSpeciesDto` projection of the entity. The two
    input forms declare the same properties in the same order; the create form requires
    the names, the water and tank ranges, the three enumerations and the description, the
    update form makes everything optional. */
module FishSpeciesDtos {
  import opened Wrappers
  import opened Validation
  import opened Enums
  import opened BaseEntities
  import opened FishSpeciesEntity

  /** A fish-species request body, one value per declared property. */
  datatype SpeciesBody = SpeciesBody(
    nameEn: Value, nameVn: Value, scientificName: Value, aliases: Value, imageUrl: Value,
    tempMin: Value, tempMax: Value, phMin: Value, phMax: Value, ghMin: Value, ghMax: Value,
    minTankSize: Value, sizeMax: Value, bioloadLevel: Value, flowPreference: Value,
    careLevel: Value, temperament: Value, dietType: Value, isSchooling: Value,
    minSchoolSize: Value, plantSafe: Value, substrateDigger: Value, jumper: Value,
    description: Value)

  const EmptyBody := SpeciesBody(Undefined, Undefined, Undefined, Undefined, Undefined,
    Undefined, Undefined, Undefined, Undefined, Undefined, Undefined, Undefined, Undefined,
    Undefined, Undefined, Undefined, Undefined, Undefined, Undefined, Undefined, Undefined,
    Undefined, Undefined, Undefined)

  // ----- the decorators; `create` selects the create form -----

  /** nameEn/nameVn: a string of 1 to 100 counted characters (`JsLength`), also marked not-empty when required. */
  function NameField(property: string, create: bool): Field {
    Field(property, !create,
      if create then [Plain(IsString), Plain(IsNotEmpty), Plain(MinLength(1)), Plain(MaxLength(100))]
      else [Plain(IsString), Plain(MinLength(1)), Plain(MaxLength(100))])
  }

  function Text(property: string, max: nat): Field {
    Field(property, true, [Plain(IsString), Plain(MaxLength(max))])
  }

  const Aliases := Field("aliases", true, [Plain(IsArray), Plain(EachIsString)])

  /** A number with both bounds. */
  function Range(property: string, lower: real, upper: real, optional: bool): Field {
    Field(property, optional, [Plain(IsNumber), Plain(Min(lower)), Plain(Max(upper))])
  }

  /** A number with only a lower bound. */
  function AtLeastField(property: string, lower: real, optional: bool): Field {
    Field(property, optional, [Plain(IsNumber), Plain(Min(lower))])
  }

  /** An enumeration, also marked not-empty when required. */
  function EnumField(property: string, members: seq<string>, create: bool): Field {
    Field(property, !create,
      if create then [Plain(IsEnum(members)), Plain(IsNotEmpty)] else [Plain(IsEnum(members))])
  }

  function Flag(property: string): Field {
    Field(property, true, [Plain(IsBoolean)])
  }

  function DescriptionField(create: bool): Field {
    Field("description", !create,
      if create then [Plain(IsString), Plain(IsNotEmpty), Plain(MinLength(10))]
      else [Plain(IsString), Plain(MinLength(10))])
  }

  function IdentityViolations(b: SpeciesBody, create: bool): seq<Violation> {
    FieldViolations(NameField("nameEn", create), b.nameEn)
    + FieldViolations(NameField("nameVn", create), b.nameVn)
    + FieldViolations(Text("scientificName", 150), b.scientificName)
    + FieldViolations(Aliases, b.aliases)
    + FieldViolations(Text("imageUrl", 500), b.imageUrl)
  }

  function WaterViolations(b: SpeciesBody, create: bool): seq<Violation> {
    FieldViolations(Range("tempMin", 0.0, 50.0, !create), b.tempMin)
    + FieldViolations(Range("tempMax", 0.0, 50.0, !create), b.tempMax)
    + FieldViolations(Range("phMin", 0.0, 14.0, !create), b.phMin)
    + FieldViolations(Range("phMax", 0.0, 14.0, !create), b.phMax)
    + FieldViolations(Range("ghMin", 0.0, 30.0, true), b.ghMin)
    + FieldViolations(Range("ghMax", 0.0, 30.0, true), b.ghMax)
  }

  function RequirementViolations(b: SpeciesBody, create: bool): seq<Violation> {
    FieldViolations(AtLeastField("minTankSize", 1.0, !create), b.minTankSize)
    + FieldViolations(AtLeastField("sizeMax", 0.0, !create), b.sizeMax)
    + FieldViolations(Range("bioloadLevel", 1.0, 10.0, true), b.bioloadLevel)
    + FieldViolations(EnumField("flowPreference", FlowPreferenceNames, false), b.flowPreference)
  }

  function BehaviorViolations(b: SpeciesBody, create: bool): seq<Violation> {
    FieldViolations(EnumField("careLevel", CareLevelNames, create), b.careLevel)
    + FieldViolations(EnumField("temperament", TemperamentNames, create), b.temperament)
    + FieldViolations(EnumField("dietType", DietTypeNames, create), b.dietType)
    + FieldViolations(Flag("isSchooling"), b.isSchooling)
    + FieldViolations(AtLeastField("minSchoolSize", 1.0, true), b.minSchoolSize)
    + FieldViolations(Flag("plantSafe"), b.plantSafe)
    + FieldViolations(Flag("substrateDigger"), b.substrateDigger)
    + FieldViolations(Flag("jumper"), b.jumper)
  }

  /** The violations of the create form (`create`) or of the update form, property by
      property in declared order. */
  function SpeciesViolations(b: SpeciesBody, create: bool): seq<Violation> {
    IdentityViolations(b, create) + WaterViolations(b, create)
    + RequirementViolations(b, create) + BehaviorViolations(b, create)
    + FieldViolations(DescriptionField(create), b.description)
  }

  // ----- the same constraints stated directly -----

  /** A supplied value passes; an absent one passes only when the property is optional. */
  predicate Given(v: Value, optional: bool) {
    !(optional && Absent(v))
  }

  predicate NameOk(v: Value, create: bool) {
    !Given(v, !create) || (v.Str? && 1 <= JsLength(v.s) <= 100)
  }

  predicate TextOk(v: Value, max: nat) {
    Absent(v) || (v.Str? && JsLength(v.s) <= max)
  }

  predicate AliasesOk(v: Value) {
    Absent(v) || (v.Arr? && forall i :: 0 <= i < |v.items| ==> v.items[i].Str?)
  }

  predicate RangeOk(v: Value, lower: real, upper: real, optional: bool) {
    !Given(v, optional) || (v.Num? && lower <= v.n <= upper)
  }

  predicate AtLeastOk(v: Value, lower: real, optional: bool) {
    !Given(v, optional) || (v.Num? && v.n >= lower)
  }

  predicate EnumOk(v: Value, members: seq<string>, optional: bool) {
    !Given(v, optional) || (v.Str? && v.s in members)
  }

  predicate FlagOk(v: Value) {
    Absent(v) || v.Bool?
  }

  predicate DescriptionOk(v: Value, create: bool) {
    !Given(v, !create) || (v.Str? && JsLength(v.s) >= 10)
  }

  predicate IdentityOk(b: SpeciesBody, create: bool) {
    && NameOk(b.nameEn, create) && NameOk(b.nameVn, create)
    && TextOk(b.scientificName, 150) && AliasesOk(b.aliases) && TextOk(b.imageUrl, 500)
  }

  /** Each bound on its own: nothing relates a minimum to its maximum. */
  predicate WaterOk(b: SpeciesBody, create: bool) {
    && RangeOk(b.tempMin, 0.0, 50.0, !create) && RangeOk(b.tempMax, 0.0, 50.0, !create)
    && RangeOk(b.phMin, 0.0, 14.0, !create) && RangeOk(b.phMax, 0.0, 14.0, !create)
    && RangeOk(b.ghMin, 0.0, 30.0, true) && RangeOk(b.ghMax, 0.0, 30.0, true)
  }

  predicate RequirementsOk(b: SpeciesBody, create: bool) {
    && AtLeastOk(b.minTankSize, 1.0, !create) && AtLeastOk(b.sizeMax, 0.0, !create)
    && RangeOk(b.bioloadLevel, 1.0, 10.0, true)
    && EnumOk(b.flowPreference, FlowPreferenceNames, true)
  }

  predicate BehaviorOk(b: SpeciesBody, create: bool) {
    && EnumOk(b.careLevel, CareLevelNames, !create)
    && EnumOk(b.temperament, TemperamentNames, !create)
    && EnumOk(b.dietType, DietTypeNames, !create)
    && FlagOk(b.isSchooling) && AtLeastOk(b.minSchoolSize, 1.0, true)
    && FlagOk(b.plantSafe) && FlagOk(b.substrateDigger) && FlagOk(b.jumper)
  }

  /** A body the form accepts, property by property. */
  predicate ValidSpecies(b: SpeciesBody, create: bool) {
    IdentityOk(b, create) && WaterOk(b, create) && RequirementsOk(b, create)
    && BehaviorOk(b, create) && DescriptionOk(b.description, create)
  }

  // ----- one property at a time -----

  lemma NameAccepts(property: string, create: bool, v: Value)
    ensures FieldViolations(NameField(property, create), v) == [] <==> NameOk(v, create)
  {
    if create {
      FourChecks(NameField(property, create), v);
    } else {
      ThreeChecks(NameField(property, create), v);
    }
  }

  lemma TextAccepts(property: string, max: nat, v: Value)
    ensures FieldViolations(Text(property, max), v) == [] <==> TextOk(v, max)
  {
    TwoChecks(Text(property, max), v);
  }

  lemma AliasesAccept(v: Value)
    ensures FieldViolations(Aliases, v) == [] <==> AliasesOk(v)
  {
    TwoChecks(Aliases, v);
  }

  lemma RangeAccepts(property: string, lower: real, upper: real, optional: bool, v: Value)
    ensures FieldViolations(Range(property, lower, upper, optional), v) == [] <==>
      RangeOk(v, lower, upper, optional)
  {
    ThreeChecks(Range(property, lower, upper, optional), v);
  }

  lemma AtLeastAccepts(property: string, lower: real, optional: bool, v: Value)
    ensures FieldViolations(AtLeastField(property, lower, optional), v) == [] <==>
      AtLeastOk(v, lower, optional)
  {
    TwoChecks(AtLeastField(property, lower, optional), v);
  }

  /** The not-empty mark adds nothing to enum membership: no member is the empty string. */
  lemma EnumAccepts(property: string, members: seq<string>, create: bool, v: Value)
    requires "" !in members
    ensures FieldViolations(EnumField(property, members, create), v) == [] <==>
      EnumOk(v, members, !create)
  {
    if create {
      TwoChecks(EnumField(property, members, create), v);
    } else {
      OneCheck(EnumField(property, members, create), v);
    }
  }

  lemma FlagAccepts(property: string, v: Value)
    ensures FieldViolations(Flag(property), v) == [] <==> FlagOk(v)
  {
    OneCheck(Flag(property), v);
  }

  lemma DescriptionAccepts(create: bool, v: Value)
    ensures FieldViolations(DescriptionField(create), v) == [] <==> DescriptionOk(v, create)
  {
    if create {
      ThreeChecks(DescriptionField(create), v);
    } else {
      TwoChecks(DescriptionField(create), v);
    }
  }

  // ----- one group at a time -----

  lemma IdentityAccepts(b: SpeciesBody, create: bool)
    ensures IdentityViolations(b, create) == [] <==> IdentityOk(b, create)
  {
    NameAccepts("nameEn", create, b.nameEn);
    NameAccepts("nameVn", create, b.nameVn);
    TextAccepts("scientificName", 150, b.scientificName);
    AliasesAccept(b.aliases);
    TextAccepts("imageUrl", 500, b.imageUrl);
  }

  lemma WaterAccepts(b: SpeciesBody, create: bool)
    ensures WaterViolations(b, create) == [] <==> WaterOk(b, create)
  {
    RangeAccepts("tempMin", 0.0, 50.0, !create, b.tempMin);
    RangeAccepts("tempMax", 0.0, 50.0, !create, b.tempMax);
    RangeAccepts("phMin", 0.0, 14.0, !create, b.phMin);
    RangeAccepts("phMax", 0.0, 14.0, !create, b.phMax);
    RangeAccepts("ghMin", 0.0, 30.0, true, b.ghMin);
    RangeAccepts("ghMax", 0.0, 30.0, true, b.ghMax);
  }

  lemma RequirementsAccept(b: SpeciesBody, create: bool)
    ensures RequirementViolations(b, create) == [] <==> RequirementsOk(b, create)
  {
    AtLeastAccepts("minTankSize", 1.0, !create, b.minTankSize);
    AtLeastAccepts("sizeMax", 0.0, !create, b.sizeMax);
    RangeAccepts("bioloadLevel", 1.0, 10.0, true, b.bioloadLevel);
    EnumAccepts("flowPreference", FlowPreferenceNames, false, b.flowPreference);
  }

  lemma BehaviorAccepts(b: SpeciesBody, create: bool)
    ensures BehaviorViolations(b, create) == [] <==> BehaviorOk(b, create)
  {
    EnumAccepts("careLevel", CareLevelNames, create, b.careLevel);
    EnumAccepts("temperament", TemperamentNames, create, b.temperament);
    EnumAccepts("dietType", DietTypeNames, create, b.dietType);
    FlagAccepts("isSchooling", b.isSchooling);
    AtLeastAccepts("minSchoolSize", 1.0, true, b.minSchoolSize);
    FlagAccepts("plantSafe", b.plantSafe);
    FlagAccepts("substrateDigger", b.substrateDigger);
    FlagAccepts("jumper", b.jumper);
  }

  /** The decorators of either form accept exactly the bodies `ValidSpecies` describes. */
  lemma SpeciesAccepts(b: SpeciesBody, create: bool)
    ensures SpeciesViolations(b, create) == [] <==> ValidSpecies(b, create)
  {
    IdentityAccepts(b, create);
    WaterAccepts(b, create);
    RequirementsAccept(b, create);
    BehaviorAccepts(b, create);
    DescriptionAccepts(create, b.description);
  }

  // ----- consequences -----

  /** Each property the create form accepts, the update form accepts too. */
  lemma CreateOkIsUpdateOk(b: SpeciesBody)
    requires ValidSpecies(b, true)
    ensures IdentityOk(b, false) && WaterOk(b, false) && RequirementsOk(b, false)
    ensures BehaviorOk(b, false) && DescriptionOk(b.description, false)
  {
  }

  /** Whatever the create form accepts, the update form accepts too. */
  lemma CreateValidIsUpdateValid(b: SpeciesBody)
    requires SpeciesViolations(b, true) == []
    ensures SpeciesViolations(b, false) == []
  {
    SpeciesAccepts(b, true);
    CreateOkIsUpdateOk(b);
    SpeciesAccepts(b, false);
  }

  /** An empty update is accepted. */
  lemma EmptyUpdateAccepted()
    ensures SpeciesViolations(EmptyBody, false) == []
  {
    SpeciesAccepts(EmptyBody, false);
  }

  /** No rule relates a minimum to its maximum: an accepted body stays accepted with its
      temperature range inverted. */
  lemma InvertedRangeAccepted(b: SpeciesBody, low: real, high: real)
    requires SpeciesViolations(b, true) == []
    requires 0.0 <= low < high <= 50.0
    ensures SpeciesViolations(b.(tempMin := Num(high), tempMax := Num(low)), true) == []
  {
    SpeciesAccepts(b, true);
    SpeciesAccepts(b.(tempMin := Num(high), tempMax := Num(low)), true);
  }

  /** A description shorter than 10 counted characters is refused in both forms. */
  lemma ShortDescriptionRefused(b: SpeciesBody, create: bool)
    requires b.description.Str? && JsLength(b.description.s) < 10
    ensures Violation("description", MinLength(10), None) in SpeciesViolations(b, create)
  {
    FieldReports(DescriptionField(create), b.description, Plain(MinLength(10)));
  }

  /** The create form refuses a body without names: each is reported as missing. */
  lemma MissingNamesRefused(b: SpeciesBody)
    requires b.nameEn == Undefined && b.nameVn == Undefined
    ensures Violation("nameEn", IsNotEmpty, None) in SpeciesViolations(b, true)
    ensures Violation("nameVn", IsNotEmpty, None) in SpeciesViolations(b, true)
  {
    FieldReports(NameField("nameEn", true), Undefined, Plain(IsNotEmpty));
    FieldReports(NameField("nameVn", true), Undefined, Plain(IsNotEmpty));
  }

  /** The enumerations are matched by their exact names: every member's name passes, and a
      name spelled in lower case does not. */
  lemma CareLevelByName(c: CareLevel, create: bool)
    ensures FieldViolations(EnumField("careLevel", CareLevelNames, create), Str(CareLevelName(c))) == []
    ensures Violation("careLevel", IsEnum(CareLevelNames), None) in
      FieldViolations(EnumField("careLevel", CareLevelNames, create), Str("easy"))
  {
    EnumAccepts("careLevel", CareLevelNames, create, Str(CareLevelName(c)));
    FieldReports(EnumField("careLevel", CareLevelNames, create), Str("easy"), Plain(IsEnum(CareLevelNames)));
  }

  /** A temperature above 50 is refused with the upper bound, in both forms. */
  lemma HotWaterRefused(b: SpeciesBody, create: bool)
    requires b.tempMax == Num(51.0)
    ensures Violation("tempMax", Max(50.0), None) in SpeciesViolations(b, create)
  {
    FieldReports(Range("tempMax", 0.0, 50.0, !create), b.tempMax, Plain(Max(50.0)));
  }

  /** A negative pH is refused with the lower bound, in both forms. */
  lemma NegativePhRefused(b: SpeciesBody, create: bool)
    requires b.phMin == Num(-1.0)
    ensures Violation("phMin", Min(0.0), None) in SpeciesViolations(b, create)
  {
    FieldReports(Range("phMin", 0.0, 14.0, !create), b.phMin, Plain(Min(0.0)));
  }

  /** A hardness above 30 is refused with the upper bound, in both forms. */
  lemma HardWaterRefused(b: SpeciesBody, create: bool)
    requires b.ghMax == Num(31.0)
    ensures Violation("ghMax", Max(30.0), None) in SpeciesViolations(b, create)
  {
    FieldReports(Range("ghMax", 0.0, 30.0, true), b.ghMax, Plain(Max(30.0)));
  }

  /** A supplied bioload level of 0 is refused, in both forms. */
  lemma ZeroBioloadRefused(b: SpeciesBody, create: bool)
    requires b.bioloadLevel == Num(0.0)
    ensures Violation("bioloadLevel", Min(1.0), None) in SpeciesViolations(b, create)
  {
    FieldReports(Range("bioloadLevel", 1.0, 10.0, true), b.bioloadLevel, Plain(Min(1.0)));
  }

  // ----- the output projection -----

  /** `FishSpeciesDto`: every field of the species, grouped as in the entity, plus the
      timestamps the projection looks for. */
  datatype FishSpeciesDto = FishSpeciesDto(
    id: int, identity: Identity, water: WaterParameters, requirements: TankRequirements,
    behavior: Behavior, description: string, createdAt: Option<Time>, updatedAt: Option<Time>)

  /** `FishSpeciesDto.fromEntity`: copies every field of the species one to one (the alias
      list as a copy). It reads `created_at`/`updated_at`, which the entity does not have,
      so both timestamps come out undefined. */
  function FromEntity(s: FishSpecies): (d: FishSpeciesDto)
    reads s, s.base
    ensures d.id == s.base.id && d.description == s.description
    ensures d.identity == s.identity && d.water == s.water
    ensures d.requirements == s.requirements && d.behavior == s.behavior
    ensures d.createdAt == None && d.updatedAt == None
  {
    FishSpeciesDto(s.base.id, s.identity, s.water, s.requirements, s.behavior, s.description,
                   None, None)
  }

  /** Every object `FromEntities` reads. */
  function Footprint(species: seq<FishSpecies>): set<object> {
    (set i | 0 <= i < |species| :: species[i] as object)
    + (set i | 0 <= i < |species| :: species[i].base as object)
  }

  /** `FishSpeciesDto.fromEntities`: the projection of each species, in order. */
  function FromEntities(species: seq<FishSpecies>): (ds: seq<FishSpeciesDto>)
    reads Footprint(species)
    ensures |ds| == |species|
    ensures forall i :: 0 <= i < |species| ==> ds[i] == FromEntity(species[i])
  {
    if species == [] then []
    else
      assert Footprint(species[1..]) <= Footprint(species) by {
        forall i | 0 <= i < |species[1..]| ensures species[1..][i] == species[i + 1] { }
      }
      [FromEntity(species[0])] + FromEntities(species[1..])
  }
}
