/** The tank DTOs (tank.dto.ts): the decorators on `CreateTankDto` and `UpdateTankDto`,
    and the `TankDto` projection of a Tank entity. */
module TankDtos {
  import opened Wrappers
  import opened Validation
  import opened BaseEntities
  import opened TankEntity

  /** A tank request body, one value per declared property. */
  datatype TankBody = TankBody(
    name: Value, width: Value, height: Value, length: Value,
    tankType: Value, style: Value, description: Value, status: Value,
    setupAt: Value, waterVolume: Value, avatar: Value)

  const EmptyBody := TankBody(Undefined, Undefined, Undefined, Undefined, Undefined,
                              Undefined, Undefined, Undefined, Undefined, Undefined, Undefined)

  // ----- the decorators -----

  const WidthMessage := "Width must be at least 1 cm"
  const HeightMessage := "Height must be at least 1 cm"
  const LengthMessage := "Length must be at least 1 cm"

  function Dimension(property: string, message: string, optional: bool): Field {
    Field(property, optional, [Plain(IsNumber), Check(Min(1.0), Some(message))])
  }

  function Text(property: string, max: nat): Field {
    Field(property, true, [Plain(IsString), Plain(MaxLength(max))])
  }

  const CreateName := Field("name", false, [Plain(IsString), Plain(IsNotEmpty), Plain(MaxLength(100))])
  const UpdateName := Field("name", true, [Plain(IsString), Plain(MaxLength(100))])
  const SetupAt := Field("setup_at", true, [Plain(IsDate)])
  const WaterVolume := Field("water_volume", true, [Plain(IsNumber), Plain(Min(0.0))])

  /** The seven optional properties, declared alike in both DTOs. */
  function ExtraViolations(b: TankBody): seq<Violation> {
    FieldViolations(Text("type", 50), b.tankType)
    + FieldViolations(Text("style", 50), b.style)
    + FieldViolations(Text("description", 500), b.description)
    + FieldViolations(Text("status", 20), b.status)
    + FieldViolations(SetupAt, b.setupAt)
    + FieldViolations(WaterVolume, b.waterVolume)
    + FieldViolations(Text("avatar", 255), b.avatar)
  }

  /** `CreateTankDto`: name, width, height and length are required. */
  function CreateTankViolations(b: TankBody): seq<Violation> {
    FieldViolations(CreateName, b.name)
    + FieldViolations(Dimension("width", WidthMessage, false), b.width)
    + FieldViolations(Dimension("height", HeightMessage, false), b.height)
    + FieldViolations(Dimension("length", LengthMessage, false), b.length)
    + ExtraViolations(b)
  }

  /** `UpdateTankDto`: every property optional, and the name has no non-empty rule. */
  function UpdateTankViolations(b: TankBody): seq<Violation> {
    FieldViolations(UpdateName, b.name)
    + FieldViolations(Dimension("width", WidthMessage, true), b.width)
    + FieldViolations(Dimension("height", HeightMessage, true), b.height)
    + FieldViolations(Dimension("length", LengthMessage, true), b.length)
    + ExtraViolations(b)
  }

  // ----- the same constraints stated directly -----

  predicate OptionalText(v: Value, max: nat) {
    Absent(v) || (v.Str? && JsLength(v.s) <= max)
  }

  predicate AtLeast(v: Value, lower: real) {
    v.Num? && v.n >= lower
  }

  predicate ExtrasValid(b: TankBody) {
    && OptionalText(b.tankType, 50) && OptionalText(b.style, 50)
    && OptionalText(b.description, 500) && OptionalText(b.status, 20)
    && (Absent(b.setupAt) || b.setupAt == Date(true))
    && (Absent(b.waterVolume) || AtLeast(b.waterVolume, 0.0))
    && OptionalText(b.avatar, 255)
  }

  /** A body `CreateTankDto` accepts: a non-empty name of at most 100 counted
      characters (`JsLength`), three dimensions of at
      least 1, and the optional properties within their bounds. */
  predicate ValidCreateTank(b: TankBody) {
    && b.name.Str? && b.name.s != "" && JsLength(b.name.s) <= 100
    && AtLeast(b.width, 1.0) && AtLeast(b.height, 1.0) && AtLeast(b.length, 1.0)
    && ExtrasValid(b)
  }

  /** A body `UpdateTankDto` accepts: every property may be missing, a given name has at
      most 100 counted characters (it may be empty), a given dimension is at least 1. */
  predicate ValidUpdateTank(b: TankBody) {
    && OptionalText(b.name, 100)
    && (Absent(b.width) || AtLeast(b.width, 1.0))
    && (Absent(b.height) || AtLeast(b.height, 1.0))
    && (Absent(b.length) || AtLeast(b.length, 1.0))
    && ExtrasValid(b)
  }

  // ----- one property at a time -----

  lemma TextAccepts(property: string, max: nat, v: Value)
    ensures FieldViolations(Text(property, max), v) == [] <==> OptionalText(v, max)
  {
    TwoChecks(Text(property, max), v);
  }

  lemma DimensionAccepts(property: string, message: string, optional: bool, v: Value)
    ensures FieldViolations(Dimension(property, message, optional), v) == [] <==>
      (optional && Absent(v)) || AtLeast(v, 1.0)
  {
    TwoChecks(Dimension(property, message, optional), v);
  }

  /** Below 1, or not a number, a supplied dimension is refused with its custom message. */
  lemma DimensionMessage(property: string, message: string, optional: bool, v: Value)
    requires !(optional && Absent(v)) && !AtLeast(v, 1.0)
    ensures Violation(property, Min(1.0), Some(message)) in
      FieldViolations(Dimension(property, message, optional), v)
  {
    FieldReports(Dimension(property, message, optional), v, Check(Min(1.0), Some(message)));
  }

  lemma NameAccepts(v: Value)
    ensures FieldViolations(CreateName, v) == [] <==> v.Str? && v.s != "" && JsLength(v.s) <= 100
    ensures FieldViolations(UpdateName, v) == [] <==> OptionalText(v, 100)
  {
    ThreeChecks(CreateName, v);
    TwoChecks(UpdateName, v);
  }

  lemma ExtraViolationsNone(b: TankBody)
    ensures ExtraViolations(b) == [] <==> ExtrasValid(b)
  {
    TextAccepts("type", 50, b.tankType);
    TextAccepts("style", 50, b.style);
    TextAccepts("description", 500, b.description);
    TextAccepts("status", 20, b.status);
    OneCheck(SetupAt, b.setupAt);
    TwoChecks(WaterVolume, b.waterVolume);
    TextAccepts("avatar", 255, b.avatar);
  }

  /** The decorators of `CreateTankDto` accept exactly the bodies `ValidCreateTank` describes. */
  lemma CreateTankAccepts(b: TankBody)
    ensures CreateTankViolations(b) == [] <==> ValidCreateTank(b)
  {
    NameAccepts(b.name);
    DimensionAccepts("width", WidthMessage, false, b.width);
    DimensionAccepts("height", HeightMessage, false, b.height);
    DimensionAccepts("length", LengthMessage, false, b.length);
    ExtraViolationsNone(b);
  }

  /** The decorators of `UpdateTankDto` accept exactly the bodies `ValidUpdateTank` describes. */
  lemma UpdateTankAccepts(b: TankBody)
    ensures UpdateTankViolations(b) == [] <==> ValidUpdateTank(b)
  {
    NameAccepts(b.name);
    DimensionAccepts("width", WidthMessage, true, b.width);
    DimensionAccepts("height", HeightMessage, true, b.height);
    DimensionAccepts("length", LengthMessage, true, b.length);
    ExtraViolationsNone(b);
  }

  /** Whatever the create form accepts, the update form accepts too. */
  lemma CreateValidIsUpdateValid(b: TankBody)
    requires CreateTankViolations(b) == []
    ensures UpdateTankViolations(b) == []
  {
    CreateTankAccepts(b);
    UpdateTankAccepts(b);
  }

  /** A zero width is refused with the width's own message, in both forms. */
  lemma ZeroWidthRefused(b: TankBody)
    requires b.width == Num(0.0)
    ensures Violation("width", Min(1.0), Some(WidthMessage)) in CreateTankViolations(b)
    ensures Violation("width", Min(1.0), Some(WidthMessage)) in UpdateTankViolations(b)
  {
    DimensionMessage("width", WidthMessage, false, b.width);
    DimensionMessage("width", WidthMessage, true, b.width);
  }

  /** A zero height is refused with the height's own message, in both forms. */
  lemma ZeroHeightRefused(b: TankBody)
    requires b.height == Num(0.0)
    ensures Violation("height", Min(1.0), Some(HeightMessage)) in CreateTankViolations(b)
    ensures Violation("height", Min(1.0), Some(HeightMessage)) in UpdateTankViolations(b)
  {
    DimensionMessage("height", HeightMessage, false, b.height);
    DimensionMessage("height", HeightMessage, true, b.height);
  }

  /** A zero length is refused with the length's own message, in both forms. */
  lemma ZeroLengthRefused(b: TankBody)
    requires b.length == Num(0.0)
    ensures Violation("length", Min(1.0), Some(LengthMessage)) in CreateTankViolations(b)
    ensures Violation("length", Min(1.0), Some(LengthMessage)) in UpdateTankViolations(b)
  {
    DimensionMessage("length", LengthMessage, false, b.length);
    DimensionMessage("length", LengthMessage, true, b.length);
  }

  /** The smallest tank the create form accepts: dimensions of 1 and a water volume of 0. */
  lemma SmallestTankAccepted()
    ensures CreateTankViolations(EmptyBody.(name := Str("Nano"), width := Num(1.0),
      height := Num(1.0), length := Num(1.0), waterVolume := Num(0.0))) == []
  {
    CreateTankAccepts(EmptyBody.(name := Str("Nano"), width := Num(1.0),
      height := Num(1.0), length := Num(1.0), waterVolume := Num(0.0)));
  }

  /** An empty update is accepted, and so is an empty name, which the create form refuses. */
  lemma EmptyNameOnlyForUpdate()
    ensures UpdateTankViolations(EmptyBody) == []
    ensures UpdateTankViolations(EmptyBody.(name := Str(""))) == []
    ensures Violation("name", IsNotEmpty, None) in CreateTankViolations(EmptyBody.(name := Str("")))
  {
    UpdateTankAccepts(EmptyBody);
    UpdateTankAccepts(EmptyBody.(name := Str("")));
    FieldReports(CreateName, Str(""), Plain(IsNotEmpty));
  }

  /** A create body without a name reports the name as not a string and as empty. */
  lemma MissingNameRefused(b: TankBody)
    requires b.name == Undefined
    ensures Violation("name", IsString, None) in CreateTankViolations(b)
    ensures Violation("name", IsNotEmpty, None) in CreateTankViolations(b)
  {
    FieldReports(CreateName, Undefined, Plain(IsString));
    FieldReports(CreateName, Undefined, Plain(IsNotEmpty));
  }

  // ----- the output projection -----

  /** `TankDto`: the entity's fields as the API returns them. */
  datatype TankDto = TankDto(
    id: int, name: string, width: real, height: real, length: real,
    tankType: Option<string>, style: Option<string>, description: Option<string>,
    status: Option<string>, setupAt: Option<Time>, waterVolume: Option<real>,
    avatar: Option<string>, userId: Option<int>,
    createdAt: Option<Time>, updatedAt: Option<Time>)

  /** `TankDto.fromEntity`. The entity has no type, style, description, status, setup date,
      water volume or avatar, and exposes its timestamps as `createdAt`/`updatedAt` while the
      projection reads `created_at`/`updated_at`; all of these come out undefined. */
  function FromEntity(t: Tank): (d: TankDto)
    reads t, t.base
    ensures d.id == t.base.id && d.name == t.name
    ensures d.width == t.width && d.height == t.height && d.length == t.length
    ensures d.userId == t.userId
    ensures d.tankType == d.style == d.description == d.status == d.avatar == None
    ensures d.setupAt == None && d.waterVolume == None
    ensures d.createdAt == None && d.updatedAt == None
  {
    TankDto(t.base.id, t.name, t.width, t.height, t.length, None, None, None, None, None, None,
            None, t.userId, None, None)
  }

  /** Every object `FromEntities` reads. */
  function Footprint(tanks: seq<Tank>): set<object> {
    (set i | 0 <= i < |tanks| :: tanks[i] as object) + (set i | 0 <= i < |tanks| :: tanks[i].base as object)
  }

  /** `TankDto.fromEntities`: the projection of each tank, in order. */
  function FromEntities(tanks: seq<Tank>): (ds: seq<TankDto>)
    reads Footprint(tanks)
    ensures |ds| == |tanks|
    ensures forall i :: 0 <= i < |tanks| ==> ds[i] == FromEntity(tanks[i])
  {
    if tanks == [] then []
    else
      assert Footprint(tanks[1..]) <= Footprint(tanks) by {
        forall i | 0 <= i < |tanks[1..]| ensures tanks[1..][i] == tanks[i + 1] { }
      }
      [FromEntity(tanks[0])] + FromEntities(tanks[1..])
  }
}
