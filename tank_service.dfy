/** The tank service (tank.service.ts) over the tank repository. Every operation on one
    tank loads it first and fails with "Tank with id <id> not found", writing nothing, when
    it is missing. `update` applies a non-empty name and a complete set of dimensions to the
    loaded entity and writes it back; the other properties of the update form call entity
    methods that the Tank entity does not have, which fails before anything is written. */
module TankServices {
  import opened Wrappers
  import opened BaseEntities
  import opened TankEntity
  import opened DomainErrors
  import opened TankDtos
  import opened TankRepositories
  import opened Pagination

  /** An `UpdateTankDto` that passed validation: each property supplied or not. */
  datatype UpdateTankDto = UpdateTankDto(
    name: Option<string>, width: Option<real>, height: Option<real>, length: Option<real>,
    tankType: Option<string>, style: Option<string>, description: Option<string>,
    status: Option<string>, setupAt: Option<Time>, waterVolume: Option<real>,
    avatar: Option<string>)

  /** What the service throws: a domain exception, the TypeError of calling a method the
      entity lacks, or a plain Error. */
  datatype ServiceError =
    | Domain(error: DomainError)
    | TypeError(message: string)
    | PlainError(message: string)

  function NotFound(id: int): ServiceError {
    Domain(EntityNotFound("Tank", id))
  }

  // ----- what `update` does to a row -----

  /** The first entity method `update` calls that the Tank entity lacks, if any: one per
      supplied extra property, in the order the service tries them. */
  function MissingMethod(dto: UpdateTankDto): (m: Option<string>)
    ensures m.None? <==>
      dto.tankType.None? && dto.style.None? && dto.description.None? && dto.status.None? &&
      dto.setupAt.None? && dto.waterVolume.None? && dto.avatar.None?
  {
    if dto.tankType.Some? then Some("updateType")
    else if dto.style.Some? then Some("updateStyle")
    else if dto.description.Some? then Some("updateDescription")
    else if dto.status.Some? then Some("updateStatus")
    else if dto.setupAt.Some? then Some("updateSetupAt")
    else if dto.waterVolume.Some? then Some("updateWaterVolume")
    else if dto.avatar.Some? then Some("updateAvatar")
    else None
  }

  /** The JavaScript message for calling a method the object does not have. */
  function NotAFunction(methodName: string): string {
    "tank." + methodName + " is not a function"
  }

  /** A name is applied only when it is a non-empty string. */
  predicate AppliesName(dto: UpdateTankDto) {
    dto.name.Some? && dto.name.value != ""
  }

  /** Dimensions are applied only when all three are supplied. */
  predicate AppliesDimensions(dto: UpdateTankDto) {
    dto.width.Some? && dto.height.Some? && dto.length.Some?
  }

  /** The stored row after a successful `update`, stated on the row alone. */
  function UpdatedRow(row: TankRow, dto: UpdateTankDto): (r: TankRow)
    ensures r.name == (if AppliesName(dto) then dto.name.value else row.name)
    ensures AppliesDimensions(dto) ==>
      r.width == dto.width.value && r.height == dto.height.value && r.length == dto.length.value
    ensures !AppliesDimensions(dto) ==>
      r.width == row.width && r.height == row.height && r.length == row.length
    ensures r.userId == row.userId && r.createdAt == row.createdAt && r.updatedAt == row.updatedAt
  {
    var named := if AppliesName(dto) then row.(name := dto.name.value) else row;
    if AppliesDimensions(dto) then
      named.(width := dto.width.value, height := dto.height.value, length := dto.length.value)
    else named
  }

  /** An update without a usable name and without all three dimensions leaves the row as
      it was; an empty name in particular changes nothing. */
  lemma IneffectiveUpdate(row: TankRow, dto: UpdateTankDto)
    requires !AppliesName(dto) && !AppliesDimensions(dto)
    ensures UpdatedRow(row, dto) == row
  {
  }

  /** Applying the same update twice stores what applying it once stores. */
  lemma UpdateIdempotent(row: TankRow, dto: UpdateTankDto)
    ensures UpdatedRow(UpdatedRow(row, dto), dto) == UpdatedRow(row, dto)
  {
  }

  /** Writing back an entity loaded from `row`, whose name and dimensions were then set,
      stores exactly those values and keeps the owner: the loaded owner is either the
      row's own or absent, and an absent owner is not written. */
  lemma WriteBack(id: int, row: TankRow, name: string, width: real, height: real, length: real)
    ensures Patched(row, TankPatch(Some(name), Some(width), Some(height), Some(length),
                                   RowView(id, row).userId))
         == row.(name := name, width := width, height := height, length := length)
  {
  }

  // ----- the projections the service returns -----

  /** The `TankDto` of an entity, from its observable state. */
  function ViewDto(v: TankView): (d: TankDto)
    ensures d.id == v.id && d.name == v.name && d.userId == v.userId
    ensures d.width == v.width && d.height == v.height && d.length == v.length
    ensures d.createdAt == None && d.updatedAt == None
  {
    TankDto(v.id, v.name, v.width, v.height, v.length, None, None, None, None, None, None,
            None, v.userId, None, None)
  }

  /** `FromEntity` depends on nothing but the entity's observable state. */
  lemma FromEntityOfView(t: Tank)
    ensures FromEntity(t) == ViewDto(View(t))
  {
  }

  /** The two shapes the service accepts from `findByUserId`: a plain array, or a page
      of tanks with its metadata. */
  datatype TankList = Plain(tanks: seq<Tank>) | Paginated(data: seq<Tank>, meta: PaginationMeta)

  function ListFootprint(l: TankList): set<object> {
    match l
    case Plain(tanks) => TankDtos.Footprint(tanks)
    case Paginated(data, _) => TankDtos.Footprint(data)
  }

  /** `findByUserId`'s projection: the tanks of either shape. */
  function ListDtos(l: TankList): (ds: seq<TankDto>)
    reads ListFootprint(l)
    ensures l.Plain? ==> ds == FromEntities(l.tanks)
    ensures l.Paginated? ==> ds == FromEntities(l.data)
  {
    match l
    case Plain(tanks) => FromEntities(tanks)
    case Paginated(data, _) => FromEntities(data)
  }

  /** `findAll`'s check: only the paginated shape gives a result. */
  function PaginatedOrError(l: TankList): (r: Result<PaginatedResult<TankDto>, ServiceError>)
    reads ListFootprint(l)
    ensures r.Ok? <==> l.Paginated?
    ensures r.Err? ==> r.error == PlainError("Expected paginated result from repository")
  {
    match l
    case Plain(_) => Err(PlainError("Expected paginated result from repository"))
    case Paginated(data, meta) => Ok(Create(FromEntities(data), meta))
  }

  /** A plain array is always refused, and a page is passed on with its tanks projected
      in order and its metadata untouched. */
  lemma PaginatedOrErrorCases(l: TankList)
    ensures l.Plain? <==> PaginatedOrError(l) == Err(PlainError("Expected paginated result from repository"))
    ensures l.Paginated? ==>
      && PaginatedOrError(l).Ok? && PaginatedOrError(l).value.meta == l.meta
      && |PaginatedOrError(l).value.items| == |l.data|
      && forall i :: 0 <= i < |l.data| ==> PaginatedOrError(l).value.items[i] == FromEntity(l.data[i])
  {
  }

  class TankService {
    const repository: TankRepository

    constructor (repository: TankRepository)
      ensures this.repository == repository
    {
      this.repository := repository;
    }

    /** `findById`: the tank's DTO, or not-found. */
    method FindById(id: int) returns (r: Result<TankDto, ServiceError>)
      ensures id !in repository.rows ==> r == Err(NotFound(id))
      ensures id in repository.rows ==> r == Ok(ViewDto(RowView(id, repository.rows[id])))
    {
      var tank := repository.FindById(id);
      if tank.None? {
        return Err(NotFound(id));
      }
      r := Ok(FromEntity(tank.value));
    }

    /** `findByUserId`: the DTOs of exactly the tanks whose `user_id` is `userId`. */
    method FindByUserId(userId: int) returns (dtos: seq<TankDto>)
      requires repository.Valid()
      ensures forall i :: 0 <= i < |dtos| ==>
        dtos[i].id in OwnedBy(repository.rows, userId) &&
        dtos[i] == ViewDto(RowView(dtos[i].id, repository.rows[dtos[i].id]))
      ensures forall i, j :: 0 <= i < j < |dtos| ==> dtos[i].id < dtos[j].id
      ensures forall k :: k in OwnedBy(repository.rows, userId) ==>
        exists i :: 0 <= i < |dtos| && dtos[i].id == k
    {
      var tanks := repository.FindByUserId(userId);
      dtos := ListDtos(Plain(tanks));
      assert dtos == FromEntities(tanks);
      forall i | 0 <= i < |tanks|
        ensures dtos[i].id == tanks[i].base.id
        ensures dtos[i] == ViewDto(RowView(tanks[i].base.id, repository.rows[tanks[i].base.id]))
      {
        FromEntityOfView(tanks[i]);
      }
      forall k | k in OwnedBy(repository.rows, userId)
        ensures exists i :: 0 <= i < |dtos| && dtos[i].id == k
      {
        var i :| 0 <= i < |tanks| && tanks[i].base.id == k;
        assert dtos[i].id == k;
      }
    }

    /** `findAll`: the repository's `findByUserId` returns a plain array, so this always
        throws. */
    method FindAll(userId: int, page: int, perPage: int)
      returns (r: Result<PaginatedResult<TankDto>, ServiceError>)
      requires repository.Valid()
      ensures r == Err(PlainError("Expected paginated result from repository"))
    {
      var tanks := repository.FindByUserId(userId);
      r := PaginatedOrError(Plain(tanks));
    }

    /** `update`: not-found, or the TypeError of the first extra property, write nothing;
        otherwise the row becomes `UpdatedRow` of itself and its DTO is returned. */
    method Update(id: int, dto: UpdateTankDto, now: Time) returns (r: Result<TankDto, ServiceError>)
      requires repository.Valid()
      modifies repository
      ensures repository.Valid()
      ensures id !in old(repository.rows) ==>
        r == Err(NotFound(id)) && repository.rows == old(repository.rows)
      ensures id in old(repository.rows) && MissingMethod(dto).Some? ==>
        r == Err(TypeError(NotAFunction(MissingMethod(dto).value))) &&
        repository.rows == old(repository.rows)
      ensures id in old(repository.rows) && MissingMethod(dto).None? ==>
        repository.rows == old(repository.rows)[id := UpdatedRow(old(repository.rows)[id], dto)] &&
        r == Ok(ViewDto(RowView(id, repository.rows[id])))
    {
      var found := repository.FindById(id);
      if found.None? {
        return Err(NotFound(id));
      }
      var tank := found.value;
      var row := repository.rows[id];
      if AppliesName(dto) {
        tank.UpdateName(dto.name.value, now);
      }
      if AppliesDimensions(dto) {
        tank.UpdateDimensions(dto.width.value, dto.height.value, dto.length.value, now);
      }
      var missing := MissingMethod(dto);
      if missing.Some? {
        return Err(TypeError(NotAFunction(missing.value)));
      }
      WriteBack(id, row, tank.name, tank.width, tank.height, tank.length);
      var updated := repository.Update(id, PatchOf(tank));
      r := Ok(FromEntity(updated.value));
    }

    /** `delete`: not-found writes nothing; otherwise exactly that row is removed. */
    method Delete(id: int) returns (r: Result<(), ServiceError>)
      requires repository.Valid()
      modifies repository
      ensures repository.Valid()
      ensures id !in old(repository.rows) ==>
        r == Err(NotFound(id)) && repository.rows == old(repository.rows)
      ensures id in old(repository.rows) ==>
        r == Ok(()) && repository.rows == old(repository.rows) - {id}
    {
      var found := repository.FindById(id);
      if found.None? {
        return Err(NotFound(id));
      }
      var _ := repository.Delete(id);
      r := Ok(());
    }

    /** `assignToUser`: the row's owner becomes `userId` and nothing else changes. */
    method AssignToUser(tankId: int, userId: int, now: Time) returns (r: Result<TankDto, ServiceError>)
      requires repository.Valid()
      modifies repository
      ensures repository.Valid()
      ensures tankId !in old(repository.rows) ==>
        r == Err(NotFound(tankId)) && repository.rows == old(repository.rows)
      ensures tankId in old(repository.rows) ==>
        repository.rows == old(repository.rows)[tankId := old(repository.rows)[tankId].(userId := Some(userId))] &&
        r == Ok(ViewDto(RowView(tankId, repository.rows[tankId])))
    {
      var found := repository.FindById(tankId);
      if found.None? {
        return Err(NotFound(tankId));
      }
      var tank := found.value;
      tank.AssignToUser(userId, now);
      var updated := repository.Update(tankId, PatchOf(tank));
      r := Ok(FromEntity(updated.value));
    }

    /** `removeFromUser`: the owner is cleared on the loaded entity only. The write-back
        leaves the owner out, so the stored row is unchanged and the returned DTO, read
        back from it, still names the old owner. */
    method RemoveFromUser(tankId: int, now: Time) returns (r: Result<TankDto, ServiceError>)
      requires repository.Valid()
      modifies repository
      ensures repository.Valid()
      ensures tankId !in old(repository.rows) ==> r == Err(NotFound(tankId))
      ensures repository.rows == old(repository.rows)
      ensures tankId in old(repository.rows) ==>
        r == Ok(ViewDto(RowView(tankId, old(repository.rows)[tankId])))
    {
      var found := repository.FindById(tankId);
      if found.None? {
        return Err(NotFound(tankId));
      }
      var tank := found.value;
      tank.RemoveFromUser(now);
      var updated := repository.Update(tankId, PatchOf(tank));
      r := Ok(FromEntity(updated.value));
    }
  }
}
