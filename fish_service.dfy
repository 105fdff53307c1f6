/** The fish service (fish.service.ts) over the fish table its repository reaches.
    `findById`, `update` and `delete` load the fish first and fail with
    EntityNotFound("Fish", id), writing nothing, when it is missing. `update` applies a name
    and a species only when each is a non-empty string, then writes both back. `create`
    builds a Fish with id 0, and the repository inserts the entity's own id, so a second
    `create` collides with the first row's id. fish.repository.ts is not part of this model
    beyond that table: a map from id to row. The table is assumed to hold camelCase
    `createdAt`/`updatedAt` columns, the names the repository reads, and a fish DTO is
    assumed to carry the id, name and species only. */
module FishServices {
  import opened Wrappers
  import opened BaseEntities
  import opened FishEntity
  import opened DomainErrors

  // ----- the fish table -----

  datatype FishRow = FishRow(name: string, species: string, createdAt: Time, updatedAt: Time)

  /** What the database raises: a missing row on `update`/`delete`, or an insert whose id
      is already taken. */
  datatype StoreError = RecordNotFound(id: int) | IdInUse(id: int)

  /** The observable state of a Fish entity. */
  datatype FishView = FishView(id: int, name: string, species: string, createdAt: Time, updatedAt: Time)

  function View(f: Fish): FishView
    reads f, f.base
  {
    FishView(f.base.id, f.name, f.species, f.base.createdAt, f.base.updatedAt)
  }

  /** The entity `toDomain` builds from the row with id `id`. */
  function RowView(id: int, row: FishRow): FishView {
    FishView(id, row.name, row.species, row.createdAt, row.updatedAt)
  }

  /** `findMany` without a filter keeps every row; with a species, the rows of that
      species. */
  predicate Keeps(species: Option<string>, row: FishRow) {
    species.None? || row.species == species.value
  }

  function Selected(rows: map<int, FishRow>, species: Option<string>): (ids: set<int>)
    ensures forall k :: k in ids <==> k in rows && Keeps(species, rows[k])
  {
    set k | k in rows && Keeps(species, rows[k])
  }

  /** Every row is selected without a filter, and a species filter selects a subset. */
  lemma SpeciesFilterNarrows(rows: map<int, FishRow>, species: string)
    ensures Selected(rows, None) == rows.Keys
    ensures Selected(rows, Some(species)) <= Selected(rows, None)
  {
  }

  lemma NonEmptyHasElement(s: set<int>)
    requires s != {}
    ensures exists k :: k in s
  {
    if forall k :: k !in s {
      assert false;
    }
  }

  class FishStore {
    var rows: map<int, FishRow>

    constructor ()
      ensures rows == map[]
    {
      rows := map[];
    }

    /** `toDomain`: a fresh entity holding the row's values and timestamps (read from the
        assumed `createdAt`/`updatedAt` columns). */
    static method ToDomain(id: int, row: FishRow) returns (f: Fish)
      ensures fresh(f) && fresh(f.base)
      ensures View(f) == RowView(id, row)
    {
      f := new Fish(id, row.name, row.species, Some(row.createdAt), Some(row.updatedAt),
                    row.updatedAt);
    }

    /** `findById`: the entity for the row with that id, or nothing. */
    method FindById(id: int) returns (f: Option<Fish>)
      ensures f.None? <==> id !in rows
      ensures f.Some? ==> fresh(f.value) && fresh(f.value.base) && View(f.value) == RowView(id, rows[id])
    {
      if id in rows {
        var fish := ToDomain(id, rows[id]);
        f := Some(fish);
      } else {
        f := None;
      }
    }

    /** The ids of the rows the filter keeps, each once, in no particular order. */
    method SelectedIds(species: Option<string>) returns (ids: seq<int>)
      ensures forall i :: 0 <= i < |ids| ==> ids[i] in Selected(rows, species)
      ensures forall i, j :: 0 <= i < j < |ids| ==> ids[i] != ids[j]
      ensures forall k :: k in Selected(rows, species) ==> k in ids
    {
      ids := [];
      var remaining := rows.Keys;
      while remaining != {}
        invariant remaining <= rows.Keys
        invariant forall i :: 0 <= i < |ids| ==> ids[i] in Selected(rows, species)
        invariant forall i :: 0 <= i < |ids| ==> ids[i] !in remaining
        invariant forall i, j :: 0 <= i < j < |ids| ==> ids[i] != ids[j]
        invariant forall k :: k in Selected(rows, species) ==> k in ids || k in remaining
        decreases remaining
      {
        NonEmptyHasElement(remaining);
        var k :| k in remaining;
        if Keeps(species, rows[k]) {
          ids := ids + [k];
        }
        remaining := remaining - {k};
      }
    }

    /** `toDomain` over a list of rows: one fresh entity per id, in the same order. */
    static method ToDomainAll(ids: seq<int>, rows: map<int, FishRow>) returns (fishes: seq<Fish>)
      requires forall i :: 0 <= i < |ids| ==> ids[i] in rows
      ensures |fishes| == |ids|
      ensures forall i :: 0 <= i < |fishes| ==> fresh(fishes[i]) && fresh(fishes[i].base)
      ensures forall i :: 0 <= i < |fishes| ==> View(fishes[i]) == RowView(ids[i], rows[ids[i]])
    {
      fishes := [];
      for n := 0 to |ids|
        invariant |fishes| == n
        invariant forall i :: 0 <= i < n ==> fresh(fishes[i]) && fresh(fishes[i].base)
        invariant forall i :: 0 <= i < n ==> View(fishes[i]) == RowView(ids[i], rows[ids[i]])
      {
        var f := ToDomain(ids[n], rows[ids[n]]);
        fishes := fishes + [f];
      }
    }

    /** `findAll` (no species) and `findBySpecies`: one fresh entity for each row the
        filter keeps, each once, and no other. */
    method FindWhere(species: Option<string>) returns (fishes: seq<Fish>)
      ensures forall i :: 0 <= i < |fishes| ==> fresh(fishes[i]) && fresh(fishes[i].base)
      ensures forall i :: 0 <= i < |fishes| ==>
        fishes[i].base.id in Selected(rows, species) &&
        View(fishes[i]) == RowView(fishes[i].base.id, rows[fishes[i].base.id])
      ensures forall i, j :: 0 <= i < j < |fishes| ==> fishes[i].base.id != fishes[j].base.id
      ensures forall k :: k in Selected(rows, species) ==>
        exists i :: 0 <= i < |fishes| && fishes[i].base.id == k
    {
      var ids := SelectedIds(species);
      fishes := ToDomainAll(ids, rows);
      assert forall i :: 0 <= i < |fishes| ==> fishes[i].base.id == ids[i];
      forall k | k in Selected(rows, species)
        ensures exists i :: 0 <= i < |fishes| && fishes[i].base.id == k
      {
        var i :| 0 <= i < |ids| && ids[i] == k;
        assert fishes[i].base.id == k;
      }
    }

    /** `save`: inserts a row under the entity's own id with its name and species, stamped
        `now`, and reads it back; an id already in use is refused and nothing is written. */
    method Save(f: Fish, now: Time) returns (r: Result<Fish, StoreError>)
      modifies this
      ensures f.base.id in old(rows) ==> r == Err(IdInUse(f.base.id)) && rows == old(rows)
      ensures f.base.id !in old(rows) ==>
        rows == old(rows)[f.base.id := FishRow(f.name, f.species, now, now)]
      ensures f.base.id !in old(rows) ==>
        r.Ok? && fresh(r.value) && fresh(r.value.base) &&
        View(r.value) == RowView(f.base.id, rows[f.base.id])
    {
      var id := f.base.id;
      if id in rows {
        return Err(IdInUse(id));
      }
      var row := FishRow(f.name, f.species, now, now);
      rows := rows[id := row];
      var saved := ToDomain(id, row);
      r := Ok(saved);
    }

    /** `update`: writes the given name and species into the row with that id and reads
        it back; a missing row is an error and nothing is written. */
    method Update(id: int, name: string, species: string) returns (r: Result<Fish, StoreError>)
      modifies this
      ensures id !in old(rows) ==> r == Err(RecordNotFound(id)) && rows == old(rows)
      ensures id in old(rows) ==> rows == old(rows)[id := old(rows)[id].(name := name, species := species)]
      ensures id in old(rows) ==>
        r.Ok? && fresh(r.value) && fresh(r.value.base) && View(r.value) == RowView(id, rows[id])
    {
      if id !in rows {
        return Err(RecordNotFound(id));
      }
      var row := rows[id].(name := name, species := species);
      rows := rows[id := row];
      var f := ToDomain(id, row);
      r := Ok(f);
    }

    /** `delete`: removes the row with that id and no other; a missing row is an error
        and nothing is removed. */
    method Delete(id: int) returns (r: Result<(), StoreError>)
      modifies this
      ensures id !in old(rows) ==> r == Err(RecordNotFound(id)) && rows == old(rows)
      ensures id in old(rows) ==> r == Ok(()) && rows == old(rows) - {id}
    {
      if id !in rows {
        return Err(RecordNotFound(id));
      }
      rows := rows - {id};
      r := Ok(());
    }
  }

  // ----- the DTOs -----

  /** The fish a response carries. */
  datatype FishDto = FishDto(id: int, name: string, species: string)

  function FromEntity(f: Fish): FishDto
    reads f, f.base
  {
    FishDto(f.base.id, f.name, f.species)
  }

  /** The DTO of a stored row: its id, name and species, and nothing of its timestamps. */
  function RowDto(id: int, row: FishRow): (d: FishDto)
    ensures d.id == id && d.name == row.name && d.species == row.species
  {
    FishDto(id, row.name, row.species)
  }

  /** A DTO depends only on the id, name and species: rows that differ only in their
      timestamps give the same DTO. */
  lemma RowDtoIgnoresTimestamps(id: int, row: FishRow, createdAt: Time, updatedAt: Time)
    ensures RowDto(id, row.(createdAt := createdAt, updatedAt := updatedAt)) == RowDto(id, row)
  {
  }

  function Footprint(fishes: seq<Fish>): set<object> {
    (set i | 0 <= i < |fishes| :: fishes[i] as object) + (set i | 0 <= i < |fishes| :: fishes[i].base as object)
  }

  /** `fromEntities`: one DTO per fish, in order. */
  function FromEntities(fishes: seq<Fish>): (ds: seq<FishDto>)
    reads Footprint(fishes)
    ensures |ds| == |fishes|
    ensures forall i :: 0 <= i < |fishes| ==> ds[i] == FromEntity(fishes[i])
  {
    if fishes == [] then []
    else
      assert Footprint(fishes[1..]) <= Footprint(fishes) by {
        forall i | 0 <= i < |fishes[1..]| ensures fishes[1..][i] == fishes[i + 1] { }
      }
      [FromEntity(fishes[0])] + FromEntities(fishes[1..])
  }

  /** An `UpdateFishDto`: each property supplied or not. */
  datatype UpdateFishDto = UpdateFishDto(name: Option<string>, species: Option<string>)

  /** `if (dto.name)`: a property is applied only when it is a non-empty string. */
  predicate Truthy(s: Option<string>) {
    s.Some? && s.value != ""
  }

  /** The stored row after a successful `update`. */
  function UpdatedRow(row: FishRow, dto: UpdateFishDto): (r: FishRow)
    ensures r.name == (if Truthy(dto.name) then dto.name.value else row.name)
    ensures r.species == (if Truthy(dto.species) then dto.species.value else row.species)
    ensures r.createdAt == row.createdAt && r.updatedAt == row.updatedAt
  {
    row.(name := if Truthy(dto.name) then dto.name.value else row.name,
         species := if Truthy(dto.species) then dto.species.value else row.species)
  }

  /** Empty strings and absent properties change nothing, and applying an update twice
      stores what applying it once stores. */
  lemma UpdateLaws(row: FishRow, dto: UpdateFishDto)
    ensures !Truthy(dto.name) && !Truthy(dto.species) ==> UpdatedRow(row, dto) == row
    ensures UpdatedRow(row, UpdateFishDto(Some(""), Some(""))) == row
    ensures UpdatedRow(UpdatedRow(row, dto), dto) == UpdatedRow(row, dto)
  {
  }

  /** What the service throws. */
  datatype ServiceError = Domain(domainError: DomainError) | Store(storeError: StoreError)

  function NotFound(id: int): ServiceError {
    Domain(EntityNotFound("Fish", id))
  }

  class FishService {
    const store: FishStore

    constructor (store: FishStore)
      ensures this.store == store
    {
      this.store := store;
    }

    /** `create`: saves a Fish with id 0 and the given name and species. The first such
        fish becomes row 0; while row 0 exists every later `create` fails. */
    method Create(name: string, species: string, now: Time) returns (r: Result<FishDto, ServiceError>)
      modifies store
      ensures 0 in old(store.rows) ==> r == Err(Store(IdInUse(0))) && store.rows == old(store.rows)
      ensures 0 !in old(store.rows) ==>
        store.rows == old(store.rows)[0 := FishRow(name, species, now, now)] &&
        r == Ok(FishDto(0, name, species))
    {
      var fish := new Fish(0, name, species, None, None, now);
      var saved := store.Save(fish, now);
      if saved.Err? {
        return Err(Store(saved.error));
      }
      r := Ok(FromEntity(saved.value));
    }

    /** `findById`: the DTO of the row with that id, or not-found. */
    method FindById(id: int) returns (r: Result<FishDto, ServiceError>)
      ensures id !in store.rows ==> r == Err(NotFound(id))
      ensures id in store.rows ==> r == Ok(RowDto(id, store.rows[id]))
    {
      var found := store.FindById(id);
      if found.None? {
        return Err(NotFound(id));
      }
      r := Ok(FromEntity(found.value));
    }

    /** `findAll` (no species) and `findBySpecies`: the DTOs of exactly the rows the
        filter keeps, each once. */
    method List(species: Option<string>) returns (dtos: seq<FishDto>)
      ensures forall i :: 0 <= i < |dtos| ==>
        dtos[i].id in Selected(store.rows, species) &&
        dtos[i] == RowDto(dtos[i].id, store.rows[dtos[i].id])
      ensures forall i, j :: 0 <= i < j < |dtos| ==> dtos[i].id != dtos[j].id
      ensures forall k :: k in Selected(store.rows, species) ==>
        exists i :: 0 <= i < |dtos| && dtos[i].id == k
    {
      var fishes := store.FindWhere(species);
      dtos := FromEntities(fishes);
      forall i | 0 <= i < |fishes|
        ensures dtos[i].id == fishes[i].base.id
        ensures dtos[i] == RowDto(fishes[i].base.id, store.rows[fishes[i].base.id])
      {
      }
      forall k | k in Selected(store.rows, species)
        ensures exists i :: 0 <= i < |dtos| && dtos[i].id == k
      {
        var i :| 0 <= i < |fishes| && fishes[i].base.id == k;
        assert dtos[i].id == k;
      }
    }

    /** `findAll`: every row, each once. */
    method FindAll() returns (dtos: seq<FishDto>)
      ensures forall i :: 0 <= i < |dtos| ==>
        dtos[i].id in store.rows && dtos[i] == RowDto(dtos[i].id, store.rows[dtos[i].id])
      ensures forall i, j :: 0 <= i < j < |dtos| ==> dtos[i].id != dtos[j].id
      ensures forall k :: k in store.rows ==> exists i :: 0 <= i < |dtos| && dtos[i].id == k
    {
      dtos := List(None);
      assert forall k :: k in store.rows ==> k in Selected(store.rows, None);
    }

    /** `findBySpecies`: the rows whose species is exactly that string, each once. */
    method FindBySpecies(species: string) returns (dtos: seq<FishDto>)
      ensures forall i :: 0 <= i < |dtos| ==>
        dtos[i].id in store.rows && store.rows[dtos[i].id].species == species &&
        dtos[i] == RowDto(dtos[i].id, store.rows[dtos[i].id])
      ensures forall i, j :: 0 <= i < j < |dtos| ==> dtos[i].id != dtos[j].id
      ensures forall k :: k in store.rows && store.rows[k].species == species ==>
        exists i :: 0 <= i < |dtos| && dtos[i].id == k
    {
      dtos := List(Some(species));
      assert forall k :: k in store.rows && store.rows[k].species == species ==>
        k in Selected(store.rows, Some(species));
    }

    /** `update`: not-found writes nothing; otherwise the row becomes `UpdatedRow` of
        itself and its DTO is returned. */
    method Update(id: int, dto: UpdateFishDto, now: Time) returns (r: Result<FishDto, ServiceError>)
      modifies store
      ensures id !in old(store.rows) ==> r == Err(NotFound(id)) && store.rows == old(store.rows)
      ensures id in old(store.rows) ==>
        store.rows == old(store.rows)[id := UpdatedRow(old(store.rows)[id], dto)] &&
        r == Ok(RowDto(id, store.rows[id]))
    {
      var found := store.FindById(id);
      if found.None? {
        return Err(NotFound(id));
      }
      var fish := found.value;
      if Truthy(dto.name) {
        fish.UpdateName(dto.name.value, now);
      }
      if Truthy(dto.species) {
        fish.UpdateSpecies(dto.species.value, now);
      }
      var updated := store.Update(id, fish.name, fish.species);
      r := Ok(FromEntity(updated.value));
    }

    /** `delete`: not-found removes nothing; otherwise exactly that row is removed. */
    method Delete(id: int) returns (r: Result<(), ServiceError>)
      modifies store
      ensures id !in old(store.rows) ==> r == Err(NotFound(id)) && store.rows == old(store.rows)
      ensures id in old(store.rows) ==> r == Ok(()) && store.rows == old(store.rows) - {id}
    {
      var found := store.FindById(id);
      if found.None? {
        return Err(NotFound(id));
      }
      var deleted := store.Delete(id);
      r := Ok(());
    }
  }
}
