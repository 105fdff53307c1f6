/** The fish-species repository (fish-species.repository.ts) over an in-memory species table:
    a map from id to row and the next id the auto-increment hands out. `name_en` is a
    unique column (the repository looks species up by it with `findUnique`), so a write that
    would give two rows the same English name is refused. Reads build fresh FishSpecies
    entities (`toDomain`); the row's timestamp columns are read under the names `create_at`
    and `update_at`. The species table is assumed to have no columns of those names (its
    schema is not part of this model), so every entity read back is stamped with the time
    of the read, and the row carries no timestamp columns here. */
module FishSpeciesRepositories {
  import opened Wrappers
  import opened Enums
  import opened BaseEntities
  import opened FishSpeciesEntity

  /** A row of the species table. The nullable columns are the `Option`s; `aliases` is null
      when `save` left it out. */
  datatype SpeciesRow = SpeciesRow(
    nameEn: string, nameVn: string, scientificName: Option<string>,
    aliases: Option<seq<string>>, imageUrl: Option<string>,
    tempMin: real, tempMax: real, phMin: real, phMax: real,
    ghMin: Option<real>, ghMax: Option<real>,
    minTankSize: real, sizeMax: real, bioloadLevel: real, flowPreference: FlowPreference,
    careLevel: CareLevel, temperament: Temperament, dietType: DietType,
    isSchooling: bool, minSchoolSize: real, plantSafe: bool, substrateDigger: bool,
    jumper: bool, description: string)

  /** What the database raises: a missing row on `update`/`delete`, or a second row with an
      English name already in use. */
  datatype RepositoryError = RecordNotFound(id: int) | NameInUse(nameEn: string)

  // ----- toDomain -----

  /** The observable state of a FishSpecies entity. */
  datatype SpeciesView = SpeciesView(
    id: int, identity: Identity, water: WaterParameters, requirements: TankRequirements,
    behavior: Behavior, description: string, createdAt: Time, updatedAt: Time)

  function View(s: FishSpecies): SpeciesView
    reads s, s.base
  {
    SpeciesView(s.base.id, s.identity, s.water, s.requirements, s.behavior, s.description,
                s.base.createdAt, s.base.updatedAt)
  }

  /** The entity `toDomain` builds at time `now` from the row with id `id`: a null alias
      list reads as empty, and both timestamps are `now`. */
  function RowView(id: int, row: SpeciesRow, now: Time): SpeciesView {
    SpeciesView(
      id,
      Identity(row.nameEn, row.nameVn, row.scientificName, row.aliases.GetOr([]), row.imageUrl),
      WaterParameters(row.tempMin, row.tempMax, row.phMin, row.phMax, row.ghMin, row.ghMax),
      TankRequirements(row.minTankSize, row.sizeMax, row.bioloadLevel, row.flowPreference),
      Behavior(row.careLevel, row.temperament, row.dietType, row.isSchooling,
               row.minSchoolSize, row.plantSafe, row.substrateDigger, row.jumper),
      row.description, now, now)
  }

  /** A row without aliases reads back with an empty list, and a row with aliases reads
      back with exactly those. */
  lemma MissingAliasesReadAsEmpty(id: int, row: SpeciesRow, now: Time)
    ensures row.aliases.None? ==> RowView(id, row, now).identity.aliases == []
    ensures row.aliases.Some? ==> RowView(id, row, now).identity.aliases == row.aliases.value
  {
  }

  /** The stored creation time is never read back: the same row read at two different
      times gives two different creation times. */
  lemma CreatedAtIsReadTime(id: int, row: SpeciesRow, now1: Time, now2: Time)
    requires now1 != now2
    ensures RowView(id, row, now1).createdAt != RowView(id, row, now2).createdAt
    ensures RowView(id, row, now1).(createdAt := now2, updatedAt := now2) == RowView(id, row, now2)
  {
  }

  // ----- save -----

  /** The row `save` writes for an entity: the optional text and hardness columns only when
      the entity has a value, and the aliases only when there is at least one. */
  function SavedRow(identity: Identity, water: WaterParameters, requirements: TankRequirements,
                    behavior: Behavior, description: string): SpeciesRow
  {
    SpeciesRow(
      identity.nameEn, identity.nameVn, identity.scientificName,
      if |identity.aliases| > 0 then Some(identity.aliases) else None,
      identity.imageUrl,
      water.tempMin, water.tempMax, water.phMin, water.phMax, water.ghMin, water.ghMax,
      requirements.minTankSize, requirements.sizeMax, requirements.bioloadLevel,
      requirements.flowPreference,
      behavior.careLevel, behavior.temperament, behavior.dietType, behavior.isSchooling,
      behavior.minSchoolSize, behavior.plantSafe, behavior.substrateDigger, behavior.jumper,
      description)
  }

  /** Saving an entity and reading the row back gives the entity's own fields (an empty
      alias list, left out by `save`, reads back as empty); only the timestamps become the
      time of the read. */
  lemma SaveRoundTrip(id: int, identity: Identity, water: WaterParameters,
                      requirements: TankRequirements, behavior: Behavior, description: string,
                      now: Time)
    ensures RowView(id, SavedRow(identity, water, requirements, behavior, description), now)
         == SpeciesView(id, identity, water, requirements, behavior, description, now, now)
  {
    var row := SavedRow(identity, water, requirements, behavior, description);
    if |identity.aliases| == 0 {
      assert row.aliases.GetOr([]) == identity.aliases;
    }
  }

  /** An empty alias list is not written, so the column stays null. */
  lemma EmptyAliasesNotWritten(identity: Identity, water: WaterParameters,
                               requirements: TankRequirements, behavior: Behavior,
                               description: string)
    ensures identity.aliases == [] <==>
      SavedRow(identity, water, requirements, behavior, description).aliases.None?
  {
  }

  // ----- update -----

  /** The data `update` is given: each column has a value or is left out. */
  datatype SpeciesPatch = SpeciesPatch(
    nameEn: Option<string>, nameVn: Option<string>, scientificName: Option<string>,
    aliases: Option<seq<string>>, imageUrl: Option<string>,
    tempMin: Option<real>, tempMax: Option<real>, phMin: Option<real>, phMax: Option<real>,
    ghMin: Option<real>, ghMax: Option<real>,
    minTankSize: Option<real>, sizeMax: Option<real>, bioloadLevel: Option<real>,
    flowPreference: Option<FlowPreference>,
    careLevel: Option<CareLevel>, temperament: Option<Temperament>, dietType: Option<DietType>,
    isSchooling: Option<bool>, minSchoolSize: Option<real>, plantSafe: Option<bool>,
    substrateDigger: Option<bool>, jumper: Option<bool>, description: Option<string>)

  const EmptyPatch := SpeciesPatch(None, None, None, None, None, None, None, None, None, None,
                                   None, None, None, None, None, None, None, None, None, None,
                                   None, None, None, None)

  /** The row after `update`: every column the patch has a value for is written (an alias
      list even when it is empty), every other column is kept. */
  function Patched(row: SpeciesRow, p: SpeciesPatch): SpeciesRow {
    SpeciesRow(
      p.nameEn.GetOr(row.nameEn), p.nameVn.GetOr(row.nameVn),
      p.scientificName.OrElse(row.scientificName), p.aliases.OrElse(row.aliases),
      p.imageUrl.OrElse(row.imageUrl),
      p.tempMin.GetOr(row.tempMin), p.tempMax.GetOr(row.tempMax),
      p.phMin.GetOr(row.phMin), p.phMax.GetOr(row.phMax),
      p.ghMin.OrElse(row.ghMin), p.ghMax.OrElse(row.ghMax),
      p.minTankSize.GetOr(row.minTankSize), p.sizeMax.GetOr(row.sizeMax),
      p.bioloadLevel.GetOr(row.bioloadLevel), p.flowPreference.GetOr(row.flowPreference),
      p.careLevel.GetOr(row.careLevel), p.temperament.GetOr(row.temperament),
      p.dietType.GetOr(row.dietType), p.isSchooling.GetOr(row.isSchooling),
      p.minSchoolSize.GetOr(row.minSchoolSize), p.plantSafe.GetOr(row.plantSafe),
      p.substrateDigger.GetOr(row.substrateDigger), p.jumper.GetOr(row.jumper),
      p.description.GetOr(row.description))
  }

  /** An empty patch writes nothing, a patch applied twice writes what it wrote once, no
      patch clears a nullable column, and an empty alias list is written as given. */
  lemma PatchedLaws(row: SpeciesRow, p: SpeciesPatch)
    ensures Patched(row, EmptyPatch) == row
    ensures Patched(Patched(row, p), p) == Patched(row, p)
    ensures row.scientificName.Some? ==> Patched(row, p).scientificName.Some?
    ensures row.ghMin.Some? ==> Patched(row, p).ghMin.Some?
    ensures p.aliases == Some([]) ==> Patched(row, p).aliases == Some([])
  {
  }

  /** Only the water columns decide compatibility, so a patch that leaves the four range
      columns out does not change whether the row is compatible with a query. */
  lemma PatchKeepsCompatibility(row: SpeciesRow, p: SpeciesPatch, q: WaterQuery)
    requires p.tempMin.None? && p.tempMax.None? && p.phMin.None? && p.phMax.None?
    ensures Compatible(Patched(row, p), q) <==> Compatible(row, q)
  {
  }

  // ----- the rows the finds select -----

  /** The water ranges `findCompatibleSpecies` is asked about. */
  datatype WaterQuery = WaterQuery(tempMin: real, tempMax: real, phMin: real, phMax: real)

  /** The `where` clause of `findCompatibleSpecies`. */
  predicate Compatible(row: SpeciesRow, q: WaterQuery) {
    row.tempMin <= q.tempMax && row.tempMax >= q.tempMin &&
    row.phMin <= q.phMax && row.phMax >= q.phMin
  }

  /** `x` lies in the closed interval from `lo` to `hi`. */
  predicate Within(x: real, lo: real, hi: real) {
    lo <= x <= hi
  }

  /** Two closed intervals share a point. */
  ghost predicate Overlap(lo1: real, hi1: real, lo2: real, hi2: real) {
    exists x :: Within(x, lo1, hi1) && Within(x, lo2, hi2)
  }

  /** For ranges whose minimum is at most their maximum, the end-point comparisons say
      exactly that the intervals share a point. */
  lemma EndpointsDecideOverlap(lo1: real, hi1: real, lo2: real, hi2: real)
    requires lo1 <= hi1 && lo2 <= hi2
    ensures (lo1 <= hi2 && hi1 >= lo2) <==> Overlap(lo1, hi1, lo2, hi2)
  {
    if lo1 <= hi2 && hi1 >= lo2 {
      var x := if lo1 <= lo2 then lo2 else lo1;
      assert Within(x, lo1, hi1) && Within(x, lo2, hi2);
    }
  }

  /** For well-formed ranges, a row is compatible exactly when its temperature range meets
      the query's and its pH range meets the query's. */
  lemma CompatibleIffOverlap(row: SpeciesRow, q: WaterQuery)
    requires row.tempMin <= row.tempMax && row.phMin <= row.phMax
    requires q.tempMin <= q.tempMax && q.phMin <= q.phMax
    ensures Compatible(row, q) <==>
      Overlap(row.tempMin, row.tempMax, q.tempMin, q.tempMax) &&
      Overlap(row.phMin, row.phMax, q.phMin, q.phMax)
  {
    EndpointsDecideOverlap(row.tempMin, row.tempMax, q.tempMin, q.tempMax);
    EndpointsDecideOverlap(row.phMin, row.phMax, q.phMin, q.phMax);
  }

  /** The hardness columns play no part in compatibility. */
  lemma HardnessIgnored(row: SpeciesRow, q: WaterQuery, ghMin: Option<real>, ghMax: Option<real>)
    ensures Compatible(row.(ghMin := ghMin, ghMax := ghMax), q) <==> Compatible(row, q)
  {
  }

  /** A row with an inverted temperature range (20 to 30 stored as 30 to 20) contains no
      temperature at all, yet it is still selected for a query that spans it. */
  lemma InvertedRangeSelected(row: SpeciesRow)
    requires row.tempMin == 30.0 && row.tempMax == 20.0 && row.phMin == 6.0 && row.phMax == 8.0
    ensures Compatible(row, WaterQuery(10.0, 40.0, 5.0, 9.0))
    ensures !Overlap(row.tempMin, row.tempMax, 10.0, 40.0)
  {
  }

  /** The filters the repository's finds use. Care level and temperament are compared with
      the stored enumeration strings. */
  datatype Filter =
    | ByNameEn(nameEn: string)
    | ByCareLevel(careLevel: string)
    | ByTemperament(temperament: string)
    | CompatibleWith(q: WaterQuery)

  predicate Keeps(f: Filter, row: SpeciesRow) {
    match f
    case ByNameEn(nameEn) => row.nameEn == nameEn
    case ByCareLevel(careLevel) => CareLevelName(row.careLevel) == careLevel
    case ByTemperament(temperament) => TemperamentName(row.temperament) == temperament
    case CompatibleWith(q) => Compatible(row, q)
  }

  /** The ids of the rows a filter keeps. */
  function Selected(rows: map<int, SpeciesRow>, f: Filter): (ids: set<int>)
    ensures forall k :: k in ids <==> k in rows && Keeps(f, rows[k])
  {
    set k | k in rows && Keeps(f, rows[k])
  }

  /** Filtering by a care level's name keeps exactly the rows with that care level, and
      a name that is not one of the enumeration's strings (such as "easy") keeps none. */
  lemma CareLevelFilter(c: CareLevel, s: string, row: SpeciesRow)
    ensures Keeps(ByCareLevel(CareLevelName(c)), row) <==> row.careLevel == c
    ensures s !in CareLevelNames ==> !Keeps(ByCareLevel(s), row)
  {
    NamesIdentifyMembers(c, row.careLevel, Peaceful, Peaceful, Herbivore, Herbivore, Slow, Slow);
    NamesIdentifyMembers(row.careLevel, row.careLevel, Peaceful, Peaceful, Herbivore, Herbivore, Slow, Slow);
  }

  /** Filtering by a temperament's name keeps exactly the rows with that temperament. */
  lemma TemperamentFilter(t: Temperament, s: string, row: SpeciesRow)
    ensures Keeps(ByTemperament(TemperamentName(t)), row) <==> row.temperament == t
    ensures s !in TemperamentNames ==> !Keeps(ByTemperament(s), row)
  {
    NamesIdentifyMembers(Easy, Easy, t, row.temperament, Herbivore, Herbivore, Slow, Slow);
    NamesIdentifyMembers(Easy, Easy, row.temperament, row.temperament, Herbivore, Herbivore, Slow, Slow);
  }

  /** No two rows share an English name. */
  predicate NamesUnique(rows: map<int, SpeciesRow>) {
    forall a, b :: a in rows && b in rows && rows[a].nameEn == rows[b].nameEn ==> a == b
  }

  /** With unique names, a name selects at most one row. */
  lemma NameSelectsOne(rows: map<int, SpeciesRow>, nameEn: string, a: int, b: int)
    requires NamesUnique(rows)
    requires a in Selected(rows, ByNameEn(nameEn)) && b in Selected(rows, ByNameEn(nameEn))
    ensures a == b
  {
  }

  class FishSpeciesRepository {
    var rows: map<int, SpeciesRow>
    /** The id the table's auto-increment hands out next. */
    var nextId: int

    /** Every id in use was handed out before `nextId`, and English names are unique. */
    predicate Valid()
      reads this
    {
      nextId >= 1 && (forall k :: k in rows ==> 1 <= k < nextId) && NamesUnique(rows)
    }

    constructor ()
      ensures Valid() && rows == map[] && nextId == 1
    {
      rows := map[];
      nextId := 1;
    }

    /** `toDomain`: a fresh entity holding the row's values, built at time `now`. */
    static method ToDomain(id: int, row: SpeciesRow, now: Time) returns (s: FishSpecies)
      ensures fresh(s) && fresh(s.base)
      ensures View(s) == RowView(id, row, now)
    {
      s := new FishSpecies(
        id, row.nameEn, row.nameVn, row.tempMin, row.tempMax, row.phMin, row.phMax,
        row.minTankSize, row.sizeMax, row.careLevel, row.temperament, row.dietType,
        row.description, row.scientificName, row.aliases, row.imageUrl, row.ghMin, row.ghMax,
        Some(row.bioloadLevel), Some(row.flowPreference), Some(row.isSchooling),
        Some(row.minSchoolSize), Some(row.plantSafe), Some(row.substrateDigger),
        Some(row.jumper), None, None, now);
    }

    /** `findById`: the entity for the row with that id, or nothing. */
    method FindById(id: int, now: Time) returns (s: Option<FishSpecies>)
      ensures s.None? <==> id !in rows
      ensures s.Some? ==> fresh(s.value) && fresh(s.value.base)
      ensures s.Some? ==> View(s.value) == RowView(id, rows[id], now)
    {
      if id in rows {
        var species := ToDomain(id, rows[id], now);
        s := Some(species);
      } else {
        s := None;
      }
    }

    /** The ids of the rows a filter keeps, in increasing order. */
    method SelectedIds(f: Filter) returns (ids: seq<int>)
      requires Valid()
      ensures forall i :: 0 <= i < |ids| ==> ids[i] in Selected(rows, f)
      ensures forall i, j :: 0 <= i < j < |ids| ==> ids[i] < ids[j]
      ensures forall k :: k in Selected(rows, f) ==> k in ids
    {
      ids := [];
      var k := 1;
      while k < nextId
        invariant 1 <= k <= nextId
        invariant forall i, j :: 0 <= i < j < |ids| ==> ids[i] < ids[j]
        invariant forall i :: 0 <= i < |ids| ==> ids[i] < k
        invariant forall j :: j in ids <==> j in Selected(rows, f) && j < k
      {
        if k in rows && Keeps(f, rows[k]) {
          ids := ids + [k];
        }
        k := k + 1;
      }
    }

    /** `toDomain` over a list of rows: one fresh entity per id, in the same order. */
    static method ToDomainAll(ids: seq<int>, rows: map<int, SpeciesRow>, now: Time)
      returns (found: seq<FishSpecies>)
      requires forall i :: 0 <= i < |ids| ==> ids[i] in rows
      ensures |found| == |ids|
      ensures forall i :: 0 <= i < |found| ==> fresh(found[i]) && fresh(found[i].base)
      ensures forall i :: 0 <= i < |found| ==> View(found[i]) == RowView(ids[i], rows[ids[i]], now)
    {
      found := [];
      for n := 0 to |ids|
        invariant |found| == n
        invariant forall i :: 0 <= i < n ==> fresh(found[i]) && fresh(found[i].base)
        invariant forall i :: 0 <= i < n ==> View(found[i]) == RowView(ids[i], rows[ids[i]], now)
      {
        var s := ToDomain(ids[n], rows[ids[n]], now);
        found := found + [s];
      }
    }

    /** `findMany` with a filter: one fresh entity for each row the filter keeps, and no
        other. The table promises no order; this one lists them by increasing id. */
    method FindWhere(f: Filter, now: Time) returns (found: seq<FishSpecies>)
      requires Valid()
      ensures forall i :: 0 <= i < |found| ==> fresh(found[i]) && fresh(found[i].base)
      ensures forall i :: 0 <= i < |found| ==>
        found[i].base.id in Selected(rows, f) &&
        View(found[i]) == RowView(found[i].base.id, rows[found[i].base.id], now)
      ensures forall i, j :: 0 <= i < j < |found| ==> found[i].base.id < found[j].base.id
      ensures forall k :: k in Selected(rows, f) ==>
        exists i :: 0 <= i < |found| && found[i].base.id == k
    {
      var ids := SelectedIds(f);
      found := ToDomainAll(ids, rows, now);
      assert forall i :: 0 <= i < |found| ==> found[i].base.id == ids[i];
      forall k | k in Selected(rows, f)
        ensures exists i :: 0 <= i < |found| && found[i].base.id == k
      {
        var i :| 0 <= i < |ids| && ids[i] == k;
        assert found[i].base.id == k;
      }
    }

    /** `findByNameEn`: the one row with that English name, or nothing. */
    method FindByNameEn(nameEn: string, now: Time) returns (s: Option<FishSpecies>)
      requires Valid()
      ensures s.None? <==> Selected(rows, ByNameEn(nameEn)) == {}
      ensures s.Some? ==> fresh(s.value) && fresh(s.value.base)
      ensures s.Some? ==> s.value.base.id in rows && rows[s.value.base.id].nameEn == nameEn
      ensures s.Some? ==> View(s.value) == RowView(s.value.base.id, rows[s.value.base.id], now)
    {
      var found := FindWhere(ByNameEn(nameEn), now);
      if |found| == 0 {
        s := None;
        assert forall k :: k !in Selected(rows, ByNameEn(nameEn));
      } else {
        s := Some(found[0]);
        assert found[0].base.id in Selected(rows, ByNameEn(nameEn));
      }
    }

    /** `findByCareLevel`: the rows whose stored care level is that string. */
    method FindByCareLevel(careLevel: string, now: Time) returns (found: seq<FishSpecies>)
      requires Valid()
      ensures forall i :: 0 <= i < |found| ==> fresh(found[i]) && fresh(found[i].base)
      ensures forall i :: 0 <= i < |found| ==>
        found[i].base.id in Selected(rows, ByCareLevel(careLevel)) &&
        View(found[i]) == RowView(found[i].base.id, rows[found[i].base.id], now)
      ensures forall k :: k in Selected(rows, ByCareLevel(careLevel)) ==>
        exists i :: 0 <= i < |found| && found[i].base.id == k
    {
      found := FindWhere(ByCareLevel(careLevel), now);
    }

    /** `findByTemperament`: the rows whose stored temperament is that string. */
    method FindByTemperament(temperament: string, now: Time) returns (found: seq<FishSpecies>)
      requires Valid()
      ensures forall i :: 0 <= i < |found| ==> fresh(found[i]) && fresh(found[i].base)
      ensures forall i :: 0 <= i < |found| ==>
        found[i].base.id in Selected(rows, ByTemperament(temperament)) &&
        View(found[i]) == RowView(found[i].base.id, rows[found[i].base.id], now)
      ensures forall k :: k in Selected(rows, ByTemperament(temperament)) ==>
        exists i :: 0 <= i < |found| && found[i].base.id == k
    {
      found := FindWhere(ByTemperament(temperament), now);
    }

    /** `findCompatibleSpecies`: the rows whose temperature and pH ranges pass the
        end-point comparisons against the query. */
    method FindCompatibleSpecies(q: WaterQuery, now: Time) returns (found: seq<FishSpecies>)
      requires Valid()
      ensures forall i :: 0 <= i < |found| ==> fresh(found[i]) && fresh(found[i].base)
      ensures forall i :: 0 <= i < |found| ==>
        found[i].base.id in Selected(rows, CompatibleWith(q)) &&
        View(found[i]) == RowView(found[i].base.id, rows[found[i].base.id], now)
      ensures forall k :: k in Selected(rows, CompatibleWith(q)) ==>
        exists i :: 0 <= i < |found| && found[i].base.id == k
    {
      found := FindWhere(CompatibleWith(q), now);
    }

    /** `save`: a new row under the next id holding the entity's fields as `SavedRow`
        writes them, read back at time `now`; an English name already in use is refused
        and nothing is written. */
    method Save(s: FishSpecies, now: Time) returns (r: Result<FishSpecies, RepositoryError>)
      requires Valid()
      modifies this
      ensures Valid()
      ensures Selected(old(rows), ByNameEn(s.identity.nameEn)) != {} ==>
        r == Err(NameInUse(s.identity.nameEn)) && rows == old(rows) && nextId == old(nextId)
      ensures Selected(old(rows), ByNameEn(s.identity.nameEn)) == {} ==>
        nextId == old(nextId) + 1 &&
        rows == old(rows)[old(nextId) := SavedRow(s.identity, s.water, s.requirements,
                                                  s.behavior, s.description)]
      ensures Selected(old(rows), ByNameEn(s.identity.nameEn)) == {} ==>
        r.Ok? && fresh(r.value) && fresh(r.value.base) &&
        View(r.value) == RowView(old(nextId), rows[old(nextId)], now)
    {
      if Selected(rows, ByNameEn(s.identity.nameEn)) != {} {
        return Err(NameInUse(s.identity.nameEn));
      }
      var id := nextId;
      var row := SavedRow(s.identity, s.water, s.requirements, s.behavior, s.description);
      rows := rows[id := row];
      nextId := nextId + 1;
      var saved := ToDomain(id, row, now);
      r := Ok(saved);
    }

    /** `update`: writes the patch into the row with that id and reads it back; a missing
        row, or a new English name another row already has, is an error and nothing is
        written. */
    method Update(id: int, p: SpeciesPatch, now: Time) returns (r: Result<FishSpecies, RepositoryError>)
      requires Valid()
      modifies this
      ensures Valid() && nextId == old(nextId)
      ensures id !in old(rows) ==> r == Err(RecordNotFound(id)) && rows == old(rows)
      ensures id in old(rows) && p.nameEn.Some? &&
              Selected(old(rows), ByNameEn(p.nameEn.value)) - {id} != {} ==>
        r == Err(NameInUse(p.nameEn.value)) && rows == old(rows)
      ensures r.Ok? <==>
        id in old(rows) &&
        (p.nameEn.None? || Selected(old(rows), ByNameEn(p.nameEn.value)) - {id} == {})
      ensures r.Ok? ==> rows == old(rows)[id := Patched(old(rows)[id], p)]
      ensures r.Ok? ==> fresh(r.value) && fresh(r.value.base)
      ensures r.Ok? ==> View(r.value) == RowView(id, rows[id], now)
    {
      if id !in rows {
        return Err(RecordNotFound(id));
      }
      if p.nameEn.Some? && Selected(rows, ByNameEn(p.nameEn.value)) - {id} != {} {
        return Err(NameInUse(p.nameEn.value));
      }
      var row := Patched(rows[id], p);
      forall k | k in rows && k != id ensures rows[k].nameEn != row.nameEn {
        if p.nameEn.Some? {
          assert k !in Selected(rows, ByNameEn(p.nameEn.value)) - {id};
        }
      }
      rows := rows[id := row];
      var s := ToDomain(id, row, now);
      r := Ok(s);
    }

    /** `delete`: removes the row with that id and no other; a missing row is an error
        and nothing is removed. */
    method Delete(id: int) returns (r: Result<(), RepositoryError>)
      requires Valid()
      modifies this
      ensures Valid() && nextId == old(nextId)
      ensures id !in old(rows) ==> r == Err(RecordNotFound(id)) && rows == old(rows)
      ensures id in old(rows) ==> r == Ok(()) && rows == old(rows) - {id}
    {
      if id !in rows {
        return Err(RecordNotFound(id));
      }
      rows := rows - {id};
      r := Ok(());
    }
  }
}
