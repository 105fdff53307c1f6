/** The tank repository (tank.repository.ts) over an in-memory tank table: a map from id
    to row, with the next id the table's auto-increment will hand out. Each read builds
    fresh Tank entities from rows (`toDomain`); `update` writes only the fields it is given
    a value for, so an absent owner is never written and never cleared. */
module TankRepositories {
  import opened Wrappers
  import opened BaseEntities
  import opened TankEntity

  /** A row of the tank table; `userId` is the nullable `user_id` column. */
  datatype TankRow = TankRow(
    name: string, width: real, height: real, length: real, userId: Option<int>,
    createdAt: Time, updatedAt: Time)

  /** What the database raises when `update` or `delete` names a missing row. */
  datatype RepositoryError = RecordNotFound(id: int)

  // ----- toDomain -----

  /** `user_id ? Number(user_id) : undefined`: a null or zero column means "no owner". */
  function OwnerOf(column: Option<int>): (owner: Option<int>)
    ensures owner.Some? <==> column.Some? && column.value != 0
    ensures owner.Some? ==> owner == column
  {
    if column.Some? && column.value != 0 then column else None
  }

  /** The observable state of a Tank entity. */
  datatype TankView = TankView(
    id: int, name: string, width: real, height: real, length: real, userId: Option<int>,
    createdAt: Time, updatedAt: Time)

  function View(t: Tank): TankView
    reads t, t.base
  {
    TankView(t.base.id, t.name, t.width, t.height, t.length, t.userId,
             t.base.createdAt, t.base.updatedAt)
  }

  /** The entity `toDomain` builds from the row with id `id`. */
  function RowView(id: int, row: TankRow): (v: TankView)
    ensures v.id == id && v.name == row.name
    ensures v.width == row.width && v.height == row.height && v.length == row.length
    ensures v.userId == OwnerOf(row.userId)
    ensures v.createdAt == row.createdAt && v.updatedAt == row.updatedAt
  {
    TankView(id, row.name, row.width, row.height, row.length, OwnerOf(row.userId),
             row.createdAt, row.updatedAt)
  }

  /** A row owned by user 0 reads back as unowned, and a row read back as owned keeps its
      owner. */
  lemma ZeroOwnerReadsAsNone(id: int, row: TankRow)
    ensures row.userId == Some(0) ==> RowView(id, row).userId == None
    ensures RowView(id, row).userId.Some? ==> RowView(id, row).userId == row.userId
  {
  }

  // ----- update -----

  /** The data `update` is given: each column has a value or is left out. */
  datatype TankPatch = TankPatch(
    name: Option<string>, width: Option<real>, height: Option<real>, length: Option<real>,
    userId: Option<int>)

  const EmptyPatch := TankPatch(None, None, None, None, None)

  /** The row after `update`: every column the patch has a value for is written, every
      other column is kept. */
  function Patched(row: TankRow, p: TankPatch): TankRow {
    row.(name := p.name.GetOr(row.name), width := p.width.GetOr(row.width),
         height := p.height.GetOr(row.height), length := p.length.GetOr(row.length),
         userId := if p.userId.Some? then p.userId else row.userId)
  }

  /** What the entity passed to `update` supplies: its name and dimensions are always
      defined, its owner only when it has one. */
  function PatchOf(t: Tank): (p: TankPatch)
    reads t
    ensures p.name == Some(t.name) && p.userId == t.userId
    ensures p.width == Some(t.width) && p.height == Some(t.height) && p.length == Some(t.length)
  {
    TankPatch(Some(t.name), Some(t.width), Some(t.height), Some(t.length), t.userId)
  }

  /** An empty patch writes nothing, a patch applied twice writes what it wrote once, and
      a column the patch leaves out keeps its value. */
  lemma PatchedLaws(row: TankRow, p: TankPatch)
    ensures Patched(row, EmptyPatch) == row
    ensures Patched(Patched(row, p), p) == Patched(row, p)
    ensures p.name.None? ==> Patched(row, p).name == row.name
    ensures p.userId.None? ==> Patched(row, p).userId == row.userId
    ensures Patched(row, p).createdAt == row.createdAt && Patched(row, p).updatedAt == row.updatedAt
  {
  }

  /** No patch clears an owner: a row that has one keeps one. */
  lemma OwnerNeverCleared(row: TankRow, p: TankPatch)
    requires row.userId.Some?
    ensures Patched(row, p).userId.Some?
  {
  }

  /** Writing back an entity read from a row, with its owner removed, leaves the row as it
      was: the owner is not written and every other column gets its own value back. */
  lemma RemovedOwnerNotPersisted(id: int, row: TankRow, v: TankView)
    requires v == RowView(id, row).(userId := None)
    ensures Patched(row, TankPatch(Some(v.name), Some(v.width), Some(v.height), Some(v.length), v.userId)) == row
  {
  }

  // ----- the rows `findByUserId` selects -----

  /** The ids of the rows whose `user_id` column equals `userId`. */
  function OwnedBy(rows: map<int, TankRow>, userId: int): (ids: set<int>)
    ensures forall k :: k in ids <==> k in rows && rows[k].userId == Some(userId)
  {
    set k | k in rows && rows[k].userId == Some(userId)
  }

  class TankRepository {
    var rows: map<int, TankRow>
    /** The id the table's auto-increment hands out next. */
    var nextId: int

    /** Every id in use was handed out before `nextId`. */
    predicate Valid()
      reads this
    {
      nextId >= 1 && forall k :: k in rows ==> 1 <= k < nextId
    }

    constructor ()
      ensures Valid() && rows == map[] && nextId == 1
    {
      rows := map[];
      nextId := 1;
    }

    /** `toDomain`: a fresh entity holding the row's values, its owner as `OwnerOf` reads
        it. The row's timestamps are always present, so the clock is not consulted. */
    static method ToDomain(id: int, row: TankRow) returns (t: Tank)
      ensures fresh(t) && fresh(t.base)
      ensures View(t) == RowView(id, row)
    {
      t := new Tank(id, row.name, row.width, row.height, row.length, OwnerOf(row.userId),
                    Some(row.createdAt), Some(row.updatedAt), row.updatedAt);
    }

    /** `findById`: the entity for the row with that id, or nothing. */
    method FindById(id: int) returns (t: Option<Tank>)
      ensures t.None? <==> id !in rows
      ensures t.Some? ==> fresh(t.value) && fresh(t.value.base) && View(t.value) == RowView(id, rows[id])
    {
      if id in rows {
        var tank := ToDomain(id, rows[id]);
        t := Some(tank);
      } else {
        t := None;
      }
    }

    /** The ids of the rows owned by `userId`, in increasing order. */
    method OwnedIds(userId: int) returns (ids: seq<int>)
      requires Valid()
      ensures forall i :: 0 <= i < |ids| ==> ids[i] in OwnedBy(rows, userId)
      ensures forall i, j :: 0 <= i < j < |ids| ==> ids[i] < ids[j]
      ensures forall k :: k in OwnedBy(rows, userId) ==> k in ids
    {
      ids := [];
      var k := 1;
      while k < nextId
        invariant 1 <= k <= nextId
        invariant forall i, j :: 0 <= i < j < |ids| ==> ids[i] < ids[j]
        invariant forall i :: 0 <= i < |ids| ==> ids[i] < k
        invariant forall j :: j in ids <==> j in OwnedBy(rows, userId) && j < k
      {
        if k in rows && rows[k].userId == Some(userId) {
          ids := ids + [k];
        }
        k := k + 1;
      }
    }

    /** `toDomain` over a list of rows: one fresh entity per id, in the same order. */
    static method ToDomainAll(ids: seq<int>, rows: map<int, TankRow>) returns (tanks: seq<Tank>)
      requires forall i :: 0 <= i < |ids| ==> ids[i] in rows
      ensures |tanks| == |ids|
      ensures forall i :: 0 <= i < |tanks| ==> fresh(tanks[i]) && fresh(tanks[i].base)
      ensures forall i :: 0 <= i < |tanks| ==> View(tanks[i]) == RowView(ids[i], rows[ids[i]])
    {
      tanks := [];
      for n := 0 to |ids|
        invariant |tanks| == n
        invariant forall i :: 0 <= i < n ==> fresh(tanks[i]) && fresh(tanks[i].base)
        invariant forall i :: 0 <= i < n ==> View(tanks[i]) == RowView(ids[i], rows[ids[i]])
      {
        var t := ToDomain(ids[n], rows[ids[n]]);
        tanks := tanks + [t];
      }
    }

    /** `findByUserId`: one fresh entity for each row whose `user_id` equals `userId`, and
        no other. The table promises no order; this one lists them by increasing id. */
    method FindByUserId(userId: int) returns (tanks: seq<Tank>)
      requires Valid()
      ensures forall i :: 0 <= i < |tanks| ==> fresh(tanks[i]) && fresh(tanks[i].base)
      ensures forall i :: 0 <= i < |tanks| ==>
        tanks[i].base.id in OwnedBy(rows, userId) &&
        View(tanks[i]) == RowView(tanks[i].base.id, rows[tanks[i].base.id])
      ensures forall i, j :: 0 <= i < j < |tanks| ==> tanks[i].base.id < tanks[j].base.id
      ensures forall k :: k in OwnedBy(rows, userId) ==>
        exists i :: 0 <= i < |tanks| && tanks[i].base.id == k
    {
      var ids := OwnedIds(userId);
      tanks := ToDomainAll(ids, rows);
      assert forall i :: 0 <= i < |tanks| ==> tanks[i].base.id == ids[i];
      forall k | k in OwnedBy(rows, userId)
        ensures exists i :: 0 <= i < |tanks| && tanks[i].base.id == k
      {
        var i :| 0 <= i < |ids| && ids[i] == k;
        assert tanks[i].base.id == k;
      }
    }

    /** `save`: a new row under the next id with the entity's name and dimensions, its
        owner when it has one, and the current time; the result is read back from it. */
    method Save(t: Tank, now: Time) returns (saved: Tank)
      requires Valid()
      modifies this
      ensures Valid() && nextId == old(nextId) + 1 && old(nextId) !in old(rows)
      ensures rows == old(rows)[old(nextId) := TankRow(t.name, t.width, t.height, t.length,
                                                       t.userId, now, now)]
      ensures fresh(saved) && fresh(saved.base)
      ensures View(saved) == RowView(old(nextId), rows[old(nextId)])
    {
      var id := nextId;
      var row := TankRow(t.name, t.width, t.height, t.length, t.userId, now, now);
      rows := rows[id := row];
      nextId := nextId + 1;
      saved := ToDomain(id, row);
    }

    /** `update`: writes the patch into the row with that id and reads it back; a missing
        row is an error and nothing is written. */
    method Update(id: int, p: TankPatch) returns (r: Result<Tank, RepositoryError>)
      requires Valid()
      modifies this
      ensures Valid() && nextId == old(nextId)
      ensures id !in old(rows) ==> r == Err(RecordNotFound(id)) && rows == old(rows)
      ensures id in old(rows) ==> rows == old(rows)[id := Patched(old(rows)[id], p)]
      ensures id in old(rows) ==>
        r.Ok? && fresh(r.value) && fresh(r.value.base) && View(r.value) == RowView(id, rows[id])
    {
      if id !in rows {
        return Err(RecordNotFound(id));
      }
      var row := Patched(rows[id], p);
      rows := rows[id := row];
      var t := ToDomain(id, row);
      r := Ok(t);
    }

    /** `delete`: removes the row with that id and no other; a missing row is an error
        and nothing is removed. */
    method Delete(id: int) returns (r: Result<(), RepositoryError>)
      requires Valid()
      modifies this
      ensures Valid() && nextId == old(nextId)
      ensures id !in old(rows) ==> r == Err(RecordNotFound(id)) && rows == old(rows)
      ensures id in old(rows) ==> r == Ok(()) && rows == old(rows) - {id}
    {
      if id !in rows {
        return Err(RecordNotFound(id));
      }
      rows := rows - {id};
      r := Ok(());
    }
  }
}
