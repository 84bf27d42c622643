/**
 * The two TypeORM entities and the mapping between them and the
 * `VehicleMakeType` records of the transform: `syncData` builds one make
 * aggregate per record, and `getFormattedVehicleData` projects the stored
 * aggregates back to records.
 *
 * A `VehicleType` row's surrogate `id` is generated by the database on
 * insert; before that the entity has none.
 */
module Entities {
  import opened Wrappers
  import opened Records

  /** `vehicle_types`: surrogate id, the type's own id and name, and the owning make's id. */
  datatype TypeRow = TypeRow(id: Option<nat>, typeId: Option<TypeId>, typeName: Option<string>, makeId: MakeId)

  /** `vehicle_makes`: keyed by `makeId`, owning its type rows. */
  datatype MakeRow = MakeRow(makeId: MakeId, makeName: string, vehicleTypes: seq<TypeRow>)

  /** Every child row names its parent's `makeId`. */
  predicate Linked(m: MakeRow)
  {
    forall j :: 0 <= j < |m.vehicleTypes| ==> m.vehicleTypes[j].makeId == m.makeId
  }

  predicate AllLinked(ms: seq<MakeRow>)
  {
    forall k :: 0 <= k < |ms| ==> Linked(ms[k])
  }

  /**
   * Two aggregates that carry the same information as records: same make id
   * and name, and the same type ids and names in the same order. Surrogate ids
   * and the children's `makeId` may differ.
   */
  predicate SameContent(a: MakeRow, b: MakeRow)
  {
    a.makeId == b.makeId && a.makeName == b.makeName &&
    |a.vehicleTypes| == |b.vehicleTypes| &&
    forall j :: 0 <= j < |a.vehicleTypes| ==>
      a.vehicleTypes[j].typeId == b.vehicleTypes[j].typeId &&
      a.vehicleTypes[j].typeName == b.vehicleTypes[j].typeName
  }

  /** Pairwise `SameContent`, position by position. */
  predicate SameContents(xs: seq<MakeRow>, ys: seq<MakeRow>)
  {
    |xs| == |ys| && forall k :: 0 <= k < |xs| ==> SameContent(xs[k], ys[k])
  }

  /** A new `VehicleType` for one `{typeId, typeName}` of the record whose make id is `makeId`. */
  function BuildType(t: TypeEntry, makeId: MakeId): TypeRow
  {
    TypeRow(None, t.typeId, t.typeName, makeId)
  }

  /**
   * The `VehicleMake` that `syncData` builds from one record: id and name
   * copied, one new child per type in order, each child's `makeId` set to the
   * record's. Nothing has been inserted yet, so no child has a surrogate id.
   */
  function BuildAggregate(e: MakeEntry): (m: MakeRow)
    ensures Linked(m)
    ensures forall j :: 0 <= j < |m.vehicleTypes| ==> m.vehicleTypes[j].id.None?
    ensures |m.vehicleTypes| == |e.vehicleTypes|
  {
    MakeRow(e.makeId, e.makeName,
      seq(|e.vehicleTypes|, j requires 0 <= j < |e.vehicleTypes| => BuildType(e.vehicleTypes[j], e.makeId)))
  }

  /** One aggregate per record, in record order. */
  function Aggregates(t: seq<MakeEntry>): (r: seq<MakeRow>)
    ensures |r| == |t|
    ensures AllLinked(r)
    ensures forall k :: 0 <= k < |t| ==> r[k] == BuildAggregate(t[k])
  {
    seq(|t|, k requires 0 <= k < |t| => BuildAggregate(t[k]))
  }

  /** `{ typeId, typeName }` of a stored type row. */
  function ProjectType(row: TypeRow): TypeEntry
  {
    TypeEntry(row.typeId, row.typeName)
  }

  /** The record `getFormattedVehicleData` makes of one stored aggregate. */
  function ProjectMake(m: MakeRow): (e: MakeEntry)
    ensures |e.vehicleTypes| == |m.vehicleTypes|
  {
    MakeEntry(m.makeId, m.makeName,
      seq(|m.vehicleTypes|, j requires 0 <= j < |m.vehicleTypes| => ProjectType(m.vehicleTypes[j])))
  }

  /** `makes.map(...)`: one record per aggregate, in order. */
  function Project(ms: seq<MakeRow>): (r: seq<MakeEntry>)
    ensures |r| == |ms|
    ensures forall k :: 0 <= k < |ms| ==> r[k] == ProjectMake(ms[k])
  {
    seq(|ms|, k requires 0 <= k < |ms| => ProjectMake(ms[k]))
  }

  /** Inserting assigns the child rows consecutive surrogate ids from `next`. */
  function WithIds(m: MakeRow, next: nat): MakeRow
  {
    var ts := m.vehicleTypes;
    MakeRow(m.makeId, m.makeName,
      seq(|ts|, j requires 0 <= j < |ts| => ts[j].(id := Some(next + j))))
  }

  /**
   * Inserting changes nothing a record carries and keeps the children linked;
   * the children get the ids `next`, `next + 1`, ... in order.
   */
  lemma WithIdsKeepsContent(m: MakeRow, next: nat)
    ensures SameContent(m, WithIds(m, next))
    ensures Linked(m) ==> Linked(WithIds(m, next))
    ensures forall j :: 0 <= j < |m.vehicleTypes| ==> WithIds(m, next).vehicleTypes[j].id == Some(next + j)
  {
  }

  /** Building an aggregate and projecting it gives the record back. */
  lemma BuildThenProject(e: MakeEntry)
    ensures ProjectMake(BuildAggregate(e)) == e
  {
    var p := ProjectMake(BuildAggregate(e));
    assert p.vehicleTypes == e.vehicleTypes;
  }

  /**
   * Projection sees exactly the record content: two aggregates project to the
   * same record if and only if they have the same content.
   */
  lemma ProjectIffSameContent(a: MakeRow, b: MakeRow)
    ensures ProjectMake(a) == ProjectMake(b) <==> SameContent(a, b)
  {
    if ProjectMake(a) == ProjectMake(b) {
      forall j | 0 <= j < |a.vehicleTypes|
        ensures a.vehicleTypes[j].typeId == b.vehicleTypes[j].typeId
        ensures a.vehicleTypes[j].typeName == b.vehicleTypes[j].typeName
      {
        assert ProjectMake(a).vehicleTypes[j] == ProjectMake(b).vehicleTypes[j];
      }
    }
    if SameContent(a, b) {
      assert ProjectMake(a).vehicleTypes == ProjectMake(b).vehicleTypes;
    }
  }

  /** The same, for whole stores: projections agree exactly when contents agree position by position. */
  lemma ProjectIffSameContents(xs: seq<MakeRow>, ys: seq<MakeRow>)
    ensures Project(xs) == Project(ys) <==> SameContents(xs, ys)
  {
    if Project(xs) == Project(ys) {
      forall k | 0 <= k < |xs|
        ensures SameContent(xs[k], ys[k])
      {
        assert Project(xs)[k] == Project(ys)[k];
        ProjectIffSameContent(xs[k], ys[k]);
      }
    }
    if SameContents(xs, ys) {
      forall k | 0 <= k < |xs|
        ensures Project(xs)[k] == Project(ys)[k]
      {
        ProjectIffSameContent(xs[k], ys[k]);
      }
      assert Project(xs) == Project(ys);
    }
  }

  /** Round trip: projecting the aggregates built from records returns those records. */
  lemma ProjectAggregates(t: seq<MakeEntry>)
    ensures Project(Aggregates(t)) == t
  {
    forall k | 0 <= k < |t|
      ensures Project(Aggregates(t))[k] == t[k]
    {
      BuildThenProject(t[k]);
    }
  }

  /** Projection commutes with concatenation of stores. */
  lemma ProjectAppend(a: seq<MakeRow>, b: seq<MakeRow>)
    ensures Project(a + b) == Project(a) + Project(b)
  {
  }
}
