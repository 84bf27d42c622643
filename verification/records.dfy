/**
 * The record shapes that travel between the XML parser service and the vehicle
 * service (src/xml-parser/interfaces/vehicle.interface.ts), and the values a
 * JavaScript `throw` can carry.
 */
module Records {
  import opened Wrappers

  /** `Make_ID`: the text of the XML element, as the parser delivers it. */
  type MakeId = string

  /** `VehicleTypeId`: the text of the XML element, as the parser delivers it. */
  type TypeId = string

  /**
   * `make.Make_ID.toString()`, the token interpolated into the per-make URL.
   * On the element text the parser delivers it is the identity, so two makes
   * share a token exactly when they share an id.
   */
  function Token(id: MakeId): string
  {
    id
  }

  /** `AllVehicleMakes`: one element of the make list. */
  datatype RawMake = RawMake(makeId: MakeId, makeName: string)

  /** `VehicleType` (interface): one element of a make's type list. */
  datatype RawType = RawType(vehicleTypeId: TypeId, vehicleTypeName: string, makeId: MakeId, makeName: string)

  /**
   * One `{typeId, typeName}` entry of `VehicleMakeType.vehicleTypes`. A field
   * read from the empty string `""` in place of a record is `undefined`, here
   * `None`.
   */
  datatype TypeEntry = TypeEntry(typeId: Option<TypeId>, typeName: Option<string>)

  /** `VehicleMakeType`: the transformed record handed to the sync and returned by the read path. */
  datatype MakeEntry = MakeEntry(makeId: MakeId, makeName: string, vehicleTypes: seq<TypeEntry>)

  /** What a `throw` (or a promise rejection) carries: an `Error` instance with a message, or any other value. */
  datatype Thrown = ErrorValue(message: string) | NonErrorValue

  /** `error instanceof Error ? error.message : fallback`, the message extraction every catch block performs. */
  function MessageOr(t: Thrown, fallback: string): (m: string)
    ensures t.ErrorValue? ==> m == t.message
    ensures t.NonErrorValue? ==> m == fallback
  {
    match t
    case ErrorValue(message) => message
    case NonErrorValue => fallback
  }
}
