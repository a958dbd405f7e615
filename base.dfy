/** Shared vocabulary: optional values, identifiers, Swift's Int32. */
module Base {

  /** Swift's Optional. */
  datatype Option<T> = None | Some(value: T) {
    /** `self ?? fallback` */
    function GetOr(fallback: T): T {
      match this
      case Some(v) => v
      case None => fallback
    }
  }

  /** A UUID, represented by its `uuidString`: the chain steps key argument
      overrides by that string, so the model uses the string throughout. */
  type Uuid = string

  /** A point in time (`Date`); only stored and compared, never computed with. */
  type Timestamp = int

  /** Swift's `Int32`, the type of a process termination status. */
  type Int32 = x: int | -0x8000_0000 <= x < 0x8000_0000

  /** `Int.max` on the 64-bit platforms the app runs on. */
  const IntMax: int := 0x7FFF_FFFF_FFFF_FFFF
}
