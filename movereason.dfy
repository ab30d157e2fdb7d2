/** Why the simulated player arrived on a space. */
module MoveReasons {
  datatype MoveReason =
    | Roll
    | CHCard
    | CCCard
    | GoToJail
    | TripleDouble
    | NoDouble
    | ExitJail

  /** The number of reasons, and so the width of the per-space arrival table. */
  const COUNT: nat := 7

  /**
   * The explicit discriminant: `Roll` is -1 and the others number 0 to 5, so a
   * normal roll has no column in the arrival table.
   */
  function Discriminant(reason: MoveReason): (d: int)
    ensures -1 <= d < COUNT - 1
    ensures d < 0 <==> reason == Roll
  {
    match reason
    case Roll => -1
    case CHCard => 0
    case CCCard => 1
    case GoToJail => 2
    case TripleDouble => 3
    case NoDouble => 4
    case ExitJail => 5
  }
}
