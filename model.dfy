/**
 * The shared `Model` package types the timetable screen uses.
 */
module Model {
  import opened Foundation

  /**
   * `AnyTimetableItem`: the type-erased schedule entry, one variant per
   * conforming kind. Only the fields the screen reads are kept.
   */
  datatype AnyTimetableItem =
    | Session(id: string, startsAt: Date)
    | Special(id: string, startsAt: Date)

  /** `SelectedType`: the three conference days of the segmented picker. */
  datatype SelectedType = Day1 | Day2 | Day3
}
