/**
 * The parts of Apple's Foundation framework that the timetable screen relies on.
 * Their real behaviour (calendar arithmetic, URL grammar) lives outside the
 * application, so each one is a value that carries the foreign behaviour as a
 * function supplied by the caller, and the model assumes nothing else about it.
 */
module Foundation {
  import opened Wrappers

  /** A point in time, `Date`: seconds since Foundation's reference date. */
  datatype Date = Date(timeIntervalSinceReferenceDate: real)

  /** The two `Calendar.Component` cases the screen asks for. */
  datatype CalendarComponent = Month | Day

  /**
   * A calendar (the screen uses `Calendar(identifier: .japanese)`):
   * `component(c, d)` is what `calendar.component(c, from: d)` returns.
   */
  datatype Calendar = Calendar(component: (CalendarComponent, Date) -> int)
  {
    function MonthOf(d: Date): int { component(Month, d) }
    function DayOf(d: Date): int { component(Day, d) }
  }

  /** The month and day fields of a `DateComponents`; each may be unset (`nil`). */
  datatype DateComponents = DateComponents(month: Option<int>, day: Option<int>)

  /** A parsed `URL`; it keeps the string it was made from. */
  datatype Url = Url(absoluteString: string)

  /**
   * `URL(string:)`: `isValid` says which strings Foundation accepts as URLs.
   */
  datatype UrlParser = UrlParser(isValid: string -> bool)
  {
    /** `URL(string: s)`: nil exactly for the strings Foundation rejects. */
    function Parse(s: string): (r: Option<Url>)
      ensures r.Some? <==> isValid(s)
      ensures r.Some? ==> r.value.absoluteString == s
    {
      if isValid(s) then Some(Url(s)) else None
    }
  }
}
