/**
 * The appointment record and the two value types it carries: a date-time,
 * counted in ticks of 100 nanoseconds like the .NET `DateTime`, and a colour.
 */
module Model {

  /** A date-time as a tick count (one tick is 100 ns), as the .NET `DateTime` stores it. */
  type DateTime = nat

  /** Ticks in one day: 24 * 60 * 60 * 10_000_000. */
  const TicksPerDay: nat := 864_000_000_000

  /** `t.Date`: the same date with the time of day dropped, that is, midnight of t's day. */
  function DateOf(t: DateTime): (d: DateTime)
    ensures d % TicksPerDay == 0
    ensures d <= t < d + TicksPerDay
  {
    t - t % TicksPerDay
  }

  /**
   * Comparing `t.Date` against a window [first, last] whose first bound is a
   * midnight keeps every instant of the last day: time of day never matters.
   */
  lemma DateOnlyComparison(t: DateTime, first: DateTime, last: DateTime)
    requires first % TicksPerDay == 0
    ensures (first <= DateOf(t) <= last) <==> (first <= t < DateOf(last) + TicksPerDay)
  {
  }

  /**
   * A display colour. `Default` is the value an appointment holds before it
   * is tagged; `Argb` is a colour given by its 32-bit hexadecimal ARGB code.
   */
  datatype Color = Default | Argb(code: int)

  /**
   * An appointment as the remote service delivers it. Only `color` is
   * written after deserialisation (by the colour-tagging loop), so it is the
   * only mutable field; objects are shared by reference between the full
   * data set and the published visible subset.
   */
  class Appointment {
    const subject: string
    const id: string
    const startTime: DateTime
    const endTime: DateTime
    const allDay: bool
    const recurrenceRule: string
    var color: Color

    /** What deserialising one JSON record yields: no colour assigned yet. */
    constructor (subject: string, id: string, startTime: DateTime, endTime: DateTime,
                 allDay: bool, recurrenceRule: string)
      ensures this.subject == subject && this.id == id
      ensures this.startTime == startTime && this.endTime == endTime
      ensures this.allDay == allDay && this.recurrenceRule == recurrenceRule
      ensures color == Default
    {
      this.subject := subject;
      this.id := id;
      this.startTime := startTime;
      this.endTime := endTime;
      this.allDay := allDay;
      this.recurrenceRule := recurrenceRule;
      color := Default;
    }
  }
}
