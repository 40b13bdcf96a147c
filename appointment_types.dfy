/** The records the calendar works on: an appointment with its start and end
    instants, the derived calendar cell, and the view mode. */
module AppointmentTypes {
  import opened CivilDates
  import opened ClockTimes

  datatype Status = Confirmado | Cancelado | Pendente

  datatype ViewMode = Day | Week | Month

  /** A wall-clock instant at minute resolution: a local date and a minute
      of that day. */
  datatype Instant = Instant(date: Date, minute: MinuteOfDay)

  /** Minutes since 0001-01-01 00:00, the model of `getTime()`. */
  function Stamp(t: Instant): (r: int)
  {
    Ord(t.date) * 1440 + t.minute
  }

  /** `getTime()` orders instants by date first and then by minute of the
      day, and tells distinct instants apart. */
  lemma StampOrder(t: Instant, u: Instant)
    ensures Stamp(t) < Stamp(u) <==> Ord(t.date) < Ord(u.date) || (t.date == u.date && t.minute < u.minute)
    ensures Stamp(t) == Stamp(u) <==> t == u
  {
    if Stamp(t) == Stamp(u) {
      assert Ord(t.date) == Ord(u.date);
      OrdInjective(t.date, u.date);
    }
    if Stamp(t) < Stamp(u) && Ord(t.date) == Ord(u.date) {
      OrdInjective(t.date, u.date);
    }
  }

  /** `new Date(t.getTime() + k * 60000)`: the instant `k` minutes later. */
  function AddMinutes(t: Instant, k: int): (r: Instant)
    ensures Stamp(r) == Stamp(t) + k
    ensures r.minute == (t.minute + k) % 1440
  {
    var carry := (t.minute + k) / 1440;
    AddDaysOrd(t.date, carry);
    Instant(AddDays(t.date, carry), (t.minute + k) % 1440)
  }

  datatype Appointment = Appointment(
    id: string,
    client_name: string,
    therapist_name: string,
    start_time: Instant,
    end_time: Instant,
    status: Status,
    created_by: string)

  /** The calendar date of an appointment's start (`toDateString` of it). */
  function StartDate(a: Appointment): (d: Date)
  {
    a.start_time.date
  }

  /** Duration in minutes (`end.getTime() - start.getTime()`). */
  function Duration(a: Appointment): (r: int)
  {
    Stamp(a.end_time) - Stamp(a.start_time)
  }

  datatype CalendarDay = CalendarDay(date: Date, isCurrentMonth: bool, appointments: seq<Appointment>)
}
