/** The working-day schedule. When people leave work, the building is unoccupied
    outside 09:00:00 to 17:00:00 (both instants included in the working day). */
module Schedule {

  const SecondsPerDay: int := 24 * 3600
  const WorkStart: int := 9 * 3600
  const WorkEnd: int := 17 * 3600

  /** Seconds past midnight. Python's `%` with a positive modulus floors, which
      agrees with Dafny's Euclidean `%` for every integer `t`. */
  function TimeOfDay(t: int): (s: int)
    ensures 0 <= s < SecondsPerDay
    ensures (t - s) % SecondsPerDay == 0
  {
    t % SecondsPerDay
  }

  /** The off-hours test used for every zone in a step: nobody is in. It holds only
      when people leave work, and then exactly outside the closed working window. */
  predicate OffHours(leaveWork: bool, t: int)
    ensures OffHours(leaveWork, t) ==> leaveWork
    ensures leaveWork ==> (OffHours(leaveWork, t) <==> !(WorkStart <= t % SecondsPerDay <= WorkEnd))
  {
    leaveWork && (TimeOfDay(t) < WorkStart || TimeOfDay(t) > WorkEnd)
  }

  /** Whole days added or removed do not change the answer. */
  lemma {:induction false} OffHoursPeriodic(leaveWork: bool, t: int, days: int)
    ensures OffHours(leaveWork, t + days * SecondsPerDay) == OffHours(leaveWork, t)
    decreases if days < 0 then -days else days
  {
    if days > 0 {
      var u := t + (days - 1) * SecondsPerDay;
      OffHoursPeriodic(leaveWork, t, days - 1);
      assert t + days * SecondsPerDay == u + SecondsPerDay;
      NextDay(u);
    } else if days < 0 {
      var u := t + days * SecondsPerDay;
      OffHoursPeriodic(leaveWork, t, days + 1);
      assert t + (days + 1) * SecondsPerDay == u + SecondsPerDay;
      NextDay(u);
    }
  }

  /** One day later is the same time of day. */
  lemma NextDay(t: int)
    ensures TimeOfDay(t + SecondsPerDay) == TimeOfDay(t)
  {
  }

  /** The answer depends on `t` only through the time of day. */
  lemma OffHoursByTimeOfDay(leaveWork: bool, t: int)
    ensures OffHours(leaveWork, t) == OffHours(leaveWork, TimeOfDay(t))
  {
  }

  /** When people leave work, a time is off-hours exactly when it lies outside the
      closed window [09:00:00, 17:00:00]. */
  lemma OffHoursOutsideWindow(t: int)
    ensures OffHours(true, t) <==> !(WorkStart <= TimeOfDay(t) <= WorkEnd)
  {
  }

  /** When people do not leave work, no time is off-hours. */
  lemma AlwaysAtWork(t: int)
    ensures !OffHours(false, t)
  {
  }

  /** The boundary instants 09:00:00 and 17:00:00 belong to the working day;
      the seconds just outside them do not. */
  lemma WindowBoundaries()
    ensures !OffHours(true, 32400) && !OffHours(true, 61200)
    ensures OffHours(true, 32399) && OffHours(true, 61201)
  {
  }
}
