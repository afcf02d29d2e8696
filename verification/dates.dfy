/** Date arithmetic on millisecond timestamps (`Date.getTime()`). */
module Dates {

  const MsPerSecond: int := 1000
  const MsPerHour: int := 60 * 60 * 1000

  /** `subHours(date, hours)`: the instant `hours` hours before `date`. */
  function SubHours(date: int, hours: int): (r: int)
    ensures hours >= 0 ==> r <= date
    ensures (r == date) <==> (hours == 0)
  {
    date - hours * 60 * 60 * 1000
  }

  /** `addSeconds(date, seconds)`: the instant `seconds` seconds after `date`. */
  function AddSeconds(date: int, seconds: int): (r: int)
    ensures seconds >= 0 ==> r >= date
    ensures (r == date) <==> (seconds == 0)
  {
    date + seconds * 1000
  }

  /** Going back `h` hours and forward `3600 * h` seconds returns to the start. */
  lemma SubHoursAddSeconds(date: int, h: int)
    ensures AddSeconds(SubHours(date, h), 3600 * h) == date
  {
  }
}
