/**
 * The sleep computed at the end of each iteration of the providers' poll
 * loops: wait until the next wall-clock minute that is a multiple of five,
 * minus the seconds already elapsed in the current minute, plus a small
 * per-provider buffer. The clock reading is a parameter.
 */
module PollAlignment {

  /** `datetime.minute` and `datetime.second` lie in 0..59. */
  type Minute = m: int | 0 <= m < 60
  type Second = s: int | 0 <= s < 60

  datatype PollWait = PollWait(nextMark: int, minutesToWait: int, secondsToWait: int)

  /** A minute of the hour at which polling is aligned. */
  predicate OnMark(m: int) {
    m % 5 == 0
  }

  /**
   * `next_5min`, `minutes_to_wait` and `seconds_to_wait` for a clock
   * reading of `minute`:`second`. The wait ends on the first mark strictly
   * after the current minute, wrapping to minute 0 of the next hour.
   */
  function WaitForNextMark(minute: Minute, second: Second, buffer: int): (w: PollWait)
    ensures 0 <= w.nextMark < 60 && OnMark(w.nextMark)
    ensures 1 <= w.minutesToWait <= 5
    ensures (minute + w.minutesToWait) % 60 == w.nextMark
    ensures forall m :: minute < m < minute + w.minutesToWait ==> !OnMark(m)
    ensures minute >= 55 <==> w.nextMark == 0
    ensures minute >= 55 ==> w.minutesToWait == 60 - minute
    ensures w.secondsToWait == w.minutesToWait * 60 - second + buffer
    ensures buffer + 1 <= w.secondsToWait <= buffer + 300
  {
    var next := (minute / 5 + 1) * 5;
    if next >= 60 then
      var mark := 0;
      var minutes := (60 - minute) + mark;
      PollWait(mark, minutes, minutes * 60 - second + buffer)
    else
      var minutes := next - minute;
      PollWait(next, minutes, minutes * 60 - second + buffer)
  }
}
