/** Settlement periods as half-hour intervals. Period 1 starts at midnight
    of the settlement date; periods past 48 (clock-change days) run on into
    the next day without clamping. */
module Timestamps {

  const MinutesPerPeriod := 30
  const MinutesPerDay := 1440
  const PeriodsPerDay := 48

  datatype Interval = Interval(startTime: int, endTime: int)

  /** The interval of settlement period `period` of day `date`. */
  function HalfHour(date: int, period: int): (iv: Interval)
    ensures iv.endTime == iv.startTime + MinutesPerPeriod
    ensures period == 1 ==> iv.startTime == date * MinutesPerDay
    ensures 1 <= period <= PeriodsPerDay ==>
              date * MinutesPerDay <= iv.startTime && iv.endTime <= (date + 1) * MinutesPerDay
  {
    var start := date * MinutesPerDay + (period - 1) * MinutesPerPeriod;
    Interval(start, start + MinutesPerPeriod)
  }

  /** The (date, period) pair whose interval starts at minute `t`. */
  function SlotOf(t: int): (int, int)
  {
    (t / MinutesPerDay, (t % MinutesPerDay) / MinutesPerPeriod + 1)
  }

  /** On an ordinary day the start time determines the date and the period. */
  lemma SlotRoundTrip(date: int, period: int)
    requires 1 <= period <= PeriodsPerDay
    ensures SlotOf(HalfHour(date, period).startTime) == (date, period)
  {
    var offset := (period - 1) * MinutesPerPeriod;
    var t := HalfHour(date, period).startTime;
    assert t == date * MinutesPerDay + offset;
    assert 0 <= offset < MinutesPerDay;
    DivModOfDay(date, offset);
  }

  lemma DivModOfDay(date: int, offset: int)
    requires 0 <= offset < MinutesPerDay
    ensures (date * MinutesPerDay + offset) / MinutesPerDay == date
    ensures (date * MinutesPerDay + offset) % MinutesPerDay == offset
  {
  }

  /** Consecutive periods tile the timeline: each ends where the next starts. */
  lemma Contiguous(date: int, period: int)
    ensures HalfHour(date, period).endTime == HalfHour(date, period + 1).startTime
  {
  }

  /** A period past the 48th is the matching period of the next day. */
  lemma ExtraPeriodsRunIntoNextDay(date: int, period: int)
    requires period > PeriodsPerDay
    ensures HalfHour(date, period) == HalfHour(date + 1, period - PeriodsPerDay)
  {
  }

  /** Two periods fall in each clock hour: period `p` starts in hour (p - 1) / 2. */
  lemma ClockHourOfPeriod(date: int, period: int)
    requires 1 <= period <= PeriodsPerDay
    ensures (HalfHour(date, period).startTime % MinutesPerDay) / 60 == (period - 1) / 2
  {
    var offset := (period - 1) * MinutesPerPeriod;
    DivModOfDay(date, offset);
  }
}
