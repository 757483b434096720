/**
 * The reference-period choices offered when importing a statement
 * (orcamento_2026/core/services/utils/date_utils.py): the month before,
 * the month of and the month after a base date, each on a reference day.
 */
module DateUtils {
  import opened Wrappers
  import opened Dates

  /** Which of the three options an entry is; the label text itself is not modelled. */
  datatype PeriodKind = PreviousMonth | CurrentMonth | NextMonth

  datatype PeriodOption = PeriodOption(date: Date, kind: PeriodKind)

  /** `d.replace(day=day)`: `None` where `date` raises `ValueError`. */
  function ReplaceDay(d: Date, day: int): (r: Option<Date>)
    requires IsValid(d)
    ensures r.Some? <==> 1 <= day <= DaysInMonth(d.year, d.month)
    ensures r.Some? ==> IsValid(r.value) && r.value.day == day && MonthIndex(r.value) == MonthIndex(d)
  {
    if 1 <= day <= DaysInMonth(d.year, d.month) then Some(d.(day := day)) else None
  }

  /** The year and month `months` months after the month of `d`, as (year, month). */
  function ShiftMonth(d: Date, months: int): (r: (int, int))
    ensures 1 <= r.1 <= 12 && r.0 * 12 + r.1 - 1 == MonthIndex(d) + months
  {
    var index := MonthIndex(d) + months;
    (index / 12, index % 12 + 1)
  }

  /** `d + relativedelta(months=months)`: the same day in the shifted month, cut back to
      that month's last day; `None` where the year leaves 1..9999 and `date` raises. */
  function AddMonths(d: Date, months: int): (r: Option<Date>)
    requires IsValid(d)
    ensures r.Some? <==> 1 <= ShiftMonth(d, months).0 <= 9999
    ensures r.Some? ==> IsValid(r.value) && MonthIndex(r.value) == MonthIndex(d) + months
    ensures r.Some? ==> r.value.day == Min(d.day, DaysInMonth(r.value.year, r.value.month))
  {
    var (year, month) := ShiftMonth(d, months);
    if 1 <= year <= 9999 then Some(Date(year, month, Min(d.day, DaysInMonth(year, month)))) else None
  }

  /** The defaults of `get_period_options`: `num_options=3`, `ref_day=20`. */
  const DefaultNumOptions := 3
  const DefaultRefDay := 20

  /** The base date the options are computed from. */
  function Base(baseDate: Option<Date>, today: Date): Date
  {
    if baseDate.None? then today else baseDate.value
  }

  /** `get_period_options(base_date, num_options, ref_day)`, with `today` standing for
      `date.today()`; `None` where the call raises `ValueError`. */
  function PeriodOptions(baseDate: Option<Date>, today: Date, numOptions: int, refDay: int)
    : (r: Option<seq<PeriodOption>>)
    requires IsValid(today) && (baseDate.Some? ==> IsValid(baseDate.value))
    ensures r.Some? ==> |r.value| == 3
    ensures r.Some? ==>
      var base := Base(baseDate, today);
      r.value[0].kind == PreviousMonth && r.value[1].kind == CurrentMonth && r.value[2].kind == NextMonth &&
      r.value[1].date == Date(base.year, base.month, refDay) &&
      (forall k :: 0 <= k < 3 ==>
        IsValid(r.value[k].date) && MonthIndex(r.value[k].date) == MonthIndex(base) + k - 1 &&
        r.value[k].date.day == Min(refDay, DaysInMonth(r.value[k].date.year, r.value[k].date.month)))
  {
    var base := Base(baseDate, today);
    match ReplaceDay(base, refDay)
    case None => None
    case Some(current) =>
      match (AddMonths(current, -1), AddMonths(current, 1))
      case (Some(previous), Some(next)) =>
        Some([PeriodOption(previous, PreviousMonth), PeriodOption(current, CurrentMonth), PeriodOption(next, NextMonth)])
      case _ => None
  }

  /** The call succeeds exactly when the reference day exists in the base month and
      neither neighbouring month leaves the years `date` supports. */
  lemma PeriodOptionsDefined(baseDate: Option<Date>, today: Date, numOptions: int, refDay: int)
    requires IsValid(today) && (baseDate.Some? ==> IsValid(baseDate.value))
    ensures var base := Base(baseDate, today);
      (PeriodOptions(baseDate, today, numOptions, refDay).Some? <==>
         (1 <= refDay <= DaysInMonth(base.year, base.month) &&
          !(base.year == 1 && base.month == 1) && !(base.year == 9999 && base.month == 12)))
  {
    var base := Base(baseDate, today);
    if 1 <= refDay <= DaysInMonth(base.year, base.month) {
      var current := ReplaceDay(base, refDay).value;
      var (py, pm) := ShiftMonth(current, -1);
      var (ny, nm) := ShiftMonth(current, 1);
      assert py == current.year - 1 <==> current.month == 1;
      assert ny == current.year + 1 <==> current.month == 12;
    }
  }

  /** The three dates are in chronological order. */
  lemma PeriodOptionsAreChronological(baseDate: Option<Date>, today: Date, numOptions: int, refDay: int)
    requires IsValid(today) && (baseDate.Some? ==> IsValid(baseDate.value))
    requires PeriodOptions(baseDate, today, numOptions, refDay).Some?
    ensures var options := PeriodOptions(baseDate, today, numOptions, refDay).value;
      Precedes(options[0].date, options[1].date) && Precedes(options[1].date, options[2].date)
  {
  }

  /** A reference day every month has is the day of all three options. */
  lemma PeriodOptionsKeepAnyCommonDay(baseDate: Option<Date>, today: Date, numOptions: int, refDay: int)
    requires IsValid(today) && (baseDate.Some? ==> IsValid(baseDate.value))
    requires PeriodOptions(baseDate, today, numOptions, refDay).Some? && refDay <= 28
    ensures var options := PeriodOptions(baseDate, today, numOptions, refDay).value;
      forall k :: 0 <= k < 3 ==> options[k].date.day == refDay
  {
  }

  /** `num_options` has no effect on the result. */
  lemma PeriodOptionsIgnoreCount(baseDate: Option<Date>, today: Date, numOptions: int, other: int, refDay: int)
    requires IsValid(today) && (baseDate.Some? ==> IsValid(baseDate.value))
    ensures PeriodOptions(baseDate, today, numOptions, refDay) == PeriodOptions(baseDate, today, other, refDay)
  {
  }

  /** Without a base date, today is the base date. */
  lemma PeriodOptionsDefaultToToday(today: Date, numOptions: int, refDay: int)
    requires IsValid(today)
    ensures PeriodOptions(None, today, numOptions, refDay) == PeriodOptions(Some(today), today, numOptions, refDay)
  {
  }

  /** With the default `ref_day`, the call succeeds for every base month except the
      first and the last month `date` supports, and every option falls on the 20th. */
  lemma PeriodOptionsWithDefaults(baseDate: Option<Date>, today: Date)
    requires IsValid(today) && (baseDate.Some? ==> IsValid(baseDate.value))
    ensures var base := Base(baseDate, today);
      var r := PeriodOptions(baseDate, today, DefaultNumOptions, DefaultRefDay);
      (r.Some? <==> !(base.year == 1 && base.month == 1) && !(base.year == 9999 && base.month == 12)) &&
      (r.Some? ==> forall k :: 0 <= k < 3 ==> r.value[k].date.day == 20)
  {
    var base := Base(baseDate, today);
    assert DaysInMonth(base.year, base.month) >= 28;
    PeriodOptionsDefined(baseDate, today, DefaultNumOptions, DefaultRefDay);
    if PeriodOptions(baseDate, today, DefaultNumOptions, DefaultRefDay).Some? {
      PeriodOptionsKeepAnyCommonDay(baseDate, today, DefaultNumOptions, DefaultRefDay);
    }
  }

  /** January rolls back to December of the year before: options for 15 January 2026. */
  lemma PeriodOptionsAcrossNewYear(today: Date)
    requires IsValid(today)
    ensures PeriodOptions(Some(Date(2026, 1, 15)), today, DefaultNumOptions, DefaultRefDay)
      == Some([PeriodOption(Date(2025, 12, 20), PreviousMonth), PeriodOption(Date(2026, 1, 20), CurrentMonth),
               PeriodOption(Date(2026, 2, 20), NextMonth)])
  {
  }

  /** A reference day some neighbouring month lacks: for 31 March 2026 with day 31,
      February gives its 28th and April its 30th. */
  lemma PeriodOptionsClipToMonthEnd(today: Date)
    requires IsValid(today)
    ensures PeriodOptions(Some(Date(2026, 3, 31)), today, 3, 31)
      == Some([PeriodOption(Date(2026, 2, 28), PreviousMonth), PeriodOption(Date(2026, 3, 31), CurrentMonth),
               PeriodOption(Date(2026, 4, 30), NextMonth)])
  {
  }

  /** A reference day the base month lacks raises: day 31 in April. */
  lemma PeriodOptionsRejectMissingDay(today: Date)
    requires IsValid(today)
    ensures PeriodOptions(Some(Date(2026, 4, 15)), today, 3, 31) == None
  {
  }
}
