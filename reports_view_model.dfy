/** The sales report screen: a period type and a range of days, the quick
    periods that set them from today's date, and the summary that compares
    the range with the period of the same length just before it. */
module ReportsViewModel {
  import opened Common
  import opened Calendar
  import opened Database
  import SaleRepo = SaleRepository

  // ---------------------------------------------------------------------------
  // Quick periods
  // ---------------------------------------------------------------------------

  /** The Monday of the week of `d`: dayOfWeek counts Monday as 1. */
  function WeekStart(d: Date): (r: Date)
    requires Valid(d)
    ensures Valid(r)
  {
    AddDays(d, -(DayOfWeek(d) - 1))
  }

  /** setQuickPeriod's choice for a period name: the period type with the
      first and last day of the range, or nothing for a name it does not
      know. */
  function QuickPeriod(period: string, today: Date): (r: Option<(string, Date, Date)>)
    requires Valid(today)
    ensures r.Some? ==> Valid(r.value.1) && Valid(r.value.2)
  {
    if period == "today" then Some(("daily", today, today))
    else if period == "week" then
      var start := WeekStart(today);
      Some(("weekly", start, AddDays(start, 6)))
    else if period == "month" then Some(("monthly", FirstOfMonth(today), LastOfMonth(today)))
    else if period == "year" then Some(("yearly", Date(today.year, 1, 1), Date(today.year, 12, 31)))
    else if period == "lastWeek" then
      var start := AddDays(today, -(DayOfWeek(today) - 1) - 7);
      Some(("weekly", start, AddDays(start, 6)))
    else if period == "lastMonth" then
      var lastMonth := AddMonths(today, -1);
      Some(("monthly", FirstOfMonth(lastMonth), LastOfMonth(lastMonth)))
    else None
  }

  /** The week runs from its Monday to its Sunday and holds today. */
  lemma WeekHoldsToday(today: Date)
    requires Valid(today)
    ensures var start := WeekStart(today);
      var end := AddDays(start, 6);
      DayOfWeek(start) == 1 && DayOfWeek(end) == 7 &&
      DayNumber(end) == DayNumber(start) + 6 &&
      DayNumber(start) <= DayNumber(today) <= DayNumber(end)
  {
    var start := WeekStart(today);
    AddDaysNumber(today, -(DayOfWeek(today) - 1));
    AddDaysNumber(start, 6);
    MondayOf(DayNumber(today));
  }

  /** Last week runs from the Monday seven days before this week's to the
      Sunday just before this week's Monday. */
  lemma LastWeekBeforeThisWeek(today: Date)
    requires Valid(today)
    ensures var r := QuickPeriod("lastWeek", today).value;
      DayNumber(r.1) == DayNumber(WeekStart(today)) - 7 && DayOfWeek(r.1) == 1 &&
      DayNumber(r.2) == DayNumber(WeekStart(today)) - 1 && DayOfWeek(r.2) == 7
  {
    var start := AddDays(today, -(DayOfWeek(today) - 1) - 7);
    LastWeekIs(today, start);
    WeekBefore(today, start);
  }

  lemma LastWeekIs(today: Date, start: Date)
    requires Valid(today) && start == AddDays(today, -(DayOfWeek(today) - 1) - 7)
    ensures QuickPeriod("lastWeek", today) == Some(("weekly", start, AddDays(start, 6)))
  {
  }

  lemma WeekBefore(today: Date, start: Date)
    requires Valid(today) && start == AddDays(today, -(DayOfWeek(today) - 1) - 7)
    ensures DayNumber(start) == DayNumber(WeekStart(today)) - 7 && DayOfWeek(start) == 1
    ensures DayNumber(AddDays(start, 6)) == DayNumber(WeekStart(today)) - 1 && DayOfWeek(AddDays(start, 6)) == 7
  {
    var ws := WeekStart(today);
    var end := AddDays(start, 6);
    AddDaysNumber(today, -(DayOfWeek(today) - 1) - 7);
    AddDaysNumber(today, -(DayOfWeek(today) - 1));
    AddDaysNumber(start, 6);
    AddDaysNumber(ws, 6);
    WeekHoldsToday(today);
    WeekdayShift(start, ws, 1);
    WeekdayShift(end, AddDays(ws, 6), 1);
  }

  /** The month runs from its first to its last day and holds today. */
  lemma MonthHoldsToday(today: Date)
    requires Valid(today)
    ensures var r := QuickPeriod("month", today).value;
      r.1.day == 1 && r.1.month == today.month && r.2.month == today.month && Next(r.2).day == 1 &&
      DayNumber(r.1) <= DayNumber(today) <= DayNumber(r.2)
  {
    MonthBounds(today);
  }

  /** Last month ends on the day before the first of this month. */
  lemma LastMonthBeforeThisMonth(today: Date)
    requires Valid(today)
    ensures var r := QuickPeriod("lastMonth", today).value;
      r.1.day == 1 && r.1.month == r.2.month && r.1.year == r.2.year &&
      Next(r.2) == FirstOfMonth(today)
  {
    var lastMonth := AddMonths(today, -1);
    if today.month == 1 {
      assert lastMonth.year == today.year - 1 && lastMonth.month == 12;
    } else {
      assert lastMonth.year == today.year && lastMonth.month == today.month - 1;
    }
  }

  /** The year runs from 1 January to 31 December: 366 days in a leap year,
      365 otherwise, today among them. */
  lemma YearHoldsToday(today: Date)
    requires Valid(today)
    ensures var r := QuickPeriod("year", today).value;
      DaysTo(r.1, r.2) + 1 == (if IsLeapYear(today.year) then 366 else 365) &&
      DayNumber(r.1) <= DayNumber(today) <= DayNumber(r.2)
  {
    YearLength(today.year);
    assert DayNumber(Date(today.year + 1, 1, 1)) == DayNumber(Date(today.year, 12, 31)) + 1;
  }

  // ---------------------------------------------------------------------------
  // The summary
  // ---------------------------------------------------------------------------

  /** calculateSummary's comparison period: as many days as the range,
      shifted back by that many days. */
  function PreviousPeriod(start: Date, end: Date): (r: (Date, Date))
    requires Valid(start) && Valid(end)
    ensures Valid(r.0) && Valid(r.1)
  {
    var days := DaysTo(start, end) + 1;
    (AddDays(start, -days), AddDays(end, -days))
  }

  /** The comparison period is as long as the range and ends on the day
      before it starts. */
  lemma PreviousPeriodAdjoins(start: Date, end: Date)
    requires Valid(start) && Valid(end)
    ensures var (ps, pe) := PreviousPeriod(start, end);
      DaysTo(ps, pe) == DaysTo(start, end) && DayNumber(pe) == DayNumber(start) - 1
  {
    var days := DaysTo(start, end) + 1;
    AddDaysNumber(start, -days);
    AddDaysNumber(end, -days);
  }

  /** Sales growth in percent over the previous period's sales; 0 when the
      previous period sold nothing. */
  function Growth(current: real, previous: real): (g: real)
    ensures previous <= 0.0 ==> g == 0.0
    ensures previous > 0.0 ==> g * previous == (current - previous) * 100.0
    ensures previous > 0.0 ==> (g > 0.0 <==> current > previous) && (g == 0.0 <==> current == previous)
  {
    if previous > 0.0 then
      var g := ((current - previous) / previous) * 100.0;
      PercentChangeSign(current - previous, previous);
      g
    else 0.0
  }

  /** The figures calculateSummary keeps. */
  datatype Summary = Summary(totalSales: real, totalTransactions: int, averageTicket: real,
                             salesGrowth: real, previousSales: real)

  const EmptySummary: Summary := Summary(0.0, 0, 0.0, 0.0, 0.0)

  function SummaryOf(t: Tables, start: Date, end: Date): (s: Summary)
    requires Valid(start) && Valid(end)
  {
    var stats := SaleRepo.StatsForRange(t, start, end);
    var (ps, pe) := PreviousPeriod(start, end);
    var previous := SaleRepo.StatsForRange(t, ps, pe);
    Summary(stats.totalSales, stats.totalTransactions, stats.averageTicket,
            Growth(stats.totalSales, previous.totalSales), previous.totalSales)
  }

  /** The summary holds the range's totals, its average ticket, and the
      growth over the sales of the adjoining earlier period of equal length. */
  lemma SummaryFigures(t: Tables, start: Date, end: Date)
    requires Valid(start) && Valid(end)
    ensures var s := SummaryOf(t, start, end);
      var (ps, pe) := PreviousPeriod(start, end);
      s.totalSales == SaleRepo.StatsForRange(t, start, end).totalSales &&
      s.previousSales == SaleRepo.StatsForRange(t, ps, pe).totalSales &&
      (s.totalTransactions > 0 ==> s.averageTicket * s.totalTransactions as real == s.totalSales) &&
      (s.previousSales > 0.0 ==> (s.salesGrowth > 0.0 <==> s.totalSales > s.previousSales)) &&
      (s.previousSales <= 0.0 ==> s.salesGrowth == 0.0)
  {
  }

  // ---------------------------------------------------------------------------
  // The screen
  // ---------------------------------------------------------------------------

  class ReportScreen {
    /** QDate::currentDate, fixed for the life of the screen. */
    const today: Date
    var periodType: string
    var startDate: Date
    var endDate: Date
    var isLoading: bool
    var summary: Summary

    ghost predicate Valid()
      reads this
    {
      Calendar.Valid(today) && Calendar.Valid(startDate) && Calendar.Valid(endDate) && !isLoading
    }

    /** A new screen shows today, as a daily report, and no figures yet. */
    constructor (clock: Date)
      requires Calendar.Valid(clock)
      ensures Valid() && today == clock
      ensures periodType == "daily" && startDate == clock && endDate == clock && summary == EmptySummary
    {
      today := clock;
      periodType := "daily";
      startDate := clock;
      endDate := clock;
      isLoading := false;
      summary := EmptySummary;
    }

    /** loadReport: the summary of the current range. */
    method LoadReport(db: Connection)
      requires Valid()
      modifies this
      ensures Valid()
      ensures summary == SummaryOf(db.tables, startDate, endDate)
      ensures periodType == old(periodType) && startDate == old(startDate) && endDate == old(endDate)
    {
      isLoading := true;
      var stats := SaleRepo.StatsForRange(db.tables, startDate, endDate);
      var days := DaysTo(startDate, endDate) + 1;
      var previousStart := AddDays(startDate, -days);
      var previousEnd := AddDays(endDate, -days);
      var previousStats := SaleRepo.StatsForRange(db.tables, previousStart, previousEnd);
      var salesGrowth := 0.0;
      if previousStats.totalSales > 0.0 {
        salesGrowth := ((stats.totalSales - previousStats.totalSales) / previousStats.totalSales) * 100.0;
      }
      summary := Summary(stats.totalSales, stats.totalTransactions, stats.averageTicket,
                         salesGrowth, previousStats.totalSales);
      isLoading := false;
    }

    /** setPeriodType: a new value is kept and the report reloaded; the
        current value changes nothing. */
    method SetPeriodType(db: Connection, periodName: string)
      requires Valid()
      modifies this
      ensures Valid()
      ensures startDate == old(startDate) && endDate == old(endDate) && periodType == periodName
      ensures periodName == old(periodType) ==> summary == old(summary)
      ensures periodName != old(periodType) ==> summary == SummaryOf(db.tables, startDate, endDate)
    {
      if periodType != periodName {
        periodType := periodName;
        LoadReport(db);
      }
    }

    /** setStartDate and setEndDate: store the day without reloading. */
    method SetStartDate(date: Date)
      requires Valid() && Calendar.Valid(date)
      modifies this
      ensures Valid() && startDate == date
      ensures periodType == old(periodType) && endDate == old(endDate) && summary == old(summary)
    {
      if startDate != date {
        startDate := date;
      }
    }

    method SetEndDate(date: Date)
      requires Valid() && Calendar.Valid(date)
      modifies this
      ensures Valid() && endDate == date
      ensures periodType == old(periodType) && startDate == old(startDate) && summary == old(summary)
    {
      if endDate != date {
        endDate := date;
      }
    }

    /** setQuickPeriod: a known period sets the type and the range from
        today; an unknown one leaves them; the report is reloaded either
        way. */
    method SetQuickPeriod(db: Connection, period: string)
      requires Valid()
      modifies this
      ensures Valid()
      ensures QuickPeriod(period, today).Some? ==> (periodType, startDate, endDate) == QuickPeriod(period, today).value
      ensures QuickPeriod(period, today).None? ==>
        periodType == old(periodType) && startDate == old(startDate) && endDate == old(endDate)
      ensures summary == SummaryOf(db.tables, startDate, endDate)
    {
      if period == "today" {
        periodType, startDate, endDate := "daily", today, today;
      } else if period == "week" {
        periodType := "weekly";
        startDate := AddDays(today, -(DayOfWeek(today) - 1));
        endDate := AddDays(startDate, 6);
      } else if period == "month" {
        periodType := "monthly";
        startDate := Date(today.year, today.month, 1);
        endDate := Date(today.year, today.month, DaysInMonth(today.year, today.month));
      } else if period == "year" {
        periodType := "yearly";
        startDate := Date(today.year, 1, 1);
        endDate := Date(today.year, 12, 31);
      } else if period == "lastWeek" {
        periodType := "weekly";
        var lastWeekStart := AddDays(today, -(DayOfWeek(today) - 1) - 7);
        startDate := lastWeekStart;
        endDate := AddDays(lastWeekStart, 6);
      } else if period == "lastMonth" {
        periodType := "monthly";
        var lastMonth := AddMonths(today, -1);
        startDate := Date(lastMonth.year, lastMonth.month, 1);
        endDate := Date(lastMonth.year, lastMonth.month, DaysInMonth(lastMonth.year, lastMonth.month));
      }
      LoadReport(db);
    }
  }
}
