/** The overdue-communication trend: for today and each of the six days before it, how
    many overdue companies have a next date on or before that day, charted oldest first.
    Dates are day numbers; the 'YYYY-MM-DD' strings of the chart compare as these do. */
module OverdueTrend {
  import opened Wrappers
  import opened Lists
  import opened Time
  import opened Entities
  import opened UserModule

  /** `moment().subtract(i, 'days')`, as a day number: i days before today. */
  function DaysAgo(now: Timestamp, i: int): (day: int)
    ensures day == DayOf(now) - i
  {
    DayOfAddDays(now, -i);
    DayOf(AddDays(now, -i))
  }

  /** lastSevenDays: the day `i` days before today, for i = 0 .. 6. */
  function LastSevenDays(now: Timestamp): (days: seq<int>)
    ensures |days| == 7
    ensures forall i :: 0 <= i < 7 ==> days[i] == DayOf(now) - i
  {
    seq(7, i => DaysAgo(now, i))
  }

  /** `moment(getCompanyNextCommunication(company)).format(..) <= day`; a company with no
      next date formats as "Invalid date", which never compares at or below a date. */
  function NextDueOnOrBefore(c: Company, day: int): (r: bool)
    ensures r <==> c.nextCommunication.Some? && DayOf(c.nextCommunication.value) <= day
  {
    match NextCommunication(c)
    case None => false
    case Some(t) => DayOf(t) <= day
  }

  /** The companies counted for `day`. */
  function OverdueOnOrBefore(companies: seq<Company>, now: Timestamp, day: int): seq<Company> {
    Keep(companies, (c: Company) => IsOverdue(c, now) && NextDueOnOrBefore(c, day))
  }

  /** The companies that are overdue now. */
  function Overdue(companies: seq<Company>, now: Timestamp): seq<Company> {
    Keep(companies, (c: Company) => IsOverdue(c, now))
  }

  /** overdueCount: one count per entry of lastSevenDays, so entry i counts the overdue
      companies due on or before the day i days ago. */
  function OverdueCount(companies: seq<Company>, now: Timestamp): (counts: seq<nat>)
    ensures |counts| == 7
    ensures forall i :: 0 <= i < 7 ==> counts[i] == |OverdueOnOrBefore(companies, now, DayOf(now) - i)|
  {
    var days := LastSevenDays(now);
    seq(7, i requires 0 <= i < 7 => |OverdueOnOrBefore(companies, now, days[i])|)
  }

  /** A day's count covers only overdue companies, so never exceeds their number. */
  lemma CountOnlyOverdue(companies: seq<Company>, now: Timestamp, day: int)
    ensures forall c :: c in OverdueOnOrBefore(companies, now, day) ==> IsOverdue(c, now)
    ensures |OverdueOnOrBefore(companies, now, day)| <= |Overdue(companies, now)|
  {
    KeepMonotone(companies, (c: Company) => IsOverdue(c, now) && NextDueOnOrBefore(c, day),
                 (c: Company) => IsOverdue(c, now));
  }

  /** A later day counts at least the companies an earlier day counts. */
  lemma CountMonotone(companies: seq<Company>, now: Timestamp, day1: int, day2: int)
    requires day1 <= day2
    ensures |OverdueOnOrBefore(companies, now, day1)| <= |OverdueOnOrBefore(companies, now, day2)|
  {
    KeepMonotone(companies, (c: Company) => IsOverdue(c, now) && NextDueOnOrBefore(c, day1),
                 (c: Company) => IsOverdue(c, now) && NextDueOnOrBefore(c, day2));
  }

  /** Today's count is every overdue company: an overdue next date lies before now. */
  lemma TodayCountsAllOverdue(companies: seq<Company>, now: Timestamp)
    ensures OverdueOnOrBefore(companies, now, DayOf(now)) == Overdue(companies, now)
  {
    forall c | c in companies && IsOverdue(c, now) ensures NextDueOnOrBefore(c, DayOf(now)) {
      OverdueDueNoLaterThanToday(c, now);
    }
    KeepSame(companies, (c: Company) => IsOverdue(c, now) && NextDueOnOrBefore(c, DayOf(now)),
             (c: Company) => IsOverdue(c, now));
  }

  /** The chart: labels and counts, both reversed so that the oldest day comes first. */
  datatype Chart = Chart(labels: seq<int>, data: seq<nat>)

  /** Position i of the chart is the day 6 - i days before today, with that day's count. */
  function TrendChart(companies: seq<Company>, now: Timestamp): (chart: Chart)
    ensures |chart.labels| == 7 && |chart.data| == 7
    ensures forall i :: 0 <= i < 7 ==> chart.labels[i] == DayOf(now) - 6 + i
    ensures forall i :: 0 <= i < 7 ==> chart.data[i] == |OverdueOnOrBefore(companies, now, chart.labels[i])|
  {
    var days := LastSevenDays(now);
    var counts := OverdueCount(companies, now);
    var chart := Chart(Reverse(days), Reverse(counts));
    assert forall i :: 0 <= i < 7 ==> chart.data[i] == |OverdueOnOrBefore(companies, now, chart.labels[i])| by {
      forall i | 0 <= i < 7 ensures chart.data[i] == |OverdueOnOrBefore(companies, now, chart.labels[i])| {
        assert chart.labels[i] == days[6 - i] == DayOf(now) - (6 - i);
        assert chart.data[i] == counts[6 - i];
      }
    }
    chart
  }

  /** Reversing the two lists together keeps each count beside its own day: the chart
      runs over the seven days ending today, oldest first, its counts never decrease, each
      is at most the number of overdue companies, and the last is exactly that number. */
  lemma TrendChartAligned(companies: seq<Company>, now: Timestamp)
    ensures |TrendChart(companies, now).labels| == 7 && |TrendChart(companies, now).data| == 7
    ensures forall i :: 0 <= i < 7 ==> TrendChart(companies, now).labels[i] == DayOf(now) - 6 + i
    ensures forall i :: 0 <= i < 7 ==>
              TrendChart(companies, now).data[i] ==
              |OverdueOnOrBefore(companies, now, TrendChart(companies, now).labels[i])|
    ensures forall i, j :: 0 <= i <= j < 7 ==> TrendChart(companies, now).data[i] <= TrendChart(companies, now).data[j]
    ensures forall i :: 0 <= i < 7 ==> TrendChart(companies, now).data[i] <= |Overdue(companies, now)|
    ensures TrendChart(companies, now).data[6] == |Overdue(companies, now)|
  {
    var chart := TrendChart(companies, now);
    forall i | 0 <= i < 7 ensures chart.data[i] <= |Overdue(companies, now)| {
      CountOnlyOverdue(companies, now, chart.labels[i]);
    }
    forall i, j | 0 <= i <= j < 7 ensures chart.data[i] <= chart.data[j] {
      CountMonotone(companies, now, chart.labels[i], chart.labels[j]);
    }
    TodayCountsAllOverdue(companies, now);
  }
}
