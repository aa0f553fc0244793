/** The contribution-calendar widget: the colour scale of a day cell, the
    placement of month labels above the week columns, and the widget's own
    state (the load join, the selected year, the hovered day) with the choice
    of what it shows. */
module ContributionGraph {
  import opened Wrappers
  import opened Contributions

  // ---------------------------------------------------------------------------
  // Colour scale

  /** The legend swatches, from "Less" to "More". */
  const Legend: seq<string> := ["rgba(255,255,255,0.05)", "#0e4429", "#006d32", "#26a641", "#39d353"]

  /** The lowest count of each green step. */
  const StepStarts: seq<int> := [1, 4, 7, 10]

  /** How many of `starts` the count has reached. */
  function Reached(starts: seq<int>, count: int): (k: nat)
    ensures k <= |starts|
  {
    if starts == [] then 0 else (if starts[0] <= count then 1 else 0) + Reached(starts[1..], count)
  }

  /** The legend position of a count: the number of step starts it reaches. */
  function Step(count: int): (k: nat)
    ensures k < |Legend|
  {
    Reached(StepStarts, count)
  }

  /** The step of a count, range by range. */
  lemma StepRanges(count: int)
    ensures count < 1 ==> Step(count) == 0
    ensures 1 <= count <= 3 ==> Step(count) == 1
    ensures 4 <= count <= 6 ==> Step(count) == 2
    ensures 7 <= count <= 9 ==> Step(count) == 3
    ensures 10 <= count ==> Step(count) == 4
  {
    var s4: seq<int> := [10];
    var s3: seq<int> := [7, 10];
    var s2: seq<int> := [4, 7, 10];
    assert s4[1..] == [] && s3[1..] == s4 && s2[1..] == s3 && StepStarts[1..] == s2;
    assert Reached(s4, count) == if 10 <= count then 1 else 0;
    assert Reached(s3, count) == (if 7 <= count then 1 else 0) + Reached(s4, count);
    assert Reached(s2, count) == (if 4 <= count then 1 else 0) + Reached(s3, count);
    assert Step(count) == (if 1 <= count then 1 else 0) + Reached(s2, count);
  }

  /** The colour of a day cell with `count` contributions. */
  function GetColor(count: int): (c: string)
    ensures count >= 0 ==> c == Legend[Step(count)]
    ensures count < 0 ==> c == Legend[1]
    ensures c == Legend[0] <==> count == 0
  {
    StepRanges(count);
    if count == 0 then "rgba(255,255,255,0.05)"
    else if count <= 3 then "#0e4429"
    else if count <= 6 then "#006d32"
    else if count <= 9 then "#26a641"
    else "#39d353"
  }

  lemma {:induction false} ReachedMonotone(starts: seq<int>, a: int, b: int)
    requires a <= b
    ensures Reached(starts, a) <= Reached(starts, b)
  {
    if starts != [] {
      ReachedMonotone(starts[1..], a, b);
    }
  }

  /** More contributions never give a fainter colour. */
  lemma StepMonotone(a: int, b: int)
    requires a <= b
    ensures Step(a) <= Step(b)
  {
    ReachedMonotone(StepStarts, a, b);
  }

  /** The top step has no upper bound. */
  lemma TopStepUnbounded(count: int)
    requires count >= 10
    ensures Step(count) == |Legend| - 1 && GetColor(count) == Legend[|Legend| - 1]
  {
    StepRanges(count);
  }

  // ---------------------------------------------------------------------------
  // Month labels

  const MonthNames: seq<string> := ["Jan", "Feb", "Mar", "Apr", "May", "Jun", "Jul", "Aug", "Sep", "Oct", "Nov", "Dec"]

  /** A month as `Date.prototype.getMonth` gives it. */
  type Month = m: int | 0 <= m < 12

  /** Pixel width of one week column. */
  const ColumnWidth := 15

  datatype MonthLabel = MonthLabel(month: string, offset: nat)

  /** The month of each week's first day; `monthOf` stands for reading a date
      string in the browser's time zone. */
  function WeekMonths(weeks: seq<Week>, monthOf: string -> Month): (months: seq<Month>)
    ensures |months| == |weeks|
    ensures forall i :: 0 <= i < |weeks| ==> months[i] == monthOf(weeks[i].firstDay)
  {
    seq<Month>(|weeks|, i requires 0 <= i < |weeks| => monthOf(weeks[i].firstDay))
  }

  /** `labels` is the month-label row for the first `n` weeks, whose months
      are given by `months`: week 0 is never labelled, week 1 always is, and
      after that a week is labelled exactly when its month differs from the
      month of the most recently labelled week. */
  ghost predicate LabelledUpTo(months: seq<Month>, labels: seq<MonthLabel>, n: nat)
  {
    && n <= |months|
    && LabelsPlaced(months, labels, n)
    && LabelsChangeMonth(months, labels)
    && LastRunKeepsMonth(months, labels, n)
  }

  /** Every label names its week's month and sits on a week from 1 to `n - 1`;
      week 1 is labelled exactly when there are at least two weeks. */
  ghost predicate LabelsPlaced(months: seq<Month>, labels: seq<MonthLabel>, n: nat)
    requires n <= |months|
  {
    && (forall k :: 0 <= k < |labels| ==>
          1 <= labels[k].offset < n && labels[k].month == MonthNames[months[labels[k].offset]])
    && (|labels| > 0 <==> n >= 2)
    && (|labels| > 0 ==> labels[0].offset == 1)
  }

  /** Consecutive labels are in week order and name different months, and the
      weeks between them keep the month of the earlier one. */
  ghost predicate LabelsChangeMonth(months: seq<Month>, labels: seq<MonthLabel>)
  {
    && (forall k :: 0 <= k < |labels| ==> labels[k].offset < |months|)
    && (forall k, l :: 0 <= k && l == k + 1 < |labels| ==>
          labels[k].offset < labels[l].offset && months[labels[k].offset] != months[labels[l].offset])
    && (forall k, l, i :: 0 <= k && l == k + 1 < |labels| && labels[k].offset < i < labels[l].offset ==>
          months[i] == months[labels[k].offset])
  }

  /** The weeks after the last label, up to `n`, keep its month. */
  ghost predicate LastRunKeepsMonth(months: seq<Month>, labels: seq<MonthLabel>, n: nat)
    requires n <= |months|
    requires forall k :: 0 <= k < |labels| ==> labels[k].offset < |months|
  {
    |labels| > 0 ==> forall i :: labels[|labels| - 1].offset < i < n ==>
      months[i] == months[labels[|labels| - 1].offset]
  }

  /** The label row for all the weeks. */
  ghost predicate IsLabelling(months: seq<Month>, labels: seq<MonthLabel>)
  {
    LabelledUpTo(months, labels, |months|)
  }

  /** The month of the most recently labelled week, -1 before the first label. */
  ghost function LastLabelled(months: seq<Month>, labels: seq<MonthLabel>, n: nat): int
    requires LabelledUpTo(months, labels, n)
  {
    if labels == [] then -1 else months[labels[|labels| - 1].offset]
  }

  /** Week `n` gets a label when it is not week 0 and its month differs from
      the last labelled one. */
  lemma LabelStep(months: seq<Month>, labels: seq<MonthLabel>, n: nat)
    requires LabelledUpTo(months, labels, n) && n < |months|
    requires n > 0 && months[n] != LastLabelled(months, labels, n)
    ensures LabelledUpTo(months, labels + [MonthLabel(MonthNames[months[n]], n)], n + 1)
    ensures LastLabelled(months, labels + [MonthLabel(MonthNames[months[n]], n)], n + 1) == months[n]
  {
    var labels' := labels + [MonthLabel(MonthNames[months[n]], n)];
    assert forall k :: 0 <= k < |labels| ==> labels'[k] == labels[k];
    forall k, l | 0 <= k && l == k + 1 < |labels'|
      ensures labels'[k].offset < labels'[l].offset && months[labels'[k].offset] != months[labels'[l].offset]
    {
      if l == |labels| {
        assert labels'[k] == labels[|labels| - 1];
      }
    }
    forall k, l, i | 0 <= k && l == k + 1 < |labels'| && labels'[k].offset < i < labels'[l].offset
      ensures months[i] == months[labels'[k].offset]
    {
      if l == |labels| {
        assert labels'[k] == labels[|labels| - 1];
      }
    }
    assert LabelsPlaced(months, labels', n + 1);
    assert LabelsChangeMonth(months, labels');
  }

  /** Otherwise week `n` is passed over. */
  lemma SkipStep(months: seq<Month>, labels: seq<MonthLabel>, n: nat)
    requires LabelledUpTo(months, labels, n) && n < |months|
    requires n == 0 || months[n] == LastLabelled(months, labels, n)
    ensures LabelledUpTo(months, labels, n + 1)
    ensures LastLabelled(months, labels, n + 1) == LastLabelled(months, labels, n)
  {
  }

  /** The memoised label derivation: no labels without an active calendar,
      otherwise one pass over the weeks remembering the last labelled month. */
  method MonthLabels(active: Option<Calendar>, monthOf: string -> Month) returns (labels: seq<MonthLabel>)
    ensures active.None? ==> labels == []
    ensures active.Some? ==> IsLabelling(WeekMonths(active.value.weeks, monthOf), labels)
  {
    if active.None? {
      return [];
    }
    var weeks := active.value.weeks;
    ghost var months := WeekMonths(weeks, monthOf);
    labels := [];
    var lastMonth: int := -1;
    var index := 0;
    while index < |weeks|
      invariant index <= |weeks|
      invariant LabelledUpTo(months, labels, index)
      invariant lastMonth == LastLabelled(months, labels, index)
    {
      var month := monthOf(weeks[index].firstDay);
      assert month == months[index];
      if month != lastMonth && index > 0 {
        LabelStep(months, labels, index);
        labels := labels + [MonthLabel(MonthNames[month], index)];
        lastMonth := month;
      } else {
        SkipStep(months, labels, index);
      }
      index := index + 1;
    }
  }

  /** Between two labels, and after the last, every week has the month of
      the label before it. */
  lemma GapMonth(months: seq<Month>, labels: seq<MonthLabel>, k: nat, i: int)
    requires IsLabelling(months, labels)
    requires k < |labels|
    ensures labels[k].offset < i < (if k + 1 < |labels| then labels[k + 1].offset else |months|) ==>
              months[i] == months[labels[k].offset]
  {
  }

  /** Consecutive labels sit at increasing offsets and name different months. */
  lemma NextLabelDiffers(months: seq<Month>, labels: seq<MonthLabel>, k: nat)
    requires IsLabelling(months, labels) && k < |labels|
    ensures k + 1 < |labels| ==> labels[k].offset < labels[k + 1].offset < |months|
    ensures k + 1 < |labels| ==> months[labels[k + 1].offset] != months[labels[k].offset]
  {
    if k + 1 < |labels| {
      var l := k + 1;
      assert labels[k].offset < labels[l].offset;
    }
  }

  /** Two label rows that both satisfy the rule agree on position `j`. */
  lemma {:induction false} LabellingAgreesAt(months: seq<Month>, a: seq<MonthLabel>, b: seq<MonthLabel>, j: nat)
    requires IsLabelling(months, a) && IsLabelling(months, b)
    requires j < |a| && j < |b|
    ensures a[j] == b[j]
  {
    if j > 0 {
      LabellingAgreesAt(months, a, b, j - 1);
      NextLabelDiffers(months, a, j - 1);
      NextLabelDiffers(months, b, j - 1);
      GapMonth(months, a, j - 1, b[j].offset);
      GapMonth(months, b, j - 1, a[j].offset);
      assert a[j].offset == b[j].offset;
    }
  }

  /** The labelling rule determines the label row: rerunning the derivation
      on the same weeks gives the same labels. */
  lemma LabellingUnique(months: seq<Month>, a: seq<MonthLabel>, b: seq<MonthLabel>)
    requires IsLabelling(months, a) && IsLabelling(months, b)
    ensures a == b
  {
    forall j | 0 <= j < |a| && j < |b|
      ensures a[j] == b[j]
    {
      LabellingAgreesAt(months, a, b, j);
    }
    var n := if |a| < |b| then |a| else |b|;
    if n > 0 {
      // The shorter row's last label covers every later week with its
      // month, while the longer row labels a later week with another month.
      LabellingAgreesAt(months, a, b, n - 1);
      NextLabelDiffers(months, a, n - 1);
      NextLabelDiffers(months, b, n - 1);
    }
  }

  /** Every label sits inside the row, whose width is one column per week,
      and never over week 0. */
  lemma LabelsInsideRow(months: seq<Month>, labels: seq<MonthLabel>)
    requires IsLabelling(months, labels)
    ensures forall k :: 0 <= k < |labels| ==>
              ColumnWidth <= labels[k].offset * ColumnWidth < |months| * ColumnWidth
  {
  }

  // ---------------------------------------------------------------------------
  // The widget's state

  const LoadFailedMessage := "Failed to load GitHub activity"
  const NoDataMessage := "No data available"

  /** The three years offered, oldest first. */
  function YearWindow(currentYear: int): (years: seq<int>)
    ensures |years| == 3 && years[2] == currentYear
    ensures forall i :: 0 < i < |years| ==> years[i] == years[i - 1] + 1
    ensures forall i, j :: 0 <= i < j < |years| ==> years[i] < years[j]
  {
    [currentYear - 2, currentYear - 1, currentYear]
  }

  /** The hovered cell: its date and count, and the pointer relative to the container. */
  datatype Hovered = Hovered(date: string, count: int, x: int, y: int)

  /** Left and top edges of the container's bounding box. */
  datatype Box = Box(left: int, top: int)

  datatype Tooltip = Tooltip(x: int, y: int, date: string, countText: string)

  /** What the widget shows. */
  datatype View =
    | Skeleton
    | Notice(text: string)
    | Grid(total: int, year: int, weeks: seq<Week>, rowWidth: int, tooltip: Option<Tooltip>)

  /** The tooltip's noun: singular only for exactly one contribution. */
  function ContributionNoun(count: int): (noun: string)
    ensures noun == "contribution" <==> count == 1
    ensures noun == "contributions" <==> count != 1
  {
    if count == 1 then "contribution" else "contributions"
  }

  predicate AllFetched(results: seq<Result<Option<Calendar>, FetchError>>)
  {
    forall i :: 0 <= i < |results| ==> results[i].Ok?
  }

  function FetchedValues(results: seq<Result<Option<Calendar>, FetchError>>): (values: seq<Option<Calendar>>)
    requires AllFetched(results)
    ensures |values| == |results|
    ensures forall i :: 0 <= i < |results| ==> values[i] == results[i].value
  {
    seq(|results|, i requires 0 <= i < |results| && AllFetched(results) => results[i].value)
  }

  /** No later position holds the same year. */
  predicate LastAt(years: seq<int>, i: nat)
  {
    forall j :: i < j < |years| ==> years[j] != years[i]
  }

  /** Fills the year-indexed record: each year is bound to the result at its
      own position (for a repeated year the later position wins). */
  method MapByYear(years: seq<int>, values: seq<Option<Calendar>>) returns (mapped: map<int, Option<Calendar>>)
    requires |years| == |values|
    ensures mapped.Keys == set y | y in years
    ensures forall i :: 0 <= i < |years| ==> years[i] in mapped
    ensures forall i :: 0 <= i < |years| && LastAt(years, i) ==> mapped[years[i]] == values[i]
  {
    mapped := map[];
    var index := 0;
    while index < |years|
      invariant 0 <= index <= |years|
      invariant forall y :: y in mapped <==> exists i :: 0 <= i < index && years[i] == y
      invariant forall i :: 0 <= i < index ==> years[i] in mapped
      invariant forall i :: 0 <= i < index && (forall j :: i < j < index ==> years[j] != years[i]) ==>
                  mapped[years[i]] == values[i]
    {
      mapped := mapped[years[index] := values[index]];
      index := index + 1;
    }
    assert forall y :: y in mapped <==> y in years;
  }

  class Widget {
    const username: string
    const currentYear: int
    const years: seq<int>
    var selectedYear: int
    var dataByYear: map<int, Option<Calendar>>
    var loading: bool
    var error: Option<string>
    var hoveredDay: Option<Hovered>

    /** The years are the fixed window, the selection is one of them, the
        record is empty or holds exactly those years, and the only error is
        the collapsed load failure. */
    ghost predicate Valid()
      reads this
    {
      && years == YearWindow(currentYear)
      && selectedYear in years
      && (dataByYear.Keys == {} || dataByYear.Keys == set y | y in years)
      && (error.Some? ==> error.value == LoadFailedMessage)
    }

    /** Mounting: the current year is selected, nothing is loaded yet, and
        the widget starts out loading. */
    constructor (username: string, currentYear: int)
      ensures Valid()
      ensures this.username == username && this.currentYear == currentYear
      ensures years == [currentYear - 2, currentYear - 1, currentYear]
      ensures selectedYear == currentYear && dataByYear == map[]
      ensures loading && error == None && hoveredDay == None
    {
      this.username := username;
      this.currentYear := currentYear;
      years := YearWindow(currentYear);
      selectedYear := currentYear;
      dataByYear := map[];
      loading := true;
      error := None;
      hoveredDay := None;
    }

    /** The calendar of the selected year, `undefined` when there is none. */
    function ActiveCalendar(): (active: Option<Calendar>)
      reads this
      ensures selectedYear !in dataByYear ==> active.None?
      ensures selectedYear in dataByYear ==> active == dataByYear[selectedYear]
    {
      if selectedYear in dataByYear then dataByYear[selectedYear] else None
    }

    /** Start of the load effect, which runs for the username and the year window. */
    method BeginLoad()
      requires Valid()
      modifies this`loading, this`error
      ensures Valid()
      ensures loading && error == None
    {
      loading := true;
      error := None;
    }

    /** The joined outcome of the three fetches, one per year in order. One
        failure fails the whole join and leaves the record as it was; when all
        succeed the record holds exactly the three years. */
    method CompleteLoad(results: seq<Result<Option<Calendar>, FetchError>>)
      requires Valid()
      requires |results| == |years|
      modifies this`loading, this`error, this`dataByYear
      ensures Valid()
      ensures !loading
      ensures AllFetched(results) ==> error == old(error)
      ensures AllFetched(results) ==> dataByYear.Keys == set y | y in years
      ensures AllFetched(results) ==> forall i :: 0 <= i < |years| ==> dataByYear[years[i]] == results[i].value
      ensures !AllFetched(results) ==> error == Some(LoadFailedMessage) && dataByYear == old(dataByYear)
      ensures !AllFetched(results) ==> Render() == Notice(LoadFailedMessage)
    {
      if AllFetched(results) {
        var mapped := MapByYear(years, FetchedValues(results));
        dataByYear := mapped;
      } else {
        error := Some(LoadFailedMessage);
      }
      loading := false;
    }

    /** A year button: only the selection changes. */
    method SelectYear(year: int)
      requires Valid()
      requires year in years
      modifies this`selectedYear
      ensures Valid()
      ensures selectedYear == year
    {
      selectedYear := year;
    }

    /** Pointer movement over a day cell; without a container nothing changes. */
    method Hover(container: Option<Box>, clientX: int, clientY: int, day: Day)
      modifies this`hoveredDay
      ensures container.None? ==> hoveredDay == old(hoveredDay)
      ensures container.Some? ==>
                hoveredDay == Some(Hovered(day.date, day.contributionCount,
                                           clientX - container.value.left, clientY - container.value.top))
    {
      if container.None? {
        return;
      }
      var rect := container.value;
      hoveredDay := Some(Hovered(day.date, day.contributionCount, clientX - rect.left, clientY - rect.top));
    }

    /** The pointer leaves a day cell. */
    method Leave()
      modifies this`hoveredDay
      ensures hoveredDay == None
    {
      hoveredDay := None;
    }

    /** What the widget shows for its current state. */
    function Render(): (v: View)
      reads this
      ensures v.Skeleton? <==> loading
      ensures v.Notice? <==> !loading && (error.Some? || ActiveCalendar().None?)
      ensures v.Notice? ==> v.text == (if error.Some? then error.value else NoDataMessage)
      ensures v.Grid? ==> ActiveCalendar().Some?
                          && v.total == ActiveCalendar().value.totalContributions
                          && v.year == selectedYear
                          && v.weeks == ActiveCalendar().value.weeks
                          && v.rowWidth == |v.weeks| * ColumnWidth
      ensures v.Grid? ==> (v.tooltip.Some? <==> hoveredDay.Some?)
      ensures v.Grid? && hoveredDay.Some? ==>
                v.tooltip.value == Tooltip(hoveredDay.value.x, hoveredDay.value.y, hoveredDay.value.date,
                                           IntToString(hoveredDay.value.count) + " " + ContributionNoun(hoveredDay.value.count))
    {
      if loading then Skeleton
      else if error.Some? || ActiveCalendar().None? then
        Notice(if error.Some? then error.value else NoDataMessage)
      else
        var calendar := ActiveCalendar().value;
        Grid(calendar.totalContributions, selectedYear, calendar.weeks, |calendar.weeks| * ColumnWidth,
             match hoveredDay
             case None => None
             case Some(h) => Some(Tooltip(h.x, h.y, h.date, IntToString(h.count) + " " + ContributionNoun(h.count))))
    }

    /** Once the record is filled, the grid is shown unless the load failed or
        the provider left the selected year's calendar undefined; "No data
        available" can only come from such an undefined calendar. */
    lemma LoadedShowsGrid()
      requires Valid()
      requires !loading && error.None? && dataByYear.Keys != {}
      ensures Render().Grid? <==> dataByYear[selectedYear].Some?
      ensures Render().Notice? ==> Render().text == NoDataMessage && dataByYear[selectedYear].None?
    {
    }
  }
}
