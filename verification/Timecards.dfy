/** Timecard entries: validation, project resolution and the mapping to Oracle's event
    (backend/services/timecard_entries.py, backend/services/otl_client.py,
    backend/api/v1/timecards.py), and the browser's own check
    (frontend/src/lib/entries.ts). Times are wall-clock minutes of one day. */
module Timecards {
  import opened Values
  import opened RequestIds

  /** An entry after its field aliases were resolved. `hours` is `None` when it is missing
      or not a finite number; `supplied` holds the values found under the names of its
      request id, and `listed` says whether its pay and expenditure types pass their own
      checks. */
  datatype Entry = Entry(
    hours: Option<real>, date: Value, startTime: Value, stopTime: Value, employeeNumber: Value,
    projectId: Value, projectNo: Value, projectName: Value, workOrder: Value,
    taskId: Value, taskDetails: Value, supplied: seq<Value>, listed: bool)

  datatype Task = Task(taskId: Value, taskDetails: Value)
  datatype Project = Project(id: Value, no: Value, name: Value, tasks: seq<Task>)
  datatype Order = Order(workOrder: Value, projects: seq<Project>)
  datatype Match = Match(project: Project, workOrder: Value)

  /** The configured limits; unset, unreadable and zero fall back to 24 hours. */
  datatype Limits = Limits(entryMax: Option<real>, dayMax: Option<real>)

  datatype Check =
    | Accepted
    | HoursMissing | HoursNotPositive | HoursNotQuarter | HoursTooMany
    | BadKey | BadDate | BadTime | StopWithoutStart | StopNotLater | SpanMismatch | NotListed
    | NoProject | NoTaskDetails
    | NotAssigned | AmbiguousProject | NameMismatch | WorkOrderMismatch | TaskNotAssigned

  const DEFAULT_MAX := 24.0

  function Effective(configured: Option<real>): real {
    if configured.Some? && configured.value != 0.0 then configured.value else DEFAULT_MAX
  }

  predicate IsInteger(x: real) { x == x.Floor as real }

  function CheckHours(hours: Option<real>, limits: Limits): Check {
    if hours.None? then HoursMissing
    else if hours.value <= 0.0 then HoursNotPositive
    else if !IsInteger(hours.value * 4.0) then HoursNotQuarter
    else if hours.value > Effective(limits.entryMax) then HoursTooMany
    else Accepted
  }

  // ---------------------------------------------------------------- dates and times

  function DigitValue(c: char): int { c as int - '0' as int }

  function TwoDigits(s: string, i: nat): int
    requires i + 2 <= |s|
  {
    DigitValue(s[i]) * 10 + DigitValue(s[i + 1])
  }

  predicate DigitsAt(s: string, at: set<nat>) {
    forall i | i in at :: i < |s| && IsDigit(s[i])
  }

  function DaysIn(year: int, month: int): int {
    if month in {4, 6, 9, 11} then 30
    else if month != 2 then 31
    else if year % 4 == 0 && (year % 100 != 0 || year % 400 == 0) then 29
    else 28
  }

  predicate IsRealDate(s: string) {
    |s| == 10 && s[4] == '-' && s[7] == '-' && DigitsAt(s, {0, 1, 2, 3, 5, 6, 8, 9})
    && var year := TwoDigits(s, 0) * 100 + TwoDigits(s, 2);
       var month, day := TwoDigits(s, 5), TwoDigits(s, 8);
       year >= 1 && 1 <= month <= 12 && 1 <= day <= DaysIn(year, month)
  }

  predicate DateOk(v: Value) { v.Null? || (v.Str? && IsRealDate(v.s)) }

  /** `Absent` for a missing time, `Bad` where parsing raises. */
  datatype Time = Absent | Bad | At(minutes: int)

  predicate ClockText(s: string) {
    |s| == 5 && s[2] == ':' && DigitsAt(s, {0, 1, 3, 4}) && TwoDigits(s, 0) <= 23 && TwoDigits(s, 3) <= 59
  }

  function ParseTime(v: Value): Time {
    if v.Null? then Absent
    else if v.Str? && ClockText(v.s) then At(TwoDigits(v.s, 0) * 60 + TwoDigits(v.s, 3))
    else Bad
  }

  function CheckTimes(e: Entry, hours: real): Check {
    var start, stop := ParseTime(e.startTime), ParseTime(e.stopTime);
    if start.Bad? || stop.Bad? then BadTime
    else if stop.At? && start.Absent? then StopWithoutStart
    else if start.Absent? || stop.Absent? then Accepted
    else if stop.minutes <= start.minutes then StopNotLater
    else if stop.minutes - start.minutes != (hours * 60.0).Floor then SpanMismatch
    else Accepted
  }

  // ---------------------------------------------------------------- the assigned project

  predicate MatchesEntry(e: Entry, p: Project) {
    if TextValue(e.projectNo) != "" then TextValue(p.no) == TextValue(e.projectNo)
    else TextValue(e.projectName) != "" && TextValue(p.name) == TextValue(e.projectName)
  }

  function OrderMatches(e: Entry, workOrder: Value, projects: seq<Project>): seq<Match> {
    if projects == [] then []
    else
      (if MatchesEntry(e, projects[0]) then [Match(projects[0], workOrder)] else [])
      + OrderMatches(e, workOrder, projects[1..])
  }

  function Matches(e: Entry, orders: seq<Order>): seq<Match> {
    if orders == [] then []
    else OrderMatches(e, orders[0].workOrder, orders[0].projects) + Matches(e, orders[1..])
  }

  function Identity(m: Match): (string, string, string, string) {
    (TextValue(m.project.id), TextValue(m.project.no), TextValue(m.project.name), TextValue(m.workOrder))
  }

  datatype Selection = Selected(m: Match) | Refused(why: Check)

  function Select(e: Entry, orders: seq<Order>): Selection {
    var matches := Matches(e, orders);
    if matches == [] then Refused(NotAssigned)
    else if exists i | 0 <= i < |matches| :: Identity(matches[i]) != Identity(matches[0]) then Refused(AmbiguousProject)
    else
      var m := matches[0];
      if TextValue(e.projectName) != "" && TextValue(m.project.name) != TextValue(e.projectName)
          then Refused(NameMismatch)
      else if TextValue(e.workOrder) != "" && TextValue(m.workOrder) != TextValue(e.workOrder)
           then Refused(WorkOrderMismatch)
      else Selected(m)
  }

  /** The selection as it runs: collect the matches of every order, then compare their
      identities as a set. */
  method AssignedProject(e: Entry, orders: seq<Order>) returns (selection: Selection)
    ensures selection == Select(e, orders)
  {
    var matches := CollectMatches(e, orders);
    if matches == [] {
      return Refused(NotAssigned);
    }
    var identities := set i | 0 <= i < |matches| :: Identity(matches[i]);
    OneIdentity(matches, identities);
    if |identities| > 1 {
      return Refused(AmbiguousProject);
    }
    var m := matches[0];
    if TextValue(e.projectName) != "" && TextValue(m.project.name) != TextValue(e.projectName) {
      return Refused(NameMismatch);
    }
    if TextValue(e.workOrder) != "" && TextValue(m.workOrder) != TextValue(e.workOrder) {
      return Refused(WorkOrderMismatch);
    }
    selection := Selected(m);
  }

  method CollectMatches(e: Entry, orders: seq<Order>) returns (matches: seq<Match>)
    ensures matches == Matches(e, orders)
  {
    matches := [];
    for i := 0 to |orders|
      invariant Matches(e, orders) == matches + Matches(e, orders[i..])
    {
      var found := CollectOrder(e, orders[i]);
      assert orders[i..][1..] == orders[i + 1..];
      matches := matches + found;
    }
  }

  lemma {:induction false} MatchesOfMore(e: Entry, workOrder: Value, ps: seq<Project>, p: Project)
    ensures OrderMatches(e, workOrder, ps + [p])
            == OrderMatches(e, workOrder, ps) + (if MatchesEntry(e, p) then [Match(p, workOrder)] else [])
  {
    if ps == [] {
      assert ps + [p] == [p];
      assert [p][1..] == [];
    } else {
      assert (ps + [p])[1..] == ps[1..] + [p];
      MatchesOfMore(e, workOrder, ps[1..], p);
    }
  }

  method CollectOrder(e: Entry, order: Order) returns (matches: seq<Match>)
    ensures matches == OrderMatches(e, order.workOrder, order.projects)
  {
    matches := [];
    var projects := order.projects;
    for j := 0 to |projects|
      invariant matches == OrderMatches(e, order.workOrder, projects[..j])
    {
      assert projects[..j + 1] == projects[..j] + [projects[j]];
      MatchesOfMore(e, order.workOrder, projects[..j], projects[j]);
      if MatchesEntry(e, projects[j]) {
        matches := matches + [Match(projects[j], order.workOrder)];
      }
    }
    assert projects[..|projects|] == projects;
  }

  lemma {:induction false} OneIdentity(matches: seq<Match>, identities: set<(string, string, string, string)>)
    requires matches != [] && identities == set i | 0 <= i < |matches| :: Identity(matches[i])
    ensures |identities| > 1 <==> exists i | 0 <= i < |matches| :: Identity(matches[i]) != Identity(matches[0])
  {
    var first := Identity(matches[0]);
    assert first in identities;
    if i :| 0 <= i < |matches| && Identity(matches[i]) != first {
      assert {first, Identity(matches[i])} <= identities;
      assert |identities - {first} - {Identity(matches[i])}| == |identities| - 2;
    } else {
      assert identities == {first};
    }
  }

  // ---------------------------------------------------------------- one entry

  predicate OwnsTask(p: Project, id: string) {
    exists t | t in p.tasks :: TextValue(t.taskId) == id
  }

  function CheckEntry(e: Entry, orders: Option<seq<Order>>, requireProject: bool, limits: Limits): Check {
    var hours := CheckHours(e.hours, limits);
    if !hours.Accepted? then hours
    else if KeyFor(e.supplied).BadKey? then Check.BadKey
    else if !DateOk(e.date) then BadDate
    else
      var times := CheckTimes(e, e.hours.value);
      if !times.Accepted? then times
      else if !e.listed then NotListed
      else if requireProject && TextValue(e.projectNo) == "" && TextValue(e.projectName) == ""
              && TextValue(e.projectId) == "" then NoProject
      else if requireProject && TextValue(e.taskDetails) == "" then NoTaskDetails
      else if orders.None? then Accepted
      else
        match Select(e, orders.value)
        case Refused(why) => why
        case Selected(m) =>
          if TextValue(e.taskId) != "" && !OwnsTask(m.project, TextValue(e.taskId)) then TaskNotAssigned
          else Accepted
  }

  lemma AssignedIsValid(e: Entry, orders: seq<Order>, limits: Limits)
    requires CheckEntry(e, Some(orders), true, limits).Accepted?
    ensures CheckEntry(e, None, true, limits).Accepted? && CheckEntry(e, None, false, limits).Accepted?
  {
  }

  // ---------------------------------------------------------------- the browser's check

  function Round(x: real): int { (x + 0.5).Floor }

  predicate BrowserHours(h: real) {
    h > 0.0 && h <= 24.0 && Round(h / 0.25) as real * 0.25 == h
  }

  predicate BrowserTimes(h: real, start: Value, stop: Value) {
    if start.Null? && stop.Null? then true
    else if !(start.Str? && ClockText(start.s) && stop.Str? && ClockText(stop.s)) then false
    else
      var s := TwoDigits(start.s, 0) * 60 + TwoDigits(start.s, 3);
      var t := TwoDigits(stop.s, 0) * 60 + TwoDigits(stop.s, 3);
      t > s && (t - s) as real == h * 60.0
  }

  lemma {:induction false} WholeNumbersRound(x: real, n: int)
    requires x == n as real
    ensures x.Floor == n && Round(x) == n
  {
    assert n as real <= x + 0.5 < (n + 1) as real;
  }

  lemma {:induction false} QuarterHours(h: real)
    ensures IsInteger(h * 4.0) <==> Round(h / 0.25) as real * 0.25 == h
    ensures IsInteger(h * 4.0) ==> (h * 60.0).Floor as real == h * 60.0
  {
    assert h / 0.25 == h * 4.0;
    if IsInteger(h * 4.0) {
      var n := (h * 4.0).Floor;
      WholeNumbersRound(h * 4.0, n);
      assert h * 60.0 == (15 * n) as real;
      WholeNumbersRound(h * 60.0, 15 * n);
    }
    if Round(h * 4.0) as real * 0.25 == h {
      WholeNumbersRound(h * 4.0, Round(h * 4.0));
    }
  }

  /** The browser accepts exactly those hours and times that the server accepts under
      its default limit, except that it wants both times or neither. */
  lemma {:induction false} BrowserAgreesWithServer(e: Entry, h: real)
    requires e.hours == Some(h)
    ensures BrowserHours(h) && BrowserTimes(h, e.startTime, e.stopTime)
            <==> CheckHours(e.hours, Limits(None, None)).Accepted? && CheckTimes(e, h).Accepted?
                 && (e.startTime.Null? <==> e.stopTime.Null?)
  {
    QuarterHours(h);
  }

  // ---------------------------------------------------------------- the mapping to Oracle

  /** The event sent to Oracle: minutes of the day, and the hours as a measure. */
  datatype Event = Event(reporter: string, start: real, stop: real, measure: real)

  predicate EmployeeOk(v: Value) { (v.Str? || v.Num? || v.Flag?) && Trim(ToText(v)) != "" }

  function Abs(x: real): real { if x < 0.0 then -x else x }

  /** `None` wherever the mapper refuses. */
  function MapEntry(e: Entry, limits: Limits, defaultStartHour: Option<int>): Option<Event> {
    if !CheckEntry(e, None, false, limits).Accepted? || !EmployeeOk(e.employeeNumber) then None
    else if defaultStartHour.None? || !(0 <= defaultStartHour.value <= 23) then None
    else
      var hours := e.hours.value;
      var start := match ParseTime(e.startTime)
                   case At(m) => m as real
                   case _ => (defaultStartHour.value * 60) as real;
      match ParseTime(e.stopTime)
      case At(m) =>
        var stop := m as real;
        if stop <= start then None
        else if Abs((stop - start) * 60.0 - hours * 3600.0) > 0.001 then None
        else Some(Event(Trim(ToText(e.employeeNumber)), start, stop, hours))
      case _ =>
        var stop := start + hours * 60.0;
        if stop >= 1440.0 then None
        else Some(Event(Trim(ToText(e.employeeNumber)), start, stop, hours))
  }

  lemma {:induction false} ClockRange(v: Value)
    requires ParseTime(v).At?
    ensures 0 <= ParseTime(v).minutes < 1440
  {
    assert IsDigit(v.s[0]) && IsDigit(v.s[1]) && IsDigit(v.s[3]) && IsDigit(v.s[4]);
  }

  /** A mapped event lies within its day, forwards, and spans exactly its hours. */
  lemma {:induction false} MappedEventIsExact(e: Entry, limits: Limits, defaultStartHour: Option<int>)
    requires MapEntry(e, limits, defaultStartHour).Some?
    ensures var ev := MapEntry(e, limits, defaultStartHour).value;
            && 0.0 <= ev.start < ev.stop < 1440.0
            && e.hours == Some(ev.measure) && ev.stop - ev.start == ev.measure * 60.0
            && (ParseTime(e.startTime).At? ==> ev.start == ParseTime(e.startTime).minutes as real)
            && (ParseTime(e.stopTime).At? ==> ev.stop == ParseTime(e.stopTime).minutes as real)
  {
    QuarterHours(e.hours.value);
    if ParseTime(e.startTime).At? { ClockRange(e.startTime); }
    if ParseTime(e.stopTime).At? { ClockRange(e.stopTime); }
  }

  /** The mapper adds only three reasons of its own to refuse a valid entry: the
      employee number, the default start hour, and hours that would run past midnight
      when no stop time was given. */
  lemma {:induction false} MapperRefusesOnly(e: Entry, limits: Limits, defaultStartHour: Option<int>)
    ensures MapEntry(e, limits, defaultStartHour).Some?
            <==> && CheckEntry(e, None, false, limits).Accepted? && EmployeeOk(e.employeeNumber)
                 && defaultStartHour.Some? && 0 <= defaultStartHour.value <= 23
                 && (ParseTime(e.stopTime).At?
                     || (var start := if ParseTime(e.startTime).At? then ParseTime(e.startTime).minutes
                          else defaultStartHour.value * 60;
                         start as real + e.hours.value * 60.0 < 1440.0))
  {
    if CheckEntry(e, None, false, limits).Accepted? { QuarterHours(e.hours.value); }
  }

  // ---------------------------------------------------------------- a whole submission

  function DayKey(e: Entry): string {
    if TextValue(e.date) == "" then "__undated__" else TextValue(e.date)
  }

  function HoursOf(e: Entry): real { if e.hours.Some? then e.hours.value else 0.0 }

  function Total(es: seq<Entry>, day: string): real {
    if es == [] then 0.0
    else (if DayKey(es[0]) == day then HoursOf(es[0]) else 0.0) + Total(es[1..], day)
  }

  ghost predicate AllValid(es: seq<Entry>, orders: Option<seq<Order>>, limits: Limits) {
    forall i | 0 <= i < |es| :: CheckEntry(es[i], orders, true, limits).Accepted?
  }

  ghost predicate DaysFit(es: seq<Entry>, dayMax: real) {
    forall i | 0 <= i < |es| :: Total(es, DayKey(es[i])) <= dayMax
  }

  /** Every entry is valid on its own, and no day holds more than its limit. */
  ghost predicate Acceptable(es: seq<Entry>, orders: Option<seq<Order>>, limits: Limits) {
    AllValid(es, orders, limits) && DaysFit(es, Effective(limits.dayMax))
  }

  datatype Verdict = AllAccepted | EntryRefused(index: nat, why: Check) | DayOverfull(index: nat)

  lemma {:induction false} TotalOfMore(es: seq<Entry>, e: Entry, day: string)
    ensures Total(es + [e], day) == Total(es, day) + (if DayKey(e) == day then HoursOf(e) else 0.0)
  {
    if es == [] {
      assert es + [e] == [e];
    } else {
      assert (es + [e])[1..] == es[1..] + [e];
      TotalOfMore(es[1..], e, day);
    }
  }

  lemma {:induction false} TotalGrows(es: seq<Entry>, n: nat, day: string)
    requires n <= |es| && forall i | 0 <= i < |es| :: HoursOf(es[i]) >= 0.0
    ensures Total(es[..n], day) <= Total(es, day)
    decreases |es| - n
  {
    if n == |es| {
      assert es[..n] == es;
    } else {
      assert es[..n + 1] == es[..n] + [es[n]];
      TotalOfMore(es[..n], es[n], day);
      TotalGrows(es, n + 1, day);
    }
  }

  lemma {:induction false} OneMoreFits(es: seq<Entry>, e: Entry, dayMax: real)
    requires DaysFit(es, dayMax)
    ensures DaysFit(es + [e], dayMax) <==> Total(es + [e], DayKey(e)) <= dayMax
  {
    var more := es + [e];
    assert more[|es|] == e;
    forall i | 0 <= i < |es|
      ensures more[i] == es[i] && (DayKey(es[i]) != DayKey(e) ==> Total(more, DayKey(es[i])) <= dayMax)
    {
      TotalOfMore(es, e, DayKey(es[i]));
    }
  }

  lemma {:induction false} ValidHours(es: seq<Entry>, orders: Option<seq<Order>>, limits: Limits)
    requires AllValid(es, orders, limits)
    ensures forall i | 0 <= i < |es| :: HoursOf(es[i]) >= 0.0
  {
    forall i | 0 <= i < |es| ensures HoursOf(es[i]) >= 0.0 {
      assert CheckEntry(es[i], orders, true, limits).Accepted?;
    }
  }

  lemma ValidHasHours(e: Entry, orders: Option<seq<Order>>, limits: Limits)
    requires CheckEntry(e, orders, true, limits).Accepted?
    ensures e.hours.Some?
  {
  }

  lemma {:induction false} ValidOfMore(es: seq<Entry>, e: Entry, orders: Option<seq<Order>>, limits: Limits)
    requires AllValid(es, orders, limits) && CheckEntry(e, orders, true, limits).Accepted?
    ensures AllValid(es + [e], orders, limits)
  {
    var more := es + [e];
    forall i | 0 <= i < |more| ensures CheckEntry(more[i], orders, true, limits).Accepted? {
      if i < |es| { assert more[i] == es[i]; } else { assert more[i] == e; }
    }
  }

  /** What a verdict says about the entry it names: the ones before it are acceptable,
      and it is invalid, or valid but too much for its day. */
  ghost predicate Explains(es: seq<Entry>, v: Verdict, orders: Option<seq<Order>>, limits: Limits) {
    match v
    case AllAccepted => true
    case EntryRefused(i, why) =>
      i < |es| && Acceptable(es[..i], orders, limits) && CheckEntry(es[i], orders, true, limits) == why != Accepted
    case DayOverfull(i) =>
      i < |es| && Acceptable(es[..i], orders, limits) && CheckEntry(es[i], orders, true, limits).Accepted?
      && Total(es[..i] + [es[i]], DayKey(es[i])) > Effective(limits.dayMax)
  }

  /** The loop stops at the first bad entry or overfull day, yet accepts exactly the
      submissions the closed form accepts. */
  method ValidateEntries(es: seq<Entry>, orders: Option<seq<Order>>, limits: Limits) returns (v: Verdict)
    ensures v.AllAccepted? <==> Acceptable(es, orders, limits)
    ensures Explains(es, v, orders, limits)
  {
    var totals: map<string, real> := map[];
    for n := 0 to |es|
      invariant Acceptable(es[..n], orders, limits) && TotalsOf(es[..n], totals)
    {
      assert es[..n + 1] == es[..n] + [es[n]];
      v, totals := ValidateNext(n, es[..n], es[n], totals, orders, limits);
      if !v.AllAccepted? {
        Stops(es, n, v, orders, limits);
        return;
      }
    }
    assert es[..|es|] == es;
    v := AllAccepted;
  }

  ghost predicate NextVerdict(v: Verdict, n: nat, es: seq<Entry>, e: Entry, orders: Option<seq<Order>>,
                              limits: Limits) {
    match v
    case AllAccepted => Acceptable(es + [e], orders, limits)
    case EntryRefused(i, why) => i == n && CheckEntry(e, orders, true, limits) == why != Accepted
    case DayOverfull(i) =>
      i == n && CheckEntry(e, orders, true, limits).Accepted? && Total(es + [e], DayKey(e)) > Effective(limits.dayMax)
  }

  lemma {:induction false} Stops(es: seq<Entry>, n: nat, v: Verdict, orders: Option<seq<Order>>, limits: Limits)
    requires n < |es| && Acceptable(es[..n], orders, limits)
    requires !v.AllAccepted? && NextVerdict(v, n, es[..n], es[n], orders, limits)
    ensures !Acceptable(es, orders, limits) && Explains(es, v, orders, limits)
  {
    Spoils(es, n, orders, limits);
  }

  /** The body of the loop: the entry's own check, then its day's running total. */
  method ValidateNext(n: nat, ghost es: seq<Entry>, e: Entry, totals: map<string, real>,
                      orders: Option<seq<Order>>, limits: Limits)
    returns (v: Verdict, totals': map<string, real>)
    requires Acceptable(es, orders, limits) && TotalsOf(es, totals)
    ensures NextVerdict(v, n, es, e, orders, limits)
    ensures v.AllAccepted? ==> TotalsOf(es + [e], totals')
  {
    var check := CheckEntry(e, orders, true, limits);
    if !check.Accepted? {
      return EntryRefused(n, check), totals;
    }
    ValidHasHours(e, orders, limits);
    totals' := AddHours(es, e, totals);
    if totals'[DayKey(e)] > Effective(limits.dayMax) {
      return DayOverfull(n), totals';
    }
    ValidOfMore(es, e, orders, limits);
    OneMoreFits(es, e, Effective(limits.dayMax));
    v := AllAccepted;
  }

  /** What stops the loop refuses the submission as a whole. */
  lemma {:induction false} Spoils(es: seq<Entry>, n: nat, orders: Option<seq<Order>>, limits: Limits)
    requires n < |es|
    requires !CheckEntry(es[n], orders, true, limits).Accepted?
             || Total(es[..n] + [es[n]], DayKey(es[n])) > Effective(limits.dayMax)
    ensures !Acceptable(es, orders, limits)
  {
    if AllValid(es, orders, limits) {
      ValidHours(es, orders, limits);
      Overflows(es, n, Effective(limits.dayMax));
    }
  }

  lemma {:induction false} Overflows(es: seq<Entry>, n: nat, dayMax: real)
    requires n < |es| && forall i | 0 <= i < |es| :: HoursOf(es[i]) >= 0.0
    ensures Total(es[..n] + [es[n]], DayKey(es[n])) > dayMax ==> !DaysFit(es, dayMax)
  {
    assert es[..n + 1] == es[..n] + [es[n]];
    TotalGrows(es, n + 1, DayKey(es[n]));
  }

  /** The running totals hold every day's hours so far. */
  ghost predicate TotalsOf(es: seq<Entry>, totals: map<string, real>) {
    forall day: string :: Total(es, day) == if day in totals then totals[day] else 0.0
  }

  /** Adds an entry's hours to its day. */
  method AddHours(ghost es: seq<Entry>, e: Entry, totals: map<string, real>) returns (totals': map<string, real>)
    requires e.hours.Some?
    requires TotalsOf(es, totals)
    ensures DayKey(e) in totals' && totals'[DayKey(e)] == Total(es + [e], DayKey(e))
    ensures TotalsOf(es + [e], totals')
  {
    var day := DayKey(e);
    totals' := totals[day := (if day in totals then totals[day] else 0.0) + e.hours.value];
    forall d: string
      ensures Total(es + [e], d) == Total(es, d) + (if day == d then HoursOf(e) else 0.0)
    {
      TotalOfMore(es, e, d);
    }
  }

  lemma {:induction false} TotalWithout(es: seq<Entry>, j: nat, day: string)
    requires j < |es|
    ensures Total(es, day) == Total(es[..j] + es[j + 1..], day) + (if DayKey(es[j]) == day then HoursOf(es[j]) else 0.0)
  {
    if j == 0 {
      assert es[..0] + es[1..] == es[1..];
    } else {
      TotalWithout(es[1..], j - 1, day);
      assert es[1..][..j - 1] + es[1..][j..] == (es[..j] + es[j + 1..])[1..];
    }
  }

  lemma {:induction false} PullOut(es: seq<Entry>, e: Entry, day: string) returns (rest: seq<Entry>)
    requires e in multiset(es)
    ensures multiset(rest) == multiset(es) - multiset{e} && |rest| < |es|
    ensures Total(es, day) == Total(rest, day) + (if DayKey(e) == day then HoursOf(e) else 0.0)
  {
    var j :| 0 <= j < |es| && es[j] == e;
    rest := es[..j] + es[j + 1..];
    assert es == es[..j] + ([e] + es[j + 1..]);
    TotalWithout(es, j, day);
  }

  lemma {:induction false} TotalOfPermutation(a: seq<Entry>, b: seq<Entry>, day: string)
    requires multiset(a) == multiset(b)
    ensures Total(a, day) == Total(b, day)
    decreases |a|
  {
    if a == [] {
      assert |multiset(b)| == 0 && b == [];
    } else {
      assert a[0] in multiset(a);
      var a' := PullOut(a, a[0], day);
      var b' := PullOut(b, a[0], day);
      TotalOfPermutation(a', b', day);
    }
  }

  /** The verdict does not depend on the order of the entries. */
  lemma {:induction false} OrderIsIrrelevant(a: seq<Entry>, b: seq<Entry>, orders: Option<seq<Order>>, limits: Limits)
    requires multiset(a) == multiset(b)
    ensures Acceptable(a, orders, limits) <==> Acceptable(b, orders, limits)
  {
    if Acceptable(a, orders, limits) { AcceptableOneWay(a, b, orders, limits); }
    if Acceptable(b, orders, limits) { AcceptableOneWay(b, a, orders, limits); }
  }

  lemma {:induction false} AcceptableOneWay(a: seq<Entry>, b: seq<Entry>, orders: Option<seq<Order>>, limits: Limits)
    requires multiset(a) == multiset(b) && Acceptable(a, orders, limits)
    ensures Acceptable(b, orders, limits)
  {
    forall i | 0 <= i < |b|
      ensures CheckEntry(b[i], orders, true, limits).Accepted?
      ensures Total(b, DayKey(b[i])) <= Effective(limits.dayMax)
    {
      assert b[i] in multiset(a);
      var j :| 0 <= j < |a| && a[j] == b[i];
      TotalOfPermutation(a, b, DayKey(b[i]));
    }
  }

  // ---------------------------------------------------------------- resolving and submitting

  /** The signed-in employee. */
  datatype Session = Session(employeeId: string)

  function NamedTask(tasks: seq<Task>, name: string, fold: string -> string): Option<Value> {
    if tasks == [] then None
    else if fold(ToText(tasks[0].taskDetails)) == fold(name) then Some(tasks[0].taskId)
    else NamedTask(tasks[1..], name, fold)
  }

  /** `_resolve_entry`: the session's employee, the assigned project's identity, and a
      task id looked up by name when none was given. `fold` is the case folding. */
  function Resolve(e: Entry, session: Session, orders: Option<seq<Order>>, fold: string -> string): Entry {
    var e' := e.(employeeNumber := Str(session.employeeId));
    if orders.None? || Select(e, orders.value).Refused? then e'
    else
      var m := Select(e, orders.value).m;
      var r := e'.(projectId := m.project.id, projectNo := m.project.no, projectName := m.project.name,
          workOrder := m.workOrder);
      if Truthy(e.taskId) || !Truthy(e.taskDetails) then r
      else
        match NamedTask(m.project.tasks, ToText(e.taskDetails), fold)
        case Some(id) => r.(taskId := id)
        case None => r
  }

  lemma {:induction false} NamedTaskIsListed(tasks: seq<Task>, name: string, fold: string -> string)
    requires NamedTask(tasks, name, fold).Some?
    ensures exists t | t in tasks :: t.taskId == NamedTask(tasks, name, fold).value
  {
    if fold(ToText(tasks[0].taskDetails)) == fold(name) {
      assert tasks[0] in tasks;
    } else {
      NamedTaskIsListed(tasks[1..], name, fold);
      var t :| t in tasks[1..] && t.taskId == NamedTask(tasks, name, fold).value;
      assert t in tasks;
    }
  }

  /** What the submission promises about every row it sends. */
  ghost predicate Authorised(e: Entry, r: Entry, session: Session, orders: seq<Order>) {
    && r.employeeNumber == Str(session.employeeId)
    && r.hours == e.hours && r.date == e.date && r.startTime == e.startTime && r.stopTime == e.stopTime
    && r.supplied == e.supplied
    && exists m | m in Matches(e, orders) ::
         && (r.projectId, r.projectNo, r.projectName, r.workOrder)
              == (m.project.id, m.project.no, m.project.name, m.workOrder)
         && (forall other | other in Matches(e, orders) :: Identity(other) == Identity(m))
         && (TextValue(r.taskId) != "" ==> OwnsTask(m.project, TextValue(r.taskId)))
  }

  lemma {:induction false} ResolvedIsAuthorised(e: Entry, session: Session, orders: seq<Order>, limits: Limits,
                                                fold: string -> string)
    requires CheckEntry(e, Some(orders), true, limits).Accepted?
    ensures Authorised(e, Resolve(e, session, Some(orders), fold), session, orders)
  {
    var r := Resolve(e, session, Some(orders), fold);
    var matches := Matches(e, orders);
    var m := Select(e, orders).m;
    assert m == matches[0] && m in matches;
    forall other | other in matches ensures Identity(other) == Identity(m) {
      var i :| 0 <= i < |matches| && matches[i] == other;
    }
    if r.taskId != e.taskId {
      NamedTaskIsListed(m.project.tasks, ToText(e.taskDetails), fold);
    }
  }

  /** Resolving does not spoil validity: the mapper's own validation passes again. */
  lemma {:induction false} ResolvedStaysValid(e: Entry, session: Session, orders: seq<Order>, limits: Limits,
                                              fold: string -> string)
    requires CheckEntry(e, Some(orders), true, limits).Accepted?
    ensures CheckEntry(Resolve(e, session, Some(orders), fold), None, false, limits).Accepted?
  {
    AssignedIsValid(e, orders, limits);
    SameOwnFields(e, Resolve(e, session, Some(orders), fold), limits);
  }

  lemma SameOwnFields(e: Entry, r: Entry, limits: Limits)
    requires (r.hours, r.date, r.startTime, r.stopTime, r.supplied, r.listed)
             == (e.hours, e.date, e.startTime, e.stopTime, e.supplied, e.listed)
    ensures CheckEntry(r, None, false, limits) == CheckEntry(e, None, false, limits)
  {
  }

  /** Rows fit to be sent: one per entry, authorised and valid. */
  ghost predicate Prepared(es: seq<Entry>, rows: seq<Entry>, session: Session, orders: seq<Order>, limits: Limits) {
    |rows| == |es|
    && forall i | 0 <= i < |es| ::
         Authorised(es[i], rows[i], session, orders) && CheckEntry(rows[i], None, false, limits).Accepted?
  }

  lemma {:induction false} OneMorePrepared(es: seq<Entry>, rows: seq<Entry>, e: Entry, session: Session,
                                           orders: seq<Order>, limits: Limits,
                        fold: string -> string)
    requires Prepared(es, rows, session, orders, limits) && CheckEntry(e, Some(orders), true, limits).Accepted?
    ensures Prepared(es + [e], rows + [Resolve(e, session, Some(orders), fold)], session, orders, limits)
  {
    ResolvedIsAuthorised(e, session, orders, limits, fold);
    ResolvedStaysValid(e, session, orders, limits, fold);
  }

  method ResolveAll(es: seq<Entry>, session: Session, orders: seq<Order>, limits: Limits, fold: string -> string)
    returns (rows: seq<Entry>)
    requires AllValid(es, Some(orders), limits)
    ensures Prepared(es, rows, session, orders, limits)
  {
    rows := [];
    for i := 0 to |es|
      invariant Prepared(es[..i], rows, session, orders, limits)
    {
      assert es[..i + 1] == es[..i] + [es[i]];
      OneMorePrepared(es[..i], rows, es[i], session, orders, limits, fold);
      rows := rows + [Resolve(es[i], session, Some(orders), fold)];
    }
    assert es[..|es|] == es;
  }

  // ---------------------------------------------------------------- the request ids of a submission

  const MAX_ENTRIES := 100

  /** The request id of a submission as a whole: the body's, unless it is missing or empty,
      and else the header's. */
  function SubmissionId(body: Option<string>, header: Option<string>): Option<string> {
    if body.Some? && body.value != "" then body else header
  }

  predicate ValidId(id: Option<string>) { id.Some? ==> ValidKey(Str(id.value)) }

  function EntryIds(es: seq<Entry>): seq<Option<string>> {
    seq(|es|, i requires 0 <= i < |es| => IdOf(es[i]))
  }

  function IdOf(e: Entry): Option<string> {
    match KeyFor(e.supplied)
    case Key(k) => Some(k)
    case _ => None
  }

  /** Header and body agree where both are given; a shared id is valid, belongs to a single
      entry, and is the one that entry names, if any; the entries' own ids are valid and
      distinct. */
  ghost predicate IdsAgree(es: seq<Entry>, body: Option<string>, header: Option<string>) {
    var shared := SubmissionId(body, header);
    && (body.Some? && header.Some? ==> ValidId(body) && body == header)
    && ValidId(shared) && (shared.Some? ==> |es| == 1)
    && (forall i | 0 <= i < |es| :: IdAgrees(es[i], shared)) && DistinctKeys(EntryIds(es))
  }

  predicate IdAgrees(e: Entry, shared: Option<string>) {
    var k := KeyFor(e.supplied);
    !k.BadKey? && (k.Key? && shared.Some? ==> k.key == shared.value)
  }

  /** The request-id stage of a submission: `None` where it refuses, and else the shared id,
      if there is one. */
  method CheckIds(es: seq<Entry>, body: Option<string>, header: Option<string>) returns (shared: Option<Option<string>>)
    ensures shared.Some? <==> IdsAgree(es, body, header)
    ensures shared.Some? ==> shared.value == SubmissionId(body, header)
  {
    if body.Some? && header.Some? && !(ValidId(header) && ValidId(body) && header == body) {
      return None;
    }
    var id := SubmissionId(body, header);
    if !ValidId(id) || (id.Some? && |es| != 1) {
      return None;
    }
    var ok := CheckEntryIds(es, id);
    shared := if ok then Some(id) else None;
  }

  /** The loop over the entries: each id agrees with the shared one, and none occurs twice. */
  method CheckEntryIds(es: seq<Entry>, shared: Option<string>) returns (ok: bool)
    ensures ok <==> (forall i | 0 <= i < |es| :: IdAgrees(es[i], shared)) && DistinctKeys(EntryIds(es))
  {
    ghost var ids := EntryIds(es);
    var seen: set<string> := {};
    for n := 0 to |es|
      invariant forall k :: k in seen <==> Some(k) in ids[..n]
      invariant DistinctKeys(ids[..n]) && forall i | 0 <= i < n :: IdAgrees(es[i], shared)
    {
      var k := KeyForEntry(es[n].supplied);
      assert ids[n] == IdOf(es[n]) && ids[..n + 1] == ids[..n] + [ids[n]];
      if k.BadKey? || (shared.Some? && k.Key? && k.key != shared.value) {
        assert !IdAgrees(es[n], shared);
        return false;
      }
      if k.Key? {
        if k.key in seen {
          SeenTwice(ids, n);
          return false;
        }
        seen := seen + {k.key};
      }
    }
    assert ids[..|es|] == ids;
    ok := true;
  }

  lemma {:induction false} SeenTwice(ids: seq<Option<string>>, n: nat)
    requires n < |ids| && ids[n].Some? && ids[n] in ids[..n]
    ensures !DistinctKeys(ids)
  {
    var i :| 0 <= i < n && ids[..n][i] == ids[n];
    assert ids[i] == ids[n];
  }

  /** What `submit_timecard` hands to the submitter. */
  datatype Submission = Submission(rows: seq<Entry>, requestId: Option<string>)

  /** `submit_timecard` up to the POSTs: count the entries, check the request ids, validate,
      look the assignments up (`None` while the catalogue cannot be read), validate against
      them, resolve. It sends every row or none, and exactly the acceptable submissions get
      through. */
  method PrepareSubmission(es: seq<Entry>, body: Option<string>, header: Option<string>, session: Session,
                           orders: Option<seq<Order>>, limits: Limits, fold: string -> string)
    returns (sent: Option<Submission>)
    ensures sent.Some? <==> 1 <= |es| <= MAX_ENTRIES && IdsAgree(es, body, header)
                            && orders.Some? && Acceptable(es, orders, limits)
    ensures sent.Some? ==> sent.value.requestId == SubmissionId(body, header)
    ensures sent.Some? ==> Prepared(es, sent.value.rows, session, orders.value, limits)
  {
    if |es| > MAX_ENTRIES || es == [] {
      return None;
    }
    var shared := CheckIds(es, body, header);
    if shared.None? {
      return None;
    }
    var plain := ValidateEntries(es, None, limits);
    AssignmentIsStricter(es, orders, limits);
    if !plain.AllAccepted? {
      return None;
    }
    if orders.None? {
      return None;
    }
    var checked := ValidateEntries(es, orders, limits);
    if !checked.AllAccepted? {
      return None;
    }
    var rows := ResolveAll(es, session, orders.value, limits, fold);
    sent := Some(Submission(rows, shared.value));
  }

  lemma {:induction false} AssignmentIsStricter(es: seq<Entry>, orders: Option<seq<Order>>, limits: Limits)
    ensures Acceptable(es, orders, limits) ==> Acceptable(es, None, limits)
  {
    if orders.Some? && Acceptable(es, orders, limits) {
      forall i | 0 <= i < |es| ensures CheckEntry(es[i], None, true, limits).Accepted? {
        AssignedIsValid(es[i], orders.value, limits);
      }
    }
  }

  /** From the submission to Oracle: the event of a row that was sent reports the session's
      employee and the hours and times of the entry it came from, within one day. A row
      gets no event exactly when the employee number is blank, the default start hour is
      unusable, or the hours run past midnight for want of a stop time. */
  lemma {:induction false} SentEventIsTheEntrys(e: Entry, r: Entry, session: Session, orders: seq<Order>,
                                                limits: Limits,
                                                defaultStartHour: Option<int>)
    requires Authorised(e, r, session, orders) && CheckEntry(r, None, false, limits).Accepted?
    ensures var ev := MapEntry(r, limits, defaultStartHour);
            && (ev.Some? ==>
                  && ev.value.reporter == Trim(session.employeeId) != ""
                  && e.hours == Some(ev.value.measure) && ev.value.stop - ev.value.start == ev.value.measure * 60.0
                  && 0.0 <= ev.value.start < ev.value.stop < 1440.0
                  && (ParseTime(e.startTime).At? ==> ev.value.start == ParseTime(e.startTime).minutes as real)
                  && (ParseTime(e.stopTime).At? ==> ev.value.stop == ParseTime(e.stopTime).minutes as real))
            && (ev.None? <==>
                  || Trim(session.employeeId) == "" || defaultStartHour.None? || !(0 <= defaultStartHour.value <= 23)
                  || (!ParseTime(e.stopTime).At?
                      && (if ParseTime(e.startTime).At? then ParseTime(e.startTime).minutes
                           else defaultStartHour.value * 60) as real
                         + e.hours.value * 60.0 >= 1440.0))
  {
    MapperRefusesOnly(r, limits, defaultStartHour);
    if MapEntry(r, limits, defaultStartHour).Some? { MappedEventIsExact(r, limits, defaultStartHour); }
  }
}
