/** The HR reports tab's weekly hours chart: reading `dd/MM/yyyy` dates, reading the
    `"Xh Ym"` worked-time text, and adding each log's minutes to its day of the week. */
module HrReports {
  import opened JsText
  import opened Backend

  // ---------------------------------------------------------------------------
  // parseDate
  // ---------------------------------------------------------------------------

  /** A number produced by JavaScript's string-to-number conversion, as far as the model
      evaluates it: an integer, or some other value (NaN, a fraction, an exponent form). */
  datatype JsNumber = Int(value: int) | Other

  /** `Number(s)` for the forms the date fields take: the text is trimmed, the empty text is 0,
      and digits with an optional sign are read as a decimal integer. */
  function ToNumber(s: string): (n: JsNumber)
    ensures AllDigits(s) && s != [] ==> n == Int(DecimalValue(s))
    ensures AllWhitespace(s) ==> n == Int(0)
  {
    var t := Trim(s);
    TrimOfDigits(s);
    if t == [] then Int(0)
    else if AllDigits(t) then Int(DecimalValue(t))
    else if |t| > 1 && t[0] == '-' && AllDigits(t[1..]) then Int(0 - DecimalValue(t[1..]))
    else if |t| > 1 && t[0] == '+' && AllDigits(t[1..]) then Int(DecimalValue(t[1..]))
    else Other
  }

  /** A digit string has no whitespace to trim. */
  lemma TrimOfDigits(s: string)
    ensures AllDigits(s) ==> Trim(s) == s
  {
    if AllDigits(s) && s != [] {
      assert !IsJsWhitespace(s[0]) && !IsJsWhitespace(s[|s| - 1]);
      assert TrimStart(s) == s;
      assert TrimEnd(s) == s;
    }
  }

  /** `x - 1` */
  function MinusOne(n: JsNumber): JsNumber {
    if n.Int? then Int(n.value - 1) else Other
  }

  /** The arguments `new Date(year, monthIndex, day)` receives. */
  datatype DateFields = DateFields(year: JsNumber, monthIndex: JsNumber, day: JsNumber)

  /** parseDate: an empty text or one that does not split at `/` into exactly three pieces has
      no date; otherwise the pieces are day, month and year, and the month is made zero-based. */
  function ParseDate(dateStr: string): (r: Option<DateFields>)
    ensures r.Some? <==> dateStr != "" && Count(dateStr, '/') == 2
  {
    if dateStr == "" then None
    else
      var parts := Split(dateStr, '/');
      if |parts| != 3 then None
      else Some(DateFields(ToNumber(parts[2]), MinusOne(ToNumber(parts[1])), ToNumber(parts[0])))
  }

  /** A text made of three `/`-free pieces joined by `/` reads back as those pieces, taken as
      day, month and year and converted to numbers (for digit pieces, their decimal values). */
  lemma ParseDateOfPieces(day: string, month: string, year: string)
    requires '/' !in day && '/' !in month && '/' !in year
    ensures ParseDate(day + "/" + month + "/" + year)
            == Some(DateFields(ToNumber(year), MinusOne(ToNumber(month)), ToNumber(day)))
  {
    var s := day + "/" + month + "/" + year;
    SplitThree(day, month, year, '/');
    assert |s| > 0;
    ParseDateOfSplit(s, day, month, year);
  }

  lemma ParseDateOfSplit(s: string, day: string, month: string, year: string)
    requires s != "" && Split(s, '/') == [day, month, year]
    ensures ParseDate(s) == Some(DateFields(ToNumber(year), MinusOne(ToNumber(month)), ToNumber(day)))
  {
    var parts := Split(s, '/');
    assert parts[0] == day && parts[1] == month && parts[2] == year;
  }

  lemma SplitThree(a: string, b: string, c: string, sep: char)
    requires sep !in a && sep !in b && sep !in c
    ensures Split(a + [sep] + b + [sep] + c, sep) == [a, b, c]
  {
    assert a + [sep] + b + [sep] + c == a + [sep] + (b + [sep] + c);
    SplitPrefix(a, sep, b + [sep] + c);
    SplitPrefix(b, sep, c);
    SplitNoSeparator(c, sep);
  }

  // ---------------------------------------------------------------------------
  // The "Xh Ym" worked-time text
  // ---------------------------------------------------------------------------

  /** The end of the run of decimal digits that starts at `i`. */
  function RunEnd(s: string, i: nat): (j: nat)
    requires i <= |s|
    ensures i <= j <= |s| && AllDigits(s[i..j])
    ensures j == |s| || !IsAsciiDigit(s[j])
    decreases |s| - i
  {
    if i < |s| && IsAsciiDigit(s[i]) then
      var j := RunEnd(s, i + 1);
      assert s[i..j] == [s[i]] + s[i + 1..j];
      j
    else i
  }

  /** `/(\d+)<unit>/` can match at `i`: a digit starts there and the run of digits it begins is
      followed by `unit`. (A match starting inside a run would need the same run end, so it
      can only start where this holds.) */
  predicate MatchAt(s: string, i: nat, unit: char) {
    i < |s| && IsAsciiDigit(s[i]) && RunEnd(s, i) < |s| && s[RunEnd(s, i)] == unit
  }

  /** Every position inside a run of digits ends at the same place. */
  lemma {:induction false} RunEndInside(s: string, i: nat, k: nat)
    requires i <= |s| && i <= k < RunEnd(s, i)
    ensures RunEnd(s, k) == RunEnd(s, i)
    decreases k - i
  {
    if i < k {
      RunEndInside(s, i + 1, k);
    }
  }

  /** The leftmost position at or after `from` where `/(\d+)<unit>/` matches. */
  function FirstMatch(s: string, unit: char, from: nat): (r: Option<nat>)
    requires from <= |s|
    ensures r.Some? ==> from <= r.value < |s| && MatchAt(s, r.value, unit)
    ensures r.Some? ==> forall k :: from <= k < r.value ==> !MatchAt(s, k, unit)
    ensures r.None? ==> forall k :: from <= k < |s| ==> !MatchAt(s, k, unit)
    decreases |s| - from
  {
    if from == |s| then None
    else if !IsAsciiDigit(s[from]) then FirstMatch(s, unit, from + 1)
    else
      var j := RunEnd(s, from);
      if j < |s| && s[j] == unit then Some(from)
      else
        assert forall k :: from <= k < j ==> RunEnd(s, k) == j by {
          forall k | from <= k < j ensures RunEnd(s, k) == j {
            RunEndInside(s, from, k);
          }
        }
        FirstMatch(s, unit, j)
  }

  /** `match ? parseInt(match[1]) : 0` for the pattern `/(\d+)<unit>/`. */
  function Captured(s: string, unit: char): (c: nat)
    ensures c > 0 ==> unit in s
  {
    match FirstMatch(s, unit, 0)
    case None => 0
    case Some(k) => DecimalValue(s[k..RunEnd(s, k)])
  }

  /** The minutes a log contributes: none for a log still in progress, otherwise the hours
      and minutes its text names (each 0 when absent). */
  function WorkedMinutes(hoursWorked: string): (r: Option<nat>)
    ensures r.None? <==> hoursWorked == "In progress"
    ensures r.Some? && 'h' !in hoursWorked && 'm' !in hoursWorked ==> r == Some(0)
  {
    if hoursWorked == "In progress" then None
    else Some(Captured(hoursWorked, 'h') * 60 + Captured(hoursWorked, 'm'))
  }

  /** `"<x>h <y>m"` is read as x hours and y minutes. */
  lemma ReadHoursAndMinutes(x: string, y: string)
    requires AllDigits(x) && AllDigits(y) && x != [] && y != []
    ensures WorkedMinutes(x + "h " + y + "m") == Some(DecimalValue(x) * 60 + DecimalValue(y))
  {
    var s := x + "h " + y + "m";
    var p := |x| + 2;
    MatchesOfHoursAndMinutes(x, y);
    assert s[0] != "In progress"[0];
    assert s[0..RunEnd(s, 0)] == x;
    assert s[p..RunEnd(s, p)] == y;
    WorkedMinutesAt(s, p, x, y);
  }

  /** Where the two patterns match in `"<x>h <y>m"`, and where their digit runs end. */
  lemma MatchesOfHoursAndMinutes(x: string, y: string)
    requires AllDigits(x) && AllDigits(y) && x != [] && y != []
    ensures var s := x + "h " + y + "m";
      RunEnd(s, 0) == |x| && RunEnd(s, |x| + 2) == |s| - 1
      && FirstMatch(s, 'h', 0) == Some(0) && FirstMatch(s, 'm', 0) == Some(|x| + 2)
  {
    var s := x + "h " + y + "m";
    var n, p := |x|, |x| + 2;
    var q := p + |y|;
    assert |s| == q + 1 && s[n] == 'h' && s[n + 1] == ' ' && s[q] == 'm';
    assert s[0..n] == x && s[p..q] == y;
    RunOf(s, 0, n);
    RunOf(s, p, q);
    FirstMatchIs(s, 'h', 0, 0);
    NoMatchBefore(s, n, 'm');
    FirstMatchIs(s, 'm', 0, p);
  }

  /** No `/(\d+)m/` match starts in a leading digit run that ends at `h `. */
  lemma NoMatchBefore(s: string, n: nat, unit: char)
    requires n + 2 <= |s| && RunEnd(s, 0) == n && s[n] != unit && !IsAsciiDigit(s[n + 1])
    ensures forall k :: 0 <= k < n + 2 ==> !MatchAt(s, k, unit)
  {
    forall k | 0 <= k < n + 2 ensures !MatchAt(s, k, unit) {
      if k < n {
        RunEndInside(s, 0, k);
      }
    }
  }

  /** The minutes of a text whose first `h` match starts at 0 and first `m` match at `p`. */
  lemma WorkedMinutesAt(s: string, p: nat, x: string, y: string)
    requires p <= |s| && s != "In progress" && AllDigits(x) && AllDigits(y)
    requires FirstMatch(s, 'h', 0) == Some(0) && FirstMatch(s, 'm', 0) == Some(p)
    requires s[0..RunEnd(s, 0)] == x && s[p..RunEnd(s, p)] == y
    ensures WorkedMinutes(s) == Some(DecimalValue(x) * 60 + DecimalValue(y))
  {
  }

  /** A match with none before it is the one the pattern finds. */
  lemma FirstMatchIs(s: string, unit: char, from: nat, i: nat)
    requires from <= i < |s| && MatchAt(s, i, unit)
    requires forall k :: from <= k < i ==> !MatchAt(s, k, unit)
    ensures FirstMatch(s, unit, from) == Some(i)
  {
    var r := FirstMatch(s, unit, from);
  }

  /** A digit string between `i` and `j` followed by a non-digit is one whole run. */
  lemma {:induction false} RunOf(s: string, i: nat, j: nat)
    requires i <= j < |s| && AllDigits(s[i..j]) && !IsAsciiDigit(s[j])
    ensures RunEnd(s, i) == j
    decreases j - i
  {
    if i < j {
      assert IsAsciiDigit(s[i..j][0]);
      assert s[i + 1..j] == s[i..j][1..];
      RunOf(s, i + 1, j);
    }
  }

  /** A text naming no hours and no minutes contributes nothing (a bare number such as "2.5"
      included). */
  lemma NoUnitsMeansZero(s: string)
    requires 'h' !in s && 'm' !in s && s != "In progress"
    ensures WorkedMinutes(s) == Some(0)
  {
    NoMatchWithoutUnit(s, 'h', 0);
    NoMatchWithoutUnit(s, 'm', 0);
  }

  lemma NoMatchWithoutUnit(s: string, unit: char, from: nat)
    requires from <= |s| && unit !in s
    ensures FirstMatch(s, unit, from) == None
  {
  }

  // ---------------------------------------------------------------------------
  // The weekly totals
  // ---------------------------------------------------------------------------

  /** The index of a day of the week, Sunday first. */
  type Weekday = d: nat | d < 7

  /** What the chart takes from one log: its parsed date and its minutes, or nothing when the
      log is in progress or its date text does not split into three pieces. */
  function ChartEntry(log: AttendanceLog): (r: Option<(DateFields, nat)>)
    ensures r.Some? <==> log.hoursWorked != "In progress" && log.date != "" && Count(log.date, '/') == 2
    ensures r.Some? ==> ParseDate(log.date) == Some(r.value.0) && WorkedMinutes(log.hoursWorked) == Some(r.value.1)
  {
    match WorkedMinutes(log.hoursWorked)
    case None => None
    case Some(minutes) =>
      match ParseDate(log.date)
      case None => None
      case Some(d) => Some((d, minutes))
  }

  /** What one log adds to day `d`. `placeInWeek` stands for the calendar comparison with the
      current week: the day of the week of a date inside it, or `None` outside it. */
  function Contribution(log: AttendanceLog, placeInWeek: DateFields -> Option<Weekday>, d: Weekday): nat {
    var e := ChartEntry(log);
    if e.Some? && placeInWeek(e.value.0) == Some(d) then e.value.1 else 0
  }

  /** What one log adds to the week, whatever its day. */
  function WeekContribution(log: AttendanceLog, placeInWeek: DateFields -> Option<Weekday>): nat {
    var e := ChartEntry(log);
    if e.Some? && placeInWeek(e.value.0).Some? then e.value.1 else 0
  }

  /** The minutes the logs add to day `d`. */
  function DayMinutes(logs: seq<AttendanceLog>, placeInWeek: DateFields -> Option<Weekday>, d: Weekday): nat {
    if logs == [] then 0
    else DayMinutes(logs[..|logs| - 1], placeInWeek, d) + Contribution(logs[|logs| - 1], placeInWeek, d)
  }

  /** The minutes of every log that falls in the week. */
  function WeekMinutes(logs: seq<AttendanceLog>, placeInWeek: DateFields -> Option<Weekday>): nat {
    if logs == [] then 0
    else WeekMinutes(logs[..|logs| - 1], placeInWeek) + WeekContribution(logs[|logs| - 1], placeInWeek)
  }

  function SumDays(perDay: seq<nat>): nat {
    if perDay == [] then 0 else perDay[0] + SumDays(perDay[1..])
  }

  /** The seven bars, Sunday first. */
  function AllDays(logs: seq<AttendanceLog>, placeInWeek: DateFields -> Option<Weekday>): (bars: seq<nat>)
    ensures |bars| == 7 && forall d: Weekday :: bars[d] == DayMinutes(logs, placeInWeek, d)
  {
    seq(7, d requires 0 <= d < 7 => DayMinutes(logs, placeInWeek, d))
  }

  /** The seven bars together hold every counted minute of the week exactly once. */
  lemma {:induction false} BarsAddUpToWeek(logs: seq<AttendanceLog>, placeInWeek: DateFields -> Option<Weekday>)
    ensures SumDays(AllDays(logs, placeInWeek)) == WeekMinutes(logs, placeInWeek)
  {
    if logs != [] {
      var init, last := logs[..|logs| - 1], logs[|logs| - 1];
      BarsAddUpToWeek(init, placeInWeek);
      var add := seq(7, d requires 0 <= d < 7 => Contribution(last, placeInWeek, d));
      SumDaysPointwise(AllDays(init, placeInWeek), add, AllDays(logs, placeInWeek));
      OneLogOneDay(last, placeInWeek, add);
    } else {
      SumDaysZero(AllDays(logs, placeInWeek));
    }
  }

  /** A log adds its minutes to at most one day, and to one exactly when it is in the week. */
  lemma OneLogOneDay(log: AttendanceLog, placeInWeek: DateFields -> Option<Weekday>, add: seq<nat>)
    requires |add| == 7 && forall d: Weekday :: add[d] == Contribution(log, placeInWeek, d)
    ensures SumDays(add) == WeekContribution(log, placeInWeek)
  {
    var e := ChartEntry(log);
    if e.Some? && placeInWeek(e.value.0).Some? {
      SumDaysSingle(add, placeInWeek(e.value.0).value);
    } else {
      SumDaysZero(add);
    }
  }

  lemma {:induction false} SumDaysPointwise(a: seq<nat>, b: seq<nat>, c: seq<nat>)
    requires |a| == |b| == |c| && forall i :: 0 <= i < |c| ==> c[i] == a[i] + b[i]
    ensures SumDays(c) == SumDays(a) + SumDays(b)
  {
    if c != [] {
      SumDaysPointwise(a[1..], b[1..], c[1..]);
    }
  }

  /** A sequence that is zero except possibly at `k` sums to its entry at `k`. */
  lemma {:induction false} SumDaysSingle(a: seq<nat>, k: nat)
    requires k < |a| && forall i :: 0 <= i < |a| && i != k ==> a[i] == 0
    ensures SumDays(a) == a[k]
  {
    if k == 0 {
      SumDaysZero(a[1..]);
    } else {
      SumDaysSingle(a[1..], k - 1);
    }
  }

  lemma {:induction false} SumDaysZero(a: seq<nat>)
    requires forall i :: 0 <= i < |a| ==> a[i] == 0
    ensures SumDays(a) == 0
  {
    if a != [] {
      SumDaysZero(a[1..]);
    }
  }

  /** generateWeeklyHoursChart's loop over the logs: seven counters start at zero and each log
      that is finished, dated and in the current week adds its minutes to its day. */
  method WeeklyMinutes(logs: seq<AttendanceLog>, placeInWeek: DateFields -> Option<Weekday>) returns (perDay: array<nat>)
    ensures fresh(perDay) && perDay.Length == 7
    ensures perDay[..] == AllDays(logs, placeInWeek)
  {
    perDay := new nat[7](_ => 0);
    for i := 0 to |logs|
      invariant perDay.Length == 7
      invariant forall d: Weekday :: perDay[d] == DayMinutes(logs[..i], placeInWeek, d)
    {
      ghost var before := perDay[..];
      var e := ChartEntry(logs[i]);
      if e.Some? {
        var place := placeInWeek(e.value.0);
        if place.Some? {
          perDay[place.value] := perDay[place.value] + e.value.1;
        }
      }
      forall d: Weekday ensures perDay[d] == DayMinutes(logs[..i + 1], placeInWeek, d) {
        DayMinutesSnoc(logs, i, placeInWeek, d);
      }
    }
    assert logs[..|logs|] == logs;
  }

  lemma DayMinutesSnoc(logs: seq<AttendanceLog>, i: nat, placeInWeek: DateFields -> Option<Weekday>, d: Weekday)
    requires i < |logs|
    ensures DayMinutes(logs[..i + 1], placeInWeek, d) == DayMinutes(logs[..i], placeInWeek, d) + Contribution(logs[i], placeInWeek, d)
  {
    assert logs[..i + 1][..i] == logs[..i];
  }
}
