/**
 * The monthly report page (src/pages/Dashboard/relatorios.tsx): the selected month and
 * year with their navigation, the fetched point records, their grouping by calendar day,
 * the grid with one row per day of the month, and the text of each row.
 *
 * Instants are integer milliseconds since the epoch. The calendar day a check-in falls on
 * (its date text in the São Paulo time zone) and the hour and minute a row shows for an
 * instant depend on time-zone data, so they are parameters: `keyOf` and `clockOf`.
 */
module Relatorios {
  import opened JsText
  import opened Seqs
  import opened Wrappers
  import opened Clock

  /** A point record from the server: one check-in with an optional check-out. */
  datatype PointRecord = PointRecord(id: string, userId: string, checkIn: int, checkOut: Option<int>)

  /** One day of the month grid. */
  datatype DayInfo = DayInfo(day: nat, dateString: string, records: seq<PointRecord>)

  datatype MonthYear = MonthYear(month: int, year: int)

  datatype CivilDate = CivilDate(year: int, month: int, day: int)

  /** The hour and minute a row shows for an instant. */
  datatype ClockReading = ClockReading(hour: nat, minute: nat)

  datatype Status = Completo | EmAberto | SemRegistro

  /** Outcome of the records request: the records, or the server's error `message`. */
  datatype FetchResult = Fetched(data: seq<PointRecord>) | FetchFailed(message: Option<string>)

  /** One row of the table as shown. */
  datatype Row = Row(date: string, entrada: string, saida: string, total: string, status: Status)

  // ----- months -----

  predicate ValidMonth(my: MonthYear) { 1 <= my.month <= 12 }

  /** Months counted from January of year 0, so that consecutive months differ by one. */
  function MonthIndex(my: MonthYear): int { my.year * 12 + my.month - 1 }

  /** `handlePreviousMonth`: January goes to December of the year before. */
  function PreviousMonth(my: MonthYear): (r: MonthYear)
    ensures ValidMonth(my) ==> ValidMonth(r) && MonthIndex(r) == MonthIndex(my) - 1
  {
    if my.month == 1 then MonthYear(12, my.year - 1) else MonthYear(my.month - 1, my.year)
  }

  /** `handleNextMonth`: December goes to January of the year after. */
  function NextMonth(my: MonthYear): (r: MonthYear)
    ensures ValidMonth(my) ==> ValidMonth(r) && MonthIndex(r) == MonthIndex(my) + 1
  {
    if my.month == 12 then MonthYear(1, my.year + 1) else MonthYear(my.month + 1, my.year)
  }

  const MonthNames: seq<string> := [
    "Janeiro", "Fevereiro", "Março", "Abril", "Maio", "Junho",
    "Julho", "Agosto", "Setembro", "Outubro", "Novembro", "Dezembro"
  ]

  /** `getMonthName`: `months[month - 1]`, undefined outside 1..12. */
  function GetMonthName(month: int): (name: Option<string>)
    ensures name.Some? <==> 1 <= month <= 12
    ensures name.Some? ==> name.value == MonthNames[month - 1]
  {
    if 1 <= month <= 12 then Some(MonthNames[month - 1]) else None
  }

  // ----- the calendar -----

  /** The year the `Date` constructor uses: a year 0..99 is read as 1900..1999. */
  function JsFullYear(year: int): (full: int)
    ensures full == year || full == year + 1900
    ensures !(0 <= full <= 99)
  {
    if 0 <= year <= 99 then 1900 + year else year
  }

  predicate IsLeapYear(y: int)
  {
    y % 4 == 0 && (y % 100 != 0 || y % 400 == 0)
  }

  function DaysInYear(y: int): int
  {
    if IsLeapYear(y) then 366 else 365
  }

  /** `new Date(year, month, 0).getDate()`: the number of days of month `month` (1..12). */
  function DaysInMonth(year: int, month: int): (n: int)
    requires 1 <= month <= 12
    ensures 28 <= n <= 31
    ensures month == 2 ==> (n == 29 <==> IsLeapYear(JsFullYear(year)))
  {
    if month == 2 then (if IsLeapYear(JsFullYear(year)) then 29 else 28)
    else if month == 4 || month == 6 || month == 9 || month == 11 then 30
    else 31
  }

  /** The day of the year on which month `month` starts, as the month thresholds of
      ECMA-262 (section 21.4.1, MonthFromTime) give it; month 13 stands for the year's end. */
  function MonthStart(month: int, leap: bool): int
    requires 1 <= month <= 13
  {
    var base := [0, 31, 59, 90, 120, 151, 181, 212, 243, 273, 304, 334, 365][month - 1];
    if leap && month >= 3 then base + 1 else base
  }

  /** Days in months 1..k of a year. */
  function DaysBefore(year: int, k: int): int
    requires 0 <= k <= 12
  {
    if k == 0 then 0 else DaysBefore(year, k - 1) + DaysInMonth(year, k)
  }

  /** "DD/MM/YYYY", the pt-BR date text of a day. */
  function DayLabel(year: int, month: nat, day: nat): string
  {
    PadStart2(NatToString(day)) + MonthSuffix(year, month)
  }

  /** The "/MM/YYYY" part of a date text, shared by every day of the month. */
  function MonthSuffix(year: int, month: nat): string
  {
    "/" + PadStart2(NatToString(month)) + "/" + IntToString(JsFullYear(year))
  }

  /** First and last day of the month requested by `fetchRecords`. */
  function MonthRange(year: int, month: int): (range: (CivilDate, CivilDate))
    requires 1 <= month <= 12
    ensures range.0.year == range.1.year == JsFullYear(year)
    ensures range.0.month == range.1.month == month
    ensures range.0.day == 1 && range.1.day == DaysInMonth(year, month)
  {
    (CivilDate(JsFullYear(year), month, 1), CivilDate(JsFullYear(year), month, DaysInMonth(year, month)))
  }

  // ----- grouping -----

  function HasKey(keyOf: int -> string, key: string): PointRecord -> bool
  {
    (r: PointRecord) => keyOf(r.checkIn) == key
  }

  /** The records whose check-in falls on the day `key`, in their original order. */
  function Bucket(rs: seq<PointRecord>, keyOf: int -> string, key: string): (b: seq<PointRecord>)
    ensures forall r :: r in b <==> r in rs && keyOf(r.checkIn) == key
  {
    Filter(rs, HasKey(keyOf, key))
  }

  /** The days some record's check-in falls on. */
  function KeysOf(rs: seq<PointRecord>, keyOf: int -> string): set<string>
  {
    set r | r in rs :: keyOf(r.checkIn)
  }

  /** `groupedRecords[dateString] || []`. */
  function Lookup(grouped: map<string, seq<PointRecord>>, key: string): seq<PointRecord>
  {
    if key in grouped then grouped[key] else []
  }

  /** The grid entry of day `day`: its date text and the group stored under it. */
  function DayEntry(grouped: map<string, seq<PointRecord>>, year: int, month: nat, day: nat): DayInfo
  {
    DayInfo(day, DayLabel(year, month, day), Lookup(grouped, DayLabel(year, month, day)))
  }

  /** `grouped` is the grouping of `rs` by day: one entry per day some check-in falls on,
      holding that day's bucket. */
  predicate Grouped(grouped: map<string, seq<PointRecord>>, rs: seq<PointRecord>, keyOf: int -> string)
  {
    grouped.Keys == KeysOf(rs, keyOf) &&
    forall key :: key in grouped ==> grouped[key] == Bucket(rs, keyOf, key)
  }

  ghost function Pick(keys: set<string>): string
    requires keys != {}
  {
    var k :| k in keys; k
  }

  /** The sum of the bucket sizes over a set of days. */
  ghost function BucketTotal(rs: seq<PointRecord>, keyOf: int -> string, keys: set<string>): nat
    decreases keys
  {
    if keys == {} then 0
    else |Bucket(rs, keyOf, Pick(keys))| + BucketTotal(rs, keyOf, keys - {Pick(keys)})
  }

  function InKeys(keyOf: int -> string, keys: set<string>): PointRecord -> bool
  {
    (r: PointRecord) => keyOf(r.checkIn) in keys
  }

  // ----- the rows -----

  /** `formatTime`: "-" for a missing instant, otherwise the "HH:MM" text of the hour and
      minute `clockOf` reads off it. */
  function FormatTime(datetime: Option<int>, clockOf: int -> ClockReading): (text: string)
    ensures datetime.None? ==> text == "-"
    ensures datetime.Some? && clockOf(datetime.value).hour < 24 && clockOf(datetime.value).minute < 60 ==>
      |text| == 5 && WellFormedTime(text) &&
      ClockSeconds(text) == clockOf(datetime.value).hour * 3600 + clockOf(datetime.value).minute * 60
  {
    if datetime.None? then "-"
    else
      var c := clockOf(datetime.value);
      ReadingText(c);
      ClockText(NatToString(c.hour), NatToString(c.minute))
  }

  /** The "HH:MM" text of a valid reading is well formed and parses back to it. */
  lemma ReadingText(c: ClockReading)
    ensures c.hour < 24 && c.minute < 60 ==>
      var text := ClockText(NatToString(c.hour), NatToString(c.minute));
      |text| == 5 && WellFormedTime(text) && ClockSeconds(text) == c.hour * 3600 + c.minute * 60
  {
    if c.hour < 24 && c.minute < 60 {
      ClockOfNumbers(c.hour, c.minute);
    }
  }

  /** `calculateTotalHours`: "-" for an open session, otherwise the elapsed time from
      check-in to check-out, in milliseconds, as "Xh Ym". */
  function CalculateTotalHours(checkIn: int, checkOut: Option<int>): (text: string)
    ensures checkOut.None? ==> text == "-"
    ensures checkOut.Some? ==> text == ElapsedText(checkOut.value - checkIn, 60000)
  {
    if checkOut.None? then "-" else ElapsedText(checkOut.value - checkIn, 60000)
  }

  /** A day's status, from its first record only. */
  function DayStatus(info: DayInfo): (s: Status)
    ensures s == SemRegistro <==> info.records == []
    ensures s == EmAberto <==> info.records != [] && info.records[0].checkOut.None?
    ensures s == Completo <==> info.records != [] && info.records[0].checkOut.Some?
  {
    if info.records == [] then SemRegistro
    else if info.records[0].checkOut.Some? then Completo
    else EmAberto
  }

  function StatusLabel(s: Status): string
  {
    match s
    case Completo => "Completo"
    case EmAberto => "Em Aberto"
    case SemRegistro => "Sem registro"
  }

  /** The table row of a day: every cell is computed from the day's first record. */
  function RowOf(info: DayInfo, clockOf: int -> ClockReading): (row: Row)
    ensures row.date == info.dateString && row.status == DayStatus(info)
    ensures info.records == [] ==> row.entrada == row.saida == row.total == "-"
    ensures info.records != [] ==>
      row.entrada == FormatTime(Some(info.records[0].checkIn), clockOf) &&
      row.saida == FormatTime(info.records[0].checkOut, clockOf) &&
      row.total == CalculateTotalHours(info.records[0].checkIn, info.records[0].checkOut)
  {
    if info.records == [] then Row(info.dateString, "-", "-", "-", SemRegistro)
    else
      var r := info.records[0];
      Row(info.dateString, FormatTime(Some(r.checkIn), clockOf), FormatTime(r.checkOut, clockOf),
          CalculateTotalHours(r.checkIn, r.checkOut), DayStatus(info))
  }

  /** The alert a failed request shows: the server's `message`, or the fallback text. */
  function FetchFailureText(message: Option<string>): (text: string)
    ensures message.Some? && message.value != "" ==> text == message.value
    ensures message.None? || message.value == "" ==> text == "Falha ao buscar registros."
  {
    if message.Some? && message.value != "" then message.value else "Falha ao buscar registros."
  }

  // ----- lemmas -----

  /** Two valid months with the same index are the same month. */
  lemma MonthIndexInjective(a: MonthYear, b: MonthYear)
    requires ValidMonth(a) && ValidMonth(b) && MonthIndex(a) == MonthIndex(b)
    ensures a == b
  {
    assert (a.year - b.year) * 12 == b.month - a.month;
    if a.year > b.year {
      MulAtLeast(a.year - b.year, 12);
    } else if a.year < b.year {
      MulAtLeast(b.year - a.year, 12);
    }
  }

  lemma MulAtLeast(k: int, c: int)
    requires k >= 1 && c >= 0
    ensures k * c >= c
  {
  }

  /** The two navigation steps undo each other. */
  lemma NavigationRoundTrip(my: MonthYear)
    requires ValidMonth(my)
    ensures NextMonth(PreviousMonth(my)) == my
    ensures PreviousMonth(NextMonth(my)) == my
  {
    MonthIndexInjective(NextMonth(PreviousMonth(my)), my);
    MonthIndexInjective(PreviousMonth(NextMonth(my)), my);
  }

  /** The month names are twelve different names. */
  lemma MonthNamesDistinct(a: int, b: int)
    requires 1 <= a <= 12 && 1 <= b <= 12 && a != b
    ensures GetMonthName(a) != GetMonthName(b)
  {
    assert MonthNames[a - 1][..2] != MonthNames[b - 1][..2] || MonthNames[a - 1] != MonthNames[b - 1];
  }

  /** Each month's length is the distance between consecutive ECMA-262 month thresholds. */
  lemma DaysInMonthMatchesThresholds(year: int, month: int)
    requires 1 <= month <= 12
    ensures DaysInMonth(year, month) ==
      MonthStart(month + 1, IsLeapYear(JsFullYear(year))) - MonthStart(month, IsLeapYear(JsFullYear(year)))
  {
  }

  /** The months of a year add up to the year's length (365, or 366 in a leap year). */
  lemma {:induction false} MonthsFillTheYear(year: int, k: int)
    requires 0 <= k <= 12
    ensures DaysBefore(year, k) == MonthStart(k + 1, IsLeapYear(JsFullYear(year)))
    ensures k == 12 ==> DaysBefore(year, k) == DaysInYear(JsFullYear(year))
  {
    if k > 0 {
      MonthsFillTheYear(year, k - 1);
      DaysInMonthMatchesThresholds(year, k);
    }
  }

  /** Different days of a month have different date texts, so no two rows of the grid
      look up the same group. */
  lemma DayLabelInjective(year: int, month: nat, d1: nat, d2: nat)
    requires d1 < 100 && d2 < 100 && DayLabel(year, month, d1) == DayLabel(year, month, d2)
    ensures d1 == d2
  {
    TwoDigitRoundTrip(d1);
    TwoDigitRoundTrip(d2);
    var p1, p2 := PadStart2(NatToString(d1)), PadStart2(NatToString(d2));
    SamePrefix(p1, p2, MonthSuffix(year, month));
  }

  /** For a day and a month below 100 the label is "DD/MM/…": two digits reading as the
      day, '/', two digits reading as the month, '/'. */
  lemma DayLabelShape(year: int, month: nat, day: nat)
    requires day < 100 && month < 100
    ensures var text := DayLabel(year, month, day);
      |text| > 6 && text[2] == '/' && text[5] == '/' &&
      IsDigits(text[..2]) && DigitsValue(text[..2]) == day &&
      IsDigits(text[3..5]) && DigitsValue(text[3..5]) == month
  {
    TwoDigitRoundTrip(day);
    TwoDigitRoundTrip(month);
    var text := DayLabel(year, month, day);
    assert text[..2] == PadStart2(NatToString(day));
    assert text[3..5] == PadStart2(NatToString(month));
  }

  lemma SamePrefix(p1: string, p2: string, rest: string)
    requires |p1| == |p2| && p1 + rest == p2 + rest
    ensures p1 == p2
  {
    assert p1 == (p1 + rest)[..|p1|];
    assert p2 == (p2 + rest)[..|p2|];
  }

  /** Every record lands in the bucket of its own day and in no other. */
  lemma RecordInOwnBucket(rs: seq<PointRecord>, keyOf: int -> string, r: PointRecord, key: string)
    requires r in rs
    ensures r in Bucket(rs, keyOf, key) <==> key == keyOf(r.checkIn)
  {
  }

  /** Buckets grow by appending: adding a record puts it at the end of its own bucket and
      leaves every other bucket alone. */
  lemma BucketAppend(rs: seq<PointRecord>, keyOf: int -> string, r: PointRecord, key: string)
    ensures Bucket(rs + [r], keyOf, key) ==
      Bucket(rs, keyOf, key) + (if keyOf(r.checkIn) == key then [r] else [])
  {
    FilterConcat(rs, [r], HasKey(keyOf, key));
    assert Filter([r], HasKey(keyOf, key)) == (if keyOf(r.checkIn) == key then [r] else []) by {
      assert [r][1..] == [];
    }
  }

  /** Restricting to a set of days splits into one day's bucket and the rest of the days. */
  lemma {:induction false} SplitOffBucket(rs: seq<PointRecord>, keyOf: int -> string, keys: set<string>, key: string)
    requires key in keys
    ensures |Filter(rs, InKeys(keyOf, keys))| ==
      |Bucket(rs, keyOf, key)| + |Filter(rs, InKeys(keyOf, keys - {key}))|
  {
    if rs != [] {
      SplitOffBucket(rs[1..], keyOf, keys, key);
    }
  }

  lemma {:induction false} BucketTotalIsFilter(rs: seq<PointRecord>, keyOf: int -> string, keys: set<string>)
    ensures BucketTotal(rs, keyOf, keys) == |Filter(rs, InKeys(keyOf, keys))|
    decreases keys
  {
    if keys == {} {
      FilterDropsAll(rs, InKeys(keyOf, keys));
    } else {
      var k := Pick(keys);
      BucketTotalIsFilter(rs, keyOf, keys - {k});
      SplitOffBucket(rs, keyOf, keys, k);
    }
  }

  /** The buckets partition the records: their sizes add up to the number of records. */
  lemma BucketSizesSum(rs: seq<PointRecord>, keyOf: int -> string)
    ensures BucketTotal(rs, keyOf, KeysOf(rs, keyOf)) == |rs|
  {
    BucketTotalIsFilter(rs, keyOf, KeysOf(rs, keyOf));
    FilterKeepsAll(rs, InKeys(keyOf, KeysOf(rs, keyOf)));
  }

  /** Adding a record to the grouping of a list, under its own day, gives the grouping of
      the list extended by it. */
  lemma GroupAppend(acc: map<string, seq<PointRecord>>, rs: seq<PointRecord>, keyOf: int -> string, r: PointRecord)
    requires Grouped(acc, rs, keyOf)
    ensures var date := keyOf(r.checkIn);
      Grouped(acc[date := Lookup(acc, date) + [r]], rs + [r], keyOf)
  {
    var date := keyOf(r.checkIn);
    var next := acc[date := Lookup(acc, date) + [r]];
    if date !in acc {
      FilterDropsAll(rs, HasKey(keyOf, date));
    }
    forall key | key in next
      ensures next[key] == Bucket(rs + [r], keyOf, key)
    {
      BucketAppend(rs, keyOf, r, key);
    }
    assert KeysOf(rs + [r], keyOf) == KeysOf(rs, keyOf) + {date};
  }

  /** One pass of the grouping loop: the grouping of the first i records, extended by
      record i under its day, is the grouping of the first i + 1 records. */
  lemma GroupStep(acc: map<string, seq<PointRecord>>, rs: seq<PointRecord>, i: nat, keyOf: int -> string)
    requires i < |rs| && Grouped(acc, rs[..i], keyOf)
    ensures var date := keyOf(rs[i].checkIn);
      Grouped(acc[date := Lookup(acc, date) + [rs[i]]], rs[..i + 1], keyOf)
  {
    assert rs[..i + 1] == rs[..i] + [rs[i]];
    GroupAppend(acc, rs[..i], keyOf, rs[i]);
  }

  /** Elapsed time of a closed session, for a check-out not before the check-in: whole
      hours, then the whole minutes left (0..59). */
  lemma TotalHoursOfClosedSession(checkIn: int, checkOut: int)
    requires checkOut >= checkIn
    ensures var hm := HoursMinutes(checkOut - checkIn, 60000);
      CalculateTotalHours(checkIn, Some(checkOut)) == HoursMinutesText(hm) &&
      hm.0 == (checkOut - checkIn) / 3600000 &&
      hm.1 == ((checkOut - checkIn) % 3600000) / 60000 && 0 <= hm.1 < 60
  {
    HoursMinutesOfNonNegative(checkOut - checkIn, 60000);
  }

  /** A day's row depends on its first record only: further records that day change
      nothing shown. */
  lemma RowUsesFirstRecordOnly(info: DayInfo, more: seq<PointRecord>, clockOf: int -> ClockReading)
    requires info.records != []
    ensures RowOf(info.(records := info.records + more), clockOf) == RowOf(info, clockOf)
  {
  }

  // ----- the page -----

  class ReportPage {
    var records: seq<PointRecord>
    var loading: bool
    var selectedMonth: int
    var selectedYear: int

    ghost predicate Valid()
      reads this
    {
      1 <= selectedMonth <= 12
    }

    /** The page opens on the current month, loading, with no records. */
    constructor (today: MonthYear)
      requires ValidMonth(today)
      ensures Valid()
      ensures selectedMonth == today.month && selectedYear == today.year
      ensures records == [] && loading
    {
      records := [];
      loading := true;
      selectedMonth := today.month;
      selectedYear := today.year;
    }

    /** `handlePreviousMonth`. */
    method HandlePreviousMonth()
      requires Valid()
      modifies this`selectedMonth, this`selectedYear
      ensures Valid()
      ensures MonthYear(selectedMonth, selectedYear) == PreviousMonth(MonthYear(old(selectedMonth), old(selectedYear)))
    {
      if selectedMonth == 1 {
        selectedMonth := 12;
        selectedYear := selectedYear - 1;
      } else {
        selectedMonth := selectedMonth - 1;
      }
    }

    /** `handleNextMonth`. */
    method HandleNextMonth()
      requires Valid()
      modifies this`selectedMonth, this`selectedYear
      ensures Valid()
      ensures MonthYear(selectedMonth, selectedYear) == NextMonth(MonthYear(old(selectedMonth), old(selectedYear)))
    {
      if selectedMonth == 12 {
        selectedMonth := 1;
        selectedYear := selectedYear + 1;
      } else {
        selectedMonth := selectedMonth + 1;
      }
    }

    /** `fetchRecords`: without a signed-in user stop loading and do nothing else;
        otherwise request the month's range, replace the records on success, keep them and
        report on failure, and stop loading either way. */
    method FetchRecords(month: int, year: int, hasUser: bool, response: FetchResult)
      returns (range: Option<(CivilDate, CivilDate)>, alert: Option<string>)
      requires 1 <= month <= 12
      modifies this`records, this`loading
      ensures !loading
      ensures !hasUser ==> records == old(records) && range == None && alert == None
      ensures hasUser ==> range == Some(MonthRange(year, month))
      ensures hasUser && response.Fetched? ==> records == response.data && alert == None
      ensures hasUser && response.FetchFailed? ==>
        records == old(records) && alert == Some(FetchFailureText(response.message))
    {
      if !hasUser {
        loading := false;
        range, alert := None, None;
        return;
      }
      loading := true;
      range := Some(MonthRange(year, month));
      if response.Fetched? {
        records := response.data;
        alert := None;
      } else {
        alert := Some(FetchFailureText(response.message));
      }
      loading := false;
    }

    /** `groupRecordsByDate`: one entry per day some record's check-in falls on, holding
        that day's records in their original order. */
    method GroupRecordsByDate(keyOf: int -> string) returns (grouped: map<string, seq<PointRecord>>)
      ensures grouped.Keys == KeysOf(records, keyOf)
      ensures forall key :: key in grouped ==> grouped[key] == Bucket(records, keyOf, key)
    {
      var rs := records;
      var acc: map<string, seq<PointRecord>> := map[];
      var i := 0;
      assert rs[..0] == [];
      while i < |rs|
        invariant 0 <= i <= |rs|
        invariant Grouped(acc, rs[..i], keyOf)
      {
        var record := rs[i];
        var date := keyOf(record.checkIn);
        GroupStep(acc, rs, i, keyOf);
        var bucket := if date in acc then acc[date] else [];
        acc := acc[date := bucket + [record]];
        i := i + 1;
      }
      assert rs[..i] == rs;
      grouped := acc;
    }

    /** `getDaysInMonth`: one entry per day of the selected month, days 1..N in order,
        each with its date text and the group for that text (empty when there is none). */
    method GetDaysInMonth(grouped: map<string, seq<PointRecord>>) returns (days: seq<DayInfo>)
      requires Valid()
      ensures |days| == DaysInMonth(selectedYear, selectedMonth)
      ensures forall i :: 0 <= i < |days| ==>
        days[i].day == i + 1 &&
        days[i].dateString == DayLabel(selectedYear, selectedMonth, i + 1) &&
        days[i].records == Lookup(grouped, DayLabel(selectedYear, selectedMonth, i + 1))
    {
      var year, month := selectedYear, selectedMonth;
      var daysInMonth := DaysInMonth(year, month);
      days := [];
      var day := 1;
      while day <= daysInMonth
        invariant 1 <= day <= daysInMonth + 1
        invariant |days| == day - 1
        invariant forall i :: 0 <= i < |days| ==> days[i] == DayEntry(grouped, year, month, i + 1)
      {
        var dateString := DayLabel(year, month, day);
        var dayRecords := if dateString in grouped then grouped[dateString] else [];
        assert DayInfo(day, dateString, dayRecords) == DayEntry(grouped, year, month, day);
        days := days + [DayInfo(day, dateString, dayRecords)];
        day := day + 1;
      }
      forall i | 0 <= i < |days|
        ensures days[i].day == i + 1
        ensures days[i].dateString == DayLabel(year, month, i + 1)
        ensures days[i].records == Lookup(grouped, DayLabel(year, month, i + 1))
      {
        assert days[i] == DayEntry(grouped, year, month, i + 1);
      }
    }

    /** The grid the page renders: every day of the month, each with exactly the records
        whose check-in falls on it. */
    method MonthGrid(keyOf: int -> string) returns (days: seq<DayInfo>)
      requires Valid()
      ensures |days| == DaysInMonth(selectedYear, selectedMonth)
      ensures forall i :: 0 <= i < |days| ==>
        days[i].day == i + 1 &&
        days[i].records == Bucket(records, keyOf, DayLabel(selectedYear, selectedMonth, i + 1))
    {
      var grouped := GroupRecordsByDate(keyOf);
      days := GetDaysInMonth(grouped);
      forall i | 0 <= i < |days|
        ensures days[i].records == Bucket(records, keyOf, DayLabel(selectedYear, selectedMonth, i + 1))
      {
        var key := DayLabel(selectedYear, selectedMonth, i + 1);
        if key !in grouped {
          FilterDropsAll(records, HasKey(keyOf, key));
        }
      }
    }
  }
}
