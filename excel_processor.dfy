/** The spreadsheet side of the import: the checks each row of the first
    worksheet must pass, the conversions applied to a row that passes, and
    the loop that sorts the rows into formatted records and errors. */
module ExcelProcessor {
  import opened Common
  import opened Sequences
  import opened Strings

  // ---------------------------------------------------------------------
  // Cell values

  /** A cell value as the workbook reader hands it over. A number or a date
      also carries `shown`, the text `String(value)` gives for it; a date
      carries the calendar and clock fields its getters return. */
  datatype CellValue =
    | Empty
    | Text(text: string)
    | Number(value: real, shown: string)
    | Moment(year: int, month: int, day: int, hours: int, minutes: int, seconds: int, shown: string)

  /** JavaScript truthiness of a cell value. */
  predicate Truthy(v: CellValue)
  {
    match v
    case Empty => false
    case Text(s) => s != []
    case Number(x, _) => x != 0.0
    case Moment(_, _, _, _, _, _, _) => true
  }

  /** `value.toString()`. */
  function ToText(v: CellValue): string
  {
    match v
    case Empty => []
    case Text(s) => s
    case Number(_, shown) => shown
    case Moment(_, _, _, _, _, _, shown) => shown
  }

  /** `!value || value.toString().trim() === ''`. */
  predicate Blank(v: CellValue)
  {
    !Truthy(v) || Trim(ToText(v)) == []
  }

  /** A row read into an object keyed by the header texts. */
  type Row = map<string, CellValue>

  /** `record[key]`; an absent key reads as an empty cell. */
  function Field(record: Row, key: string): CellValue
  {
    if key in record then record[key] else Empty
  }

  const MachineField: string := "Machine"
  const SideField: string := "Machine_side"
  const SymptomField: string := "Symptoms of failure"
  const DateField: string := "Date_failure"
  const TimeField: string := "Time_failure"
  const RepairerField: string := "repairer"
  const HowToFixField: string := "How to fix"
  const PartCodeField: string := "part_code"
  const PartNameField: string := "name_part"
  const CourtPartField: string := "court_part"

  /** The headers the first row must hold. */
  const RequiredHeaders: seq<string> :=
    [MachineField, SymptomField, DateField, TimeField, RepairerField, HowToFixField]

  // ---------------------------------------------------------------------
  // Dates

  /** Two-digit years: below 50 in the 2000s, from 50 in the 1900s; larger
      (and negative) years pass through the same rule. */
  function ExpandYear(y: int): int
  {
    if y < 100 then y + (if y < 50 then 2000 else 1900) else y
  }

  /** A two-digit year keeps its last two digits and lands in 1950-2049; a
      year of three or more digits is kept. */
  lemma ExpandYearWindow(y: int)
    ensures 0 <= y < 100 ==> 1950 <= ExpandYear(y) <= 2049 && ExpandYear(y) % 100 == y
    ensures y >= 100 ==> ExpandYear(y) == y
  {
  }

  /** `parseInt(parts[i])`; a missing part reads as `NaN`, here `None`. */
  function PartAt(parts: seq<string>, i: nat): Option<int>
  {
    if i < |parts| then ParseInt(parts[i]) else None
  }

  /** The `dd/mm/yy` check on a string: exactly three parts, a day in 1-31,
      a month in 1-12 and an expanded year from 1900 on. */
  predicate ValidDateText(s: string)
  {
    var parts := Split(s, '/');
    |parts| == 3 &&
    PartAt(parts, 0).Some? && PartAt(parts, 1).Some? && PartAt(parts, 2).Some? &&
    1 <= PartAt(parts, 0).value <= 31 && 1 <= PartAt(parts, 1).value <= 12 &&
    ExpandYear(PartAt(parts, 2).value) >= 1900
  }

  /** `validateDate`: a date object, a `dd/mm/yy` string or a positive
      serial number. */
  predicate ValidateDate(v: CellValue)
  {
    match v
    case Moment(_, _, _, _, _, _, _) => true
    case Text(s) => ValidDateText(s)
    case Number(x, _) => x > 0.0
    case Empty => false
  }

  predicate LeapYear(y: int)
  {
    y % 4 == 0 && (y % 100 != 0 || y % 400 == 0)
  }

  function DaysInMonth(y: int, m: int): (n: int)
    requires 1 <= m <= 12
    ensures 28 <= n <= 31
  {
    if m == 2 then (if LeapYear(y) then 29 else 28)
    else if m == 4 || m == 6 || m == 9 || m == 11 then 30
    else 31
  }

  /** `y`, `m`, `d` name a day of the calendar. */
  predicate CalendarDate(y: int, m: int, d: int)
  {
    1 <= m <= 12 && 1 <= d <= DaysInMonth(y, m)
  }

  /** `new Date(y, m - 1, d)` for a day 1-31 of a month 1-12: a day past the
      end of the month runs on into the next one. */
  function Rollover(y: int, m: int, d: int): (r: (int, int, int))
    requires 1 <= m <= 12 && 1 <= d <= 31
    ensures CalendarDate(r.0, r.1, r.2)
  {
    if d <= DaysInMonth(y, m) then (y, m, d) else (y, m + 1, d - DaysInMonth(y, m))
  }

  /** `${year}-${month}-${day}` with the month and day zero-padded. */
  function IsoDate(y: int, m: int, d: int): string
  {
    IntToString(y) + "-" + Pad2(IntToString(m)) + "-" + Pad2(IntToString(d))
  }

  /** The years for which `new Date(y, m - 1, d)` is taken as modelled. */
  predicate ModelledYear(y: int) { 1900 <= y < 275760 }

  /** `formatDate`: a date object prints its own fields; a `dd/mm/yy`
      string prints the date `new Date(year, month - 1, day)` names, or
      `NaN-NaN-NaN` when a part does not parse; an empty cell makes the
      conversion throw, which gives `null`. */
  function FormatDate(v: CellValue): Option<string>
  {
    match v
    case Moment(y, m, d, _, _, _, _) => Some(IsoDate(y, m, d))
    case Text(s) =>
      var parts := Split(s, '/');
      var day := PartAt(parts, 0);
      var month := PartAt(parts, 1);
      var year := PartAt(parts, 2);
      if day.None? || month.None? || year.None? then Some("NaN-NaN-NaN")
      else
        var y := ExpandYear(year.value);
        if 1 <= month.value <= 12 && 1 <= day.value <= 31 && ModelledYear(y) then
          var r := Rollover(y, month.value, day.value);
          Some(IsoDate(r.0, r.1, r.2))
        else None
    case Number(_, _) => None
    case Empty => None
  }

  /** `String(n)` contains neither separator. */
  lemma IntTextNoSeparators(n: int)
    ensures '/' !in IntToString(n) && ':' !in IntToString(n)
  {
    var t := NatToString(if n < 0 then -n else n);
    assert forall i :: 0 <= i < |t| ==> IsDigit(t[i]);
    if n < 0 {
      assert IntToString(n) == "-" + t;
    }
  }

  /** `d/m/y`. */
  function DmyText(d: int, m: int, y: int): string
  {
    IntToString(d) + "/" + IntToString(m) + "/" + IntToString(y)
  }

  /** Reading the parts of a printed `d/m/y` gives the three numbers back. */
  lemma DmyParts(d: int, m: int, y: int)
    ensures var parts := Split(DmyText(d, m, y), '/');
      |parts| == 3 && PartAt(parts, 0) == Some(d) && PartAt(parts, 1) == Some(m) && PartAt(parts, 2) == Some(y)
  {
    var a, b, c := IntToString(d), IntToString(m), IntToString(y);
    IntTextNoSeparators(d);
    IntTextNoSeparators(m);
    IntTextNoSeparators(y);
    assert DmyText(d, m, y) == a + ['/'] + (b + ['/'] + c);
    SplitAtSeparator(a, b + ['/'] + c, '/');
    SplitAtSeparator(b, c, '/');
    SplitNoSeparator(c, '/');
    assert Split(DmyText(d, m, y), '/') == [a, b, c];
    ParseIntToString(d);
    ParseIntToString(m);
    ParseIntToString(y);
  }

  /** A calendar date printed `d/m/y` passes the check and prints back as
      the same date, the year expanded when it has two digits. */
  lemma DateRoundTrip(d: int, m: int, y: int)
    requires ModelledYear(ExpandYear(y)) && CalendarDate(ExpandYear(y), m, d)
    ensures ValidateDate(Text(DmyText(d, m, y)))
    ensures FormatDate(Text(DmyText(d, m, y))) == Some(IsoDate(ExpandYear(y), m, d))
  {
    DmyParts(d, m, y);
    FormatDateText(DmyText(d, m, y), d, m, ExpandYear(y));
  }

  /** The check has no per-month day limit: a day past the end of its month
      passes, and the date printed is in the following month. */
  lemma DateOverflow(d: int, m: int, y: int)
    requires ModelledYear(ExpandYear(y)) && 1 <= m <= 12 && DaysInMonth(ExpandYear(y), m) < d <= 31
    ensures ValidateDate(Text(DmyText(d, m, y)))
    ensures FormatDate(Text(DmyText(d, m, y))) ==
      Some(IsoDate(ExpandYear(y), m + 1, d - DaysInMonth(ExpandYear(y), m)))
    ensures m < 12 && CalendarDate(ExpandYear(y), m + 1, d - DaysInMonth(ExpandYear(y), m))
  {
    var year := ExpandYear(y);
    assert m < 12 by {
      assert DaysInMonth(year, 12) == 31;
    }
    assert Rollover(year, m, d) == (year, m + 1, d - DaysInMonth(year, m));
    assert ValidateDate(Text(DmyText(d, m, y))) && FormatDate(Text(DmyText(d, m, y))) ==
      Some(IsoDate(Rollover(year, m, d).0, Rollover(year, m, d).1, Rollover(year, m, d).2)) by {
      DmyParts(d, m, y);
      FormatDateText(DmyText(d, m, y), d, m, year);
    }
  }

  /** A string whose three parts read as a day 1-31, a month 1-12 and a
      modelled year prints as the date they roll over to. */
  lemma FormatDateText(s: string, d: int, m: int, y: int)
    requires var parts := Split(s, '/');
      PartAt(parts, 0) == Some(d) && PartAt(parts, 1) == Some(m) && PartAt(parts, 2).Some? &&
      ExpandYear(PartAt(parts, 2).value) == y
    requires 1 <= m <= 12 && 1 <= d <= 31 && ModelledYear(y)
    ensures FormatDate(Text(s)) == Some(IsoDate(Rollover(y, m, d).0, Rollover(y, m, d).1, Rollover(y, m, d).2))
  {
  }

  // ---------------------------------------------------------------------
  // Times

  /** The `HH:MM` check on a string: at least two `:` parts, an hour in
      0-23 and a minute in 0-59; anything after the minutes is not looked at. */
  predicate ValidTimeText(s: string)
  {
    var parts := Split(s, ':');
    |parts| >= 2 && PartAt(parts, 0).Some? && PartAt(parts, 1).Some? &&
    0 <= PartAt(parts, 0).value <= 23 && 0 <= PartAt(parts, 1).value <= 59
  }

  /** `validateTime`: a date object, an `HH:MM` string or a fraction of a
      day in [0, 1). */
  predicate ValidateTime(v: CellValue)
  {
    match v
    case Moment(_, _, _, _, _, _, _) => true
    case Text(s) => ValidTimeText(s)
    case Number(x, _) => 0.0 <= x < 1.0
    case Empty => false
  }

  /** A JavaScript number as `formatTime` meets it: an integer, `NaN` or
      `undefined`. */
  datatype Numeric = Num(n: int) | NaN | Undefined

  function FromParse(p: Option<int>): Numeric
  {
    if p.Some? then Num(p.value) else NaN
  }

  /** `String(x)`. */
  function Show(x: Numeric): string
  {
    match x
    case Num(n) => IntToString(n)
    case NaN => "NaN"
    case Undefined => "undefined"
  }

  /** `${h}:${m}:${s}`, each zero-padded to two places. */
  function Clock(h: Numeric, m: Numeric, s: Numeric): string
  {
    Pad2(Show(h)) + ":" + Pad2(Show(m)) + ":" + Pad2(Show(s))
  }

  /** JavaScript's `%` on integers, which truncates toward zero. */
  function JsRem(a: int, b: int): (r: int)
    requires b > 0
    ensures a >= 0 ==> r == a % b
  {
    if a >= 0 then a % b else -((-a) % b)
  }

  /** The seconds of a fraction of a day: `Math.round(t * 24 * 60 * 60)`. */
  function DaySeconds(x: real): int
  {
    Round(x * 86400.0)
  }

  /** `formatTime`: the clock fields of a date object; the parts of an
      `HH:MM[:SS]` string, seconds 0 when there is no third part; the
      rounded seconds of a fraction of a day split into hours, minutes and
      seconds. */
  function FormatTime(v: CellValue): string
  {
    match v
    case Moment(_, _, _, h, m, s, _) => Clock(Num(h), Num(m), Num(s))
    case Text(t) =>
      var parts := Split(t, ':');
      var seconds := if |parts| > 2 && parts[2] != [] then FromParse(ParseInt(parts[2])) else Num(0);
      Clock(FromParse(PartAt(parts, 0)), FromParse(PartAt(parts, 1)), seconds)
    case Number(x, _) =>
      var total := DaySeconds(x);
      Clock(Num(total / 3600), Num(JsRem(total, 3600) / 60), Num(JsRem(total, 60)))
    case Empty => Clock(Undefined, Undefined, Num(0))
  }

  /** `h:m`. */
  function HmText(h: int, m: int): string
  {
    IntToString(h) + ":" + IntToString(m)
  }

  /** Reading the parts of a printed `h:m` gives the two numbers back. */
  lemma HmParts(h: int, m: int)
    ensures var parts := Split(HmText(h, m), ':');
      |parts| == 2 && PartAt(parts, 0) == Some(h) && PartAt(parts, 1) == Some(m)
  {
    var a, b := IntToString(h), IntToString(m);
    IntTextNoSeparators(h);
    IntTextNoSeparators(m);
    SplitAtSeparator(a, b, ':');
    SplitNoSeparator(b, ':');
    assert Split(HmText(h, m), ':') == [a, b];
    ParseIntToString(h);
    ParseIntToString(m);
  }

  /** A time printed `h:m` passes the check and prints back as `HH:MM:00`. */
  lemma TimeRoundTrip(h: int, m: int)
    requires 0 <= h <= 23 && 0 <= m <= 59
    ensures ValidateTime(Text(HmText(h, m)))
    ensures FormatTime(Text(HmText(h, m))) == Clock(Num(h), Num(m), Num(0))
  {
    HmParts(h, m);
  }

  /** A fraction of a day is split into hours, minutes under 60 and seconds
      under 60 that add back up to its rounded seconds; the hours reach 24
      only for a fraction that rounds up to a whole day. */
  lemma FractionClock(x: real)
    requires 0.0 <= x < 1.0
    ensures var t := DaySeconds(x);
      var h := t / 3600;
      var m := JsRem(t, 3600) / 60;
      var s := JsRem(t, 60);
      FormatTime(Number(x, [])) == Clock(Num(h), Num(m), Num(s)) &&
      0 <= m < 60 && 0 <= s < 60 && h * 3600 + m * 60 + s == t &&
      0 <= h <= 24 && (h == 24 <==> t == 86400)
  {
    var t := DaySeconds(x);
    assert 0 <= t <= 86400 by {
      assert 0.0 <= x * 86400.0 < 86400.0;
    }
    assert t % 3600 / 60 * 60 + t % 60 == t % 3600;
  }

  // ---------------------------------------------------------------------
  // Formatting a record

  /** `cleanText`: `null` for a falsy value, else the trimmed text. */
  function CleanText(v: CellValue): (r: Option<string>)
    ensures r.None? <==> !Truthy(v)
  {
    if Truthy(v) then Some(Trim(ToText(v))) else None
  }

  /** `court_part ? parseInt(court_part) || 1 : null`. */
  function CourtPart(v: CellValue): Option<int>
  {
    if !Truthy(v) then None
    else
      var p := ParseInt(ToText(v));
      if p.Some? && p.value != 0 then Some(p.value) else Some(1)
  }

  /** A count of parts is absent exactly for a falsy cell and never 0. */
  lemma CourtPartNonZero(v: CellValue)
    ensures CourtPart(v).None? <==> !Truthy(v)
    ensures CourtPart(v).Some? ==> CourtPart(v).value != 0
    ensures CourtPart(v).Some? && ParseInt(ToText(v)).Some? && ParseInt(ToText(v)).value != 0 ==>
      CourtPart(v).value == ParseInt(ToText(v)).value
  {
  }

  /** The record `formatRecord` builds from a row. */
  datatype FormattedRecord = FormattedRecord(
    machine: Option<string>, machineSide: Option<string>, symptom: Option<string>,
    dateFailure: Option<string>, timeFailure: string, repairer: Option<string>,
    howToFix: Option<string>, partCode: Option<string>, namePart: Option<string>,
    courtPart: Option<int>)

  function FormatRecord(record: Row): FormattedRecord
  {
    FormattedRecord(
      CleanText(Field(record, MachineField)), CleanText(Field(record, SideField)),
      CleanText(Field(record, SymptomField)), FormatDate(Field(record, DateField)),
      FormatTime(Field(record, TimeField)), CleanText(Field(record, RepairerField)),
      CleanText(Field(record, HowToFixField)), CleanText(Field(record, PartCodeField)),
      CleanText(Field(record, PartNameField)), CourtPart(Field(record, CourtPartField)))
  }

  // ---------------------------------------------------------------------
  // Validating a record

  /** The errors that reject a row. */
  datatype RowError = MissingMachine | MissingSymptom | MissingDate | BadDate | MissingTime | BadTime | MissingRepairer

  datatype WarningKind = MissingHowToFix | CodeWithoutName | NameWithoutCode

  /** A warning, with the number of the row it is about. */
  datatype Warning = Warning(row: int, kind: WarningKind)

  datatype Validation = Validation(isValid: bool, errors: seq<RowError>, warnings: seq<Warning>)

  /** The outcome of each check `validateRecord` makes on a row. */
  datatype Checks = Checks(machineBlank: bool, symptomBlank: bool, dateGiven: bool, dateValid: bool,
    timeGiven: bool, timeValid: bool, repairerBlank: bool, howToFixBlank: bool, codeGiven: bool, nameGiven: bool)

  function ChecksOf(record: Row): Checks
  {
    Checks(
      Blank(Field(record, MachineField)), Blank(Field(record, SymptomField)),
      Truthy(Field(record, DateField)), ValidateDate(Field(record, DateField)),
      Truthy(Field(record, TimeField)), ValidateTime(Field(record, TimeField)),
      Blank(Field(record, RepairerField)), Blank(Field(record, HowToFixField)),
      Truthy(Field(record, PartCodeField)), Truthy(Field(record, PartNameField)))
  }

  /** The condition under which each error is reported. */
  predicate Fails(c: Checks, e: RowError)
  {
    match e
    case MissingMachine => c.machineBlank
    case MissingSymptom => c.symptomBlank
    case MissingDate => !c.dateGiven
    case BadDate => c.dateGiven && !c.dateValid
    case MissingTime => !c.timeGiven
    case BadTime => c.timeGiven && !c.timeValid
    case MissingRepairer => c.repairerBlank
  }

  /** The condition under which each warning is given. */
  predicate Warns(c: Checks, k: WarningKind)
  {
    match k
    case MissingHowToFix => c.howToFixBlank
    case CodeWithoutName => c.codeGiven && !c.nameGiven
    case NameWithoutCode => c.nameGiven && !c.codeGiven
  }

  function When<E>(c: bool, e: E): seq<E> { if c then [e] else [] }

  /** The errors of `validateRecord`, in the order it checks the fields. */
  function ErrorsFrom(c: Checks): seq<RowError>
  {
    When(c.machineBlank, MissingMachine) +
    When(c.symptomBlank, MissingSymptom) +
    (if !c.dateGiven then [MissingDate] else When(!c.dateValid, BadDate)) +
    (if !c.timeGiven then [MissingTime] else When(!c.timeValid, BadTime)) +
    When(c.repairerBlank, MissingRepairer)
  }

  /** The warnings of `validateRecord`, each about row `rowNumber`. */
  function WarningsFrom(c: Checks, rowNumber: int): seq<Warning>
  {
    When(c.howToFixBlank, Warning(rowNumber, MissingHowToFix)) +
    When(c.codeGiven && !c.nameGiven, Warning(rowNumber, CodeWithoutName)) +
    When(c.nameGiven && !c.codeGiven, Warning(rowNumber, NameWithoutCode))
  }

  function ValidationOf(record: Row, rowNumber: int): Validation
  {
    var c := ChecksOf(record);
    Validation(|ErrorsFrom(c)| == 0, ErrorsFrom(c), WarningsFrom(c, rowNumber))
  }

  /** `validateRecord`: evaluates the checks on the row, then pushes an
      error per failed check and a warning per doubtful field. */
  method ValidateRecord(record: Row, rowNumber: int) returns (v: Validation)
    ensures v == ValidationOf(record, rowNumber)
  {
    var c := Checks(
      Blank(Field(record, MachineField)), Blank(Field(record, SymptomField)),
      Truthy(Field(record, DateField)), ValidateDate(Field(record, DateField)),
      Truthy(Field(record, TimeField)), ValidateTime(Field(record, TimeField)),
      Blank(Field(record, RepairerField)), Blank(Field(record, HowToFixField)),
      Truthy(Field(record, PartCodeField)), Truthy(Field(record, PartNameField)));
    var errors := CollectErrors(c);
    var warnings := CollectWarnings(c, rowNumber);
    v := Validation(|errors| == 0, errors, warnings);
  }

  /** The error pushes of `validateRecord`. */
  method CollectErrors(c: Checks) returns (errors: seq<RowError>)
    ensures errors == ErrorsFrom(c)
  {
    errors := [];
    if c.machineBlank {
      errors := errors + [MissingMachine];
    }
    if c.symptomBlank {
      errors := errors + [MissingSymptom];
    }
    assert errors == When(c.machineBlank, MissingMachine) + When(c.symptomBlank, MissingSymptom);
    ghost var before := errors;
    if !c.dateGiven {
      errors := errors + [MissingDate];
    } else if !c.dateValid {
      errors := errors + [BadDate];
    }
    assert errors == before + (if !c.dateGiven then [MissingDate] else When(!c.dateValid, BadDate));
    before := errors;
    if !c.timeGiven {
      errors := errors + [MissingTime];
    } else if !c.timeValid {
      errors := errors + [BadTime];
    }
    assert errors == before + (if !c.timeGiven then [MissingTime] else When(!c.timeValid, BadTime));
    before := errors;
    if c.repairerBlank {
      errors := errors + [MissingRepairer];
    }
    assert errors == before + When(c.repairerBlank, MissingRepairer);
  }

  /** The warning pushes of `validateRecord`. */
  method CollectWarnings(c: Checks, rowNumber: int) returns (warnings: seq<Warning>)
    ensures warnings == WarningsFrom(c, rowNumber)
  {
    warnings := [];
    if c.howToFixBlank {
      warnings := warnings + [Warning(rowNumber, MissingHowToFix)];
    }
    if c.codeGiven && !c.nameGiven {
      warnings := warnings + [Warning(rowNumber, CodeWithoutName)];
    }
    if c.nameGiven && !c.codeGiven {
      warnings := warnings + [Warning(rowNumber, NameWithoutCode)];
    }
  }

  /** A row is reported with exactly the errors whose condition holds. */
  lemma ErrorsMeaning(c: Checks)
    ensures forall e :: e in ErrorsFrom(c) <==> Fails(c, e)
  {
  }

  /** A row is valid exactly when no check fails. */
  lemma ValidWhenNothingFails(c: Checks)
    ensures ErrorsFrom(c) == [] <==> forall e :: !Fails(c, e)
  {
    ErrorsMeaning(c);
    if ErrorsFrom(c) != [] {
      assert ErrorsFrom(c)[0] in ErrorsFrom(c);
    }
  }

  /** A row gets exactly the warnings whose condition holds, all about
      that row, and at most two of them. */
  lemma WarningsMeaning(c: Checks, rowNumber: int)
    ensures forall w :: w in WarningsFrom(c, rowNumber) <==> w.row == rowNumber && Warns(c, w.kind)
    ensures |WarningsFrom(c, rowNumber)| <= 2
  {
  }

  /** A valid row keeps its required text: the machine, symptom and
      repairer come out present and not blank. */
  lemma ValidRowFormats(record: Row, rowNumber: int)
    requires ValidationOf(record, rowNumber).isValid
    ensures var f := FormatRecord(record);
      f.machine.Some? && f.machine.value != [] &&
      f.symptom.Some? && f.symptom.value != [] &&
      f.repairer.Some? && f.repairer.value != []
  {
    var c := ChecksOf(record);
    assert !c.machineBlank && !c.symptomBlank && !c.repairerBlank by {
      ErrorsMeaning(c);
      assert !Fails(c, MissingMachine) && !Fails(c, MissingSymptom) && !Fails(c, MissingRepairer);
    }
  }

  /** A date string that passes the check prints as the date its parts
      roll over to, for the years modelled. */
  lemma ValidDateFormats(v: CellValue)
    requires v.Text? && ValidateDate(v)
    requires ModelledYear(ExpandYear(PartAt(Split(v.text, '/'), 2).value))
    ensures var parts := Split(v.text, '/');
      var r := Rollover(ExpandYear(PartAt(parts, 2).value), PartAt(parts, 1).value, PartAt(parts, 0).value);
      FormatDate(v) == Some(IsoDate(r.0, r.1, r.2))
  {
    var parts := Split(v.text, '/');
    FormatDateText(v.text, PartAt(parts, 0).value, PartAt(parts, 1).value, ExpandYear(PartAt(parts, 2).value));
  }

  // ---------------------------------------------------------------------
  // The rows of a worksheet

  /** The cells of each row, the first row at index 0. */
  type Sheet = seq<seq<CellValue>>

  /** The object key a header cell gives its column; empty and other falsy
      header cells give none. */
  function HeaderKey(c: CellValue): Option<string>
  {
    if Truthy(c) then Some(ToText(c)) else None
  }

  /** `record[header] = cell.value` over the cells of a row, left to right. */
  function RecordOf(headerRow: seq<CellValue>, cells: seq<CellValue>): Row
    decreases |cells|
  {
    if cells == [] then map[]
    else
      var j := |cells| - 1;
      var prev := RecordOf(headerRow, cells[..j]);
      if j < |headerRow| && HeaderKey(headerRow[j]).Some? then prev[HeaderKey(headerRow[j]).value := cells[j]]
      else prev
  }

  /** Column `j` has header `key`. */
  predicate Headed(headerRow: seq<CellValue>, j: int, key: string)
  {
    0 <= j < |headerRow| && HeaderKey(headerRow[j]) == Some(key)
  }

  /** A key is set exactly when some column of the row has it as header, and
      then it holds the cell of the last such column. */
  lemma {:induction false} RecordOfField(headerRow: seq<CellValue>, cells: seq<CellValue>, key: string)
    ensures key in RecordOf(headerRow, cells) <==> exists j :: 0 <= j < |cells| && Headed(headerRow, j, key)
    ensures key in RecordOf(headerRow, cells) ==>
      exists j :: (0 <= j < |cells| && Headed(headerRow, j, key) &&
        RecordOf(headerRow, cells)[key] == cells[j] &&
        forall i :: j < i < |cells| ==> !Headed(headerRow, i, key))
    decreases |cells|
  {
    if cells != [] {
      var j := |cells| - 1;
      var init := cells[..j];
      RecordOfField(headerRow, init, key);
      assert forall i :: 0 <= i < j ==> init[i] == cells[i];
      if !Headed(headerRow, j, key) && key in RecordOf(headerRow, init) {
        var i :| 0 <= i < |init| && Headed(headerRow, i, key) && RecordOf(headerRow, init)[key] == init[i] &&
          forall k :: i < k < |init| ==> !Headed(headerRow, k, key);
        assert RecordOf(headerRow, cells)[key] == cells[i];
      }
    }
  }

  /** Fills the row's object cell by cell. */
  method BuildRecord(headerRow: seq<CellValue>, cells: seq<CellValue>) returns (record: Row)
    ensures record == RecordOf(headerRow, cells)
  {
    record := map[];
    for j := 0 to |cells|
      invariant record == RecordOf(headerRow, cells[..j])
    {
      assert cells[..j + 1][..j] == cells[..j];
      if j < |headerRow| && HeaderKey(headerRow[j]).Some? {
        record := record[HeaderKey(headerRow[j]).value := cells[j]];
      }
    }
    assert cells[..|cells|] == cells;
  }

  /** `eachRow({ includeEmpty: false })` visits only rows holding a value. */
  predicate HasValues(cells: seq<CellValue>)
  {
    exists j :: 0 <= j < |cells| && cells[j] != Empty
  }

  /** The required headers that no header cell holds. */
  function MissingHeaderNames(headerRow: seq<CellValue>): seq<string>
  {
    Filter(RequiredHeaders, (h: string) => Text(h) !in headerRow)
  }

  /** A header is reported missing exactly when it is required and no
      header cell holds it. */
  lemma MissingHeaderNamesMeaning(headerRow: seq<CellValue>)
    ensures forall h :: h in MissingHeaderNames(headerRow) <==> h in RequiredHeaders && Text(h) !in headerRow
  {
    FilterMember(RequiredHeaders, (h: string) => Text(h) !in headerRow);
  }

  /** An entry of `errors`. */
  datatype ErrorEntry =
    | MissingHeaders(missing: seq<string>)
    | RowErrors(row: int, rowErrors: seq<RowError>, data: Row)
    | FileError

  /** What visiting one row of the worksheet gives: nothing for a row
      without values, a formatted record for a row that passes, the row's
      errors for one that does not; either way the row's warnings. */
  datatype Visit =
    | Skipped
    | Accepted(record: FormattedRecord, warnings: seq<Warning>)
    | Rejected(row: int, rowErrors: seq<RowError>, data: Row, warnings: seq<Warning>)

  /** The body of the row loop of `processExcel` for row `rowNumber`. */
  function VisitOf(headerRow: seq<CellValue>, cells: seq<CellValue>, rowNumber: int): Visit
  {
    if !HasValues(cells) then Skipped
    else
      var record := RecordOf(headerRow, cells);
      var v := ValidationOf(record, rowNumber);
      var rowErrors := if !v.isValid then v.errors else [];
      if |rowErrors| > 0 then Rejected(rowNumber, rowErrors, record, v.warnings)
      else Accepted(FormatRecord(record), v.warnings)
  }

  /** A row is skipped exactly when it holds no value and rejected exactly
      when its validation fails, with its own number and a non-empty list
      of errors; a row that passes is formatted. */
  lemma VisitMeaning(headerRow: seq<CellValue>, cells: seq<CellValue>, rowNumber: int)
    ensures var visit := VisitOf(headerRow, cells, rowNumber);
      var v := ValidationOf(RecordOf(headerRow, cells), rowNumber);
      (visit.Skipped? <==> !HasValues(cells)) &&
      (visit.Rejected? <==> HasValues(cells) && !v.isValid) &&
      (visit.Rejected? ==> visit.row == rowNumber && visit.rowErrors == v.errors && visit.rowErrors != []) &&
      (visit.Accepted? ==> visit.record == FormatRecord(RecordOf(headerRow, cells))) &&
      (!visit.Skipped? ==> visit.warnings == v.warnings)
  {
  }

  /** The visits of the rows numbered 2 to `n`. */
  function VisitsOf(headerRow: seq<CellValue>, sheet: Sheet, n: nat): (visits: seq<Visit>)
    requires 1 <= n <= |sheet|
    ensures |visits| == n - 1
  {
    if n == 1 then [] else VisitsOf(headerRow, sheet, n - 1) + [VisitOf(headerRow, sheet[n - 1], n)]
  }

  /** What the rows of a worksheet have produced so far. */
  datatype Ingest = Ingest(records: seq<FormattedRecord>, errors: seq<ErrorEntry>, warnings: seq<Warning>)

  /** Keeps a visit's warnings, and its record or its error entry. */
  function Apply(acc: Ingest, visit: Visit): Ingest
  {
    match visit
    case Skipped => acc
    case Accepted(record, warnings) => Ingest(acc.records + [record], acc.errors, acc.warnings + warnings)
    case Rejected(row, rowErrors, data, warnings) =>
      Ingest(acc.records, acc.errors + [RowErrors(row, rowErrors, data)], acc.warnings + warnings)
  }

  /** The visits applied in order. */
  function Gather(visits: seq<Visit>): Ingest
  {
    if visits == [] then Ingest([], [], []) else Apply(Gather(visits[..|visits| - 1]), visits[|visits| - 1])
  }

  /** The number of visits that were not skipped. */
  function Visited(visits: seq<Visit>): nat
  {
    if visits == [] then 0 else Visited(visits[..|visits| - 1]) + (if visits[|visits| - 1].Skipped? then 0 else 1)
  }

  /** Every visit not skipped adds exactly one record or one error. */
  lemma {:induction false} GatherAccounts(visits: seq<Visit>)
    ensures |Gather(visits).records| + |Gather(visits).errors| == Visited(visits)
  {
    if visits != [] {
      GatherAccounts(visits[..|visits| - 1]);
    }
  }

  /** The visit at position `k` is of row `first + k`, and a rejected row
      lists at least one error. */
  predicate NumberedFrom(visits: seq<Visit>, first: int)
  {
    forall k :: 0 <= k < |visits| && visits[k].Rejected? ==>
      visits[k].row == first + k && visits[k].rowErrors != []
  }

  /** An error entry about one of the `count` rows from row `first` on,
      listing at least one error. */
  predicate RowEntry(e: ErrorEntry, first: int, count: int)
  {
    e.RowErrors? && first <= e.row < first + count && e.rowErrors != []
  }

  /** Two row entries, the first about an earlier row. */
  predicate EarlierRow(e: ErrorEntry, f: ErrorEntry)
  {
    e.RowErrors? && f.RowErrors? && e.row < f.row
  }

  /** The errors are entries of rows visited, in row order, each listing at
      least one error. */
  lemma {:induction false} GatherErrorRows(visits: seq<Visit>, first: int)
    requires NumberedFrom(visits, first)
    ensures forall i :: 0 <= i < |Gather(visits).errors| ==> RowEntry(Gather(visits).errors[i], first, |visits|)
    ensures forall i, j :: 0 <= i < j < |Gather(visits).errors| ==>
      EarlierRow(Gather(visits).errors[i], Gather(visits).errors[j])
  {
    if visits != [] {
      var init := visits[..|visits| - 1];
      var last := visits[|visits| - 1];
      assert NumberedFrom(init, first) by {
        assert forall k :: 0 <= k < |init| ==> init[k] == visits[k];
      }
      GatherErrorRows(init, first);
      var prev := Gather(init).errors;
      var errors := Gather(visits).errors;
      assert errors == prev + (if last.Rejected? then [RowErrors(last.row, last.rowErrors, last.data)] else []);
      assert last.Rejected? ==> last.row == first + |visits| - 1 && last.rowErrors != [];
      forall i | 0 <= i < |errors|
        ensures RowEntry(errors[i], first, |visits|)
      {
        if i < |prev| {
          assert errors[i] == prev[i];
          assert RowEntry(prev[i], first, |init|);
        }
      }
      forall i, j | 0 <= i < j < |errors|
        ensures EarlierRow(errors[i], errors[j])
      {
        assert errors[i] == prev[i];
        assert RowEntry(prev[i], first, |init|);
        if j < |prev| {
          assert errors[j] == prev[j];
        }
      }
    }
  }

  /** The visits of a sheet are numbered from row 2, and as many are not
      skipped as there are rows holding a value. */
  lemma {:induction false} VisitsOfSheet(headerRow: seq<CellValue>, sheet: Sheet, n: nat)
    requires 1 <= n <= |sheet|
    ensures NumberedFrom(VisitsOf(headerRow, sheet, n), 2)
    ensures Visited(VisitsOf(headerRow, sheet, n)) == DataRows(sheet, n)
  {
    if n > 1 {
      var visits := VisitsOf(headerRow, sheet, n);
      VisitsOfSheet(headerRow, sheet, n - 1);
      VisitMeaning(headerRow, sheet[n - 1], n);
      assert visits[..n - 2] == VisitsOf(headerRow, sheet, n - 1);
      assert forall k :: 0 <= k < n - 2 ==> visits[k] == VisitsOf(headerRow, sheet, n - 1)[k];
    }
  }

  /** The number of rows numbered 2 to `n` that hold a value. */
  function DataRows(sheet: Sheet, n: nat): nat
    requires 1 <= n <= |sheet|
  {
    if n == 1 then 0 else DataRows(sheet, n - 1) + (if HasValues(sheet[n - 1]) then 1 else 0)
  }

  /** The outcome of `processExcel`. */
  datatype ProcessResult = ProcessResult(records: seq<FormattedRecord>, errors: seq<ErrorEntry>,
    warnings: seq<Warning>, totalRows: Option<int>)

  /** `processExcel` on the first worksheet of a workbook (`None` for a
      workbook without one): with a required header missing, the missing
      headers and no records; otherwise the rows below the header. */
  function ProcessOutcome(sheet: Option<Sheet>): ProcessResult
  {
    if sheet.None? then ProcessResult([], [FileError], [], None)
    else
      var rows := sheet.value;
      var headerRow := if rows == [] then [] else rows[0];
      var missing := MissingHeaderNames(headerRow);
      if missing != [] || rows == [] then ProcessResult([], [MissingHeaders(missing)], [], None)
      else
        var ing := Gather(VisitsOf(headerRow, rows, |rows|));
        ProcessResult(ing.records, ing.errors, ing.warnings, Some(|rows| - 1))
  }

  /** An empty worksheet misses every required header. */
  lemma EmptySheetMissesAll()
    ensures MissingHeaderNames([]) == RequiredHeaders
  {
    var p := (h: string) => Text(h) !in [];
    assert forall s: seq<string> :: (forall i :: 0 <= i < |s| ==> p(s[i])) ==> Filter(s, p) == s by {
      forall s: seq<string> | forall i :: 0 <= i < |s| ==> p(s[i])
        ensures Filter(s, p) == s
      {
        FilterKeepsAll(s, p);
      }
    }
  }

  lemma {:induction false} FilterKeepsAll<T>(s: seq<T>, p: T -> bool)
    requires forall i :: 0 <= i < |s| ==> p(s[i])
    ensures Filter(s, p) == s
    decreases |s|
  {
    if s != [] {
      var init := s[..|s| - 1];
      assert s == init + [s[|s| - 1]];
      FilterKeepsAll(init, p);
    }
  }

  /** A missing required header rejects the whole sheet; otherwise every
      row below the header holding a value becomes a record or an error,
      the errors name rows from 2 on in increasing order, and `totalRows`
      counts the rows below the header. */
  lemma ProcessAccounts(sheet: Option<Sheet>)
    requires sheet.Some?
    ensures var r := ProcessOutcome(sheet);
      var rows := sheet.value;
      var headerRow := if rows == [] then [] else rows[0];
      (MissingHeaderNames(headerRow) != [] ==>
        r.records == [] && r.errors == [MissingHeaders(MissingHeaderNames(headerRow))]) &&
      (MissingHeaderNames(headerRow) == [] ==>
        rows != [] && r.totalRows == Some(|rows| - 1) &&
        |r.records| + |r.errors| == DataRows(rows, |rows|) &&
        (forall i :: 0 <= i < |r.errors| ==> RowEntry(r.errors[i], 2, |rows| - 1)) &&
        (forall i, j :: 0 <= i < j < |r.errors| ==> EarlierRow(r.errors[i], r.errors[j])))
  {
    var rows := sheet.value;
    if rows == [] {
      EmptySheetMissesAll();
    } else if MissingHeaderNames(rows[0]) == [] {
      var visits := VisitsOf(rows[0], rows, |rows|);
      VisitsOfSheet(rows[0], rows, |rows|);
      GatherAccounts(visits);
      GatherErrorRows(visits, 2);
    }
  }

  /** Reads, validates and formats one row of the sheet. */
  method VisitRow(headerRow: seq<CellValue>, cells: seq<CellValue>, rowNumber: int) returns (visit: Visit)
    ensures visit == VisitOf(headerRow, cells, rowNumber)
  {
    if !HasValues(cells) {
      return Skipped;
    }
    var record := BuildRecord(headerRow, cells);
    var v := ValidateRecord(record, rowNumber);
    var rowErrors: seq<RowError> := [];
    if !v.isValid {
      rowErrors := rowErrors + v.errors;
    }
    if |rowErrors| > 0 {
      visit := Rejected(rowNumber, rowErrors, record, v.warnings);
    } else {
      visit := Accepted(FormatRecord(record), v.warnings);
    }
  }

  /** The importer, with the errors and warnings of its last run. */
  class SheetImporter {
    var errors: seq<ErrorEntry>
    var warnings: seq<Warning>

    constructor()
      ensures errors == [] && warnings == []
    {
      errors := [];
      warnings := [];
    }

    /** `processExcel`: resets the errors and warnings, checks the header row,
        then validates and formats the rows one by one. */
    method ProcessExcel(sheet: Option<Sheet>) returns (result: ProcessResult)
      modifies this
      ensures result == ProcessOutcome(sheet)
      ensures errors == result.errors && warnings == result.warnings
    {
      errors := [];
      warnings := [];
      if sheet.None? {
        errors := errors + [FileError];
        return ProcessResult([], errors, warnings, None);
      }
      var rows := sheet.value;
      var headerRow := if rows == [] then [] else rows[0];
      var missing := MissingHeaderNames(headerRow);
      if missing != [] || rows == [] {
        errors := errors + [MissingHeaders(missing)];
        return ProcessResult([], errors, warnings, None);
      }
      var records: seq<FormattedRecord> := [];
      for i := 1 to |rows|
        invariant Ingest(records, errors, warnings) == Gather(VisitsOf(headerRow, rows, i))
      {
        var visit := VisitRow(headerRow, rows[i], i + 1);
        assert VisitsOf(headerRow, rows, i + 1)[..i - 1] == VisitsOf(headerRow, rows, i);
        match visit
        case Skipped =>
        case Accepted(record, rowWarnings) =>
          warnings := warnings + rowWarnings;
          records := records + [record];
        case Rejected(row, rowErrors, data, rowWarnings) =>
          warnings := warnings + rowWarnings;
          errors := errors + [RowErrors(row, rowErrors, data)];
      }
      result := ProcessResult(records, errors, warnings, Some(|rows| - 1));
    }
  }
}
