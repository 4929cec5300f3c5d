/** The catalogue of field transforms and the transform-chain evaluator
    (src/utils/transformer.ts). */
module Transformer {
  import opened JsText
  import opened JsValues
  import opened Config

  /** The collaborators a transform step may call and that the model does not
      compute: the language-model extraction service, JavaScript Date parsing
      behind the "dob-ISO" and "timestamp" steps, and Date.UTC's normalisation
      of dates outside the range ConvertDob computes exactly. */
  datatype Externals = Externals(
    extract: (string, Value) -> Result<Value>,
    toIso8601: Value -> Result<Value>,
    toUnixTimestamp: Value -> Value,
    utcFallback: (string, DateFormat) -> string)

  const TypeErrorMessage := "TypeError"

  // ---------------------------------------------------------------------------
  // Name splitting

  datatype FullNameParts = FullNameParts(firstName: string, lastName: string)

  /** The trimmed name up to its first space, and the rest after that space. */
  function SplitFullName(fullName: string): (r: FullNameParts)
    ensures ' ' !in r.firstName
  {
    var parts := Split(Trim(fullName), ' ');
    FullNameParts(parts[0], Join(parts[1..], ' '))
  }

  /** The object `{ firstName, lastName }` that the "splitName" step yields. */
  function FullNamePartsValue(p: FullNameParts): Value
  {
    Obj(map["firstName" := Str(p.firstName), "lastName" := Str(p.lastName)])
  }

  /** The two parts put back together with one space give the trimmed name;
      a name without an inner space is all first name. */
  lemma SplitFullNameRoundTrip(fullName: string)
    ensures var t := Trim(fullName); var r := SplitFullName(fullName);
      && (' ' in t ==> r.firstName + " " + r.lastName == t)
      && (' ' !in t ==> r.firstName == t && r.lastName == "")
  {
    var t := Trim(fullName);
    var parts := Split(t, ' ');
    JoinSplit(t, ' ');
    if ' ' in t {
      assert |parts| >= 2;
      assert Join(parts, ' ') == parts[0] + " " + Join(parts[1..], ' ');
    }
  }

  lemma SplitFullNameExample()
    ensures SplitFullName("Jane Doe") == FullNameParts("Jane", "Doe")
  {
    var t := "Jane Doe";
    assert !IsWhitespace(t[0]) && !IsWhitespace(t[|t| - 1]);
    TrimUnchanged(t);
    var parts := ["Jane", "Doe"];
    assert Join(parts, ' ') == t;
    assert ' ' !in parts[0] && ' ' !in parts[1];
    SplitJoin(parts, ' ');
    assert parts[1..] == ["Doe"];
  }

  /** Only the first space separates: later ones stay in the last name. */
  lemma SplitFullNameThreeWords(a: string, b: string, c: string)
    requires a != [] && c != [] && !IsWhitespace(a[0]) && !IsWhitespace(c[|c| - 1])
    requires ' ' !in a && ' ' !in b && ' ' !in c
    ensures SplitFullName(a + " " + b + " " + c) == FullNameParts(a, b + " " + c)
  {
    var t := a + " " + b + " " + c;
    assert t[0] == a[0] && t[|t| - 1] == c[|c| - 1];
    TrimUnchanged(t);
    var parts := [a, b, c];
    assert parts[1..] == [b, c];
    assert [b, c][1..] == [c];
    assert Join([b, c], ' ') == b + " " + c;
    assert Join(parts, ' ') == t;
    SplitJoin(parts, ' ');
  }

  // ---------------------------------------------------------------------------
  // Date-of-birth reformatting

  /** "MM/DD/YYYY" or "YYYY-MM-DD". */
  datatype DateFormat = MonthDayYear | YearMonthDay

  datatype CalendarDate = CalendarDate(year: int, month: int, day: int)

  predicate IsLeapYear(year: int) {
    (year % 4 == 0 && year % 100 != 0) || year % 400 == 0
  }

  function DaysInMonth(year: int, month: int): int {
    if month == 2 then (if IsLeapYear(year) then 29 else 28)
    else if month == 4 || month == 6 || month == 9 || month == 11 then 30
    else 31
  }

  /** The dates that `new Date(Date.UTC(year, month - 1, day))` and the getUTC*
      accessors hand back unchanged: real calendar days of the years 100 to
      9999 (Date.UTC maps the years 0 to 99 to 1900 to 1999). */
  predicate IsExactDate(d: CalendarDate) {
    100 <= d.year <= 9999 && 1 <= d.month <= 12 && 1 <= d.day <= DaysInMonth(d.year, d.month)
  }

  /** The date printed with two-digit month and day. */
  function FormatDate(d: CalendarDate, format: DateFormat): string
    requires IsExactDate(d)
  {
    match format
    case MonthDayYear => Pad2(d.month) + "/" + Pad2(d.day) + "/" + NatToString(d.year)
    case YearMonthDay => NatToString(d.year) + "-" + Pad2(d.month) + "-" + Pad2(d.day)
  }

  function AsInteger(n: Numeric): Option<int>
  {
    if n.Finite? && IsIntegral(n.x) then Some(n.x.Floor) else None
  }

  /** The exact date named by the first three pieces after `.map(Number)`, read
      as year, month, day or as month, day, year; None when a piece is missing or
      not an integer, or when the numbers do not name an exact date. */
  function DateFromPieces(pieces: seq<string>, yearFirst: bool): Option<CalendarDate>
  {
    if |pieces| < 3 then None
    else
      var a := AsInteger(StringToNumber(pieces[0]));
      var b := AsInteger(StringToNumber(pieces[1]));
      var c := AsInteger(StringToNumber(pieces[2]));
      if a.None? || b.None? || c.None? then None
      else
        var d := if yearFirst then CalendarDate(a.value, b.value, c.value)
                 else CalendarDate(c.value, a.value, b.value);
        if IsExactDate(d) then Some(d) else None
  }

  /** Transformer.convertDOB. A string containing '-' is read year first, else
      one containing '/' month first, else it is rejected. An exact date is
      printed in the requested format; for any other reading the result is what
      Date.UTC's normalisation gives, supplied by `utcFallback`. */
  function ConvertDob(dateStr: string, format: DateFormat, utcFallback: (string, DateFormat) -> string): Result<string>
  {
    if '-' !in dateStr && '/' !in dateStr then Err("Invalid date format")
    else
      var date := if '-' in dateStr then DateFromPieces(Split(dateStr, '-'), true)
                  else DateFromPieces(Split(dateStr, '/'), false);
      match date
      case Some(d) => Ok(FormatDate(d, format))
      case None => Ok(utcFallback(dateStr, format))
  }

  /** convertDOB throws exactly when the input has neither separator. */
  lemma ConvertDobRejectsIff(dateStr: string, format: DateFormat, utcFallback: (string, DateFormat) -> string)
    ensures ConvertDob(dateStr, format, utcFallback).Err? <==> '-' !in dateStr && '/' !in dateStr
    ensures ConvertDob(dateStr, format, utcFallback).Err? ==>
      ConvertDob(dateStr, format, utcFallback).error == "Invalid date format"
  {
  }

  /** '-' is checked first: a string containing it is read year-month-day even
      when it also contains '/'; only without '-' is it read month-day-year. */
  lemma ConvertDobReadsDashFirst(dateStr: string, format: DateFormat, utcFallback: (string, DateFormat) -> string, d: CalendarDate)
    requires IsExactDate(d)
    ensures '-' in dateStr && DateFromPieces(Split(dateStr, '-'), true) == Some(d) ==>
      ConvertDob(dateStr, format, utcFallback) == Ok(FormatDate(d, format))
    ensures '-' !in dateStr && '/' in dateStr && DateFromPieces(Split(dateStr, '/'), false) == Some(d) ==>
      ConvertDob(dateStr, format, utcFallback) == Ok(FormatDate(d, format))
  {
  }

  /** The pieces of a formatted date are digit strings that convert back to
      the year, month and day. */
  lemma FormattedPieces(d: CalendarDate)
    requires IsExactDate(d)
    ensures AsInteger(StringToNumber(NatToString(d.year))) == Some(d.year)
    ensures AsInteger(StringToNumber(Pad2(d.month))) == Some(d.month)
    ensures AsInteger(StringToNumber(Pad2(d.day))) == Some(d.day)
  {
    DigitStringToNumber(NatToString(d.year));
    DigitStringToNumber(Pad2(d.month));
    DigitStringToNumber(Pad2(d.day));
  }

  /** "a<sep>b<sep>c" contains the separator, lacks any character none of a,
      b and c contains, and splits on the separator back into a, b and c. */
  lemma SplitThree(a: string, b: string, c: string, sep: char, other: char)
    requires sep !in a && sep !in b && sep !in c
    requires other != sep && other !in a && other !in b && other !in c
    ensures var s := a + [sep] + b + [sep] + c;
      sep in s && other !in s && Split(s, sep) == [a, b, c]
  {
    var parts := [a, b, c];
    var s := a + [sep] + b + [sep] + c;
    assert s[|a|] == sep;
    assert Join(parts[2..], sep) == c;
    assert Join(parts[1..], sep) == b + [sep] + c;
    assert Join(parts, sep) == s;
    SplitJoin(parts, sep);
  }

  lemma DigitsLackSeparators(s: string)
    requires AllDigits(s)
    ensures '-' !in s && '/' !in s
  {
    assert forall i :: 0 <= i < |s| ==> IsDigit(s[i]);
  }

  /** The three printed pieces of an exact date, read back in the order of
      either format, name that date again. */
  lemma PiecesNameDate(d: CalendarDate, yearFirst: bool)
    requires IsExactDate(d)
    ensures var y, m, dd := NatToString(d.year), Pad2(d.month), Pad2(d.day);
      DateFromPieces(if yearFirst then [y, m, dd] else [m, dd, y], yearFirst) == Some(d)
  {
    FormattedPieces(d);
  }

  /** A date printed year first is read back by the '-' branch. */
  lemma ReadYearMonthDay(d: CalendarDate)
    requires IsExactDate(d)
    ensures var s := FormatDate(d, YearMonthDay);
      '-' in s && DateFromPieces(Split(s, '-'), true) == Some(d)
  {
    var y, m, dd := NatToString(d.year), Pad2(d.month), Pad2(d.day);
    DigitsLackSeparators(y);
    DigitsLackSeparators(m);
    DigitsLackSeparators(dd);
    SplitThree(y, m, dd, '-', '/');
    PiecesNameDate(d, true);
  }

  /** A date printed month first has no '-' and is read back by the '/' branch. */
  lemma ReadMonthDayYear(d: CalendarDate)
    requires IsExactDate(d)
    ensures var s := FormatDate(d, MonthDayYear);
      '-' !in s && '/' in s && DateFromPieces(Split(s, '/'), false) == Some(d)
  {
    var y, m, dd := NatToString(d.year), Pad2(d.month), Pad2(d.day);
    DigitsLackSeparators(y);
    DigitsLackSeparators(m);
    DigitsLackSeparators(dd);
    SplitThree(m, dd, y, '/', '-');
    PiecesNameDate(d, false);
  }

  /** A formatted exact date converts to either format and gives that format's
      printing: "YYYY-MM-DD" to "MM/DD/YYYY" and back returns the original
      string, and converting to the format it already has changes nothing. */
  lemma ConvertDobRoundTrip(d: CalendarDate, from: DateFormat, to: DateFormat, utcFallback: (string, DateFormat) -> string)
    requires IsExactDate(d)
    ensures ConvertDob(FormatDate(d, from), to, utcFallback) == Ok(FormatDate(d, to))
  {
    match from
    case YearMonthDay => ReadYearMonthDay(d);
    case MonthDayYear => ReadMonthDayYear(d);
  }

  /** 15 January 2000 printed in both formats. */
  lemma FormatDateExample()
    ensures IsExactDate(CalendarDate(2000, 1, 15))
    ensures FormatDate(CalendarDate(2000, 1, 15), YearMonthDay) == "2000-01-15"
    ensures FormatDate(CalendarDate(2000, 1, 15), MonthDayYear) == "01/15/2000"
  {
    assert NatToString(2) == "2";
    assert NatToString(20) == "20";
    assert NatToString(200) == "200";
    assert NatToString(2000) == "2000";
    assert NatToString(1) == "1";
    assert Pad2(1) == "01";
    assert NatToString(15) == "15";
    assert Pad2(15) == "15";
  }

  lemma ConvertDobExamples(utcFallback: (string, DateFormat) -> string)
    ensures ConvertDob("2000-01-15", MonthDayYear, utcFallback) == Ok("01/15/2000")
    ensures ConvertDob("01/15/2000", YearMonthDay, utcFallback) == Ok("2000-01-15")
  {
    var d := CalendarDate(2000, 1, 15);
    FormatDateExample();
    ConvertDobRoundTrip(d, YearMonthDay, MonthDayYear, utcFallback);
    ConvertDobRoundTrip(d, MonthDayYear, YearMonthDay, utcFallback);
  }

  // ---------------------------------------------------------------------------
  // Lookup tables

  /** A string-to-code table and the code for every other input. */
  datatype CodeTable = CodeTable(entries: map<string, Value>, fallback: Value)

  const EmploymentStatusCodes := CodeTable(
    map["Employed" := Str("FT"), "Self-employed" := Str("SE"), "Unemployed" := Str("UE"),
        "Retired" := Str("RT"), "Student" := Str("ST")],
    Str("UE"))

  const IncomeRangeNumbers := CodeTable(
    map["$0-$25k" := Num(0.0), "$25k-$50k" := Num(25000.0), "$50k-$75k" := Num(50000.0),
        "$75k-$100k" := Num(75000.0), "$100k+" := Num(100000.0)],
    Num(0.0))

  const PriorityLevelNumbers := CodeTable(
    map["Low" := Num(1.0), "Medium" := Num(2.0), "High" := Num(3.0), "Urgent" := Num(4.0)],
    Num(1.0))

  const ApprovalStatusNumbers := CodeTable(
    map["Pending" := Num(0.0), "Approved" := Num(1.0), "Rejected" := Num(2.0), "Under Review" := Num(3.0)],
    Num(0.0))

  const ContactMethodCodes := CodeTable(
    map["Email" := Str("E"), "Phone" := Str("P"), "Mail" := Str("M"), "SMS" := Str("S")],
    Str("E"))

  const AccountTypeCodes := CodeTable(
    map["Personal" := Num(1.0), "Business" := Num(2.0), "Joint" := Num(3.0), "Trust" := Num(4.0)],
    Num(1.0))

  const DocumentTypeCodes := CodeTable(
    map["Application" := Str("A"), "Verification" := Str("V"), "Statement" := Str("S"), "Contract" := Str("C")],
    Str("A"))

  const DeviceTypeCodes := CodeTable(
    map["Desktop" := Str("D"), "Mobile" := Str("M"), "Tablet" := Str("T"), "Other" := Str("O")],
    Str("O"))

  const ProductCategoryCodes := CodeTable(
    map["Loans" := Str("LN"), "Insurance" := Str("IN"), "Investments" := Str("IV"),
        "Banking" := Str("BK"), "Credit Cards" := Str("CC")],
    Str("LN"))

  /** The property key a value is looked up under, when it names a table entry. */
  predicate NamesEntry(table: CodeTable, v: Value) {
    StringForm(v).Some? && StringForm(v).value in table.entries
  }

  /** `table[v] ?? fallback` on a table without inherited members: the code of
      the entry named by String(v), or the fallback. */
  function Lookup(table: CodeTable, v: Value): Value
  {
    if NamesEntry(table, v) then table.entries[StringForm(v).value] else table.fallback
  }

  /** Every lookup yields one of the table's codes or its fallback, and the
      fallback exactly for inputs that name no entry, unless an entry carries
      the fallback code itself. */
  lemma LookupCodeOrFallback(table: CodeTable, v: Value)
    ensures Lookup(table, v) in table.entries.Values || Lookup(table, v) == table.fallback
    ensures !NamesEntry(table, v) ==> Lookup(table, v) == table.fallback
    ensures NamesEntry(table, v) ==> Lookup(table, v) == table.entries[StringForm(v).value]
    ensures (table.fallback !in table.entries.Values) ==> (Lookup(table, v) == table.fallback <==> !NamesEntry(table, v))
  {
  }

  /** Each table's fixed fallback code. */
  lemma TableFallbacks(v: Value)
    ensures !NamesEntry(EmploymentStatusCodes, v) ==> Lookup(EmploymentStatusCodes, v) == Str("UE")
    ensures !NamesEntry(IncomeRangeNumbers, v) ==> Lookup(IncomeRangeNumbers, v) == Num(0.0)
    ensures !NamesEntry(PriorityLevelNumbers, v) ==> Lookup(PriorityLevelNumbers, v) == Num(1.0)
    ensures !NamesEntry(ApprovalStatusNumbers, v) ==> Lookup(ApprovalStatusNumbers, v) == Num(0.0)
    ensures !NamesEntry(ContactMethodCodes, v) ==> Lookup(ContactMethodCodes, v) == Str("E")
    ensures !NamesEntry(AccountTypeCodes, v) ==> Lookup(AccountTypeCodes, v) == Num(1.0)
    ensures !NamesEntry(DocumentTypeCodes, v) ==> Lookup(DocumentTypeCodes, v) == Str("A")
    ensures !NamesEntry(DeviceTypeCodes, v) ==> Lookup(DeviceTypeCodes, v) == Str("O")
    ensures !NamesEntry(ProductCategoryCodes, v) ==> Lookup(ProductCategoryCodes, v) == Str("LN")
  {
  }

  /** employmentStatusToCode falls back with `||` rather than `??`; the two
      agree because every employment code is truthy. */
  lemma EmploymentCodesTruthy()
    ensures forall k :: k in EmploymentStatusCodes.entries ==> Truthy(EmploymentStatusCodes.entries[k])
  {
  }

  lemma LookupExamples()
    ensures Lookup(EmploymentStatusCodes, Str("Student")) == Str("ST")
    ensures Lookup(IncomeRangeNumbers, Str("$50k-$75k")) == Num(50000.0)
    ensures Lookup(PriorityLevelNumbers, Str("Urgent")) == Num(4.0)
    ensures Lookup(ApprovalStatusNumbers, Str("Under Review")) == Num(3.0)
    ensures Lookup(ContactMethodCodes, Str("SMS")) == Str("S")
    ensures Lookup(AccountTypeCodes, Str("Joint")) == Num(3.0)
    ensures Lookup(DocumentTypeCodes, Str("Statement")) == Str("S")
    ensures Lookup(DeviceTypeCodes, Str("Tablet")) == Str("T")
    ensures Lookup(ProductCategoryCodes, Str("Investments")) == Str("IV")
  {
  }

  // The tables are written as object literals, which inherit from
  // Object.prototype. The lookup as written therefore also finds inherited
  // members, which are functions (or, for "__proto__", Object.prototype) and so
  // neither null nor undefined: `?? fallback` does not replace them.

  const ObjectPrototypeMembers: set<string> := {
    "constructor", "hasOwnProperty", "isPrototypeOf", "propertyIsEnumerable",
    "toLocaleString", "toString", "valueOf", "__proto__",
    "__defineGetter__", "__defineSetter__", "__lookupGetter__", "__lookupSetter__"
  }

  /** What `table[key] ?? fallback` reads from an object literal. */
  datatype PropertyRead = Code(value: Value) | InheritedMember(name: string)

  /** The lookup as the source writes it. */
  function LookupAsWritten(table: CodeTable, v: Value): PropertyRead
  {
    if NamesEntry(table, v) then Code(table.entries[StringForm(v).value])
    else if StringForm(v).Some? && StringForm(v).value in ObjectPrototypeMembers then
      InheritedMember(StringForm(v).value)
    else Code(table.fallback)
  }

  /** The input "constructor" gets Object.prototype.constructor instead of the
      fallback code "UE"; Lookup gives "UE". */
  lemma LookupAsWrittenMissesFallback()
    ensures LookupAsWritten(EmploymentStatusCodes, Str("constructor")) == InheritedMember("constructor")
    ensures Lookup(EmploymentStatusCodes, Str("constructor")) == Str("UE")
  {
    assert "constructor" !in EmploymentStatusCodes.entries;
  }

  /** Outside the names of Object.prototype's members the written lookup and
      Lookup agree. */
  lemma LookupAsWrittenAgreesElsewhere(table: CodeTable, v: Value)
    requires !(StringForm(v).Some? && StringForm(v).value in ObjectPrototypeMembers)
    ensures LookupAsWritten(table, v) == Code(Lookup(table, v))
  {
  }

  // ---------------------------------------------------------------------------
  // Credit-score bands and boolean converters

  /** `score < bound` once the score has been converted to a number; any
      comparison with NaN is false. */
  predicate Below(score: Numeric, bound: real) {
    match score
    case Finite(x) => x < bound
    case NegInfinity => true
    case PosInfinity => false
    case NaN => false
  }

  /** Transformer.creditScoreToCategory on the converted score. */
  function CreditScoreToCategory(score: Numeric): string
  {
    if Below(score, 580.0) then "Poor"
    else if Below(score, 670.0) then "Fair"
    else if Below(score, 740.0) then "Good"
    else "Excellent"
  }

  /** The position of a category in the order Poor, Fair, Good, Excellent. */
  function CategoryRank(category: string): nat
  {
    if category == "Poor" then 0
    else if category == "Fair" then 1
    else if category == "Good" then 2
    else 3
  }

  /** The four bands, each half-open on the right. */
  lemma CreditCategoryBands(x: real)
    ensures CreditScoreToCategory(Finite(x)) == "Poor" <==> x < 580.0
    ensures CreditScoreToCategory(Finite(x)) == "Fair" <==> 580.0 <= x < 670.0
    ensures CreditScoreToCategory(Finite(x)) == "Good" <==> 670.0 <= x < 740.0
    ensures CreditScoreToCategory(Finite(x)) == "Excellent" <==> 740.0 <= x
  {
  }

  /** A higher score never gets a lower category. */
  lemma CreditCategoryMonotone(x: real, y: real)
    requires x <= y
    ensures CategoryRank(CreditScoreToCategory(Finite(x))) <= CategoryRank(CreditScoreToCategory(Finite(y)))
  {
  }

  lemma CreditCategoryExamples()
    ensures CreditScoreToCategory(ToNumber(Num(720.0))) == "Good"
    ensures CreditScoreToCategory(ToNumber(Num(580.0))) == "Fair"
    ensures CreditScoreToCategory(ToNumber(Undefined)) == "Excellent"
  {
  }

  /** Transformer.booleanToYN (the argument is read for its truthiness). */
  function BooleanToYN(v: Value): string
  {
    if Truthy(v) then "Y" else "N"
  }

  /** Transformer.booleanToString. */
  function BooleanToString(v: Value): string
  {
    if Truthy(v) then "true" else "false"
  }

  /** On booleans both converters are total and tell true from false. */
  lemma BooleanConvertersInjective(a: bool, b: bool)
    ensures BooleanToYN(Bool(a)) == (if a then "Y" else "N")
    ensures BooleanToString(Bool(a)) == (if a then "true" else "false")
    ensures BooleanToYN(Bool(a)) == BooleanToYN(Bool(b)) <==> a == b
    ensures BooleanToString(Bool(a)) == BooleanToString(Bool(b)) <==> a == b
  {
  }

  // ---------------------------------------------------------------------------
  // Dispatch and chains

  /** The step identifiers applyCustomTransform recognises. */
  const KnownSteps: set<string> := {
    "splitName", "dob-MMDDYYYY", "dob-ISO", "timestamp", "employmentCode",
    "incomeNumber", "priorityNumber", "approvalNumber", "contactCode",
    "accountCode", "documentCode", "deviceCode", "productCode",
    "creditCategory", "boolYN", "boolStr"
  }

  /** The "dob-MMDDYYYY" step: only a string has `includes` and `split`; an
      array has `includes` but no `split`. */
  function DobStep(value: Value, ext: Externals): Result<Value>
  {
    match value
    case Str(s) =>
      (match ConvertDob(s, MonthDayYear, ext.utcFallback)
       case Ok(t) => Ok(Str(t))
       case Err(e) => Err(e))
    case Arr(items) =>
      if Str("-") in items || Str("/") in items then Err(TypeErrorMessage)
      else Err("Invalid date format")
    case _ => Err(TypeErrorMessage)
  }

  /** Transformer.applyCustomTransform: the named pure step, or the value
      unchanged for an identifier it does not know. */
  function ApplyCustomTransform(value: Value, step: string, ext: Externals): (r: Result<Value>)
    ensures step !in KnownSteps ==> r == Ok(value)
  {
    match step
    case "splitName" =>
      if value.Str? then Ok(FullNamePartsValue(SplitFullName(value.s))) else Err(TypeErrorMessage)
    case "dob-MMDDYYYY" => DobStep(value, ext)
    case "dob-ISO" => ext.toIso8601(value)
    case "timestamp" => Ok(ext.toUnixTimestamp(value))
    case "employmentCode" => Ok(Lookup(EmploymentStatusCodes, value))
    case "incomeNumber" => Ok(Lookup(IncomeRangeNumbers, value))
    case "priorityNumber" => Ok(Lookup(PriorityLevelNumbers, value))
    case "approvalNumber" => Ok(Lookup(ApprovalStatusNumbers, value))
    case "contactCode" => Ok(Lookup(ContactMethodCodes, value))
    case "accountCode" => Ok(Lookup(AccountTypeCodes, value))
    case "documentCode" => Ok(Lookup(DocumentTypeCodes, value))
    case "deviceCode" => Ok(Lookup(DeviceTypeCodes, value))
    case "productCode" => Ok(Lookup(ProductCategoryCodes, value))
    case "creditCategory" => Ok(Str(CreditScoreToCategory(ToNumber(value))))
    case "boolYN" => Ok(Str(BooleanToYN(value)))
    case "boolStr" => Ok(Str(BooleanToString(value)))
    case _ => Ok(value)
  }

  /** The steps of a pipeline: a single identifier is a one-step chain. */
  function StepList(types: TransformationPipeline): seq<string>
  {
    match types
    case Single(step) => [step]
    case Chain(steps) => steps
  }

  /** One step of a chain: "llm" goes to the extraction service, anything else
      to applyCustomTransform. */
  function ApplyStep(field: string, value: Value, step: string, ext: Externals): Result<Value>
  {
    if step == "llm" then ext.extract(field, value) else ApplyCustomTransform(value, step, ext)
  }

  /** The chain evaluated left to right, each step consuming the previous
      step's output; the first failure ends the chain. */
  function RunChain(field: string, value: Value, steps: seq<string>, ext: Externals): Result<Value>
    decreases |steps|
  {
    if steps == [] then Ok(value)
    else
      match ApplyStep(field, value, steps[0], ext)
      case Err(e) => Err(e)
      case Ok(next) => RunChain(field, next, steps[1..], ext)
  }

  /** A failed chain stays failed; a finished one continues with more steps. */
  function Continue(r: Result<Value>, field: string, steps: seq<string>, ext: Externals): Result<Value>
  {
    match r
    case Err(e) => Err(e)
    case Ok(v) => RunChain(field, v, steps, ext)
  }

  /** The chain is a left fold: running a + b is running a, then b on its result. */
  lemma {:induction false} RunChainAppend(field: string, value: Value, a: seq<string>, b: seq<string>, ext: Externals)
    ensures RunChain(field, value, a + b, ext) == Continue(RunChain(field, value, a, ext), field, b, ext)
    decreases |a|
  {
    if a == [] {
      assert a + b == b;
    } else {
      assert (a + b)[0] == a[0];
      assert (a + b)[1..] == a[1..] + b;
      match ApplyStep(field, value, a[0], ext)
      case Err(e) =>
      case Ok(next) => RunChainAppend(field, next, a[1..], b, ext);
    }
  }

  /** An "llm" step inside a chain is sent the value the steps before it
      produced, and the steps after it continue from its answer. */
  lemma LlmSeesIntermediate(field: string, value: Value, before: seq<string>, after: seq<string>, ext: Externals, current: Value)
    requires RunChain(field, value, before, ext) == Ok(current)
    ensures RunChain(field, value, before + ["llm"] + after, ext)
         == Continue(ext.extract(field, current), field, after, ext)
  {
    RunChainAppend(field, value, before, ["llm"] + after, ext);
    assert before + ["llm"] + after == before + (["llm"] + after);
    assert (["llm"] + after)[1..] == after;
  }

  /** An unrecognised identifier leaves the value unchanged, alone or in a chain. */
  lemma UnknownStepIsIdentity(field: string, value: Value, step: string, ext: Externals)
    requires step !in KnownSteps && step != "llm"
    ensures ApplyCustomTransform(value, step, ext) == Ok(value)
    ensures RunChain(field, value, StepList(Single(step)), ext) == Ok(value)
  {
  }

  /** The pipeline ["llm", "boolStr"] with an extraction answer of `true`
      yields "true". */
  lemma LlmThenBoolStrExample(field: string, value: Value, ext: Externals)
    requires ext.extract(field, value) == Ok(Bool(true))
    ensures RunChain(field, value, ["llm", "boolStr"], ext) == Ok(Str("true"))
  {
    assert ["llm", "boolStr"][1..] == ["boolStr"];
    assert ["boolStr"][1..] == [];
  }

  /** Transformer.applyTransformPipeline: folds the steps over the value,
      reassigning the intermediate result after each step. */
  method ApplyTransformPipeline(field: string, value: Value, types: TransformationPipeline, ext: Externals)
    returns (r: Result<Value>)
    ensures r == RunChain(field, value, StepList(types), ext)
  {
    var steps := StepList(types);
    var result := value;
    var i := 0;
    while i < |steps|
      invariant 0 <= i <= |steps|
      invariant RunChain(field, result, steps[i..], ext) == RunChain(field, value, steps, ext)
    {
      assert steps[i..][1..] == steps[i + 1..];
      var next;
      if steps[i] == "llm" {
        next := ext.extract(field, result);
      } else {
        next := ApplyCustomTransform(result, steps[i], ext);
      }
      assert next == ApplyStep(field, result, steps[i], ext);
      if next.Err? {
        return Err(next.error);
      }
      result := next.value;
      i := i + 1;
    }
    assert steps[i..] == [];
    r := Ok(result);
  }
}
