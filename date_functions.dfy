/** DATE, YEAR, MONTH and DAY over Excel serial numbers. */
module DateFunctions {
  import opened Wrappers
  import opened Values
  import opened Errors
  import opened DateUtils

  /** DATE(year, month, day): `#VALUE!` with fewer than three arguments, a non-numeric
    * argument or a date outside the representable range. */
  function Date(args: seq<Value>): (r: Value)
    ensures |args| < 3 ==> r == Error(VALUE)
    ensures r.Num? ==> (|args| >= 3 &&
      YmdToExcelSerial(ToNumber(args[0]), ToNumber(args[1]), ToNumber(args[2])) == Some(r.n.Floor))
    ensures !r.Num? ==> r == Error(VALUE)
  {
    if |args| < 3 then Error(VALUE)
    else
      var year, month, day := ToNumber(args[0]), ToNumber(args[1]), ToNumber(args[2]);
      if year.None? || month.None? || day.None? then Error(VALUE)
      else
        var serial := YmdToExcelSerial(year, month, day);
        if serial.None? then Error(VALUE) else Num(serial.value as real)
  }

  /** Which part of a date YEAR, MONTH and DAY return. */
  datatype Field = YearField | MonthField | DayField

  function FieldOf(ymd: Ymd, f: Field): int
  {
    match f
    case YearField => ymd.year
    case MonthField => ymd.month
    case DayField => ymd.day
  }

  /** YEAR, MONTH and DAY: `#VALUE!` for a non-numeric or negative serial; NaN for a serial
    * beyond the Date range (the parts of an invalid Date are NaN). */
  function DatePart(args: seq<Value>, f: Field): (r: Value)
    ensures ExcelSerialToParts(ToNumber(Arg(args, 0))).NoParts? <==> r == Error(VALUE)
    ensures ExcelSerialToParts(ToNumber(Arg(args, 0))).InvalidDate? <==> r.NaN?
    ensures r.Num? ==> (ExcelSerialToParts(ToNumber(Arg(args, 0))).Parts? &&
      r.n == FieldOf(ExcelSerialToParts(ToNumber(Arg(args, 0))).ymd, f) as real)
  {
    match ExcelSerialToParts(ToNumber(Arg(args, 0)))
    case NoParts => Error(VALUE)
    case InvalidDate => NaN
    case Parts(ymd) => Num(FieldOf(ymd, f) as real)
  }

  function Year(args: seq<Value>): Value { DatePart(args, YearField) }
  function Month(args: seq<Value>): Value { DatePart(args, MonthField) }
  function Day(args: seq<Value>): Value { DatePart(args, DayField) }

  // ---- properties ----

  /** YEAR, MONTH and DAY recover the arguments of DATE for every valid date from
    * 1900-01-01 on, the fictitious 1900-02-29 included. */
  lemma DateRoundTrip(y: int, m: int, d: int)
    requires 1900 <= y <= 200000
    requires ValidDate(y, m, d) || (y == 1900 && m == 2 && d == 29)
    ensures Date([Num(y as real), Num(m as real), Num(d as real)]).Num?
    ensures Year([Date([Num(y as real), Num(m as real), Num(d as real)])]) == Num(y as real)
    ensures Month([Date([Num(y as real), Num(m as real), Num(d as real)])]) == Num(m as real)
    ensures Day([Date([Num(y as real), Num(m as real), Num(d as real)])]) == Num(d as real)
  {
    SerialRoundTrip(y, m, d);
  }

  /** DATE(1900, 2, 29) is serial 60, between 1900-02-28 (59) and 1900-03-01 (61). */
  lemma LeapBugSerials()
    ensures Date([Num(1900.0), Num(2.0), Num(28.0)]) == Num(59.0)
    ensures Date([Num(1900.0), Num(2.0), Num(29.0)]) == Num(60.0)
    ensures Date([Num(1900.0), Num(3.0), Num(1.0)]) == Num(61.0)
  {
    SerialLastFebruaryDay();
    SerialFictitiousLeapDay();
    SerialFirstMarchDay();
  }

  /** Text arguments are read as numbers: DATE("2024", ...) is DATE(2024, ...). */
  lemma DateCoercesText(y: Value, m: Value, d: Value)
    requires y.Str? && ToNumber(y).Some?
    ensures Date([y, m, d]) == Date([Num(ToNumber(y).value), m, d])
  {
  }

  /** A negative serial has no parts. */
  lemma NegativeSerial(s: real)
    requires s < 0.0
    ensures Year([Num(s)]) == Error(VALUE)
  {
  }
}
