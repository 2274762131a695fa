/**
 * The `Date` header value: `time.strftime("%a, %d %b %Y %H:%M:%S +0000", t)` for a
 * broken-down UTC time, with English day and month abbreviations.
 */
module HttpDate {

  import opened Wrappers
  import opened Strings

  /** A broken-down time as `time.gmtime` returns it; `weekday` 0 is Monday. */
  datatype TimeTuple = TimeTuple(year: int, month: int, day: int, hour: int, minute: int, second: int, weekday: int)

  const DAY_NAMES: seq<string> := ["Mon", "Tue", "Wed", "Thu", "Fri", "Sat", "Sun"]
  const MONTH_NAMES: seq<string> := ["Jan", "Feb", "Mar", "Apr", "May", "Jun", "Jul", "Aug", "Sep", "Oct", "Nov", "Dec"]

  /** The field ranges the model accepts; a time outside them has no `Date` value. */
  predicate InRange(t: TimeTuple)
  {
    && 1900 <= t.year
    && 1 <= t.month <= 12
    && 1 <= t.day <= 31
    && 0 <= t.hour <= 23
    && 0 <= t.minute <= 59
    && 0 <= t.second <= 61
    && 0 <= t.weekday <= 6
  }

  /** `date or time.gmtime()`: the supplied time, or the clock's when none is given. */
  function EffectiveTime(date: Option<TimeTuple>, now: TimeTuple): TimeTuple
  {
    if date.Some? then date.value else now
  }

  predicate IsDigit(c: char)
  {
    '0' <= c <= '9'
  }

  function Digit(d: int): (c: char)
    requires 0 <= d < 10
    ensures IsDigit(c)
  {
    ('0' as int + d) as char
  }

  /** A two-digit, zero-padded field (`%d`, `%H`, `%M`, `%S`). */
  function Pad2(n: int): string
    requires 0 <= n < 100
  {
    [Digit(n / 10), Digit(n % 10)]
  }

  /** The decimal digits of `n` without padding (`%Y`). */
  function Decimal(n: nat): (r: string)
    ensures |r| >= 1
    ensures forall i :: 0 <= i < |r| ==> IsDigit(r[i])
    decreases n
  {
    if n < 10 then [Digit(n)] else Decimal(n / 10) + [Digit(n % 10)]
  }

  /** `%H:%M:%S` */
  function Clock(t: TimeTuple): string
    requires InRange(t)
  {
    Join([Pad2(t.hour), Pad2(t.minute), Pad2(t.second)], ':')
  }

  /**
   * The template `%a, %d %b %Y %H:%M:%S +0000` is six fields separated by single spaces:
   * `%a,`, `%d`, `%b`, `%Y`, `%H:%M:%S` and the fixed zone `+0000`.
   */
  function DateFields(t: TimeTuple): seq<string>
    requires InRange(t)
  {
    [DAY_NAMES[t.weekday] + ",", Pad2(t.day), MONTH_NAMES[t.month - 1], Decimal(t.year), Clock(t), "+0000"]
  }

  function FormatDate(t: TimeTuple): (r: Option<string>)
    ensures r.Some? <==> InRange(t)
  {
    if !InRange(t) then None else Some(Join(DateFields(t), ' '))
  }

  /** The value of a string of decimal digits. */
  function DecimalValue(s: string): nat
    requires forall i :: 0 <= i < |s| ==> IsDigit(s[i])
    decreases |s|
  {
    if s == [] then 0
    else
      assert IsDigit(s[|s| - 1]);
      DecimalValue(s[..|s| - 1]) * 10 + (s[|s| - 1] as int - '0' as int)
  }

  function ParseDecimal(s: string): Option<nat>
  {
    if s != [] && forall i :: 0 <= i < |s| ==> IsDigit(s[i]) then Some(DecimalValue(s)) else None
  }

  function ParseTwoDigits(s: string): Option<nat>
  {
    if |s| == 2 then ParseDecimal(s) else None
  }

  /** The position of `x` in `names`. */
  function IndexOf(names: seq<string>, x: string): (r: Option<nat>)
    ensures r.Some? ==> r.value < |names| && names[r.value] == x
    ensures r.None? ==> x !in names
    decreases |names|
  {
    if names == [] then None
    else if names[0] == x then Some(0)
    else match IndexOf(names[1..], x)
      case None => None
      case Some(i) => Some(i + 1)
  }

  /** Reads `%H:%M:%S` back into hours, minutes and seconds. */
  function ParseClock(c: string): Option<(nat, nat, nat)>
  {
    var parts := Split(c, ':');
    if |parts| != 3 then None
    else
      var hh, mm, ss := ParseTwoDigits(parts[0]), ParseTwoDigits(parts[1]), ParseTwoDigits(parts[2]);
      if hh.None? || mm.None? || ss.None? then None else Some((hh.value, mm.value, ss.value))
  }

  /** Reads `%a,` back into a weekday. */
  function ParseDay(f: string): Option<nat>
  {
    if |f| != 4 || f[3] != ',' then None else IndexOf(DAY_NAMES, f[..3])
  }

  /** Builds the time once every field has been read. */
  function Assemble(wd: Option<nat>, d: Option<nat>, m: Option<nat>, y: Option<nat>, clock: Option<(nat, nat, nat)>): Option<TimeTuple>
  {
    if wd.None? || d.None? || m.None? || y.None? || clock.None? then None
    else Some(TimeTuple(y.value, m.value + 1, d.value, clock.value.0, clock.value.1, clock.value.2, wd.value))
  }

  /** Reads the six fields of the template back into a time. */
  function ParseFields(fields: seq<string>): Option<TimeTuple>
  {
    if |fields| != 6 || fields[5] != "+0000" then None
    else Assemble(ParseDay(fields[0]), ParseTwoDigits(fields[1]), IndexOf(MONTH_NAMES, fields[2]), ParseDecimal(fields[3]), ParseClock(fields[4]))
  }

  /** Reads a `Date` header value back into the time it shows. */
  function ParseDate(s: string): Option<TimeTuple>
  {
    ParseFields(Split(s, ' '))
  }

  lemma {:induction false} DecimalRoundTrip(n: nat)
    ensures DecimalValue(Decimal(n)) == n
    decreases n
  {
    var s := Decimal(n);
    if n >= 10 {
      assert s[..|s| - 1] == Decimal(n / 10);
      DecimalRoundTrip(n / 10);
    }
  }

  lemma Pad2RoundTrip(n: int)
    requires 0 <= n < 100
    ensures ParseTwoDigits(Pad2(n)) == Some(n)
  {
    var s := Pad2(n);
    assert s[..1] == [Digit(n / 10)];
    assert DecimalValue(s[..1]) == n / 10;
  }

  lemma IndexOfDistinct(names: seq<string>, k: int)
    requires 0 <= k < |names|
    requires forall i, j :: 0 <= i < j < |names| ==> names[i] != names[j]
    ensures IndexOf(names, names[k]) == Some(k)
  {
  }

  lemma NamesDistinct()
    ensures forall i :: 0 <= i < |DAY_NAMES| ==> |DAY_NAMES[i]| == 3
    ensures forall i, j :: 0 <= i < j < |DAY_NAMES| ==> DAY_NAMES[i] != DAY_NAMES[j]
    ensures forall i, j :: 0 <= i < j < |MONTH_NAMES| ==> MONTH_NAMES[i] != MONTH_NAMES[j]
  {
  }

  lemma NoSeparators(t: TimeTuple)
    requires InRange(t)
    ensures ' ' !in DAY_NAMES[t.weekday] + "," && ' ' !in MONTH_NAMES[t.month - 1]
    ensures ' ' !in Decimal(t.year)
    ensures ' ' !in Clock(t)
  {
    var y := Decimal(t.year);
    assert forall i :: 0 <= i < |y| ==> y[i] != ' ' by {
      forall i | 0 <= i < |y| ensures y[i] != ' ' { assert IsDigit(y[i]); }
    }
    var hh, mm, ss := Pad2(t.hour), Pad2(t.minute), Pad2(t.second);
    JoinCons(mm, [ss], ':');
    JoinCons(hh, [mm, ss], ':');
  }

  lemma ParseClockRoundTrip(t: TimeTuple)
    requires InRange(t)
    ensures ParseClock(Clock(t)) == Some((t.hour, t.minute, t.second))
  {
    SplitJoin([Pad2(t.hour), Pad2(t.minute), Pad2(t.second)], ':');
    Pad2RoundTrip(t.hour);
    Pad2RoundTrip(t.minute);
    Pad2RoundTrip(t.second);
  }

  lemma DayFieldRoundTrip(wd: int)
    requires 0 <= wd < 7
    ensures ParseDay(DAY_NAMES[wd] + ",") == Some(wd)
  {
    NamesDistinct();
    var f := DAY_NAMES[wd] + ",";
    assert f[..3] == DAY_NAMES[wd];
    IndexOfDistinct(DAY_NAMES, wd);
  }

  lemma MonthFieldRoundTrip(m: int)
    requires 1 <= m <= 12
    ensures IndexOf(MONTH_NAMES, MONTH_NAMES[m - 1]) == Some(m - 1)
  {
    NamesDistinct();
    IndexOfDistinct(MONTH_NAMES, m - 1);
  }

  lemma YearFieldRoundTrip(y: nat)
    ensures ParseDecimal(Decimal(y)) == Some(y)
  {
    DecimalRoundTrip(y);
  }

  lemma AssembleOf(t: TimeTuple)
    requires InRange(t)
    ensures Assemble(Some(t.weekday), Some(t.day), Some(t.month - 1), Some(t.year), Some((t.hour, t.minute, t.second))) == Some(t)
  {
  }

  lemma ParseFieldsUnfold(fields: seq<string>)
    requires |fields| == 6 && fields[5] == "+0000"
    ensures ParseFields(fields)
         == Assemble(ParseDay(fields[0]), ParseTwoDigits(fields[1]), IndexOf(MONTH_NAMES, fields[2]), ParseDecimal(fields[3]), ParseClock(fields[4]))
  {
  }

  lemma ParseFieldsRoundTrip(t: TimeTuple)
    requires InRange(t)
    ensures ParseFields(DateFields(t)) == Some(t)
  {
    var day, d, month, year, clock := DAY_NAMES[t.weekday] + ",", Pad2(t.day), MONTH_NAMES[t.month - 1], Decimal(t.year), Clock(t);
    var fields := [day, d, month, year, clock, "+0000"];
    assert DateFields(t) == fields;
    ParseFieldsUnfold(fields);
    assert fields[0] == day && fields[1] == d && fields[2] == month && fields[3] == year && fields[4] == clock;
    AssembleOf(t);
    DayFieldRoundTrip(t.weekday);
    Pad2RoundTrip(t.day);
    MonthFieldRoundTrip(t.month);
    YearFieldRoundTrip(t.year);
    ParseClockRoundTrip(t);
  }

  /** Parsing the formatted date gives back the time: distinct times give distinct `Date` headers. */
  lemma ParseFormatDate(t: TimeTuple)
    requires InRange(t)
    ensures ParseDate(FormatDate(t).value) == Some(t)
  {
    NoSeparators(t);
    SplitJoin(DateFields(t), ' ');
    ParseFieldsRoundTrip(t);
  }

  lemma FourDigitYear(n: nat)
    requires 1000 <= n <= 9999
    ensures |Decimal(n)| == 4
  {
    assert |Decimal(n / 1000)| == 1;
    assert |Decimal(n / 100)| == 2;
    assert |Decimal(n / 10)| == 3;
  }

  /** For a four-digit year the value has the fixed 31-character shape `Ddd, DD Mon YYYY HH:MM:SS +0000`. */
  lemma DateLength(t: TimeTuple)
    requires InRange(t) && t.year <= 9999
    ensures |FormatDate(t).value| == 31
  {
    var f := DateFields(t);
    assert f == [f[0]] + f[1..];
    assert f[1..] == [f[1]] + f[2..];
    assert f[2..] == [f[2]] + f[3..];
    assert f[3..] == [f[3]] + f[4..];
    assert f[4..] == [f[4]] + [f[5]];
    NamesDistinct();
    FourDigitYear(t.year);
    var hh, mm, ss := Pad2(t.hour), Pad2(t.minute), Pad2(t.second);
    JoinCons(mm, [ss], ':');
    JoinCons(hh, [mm, ss], ':');
    assert |Clock(t)| == 8;
    JoinCons(f[4], [f[5]], ' ');
    JoinCons(f[3], f[4..], ' ');
    JoinCons(f[2], f[3..], ' ');
    JoinCons(f[1], f[2..], ' ');
    JoinCons(f[0], f[1..], ' ');
  }
}
