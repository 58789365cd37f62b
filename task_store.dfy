/**
 * The scheduled-task store: the registry of task types, the task list, the
 * conversion of a task's timer settings into a cron expression, and the
 * bookkeeping of the cron jobs that start, stop and remove keep.
 * Source: desktop/src/store/task/index.js
 */
module TaskStore {
  import opened Wrappers
  import opened Strings
  import opened JsValues

  /** A task type offered in the task form: an i18n label and a value. */
  datatype TaskType = TaskType(labelKey: string, value: string)

  datatype TaskStatus = Start | Progress | Finished | Failed

  /** The local calendar fields dayjs reads off a timestamp; month counts from 0 as in dayjs. */
  datatype Moment = Moment(year: nat, month: nat, date: nat, hour: nat, minute: nat, second: nat)

  /**
   * The task form fields the store reads. timeout is None when the form's
   * timeout is falsy; interval and cronExpression are kept as the raw form
   * values, since the store tests their truthiness and converts them itself.
   */
  datatype TaskForm = TaskForm(
    taskType: string,
    timerType: string,
    timeout: Option<Moment>,
    interval: Value,
    intervalType: string,
    cronExpression: Value,
    extra: Value)

  /** A stored task: the form spread into a new record plus the store's own fields. cronJob holds the handle (the task id) while a job runs. */
  datatype Task = Task(form: TaskForm, cronJob: Option<string>, id: string, taskStatus: TaskStatus, formatTimeout: string, createdAt: int)

  /** The five task types the store starts with. */
  const DefaultTaskTypes: seq<TaskType> := [
    TaskType("device.control.install", "install"),
    TaskType("device.control.capture", "screenshot"),
    TaskType("terminal.script.name", "shell"),
    TaskType("device.mirror.start", "mirror"),
    TaskType("device.control.copilot", "copilot")
  ]

  predicate HasTypeValue(model: seq<TaskType>, value: string) {
    exists k :: 0 <= k < |model| && model[k].value == value
  }

  predicate DistinctValues(model: seq<TaskType>) {
    forall i, j :: 0 <= i < j < |model| ==> model[i].value != model[j].value
  }

  lemma DefaultTaskTypesDistinct()
    ensures DistinctValues(DefaultTaskTypes)
  {
    var m := DefaultTaskTypes;
    assert m[0].value[0] == 'i' && m[1].value[0] == 's' && m[2].value[0] == 's';
    assert m[3].value[0] == 'm' && m[4].value[0] == 'c';
    assert m[1].value[1] == 'c' && m[2].value[1] == 'h';
  }

  /** dayjs(...).format('YYYY-MM-DD HH:mm:ss'): the year padded to four digits, the other fields to two, month from 1. */
  function FormatMoment(m: Moment): (r: string)
    ensures |r| >= 19
    ensures |DateText(m)| < |r| && r[|DateText(m)|] == ' '
  {
    DateText(m) + " " + TimeText(m)
  }

  function DateText(m: Moment): string {
    Fields3(Padded(m.year, 4), Padded(m.month + 1, 2), Padded(m.date, 2), '-')
  }

  /** Three fields with a separator between each pair. */
  function Fields3(a: string, b: string, c: string, sep: char): string {
    a + [sep] + b + [sep] + c
  }

  function TimeText(m: Moment): string {
    Fields3(Padded(m.hour, 2), Padded(m.minute, 2), Padded(m.second, 2), ':')
  }

  /** The decimal text of n, zero-padded to w characters. */
  function Padded(n: nat, w: nat): string {
    PadStart(NatToString(n), w, '0')
  }

  /** A digit field of width w, read back. */
  lemma PaddedField(n: nat, w: nat)
    requires n < if w == 4 then 10000 else 100
    requires w == 2 || w == 4
    ensures |Padded(n, w)| == w
    ensures AllDigits(Padded(n, w)) && DigitsValue(Padded(n, w)) == n
  {
    DigitsValueOfPadded(n, w);
    PaddedWidth(n, w);
  }

  /** A number below 10^w pads to exactly w characters. */
  lemma PaddedWidth(n: nat, w: nat)
    requires n < if w == 4 then 10000 else 100
    requires w == 2 || w == 4
    ensures |Padded(n, w)| == w
  {
    if w == 2 {
      assert |NatToString(n)| <= 2 by {
        if n >= 10 {
          assert NatToString(n) == NatToString(n / 10) + [DigitChar(n % 10)];
        }
      }
    } else {
      assert |NatToString(n)| <= 4 by {
        if n >= 10 {
          NatToStringLength(n / 10);
        }
      }
    }
  }

  lemma {:induction false} NatToStringLength(n: nat)
    requires n < 1000
    ensures |NatToString(n)| <= 3
  {
    if n >= 10 {
      NatToStringLength(n / 10);
    }
  }

  lemma TwoParts(r: string, d: string, t: string)
    requires |d| == 10 && |t| == 8 && r == d + " " + t
    ensures |r| == 19 && r[10] == ' ' && r[..10] == d && r[11..] == t
  {
  }

  /** Where the three fields and the separators of Fields3 sit. */
  lemma ThreeSlices(a: string, b: string, c: string, sep: char, w: nat)
    requires |a| == w && |b| == 2 && |c| == 2
    ensures |Fields3(a, b, c, sep)| == w + 6
    ensures Fields3(a, b, c, sep)[w] == sep && Fields3(a, b, c, sep)[w + 3] == sep
    ensures Fields3(a, b, c, sep)[0..w] == a && Fields3(a, b, c, sep)[w + 1..w + 3] == b
    ensures Fields3(a, b, c, sep)[w + 4..w + 6] == c
  {
  }

  /** YYYY-MM-DD: each field is the zero-padded decimal text of the moment's field, which PaddedField reads back. */
  lemma DateTextFields(m: Moment)
    requires m.year < 10000 && m.month < 12 && m.date < 100
    ensures |DateText(m)| == 10 && DateText(m)[4] == '-' && DateText(m)[7] == '-'
    ensures DateText(m)[0..4] == Padded(m.year, 4)
    ensures DateText(m)[5..7] == Padded(m.month + 1, 2)
    ensures DateText(m)[8..10] == Padded(m.date, 2)
  {
    var mo := m.month + 1;
    assert DateText(m) == Fields3(Padded(m.year, 4), Padded(mo, 2), Padded(m.date, 2), '-');
    PaddedWidth(m.year, 4);
    PaddedWidth(mo, 2);
    PaddedWidth(m.date, 2);
    ThreeSlices(Padded(m.year, 4), Padded(mo, 2), Padded(m.date, 2), '-', 4);
  }

  /** HH:mm:ss: each field is the zero-padded decimal text of the moment's field, which PaddedField reads back. */
  lemma TimeTextFields(m: Moment)
    requires m.hour < 100 && m.minute < 100 && m.second < 100
    ensures |TimeText(m)| == 8 && TimeText(m)[2] == ':' && TimeText(m)[5] == ':'
    ensures TimeText(m)[0..2] == Padded(m.hour, 2)
    ensures TimeText(m)[3..5] == Padded(m.minute, 2)
    ensures TimeText(m)[6..8] == Padded(m.second, 2)
  {
    assert TimeText(m) == Fields3(Padded(m.hour, 2), Padded(m.minute, 2), Padded(m.second, 2), ':');
    PaddedWidth(m.hour, 2);
    PaddedWidth(m.minute, 2);
    PaddedWidth(m.second, 2);
    ThreeSlices(Padded(m.hour, 2), Padded(m.minute, 2), Padded(m.second, 2), ':', 2);
  }

  /** The formatted timeout is the date and the time of day, 19 characters in all; their fields read back by DateTextFields and TimeTextFields. */
  lemma FormatMomentFields(m: Moment)
    requires m.year < 10000 && m.month < 12 && m.date < 100 && m.hour < 100 && m.minute < 100 && m.second < 100
    ensures |FormatMoment(m)| == 19 && FormatMoment(m)[10] == ' '
    ensures FormatMoment(m)[..10] == DateText(m) && FormatMoment(m)[11..] == TimeText(m)
  {
    DateTextFields(m);
    TimeTextFields(m);
    TwoParts(FormatMoment(m), DateText(m), TimeText(m));
  }

  /** The leading run of decimal digits of s. */
  function LeadingDigits(s: string): (r: string)
    ensures |r| <= |s| && r == s[..|r|] && AllDigits(r)
    ensures |r| == |s| || !IsDigit(s[|r|])
  {
    if s != [] && IsDigit(s[0]) then [s[0]] + LeadingDigits(s[1..]) else []
  }

  lemma {:induction false} LeadingDigitsAll(s: string)
    requires AllDigits(s)
    ensures LeadingDigits(s) == s
  {
    if s != [] {
      LeadingDigitsAll(s[1..]);
    }
  }

  predicate IsHexDigit(c: char) {
    IsDigit(c) || 'a' <= c <= 'f' || 'A' <= c <= 'F'
  }

  predicate AllHexDigits(s: string) {
    forall i :: 0 <= i < |s| ==> IsHexDigit(s[i])
  }

  function HexDigitValue(c: char): (r: nat)
    requires IsHexDigit(c)
    ensures r < 16
  {
    if IsDigit(c) then c as int - '0' as int
    else if 'a' <= c <= 'f' then c as int - 'a' as int + 10
    else c as int - 'A' as int + 10
  }

  /** The value of a run of hexadecimal digits, most significant first. */
  function HexValue(s: string): nat
    requires AllHexDigits(s)
  {
    if s == [] then 0 else HexValue(s[..|s| - 1]) * 16 + HexDigitValue(s[|s| - 1])
  }

  /** The leading run of hexadecimal digits of s. */
  function LeadingHexDigits(s: string): (r: string)
    ensures |r| <= |s| && r == s[..|r|] && AllHexDigits(r)
    ensures |r| == |s| || !IsHexDigit(s[|r|])
  {
    if s != [] && IsHexDigit(s[0]) then [s[0]] + LeadingHexDigits(s[1..]) else []
  }

  /** The text after the sign starts with the 0x or 0X prefix that selects radix 16. */
  predicate HasHexPrefix(body: string) {
    |body| >= 2 && body[0] == '0' && (body[1] == 'x' || body[1] == 'X')
  }

  /**
   * The magnitude parseInt reads after the sign: with the 0x/0X prefix the
   * leading hexadecimal digits, otherwise the leading decimal digits; None
   * when there are none.
   */
  function ParseMagnitude(body: string): (r: Option<nat>)
    ensures !HasHexPrefix(body) && body != [] && IsDigit(body[0]) ==> r.Some?
  {
    if HasHexPrefix(body) then
      var h := LeadingHexDigits(body[2..]);
      if h == [] then None else Some(HexValue(h))
    else
      var d := LeadingDigits(body);
      if d == [] then None else Some(DigitsValue(d))
  }

  /**
   * Number.parseInt(v) without a radix, for integer results: String(v)
   * without leading whitespace, an optional sign, then the magnitude;
   * NaN when there is none.
   */
  function ParseInt(v: Value): (r: Value)
    ensures r.Num? || r.NaN?
  {
    ParseIntText(ToStr(v))
  }

  /** parseInt on the text String(v) gives. */
  function ParseIntText(s: string): (r: Value)
    ensures r.Num? || r.NaN?
  {
    var t := TrimStart(s);
    var signed := t != [] && (t[0] == '-' || t[0] == '+');
    var body := if signed then t[1..] else t;
    match ParseMagnitude(body)
    case None => NaN
    case Some(m) => if signed && t[0] == '-' then Num(-(m as int)) else Num(m)
  }

  /** Decimal digits without the hexadecimal prefix are read in radix 10. */
  lemma ParseMagnitudeDecimal(d: string)
    requires AllDigits(d) && d != []
    ensures ParseMagnitude(d) == Some(DigitsValue(d))
  {
    LeadingDigitsAll(d);
    assert !HasHexPrefix(d) by { if |d| >= 2 { assert IsDigit(d[1]); } }
  }

  lemma {:induction false} LeadingHexDigitsAll(s: string)
    requires AllHexDigits(s)
    ensures LeadingHexDigits(s) == s
  {
    if s != [] {
      LeadingHexDigitsAll(s[1..]);
    }
  }

  /**
   * parseInt on text that starts with an optional minus sign and then a
   * magnitude: the magnitude, negated after the sign.
   */
  lemma ParseIntOfSigned(negative: bool, body: string, m: nat)
    requires body != [] && !IsWhitespace(body[0]) && body[0] != '-' && body[0] != '+'
    requires ParseMagnitude(body) == Some(m)
    ensures ParseIntText((if negative then "-" else "") + body) == Num(if negative then -(m as int) else m)
  {
    var t := (if negative then "-" else "") + body;
    assert TrimStart(t) == t by {
      assert t[0] == if negative then '-' else body[0];
      assert !IsWhitespace(t[0]);
    }
    var signed := t[0] == '-' || t[0] == '+';
    assert signed == negative;
    assert (if signed then t[1..] else t) == body;
  }

  /** The 0x or 0X prefix selects radix 16: "0x" or "-0x" followed by hexadecimal digits reads as their value. */
  lemma ParseIntHex(negative: bool, x: char, h: string)
    requires x == 'x' || x == 'X'
    requires AllHexDigits(h) && h != []
    ensures ParseInt(Str((if negative then "-" else "") + ['0', x] + h)) == Num(if negative then -(HexValue(h) as int) else HexValue(h))
  {
    var sign := if negative then "-" else "";
    var body := ['0', x] + h;
    var text := sign + ['0', x] + h;
    assert text == sign + body;
    assert ParseMagnitude(body) == Some(HexValue(h)) by {
      assert HasHexPrefix(body) && body[2..] == h;
      LeadingHexDigitsAll(h);
    }
    ParseIntOfSigned(negative, body, HexValue(h));
    assert ParseInt(Str(text)) == ParseIntText(text);
  }

  /** A bare 0x prefix has no digits: parseInt gives NaN. */
  lemma ParseIntBarePrefix()
    ensures ParseInt(Str("0x")) == NaN
  {
    assert TrimStart("0x") == "0x" by { assert !IsWhitespace('0'); }
    assert "0x"[2..] == [] && LeadingHexDigits([]) == [];
  }

  /** parseInt reads an integer back from its own decimal text. */
  lemma ParseIntOfNum(n: int)
    ensures ParseInt(Num(n)) == Num(n)
  {
    var m: nat := if n < 0 then -n else n;
    var d := NatToString(m);
    assert ParseMagnitude(d) == Some(m) by {
      ParseMagnitudeDecimal(d);
      DigitsValueOfNatToString(m);
    }
    assert !IsWhitespace(d[0]) && d[0] != '-' && d[0] != '+' by { assert IsDigit(d[0]); }
    ParseIntOfSigned(n < 0, d, m);
    assert ToStr(Num(n)) == (if n < 0 then "-" else "") + d;
  }

  /** The text of a parsed interval as a template literal prints it. */
  function StepText(interval: Value): (r: string)
    ensures ' ' !in r
  {
    var n := ParseInt(interval);
    if n.Num? then
      IntToStringNoSpace(n.n);
      IntToString(n.n)
    else "NaN"
  }

  lemma IntToStringNoSpace(n: int)
    ensures ' ' !in IntToString(n)
  {
    var d := NatToString(if n < 0 then -n else n);
    assert AllDigits(d);
    assert IntToString(n) == if n < 0 then "-" + d else d;
  }

  /** The one-off expression "s m h D M *" for a moment. */
  function AtCron(m: Moment): string {
    Join([NatToString(m.second), NatToString(m.minute), NatToString(m.hour),
          NatToString(m.date), NatToString(m.month + 1), "*"], " ")
  }

  /** The six fields of a job that fires every second. */
  const EverySecond: string := "* * * * * *"

  /** The repeating expression for a step text and an intervalType; an unrecognised type repeats by the minute. */
  function IntervalCron(stepText: string, intervalType: string): string {
    var step := "*/" + stepText;
    if intervalType == "second" then Join([step, "*", "*", "*", "*", "*"], " ")
    else if intervalType == "minute" then Join([step, "*", "*", "*", "*"], " ")
    else if intervalType == "hour" then Join(["0", step, "*", "*", "*"], " ")
    else if intervalType == "day" then Join(["0", "0", step, "*", "*"], " ")
    else if intervalType == "millisecond" then EverySecond
    else Join([step, "*", "*", "*", "*"], " ")
  }

  /**
   * convertTaskToCronExpression: null (Null) when the timer type is unknown or
   * its setting is missing; otherwise the cron expression, its fields joined
   * by single spaces. A cron task yields its own expression value, whatever
   * it is, when that value is truthy.
   */
  function CronExpressionOf(f: TaskForm): (r: Value)
    ensures f.timerType != "timeout" && f.timerType != "interval" && f.timerType != "cron" ==> r == Null
    ensures f.timerType == "timeout" ==> (r == Null <==> f.timeout.None?)
    ensures f.timerType == "interval" ==> (r == Null <==> !Truthy(f.interval))
    ensures f.timerType == "cron" ==> r == (if Truthy(f.cronExpression) then f.cronExpression else Null)
    ensures f.timerType != "cron" ==> r == Null || r.Str?
  {
    if f.timerType == "timeout" then
      if f.timeout.None? then Null else Str(AtCron(f.timeout.value))
    else if f.timerType == "interval" then
      if !Truthy(f.interval) then Null else Str(IntervalCron(StepText(f.interval), f.intervalType))
    else if f.timerType == "cron" then
      if Truthy(f.cronExpression) then f.cronExpression else Null
    else Null
  }

  /** The one-off schedule a cron expression denotes: second, minute, hour, day of month and month (from 1). */
  datatype CronAt = CronAt(second: nat, minute: nat, hour: nat, date: nat, month: nat)

  predicate IsNumberField(f: string) {
    f != [] && AllDigits(f)
  }

  /** Reads a six-field "s m h D M *" expression back, independently of how it was built. */
  function ReadCronAt(expr: string): Option<CronAt> {
    var fs := Split(expr, " ");
    if |fs| == 6 && IsNumberField(fs[0]) && IsNumberField(fs[1]) && IsNumberField(fs[2])
       && IsNumberField(fs[3]) && IsNumberField(fs[4]) && fs[5] == "*"
    then Some(CronAt(DigitsValue(fs[0]), DigitsValue(fs[1]), DigitsValue(fs[2]), DigitsValue(fs[3]), DigitsValue(fs[4])))
    else None
  }

  /** A one-off task runs at exactly the second, minute, hour, day and month (from 1) of its timeout. */
  lemma TimeoutCronRoundTrip(f: TaskForm)
    requires f.timerType == "timeout" && f.timeout.Some?
    ensures CronExpressionOf(f).Str?
    ensures ReadCronAt(CronExpressionOf(f).s) ==
      Some(CronAt(f.timeout.value.second, f.timeout.value.minute, f.timeout.value.hour,
                  f.timeout.value.date, f.timeout.value.month + 1))
  {
    var m := f.timeout.value;
    assert CronExpressionOf(f) == Str(AtCron(m));
    ReadAtCron(m.second, m.minute, m.hour, m.date, m.month + 1);
  }

  lemma ReadAtCron(s: nat, mi: nat, h: nat, d: nat, mo: nat)
    ensures ReadCronAt(Join([NatToString(s), NatToString(mi), NatToString(h), NatToString(d), NatToString(mo), "*"], " "))
      == Some(CronAt(s, mi, h, d, mo))
  {
    var fs := [NatToString(s), NatToString(mi), NatToString(h), NatToString(d), NatToString(mo), "*"];
    forall k | 0 <= k < |fs| ensures ' ' !in fs[k] {
      if k < 5 {
        assert AllDigits(fs[k]);
      }
    }
    assert Split(Join(fs, " "), " ") == fs by {
      SplitJoin(fs, ' ');
    }
    DigitsValueOfNatToString(s);
    DigitsValueOfNatToString(mi);
    DigitsValueOfNatToString(h);
    DigitsValueOfNatToString(d);
    DigitsValueOfNatToString(mo);
  }

  datatype IntervalUnit = Second | Minute | Hour | Day

  /** The step text n of a "*" + "/n" field. */
  function StepOf(field: string): Option<string> {
    if |field| >= 2 && field[0] == '*' && field[1] == '/' then Some(field[2..]) else None
  }

  function WithUnit(step: Option<string>, unit: IntervalUnit): Option<(IntervalUnit, string)> {
    if step.Some? then Some((unit, step.value)) else None
  }

  /**
   * Reads a repeating cron expression back as a unit and a step: six fields
   * step a second, five fields step a minute, an hour (minute 0) or a day
   * (hour and minute 0). "* * * * * *" runs every second, a step of "1".
   */
  function ReadInterval(expr: string): Option<(IntervalUnit, string)> {
    var fs := Split(expr, " ");
    if |fs| == 6 && Wildcards(fs, 1) then
      if fs[0] == "*" then Some((Second, "1")) else WithUnit(StepOf(fs[0]), Second)
    else if |fs| == 5 && Wildcards(fs, 1) then WithUnit(StepOf(fs[0]), Minute)
    else if |fs| == 5 && fs[0] == "0" && Wildcards(fs, 2) then WithUnit(StepOf(fs[1]), Hour)
    else if |fs| == 5 && fs[0] == "0" && fs[1] == "0" && Wildcards(fs, 3) then WithUnit(StepOf(fs[2]), Day)
    else None
  }

  /** Every field from index `from` on is "*". */
  predicate Wildcards(fs: seq<string>, from: nat) {
    forall k :: from <= k < |fs| ==> fs[k] == "*"
  }

  /** The unit an intervalType selects: anything unrecognised repeats by the minute. */
  function UnitOf(intervalType: string): IntervalUnit {
    if intervalType == "second" then Second
    else if intervalType == "hour" then Hour
    else if intervalType == "day" then Day
    else Minute
  }

  lemma SplitFields(fs: seq<string>)
    requires |fs| >= 1
    requires forall k :: 0 <= k < |fs| ==> ' ' !in fs[k]
    ensures Split(Join(fs, " "), " ") == fs
  {
    SplitJoin(fs, ' ');
  }

  lemma StepField(st: string)
    ensures StepOf("*/" + st) == Some(st)
    ensures "*/" + st != "*" && "*/" + st != "0"
  {
    assert ("*/" + st)[2..] == st;
    assert |"*/" + st| >= 2;
  }

  lemma ReadSecondCron(st: string)
    requires ' ' !in st
    ensures ReadInterval(IntervalCron(st, "second")) == Some((Second, st))
  {
    var fs := ["*/" + st, "*", "*", "*", "*", "*"];
    var e := IntervalCron(st, "second");
    assert e == Join(fs, " ");
    assert Split(e, " ") == fs by {
      SplitFields(fs);
    }
    assert "*/" + st != "*" && "*/" + st != "0" && StepOf("*/" + st) == Some(st) by {
      StepField(st);
    }
    assert Wildcards(fs, 1);
  }

  lemma ReadMinuteCron(st: string, intervalType: string)
    requires ' ' !in st
    requires intervalType != "second" && intervalType != "hour" && intervalType != "day" && intervalType != "millisecond"
    ensures ReadInterval(IntervalCron(st, intervalType)) == Some((Minute, st))
  {
    var fs := ["*/" + st, "*", "*", "*", "*"];
    var e := IntervalCron(st, intervalType);
    assert e == Join(fs, " ");
    assert Split(e, " ") == fs by {
      SplitFields(fs);
    }
    assert "*/" + st != "*" && "*/" + st != "0" && StepOf("*/" + st) == Some(st) by {
      StepField(st);
    }
    assert Wildcards(fs, 1);
  }

  lemma ReadHourCron(st: string)
    requires ' ' !in st
    ensures ReadInterval(IntervalCron(st, "hour")) == Some((Hour, st))
  {
    var fs := ["0", "*/" + st, "*", "*", "*"];
    var e := IntervalCron(st, "hour");
    assert e == Join(fs, " ");
    assert Split(e, " ") == fs by {
      SplitFields(fs);
    }
    assert "*/" + st != "*" && "*/" + st != "0" && StepOf("*/" + st) == Some(st) by {
      StepField(st);
    }
    assert fs[1] != "*";
    assert Wildcards(fs, 2);
  }

  lemma ReadDayCron(st: string)
    requires ' ' !in st
    ensures ReadInterval(IntervalCron(st, "day")) == Some((Day, st))
  {
    var fs := ["0", "0", "*/" + st, "*", "*"];
    var e := IntervalCron(st, "day");
    assert e == Join(fs, " ");
    assert Split(e, " ") == fs by {
      SplitFields(fs);
    }
    assert "*/" + st != "*" && "*/" + st != "0" && StepOf("*/" + st) == Some(st) by {
      StepField(st);
    }
    assert fs[2] != "*";
    assert Wildcards(fs, 3);
  }

  /**
   * A repeating task runs every n units, where the unit is the one its
   * intervalType selects and n is the text of parseInt of its interval, which
   * reads back as that integer whenever parseInt found one.
   */
  lemma IntervalCronRoundTrip(f: TaskForm)
    requires f.timerType == "interval" && Truthy(f.interval)
    requires f.intervalType != "millisecond"
    ensures CronExpressionOf(f).Str?
    ensures ReadInterval(CronExpressionOf(f).s) == Some((UnitOf(f.intervalType), StepText(f.interval)))
    ensures ParseInt(f.interval).Num? ==> StrToNumber(StepText(f.interval)) == ParseInt(f.interval)
  {
    var st := StepText(f.interval);
    if ParseInt(f.interval).Num? {
      StrToNumberOfIntToString(ParseInt(f.interval).n);
    }
    if f.intervalType == "second" {
      ReadSecondCron(st);
    } else if f.intervalType == "hour" {
      ReadHourCron(st);
    } else if f.intervalType == "day" {
      ReadDayCron(st);
    } else {
      ReadMinuteCron(st, f.intervalType);
    }
  }

  /** The six wildcard fields of EverySecond. */
  lemma EverySecondFields()
    ensures EverySecond == Join(["*", "*", "*", "*", "*", "*"], " ")
  {
    var fs := ["*", "*", "*", "*", "*", "*"];
    assert Join(fs[5..], " ") == "*";
    assert Join(fs[4..], " ") == "* *";
    assert Join(fs[3..], " ") == "* * *";
    assert Join(fs[2..], " ") == "* * * *";
    assert Join(fs[1..], " ") == "* * * * *";
  }

  lemma ReadEverySecond(e: string)
    requires e == Join(["*", "*", "*", "*", "*", "*"], " ")
    ensures ReadInterval(e) == Some((Second, "1"))
  {
    var fs := ["*", "*", "*", "*", "*", "*"];
    assert Split(e, " ") == fs by {
      SplitFields(fs);
    }
    forall k | 1 <= k < 6 ensures fs[k] == "*" {
    }
  }

  lemma IntervalCronMillisecond(st: string)
    ensures IntervalCron(st, "millisecond") == EverySecond
  {
    assert |"millisecond"| == 11;
    assert "millisecond" != "second" && "millisecond" != "minute" && "millisecond" != "hour" && "millisecond" != "day";
  }

  /** A millisecond interval falls back to running every second. */
  lemma MillisecondCronEverySecond(f: TaskForm)
    requires f.timerType == "interval" && Truthy(f.interval) && f.intervalType == "millisecond"
    ensures CronExpressionOf(f).Str?
    ensures ReadInterval(CronExpressionOf(f).s) == Some((Second, "1"))
  {
    var st := StepText(f.interval);
    assert CronExpressionOf(f) == Str(IntervalCron(st, f.intervalType));
    IntervalCronMillisecond(st);
    EverySecondFields();
    ReadEverySecond(EverySecond);
  }

  /** The tasks with the given id marked finished with no cron job; stop assigns both fields of the task object in one step. */
  function FinishedIn(list: seq<Task>, id: string): (r: seq<Task>)
    ensures |r| == |list|
    ensures forall k :: 0 <= k < |list| ==> r[k].id == list[k].id && r[k].form == list[k].form
    ensures forall k :: 0 <= k < |list| && list[k].id == id ==> r[k].cronJob.None? && r[k].taskStatus == Finished
    ensures forall k :: 0 <= k < |list| && list[k].id != id ==> r[k] == list[k]
  {
    seq(|list|, k requires 0 <= k < |list| =>
      if list[k].id == id then list[k].(cronJob := None, taskStatus := Finished) else list[k])
  }

  /** The tasks with the given id marked in progress, holding their own id as the cron handle. */
  function StartedIn(list: seq<Task>, id: string): (r: seq<Task>)
    ensures |r| == |list|
    ensures forall k :: 0 <= k < |list| ==> r[k].id == list[k].id && r[k].form == list[k].form
    ensures forall k :: 0 <= k < |list| && list[k].id == id ==> r[k].cronJob == Some(id) && r[k].taskStatus == Progress
    ensures forall k :: 0 <= k < |list| && list[k].id != id ==> r[k] == list[k]
  {
    seq(|list|, k requires 0 <= k < |list| =>
      if list[k].id == id then list[k].(cronJob := Some(id), taskStatus := Progress) else list[k])
  }

  /** list.filter(item => item.id !== id) */
  function WithoutId(list: seq<Task>, id: string): (r: seq<Task>)
    ensures |r| <= |list|
    ensures forall t :: t in r <==> t in list && t.id != id
  {
    if list == [] then []
    else if list[0].id == id then WithoutId(list[1..], id)
    else [list[0]] + WithoutId(list[1..], id)
  }

  /** Removing an id no task carries leaves the list as it is, order included. */
  lemma {:induction false} WithoutIdAbsent(list: seq<Task>, id: string)
    requires forall k :: 0 <= k < |list| ==> list[k].id != id
    ensures WithoutId(list, id) == list
  {
    if list != [] {
      WithoutIdAbsent(list[1..], id);
    }
  }

  /** Removing keeps the order of the remaining tasks: removal commutes with appending. */
  lemma {:induction false} WithoutIdAppend(a: seq<Task>, b: seq<Task>, id: string)
    ensures WithoutId(a + b, id) == WithoutId(a, id) + WithoutId(b, id)
  {
    if a == [] {
      assert a + b == b;
    } else {
      assert (a + b)[1..] == a[1..] + b;
      WithoutIdAppend(a[1..], b, id);
    }
  }

  class TaskStore {
    var model: seq<TaskType>
    var list: seq<Task>
    /** The ids with a live croner instance: the keys of cronInstances. */
    var cronJobs: set<string>

    /**
     * Task type values are distinct, and a listed task that holds a cron
     * handle holds its own id and is in progress. A live cron job need not
     * belong to a listed task: start accepts any task object, such as the
     * copy restart emits.
     */
    ghost predicate Valid()
      reads this
    {
      DistinctValues(model)
      && (forall k :: 0 <= k < |list| && list[k].cronJob.Some? ==>
            list[k].cronJob.value == list[k].id && list[k].taskStatus == Progress)
    }

    constructor ()
      ensures Valid()
      ensures model == DefaultTaskTypes && list == [] && cronJobs == {}
    {
      model := DefaultTaskTypes;
      list := [];
      cronJobs := {};
      DefaultTaskTypesDistinct();
    }

    /** registerTaskType: a type is added only when no registered type has its value. */
    method RegisterTaskType(taskType: TaskType)
      requires Valid()
      modifies this
      ensures Valid() && list == old(list) && cronJobs == old(cronJobs)
      ensures HasTypeValue(old(model), taskType.value) ==> model == old(model)
      ensures !HasTypeValue(old(model), taskType.value) ==> model == old(model) + [taskType]
      ensures HasTypeValue(model, taskType.value)
    {
      var exists_ := HasTypeValue(model, taskType.value);
      if !exists_ {
        model := model + [taskType];
        assert model[|model| - 1].value == taskType.value;
      }
    }

    /**
     * add(form): appends one new task in status START with no cron job. The
     * id (nanoid()), the creation time (Date.now()) are parameters; the
     * task event the store emits is not modelled.
     */
    method Add(form: TaskForm, id: string, now: int) returns (task: Task)
      requires Valid()
      modifies this
      ensures Valid() && model == old(model) && cronJobs == old(cronJobs)
      ensures list == old(list) + [task]
      ensures task.form == form && task.id == id && task.createdAt == now
      ensures task.taskStatus == Start && task.cronJob.None?
      ensures task.formatTimeout == (if form.timeout.Some? then FormatMoment(form.timeout.value) else "")
    {
      task := Task(form, None, id,
        Start, if form.timeout.Some? then FormatMoment(form.timeout.value) else "", now);
      list := list + [task];
    }

    /**
     * Where the task object a call receives sits in the list: Some(i) when it
     * is the object the list holds at position i, None for any other object,
     * such as the copy restart emits. Object.assign changes that object only.
     */
    ghost predicate Holds(at: Option<nat>, task: Task)
      reads this
    {
      at.Some? ==> at.value < |list| && list[at.value] == task
    }

    /**
     * start({ task }): delay is what getTimeout computed from the clock and
     * accepted whether croner accepted the expression; the handler the job
     * runs is not modelled. A non-cron task already due is refused; otherwise
     * any running job for the task's id is stopped first, and the task is
     * marked in progress only when its expression converts and croner accepts
     * it. `updated` is the passed object after the Object.assign; the list
     * changes only when that object is one of its entries.
     */
    method StartTask(task: Task, at: Option<nat>, delay: int, accepted: bool) returns (started: bool, updated: Task)
      requires Valid() && Holds(at, task)
      modifies this
      ensures Valid() && model == old(model)
      ensures delay < 0 && task.form.timerType != "cron" ==>
        !started && list == old(list) && cronJobs == old(cronJobs)
      ensures started <==>
        !(delay < 0 && task.form.timerType != "cron") && Truthy(CronExpressionOf(task.form)) && accepted
      ensures started ==>
        && cronJobs == old(cronJobs) + {task.id}
        && updated == task.(cronJob := Some(task.id), taskStatus := Progress)
        && list == Assigned(old(list), at, updated)
      ensures !started ==> updated == task && list == old(list)
      ensures !started && !(delay < 0 && task.form.timerType != "cron") ==>
        cronJobs == old(cronJobs) - {task.id}
    {
      updated := task;
      if delay < 0 && task.form.timerType != "cron" {
        return false, updated;
      }
      cronJobs := cronJobs - {task.id};
      var expr := CronExpressionOf(task.form);
      if !Truthy(expr) || !accepted {
        return false, updated;
      }
      cronJobs := cronJobs + {task.id};
      updated := task.(cronJob := Some(task.id), taskStatus := Progress);
      list := Assigned(list, at, updated);
      started := true;
    }

    /**
     * stop(task): without a task it returns false; otherwise the cron job of
     * the task's id is stopped and the passed object marked FINISHED with no
     * job, and undefined is returned. The list changes only when that object
     * is one of its entries.
     */
    method Stop(task: Option<Task>, at: Option<nat>) returns (r: Value, updated: Option<Task>)
      requires Valid()
      requires at.Some? ==> task.Some? && Holds(at, task.value)
      modifies this
      ensures Valid() && model == old(model)
      ensures task.None? ==>
        r == Bool(false) && updated == None && list == old(list) && cronJobs == old(cronJobs)
      ensures task.Some? ==>
        && r == Undefined && cronJobs == old(cronJobs) - {task.value.id}
        && updated == Some(task.value.(cronJob := None, taskStatus := Finished))
        && list == Assigned(old(list), at, updated.value)
      ensures task.Some? ==> task.value.id !in cronJobs
    {
      if task.None? {
        return Bool(false), None;
      }
      var id := task.value.id;
      cronJobs := cronJobs - {id};
      var stopped := task.value.(cronJob := None, taskStatus := Finished);
      list := Assigned(list, at, stopped);
      r, updated := Undefined, Some(stopped);
    }

    /**
     * remove(task): stops the passed object, then drops every task with its
     * id, keeping the others in order. Whether the stopped object was listed
     * makes no difference to the list left.
     */
    method Remove(task: Task, at: Option<nat>) returns (updated: Task)
      requires Valid() && Holds(at, task)
      modifies this
      ensures Valid() && model == old(model)
      ensures updated == task.(cronJob := None, taskStatus := Finished)
      ensures list == WithoutId(old(list), task.id)
      ensures cronJobs == old(cronJobs) - {task.id}
      ensures forall t :: t in list <==> t in old(list) && t.id != task.id
    {
      var _, stopped := Stop(Some(task), at);
      updated := stopped.value;
      assert WithoutId(list, task.id) == WithoutId(old(list), task.id) by {
        if at.Some? {
          WithoutIdAssigned(old(list), at.value, updated);
        }
      }
      ghost var kept := list;
      list := WithoutId(list, task.id);
      forall k | 0 <= k < |list| && list[k].cronJob.Some?
        ensures list[k].cronJob.value == list[k].id && list[k].taskStatus == Progress
      {
        assert list[k] in kept;
        var j :| 0 <= j < |kept| && kept[j] == list[k];
      }
    }
  }

  /** Object.assign on the listed object at `at`, or on an object the list does not hold. */
  function Assigned(list: seq<Task>, at: Option<nat>, t: Task): (r: seq<Task>)
    requires at.Some? ==> at.value < |list|
    ensures |r| == |list|
    ensures at.Some? ==> r[at.value] == t
    ensures forall k :: 0 <= k < |list| && at != Some(k) ==> r[k] == list[k]
  {
    if at.Some? then list[at.value := t] else list
  }

  /** No two listed tasks share an id, as nanoid ids do not. */
  predicate DistinctIds(list: seq<Task>) {
    forall j, k :: 0 <= j < k < |list| ==> list[j].id != list[k].id
  }

  /** With distinct ids, starting the listed object is StartedIn of its id. */
  lemma AssignedStartedIn(list: seq<Task>, i: nat)
    requires i < |list| && DistinctIds(list)
    ensures Assigned(list, Some(i), list[i].(cronJob := Some(list[i].id), taskStatus := Progress))
      == StartedIn(list, list[i].id)
  {
  }

  /** With distinct ids, stopping the listed object is FinishedIn of its id. */
  lemma AssignedFinishedIn(list: seq<Task>, i: nat)
    requires i < |list| && DistinctIds(list)
    ensures Assigned(list, Some(i), list[i].(cronJob := None, taskStatus := Finished))
      == FinishedIn(list, list[i].id)
  {
  }

  /** Reassigning a task of the removed id does not change what a removal keeps. */
  lemma {:induction false} WithoutIdAssigned(list: seq<Task>, i: nat, t: Task)
    requires i < |list| && list[i].id == t.id
    ensures WithoutId(list[i := t], t.id) == WithoutId(list, t.id)
  {
    if i > 0 {
      WithoutIdAssigned(list[1..], i - 1, t);
      assert list[i := t][1..] == list[1..][i - 1 := t];
    } else {
      assert list[i := t][1..] == list[1..];
    }
  }

  /** Marking tasks finished does not change which tasks a removal keeps. */
  lemma {:induction false} FinishedWithout(list: seq<Task>, id: string)
    ensures WithoutId(FinishedIn(list, id), id) == WithoutId(list, id)
  {
    if list != [] {
      FinishedWithout(list[1..], id);
      assert FinishedIn(list, id)[1..] == FinishedIn(list[1..], id);
    }
  }
}
