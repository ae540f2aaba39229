/** The cron expression behind the schedule form, and its decomposition back into form fields. */
module CronForm {
  import opened Text

  datatype FormError = InvalidTime | InvalidScheduleType

  datatype Clock = Clock(hour: nat, minute: nat)

  datatype Parts = Parts(timeOfDay: string, dayOfWeek: string, dayOfMonth: string)

  predicate NoSpace(s: string) {
    forall i :: 0 <= i < |s| ==> !IsSpace(s[i])
  }

  /** The length of the longest prefix without white space. */
  function WordLength(s: string): (n: nat)
    ensures n <= |s| && NoSpace(s[..n])
    ensures n < |s| ==> IsSpace(s[n])
    ensures n == 0 <==> s == "" || IsSpace(s[0])
  {
    if s == "" || IsSpace(s[0]) then 0 else
      var n := WordLength(s[1..]);
      assert s[..n + 1] == [s[0]] + s[1..][..n];
      n + 1
  }

  /** strings.Fields: the maximal pieces without white space; none is empty. */
  function Fields(s: string): (r: seq<string>)
    ensures forall f :: f in r ==> f != "" && NoSpace(f)
    decreases |s|
  {
    if s == "" then []
    else if IsSpace(s[0]) then Fields(s[1..])
    else
      var n := WordLength(s);
      [s[..n]] + Fields(s[n..])
  }

  /** time.Parse("15:04", t): an hour of one or two digits, a colon, a minute of two. */
  function ParseHourMinute(t: string): (r: Option<Clock>)
    ensures r.Some? ==> r.value.hour < 24 && r.value.minute < 60
  {
    if |t| == 4 && IsDigit(t[0]) && t[1] == ':' && IsDigit(t[2]) && IsDigit(t[3]) then
      var minute := TwoValue(t[2..]);
      if minute < 60 then Some(Clock(DigitValue(t[0]), minute)) else None
    else if |t| == 5 && IsDigit(t[0]) && IsDigit(t[1]) && t[2] == ':' && IsDigit(t[3]) && IsDigit(t[4]) then
      var hour, minute := TwoValue(t[..2]), TwoValue(t[3..]);
      if hour < 24 && minute < 60 then Some(Clock(hour, minute)) else None
    else None
  }

  function ParseClock(t: string): Result<Clock, FormError> {
    match ParseHourMinute(Trim(t))
    case Some(c) => Ok(c)
    case None => Err(InvalidTime)
  }

  /** %d of a number below 100. */
  function Plain(n: nat): (s: string)
    requires n < 100
    ensures s != "" && AllDigits(s) && NoSpace(s)
  {
    if n < 10 then [Digit(n)] else Two(n)
  }

  function BuildCronExpr(scheduleType: string, timeOfDay: string, dayOfWeek: string, dayOfMonth: string):
      Result<string, FormError>
  {
    match ParseClock(timeOfDay)
    case Err(e) => Err(e)
    case Ok(c) =>
      var m, h := Plain(c.minute), Plain(c.hour);
      if scheduleType == "daily" then Ok(m + " " + (h + " " + ("*" + " " + ("*" + " " + "*"))))
      else if scheduleType == "weekly" then
        Ok(m + " " + (h + " " + ("*" + " " + ("*" + " " + (if dayOfWeek == "" then "1" else dayOfWeek)))))
      else if scheduleType == "monthly" then
        Ok(m + " " + (h + " " + ((if dayOfMonth == "" then "1" else dayOfMonth) + " " + ("*" + " " + "*"))))
      else Err(InvalidScheduleType)
  }

  /** The value of a digit string. */
  function Value(s: string): nat
    requires AllDigits(s)
  {
    if s == "" then 0 else 10 * Value(s[..|s| - 1]) + DigitValue(s[|s| - 1])
  }

  /** strconv.Atoi on a 64-bit platform. */
  function Atoi(s: string): Option<int> {
    var negative := s != "" && s[0] == '-';
    var digits := if s != "" && (s[0] == '-' || s[0] == '+') then s[1..] else s;
    if digits == "" || !AllDigits(digits) then None
    else
      var n: int := Value(digits);
      if negative then (if n <= 0x8000_0000_0000_0000 then Some(-n) else None)
      else (if n < 0x8000_0000_0000_0000 then Some(n) else None)
  }

  function Decimal(n: nat): string {
    if n < 10 then [Digit(n)] else Decimal(n / 10) + [Digit(n % 10)]
  }

  /** %02d: at least two characters, the sign counted. */
  function PadTwo(n: int): string {
    if n < 0 then "-" + Decimal(-n) else if n < 10 then "0" + Decimal(n) else Decimal(n)
  }

  function Pad2(v: string): string {
    match Atoi(v)
    case None => v
    case Some(n) => PadTwo(n)
  }

  function CronParts(expr: string): Parts {
    var parts := Fields(expr);
    if |parts| != 5 then Parts("", "", "") else Parts(Pad2(parts[1]) + ":" + Pad2(parts[0]), parts[4], parts[2])
  }

  // ---------- the round trip ----------

  /** The day-of-week field the expression carries. */
  function WeekField(scheduleType: string, dayOfWeek: string): string {
    if scheduleType != "weekly" then "*" else if dayOfWeek == "" then "1" else dayOfWeek
  }

  function MonthField(scheduleType: string, dayOfMonth: string): string {
    if scheduleType != "monthly" then "*" else if dayOfMonth == "" then "1" else dayOfMonth
  }

  function Expr(m: string, h: string, dom: string, dow: string): string {
    m + " " + (h + " " + (dom + " " + ("*" + " " + dow)))
  }

  function PaddedTime(c: Clock): string
    requires c.hour < 24 && c.minute < 60
  {
    Two(c.hour) + ":" + Two(c.minute)
  }

  lemma {:induction false} FieldsStep(w: string, rest: string)
    requires w != "" && NoSpace(w)
    ensures Fields(w + " " + rest) == [w] + Fields(rest)
  {
    var s := w + " " + rest;
    var n := WordLength(s);
    assert forall i :: 0 <= i < |w| ==> s[i] == w[i];
    assert forall k :: 0 <= k < n ==> s[k] == s[..n][k];
    assert s[|w|] == ' ' && IsSpace(' ');
    assert n == |w|;
    assert s[..n] == w && s[n..][0] == ' ' && s[n..][1..] == rest;
  }

  lemma {:induction false} FieldsOfWord(w: string)
    requires w != "" && NoSpace(w)
    ensures Fields(w) == [w]
  {
    var n := WordLength(w);
    assert n == |w|;
    assert w[..n] == w && w[n..] == "";
  }

  /** A five-field expression of plain words has exactly those fields. */
  lemma {:induction false} FieldsOfExpr(m: string, h: string, dom: string, dow: string)
    requires m != "" && h != "" && dom != "" && dow != ""
    requires NoSpace(m) && NoSpace(h) && NoSpace(dom) && NoSpace(dow)
    ensures Fields(Expr(m, h, dom, dow)) == [m, h, dom, "*", dow]
  {
    hide Fields, NoSpace;
    Star();
    FieldsOfWord(dow);
    FieldsStep("*", dow);
    FieldsStep(dom, "*" + " " + dow);
    FieldsStep(h, dom + " " + ("*" + " " + dow));
    FieldsStep(m, h + " " + (dom + " " + ("*" + " " + dow)));
  }

  lemma {:induction false} Star()
    ensures NoSpace("*") && NoSpace("1")
  {
  }

  /** Padding a plain number below 100 gives its two digits. */
  lemma {:induction false} PadOfPlain(n: nat)
    requires n < 100
    ensures Pad2(Plain(n)) == Two(n)
  {
    var s := Plain(n);
    ValueOfPlain(n);
    assert !(s[0] == '-' || s[0] == '+') by { assert IsDigit(s[0]); }
    assert Atoi(s) == Some(n);
    if n >= 10 {
      assert Decimal(n) == Decimal(n / 10) + [Digit(n % 10)] == [Digit(n / 10)] + [Digit(n % 10)];
    }
  }

  lemma {:induction false} ValueOfPlain(n: nat)
    requires n < 100
    ensures Value(Plain(n)) == n
  {
    var s := Plain(n);
    if n < 10 {
      assert s[..0] == "";
    } else {
      assert s[..1] == [Digit(n / 10)] && [Digit(n / 10)][..0] == "";
      assert Value([Digit(n / 10)]) == n / 10;
    }
  }

  lemma {:induction false} ParsePadded(c: Clock)
    requires c.hour < 24 && c.minute < 60
    ensures ParseClock(PaddedTime(c)) == Ok(c)
  {
    var t := PaddedTime(c);
    assert t[..2] == Two(c.hour) && t[3..] == Two(c.minute) && t[2] == ':';
    assert !IsSpace(t[0]) && !IsSpace(t[4]);
    assert Trim(t) == t;
  }

  /** The expression is the five fields in order. */
  lemma {:induction false} BuiltExpr(scheduleType: string, timeOfDay: string, dayOfWeek: string, dayOfMonth: string,
                                     c: Clock)
    requires scheduleType in {"daily", "weekly", "monthly"} && ParseClock(timeOfDay) == Ok(c)
    requires c.hour < 24 && c.minute < 60
    ensures BuildCronExpr(scheduleType, timeOfDay, dayOfWeek, dayOfMonth)
         == Ok(Expr(Plain(c.minute), Plain(c.hour), MonthField(scheduleType, dayOfMonth),
                    WeekField(scheduleType, dayOfWeek)))
  {
    hide ParseClock, Plain;
  }

  /**
   * Decomposing a built expression gives back the zero-padded time and the effective day fields
   * exactly when those day fields hold no white space.
   */
  lemma {:induction false} CronRoundTripIff(scheduleType: string, timeOfDay: string, dayOfWeek: string,
                                            dayOfMonth: string, c: Clock)
    requires scheduleType in {"daily", "weekly", "monthly"} && ParseClock(timeOfDay) == Ok(c)
    requires c.hour < 24 && c.minute < 60
    ensures CronParts(BuildCronExpr(scheduleType, timeOfDay, dayOfWeek, dayOfMonth).value)
              == Parts(PaddedTime(c), WeekField(scheduleType, dayOfWeek), MonthField(scheduleType, dayOfMonth))
       <==> NoSpace(WeekField(scheduleType, dayOfWeek)) && NoSpace(MonthField(scheduleType, dayOfMonth))
  {
    hide BuildCronExpr, Fields, Pad2, ParseClock, Plain, NoSpace;
    BuiltExpr(scheduleType, timeOfDay, dayOfWeek, dayOfMonth, c);
    var dow, dom := WeekField(scheduleType, dayOfWeek), MonthField(scheduleType, dayOfMonth);
    var m, h := Plain(c.minute), Plain(c.hour);
    var fields := Fields(Expr(m, h, dom, dow));
    if NoSpace(dow) && NoSpace(dom) {
      FieldsOfExpr(m, h, dom, dow);
      PadOfPlain(c.hour);
      PadOfPlain(c.minute);
    } else if |fields| == 5 {
      assert fields[4] in fields && fields[2] in fields;
    }
  }

  /** Rebuilding from the decomposed fields with the same type yields the identical expression. */
  lemma {:induction false} CronRebuildsItself(scheduleType: string, timeOfDay: string, dayOfWeek: string,
                                              dayOfMonth: string, c: Clock)
    requires scheduleType in {"daily", "weekly", "monthly"} && ParseClock(timeOfDay) == Ok(c)
    requires c.hour < 24 && c.minute < 60
    requires NoSpace(WeekField(scheduleType, dayOfWeek)) && NoSpace(MonthField(scheduleType, dayOfMonth))
    ensures var built := BuildCronExpr(scheduleType, timeOfDay, dayOfWeek, dayOfMonth);
            var p := CronParts(built.value);
            BuildCronExpr(scheduleType, p.timeOfDay, p.dayOfWeek, p.dayOfMonth) == built
  {
    hide BuildCronExpr, CronParts, ParseClock, Plain, NoSpace, PaddedTime;
    CronRoundTripIff(scheduleType, timeOfDay, dayOfWeek, dayOfMonth, c);
    BuiltExpr(scheduleType, timeOfDay, dayOfWeek, dayOfMonth, c);
    ParsePadded(c);
    BuiltExpr(scheduleType, PaddedTime(c), WeekField(scheduleType, dayOfWeek), MonthField(scheduleType, dayOfMonth), c);
  }

  /** Minute first, then hour, day of month, month and day of week: an expression of each type. */
  lemma {:induction false} CronExamples()
    ensures BuildCronExpr("daily", "9:05", "3", "7") == Ok("5 9 * * *")
    ensures BuildCronExpr("weekly", "14:30", "3", "7") == Ok("30 14 * * 3")
    ensures BuildCronExpr("monthly", "14:30", "3", "7") == Ok("30 14 7 * *")
    ensures BuildCronExpr("weekly", "14:30", "", "7") == Ok("30 14 * * 1")
    ensures BuildCronExpr("monthly", "14:30", "3", "") == Ok("30 14 1 * *")
  {
    hide BuildCronExpr, ParseClock, Expr, Plain;
    ExampleClocks();
    ExampleExpressions();
    BuiltExpr("daily", "9:05", "3", "7", Clock(9, 5));
    BuiltExpr("weekly", "14:30", "3", "7", Clock(14, 30));
    BuiltExpr("monthly", "14:30", "3", "7", Clock(14, 30));
    BuiltExpr("weekly", "14:30", "", "7", Clock(14, 30));
    BuiltExpr("monthly", "14:30", "3", "", Clock(14, 30));
  }

  lemma {:induction false} ExampleClocks()
    ensures ParseClock("9:05") == Ok(Clock(9, 5)) && ParseClock("14:30") == Ok(Clock(14, 30))
    ensures Plain(5) == "5" && Plain(9) == "9" && Plain(14) == "14" && Plain(30) == "30"
  {
    hide ParseClock;
    assert [Digit(9)] + ":" + Two(5) == "9:05";
    assert Two(14) + ":" + Two(30) == "14:30";
    ClockReads("9:05", Clock(9, 5));
    ClockReads("14:30", Clock(14, 30));
  }

  lemma {:induction false} ExampleExpressions()
    ensures Expr("5", "9", "*", "*") == "5 9 * * *"
    ensures Expr("30", "14", "*", "3") == "30 14 * * 3" && Expr("30", "14", "7", "*") == "30 14 7 * *"
    ensures Expr("30", "14", "*", "1") == "30 14 * * 1" && Expr("30", "14", "1", "*") == "30 14 1 * *"
  {
  }

  lemma {:induction false} TrimmedClock(t: string)
    requires t != "" && IsDigit(t[0]) && IsDigit(t[|t| - 1])
    ensures Trim(t) == t
  {
  }

  /** The clock is read as it stands: digits before the colon are the hour, the two after it the minute. */
  lemma {:induction false} ClockReads(t: string, c: Clock)
    requires c.hour < 24 && c.minute < 60
    requires t == Two(c.hour) + ":" + Two(c.minute) || (c.hour < 10 && t == [Digit(c.hour)] + ":" + Two(c.minute))
    ensures ParseClock(t) == Ok(c)
  {
    hide Trim;
    TrimmedClock(t);
    if t == Two(c.hour) + ":" + Two(c.minute) {
      assert t[..2] == Two(c.hour) && t[3..] == Two(c.minute);
    } else {
      assert t[2..] == Two(c.minute);
    }
  }

  /** An expression is refused for its time first and then for its type, and for nothing else. */
  lemma {:induction false} BuildFailsIff(scheduleType: string, timeOfDay: string, dayOfWeek: string, dayOfMonth: string)
    ensures var r := BuildCronExpr(scheduleType, timeOfDay, dayOfWeek, dayOfMonth);
            && (r == Err(InvalidTime) <==> ParseClock(timeOfDay).Err?)
            && (r == Err(InvalidScheduleType) <==>
                  ParseClock(timeOfDay).Ok? && scheduleType !in {"daily", "weekly", "monthly"})
  {
    hide ParseHourMinute, Trim;
  }

  /** Printing a number in decimal: digits without a leading zero that read back as the number. */
  lemma {:induction false} DecimalReadsBack(n: nat)
    ensures Decimal(n) != "" && AllDigits(Decimal(n)) && Value(Decimal(n)) == n
    ensures n > 0 ==> Decimal(n)[0] != '0'
  {
    var s := Decimal(n);
    if n < 10 {
      assert s[..0] == "";
    } else {
      DecimalReadsBack(n / 10);
      assert s[..|s| - 1] == Decimal(n / 10);
    }
  }

  /** Padding keeps what is no number, and any other number's value; it only adds a zero below ten. */
  lemma {:induction false} PadKeepsValue(v: string)
    ensures Atoi(v) == None ==> Pad2(v) == v
    ensures Atoi(v).Some? && Atoi(v).value >= 0 ==>
              AllDigits(Pad2(v)) && Value(Pad2(v)) == Atoi(v).value && |Pad2(v)| >= 2
    ensures Atoi(v).Some? && Atoi(v).value < 0 ==> Pad2(v) == "-" + Decimal(-Atoi(v).value)
  {
    hide Atoi;
    if Atoi(v).Some? && Atoi(v).value >= 0 {
      var n := Atoi(v).value;
      DecimalReadsBack(n);
      if n < 10 {
        assert Pad2(v)[..1] == "0" && "0"[..0] == "";
      }
    }
  }
}
