/**
  Durations in words and digits: `millisToString` of `Tools.java`, with Java's 64-bit and 32-bit
  arithmetic, and the readers that show what of a duration its text still tells.
 */
module Clock {
  import opened Basics

  const TWO31: int := 0x8000_0000
  const TWO32: int := 0x1_0000_0000
  const TWO63: int := 0x8000_0000_0000_0000

  type Long = x: int | -TWO63 <= x < TWO63

  // ---------------------------------------------------------------------------
  // Java arithmetic
  // ---------------------------------------------------------------------------

  function Abs(a: int): nat { if a < 0 then -a else a }

  /** Division that rounds toward zero. */
  function Quotient(a: int, b: int): int
    requires b > 0
  {
    if a >= 0 then a / b else -(-a / b)
  }

  function Remainder(a: int, b: int): int
    requires b > 0
  {
    a - b * Quotient(a, b)
  }

  /** Negation; the smallest long is its own negative. */
  function Negated(a: Long): Long {
    if a == -TWO63 then a else -a
  }

  /** The `(int)` cast. */
  function ToInt(a: int): (r: int)
    ensures -TWO31 <= r < TWO31
    ensures -TWO31 <= a < TWO31 ==> r == a
  {
    var low := a % TWO32;
    if low < TWO31 then low else low - TWO32
  }

  // ---------------------------------------------------------------------------
  // Decimal numbers
  // ---------------------------------------------------------------------------

  function Digit(d: nat): char
    requires d < 10
  {
    '0' + d as char
  }

  predicate IsDigit(c: char) { '0' <= c <= '9' }

  function Digits(n: nat): string {
    if n < 10 then [Digit(n)] else Digits(n / 10) + [Digit(n % 10)]
  }

  /** `StringBuilder.append(int)`. */
  function Decimal(n: int): string {
    if n < 0 then "-" + Digits(-n) else Digits(n)
  }

  /** `DecimalFormat` with the pattern "00". */
  function TwoDigits(n: int): string {
    (if n < 0 then "-" else "") + (if Abs(n) < 10 then "0" else "") + Digits(Abs(n))
  }

  // ---------------------------------------------------------------------------
  // Tools.java
  // ---------------------------------------------------------------------------

  /** Hours, minutes and seconds of a duration without its sign. */
  datatype Time = Time(hours: int, min: int, sec: int)

  function Split(millis: int): Time {
    var s := Quotient(millis, 1000);
    Time(ToInt(Quotient(Quotient(s, 60), 60)), Remainder(Quotient(s, 60), 60), Remainder(s, 60))
  }

  function ClockBody(t: Time): string {
    if t.hours > 0
    then Decimal(t.hours) + ":" + TwoDigits(t.min) + ":" + TwoDigits(t.sec)
    else Decimal(t.min) + ":" + TwoDigits(t.sec)
  }

  function Unit(n: int, name: string): string {
    if n > 0 then Decimal(n) + name else ""
  }

  function TextBody(t: Time, seconds: bool): string {
    Unit(t.hours, "h") + Unit(t.min, "min") + (if seconds then Unit(t.sec, "s") else "")
  }

  function Signed(negative: bool, t: Time, text: bool, seconds: bool): string {
    var sign := if negative then "-" else "";
    if !text then sign + ClockBody(t)
    else sign + TextBody(t, seconds || (!negative && TextBody(t, false) == ""))
  }

  function Shown(millis: Long, text: bool, seconds: bool): string {
    Signed(millis < 0, Split(if millis < 0 then Negated(millis) else millis), text, seconds)
  }

  lemma Joined(a: string, b: string, c: string)
    ensures a + b + c == a + (b + c)
  {
  }

  lemma WithSeconds(negative: bool, t: Time, seconds: bool)
    ensures var minutes := (if negative then "-" else "") + TextBody(t, false);
            Signed(negative, t, true, seconds)
            == minutes + if seconds || |minutes| == 0 then Unit(t.sec, "s") else ""
  {
    var sign := if negative then "-" else "";
    assert TextBody(t, true) == TextBody(t, false) + Unit(t.sec, "s");
    assert |sign + TextBody(t, false)| == 0 <==> !negative && TextBody(t, false) == "";
    Joined(sign, TextBody(t, false), Unit(t.sec, "s"));
  }

  class Tools {
    var sb: string

    constructor ()
    {
      sb := "";
    }

    method AppendText(hours: int, min: int, sec: int, seconds: bool, ghost negative: bool)
      requires sb == if negative then "-" else ""
      modifies this
      ensures sb == Signed(negative, Time(hours, min, sec), true, seconds)
    {
      ghost var sign, t := sb, Time(hours, min, sec);
      if hours > 0 {
        sb := sb + Decimal(hours) + "h";
      }
      Joined(sign, Decimal(hours), "h");
      assert sb == sign + Unit(hours, "h");
      ghost var before := sb;
      if min > 0 {
        sb := sb + Decimal(min) + "min";
      }
      Joined(before, Decimal(min), "min");
      Joined(sign, Unit(hours, "h"), Unit(min, "min"));
      assert sb == sign + TextBody(t, false);
      before := sb;
      if (seconds || |sb| == 0) && sec > 0 {
        sb := sb + Decimal(sec) + "s";
      }
      Joined(before, Decimal(sec), "s");
      WithSeconds(negative, t, seconds);
    }

    method AppendClock(hours: int, min: int, sec: int)
      modifies this
      ensures sb == old(sb) + ClockBody(Time(hours, min, sec))
    {
      if hours > 0 {
        sb := sb + Decimal(hours) + ":" + TwoDigits(min) + ":" + TwoDigits(sec);
      } else {
        sb := sb + Decimal(min) + ":" + TwoDigits(sec);
      }
    }

    method MillisToString(duration: Long, text: bool, seconds: bool) returns (r: string)
      modifies this
      ensures r == Shown(duration, text, seconds) && sb == r
    {
      sb := "";
      var millis: int := duration;
      if millis < 0 {
        millis := Negated(millis);
        sb := sb + "-";
      }
      ghost var t := Split(millis);

      millis := Quotient(millis, 1000);
      var sec := ToInt(Remainder(millis, 60));
      millis := Quotient(millis, 60);
      var min := ToInt(Remainder(millis, 60));
      millis := Quotient(millis, 60);
      var hours := ToInt(millis);
      assert t == Time(hours, min, sec);

      if text {
        AppendText(hours, min, sec, seconds, duration < 0);
      } else {
        AppendClock(hours, min, sec);
      }
      r := sb;
    }
  }

  // ---------------------------------------------------------------------------
  // Readers
  // ---------------------------------------------------------------------------

  /** The number that starts with the digits read so far, and what follows it. */
  function ReadNumber(s: string, sofar: nat): (nat, string) {
    if s != "" && IsDigit(s[0]) then ReadNumber(s[1..], 10 * sofar + (s[0] - '0') as nat) else (sofar, s)
  }

  /** A number followed by a colon or by the end. */
  function ReadPart(s: string): Option<(nat, string)> {
    if s == "" || !IsDigit(s[0]) then None else Some(ReadNumber(s, 0))
  }

  /** Exactly two digits, and what follows them. */
  function ReadTwo(s: string): Option<(nat, string)> {
    if |s| < 2 || !IsDigit(s[0]) || !IsDigit(s[1]) then None
    else Some((10 * (s[0] - '0') as nat + (s[1] - '0') as nat, s[2..]))
  }

  /** m:ss or h:mm:ss, in seconds. */
  function ReadClockBody(s: string): Option<nat> {
    var a := ReadPart(s);
    if a.None? || a.value.1 == "" || a.value.1[0] != ':' then None else
    var b := ReadTwo(a.value.1[1..]);
    if b.None? then None else
    if b.value.1 == "" then Some(60 * a.value.0 + b.value.0) else
    if b.value.1[0] != ':' then None else
    var c := ReadTwo(b.value.1[1..]);
    if c.None? || c.value.1 != "" then None else
    Some(3600 * a.value.0 + 60 * b.value.0 + c.value.0)
  }

  predicate StartsWith(s: string, prefix: string) {
    |prefix| <= |s| && s[..|prefix|] == prefix
  }

  /** A number of units, zero when the unit is not there. */
  function ReadUnit(s: string, name: string): (nat, string) {
    if s == "" || !IsDigit(s[0]) then (0, s) else
    var (n, rest) := ReadNumber(s, 0);
    if StartsWith(rest, name) then (n, rest[|name|..]) else (0, s)
  }

  function ReadTextBody(s: string): Option<nat> {
    var (h, s1) := ReadUnit(s, "h");
    var (m, s2) := ReadUnit(s1, "min");
    var (n, s3) := ReadUnit(s2, "s");
    if s3 == "" then Some(3600 * h + 60 * m + n) else None
  }

  function Toward(negative: bool, n: nat): int {
    if negative then 0 - n else n
  }

  /** The seconds that a text stands for. */
  function Read(s: string, text: bool): Option<int> {
    var negative := s != "" && s[0] == '-';
    var body := if negative then s[1..] else s;
    match if text then ReadTextBody(body) else ReadClockBody(body)
    case None => None
    case Some(n) => Some(Toward(negative, n))
  }

  // ---------------------------------------------------------------------------
  // Reading what was printed
  // ---------------------------------------------------------------------------

  lemma {:induction false} ReadDigits(n: nat, rest: string)
    ensures ReadNumber(Digits(n) + rest, 0) == ReadNumber(rest, n)
    ensures Digits(n) != "" && IsDigit(Digits(n)[0])
  {
    if n < 10 {
      assert (Digits(n) + rest)[1..] == rest;
    } else {
      var last := [Digit(n % 10)];
      ReadDigits(n / 10, last + rest);
      assert Digits(n) + rest == Digits(n / 10) + (last + rest);
      assert (last + rest)[1..] == rest;
    }
  }

  /** No digit goes on from the number before. */
  predicate Ends(rest: string) {
    rest == "" || !IsDigit(rest[0])
  }

  /** No number but zero starts with a zero. */
  lemma {:induction false} NoLeadingZero(n: nat)
    ensures n > 0 ==> Digits(n)[0] != '0'
    ensures Digits(0) == "0"
  {
    if n < 10 {
    } else {
      NoLeadingZero(n / 10);
      ReadDigits(n / 10, "");
    }
  }

  lemma ReadDecimal(n: nat, rest: string)
    requires Ends(rest)
    ensures ReadPart(Decimal(n) + rest) == Some((n, rest))
  {
    ReadDigits(n, rest);
  }

  lemma ReadPadded(n: nat, rest: string)
    requires n < 100
    ensures ReadTwo(TwoDigits(n) + rest) == Some((n, rest))
  {
    var s := TwoDigits(n) + rest;
    if n < 10 {
      assert TwoDigits(n) == ['0', Digit(n)];
    } else {
      assert Digits(n) == Digits(n / 10) + [Digit(n % 10)] == [Digit(n / 10), Digit(n % 10)];
      assert TwoDigits(n) == Digits(n);
    }
    assert s[2..] == rest;
  }

  lemma ReadShort(m: nat, s: nat)
    requires s < 100
    ensures ReadClockBody(Decimal(m) + ":" + TwoDigits(s)) == Some(60 * m + s)
  {
    var rest := ":" + TwoDigits(s);
    assert Decimal(m) + ":" + TwoDigits(s) == Decimal(m) + rest;
    ReadDecimal(m, rest);
    assert rest[1..] == TwoDigits(s) + "";
    ReadPadded(s, "");
  }

  lemma ReadLong(h: nat, m: nat, s: nat)
    requires m < 100 && s < 100
    ensures ReadClockBody(Decimal(h) + ":" + TwoDigits(m) + ":" + TwoDigits(s)) == Some(3600 * h + 60 * m + s)
  {
    var r2 := ":" + TwoDigits(s);
    var r1 := ":" + (TwoDigits(m) + r2);
    assert Decimal(h) + ":" + TwoDigits(m) + ":" + TwoDigits(s) == Decimal(h) + r1;
    ReadDecimal(h, r1);
    assert r1[1..] == TwoDigits(m) + r2;
    ReadPadded(m, r2);
    assert r2[1..] == TwoDigits(s) + "";
    ReadPadded(s, "");
  }

  /** Hours that are not positive are not printed. */
  function Printed(t: Time): int {
    (if t.hours > 0 then 3600 * t.hours else 0) + 60 * t.min + t.sec
  }

  lemma ReadClock(t: Time)
    requires 0 <= t.min < 60 && 0 <= t.sec < 60
    ensures ReadClockBody(ClockBody(t)) == Some(Printed(t))
    ensures ClockBody(t) != "" && ClockBody(t)[0] != '-'
  {
    if t.hours > 0 {
      ReadLong(t.hours, t.min, t.sec);
      ReadDigits(t.hours, "");
    } else {
      ReadShort(t.min, t.sec);
      ReadDigits(t.min, "");
    }
  }

  lemma ReadOneUnit(n: nat, name: string, rest: string)
    requires name != "" && !IsDigit(name[0])
    ensures n > 0 ==> ReadUnit(Unit(n, name) + rest, name) == (n, rest)
  {
    if n > 0 {
      assert Unit(n, name) + rest == Decimal(n) + (name + rest);
      ReadDecimal(n, name + rest);
      assert (name + rest)[..|name|] == name && (name + rest)[|name|..] == rest;
    }
  }

  lemma OtherStart(s: string, prefix: string)
    requires s != "" && prefix != "" && s[0] != prefix[0]
    ensures !StartsWith(s, prefix)
  {
    if |prefix| <= |s| {
      assert s[..|prefix|][0] == s[0];
    }
  }

  /** A reader passes over the units that start with another letter. */
  lemma SkipUnit(n: nat, name: string, rest: string, other: string)
    requires name != "" && other != "" && name[0] != other[0] && !IsDigit(name[0])
    requires n == 0 ==> ReadUnit(rest, other) == (0, rest)
    ensures ReadUnit(Unit(n, name) + rest, other) == (0, Unit(n, name) + rest)
  {
    if n > 0 {
      assert Unit(n, name) + rest == Decimal(n) + (name + rest);
      ReadDecimal(n, name + rest);
      OtherStart(name + rest, other);
    } else {
      assert Unit(n, name) + rest == rest;
    }
  }

  lemma ReadAnyUnit(n: nat, name: string, rest: string)
    requires name != "" && !IsDigit(name[0]) && ReadUnit(rest, name) == (0, rest)
    ensures ReadUnit(Unit(n, name) + rest, name) == (n, rest)
  {
    if n > 0 {
      ReadOneUnit(n, name, rest);
    } else {
      assert Unit(n, name) + rest == rest;
    }
  }

  lemma ReadText(h: nat, m: nat, s: nat)
    ensures ReadTextBody(Unit(h, "h") + Unit(m, "min") + Unit(s, "s")) == Some(3600 * h + 60 * m + s)
  {
    var r3 := Unit(s, "s") + "";
    var r2 := Unit(m, "min") + r3;
    var r1 := Unit(h, "h") + r2;
    Joined(Unit(h, "h"), Unit(m, "min"), r3);
    assert r1 == Unit(h, "h") + Unit(m, "min") + Unit(s, "s");
    SkipUnit(s, "s", "", "h");
    SkipUnit(s, "s", "", "min");
    SkipUnit(m, "min", r3, "h");
    ReadAnyUnit(h, "h", r2);
    ReadAnyUnit(m, "min", r3);
    ReadAnyUnit(s, "s", "");
  }

  lemma UnitStart(n: int, name: string)
    ensures Unit(n, name) != "" ==> IsDigit(Unit(n, name)[0])
    ensures n > 0 ==> Unit(n, name) != ""
  {
    if n > 0 {
      ReadDigits(n, "");
    }
  }

  lemma ReadTextTime(t: Time, seconds: bool)
    requires t.min >= 0 && t.sec >= 0
    ensures ReadTextBody(TextBody(t, seconds)) == Some(Printed(if seconds then t else t.(sec := 0)))
    ensures TextBody(t, seconds) != "" ==> TextBody(t, seconds)[0] != '-'
    ensures TextBody(t, false) == "" <==> t.hours <= 0 && t.min == 0
  {
    var h, s := if t.hours > 0 then t.hours else 0, if seconds then t.sec else 0;
    ReadText(h, t.min, s);
    assert Unit(h, "h") == Unit(t.hours, "h");
    UnitStart(t.hours, "h");
    UnitStart(t.min, "min");
    UnitStart(t.sec, "s");
  }

  // ---------------------------------------------------------------------------
  // Round trips
  // ---------------------------------------------------------------------------

  lemma SplitOf(millis: nat)
    ensures var t := Split(millis);
            && 0 <= t.min < 60 && 0 <= t.sec < 60
            && t.hours == ToInt(millis / 3600000)
            && 3600 * (millis / 3600000) + 60 * t.min + t.sec == millis / 1000
            && 60 * (millis / 3600000) + t.min == millis / 60000
  {
    var s := millis / 1000;
    var m := s / 60;
    assert m == millis / 60000 && m / 60 == millis / 3600000;
  }

  /** The number of hours fits the 32-bit integer that is printed. */
  predicate HoursFit(millis: Long) {
    Abs(millis) / 3600000 < TWO31
  }

  /** For the smallest long even the minutes and seconds come out negative. */
  lemma SmallestLong()
    ensures Split(Negated(-TWO63)) == Time(2047687697, -12, -55)
  {
  }

  lemma SmallestIsLost(seconds: bool)
    ensures Read(Shown(-TWO63, false, seconds), false) == None
    ensures Read(Shown(-TWO63, true, seconds), true) == Some(-2047687697 * 3600)
  {
    SmallestLong();
    var t := Time(2047687697, -12, -55);
    var rest := ":" + TwoDigits(-12) + ":" + TwoDigits(-55);
    assert ClockBody(t) == Decimal(t.hours) + rest;
    ReadDecimal(t.hours, rest);
    assert rest[1..][0] == '-';
    ReadText(t.hours, 0, 0);
    assert TextBody(t, seconds) == Unit(t.hours, "h") + Unit(0, "min") + Unit(0, "s");
    UnitStart(t.hours, "h");
    assert ("-" + ClockBody(t))[1..] == ClockBody(t) && ("-" + TextBody(t, seconds))[1..] == TextBody(t, seconds);
  }

  lemma ReadSigned(negative: bool, body: string, text: bool, n: nat)
    requires body != "" ==> body[0] != '-'
    requires (if text then ReadTextBody(body) else ReadClockBody(body)) == Some(n)
    ensures Read((if negative then "-" else "") + body, text) == Some(Toward(negative, n))
  {
    var s := (if negative then "-" else "") + body;
    assert s == if negative then "-" + body else body;
    assert ("-" + body)[1..] == body;
  }

  lemma ReadShown(negative: bool, t: Time, text: bool, seconds: bool)
    requires 0 <= t.min < 60 && 0 <= t.sec < 60
    ensures var all := !text || seconds || (!negative && t.hours <= 0 && t.min == 0);
            Read(Signed(negative, t, text, seconds), text)
            == Some(Toward(negative, Printed(if all then t else t.(sec := 0))))
  {
    if text {
      ReadTextTime(t, false);
      var all := seconds || (!negative && TextBody(t, false) == "");
      ReadTextTime(t, all);
      ReadSigned(negative, TextBody(t, all), true, Printed(if all then t else t.(sec := 0)));
    } else {
      ReadClock(t);
      ReadSigned(negative, ClockBody(t), false, Printed(t));
    }
  }

  /** What is printed is the duration unless hours are lost. */
  lemma PrintedIff(millis: Long)
    requires millis != -TWO63
    ensures var t := Split(Abs(millis));
            && (Toward(millis < 0, Printed(t)) == Quotient(millis, 1000) <==> HoursFit(millis))
            && (Toward(millis < 0, Printed(t.(sec := 0))) == 60 * Quotient(millis, 60000) <==> HoursFit(millis))
            && (HoursFit(millis) ==> (t.hours <= 0 && t.min == 0 <==> Abs(millis) < 60000))
            && (!HoursFit(millis) ==> Toward(millis < 0, Printed(t)) != 60 * Quotient(millis, 60000))
  {
    SplitOf(Abs(millis));
  }

  /** h:mm:ss reads back as the whole seconds of the duration exactly when its hours fit 32 bits. */
  lemma ClockRoundTrip(millis: Long, seconds: bool)
    ensures Read(Shown(millis, false, seconds), false) == Some(Quotient(millis, 1000)) <==> HoursFit(millis)
  {
    if millis == -TWO63 {
      SmallestIsLost(seconds);
    } else {
      SplitOf(Abs(millis));
      ReadShown(millis < 0, Split(Abs(millis)), false, seconds);
      PrintedIff(millis);
    }
  }

  /** So does the text with seconds. */
  lemma TextRoundTrip(millis: Long)
    ensures Read(Shown(millis, true, true), true) == Some(Quotient(millis, 1000)) <==> HoursFit(millis)
  {
    if millis == -TWO63 {
      SmallestIsLost(true);
    } else {
      SplitOf(Abs(millis));
      ReadShown(millis < 0, Split(Abs(millis)), true, true);
      PrintedIff(millis);
    }
  }

  /** Without seconds the text tells the whole minutes, or the seconds if there are none; never of a negative one. */
  lemma TextWithoutSeconds(millis: Long)
    ensures Read(Shown(millis, true, false), true)
            == Some(if 0 <= millis < 60000 then millis / 1000 else 60 * Quotient(millis, 60000))
          <==> HoursFit(millis)
  {
    if millis == -TWO63 {
      SmallestIsLost(false);
    } else {
      SplitOf(Abs(millis));
      ReadShown(millis < 0, Split(Abs(millis)), true, false);
      PrintedIff(millis);
    }
  }

  /** Two durations in range have the same clock text only if they agree in sign and whole seconds. */
  lemma ClockTellsSecondsApart(a: Long, b: Long)
    requires HoursFit(a) && HoursFit(b)
    requires Shown(a, false, true) == Shown(b, false, true)
    ensures Quotient(a, 1000) == Quotient(b, 1000)
  {
    ClockRoundTrip(a, true);
    ClockRoundTrip(b, true);
  }
}
