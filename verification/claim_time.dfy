/** Civil dates and times as section 5.2.2 of ISO 8601-1:2019 writes calendar dates:
    printed at the precision they were stated with, and read back only that way. */
module ClaimTime {

  import opened Wrappers

  datatype Precision = Year | Month | Day | Hour | Minute | Second

  datatype Invalid = Invalid

  // ------------------------------------------------------------------ digits

  predicate Digit(c: char) { '0' <= c <= '9' }

  predicate AllDigits(s: string) { forall i | 0 <= i < |s| :: Digit(s[i]) }

  function Pow10(w: nat): nat { if w == 0 then 1 else 10 * Pow10(w - 1) }

  /** The last `w` digits of a number. */
  function Pad(n: nat, w: nat): (s: string)
    ensures |s| == w && AllDigits(s)
  {
    if w == 0 then "" else Pad(n / 10, w - 1) + [((n % 10) + '0' as int) as char]
  }

  function Number(s: string): nat
    requires AllDigits(s)
  {
    if s == "" then 0 else 10 * Number(s[..|s| - 1]) + (s[|s| - 1] as int - '0' as int)
  }

  lemma {:induction false} NumberOfPad(n: nat, w: nat)
    requires n < Pow10(w)
    ensures Number(Pad(n, w)) == n
  {
    if w > 0 {
      NumberOfPad(n / 10, w - 1);
      assert Pad(n, w)[..w - 1] == Pad(n / 10, w - 1);
    }
  }

  lemma {:induction false} PadOfNumber(s: string)
    requires AllDigits(s)
    ensures Pad(Number(s), |s|) == s && Number(s) < Pow10(|s|)
    decreases |s|
  {
    if s != "" {
      var front, last := s[..|s| - 1], s[|s| - 1] as int - '0' as int;
      PadOfNumber(front);
      assert Number(s) == 10 * Number(front) + last;
      assert Number(s) / 10 == Number(front) && Number(s) % 10 == last;
      assert s == front + [s[|s| - 1]];
    }
  }

  /** Exactly `width` digits, as a number. */
  function Digits(text: string, width: nat): Result<nat, Invalid> {
    if |text| != width || !AllDigits(text) then Err(Invalid) else Ok(Number(text))
  }

  /** A byte, or the largest there is for what does not fit. */
  function Narrow(n: nat): nat { if n < 0x100 then n else 0xFF }

  /** Reading digits succeeds exactly on what printing makes, and loses nothing: two
      digits always fit a byte. */
  lemma {:induction false} DigitsReadPad(text: string, width: nat)
    ensures Digits(text, width).Ok? <==> exists n: nat :: n < Pow10(width) && text == Pad(n, width)
    ensures Digits(text, width).Ok? ==> text == Pad(Digits(text, width).value, width) && Digits(text, width).value < Pow10(width)
    ensures Digits(text, 2).Ok? ==> Narrow(Digits(text, 2).value) == Digits(text, 2).value
  {
    if AllDigits(text) {
      PadOfNumber(text);
    }
    assert Pow10(2) == 100 by { assert Pow10(1) == 10; }
  }

  lemma {:induction false} ReadBack(n: nat, width: nat)
    requires n < Pow10(width)
    ensures Digits(Pad(n, width), width) == Ok(n)
  {
    NumberOfPad(n, width);
  }

  // --------------------------------------------------------------- splitting

  function IndexOf(s: string, c: char): (i: nat)
    ensures i <= |s| && (i < |s| ==> s[i] == c) && forall j | 0 <= j < i :: s[j] != c
  {
    if s == "" || s[0] == c then 0 else 1 + IndexOf(s[1..], c)
  }

  /** The pieces between separators; there is always one. */
  function Split(s: string, c: char): (parts: seq<string>)
    ensures |parts| > 0
    decreases |s|
  {
    var i := IndexOf(s, c);
    if i == |s| then [s] else [s[..i]] + Split(s[i + 1..], c)
  }

  function Join(parts: seq<string>, c: char): string
    requires |parts| > 0
    decreases |parts|
  {
    if |parts| == 1 then parts[0] else parts[0] + [c] + Join(parts[1..], c)
  }

  lemma {:induction false} JoinSplit(s: string, c: char)
    ensures Join(Split(s, c), c) == s
    ensures forall p | p in Split(s, c) :: c !in p
    decreases |s|
  {
    var i := IndexOf(s, c);
    if i < |s| {
      JoinSplit(s[i + 1..], c);
      assert Split(s, c)[1..] == Split(s[i + 1..], c);
      assert s == s[..i] + [c] + s[i + 1..];
    }
  }

  lemma {:induction false} SplitJoin(parts: seq<string>, c: char)
    requires |parts| > 0 && forall p | p in parts :: c !in p
    ensures Split(Join(parts, c), c) == parts
    decreases |parts|
  {
    var s := Join(parts, c);
    assert parts[0] in parts;
    if |parts| == 1 {
      NotThere(s, c);
    } else {
      SplitJoin(parts[1..], c);
      SplitFirst(parts[0], c, Join(parts[1..], c));
    }
  }

  lemma {:induction false} SplitFirst(first: string, c: char, rest: string)
    requires c !in first
    ensures Split(first + [c] + rest, c) == [first] + Split(rest, c)
  {
    var s := first + [c] + rest;
    FirstIndex(first, c, rest);
    assert s[..|first|] == first && s[|first| + 1..] == rest;
  }

  lemma {:induction false} NotThere(s: string, c: char)
    requires c !in s
    ensures IndexOf(s, c) == |s|
    decreases |s|
  {
    if s != "" {
      assert s[0] in s;
      NotThere(s[1..], c);
    }
  }

  lemma {:induction false} FirstIndex(a: string, c: char, b: string)
    requires c !in a
    ensures IndexOf(a + [c] + b, c) == |a|
    decreases |a|
  {
    var s := a + [c] + b;
    if a == "" {
      assert s[0] == c;
    } else {
      assert s[0] == a[0] && a[0] in a && s[1..] == a[1..] + [c] + b;
      FirstIndex(a[1..], c, b);
    }
  }

  // ------------------------------------------------------------------- dates

  predicate Leap(year: nat) {
    year % 4 == 0 && (year % 100 != 0 || year % 400 == 0)
  }

  function DaysIn(year: nat, month: nat): nat {
    if month == 2 then (if Leap(year) then 29 else 28)
    else if month in {4, 6, 9, 11} then 30 else 31
  }

  function DaysThrough(year: nat, month: nat): nat {
    if month == 0 then 0 else DaysThrough(year, month - 1) + DaysIn(year, month)
  }

  /** Twelve months make a year of 365 days, or 366 in a leap year. */
  lemma {:induction false} MonthsMakeYear(year: nat)
    ensures DaysThrough(year, 12) == if Leap(year) then 366 else 365
  {
    var february := DaysIn(year, 2);
    assert DaysThrough(year, 1) == 31 && DaysThrough(year, 2) == 31 + february && DaysThrough(year, 3) == 62 + february;
    assert DaysThrough(year, 4) == 92 + february && DaysThrough(year, 5) == 123 + february && DaysThrough(year, 6) == 153 + february;
    assert DaysThrough(year, 7) == 184 + february && DaysThrough(year, 8) == 215 + february && DaysThrough(year, 9) == 245 + february;
    assert DaysThrough(year, 10) == 276 + february && DaysThrough(year, 11) == 306 + february;
  }

  datatype CivilDate = CivilDate(year: nat, month: Option<nat>, day: Option<nat>)

  /** A date that exists, stated as finely as it says. */
  predicate Exists(d: CivilDate) {
    && 1 <= d.year <= 9999
    && (d.month.Some? ==> 1 <= d.month.value <= 12)
    && (d.day.Some? ==> d.month.Some? && 1 <= d.day.value <= DaysIn(d.year, d.month.value))
  }

  function MakeYear(year: nat): Result<CivilDate, Invalid> {
    if !(1 <= year <= 9999) then Err(Invalid) else Ok(CivilDate(year, None, None))
  }

  function MakeMonth(year: nat, month: nat): Result<CivilDate, Invalid> {
    match MakeYear(year)
    case Err(e) => Err(e)
    case Ok(date) => if !(1 <= month <= 12) then Err(Invalid) else Ok(date.(month := Some(month)))
  }

  function MakeDay(year: nat, month: nat, day: nat): Result<CivilDate, Invalid> {
    match MakeMonth(year, month)
    case Err(e) => Err(e)
    case Ok(date) => if day == 0 || day > DaysIn(year, month) then Err(Invalid) else Ok(date.(day := Some(day)))
  }

  function DatePrecision(d: CivilDate): Precision {
    if d.day.Some? then Day else if d.month.Some? then Month else Year
  }

  /** The constructors make exactly the dates that exist. */
  lemma {:induction false} ConstructorsAreExact(year: nat, month: nat, day: nat)
    ensures MakeYear(year) == if Exists(CivilDate(year, None, None)) then Ok(CivilDate(year, None, None)) else Err(Invalid)
    ensures MakeMonth(year, month) == if Exists(CivilDate(year, Some(month), None)) then Ok(CivilDate(year, Some(month), None)) else Err(Invalid)
    ensures MakeDay(year, month, day)
         == if Exists(CivilDate(year, Some(month), Some(day))) then Ok(CivilDate(year, Some(month), Some(day))) else Err(Invalid)
  {
  }

  function DateParts(d: CivilDate): seq<string> {
    [Pad(d.year, 4)] + (if d.month.Some? then [Pad(d.month.value, 2)] else []) + (if d.day.Some? then [Pad(d.day.value, 2)] else [])
  }

  /** The text of a date: year, then month and day if stated, separated by hyphens. */
  function ShowDate(d: CivilDate): string {
    Pad(d.year, 4)
    + (if d.month.Some? then "-" + Pad(d.month.value, 2) else "")
    + (if d.day.Some? then "-" + Pad(d.day.value, 2) else "")
  }

  function ParseDate(text: string): Result<CivilDate, Invalid> {
    var parts := Split(text, '-');
    var year := Digits(parts[0], 4);
    var month := if |parts| > 1 then Digits(parts[1], 2) else Ok(0);
    var day := if |parts| > 2 then Digits(parts[2], 2) else Ok(0);
    if year.Err? || month.Err? || day.Err? || |parts| > 3 then Err(Invalid)
    else if |parts| == 1 then MakeYear(year.value)
    else if |parts| == 2 then MakeMonth(year.value, Narrow(month.value))
    else MakeDay(year.value, Narrow(month.value), Narrow(day.value))
  }

  lemma {:induction false} NoSeparator(n: nat, w: nat, c: char)
    requires !Digit(c)
    ensures c !in Pad(n, w)
  {
  }

  lemma {:induction false} JoinTwo(a: string, b: string, c: char)
    ensures Join([a, b], c) == a + ([c] + b) && Join([a, b], c) == a + ([c] + b) + ""
  {
    assert [a, b][1..] == [b];
    assert a + [c] + b == a + ([c] + b) && a + ([c] + b) + "" == a + ([c] + b);
  }

  lemma {:induction false} JoinThree(x: string, y: string, z: string, c: char)
    ensures Join([x, y, z], c) == x + ([c] + y) + ([c] + z)
  {
    assert [x, y, z][1..] == [y, z];
    JoinTwo(y, z, c);
    assert x + [c] + (y + ([c] + z)) == x + ([c] + y) + ([c] + z);
  }

  lemma {:induction false} ShowIsJoin(d: CivilDate)
    requires d.day.Some? ==> d.month.Some?
    ensures ShowDate(d) == Join(DateParts(d), '-')
    ensures Split(ShowDate(d), '-') == DateParts(d)
  {
    var parts := DateParts(d);
    NoSeparator(d.year, 4, '-');
    if d.month.Some? {
      NoSeparator(d.month.value, 2, '-');
      if d.day.Some? {
        NoSeparator(d.day.value, 2, '-');
        JoinThree(parts[0], parts[1], parts[2], '-');
      } else {
        JoinTwo(parts[0], parts[1], '-');
      }
    }
    SplitJoin(parts, '-');
  }

  lemma {:induction false} SmallPowers()
    ensures Pow10(2) == 100 && Pow10(4) == 10000
  {
    assert Pow10(1) == 10 && Pow10(2) == 100 && Pow10(3) == 1000;
  }

  /** A date that exists is read back as itself. */
  lemma {:induction false} DateSurvivesPrinting(d: CivilDate)
    requires Exists(d)
    ensures ParseDate(ShowDate(d)) == Ok(d)
  {
    ShowIsJoin(d);
    SmallPowers();
    ReadBack(d.year, 4);
    if d.month.Some? {
      ReadBack(d.month.value, 2);
      if d.day.Some? {
        ReadBack(d.day.value, 2);
        assert DaysIn(d.year, d.month.value) <= 31;
      }
    }
  }

  /** A text that is read is what the date it names prints as, so no text has two
      readings and no date has two texts; and only days that exist are read. */
  lemma {:induction false} DateTextIsCanonical(text: string)
    requires ParseDate(text).Ok?
    ensures Exists(ParseDate(text).value) && ShowDate(ParseDate(text).value) == text
  {
    PartsReadBack(text);
    JoinSplit(text, '-');
    ShowIsJoin(ParseDate(text).value);
  }

  lemma {:induction false} PartsReadBack(text: string)
    requires ParseDate(text).Ok?
    ensures Exists(ParseDate(text).value) && DateParts(ParseDate(text).value) == Split(text, '-')
  {
    var parts, d := Split(text, '-'), ParseDate(text).value;
    DigitsReadPad(parts[0], 4);
    if |parts| > 1 { DigitsReadPad(parts[1], 2); }
    if |parts| > 2 { DigitsReadPad(parts[2], 2); }
    ConstructorsAreExact(d.year, if d.month.Some? then d.month.value else 0, if d.day.Some? then d.day.value else 0);
  }

  // ------------------------------------------------------------------- times

  datatype Zone = Iana(name: string) | Offset(seconds: int) | Floating

  const MAX_OFFSET_SECONDS := 18 * 3600

  predicate ZoneFits(z: Zone) {
    z.Offset? ==> -MAX_OFFSET_SECONDS <= z.seconds <= MAX_OFFSET_SECONDS
  }

  datatype ZoneForm = IanaForm | OffsetForm | FloatingForm

  datatype RawZone = RawZone(kind: ZoneForm, name: Option<string>, seconds: Option<int>)

  function RawOf(z: Zone): RawZone {
    match z
    case Iana(name) => RawZone(IanaForm, Some(name), None)
    case Offset(seconds) => RawZone(OffsetForm, None, Some(seconds))
    case Floating => RawZone(FloatingForm, None, None)
  }

  function ZoneOf(raw: RawZone): Result<Zone, Invalid> {
    match raw
    case RawZone(IanaForm, Some(name), None) => Ok(Iana(name))
    case RawZone(OffsetForm, None, Some(seconds)) =>
      if -MAX_OFFSET_SECONDS <= seconds <= MAX_OFFSET_SECONDS then Ok(Offset(seconds)) else Err(Invalid)
    case RawZone(FloatingForm, None, None) => Ok(Floating)
    case _ => Err(Invalid)
  }

  /** A zone is read back as itself, and a raw zone that is read carries nothing else. */
  lemma {:induction false} ZoneRoundTrip(z: Zone, raw: RawZone)
    ensures ZoneFits(z) <==> ZoneOf(RawOf(z)) == Ok(z)
    ensures ZoneOf(raw).Ok? ==> ZoneFits(ZoneOf(raw).value) && RawOf(ZoneOf(raw).value) == raw
  {
  }

  datatype ZonedTime = ZonedTime(date: CivilDate, hour: nat, minute: Option<nat>, second: Option<nat>, zone: Zone)

  predicate Happens(t: ZonedTime) {
    && Exists(t.date) && t.date.day.Some? && t.hour <= 23
    && (t.minute.Some? ==> t.minute.value <= 59)
    && (t.second.Some? ==> t.minute.Some? && t.second.value <= 59)
  }

  function Build(date: CivilDate, hour: nat, minute: Option<nat>, second: Option<nat>, zone: Zone): Result<ZonedTime, Invalid> {
    if DatePrecision(date) != Day then Err(Invalid)
    else if hour > 23 then Err(Invalid)
    else if (minute.Some? && minute.value > 59) || (second.Some? && second.value > 59) then Err(Invalid)
    else if second.Some? && minute.None? then Err(Invalid)
    else Ok(ZonedTime(date, hour, minute, second, zone))
  }

  function TimePrecision(t: ZonedTime): Precision {
    if t.second.Some? then Second else if t.minute.Some? then Minute else Hour
  }

  function ClockParts(t: ZonedTime): seq<string> {
    [Pad(t.hour, 2)] + (if t.minute.Some? then [Pad(t.minute.value, 2)] else []) + (if t.second.Some? then [Pad(t.second.value, 2)] else [])
  }

  function ShowClock(t: ZonedTime): string {
    Pad(t.hour, 2)
    + (if t.minute.Some? then ":" + Pad(t.minute.value, 2) else "")
    + (if t.second.Some? then ":" + Pad(t.second.value, 2) else "")
  }

  /** The wall-clock text, without the zone. */
  function Local(t: ZonedTime): string {
    ShowDate(t.date) + "T" + ShowClock(t)
  }

  function ParseClock(date: CivilDate, text: string, zone: Zone): Result<ZonedTime, Invalid> {
    var parts := Split(text, ':');
    var hour := Digits(parts[0], 2);
    var minute := if |parts| > 1 then Digits(parts[1], 2) else Ok(0);
    var second := if |parts| > 2 then Digits(parts[2], 2) else Ok(0);
    if hour.Err? || minute.Err? || second.Err? || |parts| > 3 then Err(Invalid)
    else Build(date, Narrow(hour.value),
               if |parts| > 1 then Some(Narrow(minute.value)) else None,
               if |parts| > 2 then Some(Narrow(second.value)) else None, zone)
  }

  function ParseTime(text: string, zone: Zone): Result<ZonedTime, Invalid> {
    var i := IndexOf(text, 'T');
    if i == |text| then Err(Invalid)
    else match ParseDate(text[..i])
      case Err(e) => Err(e)
      case Ok(date) => ParseClock(date, text[i + 1..], zone)
  }

  lemma {:induction false} ClockIsJoin(t: ZonedTime)
    requires t.second.Some? ==> t.minute.Some?
    ensures ShowClock(t) == Join(ClockParts(t), ':')
    ensures Split(ShowClock(t), ':') == ClockParts(t)
  {
    var parts := ClockParts(t);
    NoSeparator(t.hour, 2, ':');
    if t.minute.Some? {
      NoSeparator(t.minute.value, 2, ':');
      if t.second.Some? {
        NoSeparator(t.second.value, 2, ':');
        JoinThree(parts[0], parts[1], parts[2], ':');
      } else {
        JoinTwo(parts[0], parts[1], ':');
      }
    }
    SplitJoin(parts, ':');
  }

  lemma {:induction false} ClockSurvivesPrinting(t: ZonedTime)
    requires Happens(t)
    ensures ParseClock(t.date, ShowClock(t), t.zone) == Ok(t)
  {
    ClockIsJoin(t);
    SmallPowers();
    ReadBack(t.hour, 2);
    if t.minute.Some? {
      ReadBack(t.minute.value, 2);
      if t.second.Some? { ReadBack(t.second.value, 2); }
    }
  }

  lemma {:induction false} NoLetterInDate(d: CivilDate)
    ensures 'T' !in ShowDate(d)
  {
    NoSeparator(d.year, 4, 'T');
    if d.month.Some? { NoSeparator(d.month.value, 2, 'T'); }
    if d.day.Some? { NoSeparator(d.day.value, 2, 'T'); }
  }

  /** A time that happens is read back as itself, at the precision it was stated with. */
  lemma {:induction false} TimeSurvivesPrinting(t: ZonedTime)
    requires Happens(t)
    ensures ParseTime(Local(t), t.zone) == Ok(t)
  {
    NoLetterInDate(t.date);
    FirstIndex(ShowDate(t.date), 'T', ShowClock(t));
    var text := Local(t);
    assert text == ShowDate(t.date) + ['T'] + ShowClock(t);
    assert text[..|ShowDate(t.date)|] == ShowDate(t.date) && text[|ShowDate(t.date)| + 1..] == ShowClock(t);
    DateSurvivesPrinting(t.date);
    ClockSurvivesPrinting(t);
  }

  lemma {:induction false} ClockTextIsCanonical(date: CivilDate, text: string, zone: Zone)
    requires Exists(date) && ParseClock(date, text, zone).Ok?
    ensures var t := ParseClock(date, text, zone).value; Happens(t) && t.date == date && t.zone == zone && ShowClock(t) == text
  {
    var parts, t := Split(text, ':'), ParseClock(date, text, zone).value;
    JoinSplit(text, ':');
    DigitsReadPad(parts[0], 2);
    if |parts| > 1 { DigitsReadPad(parts[1], 2); }
    if |parts| > 2 { DigitsReadPad(parts[2], 2); }
    assert ClockParts(t) == parts;
    ClockIsJoin(t);
  }

  /** A text that is read is what its time prints as, and names a time that happens. */
  lemma {:induction false} TimeTextIsCanonical(text: string, zone: Zone)
    requires ParseTime(text, zone).Ok?
    ensures var t := ParseTime(text, zone).value; Happens(t) && t.zone == zone && Local(t) == text
  {
    var i := IndexOf(text, 'T');
    DateTextIsCanonical(text[..i]);
    var date := ParseDate(text[..i]).value;
    ClockTextIsCanonical(date, text[i + 1..], zone);
    Rejoined(text, i);
  }

  lemma {:induction false} Rejoined(text: string, i: nat)
    requires i < |text| && text[i] == 'T'
    ensures text == text[..i] + "T" + text[i + 1..]
  {
  }

  // --------------------------------------------------------------- on the wire

  datatype Raw = Raw(text: string, precision: Precision)

  function WireDate(d: CivilDate): Raw { Raw(ShowDate(d), DatePrecision(d)) }

  /** The stated precision must be the one the text is written at. */
  function ReadDate(raw: Raw): Result<CivilDate, Invalid> {
    match ParseDate(raw.text)
    case Err(e) => Err(e)
    case Ok(d) => if DatePrecision(d) == raw.precision then Ok(d) else Err(Invalid)
  }

  function WireTime(t: ZonedTime): (Raw, RawZone) { (Raw(Local(t), TimePrecision(t)), RawOf(t.zone)) }

  function ReadTime(raw: Raw, zone: RawZone): Result<ZonedTime, Invalid> {
    match ZoneOf(zone)
    case Err(e) => Err(e)
    case Ok(z) =>
      match ParseTime(raw.text, z)
      case Err(e) => Err(e)
      case Ok(t) => if TimePrecision(t) == raw.precision then Ok(t) else Err(Invalid)
  }

  /** Writing and reading are inverse to each other, both ways, for dates: a raw date is
      accepted exactly when it is what some existing date is written as. */
  lemma {:induction false} DatesOnTheWire(raw: Raw)
    ensures ReadDate(raw).Ok? <==> exists d :: Exists(d) && WireDate(d) == raw
    ensures ReadDate(raw).Ok? ==> Exists(ReadDate(raw).value) && WireDate(ReadDate(raw).value) == raw
  {
    if ReadDate(raw).Ok? {
      DateTextIsCanonical(raw.text);
      assert Exists(ReadDate(raw).value) && WireDate(ReadDate(raw).value) == raw;
    }
    if d :| Exists(d) && WireDate(d) == raw {
      DateSurvivesPrinting(d);
    }
  }

  /** And for times in a zone. */
  lemma {:induction false} TimesOnTheWire(raw: Raw, zone: RawZone)
    ensures ReadTime(raw, zone).Ok? <==> exists t :: Happens(t) && ZoneFits(t.zone) && WireTime(t) == (raw, zone)
    ensures ReadTime(raw, zone).Ok? ==> Happens(ReadTime(raw, zone).value) && WireTime(ReadTime(raw, zone).value) == (raw, zone)
  {
    if ReadTime(raw, zone).Ok? {
      var t := ReadTime(raw, zone).value;
      TimeTextIsCanonical(raw.text, ZoneOf(zone).value);
      ZoneRoundTrip(t.zone, zone);
      assert Happens(t) && ZoneFits(t.zone) && WireTime(t) == (raw, zone);
    }
    if t :| Happens(t) && ZoneFits(t.zone) && WireTime(t) == (raw, zone) {
      ZoneRoundTrip(t.zone, zone);
      TimeSurvivesPrinting(t);
    }
  }
}
