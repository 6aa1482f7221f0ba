/** Parsing a timestamp: the texts that are accepted, and the instant that each denotes. */
module Timestamps {
  import opened Wrappers
  import opened Text
  import opened Calendar

  datatype Clock = Clock(hour: nat, minute: nat, second: nat)

  /** What a text says.  `zone` is the offset from UTC in seconds, if the text gives one. */
  datatype Fields = Fields(date: Date, clock: Clock, nanos: nat, zone: Option<int>)

  /** A part read from the front of a text, and what follows it. */
  datatype Read<+T> = Read(part: T, rest: string)

  const Midnight := Clock(0, 0, 0)

  predicate ValidClock(c: Clock) { c.hour <= 23 && c.minute <= 59 && c.second <= 59 }

  function Seconds(c: Clock): int { c.hour * 3600 + c.minute * 60 + c.second }

  // ----- The parts of a text -----

  predicate AllDigits(s: string) { forall k | 0 <= k < |s| :: IsDigit(s[k]) }

  predicate DigitsAt(t: string, p: nat, width: nat) {
    p + width <= |t| && AllDigits(t[p..p + width])
  }

  function NumberAt(t: string, p: nat, width: nat): nat
    requires DigitsAt(t, p, width)
  {
    Value(t[p..p + width])
  }

  predicate CharAt(t: string, p: nat, c: char) { p < |t| && t[p] == c }

  predicate DateShape(t: string) {
    DigitsAt(t, 0, 4) && CharAt(t, 4, '-') && DigitsAt(t, 5, 2) && CharAt(t, 7, '-') && DigitsAt(t, 8, 2)
  }

  function ReadDate(t: string): Option<Read<Date>> {
    if DateShape(t) then Some(Read(Date(NumberAt(t, 0, 4), NumberAt(t, 5, 2), NumberAt(t, 8, 2)), t[10..]))
    else None
  }

  predicate ClockShape(t: string) {
    DigitsAt(t, 1, 2) && CharAt(t, 3, ':') && DigitsAt(t, 4, 2) && CharAt(t, 6, ':') && DigitsAt(t, 7, 2)
  }

  predicate ClockStart(t: string) { CharAt(t, 0, ' ') || CharAt(t, 0, 'T') }

  function ReadClock(t: string): Option<Read<Clock>> {
    if !ClockStart(t) then Some(Read(Midnight, t))
    else if ClockShape(t) then Some(Read(Clock(NumberAt(t, 1, 2), NumberAt(t, 4, 2), NumberAt(t, 7, 2)), t[9..]))
    else None
  }

  /** `v` with `k` zeros appended. */
  function Padded(v: nat, k: nat): nat
    decreases k
  {
    if k == 0 then v else Padded(v * 10, k - 1)
  }

  /** A fraction of a second, cut to nine digits. */
  function Nanos(ds: string): nat
    requires AllDigits(ds)
  {
    if |ds| >= 9 then Value(ds[..9]) else Padded(Value(ds), 9 - |ds|)
  }

  function ReadFraction(t: string): Read<nat> {
    if CharAt(t, 0, '.') then
      var run := DigitRun(t[1..]);
      DigitRunDigits(t[1..]);
      Read(Nanos(t[1..][..run]), t[1..][run..])
    else Read(0, t)
  }

  lemma {:induction false} DigitRunDigits(t: string)
    ensures DigitRun(t) <= |t| && AllDigits(t[..DigitRun(t)]) && NonDigitStart(t[DigitRun(t)..])
  {
    if !NonDigitStart(t) {
      DigitRunDigits(t[1..]);
      var run := DigitRun(t);
      assert t[..run] == [t[0]] + t[1..][..run - 1] && t[run..] == t[1..][run - 1..];
    }
  }

  /** The minutes of an offset, which may be missing; nothing may follow them. */
  function ReadMinutes(t: string): Option<nat> {
    if t == "" then Some(0)
    else if |t| == 2 && DigitsAt(t, 0, 2) then Some(NumberAt(t, 0, 2))
    else None
  }

  function AfterColon(t: string): string { if CharAt(t, 0, ':') then t[1..] else t }

  function ReadOffset(t: string, sign: int): Option<int> {
    if !DigitsAt(t, 1, 2) then None
    else
      match ReadMinutes(AfterColon(t[3..]))
      case None => None
      case Some(minutes) =>
        var hours := NumberAt(t, 1, 2);
        if hours > 23 || minutes > 59 then None else Some(sign * (hours * 3600 + minutes * 60))
  }

  /** The zone at the end of the text; the outer None is a refusal. */
  function ReadZone(t: string): Option<Option<int>> {
    if t == "" then Some(None)
    else if t == "Z" || t == "z" then Some(Some(0))
    else if t[0] == '+' || t[0] == '-' then
      match ReadOffset(t, if t[0] == '+' then 1 else -1)
      case None => None
      case Some(seconds) => Some(Some(seconds))
    else None
  }

  predicate Accepted(f: Fields) { Calendar.Valid(f.date) && ValidClock(f.clock) && f.date.year >= 1900 }

  function ReadRest(date: Date, t: string): Option<Fields> {
    match ReadClock(t)
    case None => None
    case Some(clock) =>
      var fraction := ReadFraction(clock.rest);
      match ReadZone(fraction.rest)
      case None => None
      case Some(zone) => Some(Fields(date, clock.part, fraction.part, zone))
  }

  function Parse(s: string): Option<Fields> {
    match ReadDate(s)
    case None => None
    case Some(date) =>
      var r := ReadRest(date.part, date.rest);
      if r.Some? && Accepted(r.value) then r else None
  }

  // ----- The instant -----

  const Billion := 1_000_000_000

  /** Two's complement of 64 bits. */
  function Wrap64(x: int): int { (x + 0x8000_0000_0000_0000) % 0x1_0000_0000_0000_0000 - 0x8000_0000_0000_0000 }

  predicate Fits64(x: int) { -0x8000_0000_0000_0000 <= x < 0x8000_0000_0000_0000 }

  function Nanoseconds(days: int, clock: Clock, offset: int, nanos: nat): int {
    (days * 86400 + Seconds(clock) - offset) * Billion + nanos
  }

  /** Nanoseconds since 1970-01-01T00:00:00Z, counted on the calendar. */
  function Instant(f: Fields): int
    requires Accepted(f) && f.zone.Some?
  {
    Nanoseconds(CountedDays(f.date), f.clock, f.zone.value, f.nanos)
  }

  /** `local` stands for the host's conversion of a local time, which can fail. */
  function Timestamp(f: Fields, local: (Date, Clock) -> Option<int>): Option<int> {
    match f.zone
    case Some(offset) => Some(Wrap64(Nanoseconds(CivilDays(f.date), f.clock, offset, f.nanos)))
    case None =>
      match local(f.date, f.clock)
      case None => None
      case Some(seconds) => Some(Wrap64(seconds * Billion + f.nanos))
  }

  function TryParse(s: string, local: (Date, Clock) -> Option<int>): Option<int> {
    match Parse(s)
    case None => None
    case Some(f) => Timestamp(f, local)
  }

  // ----- The parser's loops -----

  method ReadInt(s: string, start: nat, width: nat) returns (value: Option<nat>)
    ensures value == if DigitsAt(s, start, width) then Some(NumberAt(s, start, width)) else None
  {
    if start + width > |s| {
      return None;
    }
    var v := 0;
    ghost var t := s[start..start + width];
    for k := 0 to width
      invariant AllDigits(t[..k]) && v == Value(t[..k])
    {
      assert t[..k + 1][..k] == t[..k] && t[k] == s[start + k];
      if !IsDigit(s[start + k]) {
        return None;
      }
      v := v * 10 + DigitValue(s[start + k]);
    }
    assert t[..width] == t;
    return Some(v);
  }

  method ScanDate(s: string) returns (date: Option<Date>)
    ensures date.Some? ==> |s| >= 10
    ensures ReadDate(s) == if date.Some? then Some(Read(date.value, s[10..])) else None
  {
    var year := ReadInt(s, 0, 4);
    if year.None? || 4 >= |s| || s[4] != '-' {
      return None;
    }
    var month := ReadInt(s, 5, 2);
    if month.None? || 7 >= |s| || s[7] != '-' {
      return None;
    }
    var day := ReadInt(s, 8, 2);
    if day.None? {
      return None;
    }
    return Some(Date(year.value, month.value, day.value));
  }

  lemma DigitsShift(s: string, i: nat, p: nat, width: nat)
    requires i <= |s|
    ensures DigitsAt(s, i + p, width) <==> DigitsAt(s[i..], p, width)
    ensures DigitsAt(s, i + p, width) ==> NumberAt(s, i + p, width) == NumberAt(s[i..], p, width)
  {
    if i + p + width <= |s| {
      assert s[i + p..i + p + width] == s[i..][p..p + width];
    }
  }

  method ScanClock(s: string, start: nat) returns (clock: Option<Clock>, i: nat)
    requires start <= |s|
    ensures i <= |s|
    ensures ReadClock(s[start..]) == if clock.Some? then Some(Read(clock.value, s[i..])) else None
  {
    i := start;
    if !(i < |s| && (s[i] == ' ' || s[i] == 'T')) {
      return Some(Midnight), i;
    }
    DigitsShift(s, start, 1, 2);
    DigitsShift(s, start, 4, 2);
    DigitsShift(s, start, 7, 2);
    var hour := ReadInt(s, i + 1, 2);
    if hour.None? || i + 3 >= |s| || s[i + 3] != ':' {
      return None, i;
    }
    var minute := ReadInt(s, i + 4, 2);
    if minute.None? || i + 6 >= |s| || s[i + 6] != ':' {
      return None, i;
    }
    var second := ReadInt(s, i + 7, 2);
    if second.None? {
      return None, i;
    }
    return Some(Clock(hour.value, minute.value, second.value)), i + 9;
  }

  function Min(a: nat, b: nat): nat { if a <= b then a else b }

  /** The value of the first nine digits of the run that starts here. */
  method ReadDigits(s: string, start: nat) returns (v: nat, digits: nat, i: nat)
    requires start <= |s|
    ensures i == start + DigitRun(s[start..]) <= |s| && DigitsAt(s, start, i - start)
    ensures digits == Min(9, i - start) && DigitsAt(s, start, digits) && v == NumberAt(s, start, digits)
  {
    i, v, digits := start, 0, 0;
    while i < |s| && IsDigit(s[i])
      invariant start <= i <= |s| && DigitsAt(s, start, i - start)
      invariant DigitRun(s[start..]) == i - start + DigitRun(s[i..])
      invariant digits == Min(9, i - start) && DigitsAt(s, start, digits) && v == NumberAt(s, start, digits)
    {
      assert s[i..][1..] == s[i + 1..];
      NumberGrows(s, start, i);
      if digits < 9 {
        v := v * 10 + DigitValue(s[i]);
        digits := digits + 1;
      }
      i := i + 1;
    }
  }

  lemma NumberGrows(s: string, start: nat, i: nat)
    requires start <= i < |s| && DigitsAt(s, start, i - start) && IsDigit(s[i])
    ensures DigitsAt(s, start, i - start + 1)
    ensures NumberAt(s, start, i - start + 1) == NumberAt(s, start, i - start) * 10 + DigitValue(s[i])
  {
    ValueAppend(s[start..i], s[i]);
    assert s[start..i + 1] == s[start..i] + [s[i]];
  }

  method ScanFraction(s: string, start: nat) returns (nanos: nat, i: nat)
    requires start <= |s|
    ensures i <= |s| && ReadFraction(s[start..]) == Read(nanos, s[i..])
  {
    i, nanos := start, 0;
    if i < |s| && s[i] == '.' {
      var v, digits, end := ReadDigits(s, i + 1);
      ghost var ds := s[i + 1..end];
      ghost var t := s[start..][1..];
      assert t == s[i + 1..] && t[..|ds|] == ds && t[|ds|..] == s[end..];
      assert ds[..digits] == s[i + 1..i + 1 + digits];
      nanos := PadFraction(ds, v, digits);
      i := end;
    }
  }

  method PadFraction(ghost ds: string, value: nat, read: nat) returns (v: nat)
    requires AllDigits(ds) && read == Min(9, |ds|) && value == Value(ds[..read])
    ensures v == Nanos(ds)
  {
    var digits := read;
    v := value;
    assert |ds| <= 9 ==> ds[..read] == ds;
    while digits < 9
      invariant read <= digits <= 9 && Padded(v, 9 - digits) == Padded(value, 9 - read)
    {
      v := v * 10;
      digits := digits + 1;
    }
  }

  method ScanMinutes(s: string, start: nat) returns (minutes: Option<nat>)
    requires start <= |s|
    ensures minutes == ReadMinutes(s[start..])
  {
    if start >= |s| {
      return Some(0);
    }
    DigitsShift(s, start, 0, 2);
    var m := ReadInt(s, start, 2);
    if m.None? || start + 2 != |s| {
      return None;
    }
    return m;
  }

  method ScanZone(s: string, start: nat) returns (zone: Option<Option<int>>)
    requires start <= |s|
    ensures zone == ReadZone(s[start..])
  {
    ghost var t := s[start..];
    if start == |s| {
      return Some(None);
    }
    if s[start] == 'Z' || s[start] == 'z' {
      assert |t| == 1 ==> t == [s[start]];
      return if start + 1 == |s| then Some(Some(0)) else None;
    }
    if s[start] != '+' && s[start] != '-' {
      return None;
    }
    var sign: int := if s[start] == '+' then 1 else -1;
    DigitsShift(s, start, 1, 2);
    var hours := ReadInt(s, start + 1, 2);
    if hours.None? {
      return None;
    }
    var i := start + 3;
    assert t[3..] == s[i..];
    if i < |s| && s[i] == ':' {
      assert t[3..][1..] == s[i + 1..];
      i := i + 1;
    }
    var minutes := ScanMinutes(s, i);
    if minutes.None? || hours.value > 23 || minutes.value > 59 {
      return None;
    }
    return Some(Some(sign * (hours.value * 3600 + minutes.value * 60)));
  }

  /** The whole parser. */
  method TryParseTimestamp(s: string, local: (Date, Clock) -> Option<int>) returns (r: Option<int>)
    ensures r == TryParse(s, local)
  {
    var date := ScanDate(s);
    if date.None? {
      return None;
    }
    var clock, i := ScanClock(s, 10);
    if clock.None? {
      return None;
    }
    var nanos, j := ScanFraction(s, i);
    var zone := ScanZone(s, j);
    if zone.None? {
      return None;
    }
    var f := Fields(date.value, clock.value, nanos, zone.value);
    if !Accepted(f) {
      return None;
    }
    r := Timestamp(f, local);
  }

  // ----- How a text can be spelled -----

  datatype Zone = Utc(small: bool) | Offset(west: bool, hours: nat, colon: bool, minutes: Option<nat>)

  /** A date, then optionally a clock after a space or a `T`, a fraction, and a zone. */
  datatype Spelling = Spelling(date: Date, clock: Option<Clock>, spaced: bool, fraction: Option<string>,
                               zone: Option<Zone>)

  predicate ValidZone(z: Zone) {
    z.Offset? ==> z.hours <= 23 && (z.minutes.Some? ==> z.minutes.value <= 59)
  }

  predicate WellFormed(x: Spelling) {
    && Calendar.Valid(x.date) && 1900 <= x.date.year <= 9999
    && (x.clock.Some? ==> ValidClock(x.clock.value))
    && (x.fraction.Some? ==> AllDigits(x.fraction.value))
    && (x.zone.Some? ==> ValidZone(x.zone.value))
  }

  function Pad2(n: nat): string
    requires n < 100
  {
    [Digit(n / 10), Digit(n % 10)]
  }

  function Pad4(n: nat): string
    requires n < 10000
  {
    Pad2(n / 100) + Pad2(n % 100)
  }

  function DateText(date: Date): string
    requires Calendar.Valid(date) && 1900 <= date.year <= 9999
  {
    Pad4(date.year) + "-" + Pad2(date.month) + "-" + Pad2(date.day)
  }

  function ClockText(clock: Option<Clock>, spaced: bool): string
    requires clock.Some? ==> ValidClock(clock.value)
  {
    if clock.None? then ""
    else
      var c := clock.value;
      (if spaced then " " else "T") + Pad2(c.hour) + ":" + Pad2(c.minute) + ":" + Pad2(c.second)
  }

  function FractionText(fraction: Option<string>): string {
    if fraction.None? then "" else "." + fraction.value
  }

  function MinutesText(minutes: Option<nat>): string
    requires minutes.Some? ==> minutes.value <= 59
  {
    if minutes.None? then "" else Pad2(minutes.value)
  }

  function ZoneText(zone: Option<Zone>): string
    requires zone.Some? ==> ValidZone(zone.value)
  {
    match zone
    case None => ""
    case Some(Utc(small)) => if small then "z" else "Z"
    case Some(Offset(west, hours, colon, minutes)) =>
      (if west then "-" else "+") + Pad2(hours) + ((if colon then ":" else "") + MinutesText(minutes))
  }

  function Render(x: Spelling): string
    requires WellFormed(x)
  {
    DateText(x.date) + (ClockText(x.clock, x.spaced) + (FractionText(x.fraction) + ZoneText(x.zone)))
  }

  function OffsetOf(zone: Option<Zone>): Option<int> {
    match zone
    case None => None
    case Some(Utc(_)) => Some(0)
    case Some(Offset(west, hours, _, minutes)) =>
      Some((if west then -1 else 1) * (hours * 3600 + (if minutes.Some? then minutes.value else 0) * 60))
  }

  /** What a spelling says. */
  function Meaning(x: Spelling): (f: Fields)
    requires WellFormed(x)
    ensures Accepted(f) && (f.zone.Some? <==> x.zone.Some?)
  {
    Fields(x.date, if x.clock.Some? then x.clock.value else Midnight,
           if x.fraction.Some? then Nanos(x.fraction.value) else 0, OffsetOf(x.zone))
  }

  // ----- Every spelling is read as meant -----

  lemma ValueAppend(s: string, c: char)
    requires AllDigits(s) && IsDigit(c)
    ensures AllDigits(s + [c]) && Value(s + [c]) == Value(s) * 10 + DigitValue(c)
  {
    assert (s + [c])[..|s|] == s;
  }

  lemma PadAppend(s: string, n: nat)
    requires AllDigits(s) && n < 100
    ensures AllDigits(s + Pad2(n)) && Value(s + Pad2(n)) == Value(s) * 100 + n
  {
    DigitDenotes(n / 10);
    DigitDenotes(n % 10);
    ValueAppend(s, Digit(n / 10));
    ValueAppend(s + [Digit(n / 10)], Digit(n % 10));
    assert s + Pad2(n) == s + [Digit(n / 10)] + [Digit(n % 10)];
  }

  lemma Pad2Read(n: nat)
    requires n < 100
    ensures AllDigits(Pad2(n)) && Value(Pad2(n)) == n
  {
    PadAppend("", n);
    assert "" + Pad2(n) == Pad2(n);
  }

  lemma Pad4Read(n: nat)
    requires n < 10000
    ensures AllDigits(Pad4(n)) && |Pad4(n)| == 4 && Value(Pad4(n)) == n
  {
    Pad2Read(n / 100);
    PadAppend(Pad2(n / 100), n % 100);
  }

  lemma DateRead(date: Date, rest: string)
    requires Calendar.Valid(date) && 1900 <= date.year <= 9999
    ensures ReadDate(DateText(date) + rest) == Some(Read(date, rest))
  {
    var t := DateText(date) + rest;
    Pad4Read(date.year);
    Pad2Read(date.month);
    Pad2Read(date.day);
    assert t[0..4] == Pad4(date.year) && t[5..7] == Pad2(date.month) && t[8..10] == Pad2(date.day);
    assert t[4] == '-' && t[7] == '-' && t[10..] == rest;
  }

  lemma ClockRead(clock: Option<Clock>, spaced: bool, rest: string)
    requires clock.Some? ==> ValidClock(clock.value)
    requires !ClockStart(rest)
    ensures ReadClock(ClockText(clock, spaced) + rest)
            == Some(Read(if clock.Some? then clock.value else Midnight, rest))
  {
    var t := ClockText(clock, spaced) + rest;
    if clock.None? {
      assert t == rest;
    } else {
      var c := clock.value;
      Pad2Read(c.hour);
      Pad2Read(c.minute);
      Pad2Read(c.second);
      assert t[1..3] == Pad2(c.hour) && t[4..6] == Pad2(c.minute) && t[7..9] == Pad2(c.second);
      assert ClockStart(t) && t[3] == ':' && t[6] == ':' && t[9..] == rest;
    }
  }

  lemma FractionRead(fraction: Option<string>, rest: string)
    requires fraction.Some? ==> AllDigits(fraction.value)
    requires NonDigitStart(rest) && !CharAt(rest, 0, '.')
    ensures ReadFraction(FractionText(fraction) + rest)
            == Read(if fraction.Some? then Nanos(fraction.value) else 0, rest)
  {
    var t := FractionText(fraction) + rest;
    if fraction.None? {
      assert t == rest;
    } else {
      var ds := fraction.value;
      DigitRunOf(ds, rest);
      assert t[1..] == ds + rest;
      assert (ds + rest)[..|ds|] == ds && (ds + rest)[|ds|..] == rest;
    }
  }

  lemma ZoneRead(zone: Option<Zone>)
    requires zone.Some? ==> ValidZone(zone.value)
    ensures ReadZone(ZoneText(zone)) == Some(OffsetOf(zone))
  {
    if zone.Some? && zone.value.Offset? {
      OffsetRead(zone.value);
    }
  }

  lemma OffsetRead(z: Zone)
    requires z.Offset? && ValidZone(z)
    ensures ReadOffset(ZoneText(Some(z)), if z.west then -1 else 1) == OffsetOf(Some(z))
  {
    var t := ZoneText(Some(z));
    var tail := (if z.colon then ":" else "") + MinutesText(z.minutes);
    Pad2Read(z.hours);
    assert t[1..3] == Pad2(z.hours) && t[3..] == tail;
    MinutesRead(z.colon, z.minutes);
  }

  lemma MinutesRead(colon: bool, minutes: Option<nat>)
    requires minutes.Some? ==> minutes.value <= 59
    ensures ReadMinutes(AfterColon((if colon then ":" else "") + MinutesText(minutes)))
            == Some(if minutes.Some? then minutes.value else 0)
  {
    var text := MinutesText(minutes);
    if minutes.Some? {
      Pad2Read(minutes.value);
      assert text[0..2] == text;
    }
    assert AfterColon((if colon then ":" else "") + text) == text;
  }

  lemma ZoneStarts(zone: Option<Zone>)
    requires zone.Some? ==> ValidZone(zone.value)
    ensures var t := ZoneText(zone); t != "" ==> t[0] in {'Z', 'z', '+', '-'}
  {
  }

  /** Every well-formed spelling is accepted, and read as what it means. */
  lemma RenderRead(x: Spelling)
    requires WellFormed(x)
    ensures Parse(Render(x)) == Some(Meaning(x))
  {
    var rest := ClockText(x.clock, x.spaced) + (FractionText(x.fraction) + ZoneText(x.zone));
    DateRead(x.date, rest);
    RestRead(x);
  }

  lemma RestRead(x: Spelling)
    requires WellFormed(x)
    ensures ReadRest(x.date, ClockText(x.clock, x.spaced) + (FractionText(x.fraction) + ZoneText(x.zone)))
            == Some(Meaning(x))
  {
    var z := ZoneText(x.zone);
    var fz := FractionText(x.fraction) + z;
    ZoneStarts(x.zone);
    assert x.fraction.None? ==> fz == z;
    ClockRead(x.clock, x.spaced, fz);
    FractionRead(x.fraction, z);
    ZoneRead(x.zone);
  }

  // ----- Every accepted text is such a spelling -----

  lemma DigitSpelled(c: char)
    requires IsDigit(c)
    ensures DigitValue(c) < 10 && Digit(DigitValue(c)) == c
  {
  }

  lemma Pad2Splits(a: nat, b: nat)
    requires a < 10 && b < 10
    ensures Pad2(a * 10 + b) == [Digit(a), Digit(b)]
  {
    assert (a * 10 + b) / 10 == a && (a * 10 + b) % 10 == b;
  }

  lemma Pad4Splits(a: nat, b: nat)
    requires a < 100 && b < 100
    ensures Pad4(a * 100 + b) == Pad2(a) + Pad2(b)
  {
    assert (a * 100 + b) / 100 == a && (a * 100 + b) % 100 == b;
  }

  lemma TwoDigits(t: string)
    requires |t| == 2 && AllDigits(t)
    ensures Value(t) < 100 && Pad2(Value(t)) == t
  {
    DigitSpelled(t[0]);
    DigitSpelled(t[1]);
    var a, b := DigitValue(t[0]), DigitValue(t[1]);
    Pad2Splits(a, b);
    Pad2Read(a * 10 + b);
    assert t == [t[0], t[1]];
  }

  lemma FourDigits(t: string)
    requires |t| == 4 && AllDigits(t)
    ensures Value(t) < 10000 && Pad4(Value(t)) == t
  {
    TwoDigits(t[..2]);
    TwoDigits(t[2..]);
    var a, b := Value(t[..2]), Value(t[2..]);
    Pad4Splits(a, b);
    Pad4Read(a * 100 + b);
    assert t == t[..2] + t[2..];
  }

  lemma NumberSpelled(t: string, p: nat)
    requires DigitsAt(t, p, 2)
    ensures NumberAt(t, p, 2) < 100 && Pad2(NumberAt(t, p, 2)) == t[p..p + 2]
  {
    TwoDigits(t[p..p + 2]);
  }

  lemma DateSpelled(t: string)
    requires DateShape(t) && Calendar.Valid(ReadDate(t).value.part) && ReadDate(t).value.part.year >= 1900
    ensures ReadDate(t).value.part.year <= 9999 && t == DateText(ReadDate(t).value.part) + t[10..]
  {
    FourDigits(t[0..4]);
    NumberSpelled(t, 5);
    NumberSpelled(t, 8);
    assert t == t[0..4] + [t[4]] + t[5..7] + [t[7]] + t[8..10] + t[10..];
  }

  lemma ClockSpelled(t: string) returns (clock: Option<Clock>, spaced: bool)
    requires ReadClock(t).Some? && ValidClock(ReadClock(t).value.part)
    ensures clock.Some? ==> ValidClock(clock.value)
    ensures t == ClockText(clock, spaced) + ReadClock(t).value.rest
  {
    if ClockStart(t) {
      clock, spaced := Some(ReadClock(t).value.part), t[0] == ' ';
      NumberSpelled(t, 1);
      NumberSpelled(t, 4);
      NumberSpelled(t, 7);
      ClockSplits(t);
    } else {
      clock, spaced := None, false;
      assert t == "" + t;
    }
  }

  lemma ClockSplits(t: string)
    requires |t| >= 9
    ensures t == [t[0]] + t[1..3] + [t[3]] + t[4..6] + [t[6]] + t[7..9] + t[9..]
  {
  }

  lemma FractionSpelled(t: string) returns (fraction: Option<string>)
    ensures fraction.Some? ==> AllDigits(fraction.value)
    ensures t == FractionText(fraction) + ReadFraction(t).rest
  {
    if CharAt(t, 0, '.') {
      DigitRunDigits(t[1..]);
      fraction := Some(t[1..][..DigitRun(t[1..])]);
      assert t == "." + t[1..];
      assert t[1..] == fraction.value + t[1..][DigitRun(t[1..])..];
    } else {
      fraction := None;
      assert t == "" + t;
    }
  }

  lemma MinutesSpelled(t: string) returns (minutes: Option<nat>)
    requires ReadMinutes(t).Some? && ReadMinutes(t).value <= 59
    ensures (minutes.Some? ==> minutes.value <= 59) && MinutesText(minutes) == t
  {
    if t == "" {
      minutes := None;
    } else {
      minutes := Some(ReadMinutes(t).value);
      NumberSpelled(t, 0);
      assert t[0..2] == t;
    }
  }

  lemma ZoneSpelled(t: string) returns (zone: Option<Zone>)
    requires ReadZone(t).Some?
    ensures (zone.Some? ==> ValidZone(zone.value)) && ZoneText(zone) == t
  {
    if t == "" {
      zone := None;
    } else if t == "Z" || t == "z" {
      zone := Some(Utc(t == "z"));
    } else {
      zone := OffsetSpelled(t, if t[0] == '+' then 1 else -1);
    }
  }

  lemma OffsetSpelled(t: string, sign: int) returns (zone: Option<Zone>)
    requires t != "" && (t[0] == '+' || t[0] == '-') && ReadOffset(t, sign).Some?
    ensures (zone.Some? ==> ValidZone(zone.value)) && ZoneText(zone) == t
  {
    var tail := t[3..];
    var colon := CharAt(tail, 0, ':');
    var minutes := MinutesSpelled(AfterColon(tail));
    NumberSpelled(t, 1);
    zone := Some(Offset(t[0] == '-', NumberAt(t, 1, 2), colon, minutes));
    SignSpelled(t);
    ColonSpelled(tail);
  }

  lemma SignSpelled(t: string)
    requires |t| >= 3 && (t[0] == '+' || t[0] == '-')
    ensures t == (if t[0] == '-' then "-" else "+") + t[1..3] + t[3..]
  {
  }

  lemma ColonSpelled(t: string)
    ensures t == (if CharAt(t, 0, ':') then ":" else "") + AfterColon(t)
  {
  }

  /** Every accepted text is a well-formed spelling: the parser accepts nothing else. */
  lemma AcceptedSpelled(s: string) returns (x: Spelling)
    requires Parse(s).Some?
    ensures WellFormed(x) && Render(x) == s && Parse(s) == Some(Meaning(x))
  {
    var date := ReadDate(s).value;
    DateSpelled(s);
    var clock, spaced := ClockSpelled(date.rest);
    var t := ReadClock(date.rest).value.rest;
    var fraction := FractionSpelled(t);
    var zone := ZoneSpelled(ReadFraction(t).rest);
    x := Spelling(date.part, clock, spaced, fraction, zone);
    RenderRead(x);
  }

  // ----- Instants -----

  /** A text with a zone yields the instant that the calendar counts for it. */
  lemma ZonedInstant(x: Spelling, local: (Date, Clock) -> Option<int>)
    requires WellFormed(x) && x.zone.Some?
    ensures TryParse(Render(x), local) == Some(Wrap64(Instant(Meaning(x))))
  {
    RenderRead(x);
    TimestampCounts(Meaning(x), local);
  }

  lemma TimestampCounts(f: Fields, local: (Date, Clock) -> Option<int>)
    requires Accepted(f) && f.zone.Some?
    ensures Timestamp(f, local) == Some(Wrap64(Instant(f)))
  {
    CivilCountsDays(f.date);
  }

  /** A text without a zone is what the host makes of its date and clock, with the fraction added. */
  lemma LocalInstant(x: Spelling, local: (Date, Clock) -> Option<int>)
    requires WellFormed(x) && x.zone.None?
    ensures var seconds := local(x.date, if x.clock.Some? then x.clock.value else Midnight);
            TryParse(Render(x), local)
            == if seconds.None? then None
               else Some(Wrap64(seconds.value * Billion + if x.fraction.Some? then Nanos(x.fraction.value) else 0))
  {
    RenderRead(x);
  }

  function NextClock(c: Clock): Clock {
    if c.second < 59 then Clock(c.hour, c.minute, c.second + 1)
    else if c.minute < 59 then Clock(c.hour, c.minute + 1, 0)
    else Clock(c.hour + 1, 0, 0)
  }

  /** The seconds of a day are counted from midnight, one by one. */
  lemma SecondsCount(c: Clock)
    requires ValidClock(c)
    ensures Seconds(NextClock(c)) == Seconds(c) + 1
  {
  }

  lemma SecondsStart()
    ensures Seconds(Midnight) == 0
  {
  }

  /** Texts that denote the same instant give the same timestamp, whatever their zones; within
      the range of the clock, only those do, and earlier instants give smaller timestamps. */
  lemma SameInstant(x: Spelling, y: Spelling, local: (Date, Clock) -> Option<int>)
    requires WellFormed(x) && x.zone.Some? && WellFormed(y) && y.zone.Some?
    ensures Instant(Meaning(x)) == Instant(Meaning(y)) ==> TryParse(Render(x), local) == TryParse(Render(y), local)
    ensures Fits64(Instant(Meaning(x))) && Fits64(Instant(Meaning(y))) ==>
              && (TryParse(Render(x), local) == TryParse(Render(y), local) ==> Instant(Meaning(x)) == Instant(Meaning(y)))
              && Earlier(TryParse(Render(x), local), TryParse(Render(y), local), Instant(Meaning(x)) < Instant(Meaning(y)))
  {
    ZonedInstant(x, local);
    ZonedInstant(y, local);
    WrapExact(Instant(Meaning(x)));
    WrapExact(Instant(Meaning(y)));
  }

  /** Both timestamps exist, and the first is the smaller exactly if `expected`. */
  predicate Earlier(a: Option<int>, b: Option<int>, expected: bool) {
    a.Some? && b.Some? && (a.value < b.value <==> expected)
  }

  lemma WrapExact(x: int)
    ensures Fits64(Wrap64(x)) && (Wrap64(x) == x <==> Fits64(x))
  {
  }

  function Pow10(k: nat): nat { if k == 0 then 1 else 10 * Pow10(k - 1) }

  lemma {:induction false} ValueBound(s: string)
    requires AllDigits(s)
    ensures Value(s) < Pow10(|s|)
  {
    if s != "" {
      ValueBound(s[..|s| - 1]);
    }
  }

  lemma {:induction false} PaddedBound(v: nat, k: nat)
    requires k <= 9 && v < Pow10(9 - k)
    ensures Padded(v, k) < Pow10(9)
    decreases k
  {
    if k > 0 {
      PaddedBound(v * 10, k - 1);
    }
  }

  lemma {:induction false} PaddedScales(v: nat, k: nat)
    ensures Padded(v, k) == v * Pow10(k)
    decreases k
  {
    if k > 0 {
      PaddedScales(v * 10, k - 1);
    }
  }

  /** A fraction is its digits as a part of a second; digits beyond the ninth are cut. */
  lemma NanosMeans(ds: string)
    requires AllDigits(ds)
    ensures |ds| <= 9 ==> Nanos(ds) == Value(ds) * Pow10(9 - |ds|)
    ensures |ds| > 9 ==> Nanos(ds) == Nanos(ds[..9])
    ensures Pow10(9) == Billion
  {
    if |ds| < 9 {
      PaddedScales(Value(ds), 9 - |ds|);
    } else if |ds| == 9 {
      assert ds[..9] == ds;
    } else {
      assert ds[..9][..9] == ds[..9];
    }
    assert Pow10(9) == 1000 * Pow10(6) && Pow10(6) == 1000 * Pow10(3);
  }

  lemma NanosBound(ds: string)
    requires AllDigits(ds)
    ensures Nanos(ds) < Billion
  {
    if |ds| >= 9 {
      ValueBound(ds[..9]);
    } else {
      ValueBound(ds);
      PaddedBound(Value(ds), 9 - |ds|);
    }
    assert Pow10(9) == 1000 * Pow10(6) && Pow10(6) == 1000 * Pow10(3);
  }

  lemma YearStarts()
    ensures DaysToYear(1900) == -25567 && DaysToYear(2262) == 106651 && DaysToYear(2263) == 107016
  {
    MarchCounted(1900);
    MarchCounted(2262);
    MarchCounted(2263);
  }

  lemma YearRange(date: Date)
    requires Calendar.Valid(date)
    ensures 1900 <= date.year <= 2261 ==> -25567 <= CountedDays(date) < 106651
    ensures date.year >= 2263 ==> CountedDays(date) >= 107016
  {
    WithinYear(date);
    YearStarts();
    if 1900 <= date.year <= 2261 {
      YearsOrdered(1900, date.year);
      YearsOrdered(date.year + 1, 2262);
    } else if date.year >= 2263 {
      YearsOrdered(2263, date.year);
    }
  }

  lemma InstantRange(days: int, clock: Clock, offset: int, nanos: nat)
    requires ValidClock(clock) && -86400 < offset < 86400 && nanos < Billion
    ensures -25567 <= days < 106651 ==> Fits64(Nanoseconds(days, clock, offset, nanos))
    ensures days >= 107016 ==> !Fits64(Nanoseconds(days, clock, offset, nanos))
  {
  }

  lemma OffsetRange(zone: Zone)
    requires ValidZone(zone)
    ensures -86400 < OffsetOf(Some(zone)).value < 86400
  {
  }

  /** Up to the year 2261 the timestamp is the exact instant; from 2263 on it never is. */
  lemma ExactYears(x: Spelling, local: (Date, Clock) -> Option<int>)
    requires WellFormed(x) && x.zone.Some?
    ensures TryParse(Render(x), local) == Some(Instant(Meaning(x))) <==> Fits64(Instant(Meaning(x)))
    ensures x.date.year <= 2261 ==> Fits64(Instant(Meaning(x)))
    ensures x.date.year >= 2263 ==> !Fits64(Instant(Meaning(x)))
  {
    ZonedInstant(x, local);
    WrapExact(Instant(Meaning(x)));
    YearRange(x.date);
    OffsetRange(x.zone.value);
    if x.fraction.Some? {
      NanosBound(x.fraction.value);
    }
    var f := Meaning(x);
    InstantRange(CountedDays(f.date), f.clock, f.zone.value, f.nanos);
  }
}
