// The ISO 8601 / RFC 3339 timestamp parser (libtransmission-app/converters.cc)
// on top of the civil calendar.
module Timestamp {
  import opened Options
  import opened Text
  import opened Calendar

  const INT_MAX := 0x7fff_ffff

  predicate IsDigit(c: char) {
    '0' <= c <= '9'
  }

  predicate AllDigits(s: string) {
    forall i :: 0 <= i < |s| ==> IsDigit(s[i])
  }

  function DigitValue(c: char): nat
    requires IsDigit(c)
  {
    c as int - '0' as int
  }

  function Value(s: string): nat
    requires AllDigits(s)
  {
    if s == "" then 0 else 10 * Value(s[..|s| - 1]) + DigitValue(s[|s| - 1])
  }

  // The longest prefix made of digits.
  function DigitPrefix(s: string): (r: string)
    ensures r <= s && AllDigits(r)
    ensures |r| < |s| ==> !IsDigit(s[|r|])
  {
    if s == "" || !IsDigit(s[0]) then "" else [s[0]] + DigitPrefix(s[1..])
  }

  // tr_num_parse<int>() in base 10, which is std::from_chars without a look at
  // what follows the number: "7x" is 7 and "-0" is 0, " 7" and "+7" are errors.
  function NumParse(s: string): Option<int> {
    var negative := s != "" && s[0] == '-';
    var digits := DigitPrefix(if negative then s[1..] else s);
    var v: int := if negative then 0 - Value(digits) else Value(digits);
    if digits == "" || !(-INT_MAX - 1 <= v <= INT_MAX) then None else Some(v)
  }

  // parse_int() inside parse_sys_seconds()
  function ParseInt(token: string, min: int, max: int): (r: Option<int>)
    ensures r.Some? ==> min <= r.value <= max
  {
    var v :- NumParse(token);
    if min <= v <= max then Some(v) else None
  }

  predicate HasLayout(sv: string) {
    && (|sv| == 20 || |sv| == 24 || |sv| == 25)
    && sv[4] == '-' && sv[7] == '-' && sv[10] == 'T' && sv[13] == ':' && sv[16] == ':'
  }

  function ParseDate(sv: string): Option<YearMonthDay>
    requires HasLayout(sv)
  {
    var year :- ParseInt(sv[0..4], 0, 9999);
    var month :- ParseInt(sv[5..7], 1, 12);
    var day :- ParseInt(sv[8..10], 1, 31);
    var ymd := MakeDate(year, month, day);
    if ymd.valid then Some(ymd) else None
  }

  // Seconds since midnight.
  function ParseTime(sv: string): Option<int>
    requires HasLayout(sv)
  {
    var hour :- ParseInt(sv[11..13], 0, 23);
    var minute :- ParseInt(sv[14..16], 0, 59);
    var second :- ParseInt(sv[17..19], 0, 59);
    Some(hour * 3600 + minute * 60 + second)
  }

  // Minutes east of Greenwich.
  function ParseOffset(sv: string): Option<int>
    requires HasLayout(sv)
  {
    if |sv| == 20 then (if sv[19] == 'Z' then Some(0) else None)
    else if (sv[19] != '+' && sv[19] != '-') || (|sv| == 25 && sv[22] != ':') then None
    else
      var hours :- ParseInt(sv[20..22], 0, 23);
      var minutes :- ParseInt(sv[|sv| - 2..], 0, 59);
      Some(if sv[19] == '-' then -(hours * 60 + minutes) else hours * 60 + minutes)
  }

  // A day, the seconds since its midnight, and the minutes east of Greenwich.
  datatype Parts = Parts(date: YearMonthDay, time: int, offset: int)

  function ParseParts(sv: string): Option<Parts> {
    if !HasLayout(sv) then None
    else
      var ymd :- ParseDate(sv);
      var time :- ParseTime(sv);
      var offset :- ParseOffset(sv);
      Some(Parts(ymd, time, offset))
  }

  function SecondsOf(p: Parts): int {
    SysDays(p.date) * 86400 + p.time - p.offset * 60
  }

  function ParseStripped(sv: string): Option<int> {
    var parts :- ParseParts(sv);
    Some(SecondsOf(parts))
  }

  // parse_sys_seconds(): seconds since 1970-01-01T00:00:00Z.
  function Parse(str: string): Option<int> {
    ParseStripped(Strip(str))
  }

  // ----- what a timestamp is

  datatype Zone =
    | Zulu                                                                // Z
    | Offset(east: bool, hours: nat, minutes: nat, colon: bool)           // +hhmm or +hh:mm

  datatype Stamp = Stamp(year: nat, month: nat, day: nat, hour: nat, minute: nat, second: nat, zone: Zone)

  predicate Ok(t: Stamp) {
    && t.year <= 9999 && IsCivilDate(t.year, t.month, t.day)
    && t.hour <= 23 && t.minute <= 59 && t.second <= 59
    && (t.zone.Offset? ==> t.zone.hours <= 23 && t.zone.minutes <= 59)
  }

  function Pad(n: nat, width: nat): (r: string)
    ensures |r| == width && AllDigits(r)
  {
    if width == 0 then "" else Pad(n / 10, width - 1) + [(n % 10 + '0' as int) as char]
  }

  function PrintZone(z: Zone): string {
    match z
    case Zulu => "Z"
    case Offset(east, h, m, colon) =>
      (if east then "+" else "-") + Pad(h, 2) + (if colon then ":" else "") + Pad(m, 2)
  }

  function Print(t: Stamp): string {
    Pad(t.year, 4) + "-" + Pad(t.month, 2) + "-" + Pad(t.day, 2) + "T"
    + Pad(t.hour, 2) + ":" + Pad(t.minute, 2) + ":" + Pad(t.second, 2) + PrintZone(t.zone)
  }

  // Minutes east of Greenwich.
  function ZoneMinutes(z: Zone): int {
    match z
    case Zulu => 0
    case Offset(east, h, m, _) => if east then h * 60 + m else -(h * 60 + m)
  }

  // The instant a timestamp names, by naive day counting.
  ghost function Instant(t: Stamp): int
    requires Ok(t)
  {
    NaiveDays(t.year, t.month, t.day) * 86400 + t.hour * 3600 + t.minute * 60 + t.second
    - ZoneMinutes(t.zone) * 60
  }

  ghost predicate IsTimestamp(sv: string) {
    exists t: Stamp :: Ok(t) && sv == Print(t)
  }

  // Every numeric field consists of digits only.
  predicate DigitFields(sv: string)
    requires HasLayout(sv)
  {
    && AllDigits(sv[0..4]) && AllDigits(sv[5..7]) && AllDigits(sv[8..10])
    && AllDigits(sv[11..13]) && AllDigits(sv[14..16]) && AllDigits(sv[17..19])
    && (|sv| > 20 ==> AllDigits(sv[20..22]) && AllDigits(sv[|sv| - 2..]))
  }

  // ----- proofs

  lemma {:induction false} DigitPrefixOfDigits(s: string)
    requires AllDigits(s)
    ensures DigitPrefix(s) == s
  {
    if s != "" {
      DigitPrefixOfDigits(s[1..]);
    }
  }

  lemma {:induction false} ValueBound(s: string)
    requires AllDigits(s) && |s| <= 4
    ensures Value(s) < 10000
    ensures |s| <= 3 ==> Value(s) < 1000
    ensures |s| <= 2 ==> Value(s) < 100
    ensures |s| <= 1 ==> Value(s) < 10
    ensures |s| == 0 ==> Value(s) == 0
  {
    if s != "" {
      ValueBound(s[..|s| - 1]);
    }
  }

  lemma NumParseDigits(s: string)
    requires AllDigits(s) && 1 <= |s| <= 4
    ensures NumParse(s) == Some(Value(s))
  {
    DigitPrefixOfDigits(s);
    ValueBound(s);
    assert IsDigit(s[0]);
  }

  lemma {:induction false} ValueOfPad(n: nat, width: nat)
    requires width <= 4
    requires width == 0 ==> n == 0
    requires width == 1 ==> n < 10
    requires width == 2 ==> n < 100
    requires width == 3 ==> n < 1000
    requires width == 4 ==> n < 10000
    ensures Value(Pad(n, width)) == n
  {
    if width > 0 {
      ValueOfPad(n / 10, width - 1);
      var p := Pad(n, width);
      assert p[..width - 1] == Pad(n / 10, width - 1);
      assert DigitValue(p[width - 1]) == n % 10;
    }
  }

  lemma {:induction false} PadOfValue(s: string)
    requires AllDigits(s)
    ensures Pad(Value(s), |s|) == s
  {
    if s != "" {
      var init := s[..|s| - 1];
      PadOfValue(init);
      assert Value(s) / 10 == Value(init) && Value(s) % 10 == DigitValue(s[|s| - 1]);
    }
  }

  lemma PadParses(n: nat, width: nat, token: string, min: int, max: int)
    requires token == Pad(n, width) && (width == 2 || width == 4)
    requires n < if width == 2 then 100 else 10000
    ensures ParseInt(token, min, max) == if min <= n <= max then Some(n) else None
  {
    NumParseDigits(token);
    ValueOfPad(n, width);
  }

  // Where each field of a printed timestamp is.
  lemma PrintLayout(t: Stamp)
    ensures var sv := Print(t);
            && HasLayout(sv) && Stripped(sv)
            && sv[0..4] == Pad(t.year, 4) && sv[5..7] == Pad(t.month, 2) && sv[8..10] == Pad(t.day, 2)
            && sv[11..13] == Pad(t.hour, 2) && sv[14..16] == Pad(t.minute, 2) && sv[17..19] == Pad(t.second, 2)
            && sv[19..] == PrintZone(t.zone)
  {
    var sv := Print(t);
    var d := Pad(t.year, 4) + "-" + Pad(t.month, 2) + "-" + Pad(t.day, 2);
    var h := Pad(t.hour, 2) + ":" + Pad(t.minute, 2) + ":" + Pad(t.second, 2);
    assert sv == d + "T" + h + PrintZone(t.zone);
    assert |d| == 10 && |h| == 8;
    assert sv[0..10] == d && sv[11..19] == h && sv[19..] == PrintZone(t.zone);
    assert d[0..4] == Pad(t.year, 4) && d[5..7] == Pad(t.month, 2) && d[8..10] == Pad(t.day, 2);
    assert h[0..2] == Pad(t.hour, 2) && h[3..5] == Pad(t.minute, 2) && h[6..8] == Pad(t.second, 2);
    assert sv[0..4] == d[0..4] && sv[5..7] == d[5..7] && sv[8..10] == d[8..10];
    assert sv[11..13] == h[0..2] && sv[14..16] == h[3..5] && sv[17..19] == h[6..8];
    assert IsDigit(sv[0..4][0]);
    var z := PrintZone(t.zone);
    assert sv[|sv| - 1] == z[|z| - 1];
    if t.zone.Offset? {
      assert z[|z| - 1] == Pad(t.zone.minutes, 2)[1];
    }
  }

  lemma ZoneLayout(z: Zone)
    requires z.Offset?
    ensures var s := PrintZone(z);
            && |s| == (if z.colon then 6 else 5) && s[0] == (if z.east then '+' else '-')
            && s[1..3] == Pad(z.hours, 2) && s[|s| - 2..] == Pad(z.minutes, 2)
            && (z.colon ==> s[3] == ':')
  {
  }

  // The three parts of a printed timestamp, read back.
  lemma DatePrinted(t: Stamp)
    requires Ok(t)
    ensures HasLayout(Print(t)) && ParseDate(Print(t)) == Some(MakeDate(t.year, t.month, t.day))
  {
    PrintLayout(t);
    var sv := Print(t);
    PadParses(t.year, 4, sv[0..4], 0, 9999);
    PadParses(t.month, 2, sv[5..7], 1, 12);
    PadParses(t.day, 2, sv[8..10], 1, 31);
    DateFrom(sv, t.year, t.month, t.day);
  }

  lemma DateFrom(sv: string, year: nat, month: nat, day: nat)
    requires HasLayout(sv) && IsCivilDate(year, month, day)
    requires ParseInt(sv[0..4], 0, 9999) == Some(year) && ParseInt(sv[5..7], 1, 12) == Some(month)
    requires ParseInt(sv[8..10], 1, 31) == Some(day)
    ensures ParseDate(sv) == Some(MakeDate(year, month, day))
  {
  }

  lemma TimeFrom(sv: string, hour: nat, minute: nat, second: nat)
    requires HasLayout(sv)
    requires ParseInt(sv[11..13], 0, 23) == Some(hour) && ParseInt(sv[14..16], 0, 59) == Some(minute)
    requires ParseInt(sv[17..19], 0, 59) == Some(second)
    ensures ParseTime(sv) == Some(hour * 3600 + minute * 60 + second)
  {
  }

  lemma TimePrinted(t: Stamp)
    requires Ok(t)
    ensures HasLayout(Print(t)) && ParseTime(Print(t)) == Some(t.hour * 3600 + t.minute * 60 + t.second)
  {
    PrintLayout(t);
    var sv := Print(t);
    PadParses(t.hour, 2, sv[11..13], 0, 23);
    PadParses(t.minute, 2, sv[14..16], 0, 59);
    PadParses(t.second, 2, sv[17..19], 0, 59);
    TimeFrom(sv, t.hour, t.minute, t.second);
  }

  lemma OffsetParses(sv: string, z: Zone)
    requires HasLayout(sv) && |sv| > 20 && z.Offset? && z.hours <= 23 && z.minutes <= 59
    requires sv[19] == (if z.east then '+' else '-') && (|sv| == 25 ==> sv[22] == ':')
    requires sv[20..22] == Pad(z.hours, 2) && sv[|sv| - 2..] == Pad(z.minutes, 2)
    ensures ParseOffset(sv) == Some(ZoneMinutes(z))
  {
    PadParses(z.hours, 2, sv[20..22], 0, 23);
    PadParses(z.minutes, 2, sv[|sv| - 2..], 0, 59);
  }

  lemma OffsetPrinted(t: Stamp)
    requires Ok(t)
    ensures HasLayout(Print(t)) && ParseOffset(Print(t)) == Some(ZoneMinutes(t.zone))
  {
    PrintLayout(t);
    if t.zone.Offset? {
      OffsetLayout(t);
      OffsetParses(Print(t), t.zone);
    } else {
      ZuluParses(Print(t));
    }
  }

  lemma ZuluParses(sv: string)
    requires HasLayout(sv) && sv[19..] == "Z"
    ensures ParseOffset(sv) == Some(0)
  {
    assert sv[19] == sv[19..][0] && |sv| == 20;
  }

  lemma OffsetLayout(t: Stamp)
    requires t.zone.Offset?
    ensures var sv := Print(t);
            && |sv| == (if t.zone.colon then 25 else 24)
            && sv[19] == (if t.zone.east then '+' else '-')
            && sv[20..22] == Pad(t.zone.hours, 2) && sv[|sv| - 2..] == Pad(t.zone.minutes, 2)
            && (t.zone.colon ==> sv[22] == ':')
  {
    PrintLayout(t);
    ZoneLayout(t.zone);
    var sv, z := Print(t), PrintZone(t.zone);
    assert sv[19..] == z && sv[19] == z[0];
    assert sv[20..22] == z[1..3] && sv[|sv| - 2..] == z[|z| - 2..];
    assert t.zone.colon ==> sv[22] == z[3];
  }

  // Main result: whatever white space surrounds it, every printed timestamp
  // parses to the instant of its local fields minus its offset.
  lemma ParsePrinted(t: Stamp, pre: string, post: string)
    requires Ok(t) && AllSpace(pre) && AllSpace(post)
    ensures Parse(pre + Print(t) + post) == Some(Instant(t))
    ensures var east := match t.zone
                        case Zulu => 0
                        case Offset(east, h, m, _) => if east then h * 60 + m else -(h * 60 + m);
            Instant(t)
            == NaiveDays(t.year, t.month, t.day) * 86400 + t.hour * 3600 + t.minute * 60 + t.second - east * 60
  {
    PrintLayout(t);
    StripPadded(pre, Print(t), post);
    StrippedPrinted(t);
  }

  function PartsOf(t: Stamp): Parts {
    Parts(MakeDate(t.year, t.month, t.day), t.hour * 3600 + t.minute * 60 + t.second, ZoneMinutes(t.zone))
  }

  lemma SecondsOfParts(t: Stamp)
    requires Ok(t)
    ensures SecondsOf(PartsOf(t)) == Instant(t)
  {
    SysDaysIsNaiveCount(t.year, t.month, t.day);
  }

  lemma StrippedPrinted(t: Stamp)
    requires Ok(t)
    ensures ParseStripped(Print(t)) == Some(Instant(t))
  {
    DatePrinted(t);
    TimePrinted(t);
    OffsetPrinted(t);
    Assemble(Print(t), t);
  }

  lemma Assemble(sv: string, t: Stamp)
    requires HasLayout(sv) && Ok(t)
    requires ParseDate(sv) == Some(MakeDate(t.year, t.month, t.day))
    requires ParseTime(sv) == Some(t.hour * 3600 + t.minute * 60 + t.second)
    requires ParseOffset(sv) == Some(ZoneMinutes(t.zone))
    ensures ParseStripped(sv) == Some(Instant(t))
  {
    FromParts(sv, PartsOf(t));
    SecondsOfParts(t);
  }

  lemma FromParts(sv: string, p: Parts)
    requires HasLayout(sv)
    requires ParseDate(sv) == Some(p.date) && ParseTime(sv) == Some(p.time) && ParseOffset(sv) == Some(p.offset)
    ensures ParseParts(sv) == Some(p)
  {
  }

  // All spellings of one instant agree, and no two instants are confused.
  lemma SpellingsAgree(a: Stamp, b: Stamp)
    requires Ok(a) && Ok(b)
    ensures Instant(a) == Instant(b) <==> Parse(Print(a)) == Parse(Print(b))
  {
    PrintLayout(a);
    PrintLayout(b);
    StripStripped(Print(a));
    StripStripped(Print(b));
    StrippedPrinted(a);
    StrippedPrinted(b);
  }

  function ReadZone(sv: string): Zone
    requires HasLayout(sv) && DigitFields(sv)
  {
    if |sv| == 20 then Zulu
    else Offset(sv[19] == '+', Value(sv[20..22]), Value(sv[|sv| - 2..]), |sv| == 25)
  }

  function ReadStamp(sv: string): Stamp
    requires HasLayout(sv) && DigitFields(sv)
  {
    Stamp(Value(sv[0..4]), Value(sv[5..7]), Value(sv[8..10]),
          Value(sv[11..13]), Value(sv[14..16]), Value(sv[17..19]), ReadZone(sv))
  }

  lemma ReadZonePrints(sv: string)
    requires HasLayout(sv) && DigitFields(sv) && ParseOffset(sv).Some?
    ensures PrintZone(ReadZone(sv)) == sv[19..]
    ensures ReadZone(sv).Offset? ==> ReadZone(sv).hours <= 23 && ReadZone(sv).minutes <= 59
  {
    if |sv| > 20 {
      var hh, mm := sv[20..22], sv[|sv| - 2..];
      NumParseDigits(hh);
      NumParseDigits(mm);
      PadOfValue(hh);
      PadOfValue(mm);
      SplitOffset(sv);
    }
  }

  lemma SplitOffset(sv: string)
    requires HasLayout(sv) && |sv| > 20
    ensures sv[19..] == [sv[19]] + sv[20..22] + (if |sv| == 25 then [sv[22]] else "") + sv[|sv| - 2..]
  {
  }

  lemma ReadDateOk(sv: string)
    requires HasLayout(sv) && DigitFields(sv) && ParseDate(sv).Some? && ParseTime(sv).Some?
    ensures var t := ReadStamp(sv);
            && t.year <= 9999 && IsCivilDate(t.year, t.month, t.day)
            && t.hour <= 23 && t.minute <= 59 && t.second <= 59
  {
    NumParseDigits(sv[0..4]);
    NumParseDigits(sv[5..7]);
    NumParseDigits(sv[8..10]);
    NumParseDigits(sv[11..13]);
    NumParseDigits(sv[14..16]);
    NumParseDigits(sv[17..19]);
  }

  // A text the parser accepts, with digits in its fields, is a printed timestamp.
  lemma AcceptedDigitsPrint(sv: string)
    requires HasLayout(sv) && DigitFields(sv) && ParseStripped(sv).Some?
    ensures Ok(ReadStamp(sv)) && sv == Print(ReadStamp(sv))
  {
    var t := ReadStamp(sv);
    ReadDateOk(sv);
    ReadZonePrints(sv);
    PadOfValue(sv[0..4]);
    PadOfValue(sv[5..7]);
    PadOfValue(sv[8..10]);
    PadOfValue(sv[11..13]);
    PadOfValue(sv[14..16]);
    PadOfValue(sv[17..19]);
    PrintLayout(t);
    SamePieces(sv, Print(t));
  }

  lemma SamePieces(a: string, b: string)
    requires HasLayout(a) && HasLayout(b)
    requires a[0..4] == b[0..4] && a[5..7] == b[5..7] && a[8..10] == b[8..10]
    requires a[11..13] == b[11..13] && a[14..16] == b[14..16] && a[17..19] == b[17..19]
    requires a[19..] == b[19..]
    ensures a == b
  {
    assert a[..19] == a[0..4] + "-" + a[5..7] + "-" + a[8..10] + "T" + a[11..13] + ":" + a[14..16] + ":" + a[17..19];
    assert b[..19] == b[0..4] + "-" + b[5..7] + "-" + b[8..10] + "T" + b[11..13] + ":" + b[14..16] + ":" + b[17..19];
    assert a == a[..19] + a[19..] && b == b[..19] + b[19..];
  }

  lemma PrintedDigits(t: Stamp)
    ensures HasLayout(Print(t)) && DigitFields(Print(t))
  {
    PrintLayout(t);
    if t.zone.Offset? {
      OffsetLayout(t);
    }
  }

  // Acceptance does not imply well-formedness (see LenientWitness). The exact
  // condition: an accepted text is a timestamp if and only if all its numeric
  // fields are digits.
  lemma AcceptedIsTimestampIffDigits(str: string)
    requires Parse(str).Some?
    ensures HasLayout(Strip(str))
    ensures IsTimestamp(Strip(str)) <==> DigitFields(Strip(str))
  {
    var sv := Strip(str);
    if DigitFields(sv) {
      AcceptedDigitsPrint(sv);
    }
    forall t: Stamp | Ok(t) && sv == Print(t)
      ensures DigitFields(sv)
    {
      PrintedDigits(t);
    }
  }

  // On texts with digit fields, the parser accepts exactly the timestamps.
  lemma AcceptsExactlyTimestamps(str: string)
    requires HasLayout(Strip(str)) && DigitFields(Strip(str))
    ensures Parse(str).Some? <==> IsTimestamp(Strip(str))
  {
    var sv := Strip(str);
    if Parse(str).Some? {
      AcceptedDigitsPrint(sv);
    }
    forall t: Stamp | Ok(t) && sv == Print(t)
      ensures Parse(str).Some?
    {
      StrippedPrinted(t);
    }
  }

  // A malformed month: "1x" is read as 1, so the text is accepted as January 15.
  lemma LenientWitness()
    ensures var s := "2024-1x-15T00:00:00Z";
            && Parse(s) == Some(Instant(Stamp(2024, 1, 15, 0, 0, 0, Zulu)))
            && !IsTimestamp(Strip(s))
  {
    var s := "2024-1x-15T00:00:00Z";
    StripStripped(s);
    LenientFields(s);
    Assemble(s, Stamp(2024, 1, 15, 0, 0, 0, Zulu));
    AcceptedIsTimestampIffDigits(s);
  }

  lemma LenientFields(s: string)
    requires s == "2024-1x-15T00:00:00Z"
    ensures HasLayout(s) && !DigitFields(s)
    ensures ParseDate(s) == Some(MakeDate(2024, 1, 15))
    ensures ParseTime(s) == Some(0) && ParseOffset(s) == Some(0)
  {
    assert s[4] == '-' && s[7] == '-' && s[10] == 'T' && s[13] == ':' && s[16] == ':';
    assert !IsDigit(s[5..7][1]);
    LenientDate(s);
    Midnight(s);
  }

  lemma LenientDate(s: string)
    requires HasLayout(s) && s[0] == '2' && s[1] == '0' && s[2] == '2' && s[3] == '4'
    requires s[5] == '1' && s[6] == 'x' && s[8] == '1' && s[9] == '5'
    ensures ParseDate(s) == Some(MakeDate(2024, 1, 15))
  {
    FourDigits(s[0..4]);
    DigitThenOther(s[5..7]);
    TwoDigits(s[8..10]);
    DateFrom(s, 2024, 1, 15);
  }

  lemma Midnight(s: string)
    requires HasLayout(s) && forall i :: i in {11, 12, 14, 15, 17, 18} ==> s[i] == '0'
    ensures ParseTime(s) == Some(0)
  {
    TwoDigits(s[11..13]);
    TwoDigits(s[14..16]);
    TwoDigits(s[17..19]);
    TimeFrom(s, 0, 0, 0);
  }

  lemma TwoDigits(s: string)
    requires |s| == 2 && AllDigits(s)
    ensures Value(s) == 10 * DigitValue(s[0]) + DigitValue(s[1]) && NumParse(s) == Some(Value(s))
  {
    NumParseDigits(s);
    var t := s[..1];
    assert Value(t) == 10 * Value(t[..0]) + DigitValue(t[0]);
  }

  lemma FourDigits(s: string)
    requires |s| == 4 && AllDigits(s)
    ensures Value(s) == 1000 * DigitValue(s[0]) + 100 * DigitValue(s[1]) + 10 * DigitValue(s[2]) + DigitValue(s[3])
    ensures NumParse(s) == Some(Value(s))
  {
    NumParseDigits(s);
    var t := s[..3];
    assert Value(t) == 10 * Value(t[..2]) + DigitValue(t[2]);
    TwoDigits(t[..2]);
  }

  // Parsing stops at the first character that is not a digit.
  lemma DigitThenOther(s: string)
    requires |s| == 2 && IsDigit(s[0]) && !IsDigit(s[1])
    ensures NumParse(s) == Some(DigitValue(s[0]))
  {
    var p := DigitPrefix(s);
    assert DigitPrefix(s[1..]) == "";
    assert p == [s[0]];
    assert Value(p) == 10 * Value(p[..0]) + DigitValue(p[0]);
  }

  // What the printer writes, field by field: the layout of section 5.6 of RFC 3339.
  lemma PrintedText(t: Stamp)
    requires Ok(t)
    ensures var s := Print(t);
            && |s| >= 20 && s[4] == '-' && s[7] == '-' && s[10] == 'T' && s[13] == ':' && s[16] == ':'
            && IsDecimal(s[0..4], t.year) && IsDecimal(s[5..7], t.month) && IsDecimal(s[8..10], t.day)
            && IsDecimal(s[11..13], t.hour) && IsDecimal(s[14..16], t.minute) && IsDecimal(s[17..19], t.second)
            && IsZone(s[19..], t.zone)
  {
    PrintLayout(t);
    var s := Print(t);
    PadIsDecimal(s[0..4], t.year, 4);
    PadIsDecimal(s[5..7], t.month, 2);
    PadIsDecimal(s[8..10], t.day, 2);
    PadIsDecimal(s[11..13], t.hour, 2);
    PadIsDecimal(s[14..16], t.minute, 2);
    PadIsDecimal(s[17..19], t.second, 2);
    ZoneText(t.zone);
  }

  // Z, or a sign, hours, perhaps a colon, and minutes.
  predicate IsZone(s: string, z: Zone) {
    match z
    case Zulu => s == "Z"
    case Offset(east, h, m, colon) =>
      && |s| == (if colon then 6 else 5) && s[0] == (if east then '+' else '-') && IsDecimal(s[1..3], h)
      && (colon ==> s[3] == ':') && IsDecimal(s[|s| - 2..], m)
  }

  lemma ZoneText(z: Zone)
    requires z.Offset? ==> z.hours <= 23 && z.minutes <= 59
    ensures IsZone(PrintZone(z), z)
  {
    if z.Offset? {
      ZoneLayout(z);
      var s := PrintZone(z);
      PadIsDecimal(s[1..3], z.hours, 2);
      PadIsDecimal(s[|s| - 2..], z.minutes, 2);
    }
  }

  // Two or four digits, the most significant first.
  predicate IsDecimal(s: string, n: nat) {
    && (forall i :: 0 <= i < |s| ==> '0' <= s[i] <= '9')
    && (|s| == 2 ==> n == 10 * (s[0] as int - 48) + (s[1] as int - 48))
    && (|s| == 4 ==> n == 1000 * (s[0] as int - 48) + 100 * (s[1] as int - 48)
                          + 10 * (s[2] as int - 48) + (s[3] as int - 48))
    && (|s| == 2 || |s| == 4)
  }

  lemma PadIsDecimal(field: string, n: nat, width: nat)
    requires field == Pad(n, width) && ((width == 2 && n < 100) || (width == 4 && n < 10000))
    ensures IsDecimal(field, n)
  {
    ValueOfPad(n, width);
    if width == 2 {
      TwoDigits(field);
    } else {
      FourDigits(field);
    }
  }
}
