/** `IntegrationDataMapper.normalizeDate` and `toEpochSeconds`: a raw date
    value becomes `yyyy-MM-dd` text. An optionally signed digit string is an
    epoch timestamp (seconds, or milliseconds when it is too large to be
    seconds); otherwise the text is tried against a fixed list of date and
    date-time shapes in order, and returned trimmed when none fits. The
    shapes are those of section 5.6 of RFC 3339 (full-date, date-time) and
    its day-first and space-separated variants. */
module DateParsing {
  import opened Wrappers
  import opened JavaText
  import opened JavaNum
  import opened Calendar

  // ------------------------------------------------------------ fields

  /** `n` ASCII digits at position `i`, read as a number. */
  function DigitsAt(s: string, i: nat, n: nat): Option<nat> {
    if i + n <= |s| && AllDigits(s[i..i + n]) then Some(DigitsValue(s[i..i + n])) else None
  }

  predicate CharAt(s: string, i: nat, c: char) {
    i < |s| && s[i] == c
  }

  /** Year, month and day as read from the text, before resolution. */
  datatype Fields = Fields(year: nat, month: nat, day: nat)

  /** `yyyy-MM-dd` at the start of the text. */
  function YearFirstFields(s: string): Option<Fields> {
    var y := DigitsAt(s, 0, 4);
    var m := DigitsAt(s, 5, 2);
    var d := DigitsAt(s, 8, 2);
    if y.Some? && CharAt(s, 4, '-') && m.Some? && CharAt(s, 7, '-') && d.Some?
    then Some(Fields(y.value, m.value, d.value))
    else None
  }

  /** `dd-MM-yyyy` at the start of the text. */
  function DayFirstFields(s: string): Option<Fields> {
    var d := DigitsAt(s, 0, 2);
    var m := DigitsAt(s, 3, 2);
    var y := DigitsAt(s, 6, 4);
    if d.Some? && CharAt(s, 2, '-') && m.Some? && CharAt(s, 5, '-') && y.Some?
    then Some(Fields(y.value, m.value, d.value))
    else None
  }

  /** STRICT resolution, used by the ISO formatters: the fields must name a
      real date (section 5.7 of RFC 3339). */
  function ResolveStrict(f: Fields): (r: Option<Date>)
    ensures r.Some? ==> ValidDate(r.value)
  {
    var d := Date(f.year, f.month, f.day);
    if ValidDate(d) then Some(d) else None
  }

  /** SMART resolution, used by the `ofPattern` formatters, whose `yyyy` is
      the year of era: the year must be at least 1, the month 1 to 12, the day
      1 to 31, and a day past the end of its month is moved back to the
      month's last day. */
  function ResolveSmart(f: Fields): (r: Option<Date>)
    ensures r.Some? ==> ValidDate(r.value)
    ensures r.Some? <==> f.year >= 1 && 1 <= f.month <= 12 && 1 <= f.day <= 31
    ensures r.Some? ==> r.value.year == f.year && r.value.month == f.month
    ensures r.Some? && f.day <= DaysInMonth(f.year, f.month) ==> r.value.day == f.day
    ensures r.Some? && f.day > DaysInMonth(f.year, f.month) ==> r.value.day == DaysInMonth(f.year, f.month)
  {
    if f.year >= 1 && 1 <= f.month <= 12 && 1 <= f.day <= 31 then
      var last := DaysInMonth(f.year, f.month);
      Some(Date(f.year, f.month, if f.day <= last then f.day else last))
    else None
  }

  /** `HH:mm:ss` at position `i`, each field in range. */
  predicate ClockAt(s: string, i: nat) {
    var h := DigitsAt(s, i, 2);
    var m := DigitsAt(s, i + 3, 2);
    var sec := DigitsAt(s, i + 6, 2);
    && h.Some? && h.value < 24 && CharAt(s, i + 2, ':')
    && m.Some? && m.value < 60 && CharAt(s, i + 5, ':')
    && sec.Some? && sec.value < 60
  }

  // ------------------------------------------------------------ offsets

  predicate IsSign(c: char) {
    c == '+' || c == '-'
  }

  /** `ZoneOffset`'s limits: at most 18 hours, minutes and seconds below 60. */
  predicate OffsetInRange(h: nat, m: nat, sec: nat) {
    h <= 18 && m <= 59 && sec <= 59 && (h == 18 ==> m == 0 && sec == 0)
  }

  /** A signed offset of `len` characters: hours at 1, minutes at `mAt` and
      seconds at `sAt` (0 when absent), a `:` before minutes at 4 and before
      seconds at 7. */
  predicate SignedOffset(t: string, len: nat, mAt: nat, sAt: nat) {
    var h := DigitsAt(t, 1, 2);
    var m := if mAt == 0 then Some(0) else DigitsAt(t, mAt, 2);
    var sec := if sAt == 0 then Some(0) else DigitsAt(t, sAt, 2);
    && |t| == len && len > 0 && IsSign(t[0]) && h.Some? && m.Some? && sec.Some?
    && (mAt == 4 ==> t[3] == ':') && (sAt == 7 ==> t[6] == ':')
    && OffsetInRange(h.value, m.value, sec.value)
  }

  /** Pattern letter `X`: `Z`, or a sign with `HH` or `HHmm`. */
  predicate IsPatternOffset(t: string) {
    t == "Z" || SignedOffset(t, 3, 0, 0) || SignedOffset(t, 5, 3, 0)
  }

  /** The offset id of `ISO_OFFSET_DATE_TIME` (pattern `+HH:MM:ss`), read
      leniently and ignoring case: `Z`, or a sign with `HH`, `HH:mm` or
      `HH:mm:ss`. Lenient reading makes minutes and seconds optional, but the
      colons of the pattern stay required. */
  predicate IsIsoOffset(t: string) {
    || t == "Z" || t == "z"
    || SignedOffset(t, 3, 0, 0) || SignedOffset(t, 6, 4, 0) || SignedOffset(t, 9, 4, 7)
  }

  /** A signed ISO offset longer than its hours carries the pattern's colons:
      `+0100` and `+013000` are not offsets `ISO_OFFSET_DATE_TIME` reads. */
  lemma IsoOffsetNeedsColons(t: string)
    requires IsIsoOffset(t) && |t| > 3
    ensures (|t| == 6 || |t| == 9) && t[3] == ':' && (|t| == 9 ==> t[6] == ':')
  {
  }

  /** The number of digits at `i`, at most `max`. */
  function LeadingDigits(s: string, i: nat, max: nat): (n: nat)
    ensures i + n <= |s| || n == 0
    decreases max
  {
    if max > 0 && i < |s| && IsDigit(s[i]) then 1 + LeadingDigits(s, i + 1, max - 1) else 0
  }

  /** Where an ISO local time starting at `i` ends: `HH:mm`, then `:ss` if
      present, then a `.` and up to nine fraction digits if present. Optional
      parts are taken greedily; out-of-range fields reject the text. */
  function IsoTimeEnd(s: string, i: nat): (e: Option<nat>)
    ensures e.Some? ==> i < e.value <= |s|
  {
    var h := DigitsAt(s, i, 2);
    var m := DigitsAt(s, i + 3, 2);
    if !(h.Some? && h.value < 24 && CharAt(s, i + 2, ':') && m.Some? && m.value < 60) then None
    else
      var sec := DigitsAt(s, i + 6, 2);
      if !(CharAt(s, i + 5, ':') && sec.Some?) then Some(i + 5)
      else if sec.value >= 60 then None
      else if CharAt(s, i + 8, '.') then Some(i + 9 + LeadingDigits(s, i + 9, 9))
      else Some(i + 8)
  }

  // ------------------------------------------------------------ the shapes

  /** `LocalDate.parse(text, ISO_LOCAL_DATE)`, four-digit years. */
  function ParseIsoLocalDate(s: string): (r: Option<Date>)
    ensures r.Some? ==> ValidDate(r.value)
  {
    var f := YearFirstFields(s);
    if |s| == 10 && f.Some? then ResolveStrict(f.value) else None
  }

  /** `LocalDate.parse(text, ofPattern("dd-MM-yyyy"))`. */
  function ParseDayFirst(s: string): (r: Option<Date>)
    ensures r.Some? ==> ValidDate(r.value)
  {
    var f := DayFirstFields(s);
    if |s| == 10 && f.Some? then ResolveSmart(f.value) else None
  }

  /** `ofPattern("yyyy-MM-dd HH:mm:ss")` (`sep` is ' ') and
      `ofPattern("yyyy-MM-dd'T'HH:mm:ss")` (`sep` is 'T'). */
  function ParseLocalDateTime(s: string, sep: char): (r: Option<Date>)
    ensures r.Some? ==> ValidDate(r.value)
  {
    var f := YearFirstFields(s);
    if |s| == 19 && f.Some? && CharAt(s, 10, sep) && ClockAt(s, 11) then ResolveSmart(f.value) else None
  }

  /** `ofPattern("yyyy-MM-dd'T'HH:mm:ss.SSS")`. */
  function ParseLocalDateTimeMillis(s: string): (r: Option<Date>)
    ensures r.Some? ==> ValidDate(r.value)
  {
    var f := YearFirstFields(s);
    if |s| == 23 && f.Some? && CharAt(s, 10, 'T') && ClockAt(s, 11) && CharAt(s, 19, '.') && DigitsAt(s, 20, 3).Some?
    then ResolveSmart(f.value)
    else None
  }

  /** `ISO_OFFSET_DATE_TIME`, four-digit years; also what `OffsetDateTime.parse`
      uses. */
  function ParseIsoOffsetDateTime(s: string): (r: Option<Date>)
    ensures r.Some? ==> ValidDate(r.value)
  {
    var f := YearFirstFields(s);
    if !(|s| > 11 && f.Some? && (s[10] == 'T' || s[10] == 't')) then None
    else
      match IsoTimeEnd(s, 11)
      case None => None
      case Some(e) => if IsIsoOffset(s[e..]) then ResolveStrict(f.value) else None
  }

  lemma TwoDigitsValue(a: char, b: char)
    requires IsDigit(a) && IsDigit(b)
    ensures AllDigits([a, b]) && DigitsValue([a, b]) == DigitValue(a) * 10 + DigitValue(b)
  {
    var s := [a, b];
    assert s[..1] == [a] && [a][..0] == [];
    assert DigitsValue([a]) == DigitValue(a);
    assert DigitsValue(s) == DigitsValue(s[..1]) * 10 + DigitValue(b);
  }

  /** A colon-less offset after an ISO date-time is not read: the text
      `2024-01-01T10:00+0100` is no ISO offset date-time. */
  lemma ColonlessOffsetRejected()
    ensures ParseIsoOffsetDateTime("2024-01-01T10:00+0100").None?
  {
    var s := "2024-01-01T10:00+0100";
    assert IsoTimeEnd(s, 11) == Some(16) by {
      assert s[11..13] == [s[11], s[12]] && s[14..16] == [s[14], s[15]];
      TwoDigitsValue(s[11], s[12]);
      TwoDigitsValue(s[14], s[15]);
      assert !CharAt(s, 16, ':');
    }
    assert s[16..] == "+0100";
    if IsIsoOffset("+0100") {
      IsoOffsetNeedsColons("+0100");
    }
  }

  /** `ofPattern("yyyy-MM-dd'T'HH:mm:ssX")` and, with `millis`,
      `ofPattern("yyyy-MM-dd'T'HH:mm:ss.SSSX")`. */
  function ParseOffsetPattern(s: string, millis: bool): (r: Option<Date>)
    ensures r.Some? ==> ValidDate(r.value)
  {
    var f := YearFirstFields(s);
    var e := if millis then 23 else 19;
    if |s| >= e && f.Some? && CharAt(s, 10, 'T') && ClockAt(s, 11)
       && (millis ==> CharAt(s, 19, '.') && DigitsAt(s, 20, 3).Some?)
       && IsPatternOffset(s[e..])
    then ResolveSmart(f.value)
    else None
  }

  /** The formatters in the order `normalizeDate` tries them; the first that
      accepts the whole text gives the date. The final `OffsetDateTime.parse`
      repeats `ISO_OFFSET_DATE_TIME` and so adds nothing. */
  function ParseDateText(s: string): (r: Option<Date>)
    ensures r.Some? ==> ValidDate(r.value)
  {
    if ParseIsoLocalDate(s).Some? then ParseIsoLocalDate(s)
    else if ParseDayFirst(s).Some? then ParseDayFirst(s)
    else if ParseLocalDateTime(s, ' ').Some? then ParseLocalDateTime(s, ' ')
    else if ParseLocalDateTime(s, 'T').Some? then ParseLocalDateTime(s, 'T')
    else if ParseLocalDateTimeMillis(s).Some? then ParseLocalDateTimeMillis(s)
    else if ParseIsoOffsetDateTime(s).Some? then ParseIsoOffsetDateTime(s)
    else if ParseOffsetPattern(s, false).Some? then ParseOffsetPattern(s, false)
    else ParseOffsetPattern(s, true)
  }

  // ------------------------------------------------------------ epoch values

  /** `Instant`'s range of epoch seconds. */
  const MIN_INSTANT_SECOND: int := -31557014167219200
  const MAX_INSTANT_SECOND: int := 31556889864403199

  const MAX_EPOCH_SECONDS: int := 9_999_999_999

  /** `toEpochSeconds`: a value whose magnitude exceeds 9,999,999,999 is taken
      as milliseconds and divided by 1000, truncating toward zero.
      `Math.abs(Long.MIN_VALUE)` is negative, so that one value passes through
      unchanged. */
  function ToEpochSeconds(raw: Long): (r: Long)
    ensures raw == MIN_LONG || Abs(raw) <= MAX_EPOCH_SECONDS ==> r == raw
    ensures raw != MIN_LONG && Abs(raw) > MAX_EPOCH_SECONDS ==>
      Abs(r) * 1000 <= Abs(raw) < (Abs(r) + 1) * 1000 && (r >= 0 <==> raw >= 0)
    ensures MIN_INSTANT_SECOND <= r <= MAX_INSTANT_SECOND <==> raw != MIN_LONG
  {
    if JavaAbsLong(raw) > MAX_EPOCH_SECONDS then JavaDiv(raw, 1000) else raw
  }

  datatype DateError =
    | NotALong            // `Long.parseLong` on a digit string outside the `long` range
    | InstantOutOfRange   // `Instant.ofEpochSecond` outside `Instant`'s range

  /** `normalizeDate`: null or blank gives null; a signed digit string gives
      the UTC date of its epoch seconds; a text one of the formatters accepts
      gives that date; anything else is returned trimmed. */
  function NormalizeDate(raw: Option<string>): (r: Result<Option<string>, DateError>)
    ensures r == Ok(None) <==> IsBlank(raw)
  {
    if IsBlank(raw) then Ok(None)
    else
      var t := Trim(raw.value);
      if IsSignedDigits(t) then
        match ParseLong(t)
        case Err(_) => Err(NotALong)
        case Ok(n) =>
          var secs := ToEpochSeconds(n);
          if secs < MIN_INSTANT_SECOND || secs > MAX_INSTANT_SECOND then Err(InstantOutOfRange)
          else Ok(Some(FormatDate(CivilFromDays(secs / 86400))))
      else
        match ParseDateText(t)
        case Some(d) => Ok(Some(FormatDate(d)))
        case None => Ok(Some(t))
  }

  // ------------------------------------------------------------ properties

  /** Four digits, two and two: a digit string is its value written back at its width. */
  lemma {:induction false} PadDigitsOfValue(x: string)
    requires AllDigits(x)
    ensures DigitsValue(x) < Pow10(|x|) && PadDigits(DigitsValue(x), |x|) == x
  {
    if x != [] {
      var p, c := x[..|x| - 1], x[|x| - 1];
      assert AllDigits(p);
      PadDigitsOfValue(p);
      assert DigitsValue(x) == DigitsValue(p) * 10 + DigitValue(c);
      PadDigitsStep(p, c, DigitsValue(x));
      assert x == p + [c];
    }
  }

  /** One more digit written back: the inductive step of `PadDigitsOfValue`. */
  lemma PadDigitsStep(p: string, c: char, v: nat)
    requires AllDigits(p) && IsDigit(c)
    requires DigitsValue(p) < Pow10(|p|) && PadDigits(DigitsValue(p), |p|) == p
    requires v == DigitsValue(p) * 10 + DigitValue(c)
    ensures v < Pow10(|p| + 1) && PadDigits(v, |p| + 1) == p + [c]
  {
    var a, d := DigitsValue(p), DigitValue(c);
    assert v / 10 == a && v % 10 == d;
    assert PadDigits(v, |p| + 1) == PadDigits(a, |p|) + [DigitChar(d)];
  }

  lemma DigitsAtPadded(s: string, i: nat, n: nat, v: nat)
    requires v < Pow10(n) && i + n <= |s| && s[i..i + n] == PadDigits(v, n)
    ensures DigitsAt(s, i, n) == Some(v)
  {
  }

  /** The ISO parser reads back what `LocalDate.toString` writes, for every
      valid date with a four-digit year. */
  lemma IsoDateRoundTrip(d: Date)
    requires ValidDate(d) && 0 <= d.year <= 9999
    ensures ParseIsoLocalDate(FormatDate(d)) == Some(d)
  {
    var y := PadDigits(d.year, 4);
    var m := PadDigits(d.month, 2);
    var dd := PadDigits(d.day, 2);
    var s := FormatDate(d);
    assert s == y + "-" + m + "-" + dd;
    DashedParts(y, m, dd);
    DigitsAtPadded(s, 0, 4, d.year);
    DigitsAtPadded(s, 5, 2, d.month);
    DigitsAtPadded(s, 8, 2, d.day);
  }

  /** Where the parts of `yyyy-MM-dd` text sit. */
  lemma DashedParts(y: string, m: string, dd: string)
    requires |y| == 4 && |m| == 2 && |dd| == 2
    ensures var s := y + "-" + m + "-" + dd;
      && |s| == 10 && s[4] == '-' && s[7] == '-'
      && s[0..4] == y && s[5..7] == m && s[8..10] == dd
  {
    var s := y + "-" + m + "-" + dd;
    assert s == y + (['-'] + m) + (['-'] + dd);
  }

  /** Conversely, text the ISO parser accepts is exactly the date's
      `toString`: `yyyy-MM-dd` text is kept as it is. */
  lemma IsoDateFormatsBack(s: string)
    requires ParseIsoLocalDate(s).Some?
    ensures FormatDate(ParseIsoLocalDate(s).value) == s
  {
    var y, m, dd := s[0..4], s[5..7], s[8..10];
    PadDigitsOfValue(y);
    PadDigitsOfValue(m);
    PadDigitsOfValue(dd);
    assert s == y + "-" + m + "-" + dd;
  }

  /** `LocalDate.toString` text has no surrounding blanks, is never a signed
      digit string, and starts with a digit only for years 0 to 9999. */
  lemma FormattedDateShape(d: Date)
    requires ValidDate(d)
    ensures var s := FormatDate(d);
      && Trim(s) == s && s != [] && !IsSignedDigits(s)
      && (IsDigit(s[0]) <==> 0 <= d.year <= 9999)
  {
    var fy := FormatYear(d.year);
    var s := FormatDate(d);
    assert |fy| >= 1 && (IsDigit(fy[0]) <==> 0 <= d.year <= 9999) && !IsTrimmable(fy[0]);
    assert s == fy + "-" + PadDigits(d.month, 2) + "-" + PadDigits(d.day, 2);
    assert s[0] == fy[0] && s[|fy|] == '-' && IsDigit(s[|s| - 1]);
    TrimIdentity(s);
    if |s| > 0 && s[0] == '-' {
      assert s[1..][|fy| - 1] == '-';
    }
  }

  /** Every shape starts with a digit of the year or of the day. */
  lemma ParsersNeedLeadingDigit(s: string)
    requires ParseDateText(s).Some?
    ensures s != [] && IsDigit(s[0])
  {
    if YearFirstFields(s).Some? {
      assert s[0..4][0] == s[0];
    } else {
      assert DayFirstFields(s).Some?;
      assert s[0..2][0] == s[0];
    }
  }

  /** `normalizeDate` gives back every date text it produces. */
  lemma FormattedDateIsFixed(d: Date)
    requires ValidDate(d)
    ensures NormalizeDate(Some(FormatDate(d))) == Ok(Some(FormatDate(d)))
  {
    FormattedDateShape(d);
    var s := FormatDate(d);
    if 0 <= d.year <= 9999 {
      IsoDateRoundTrip(d);
    } else if ParseDateText(s).Some? {
      ParsersNeedLeadingDigit(s);
    }
  }

  /** `normalizeDate` is idempotent: normalising its own output changes nothing. */
  lemma NormalizeDateIdempotent(raw: Option<string>, r: string)
    requires NormalizeDate(raw) == Ok(Some(r))
    ensures NormalizeDate(Some(r)) == Ok(Some(r))
  {
    var t := Trim(raw.value);
    if IsSignedDigits(t) {
      var secs := ToEpochSeconds(ParseLong(t).value);
      FormattedDateIsFixed(CivilFromDays(secs / 86400));
    } else if ParseDateText(t).Some? {
      FormattedDateIsFixed(ParseDateText(t).value);
    } else {
      TrimIdempotent(raw.value);
    }
  }

  /** Text without surrounding blanks that is not a signed digit string
      goes to the formatters as it is. */
  lemma TextGoesToFormatters(s: string)
    requires s != [] && !IsTrimmable(s[0]) && !IsTrimmable(s[|s| - 1]) && !IsSignedDigits(s)
    ensures NormalizeDate(Some(s)) == Ok(Some(match ParseDateText(s) case Some(d) => FormatDate(d) case None => s))
  {
    TrimIdentity(s);
  }

  /** Without a `yyyy-MM-dd` prefix only the day-first shape can apply. */
  lemma OnlyDayFirstApplies(s: string)
    requires YearFirstFields(s).None?
    ensures ParseDateText(s) == ParseDayFirst(s)
  {
  }

  lemma YearFirstFieldsOfPrefix(a: string, b: string)
    requires |a| >= 10
    ensures YearFirstFields(a + b) == YearFirstFields(a)
  {
    var s := a + b;
    assert s[0..4] == a[0..4] && s[5..7] == a[5..7] && s[8..10] == a[8..10];
  }

  /** A `dd-MM-yyyy` text, each field zero-padded. */
  function DayFirstText(f: Fields): (s: string)
    requires f.day < 100 && f.month < 100 && f.year < 10000
    ensures |s| == 10 && DayFirstFields(s) == Some(f)
  {
    var s := PadDigits(f.day, 2) + "-" + PadDigits(f.month, 2) + "-" + PadDigits(f.year, 4);
    DigitsAtPadded(s, 0, 2, f.day);
    DigitsAtPadded(s, 3, 2, f.month);
    DigitsAtPadded(s, 6, 4, f.year);
    s
  }

  /** Day-first text is reordered to `yyyy-MM-dd` as SMART resolution reads
      it (a day past the month's end becomes its last day, so "31-04-2024"
      gives "2024-04-30"); text it rejects is kept as it is. */
  lemma DayFirstReordered(f: Fields)
    requires f.day < 100 && f.month < 100 && f.year < 10000
    ensures var s := DayFirstText(f);
      NormalizeDate(Some(s)) == Ok(Some(match ResolveSmart(f) case Some(d) => FormatDate(d) case None => s))
  {
    var s := DayFirstText(f);
    DayFirstTextShape(f);
    TextGoesToFormatters(s);
    OnlyDayFirstApplies(s);
  }

  /** Day-first text starts and ends with a digit, is not a signed digit
      string, and has no `yyyy-MM-dd` prefix. */
  lemma DayFirstTextShape(f: Fields)
    requires f.day < 100 && f.month < 100 && f.year < 10000
    ensures var s := DayFirstText(f);
      && s != [] && !IsTrimmable(s[0]) && !IsTrimmable(s[|s| - 1])
      && !IsSignedDigits(s) && YearFirstFields(s).None?
  {
    var s := DayFirstText(f);
    assert AllDigits(s[0..2]) && AllDigits(s[3..5]) && AllDigits(s[6..10]);
    assert s[0..2][0] == s[0] && s[3..5][1] == s[4] && s[6..10][3] == s[9];
    assert !IsSignedDigits(s) by {
      assert s[2] == '-';
    }
    assert !CharAt(s, 4, '-');
  }

  /** `HH:mm:ss`, each field zero-padded. */
  function ClockText(h: nat, m: nat, sec: nat): (s: string)
    requires h < 24 && m < 60 && sec < 60
    ensures |s| == 8 && AllDigits(s[0..2]) && AllDigits(s[3..5]) && AllDigits(s[6..8])
  {
    PadDigits(h, 2) + ":" + PadDigits(m, 2) + ":" + PadDigits(sec, 2)
  }

  lemma ClockAfter(p: string, h: nat, m: nat, sec: nat)
    requires |p| == 11 && h < 24 && m < 60 && sec < 60
    ensures ClockAt(p + ClockText(h, m, sec), 11)
  {
    var s := p + ClockText(h, m, sec);
    assert s[11..19] == ClockText(h, m, sec);
    assert s[11..13] == PadDigits(h, 2) && s[14..16] == PadDigits(m, 2) && s[17..19] == PadDigits(sec, 2);
    DigitsAtPadded(s, 11, 2, h);
    DigitsAtPadded(s, 14, 2, m);
    DigitsAtPadded(s, 17, 2, sec);
  }

  lemma DateTimeParses(d: Date, sep: char, h: nat, m: nat, sec: nat)
    requires ValidDate(d) && 1 <= d.year <= 9999
    requires sep == ' ' || sep == 'T'
    requires h < 24 && m < 60 && sec < 60
    ensures ParseDateText(FormatDate(d) + [sep] + ClockText(h, m, sec)) == Some(d)
  {
    var date := FormatDate(d);
    var s := date + [sep] + ClockText(h, m, sec);
    IsoDateRoundTrip(d);
    YearFirstFieldsOfPrefix(date, [sep] + ClockText(h, m, sec));
    assert s == date + ([sep] + ClockText(h, m, sec));
    ClockAfter(date + [sep], h, m, sec);
    assert ParseIsoLocalDate(s).None? && ParseDayFirst(s).None?;
    assert sep == 'T' ==> ParseLocalDateTime(s, ' ').None?;
    assert ParseLocalDateTime(s, sep) == Some(d);
  }

  /** A local date-time, separated by a space or a `T`, is cut to its date. */
  lemma DateTimeCutToDate(d: Date, sep: char, h: nat, m: nat, sec: nat)
    requires ValidDate(d) && 1 <= d.year <= 9999
    requires sep == ' ' || sep == 'T'
    requires h < 24 && m < 60 && sec < 60
    ensures NormalizeDate(Some(FormatDate(d) + [sep] + ClockText(h, m, sec))) == Ok(Some(FormatDate(d)))
  {
    var date := FormatDate(d);
    var clock := ClockText(h, m, sec);
    var s := date + [sep] + clock;
    FormattedDateShape(d);
    assert s[0] == date[0] && s[4] == date[4] == '-' && s[18] == clock[7];
    assert AllDigits(clock[6..8]) && clock[6..8][1] == clock[7];
    DateTimeParses(d, sep, h, m, sec);
    TextGoesToFormatters(s);
  }

  /** A signed digit string is an epoch value: outside the `long` range it
      fails to parse, `Long.MIN_VALUE` falls outside `Instant`'s range, and
      any other value gives the UTC date whose day holds its epoch seconds. */
  lemma EpochValueDate(raw: Option<string>) returns (d: Date)
    requires !IsBlank(raw) && IsSignedDigits(Trim(raw.value))
    ensures var n := SignedDigitsValue(Trim(raw.value));
      && (!InLongRange(n) ==> NormalizeDate(raw) == Err(NotALong))
      && (n == MIN_LONG ==> NormalizeDate(raw) == Err(InstantOutOfRange))
      && (InLongRange(n) && n != MIN_LONG ==>
            var secs := ToEpochSeconds(n);
            && ValidDate(d)
            && EpochDay(d) * 86400 <= secs < (EpochDay(d) + 1) * 86400
            && NormalizeDate(raw) == Ok(Some(FormatDate(d))))
  {
    var n := SignedDigitsValue(Trim(raw.value));
    if InLongRange(n) && n != MIN_LONG {
      var secs := ToEpochSeconds(n);
      d := CivilFromDays(secs / 86400);
      EpochDayOfCivil(secs / 86400);
    } else {
      d := Date(1970, 1, 1);
    }
  }

  /** What `normalizeDate` can give: null exactly for blank input, an error
      only for a signed digit string, and otherwise either a formatted date or
      the trimmed input. */
  lemma NormalizeDateOutcomes(raw: Option<string>)
    ensures NormalizeDate(raw).Err? ==> !IsBlank(raw) && IsSignedDigits(Trim(raw.value))
    ensures NormalizeDate(raw) == Ok(None) <==> IsBlank(raw)
    ensures match NormalizeDate(raw)
      case Ok(Some(r)) => r == Trim(raw.value) || exists d :: ValidDate(d) && r == FormatDate(d)
      case _ => true
  {
    if !IsBlank(raw) {
      var t := Trim(raw.value);
      if !IsSignedDigits(t) {
        var p := ParseDateText(t);
        if p.Some? {
          assert NormalizeDate(raw) == Ok(Some(FormatDate(p.value)));
          assert ValidDate(p.value);
        } else {
          assert NormalizeDate(raw) == Ok(Some(t));
        }
      }
    }
  }
}
