/** strftime as an unbounded expansion of the format, and the bounded formatter
    that writes as much of it as fits. */
module StrftimeSpec {
  import opened Digits
  import opened Sequences

  datatype Fields = Fields(sec: int, min: int, hour: int, mday: int, mon: int, year: int, wday: int)

  const INT_MIN := -0x8000_0000
  const INT_MAX := 0x7fff_ffff

  /** What the code needs of tm: indices inside the two name tables, and int
      fields for which year + 1900 and mon + 1 do not overflow. */
  predicate InRange(tm: Fields) {
    && 0 <= tm.wday < 7 && 0 <= tm.mon < 12
    && INT_MIN <= tm.year <= INT_MAX - 1900
    && INT_MIN <= tm.sec <= INT_MAX && INT_MIN <= tm.min <= INT_MAX
    && INT_MIN <= tm.hour <= INT_MAX && INT_MIN <= tm.mday <= INT_MAX
  }

  type Tm = tm: Fields | InRange(tm) witness Fields(0, 0, 0, 1, 0, 70, 4)

  function DayName(d: nat): string
    requires d < 7
  {
    ["Sunday", "Monday", "Tuesday", "Wednesday", "Thursday", "Friday", "Saturday"][d]
  }

  function MonthName(m: nat): string
    requires m < 12
  {
    ["January", "February", "March", "April", "May", "June", "July", "August",
     "September", "October", "November", "December"][m]
  }

  function Digit(d: nat): char
    requires d < 10
  {
    '0' + d as char
  }

  /** n in decimal, with at least w digits. */
  function Decimal(n: nat, w: nat): (s: string)
    ensures |s| >= w
    decreases n + w
  {
    if n == 0 && w == 0 then ""
    else Decimal(n / 10, if w == 0 then 0 else w - 1) + [Digit(n % 10)]
  }

  /** printf's %0wd: w counts the sign, and zero prints as one digit at least. */
  function PaddedInt(n: int, w: nat): string
    requires w >= 1
  {
    if n >= 0 then Decimal(n, w) else "-" + Decimal(-n, if w == 1 then 1 else w - 1)
  }

  /** C's % truncates towards zero. */
  function Remainder(a: int, b: int): int
    requires b > 0
  {
    if a >= 0 then a % b else -((-a) % b)
  }

  /** The text of one conversion; an unknown one stands for itself, and a '%' before a zero
      for the '%' alone. */
  function Conversion(c: char, tm: Tm): string {
    match c
    case 'Y' => PaddedInt(tm.year + 1900, 4)
    case 'y' => PaddedInt(Remainder(tm.year, 100), 2)
    case 'm' => PaddedInt(tm.mon + 1, 2)
    case 'd' => PaddedInt(tm.mday, 2)
    case 'H' => PaddedInt(tm.hour, 2)
    case 'M' => PaddedInt(tm.min, 2)
    case 'S' => PaddedInt(tm.sec, 2)
    case 'A' => DayName(tm.wday)
    case 'a' => DayName(tm.wday)[..3]
    case 'B' => MonthName(tm.mon)
    case 'b' => MonthName(tm.mon)[..3]
    case '%' => "%"
    case '\0' => "%"
    case _ => ['%', c]
  }

  type Converter = char -> string

  /** The whole expansion of a format, however long, given the text of each conversion. */
  function ExpandWith(conv: Converter, format: string): string {
    if format == "" then ""
    else if format[0] != '%' then [format[0]] + ExpandWith(conv, format[1..])
    else if |format| == 1 then "%"
    else conv(format[1]) + ExpandWith(conv, format[2..])
  }

  function Expand(format: string, tm: Tm): string {
    ExpandWith(c => Conversion(c, tm), format)
  }

  /** The position of a '%' with nothing after it, or |format|. */
  function Dangling(format: string): (i: nat)
    ensures i <= |format| && (i < |format| ==> i == |format| - 1 && format[i] == '%')
  {
    if format == "" then 0
    else if format[0] != '%' then 1 + Dangling(format[1..])
    else if |format| == 1 then 0
    else 2 + Dangling(format[2..])
  }

  /** How far a format in memory reaches: to the first zero that is not the character of a
      conversion, or to the end of the memory. */
  function TextEnd(memory: string): (i: nat)
    ensures i <= |memory|
  {
    if memory == "" || memory[0] == '\0' then 0
    else if memory[0] != '%' then 1 + TextEnd(memory[1..])
    else if |memory| == 1 then 0
    else 2 + TextEnd(memory[2..])
  }

  function Text(memory: string): string {
    memory[..TextEnd(memory)]
  }

  /** It is ended by a zero. */
  predicate Terminated(memory: string) {
    TextEnd(memory) < |memory| && memory[TextEnd(memory)] == '\0'
  }

  // ---------- properties of the expansion ----------

  /** The first item of a format and its length: a character, or a conversion. */
  function ItemLength(f: string): nat
    requires f != "" && (f[0] == '%' ==> |f| > 1)
  {
    if f[0] == '%' then 2 else 1
  }

  function FirstItem(conv: Converter, f: string): string
    requires f != "" && (f[0] == '%' ==> |f| > 1)
  {
    if f[0] == '%' then conv(f[1]) else [f[0]]
  }

  lemma ExpandItem(conv: Converter, f: string)
    requires f != "" && (f[0] == '%' ==> |f| > 1)
    ensures ExpandWith(conv, f) == FirstItem(conv, f) + ExpandWith(conv, f[ItemLength(f)..])
    ensures Dangling(f) == |f| ==> Dangling(f[ItemLength(f)..]) == |f| - ItemLength(f)
  {
  }

  lemma DropConcat(f: string, g: string, n: nat)
    requires n <= |f|
    ensures (f + g)[n..] == f[n..] + g
  {
  }

  lemma SameFirstItem(conv: Converter, f: string, g: string)
    requires f != "" && (f[0] == '%' ==> |f| > 1)
    ensures ItemLength(f + g) == ItemLength(f) && FirstItem(conv, f + g) == FirstItem(conv, f)
  {
  }

  /** Formats compose: after a complete format the rest expands by itself. */
  lemma {:induction false} ExpandConcatenates(conv: Converter, f: string, g: string)
    requires Dangling(f) == |f|
    ensures ExpandWith(conv, f + g) == ExpandWith(conv, f) + ExpandWith(conv, g)
    decreases |f|
  {
    if f == "" {
      NothingFirst(g);
      NothingFirst(ExpandWith(conv, g));
    } else {
      var n := ItemLength(f);
      ExpandItem(conv, f);
      ExpandConcatenates(conv, f[n..], g);
      SameFirstItem(conv, f, g);
      DropConcat(f, g, n);
      ExpandItem(conv, f + g);
      Associates(FirstItem(conv, f), ExpandWith(conv, f[n..]), ExpandWith(conv, g));
    }
  }

  function Value(s: string): nat {
    if s == "" then 0 else Value(s[..|s| - 1]) * 10 + DigitValue(s[|s| - 1])
  }

  function ParsePadded(s: string): int {
    if s != "" && s[0] == '-' then 0 - Value(s[1..]) else Value(s)
  }

  lemma DigitReads(d: nat)
    requires d < 10
    ensures DigitValue(Digit(d)) == d && Digit(d) != '-'
  {
  }

  lemma ValueAppends(s: string, c: char)
    ensures Value(s + [c]) == Value(s) * 10 + DigitValue(c)
  {
    assert (s + [c])[..|s|] == s;
  }

  lemma {:induction false} DecimalReads(n: nat, w: nat)
    ensures Value(Decimal(n, w)) == n
    ensures '-' !in Decimal(n, w)
    decreases n + w
  {
    if n > 0 || w > 0 {
      var w' := if w == 0 then 0 else w - 1;
      DecimalReads(n / 10, w');
      DigitReads(n % 10);
      ValueAppends(Decimal(n / 10, w'), Digit(n % 10));
    }
  }

  /** Printing a number and reading it back is the identity. */
  lemma PaddedIntReads(n: int, w: nat)
    requires w >= 1
    ensures ParsePadded(PaddedInt(n, w)) == n
  {
    if n >= 0 {
      DecimalReads(n, w);
    } else {
      DecimalReads(-n, if w == 1 then 1 else w - 1);
    }
  }

  function Pow10(k: nat): nat {
    if k == 0 then 1 else 10 * Pow10(k - 1)
  }

  lemma {:induction false} DecimalLength(n: nat, w: nat, k: nat)
    requires n < Pow10(k) && w <= k
    ensures |Decimal(n, w)| <= k
    decreases k
  {
    if n > 0 || w > 0 {
      DecimalLength(n / 10, if w == 0 then 0 else w - 1, k - 1);
    }
  }

  lemma TenDigits()
    ensures Pow10(10) == 10000000000
  {
    assert Pow10(5) == 100000;
  }

  /** No conversion overruns the 32-byte scratch buffer. */
  lemma ConversionFits(c: char, tm: Tm)
    ensures |Conversion(c, tm)| <= 11
  {
    TenDigits();
    if c in "YymdHMS" {
      var n := if c == 'Y' then tm.year + 1900 else if c == 'y' then Remainder(tm.year, 100)
               else if c == 'm' then tm.mon + 1 else if c == 'd' then tm.mday
               else if c == 'H' then tm.hour else if c == 'M' then tm.min else tm.sec;
      var w := if c == 'Y' then 4 else 2;
      PaddedIntLength(n, w);
    }
  }

  lemma PaddedIntLength(n: int, w: nat)
    requires INT_MIN <= n <= INT_MAX && 1 <= w <= 4
    ensures |PaddedInt(n, w)| <= 11
  {
    TenDigits();
    if n >= 0 {
      DecimalLength(n, w, 10);
    } else {
      DecimalLength(-n, if w == 1 then 1 else w - 1, 10);
    }
  }

  // ---------- what each letter prints ----------

  predicate IsDecimal(c: char) {
    '0' <= c <= '9'
  }

  lemma {:induction false} DecimalDigits(n: nat, w: nat)
    ensures forall i | 0 <= i < |Decimal(n, w)| :: IsDecimal(Decimal(n, w)[i])
    decreases n + w
  {
    if n > 0 || w > 0 { DecimalDigits(n / 10, if w == 0 then 0 else w - 1); }
  }

  /** text is n in decimal digits, with a sign if it is negative, and w characters long if that
      is enough. */
  ghost predicate Shows(text: string, n: int, w: nat) {
    && ParsePadded(text) == n && |text| >= w && (0 <= n < Pow10(w) ==> |text| == w)
    && forall i | 0 <= i < |text| :: IsDecimal(text[i]) || (i == 0 && n < 0 && text[i] == '-')
  }

  lemma PaddedShows(n: int, w: nat)
    requires w >= 1
    ensures Shows(PaddedInt(n, w), n, w)
  {
    PaddedIntReads(n, w);
    if n >= 0 {
      DecimalDigits(n, w);
      if n < Pow10(w) { DecimalLength(n, w, w); }
    } else {
      DecimalDigits(-n, if w == 1 then 1 else w - 1);
    }
  }

  lemma ExpandOne(c: char, tm: Tm)
    ensures Expand(['%', c], tm) == Conversion(c, tm)
  {
    var conv: Converter := x => Conversion(x, tm);
    ExpandItem(conv, ['%', c]);
    assert ['%', c][2..] == "" && ExpandWith(conv, "") == "";
    assert conv(c) + "" == conv(c);
  }

  lemma NumberIsShown(c: char, n: int, w: nat, tm: Tm)
    requires w >= 1 && Conversion(c, tm) == PaddedInt(n, w)
    ensures Shows(Expand(['%', c], tm), n, w) && Shows(Conversion(c, tm), n, w)
  {
    ExpandOne(c, tm);
    PaddedShows(n, w);
  }

  ghost predicate ShowsDateBy(conv: Converter, tm: Fields) {
    Shows(conv('Y'), tm.year + 1900, 4) && Shows(conv('m'), tm.mon + 1, 2) && Shows(conv('d'), tm.mday, 2)
  }

  ghost predicate ShowsTimeBy(conv: Converter, tm: Fields) {
    Shows(conv('H'), tm.hour, 2) && Shows(conv('M'), tm.min, 2) && Shows(conv('S'), tm.sec, 2)
  }

  /** The date, read back from what is printed: the year with four digits, the others with two,
      and the month counted from one. */
  lemma DateIsShown(tm: Tm)
    ensures Shows(Expand("%Y", tm), tm.year + 1900, 4)
    ensures Shows(Expand("%m", tm), tm.mon + 1, 2)
    ensures Shows(Expand("%d", tm), tm.mday, 2)
  {
    NumberIsShown('Y', tm.year + 1900, 4, tm);
    NumberIsShown('m', tm.mon + 1, 2, tm);
    NumberIsShown('d', tm.mday, 2, tm);
  }

  /** And the time. */
  lemma TimeIsShown(tm: Tm)
    ensures Shows(Expand("%H", tm), tm.hour, 2)
    ensures Shows(Expand("%M", tm), tm.min, 2)
    ensures Shows(Expand("%S", tm), tm.sec, 2)
  {
    NumberIsShown('H', tm.hour, 2, tm);
    NumberIsShown('M', tm.min, 2, tm);
    NumberIsShown('S', tm.sec, 2, tm);
  }

  lemma RemainderIs(a: int)
    ensures var y := Remainder(a, 100);
      -100 < y < 100 && (a - y) % 100 == 0 && (a >= 0 ==> y >= 0) && (a <= 0 ==> y <= 0)
  {
  }

  lemma DateConversions(tm: Tm)
    ensures ShowsDateBy(c => Conversion(c, tm), tm)
  {
    NumberIsShown('Y', tm.year + 1900, 4, tm);
    NumberIsShown('m', tm.mon + 1, 2, tm);
    NumberIsShown('d', tm.mday, 2, tm);
  }

  lemma TimeConversions(tm: Tm)
    ensures ShowsTimeBy(c => Conversion(c, tm), tm)
  {
    NumberIsShown('H', tm.hour, 2, tm);
    NumberIsShown('M', tm.min, 2, tm);
    NumberIsShown('S', tm.sec, 2, tm);
  }

  /** %y is what is left of tm_year, the years since 1900, after whole centuries, with its
      sign. */
  lemma YearOfCentury(tm: Tm) returns (y: int)
    ensures Shows(Expand("%y", tm), y, 2) && -100 < y < 100
    ensures (tm.year - y) % 100 == 0 && (tm.year >= 0 ==> y >= 0) && (tm.year <= 0 ==> y <= 0)
  {
    y := Remainder(tm.year, 100);
    RemainderIs(tm.year);
    NumberIsShown('y', y, 2, tm);
  }

  const SHORT_MONTHS := ["Jan", "Feb", "Mar", "Apr", "May", "Jun", "Jul", "Aug", "Sep", "Oct", "Nov", "Dec"]
  const SHORT_DAYS := ["Sun", "Mon", "Tue", "Wed", "Thu", "Fri", "Sat"]

  /** The short names, which begin the full names. */
  lemma NamesAreShown(tm: Tm)
    ensures Expand("%b", tm) == SHORT_MONTHS[tm.mon]
    ensures Expand("%a", tm) == SHORT_DAYS[tm.wday]
    ensures Expand("%b", tm) <= Expand("%B", tm) == MonthName(tm.mon)
    ensures Expand("%a", tm) <= Expand("%A", tm) == DayName(tm.wday)
  {
    ExpandOne('a', tm);
    ExpandOne('b', tm);
    ExpandOne('A', tm);
    ExpandOne('B', tm);
    ShortMonth(tm.mon);
    ShortDay(tm.wday);
  }

  lemma ShortMonth(m: nat)
    requires m < 12
    ensures MonthName(m)[..3] == SHORT_MONTHS[m]
  {
    match m
    case 0 => assert MonthName(0)[..3] == "Jan" == SHORT_MONTHS[0];
    case 1 => assert MonthName(1)[..3] == "Feb" == SHORT_MONTHS[1];
    case 2 => assert MonthName(2)[..3] == "Mar" == SHORT_MONTHS[2];
    case 3 => assert MonthName(3)[..3] == "Apr" == SHORT_MONTHS[3];
    case 4 => assert MonthName(4)[..3] == "May" == SHORT_MONTHS[4];
    case 5 => assert MonthName(5)[..3] == "Jun" == SHORT_MONTHS[5];
    case 6 => assert MonthName(6)[..3] == "Jul" == SHORT_MONTHS[6];
    case 7 => assert MonthName(7)[..3] == "Aug" == SHORT_MONTHS[7];
    case 8 => assert MonthName(8)[..3] == "Sep" == SHORT_MONTHS[8];
    case 9 => assert MonthName(9)[..3] == "Oct" == SHORT_MONTHS[9];
    case 10 => assert MonthName(10)[..3] == "Nov" == SHORT_MONTHS[10];
    case 11 => assert MonthName(11)[..3] == "Dec" == SHORT_MONTHS[11];
    case _ =>
  }

  lemma ShortDay(d: nat)
    requires d < 7
    ensures DayName(d)[..3] == SHORT_DAYS[d]
  {
  }

  /** The full names, one after the other. */
  lemma FullMonths()
    ensures MonthName(0) + MonthName(1) + MonthName(2) == "JanuaryFebruaryMarch"
    ensures MonthName(3) + MonthName(4) + MonthName(5) == "AprilMayJune"
    ensures MonthName(6) + MonthName(7) + MonthName(8) == "JulyAugustSeptember"
  {
  }

  lemma LastMonths()
    ensures MonthName(9) + MonthName(10) + MonthName(11) == "OctoberNovemberDecember"
  {
  }

  lemma FullDays()
    ensures DayName(0) + DayName(1) + DayName(2) + DayName(3) == "SundayMondayTuesdayWednesday"
    ensures DayName(4) + DayName(5) + DayName(6) == "ThursdayFridaySaturday"
  {
  }

  /** Everything else stands for itself, and %% for one %. */
  lemma OthersAreShown(c: char, tm: Tm)
    requires c != 'Y' && c != 'y' && c != 'm' && c != 'd' && c != 'H' && c != 'M' && c != 'S'
    requires c != 'A' && c != 'a' && c != 'B' && c != 'b' && c != '%' && c != '\0'
    ensures Expand(['%', c], tm) == ['%', c] && Expand("%%", tm) == "%"
  {
    ExpandOne(c, tm);
    ExpandOne('%', tm);
    assert "%%" == ['%', '%'];
  }

  lemma Literal(conv: Converter, c: char, f: string)
    requires c != '%'
    ensures ExpandWith(conv, [c] + f) == [c] + ExpandWith(conv, f)
  {
    assert ([c] + f)[1..] == f;
  }

  lemma Converted(conv: Converter, c: char, f: string)
    ensures ExpandWith(conv, ['%', c] + f) == conv(c) + ExpandWith(conv, f)
  {
    var g := ['%', c] + f;
    assert g[0] == '%' && g[1] == c && g[2..] == f;
  }

  lemma TimeFormat(conv: Converter)
    ensures ExpandWith(conv, "%H:%M:%S") == conv('H') + (":" + (conv('M') + (":" + conv('S'))))
  {
    Converted(conv, 'S', "");
    assert ['%', 'S'] + "" == "%S" && conv('S') + ExpandWith(conv, "") == conv('S');
    Literal(conv, ':', "%S");
    Converted(conv, 'M', ":%S");
    Literal(conv, ':', "%M:%S");
    Converted(conv, 'H', ":%M:%S");
  }

  /** A date and a time in one format. */
  lemma StampParts(conv: Converter)
    ensures ExpandWith(conv, "%Y-%m-%d %H:%M:%S") ==
      conv('Y') + ("-" + (conv('m') + ("-" + (conv('d') + (" " + ExpandWith(conv, "%H:%M:%S"))))))
  {
    Literal(conv, ' ', "%H:%M:%S");
    Converted(conv, 'd', " %H:%M:%S");
    Literal(conv, '-', "%d %H:%M:%S");
    Converted(conv, 'm', "-%d %H:%M:%S");
    Literal(conv, '-', "%m-%d %H:%M:%S");
    Converted(conv, 'Y', "-%m-%d %H:%M:%S");
  }

  /** The fields of a calendar date and time of day, in years of four digits. */
  predicate Calendar(tm: Fields) {
    && 0 <= tm.year + 1900 < 10000 && 0 <= tm.mon < 12 && 1 <= tm.mday <= 31
    && 0 <= tm.hour < 24 && 0 <= tm.min < 60 && 0 <= tm.sec <= 60
  }

  /** Two digits, a separator and more. */
  lemma TwoDigits(text: string, sep: char, rest: string, n: int)
    requires Shows(text, n, 2) && 0 <= n < 100
    ensures var e := text + ([sep] + rest); |text| == 2 && e[..2] == text && e[2] == sep && e[3..] == rest
  {
    assert Pow10(2) == 100;
  }

  lemma FourDigits(text: string, sep: char, rest: string, n: int)
    requires Shows(text, n, 4) && 0 <= n < 10000
    ensures var e := text + ([sep] + rest); |text| == 4 && e[..4] == text && e[4] == sep && e[5..] == rest
  {
    assert Pow10(4) == 10000;
  }

  /** text is the time of day of tm: hour, minute and second, two digits each. */
  ghost predicate ShowsTime(text: string, tm: Fields) {
    && |text| == 8 && text[2] == ':' && text[5] == ':'
    && Shows(text[..2], tm.hour, 2) && Shows(text[3..5], tm.min, 2) && Shows(text[6..], tm.sec, 2)
  }

  ghost predicate ShowsDate(text: string, tm: Fields) {
    && |text| == 10 && text[4] == '-' && text[7] == '-'
    && Shows(text[..4], tm.year + 1900, 4) && Shows(text[5..7], tm.mon + 1, 2) && Shows(text[8..], tm.mday, 2)
  }

  lemma TimeParts(h: string, m: string, s: string, tm: Fields)
    requires Calendar(tm) && Shows(h, tm.hour, 2) && Shows(m, tm.min, 2) && Shows(s, tm.sec, 2)
    ensures ShowsTime(h + (":" + (m + (":" + s))), tm)
  {
    var r := m + (":" + s);
    var e := h + (":" + r);
    TwoDigits(h, ':', r, tm.hour);
    TwoDigits(m, ':', s, tm.min);
    assert Pow10(2) == 100;
    assert e[3..5] == r[..2] && e[6..] == r[3..] && e[5] == r[2];
  }

  lemma DateParts(y: string, m: string, d: string, rest: string, tm: Fields)
    requires Calendar(tm) && Shows(y, tm.year + 1900, 4) && Shows(m, tm.mon + 1, 2) && Shows(d, tm.mday, 2)
    ensures var e := y + ("-" + (m + ("-" + (d + (" " + rest)))));
      |e| >= 11 && ShowsDate(e[..10], tm) && e[10] == ' ' && e[11..] == rest
  {
    var q := d + (" " + rest);
    var r := m + ("-" + q);
    var e := y + ("-" + r);
    FourDigits(y, '-', r, tm.year + 1900);
    TwoDigits(m, '-', q, tm.mon + 1);
    TwoDigits(d, ' ', rest, tm.mday);
    var t := e[..10];
    assert t[..4] == y && t[5..7] == r[..2] && t[7] == r[2] && t[8..] == q[..2];
    assert e[10] == q[2] && e[11..] == q[3..];
  }

  lemma StampOf(conv: Converter, tm: Fields)
    requires Calendar(tm) && ShowsDateBy(conv, tm) && ShowsTimeBy(conv, tm)
    ensures var e := ExpandWith(conv, "%Y-%m-%d %H:%M:%S");
      |e| >= 11 && ShowsDate(e[..10], tm) && e[10] == ' ' && ShowsTime(e[11..], tm)
  {
    var time := ExpandWith(conv, "%H:%M:%S");
    StampParts(conv);
    TimeFormat(conv);
    TimeParts(conv('H'), conv('M'), conv('S'), tm);
    DateParts(conv('Y'), conv('m'), conv('d'), time, tm);
  }

  /** All six fields can be read back from one format, in their places. */
  lemma StampIsShown(tm: Tm)
    requires Calendar(tm)
    ensures var e := Expand("%Y-%m-%d %H:%M:%S", tm);
      |e| == 19 && ShowsDate(e[..10], tm) && e[10] == ' ' && ShowsTime(e[11..], tm)
  {
    DateConversions(tm);
    TimeConversions(tm);
    StampOf(c => Conversion(c, tm), tm);
  }

  lemma {:induction false} DanglingAfter(f: string, p: nat)
    requires p <= |f| && Dangling(f[..p]) == p
    ensures Dangling(f) == p + Dangling(f[p..])
  {
    if p == 0 {
      assert f[0..] == f;
    } else if f[0] != '%' {
      assert f[..p][1..] == f[1..][..p - 1] && f[1..][p - 1..] == f[p..];
      DanglingAfter(f[1..], p - 1);
    } else {
      assert f[..p][0] == '%';
      assert f[..p][2..] == f[2..][..p - 2] && f[2..][p - 2..] == f[p..];
      DanglingAfter(f[2..], p - 2);
    }
  }

  /** A complete prefix extended by one complete item is complete, and its
      expansion grows by that item's text. */
  lemma OneMoreItem(conv: Converter, f: string, p: nat, q: nat)
    requires p < q <= |f| && Dangling(f[..p]) == p && Dangling(f[p..q]) == q - p
    ensures Dangling(f[..q]) == q
    ensures ExpandWith(conv, f[..q]) == ExpandWith(conv, f[..p]) + ExpandWith(conv, f[p..q])
  {
    var g := f[..q];
    assert g[..p] == f[..p] && g[p..] == f[p..q];
    DanglingAfter(g, p);
    ExpandConcatenates(conv, f[..p], f[p..q]);
    assert g == f[..p] + f[p..q];
  }
}

module StrftimeBuffer {
  import opened Sequences
  import opened StrftimeSpec

  function Min(a: nat, b: nat): nat {
    if a <= b then a else b
  }

  /** The inner loop: temp goes out until it ends or the buffer is full. */
  method PutText(s: array<char>, out: nat, end: nat, temp: string) returns (o: nat)
    requires out <= end < s.Length
    modifies s
    ensures o == Min(out + |temp|, end)
    ensures s[..out] == old(s[..out]) && s[out..o] == temp[..o - out] && s[o..] == old(s[o..])
  {
    var t := 0;
    while t < |temp| && out + t < end
      invariant 0 <= t <= |temp| && out + t <= end
      invariant s[..out] == old(s[..out]) && s[out..out + t] == temp[..t]
      invariant s[out + t..] == old(s[out + t..])
    {
      s[out + t] := temp[t];
      t := t + 1;
    }
    o := out + t;
  }

  /** The buffer holds the expansion of the first p characters of the format, as
      far as it fits below end. */
  ghost predicate Holds(s: seq<char>, out: nat, end: nat, conv: Converter, format: string, p: nat)
    requires p <= |format|
  {
    var done := ExpandWith(conv, format[..p]);
    Dangling(format[..p]) == p && out == Min(|done|, end) && out <= |s| && s[..out] == done[..out]
  }

  lemma HoldsMore(s: seq<char>, s': seq<char>, out: nat, o: nat, end: nat, conv: Converter,
                  format: string, p: nat, q: nat, temp: string)
    requires p < q <= |format| && Holds(s, out, end, conv, format, p) && out < end
    requires Dangling(format[p..q]) == q - p && temp == ExpandWith(conv, format[p..q])
    requires o == Min(out + |temp|, end) && o <= |s'|
    requires s'[..out] == s[..out] && s'[out..o] == temp[..o - out]
    ensures Holds(s', o, end, conv, format, q)
  {
    OneMoreItem(conv, format, p, q);
    var done := ExpandWith(conv, format[..p]);
    assert s'[..out] == done;
    assert s'[..o] == s'[..out] + s'[out..o];
    assert (done + temp)[..o] == done + temp[..o - out];
  }

  /** The part of a format in memory that can be gone through while the next character can
      still be looked at. */
  function Readable(memory: string): string
    requires memory != ""
  {
    if Terminated(memory) then Text(memory) else Text(memory[..|memory| - 1])
  }

  /** At p the format goes on, with a character or a whole conversion, or is ended by a zero,
      or by the end of what can be read. */
  predicate Looks(memory: string, p: nat)
    requires memory != ""
  {
    var format := Readable(memory);
    p < |memory| && p <= |format| && format == memory[..|format|] &&
    if p < |format| then memory[p] != '\0' && (memory[p] == '%' ==> p + 2 <= |format|)
    else Terminated(memory) ==> memory[p] == '\0'
  }

  lemma WholeFormat(format: string, p: nat)
    requires p == |format|
    ensures format[..p] == format
  {
  }

  lemma {:induction false} EndAfter(m: string, p: nat)
    requires p <= TextEnd(m) && Dangling(m[..p]) == p
    ensures TextEnd(m) == p + TextEnd(m[p..])
    decreases |m|
  {
    if p == 0 {
      assert m[0..] == m;
    } else if m[0] != '%' {
      assert m[..p][1..] == m[1..][..p - 1] && m[1..][p - 1..] == m[p..];
      EndAfter(m[1..], p - 1);
    } else {
      assert m[..p][0] == '%';
      assert m[..p][2..] == m[2..][..p - 2] && m[2..][p - 2..] == m[p..];
      EndAfter(m[2..], p - 2);
    }
  }

  lemma LookAhead(memory: string, p: nat)
    requires memory != "" && p <= |Readable(memory)| && Dangling(Readable(memory)[..p]) == p
    ensures Looks(memory, p)
  {
    var m := if Terminated(memory) then memory else memory[..|memory| - 1];
    var k := TextEnd(m);
    assert Readable(memory) == m[..k] && m[..k] == memory[..k] && m[..k][..p] == m[..p];
    EndAfter(m, p);
  }

  /** The formatter, with the memory from its format on: the format, the zero and what lies
      behind that.  It writes exactly the first min(max - 1, length) characters of the
      expansion and a terminator, and returns that count.  The memory must be ended by a zero
      or be enough to fill the buffer. */
  method Strftime(s: array<char>, max: nat, memory: string, tm: Tm) returns (n: nat)
    requires 1 <= max <= s.Length && memory != ""
    requires Terminated(memory) || |Expand(Readable(memory), tm)| >= max - 1
    modifies s
    ensures n == Min(max - 1, |Expand(Readable(memory), tm)|)
    ensures s[..n] == Expand(Readable(memory), tm)[..n] && s[n] == '\0'
    ensures s[n + 1..] == old(s[n + 1..])
  {
    ghost var conv: Converter := c => Conversion(c, tm);
    ghost var format := Readable(memory);
    var out, end, p := 0, max - 1, 0;
    LookAhead(memory, 0);
    while memory[p] != '\0' && out < end
      invariant 0 <= out <= end && 0 <= p <= |format| && Holds(s[..], out, end, conv, format, p)
      invariant s[out..] == old(s[out..])
      invariant p < |memory| && Looks(memory, p)
      decreases |format| - p
    {
      ghost var before := s[..];
      if p == |format| { WholeFormat(format, p); }
      var q, temp := p + 1, [memory[p]];
      if memory[p] == '%' {
        q, temp := p + 2, Conversion(memory[p + 1], tm);
      }
      ItemText(conv, format, p, q);
      var o := PutText(s, out, end, temp);
      HoldsMore(before, s[..], out, o, end, conv, format, p, q, temp);
      LookAhead(memory, q);
      out, p := o, q;
    }
    n := out;
    Truncated(conv, format, p, end, n);
    s[n] := '\0';
  }

  lemma ItemText(conv: Converter, f: string, p: nat, q: nat)
    requires p < q <= |f| && q == if f[p] == '%' then p + 2 else p + 1
    ensures Dangling(f[p..q]) == q - p
    ensures ExpandWith(conv, f[p..q]) == if f[p] == '%' then conv(f[p + 1]) else [f[p]]
  {
    var g := f[p..q];
    assert g[q - p..] == "";
    assert ExpandWith(conv, "") == "";
  }

  lemma Truncated(conv: Converter, f: string, p: nat, end: nat, n: nat)
    requires p <= |f| && Dangling(f[..p]) == p
    requires n == Min(|ExpandWith(conv, f[..p])|, end) && (p == |f| || n == end)
    ensures n == Min(|ExpandWith(conv, f)|, end)
    ensures ExpandWith(conv, f[..p])[..n] == ExpandWith(conv, f)[..n]
  {
    assert f == f[..p] + f[p..];
    ExpandConcatenates(conv, f[..p], f[p..]);
    assert p == |f| ==> f[p..] == "";
  }

  // ---------- what lies behind the format ----------

  lemma {:induction false} TextOf(format: string, behind: string)
    requires '\0' !in format
    ensures var memory := format + ("\0" + behind);
      if Dangling(format) == |format| then Text(memory) == format && Terminated(memory)
      else Text(memory) == format + ("\0" + Text(behind)) && (Terminated(memory) <==> Terminated(behind))
    decreases |format|
  {
    var memory := format + ("\0" + behind);
    if format == "" {
      NothingFirst("\0" + behind);
    } else if format == "%" {
      assert memory[2..] == behind;
    } else {
      var n := ItemLength(format);
      TextOf(format[n..], behind);
      DropConcat(format, "\0" + behind, n);
    }
  }

  /** A '%' at the very end of a format is printed, and then what lies behind it. */
  lemma {:induction false} ExpandBehind(conv: Converter, format: string, g: string)
    requires Dangling(format) < |format| && conv('\0') == "%"
    ensures ExpandWith(conv, format + ("\0" + g)) == ExpandWith(conv, format) + ExpandWith(conv, g)
    decreases |format|
  {
    var memory := format + ("\0" + g);
    if format == "%" {
      assert memory[2..] == g;
    } else {
      var n, z := ItemLength(format), "\0" + g;
      ExpandItem(conv, format);
      ExpandBehind(conv, format[n..], g);
      SameFirstItem(conv, format, z);
      DropConcat(format, z, n);
      ExpandItem(conv, memory);
      Associates(FirstItem(conv, format), ExpandWith(conv, format[n..]), ExpandWith(conv, g));
    }
  }

  /** What is printed of a format with that behind its zero. */
  function Printed(format: string, behind: string, max: nat, tm: Tm): string
    requires max >= 1
  {
    var e := Expand(Text(format + ("\0" + behind)), tm);
    e[..Min(max - 1, |e|)]
  }

  lemma TakeOfTwo(e: string, x: string, n: nat)
    ensures (e + x)[..Min(n, |e + x|)] == if |e| >= n then e[..n] else e + x[..Min(n - |e|, |x|)]
  {
  }

  lemma PrintedBehind(format: string, behind: string, max: nat, tm: Tm)
    requires max >= 1 && '\0' !in format
    ensures var e := Expand(format, tm);
      Printed(format, behind, max, tm) ==
      if Dangling(format) == |format| || |e| >= max - 1 then e[..Min(max - 1, |e|)]
      else e + Expand(Text(behind), tm)[..Min(max - 1 - |e|, |Expand(Text(behind), tm)|)]
  {
    var conv: Converter := c => Conversion(c, tm);
    TextOf(format, behind);
    if Dangling(format) < |format| {
      ExpandBehind(conv, format, Text(behind));
      TakeOfTwo(ExpandWith(conv, format), ExpandWith(conv, Text(behind)), max - 1);
    }
  }

  /** For every format: what is printed is the same whatever lies behind it if and only if
      the format does not end in a lone '%', or is too long for the buffer to be left room
      behind that. */
  lemma LonePercentReadsOn(format: string, max: nat, tm: Tm)
    requires max >= 1 && '\0' !in format
    ensures (forall a, b | Terminated(a) && Terminated(b) :: Printed(format, a, max, tm) == Printed(format, b, max, tm))
      <==> Dangling(format) == |format| || |Expand(format, tm)| >= max - 1
  {
    forall a, b | Terminated(a) && Terminated(b) && (Dangling(format) == |format| || |Expand(format, tm)| >= max - 1)
      ensures Printed(format, a, max, tm) == Printed(format, b, max, tm)
    {
      PrintedBehind(format, a, max, tm);
      PrintedBehind(format, b, max, tm);
    }
    if Dangling(format) < |format| && |Expand(format, tm)| < max - 1 {
      TwoTexts();
      PrintedBehind(format, "\0", max, tm);
      PrintedBehind(format, "x\0", max, tm);
      assert Printed(format, "\0", max, tm) != Printed(format, "x\0", max, tm);
    }
  }

  lemma TwoTexts()
    ensures Terminated("\0") && Text("\0") == "" && Terminated("x\0") && Text("x\0") == "x"
    ensures forall tm: Tm :: Expand("", tm) == "" && Expand("x", tm) == "x"
  {
    assert "x\0"[1..] == "\0";
  }
}
