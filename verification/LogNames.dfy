/**
The names of rotated log files: how a backup is named after its log and its
time, and how the rotation recognises the backups of a log among other files.
Names are those of files in one directory and hold no slash.
*/
module LogNames {
  import opened Text

  // --------------------------------------------------------------- split names

  /** filepath.Ext: the suffix from the last dot of the last path element, empty without a dot. */
  function Ext(path: string): string {
    if path == [] || path[|path| - 1] == '/' then []
    else if path[|path| - 1] == '.' then "."
    else
      var e := Ext(path[..|path| - 1]);
      if e == [] then [] else e + [path[|path| - 1]]
  }

  predicate EndsWith(s: string, suffix: string) {
    |suffix| <= |s| && s[|s| - |suffix|..] == suffix
  }

  function TrimSuffix(s: string, suffix: string): string {
    if EndsWith(s, suffix) then s[..|s| - |suffix|] else s
  }

  predicate StartsWith(s: string, prefix: string) {
    |prefix| <= |s| && s[..|prefix|] == prefix
  }

  function Base(path: string): string { TrimSuffix(path, Ext(path)) }

  /** An extension is empty, or a dot and no further dot or slash. */
  predicate IsExt(e: string) {
    e == [] || (e[0] == '.' && forall k :: 0 < k < |e| ==> e[k] != '.' && e[k] != '/')
  }

  lemma {:induction false} ExtShape(path: string)
    ensures EndsWith(path, Ext(path)) && IsExt(Ext(path)) && Base(path) + Ext(path) == path
    ensures Ext(path) == [] && Free(path, '/') ==> Free(path, '.')
  {
    if path != [] && path[|path| - 1] != '/' && path[|path| - 1] != '.' {
      var init := path[..|path| - 1];
      ExtShape(init);
      assert path == init + [path[|path| - 1]];
      ExtSnoc(init, path[|path| - 1]);
      ExtShapeMore(init, path[|path| - 1]);
    }
  }

  lemma ExtSnoc(init: string, c: char)
    requires c != '/' && c != '.'
    ensures Ext(init + [c]) == if Ext(init) == [] then [] else Ext(init) + [c]
  {
    var p := init + [c];
    assert p[..|p| - 1] == init && p[|p| - 1] == c;
  }

  lemma ExtShapeMore(init: string, c: char)
    requires c != '/' && c != '.'
    requires EndsWith(init, Ext(init)) && IsExt(Ext(init)) && Base(init) + Ext(init) == init
    ensures var p := init + [c]; EndsWith(p, Ext(p)) && IsExt(Ext(p)) && Base(p) + Ext(p) == p
  {
    var p, b, e := init + [c], Base(init), Ext(init);
    ExtSnoc(init, c);
    if e == [] {
      TrimConcat(p, []);
      assert p + [] == p;
    } else {
      TrimConcat(b, e + [c]);
      assert p == b + (e + [c]);
      assert IsExt(e + [c]);
    }
  }

  /** The extension of a text that ends in a non-empty extension is that extension. */
  lemma {:induction false} ExtOfConcat(s: string, e: string)
    requires IsExt(e) && e != []
    ensures Ext(s + e) == e
  {
    var p := s + e;
    if |e| == 1 {
      assert e == ".";
      assert p[|p| - 1] == '.';
    } else {
      var f := e[..|e| - 1];
      assert p[..|p| - 1] == s + f;
      ExtOfConcat(s, f);
      assert e == f + [e[|e| - 1]];
      assert p[|p| - 1] == e[|e| - 1];
    }
  }

  lemma {:induction false} ExtOfDotFree(s: string)
    requires Free(s, '.')
    ensures Ext(s) == []
  {
    if s != [] {
      ExtOfDotFree(s[..|s| - 1]);
    }
  }

  // ---------------------------------------------------------------- timestamps

  /** A UTC time in the fields the name shows. */
  datatype Stamp = Stamp(year: nat, month: nat, day: nat, hour: nat, minute: nat, second: nat, milli: nat)

  function DaysIn(month: nat, year: nat): nat {
    if month == 2 then (if year % 4 == 0 && (year % 100 != 0 || year % 400 == 0) then 29 else 28)
    else if month == 4 || month == 6 || month == 9 || month == 11 then 30
    else 31
  }

  /** A real date and time; the format has four digits for the year. */
  predicate RealTime(t: Stamp) {
    && t.year < 10000 && 1 <= t.month <= 12 && 1 <= t.day <= DaysIn(t.month, t.year)
    && t.hour < 24 && t.minute < 60 && t.second < 60 && t.milli < 1000
  }

  predicate SameClock(t: Stamp, u: Stamp) {
    t.hour == u.hour && t.minute == u.minute && t.second == u.second && t.milli == u.milli
  }

  predicate ClockBefore(t: Stamp, u: Stamp) {
    t.hour < u.hour || (t.hour == u.hour && (
    t.minute < u.minute || (t.minute == u.minute && (
    t.second < u.second || (t.second == u.second && t.milli < u.milli)))))
  }

  predicate Before(t: Stamp, u: Stamp) {
    t.year < u.year || (t.year == u.year && (
    t.month < u.month || (t.month == u.month && (
    t.day < u.day || (t.day == u.day && ClockBefore(t, u))))))
  }

  lemma Widths()
    ensures Pow10(2) == 100 && Pow10(3) == 1000 && Pow10(4) == 10000
  {
  }

  function Clock(t: Stamp): string
    requires RealTime(t)
  {
    Widths();
    Padded(t.hour, 2) + (Padded(t.minute, 2) + (Padded(t.second, 2) + ("." + Padded(t.milli, 3))))
  }

  /** The layout 20060102-150405.000. */
  function Format(t: Stamp): string
    requires RealTime(t)
  {
    Widths();
    Padded(t.year, 4) + (Padded(t.month, 2) + (Padded(t.day, 2) + ("-" + Clock(t))))
  }

  /** The three characters after the dot: digits, or a sign and two digits that are not negative. */
  predicate IsFraction(s: string) {
    && |s| == 3 && IsDigit(s[1]) && IsDigit(s[2])
    && (IsDigit(s[0]) || s[0] == '+' || (s[0] == '-' && s[1] == '0' && s[2] == '0'))
  }

  /**
  What time.Parse accepts for the layout; it takes a comma for the dot before the
  fraction and reads the fraction as a signed number.
  */
  predicate IsStamp(s: string) {
    && |s| == 19
    && AllDigits(s[..4]) && AllDigits(s[4..6]) && AllDigits(s[6..8]) && s[8] == '-'
    && AllDigits(s[9..11]) && AllDigits(s[11..13]) && AllDigits(s[13..15])
    && (s[15] == '.' || s[15] == ',') && IsFraction(s[16..])
    && 1 <= Number(s[4..6]) <= 12
    && 1 <= Number(s[6..8]) <= DaysIn(Number(s[4..6]), Number(s[..4]))
    && Number(s[9..11]) < 24 && Number(s[11..13]) < 60 && Number(s[13..15]) < 60
  }

  lemma Parts(a: string, b: string, c: string, rest: string)
    ensures var s := a + (b + (c + rest));
            && s[..|a|] == a && s[|a|..|a| + |b|] == b && s[|a| + |b|..|a| + |b| + |c|] == c
            && s[|a| + |b| + |c|..] == rest
  {
    var t := b + (c + rest);
    var s := a + t;
    assert s[..|a|] == a && s[|a|..] == t;
    assert t[..|b|] == b && t[|b|..] == c + rest;
  }

  lemma FormatLayout(t: Stamp)
    requires RealTime(t)
    ensures Pow10(2) == 100 && Pow10(3) == 1000 && Pow10(4) == 10000
    ensures var s := Format(t);
            && |s| == 19 && s[..4] == Padded(t.year, 4) && s[4..6] == Padded(t.month, 2) && s[6..8] == Padded(t.day, 2)
            && s[8] == '-' && s[9..] == Clock(t)
  {
    Widths();
    var rest := "-" + Clock(t);
    ClockLayout(t);
    Parts(Padded(t.year, 4), Padded(t.month, 2), Padded(t.day, 2), rest);
    assert Format(t)[8..] == rest;
    assert rest[0] == '-' && rest[1..] == Clock(t);
  }

  lemma ClockLayout(t: Stamp)
    requires RealTime(t)
    ensures Pow10(2) == 100 && Pow10(3) == 1000 && Pow10(4) == 10000
    ensures var s := Clock(t);
            && |s| == 10 && s[..2] == Padded(t.hour, 2) && s[2..4] == Padded(t.minute, 2)
            && s[4..6] == Padded(t.second, 2) && s[6] == '.' && s[7..] == Padded(t.milli, 3)
  {
    Widths();
    var rest := "." + Padded(t.milli, 3);
    Parts(Padded(t.hour, 2), Padded(t.minute, 2), Padded(t.second, 2), rest);
    assert Clock(t)[6..] == rest;
    assert rest[0] == '.' && rest[1..] == Padded(t.milli, 3);
  }

  /** A formatted time parses. */
  lemma FormatParses(t: Stamp)
    requires RealTime(t)
    ensures IsStamp(Format(t))
  {
    FormatLayout(t);
    ClockLayout(t);
    var s, c := Format(t), Clock(t);
    assert s[9..11] == c[..2] && s[11..13] == c[2..4] && s[13..15] == c[4..6] && s[15] == c[6] && s[16..] == c[7..];
    NumberPadded(t.year, 4);
    NumberPadded(t.month, 2);
    NumberPadded(t.day, 2);
    NumberPadded(t.hour, 2);
    NumberPadded(t.minute, 2);
    NumberPadded(t.second, 2);
  }

  /** The Gregorian calendar: months of 30 and 31 days, and February in leap years and others. */
  lemma Calendar(year: nat)
    ensures DaysIn(4, year) == DaysIn(6, year) == DaysIn(9, year) == DaysIn(11, year) == 30
    ensures forall m :: m in {1, 3, 5, 7, 8, 10, 12} ==> DaysIn(m, year) == 31
    ensures DaysIn(2, year) == 29 <==> (year % 4 == 0 && year % 100 != 0) || year % 400 == 0
    ensures DaysIn(2, year) != 29 ==> DaysIn(2, year) == 28
  {
  }

  function TimeOf(s: string): Stamp
    requires IsStamp(s) && AllDigits(s[16..])
  {
    Stamp(Number(s[..4]), Number(s[4..6]), Number(s[6..8]), Number(s[9..11]), Number(s[11..13]), Number(s[13..15]), Number(s[16..]))
  }

  lemma TimeIsReal(s: string)
    requires IsStamp(s) && AllDigits(s[16..])
    ensures RealTime(TimeOf(s))
  {
    Widths();
    PaddedNumber(s[..4]);
    PaddedNumber(s[16..]);
  }

  lemma DateText(s: string)
    requires IsStamp(s) && AllDigits(s[16..]) && RealTime(TimeOf(s))
    ensures Format(TimeOf(s)) == s[..4] + (s[4..6] + (s[6..8] + ("-" + Clock(TimeOf(s)))))
  {
    Widths();
    PaddedNumber(s[..4]);
    PaddedNumber(s[4..6]);
    PaddedNumber(s[6..8]);
  }

  lemma ClockText(s: string)
    requires IsStamp(s) && AllDigits(s[16..]) && RealTime(TimeOf(s))
    ensures Clock(TimeOf(s)) == s[9..11] + (s[11..13] + (s[13..15] + ("." + s[16..])))
  {
    Widths();
    PaddedNumber(s[9..11]);
    PaddedNumber(s[11..13]);
    PaddedNumber(s[13..15]);
    PaddedNumber(s[16..]);
  }

  lemma Pieces(s: string)
    requires |s| == 19 && s[8] == '-' && s[15] == '.'
    ensures s == s[..4] + (s[4..6] + (s[6..8] + ("-" + (s[9..11] + (s[11..13] + (s[13..15] + ("." + s[16..])))))))
  {
    var c := s[13..15] + ("." + s[16..]);
    assert c == s[13..];
    assert s[9..11] + (s[11..13] + c) == s[9..];
    assert "-" + s[9..] == s[8..];
    assert s[..4] + (s[4..6] + (s[6..8] + s[8..])) == s;
  }

  /** With a dot and three digits a text parses exactly if it is some time formatted. */
  lemma ParsesIffFormatted(s: string)
    requires |s| == 19 && s[15] == '.' && AllDigits(s[16..])
    ensures IsStamp(s) <==> exists t :: RealTime(t) && Format(t) == s
  {
    if IsStamp(s) {
      TimeIsReal(s);
      DateText(s);
      ClockText(s);
      Pieces(s);
      assert Format(TimeOf(s)) == s;
    }
    if t :| RealTime(t) && Format(t) == s {
      FormatParses(t);
    }
  }

  /** A comma may stand for the dot, and a plus sign or the text -00 for the fraction. */
  lemma ParsesWithVariants(s: string)
    requires |s| == 19
    ensures IsStamp(s[15 := ',']) <==> IsStamp(s[15 := '.'])
    ensures forall c, d :: IsFraction(['+', c, d]) <==> IsDigit(c) && IsDigit(d)
    ensures forall c, d :: IsFraction(['-', c, d]) <==> c == '0' && d == '0'
  {
    var a, b := s[15 := ','], s[15 := '.'];
    assert a[..4] == b[..4] && a[4..6] == b[4..6] && a[6..8] == b[6..8] && a[9..11] == b[9..11];
    assert a[11..13] == b[11..13] && a[13..15] == b[13..15] && a[16..] == b[16..];
  }

  lemma {:induction false} PaddedOrder(n: nat, m: nat, w: nat)
    requires n < m < Pow10(w)
    ensures Less(Padded(n, w), Padded(m, w))
  {
    if w > 0 {
      var a, b := Padded(n / 10, w - 1), Padded(m / 10, w - 1);
      if n / 10 == m / 10 {
        LessAfterPrefix(a, [DigitChar(n % 10)], [DigitChar(m % 10)]);
      } else {
        PaddedOrder(n / 10, m / 10, w - 1);
        LessTotal(a, b);
        LessBeforeSuffix(a, b, [DigitChar(n % 10)], [DigitChar(m % 10)]);
      }
    }
  }

  /** One field decides the order unless it is the same in both. */
  lemma FieldOrder(n: nat, m: nat, w: nat, s: string, t: string)
    requires n < Pow10(w) && m < Pow10(w)
    ensures Less(Padded(n, w) + s, Padded(m, w) + t) <==> n < m || (n == m && Less(s, t))
  {
    var a, b := Padded(n, w), Padded(m, w);
    if n == m {
      LessAfterPrefix(a, s, t);
    } else {
      if n < m { PaddedOrder(n, m, w); } else { PaddedOrder(m, n, w); }
      LessTotal(a, b);
      LessBeforeSuffix(a, b, s, t);
    }
  }

  lemma ClockShift(t: Stamp, x: string)
    requires RealTime(t)
    ensures Pow10(2) == 100 && Pow10(3) == 1000
    ensures Clock(t) + x == Padded(t.hour, 2) + (Padded(t.minute, 2) + (Padded(t.second, 2) + ("." + (Padded(t.milli, 3) + x))))
  {
    Widths();
  }

  lemma ClockOrder(t: Stamp, u: Stamp, x: string, y: string)
    requires RealTime(t) && RealTime(u)
    ensures Less(Clock(t) + x, Clock(u) + y) <==> ClockBefore(t, u) || (SameClock(t, u) && Less(x, y))
  {
    ClockShift(t, x);
    ClockShift(u, y);
    var a3, b3 := Padded(t.milli, 3) + x, Padded(u.milli, 3) + y;
    var a2, b2 := Padded(t.second, 2) + ("." + a3), Padded(u.second, 2) + ("." + b3);
    FieldOrder(t.hour, u.hour, 2, Padded(t.minute, 2) + a2, Padded(u.minute, 2) + b2);
    FieldOrder(t.minute, u.minute, 2, a2, b2);
    FieldOrder(t.second, u.second, 2, "." + a3, "." + b3);
    LessAfterPrefix(".", a3, b3);
    FieldOrder(t.milli, u.milli, 3, x, y);
  }

  /** The date decides the order unless it is the same in both. */
  lemma DateOrder(t: Stamp, u: Stamp, a: string, b: string)
    requires RealTime(t) && RealTime(u) && Pow10(2) == 100 && Pow10(4) == 10000
    ensures Less(Padded(t.year, 4) + (Padded(t.month, 2) + (Padded(t.day, 2) + a)),
                 Padded(u.year, 4) + (Padded(u.month, 2) + (Padded(u.day, 2) + b))) <==>
            (t.year < u.year || (t.year == u.year && (
             t.month < u.month || (t.month == u.month && (
             t.day < u.day || (t.day == u.day && Less(a, b)))))))
  {
    var a1, b1 := Padded(t.day, 2) + a, Padded(u.day, 2) + b;
    FieldOrder(t.year, u.year, 4, Padded(t.month, 2) + a1, Padded(u.month, 2) + b1);
    FieldOrder(t.month, u.month, 2, a1, b1);
    FieldOrder(t.day, u.day, 2, a, b);
  }

  /** Two different times order their names whatever follows the time. */
  lemma FormatOrder(t: Stamp, u: Stamp, x: string, y: string)
    requires RealTime(t) && RealTime(u) && t != u
    ensures Less(Format(t) + x, Format(u) + y) <==> Before(t, u)
  {
    Widths();
    FormatShift(t, x);
    FormatShift(u, y);
    DateOrder(t, u, "-" + (Clock(t) + x), "-" + (Clock(u) + y));
    LessAfterPrefix("-", Clock(t) + x, Clock(u) + y);
    ClockOrder(t, u, x, y);
  }

  lemma FormatShift(t: Stamp, x: string)
    requires RealTime(t)
    ensures Pow10(2) == 100 && Pow10(4) == 10000
    ensures Format(t) + x == Padded(t.year, 4) + (Padded(t.month, 2) + (Padded(t.day, 2) + ("-" + (Clock(t) + x))))
  {
    Widths();
  }

  // -------------------------------------------------------------------- backups

  const GZ := ".gz"

  function BackupName(path: string, t: Stamp): string
    requires RealTime(t)
  {
    Base(path) + "-" + Format(t) + Ext(path)
  }

  predicate IsBackupOf(orig: string, name: string) {
    StartsWith(name, Base(orig) + "-") &&
    var rest := TrimSuffix(name[|Base(orig)| + 1..], GZ);
    EndsWith(rest, Ext(orig)) && IsStamp(TrimSuffix(rest, Ext(orig)))
  }

  lemma TrimConcat(s: string, suffix: string)
    ensures EndsWith(s + suffix, suffix) && TrimSuffix(s + suffix, suffix) == s
  {
    assert (s + suffix)[|s|..] == suffix && (s + suffix)[..|s|] == s;
  }

  lemma TrimRejoins(s: string, suffix: string)
    requires EndsWith(s, suffix)
    ensures TrimSuffix(s, suffix) + suffix == s
  {
  }

  lemma StampEndsInDigit(ts: string)
    requires IsStamp(ts)
    ensures IsDigit(ts[18]) && IsDigit(ts[4])
  {
    assert ts[16..][2] == ts[18] && ts[4..6][0] == ts[4];
  }

  lemma EndsInGz(s: string)
    ensures EndsWith(s, GZ) <==> |s| >= 3 && s[|s| - 3] == '.' && s[|s| - 2] == 'g' && s[|s| - 1] == 'z'
  {
    if |s| >= 3 {
      var tail := s[|s| - 3..];
      assert tail[0] == s[|s| - 3] && tail[1] == s[|s| - 2] && tail[2] == s[|s| - 1];
    }
  }

  /** A time followed by an extension ends in .gz only if the extension is .gz. */
  lemma StampEndsInGz(ts: string, e: string)
    requires |ts| == 19 && IsDigit(ts[18]) && IsExt(e)
    ensures EndsWith(ts + e, GZ) <==> e == GZ
  {
    var s := ts + e;
    EndsInGz(s);
    if |e| == 0 {
      assert s[|s| - 1] == ts[18];
    } else if |e| <= 2 {
      assert s[19] == '.';
    } else {
      EndsInGz(e);
      assert s[|s| - 3] == e[|e| - 3] && s[|s| - 2] == e[|e| - 2] && s[|s| - 1] == e[|e| - 1];
      assert |e| == 3 ==> e[..] == [e[0], e[1], e[2]];
    }
  }

  /** The text of a backup name in full: log base, a time, log extension, and .gz or not. */
  predicate BackupText(orig: string, name: string, ts: string, gz: bool) {
    && IsStamp(ts)
    && name == Base(orig) + "-" + (ts + Ext(orig) + if gz then GZ else [])
    && (gz || Ext(orig) != GZ)
  }

  lemma BackupTextIsBackup(orig: string, name: string, ts: string, gz: bool)
    requires BackupText(orig, name, ts, gz)
    ensures IsBackupOf(orig, name) && (EndsWith(name[|Base(orig)| + 1..], GZ) <==> gz)
  {
    var e, pre := Ext(orig), Base(orig) + "-";
    ExtShape(orig);
    var core := ts + e;
    var rest := name[|pre|..];
    assert name[..|pre|] == pre && rest == core + if gz then GZ else [];
    TrimConcat(ts, e);
    if gz {
      TrimConcat(core, GZ);
    } else {
      assert rest == core;
      StampEndsInDigit(ts);
      StampEndsInGz(ts, e);
    }
  }

  lemma RestRejoins(rest: string, e: string)
    requires EndsWith(TrimSuffix(rest, GZ), e)
    ensures var core := TrimSuffix(rest, GZ);
            rest == TrimSuffix(core, e) + e + if EndsWith(rest, GZ) then GZ else []
    ensures !EndsWith(rest, GZ) ==> rest == TrimSuffix(TrimSuffix(rest, GZ), e) + e
  {
    TrimRejoins(TrimSuffix(rest, GZ), e);
    if EndsWith(rest, GZ) {
      TrimRejoins(rest, GZ);
    }
  }

  lemma PlainExtension(ts: string, e: string)
    requires IsStamp(ts) && IsExt(e) && !EndsWith(ts + e, GZ)
    ensures e != GZ
  {
    StampEndsInDigit(ts);
    StampEndsInGz(ts, e);
  }

  lemma BackupIsBackupText(orig: string, name: string) returns (ts: string, gz: bool)
    requires IsBackupOf(orig, name)
    ensures BackupText(orig, name, ts, gz)
  {
    var e, pre := Ext(orig), Base(orig) + "-";
    ExtShape(orig);
    var rest := name[|pre|..];
    var core := TrimSuffix(rest, GZ);
    gz := EndsWith(rest, GZ);
    ts := TrimSuffix(core, e);
    RestRejoins(rest, e);
    if !gz {
      PlainExtension(ts, e);
    }
    assert name == pre + rest;
  }

  /** Exactly the names made of the log's base, a time, its extension and possibly .gz are its backups. */
  lemma BackupsAreBackupTexts(orig: string, name: string)
    ensures IsBackupOf(orig, name) <==> exists ts, gz :: BackupText(orig, name, ts, gz)
  {
    if IsBackupOf(orig, name) {
      var ts, gz := BackupIsBackupText(orig, name);
    }
    if ts, gz :| BackupText(orig, name, ts, gz) {
      BackupTextIsBackup(orig, name, ts, gz);
    }
  }

  function StampedName(orig: string, ts: string): string { Base(orig) + "-" + ts + Ext(orig) }

  lemma StampedNameIsBackup(orig: string, ts: string)
    requires IsStamp(ts)
    ensures IsBackupOf(orig, StampedName(orig, ts) + GZ)
    ensures IsBackupOf(orig, StampedName(orig, ts)) <==> Ext(orig) != GZ
  {
    var e, pre, name := Ext(orig), Base(orig) + "-", StampedName(orig, ts);
    assert name == pre + (ts + e + []) && name + GZ == pre + (ts + e + GZ);
    BackupTextIsBackup(orig, name + GZ, ts, true);
    if e != GZ {
      BackupTextIsBackup(orig, name, ts, false);
    } else {
      assert name[|pre|..] == ts + GZ;
      TrimConcat(ts, GZ);
      StampEndsInDigit(ts);
      EndsInGz(ts);
    }
  }

  /** A compressed backup is always recognised, an uncompressed one unless the log itself is a .gz file. */
  lemma OwnBackupsAreRecognised(orig: string, t: Stamp)
    requires RealTime(t)
    ensures IsBackupOf(orig, BackupName(orig, t) + GZ)
    ensures IsBackupOf(orig, BackupName(orig, t)) <==> Ext(orig) != GZ
  {
    FormatParses(t);
    StampedNameIsBackup(orig, Format(t));
  }

  lemma Regroup(a: string, b: string, c: string, d: string)
    ensures a + b + c + d == a + (b + (c + d))
  {
  }

  /** The order of backup names is the order of their times, compressed or not. */
  lemma NameOrderIsTimeOrder(orig: string, t: Stamp, u: Stamp, x: string, y: string)
    requires RealTime(t) && RealTime(u) && t != u
    ensures Less(BackupName(orig, t) + x, BackupName(orig, u) + y) <==> Before(t, u)
  {
    var e, pre := Ext(orig), Base(orig) + "-";
    Regroup(pre, Format(t), e, x);
    Regroup(pre, Format(u), e, y);
    LessAfterPrefix(pre, Format(t) + (e + x), Format(u) + (e + y));
    FormatOrder(t, u, e + x, e + y);
  }

  // ----------------------------------------------------------------- one log each

  /** The extension of a backup name, up to .gz: the log's, or the fraction if the log has none. */
  lemma CoreExt(orig: string, ts: string)
    requires IsStamp(ts) && Free(orig, '/')
    ensures Ext(orig) != [] ==> Ext(StampedName(orig, ts)) == Ext(orig)
    ensures Ext(orig) == [] ==> Ext(StampedName(orig, ts)) == if ts[15] == '.' then ts[15..] else []
  {
    var e, b := Ext(orig), Base(orig);
    ExtShape(orig);
    if e != [] {
      ExtOfConcat(b + "-" + ts, e);
    } else {
      assert b == orig && Free(b, '.');
      StampDots(ts);
      if ts[15] == '.' {
        assert b + "-" + ts + e == (b + "-" + ts[..15]) + ts[15..];
        ExtOfConcat(b + "-" + ts[..15], ts[15..]);
      } else {
        ExtOfDotFree(b + "-" + ts + e);
      }
    }
  }

  lemma StampDots(ts: string)
    requires IsStamp(ts)
    ensures Free(ts[..15], '.') && IsExt(if ts[15] == '.' then ts[15..] else [])
    ensures ts[15] != '.' ==> Free(ts, '.')
  {
    assert forall k :: 0 <= k < 4 ==> ts[k] == ts[..4][k];
    assert forall k :: 4 <= k < 6 ==> ts[k] == ts[4..6][k - 4];
    assert forall k :: 6 <= k < 8 ==> ts[k] == ts[6..8][k - 6];
    assert forall k :: 9 <= k < 11 ==> ts[k] == ts[9..11][k - 9];
    assert forall k :: 11 <= k < 13 ==> ts[k] == ts[11..13][k - 11];
    assert forall k :: 13 <= k < 15 ==> ts[k] == ts[13..15][k - 13];
    assert forall k :: 16 <= k < 19 ==> ts[k] == ts[16..][k - 16];
  }

  /** A name without extension of its own log cannot be read with its fraction as extension. */
  lemma FractionIsNoExtension(o1: string, t1: string, o2: string, t2: string)
    requires IsStamp(t1) && IsStamp(t2) && Ext(o1) == [] && |Ext(o2)| == 4
    ensures StampedName(o1, t1) != StampedName(o2, t2)
  {
    var n1, n2 := StampedName(o1, t1), StampedName(o2, t2);
    StampEndsInDigit(t1);
    if |n1| == |n2| {
      assert n1[|n1| - 15] == t1[4];
      assert n2[|n2| - 15] == t2[8];
    }
  }

  lemma SameExtension(o1: string, t1: string, o2: string, t2: string)
    requires IsStamp(t1) && IsStamp(t2) && Free(o1, '/') && Free(o2, '/')
    requires StampedName(o1, t1) == StampedName(o2, t2)
    ensures Ext(o1) == Ext(o2)
  {
    CoreExt(o1, t1);
    CoreExt(o2, t2);
    if Ext(o1) != Ext(o2) {
      if Ext(o1) == [] {
        FractionIsNoExtension(o1, t1, o2, t2);
      } else {
        FractionIsNoExtension(o2, t2, o1, t1);
      }
    }
  }

  lemma DropTail(a: string, b: string, tail: string)
    requires a + tail == b + tail
    ensures a == b
  {
    assert a == (a + tail)[..|a|] && b == (b + tail)[..|b|];
  }

  lemma DropStamp(a: string, s: string, b: string, t: string)
    requires |s| == |t| && a + s == b + t
    ensures a == b && s == t
  {
    assert a == (a + s)[..|a|] && b == (b + t)[..|b|];
    assert s == (a + s)[|a|..] && t == (b + t)[|b|..];
  }

  lemma StampedNameInjective(o1: string, t1: string, o2: string, t2: string)
    requires IsStamp(t1) && IsStamp(t2) && Free(o1, '/') && Free(o2, '/')
    requires StampedName(o1, t1) == StampedName(o2, t2)
    ensures o1 == o2
  {
    SameExtension(o1, t1, o2, t2);
    DropTail(Base(o1) + "-" + t1, Base(o2) + "-" + t2, Ext(o1));
    DropStamp(Base(o1) + "-", t1, Base(o2) + "-", t2);
    DropTail(Base(o1), Base(o2), "-");
    assert o1 == Base(o1) + Ext(o1) by { ExtShape(o1); }
    assert o2 == Base(o2) + Ext(o2) by { ExtShape(o2); }
  }

  /** No file is a backup of two logs. */
  lemma BackupsBelongToOneLog(o1: string, o2: string, name: string)
    requires Free(o1, '/') && Free(o2, '/') && IsBackupOf(o1, name) && IsBackupOf(o2, name)
    ensures o1 == o2
  {
    var tail := if EndsWith(name, GZ) then GZ else [];
    var t1 := StampOf(o1, name);
    var t2 := StampOf(o2, name);
    DropTail(StampedName(o1, t1), StampedName(o2, t2), tail);
    StampedNameInjective(o1, t1, o2, t2);
  }

  lemma StampOf(orig: string, name: string) returns (ts: string)
    requires IsBackupOf(orig, name)
    ensures IsStamp(ts) && name == StampedName(orig, ts) + if EndsWith(name, GZ) then GZ else []
  {
    var gz: bool;
    ts, gz := BackupIsBackupText(orig, name);
    SameGz(orig, ts, gz, name);
    var tail := if gz then GZ else [];
    RegroupTail(Base(orig) + "-", ts, Ext(orig), tail);
  }

  lemma RegroupTail(a: string, b: string, c: string, d: string)
    ensures a + (b + c + d) == a + b + c + d
  {
  }

  lemma SameGz(orig: string, ts: string, gz: bool, name: string)
    requires BackupText(orig, name, ts, gz)
    ensures gz <==> EndsWith(name, GZ)
  {
    BackupTextIsBackup(orig, name, ts, gz);
    var rest := name[|Base(orig)| + 1..];
    EndsInGz(rest);
    EndsInGz(name);
    assert |rest| >= 19;
    assert rest[|rest| - 3] == name[|name| - 3] && rest[|rest| - 2] == name[|name| - 2] && rest[|rest| - 1] == name[|name| - 1];
  }
}
