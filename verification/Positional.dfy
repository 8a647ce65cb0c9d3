/**
 What numerals mean, said without the functions that print and scan them: a text
 is written by digits, and digits are worth what their positions make them.
 */
module Positional {
  import opened Basics
  import opened Numerals

  const DIGITS := "0123456789abcdef"

  function Pow(base: nat, k: nat): nat {
    if k == 0 then 1 else base * Pow(base, k - 1)
  }

  /** Each digit times the power of the base that its position stands for. */
  function Value(ds: seq<nat>, base: nat): nat
    decreases |ds|
  {
    if ds == [] then 0 else ds[0] * Pow(base, |ds| - 1) + Value(ds[1..], base)
  }

  /** The character is that digit, in either case. */
  predicate StandsFor(c: char, d: nat) {
    d < 16 && (c == DIGITS[d] || ('A' <= c <= 'F' && c as int + 32 == DIGITS[d] as int))
  }

  predicate Writes(text: string, ds: seq<nat>, base: nat) {
    |text| == |ds| && forall i :: 0 <= i < |ds| ==> ds[i] < base && StandsFor(text[i], ds[i])
  }

  /** The text is a nonempty row of digits of the base, worth n. */
  ghost predicate Reads(text: string, base: nat, n: nat) {
    text != "" && exists ds :: Writes(text, ds, base) && Value(ds, base) == n
  }

  lemma {:induction false} ValueAppend(ds: seq<nat>, d: nat, base: nat)
    ensures Value(ds + [d], base) == Value(ds, base) * base + d
    decreases |ds|
  {
    if ds == [] {
      assert [d][1..] == [];
    } else {
      var power, rest := Pow(base, |ds| - 1), Value(ds[1..], base);
      ValueAppend(ds[1..], d, base);
      ValueHead(ds, d, base);
      Shift(ds[0], base, power, rest);
    }
  }

  lemma ValueHead(ds: seq<nat>, d: nat, base: nat)
    requires ds != []
    ensures Value(ds + [d], base) == ds[0] * (base * Pow(base, |ds| - 1)) + Value(ds[1..] + [d], base)
  {
    assert (ds + [d])[1..] == ds[1..] + [d] && (ds + [d])[0] == ds[0];
  }

  lemma Shift(d: nat, base: nat, power: nat, rest: nat)
    ensures d * (base * power) + rest * base == (d * power + rest) * base
  {
  }

  /** With one more digit the number does not get smaller. */
  lemma AppendGrows(n: nat, base: nat, d: nat)
    requires base > 0
    ensures n * base + d >= n
  {
  }

  lemma DigitMeans(c: char, d: nat)
    requires d < 16
    ensures StandsFor(c, d) <==> DigitValue(c) == Some(d)
    ensures Digit(d) == DIGITS[d]
  {
  }

  // ---------- printing ----------

  /** The canonical numeral: lower-case digits of the base, no leading zero except in zero itself, worth n. */
  ghost predicate Canonical(text: string, base: nat, n: nat) {
    exists ds :: CanonicalBy(text, ds, base, n)
  }

  ghost predicate CanonicalBy(text: string, ds: seq<nat>, base: nat, n: nat) {
    && |text| == |ds| > 0 && (|ds| > 1 ==> ds[0] != 0) && Value(ds, base) == n
    && forall i :: 0 <= i < |ds| ==> ds[i] < base && ds[i] < 16 && text[i] == DIGITS[ds[i]]
  }

  lemma {:induction false} FormatIsCanonical(n: nat, base: nat) returns (ds: seq<nat>)
    requires 2 <= base <= 16
    ensures CanonicalBy(FormatUint(n, base), ds, base, n) && (n > 0 ==> ds[0] != 0)
    decreases n
  {
    if n < base {
      ds := [n];
      DigitMeans('0', n);
      ValueAppend([], n, base);
      assert [] + [n] == [n];
    } else {
      var q, d := DivideOut(n, base);
      var init := FormatIsCanonical(q, base);
      DigitMeans('0', d);
      ValueAppend(init, d, base);
      QuotientIsPositive(n, q, d, base);
      ds := init + [d];
      assert FormatUint(n, base) == FormatUint(q, base) + [Digit(d)];
    }
  }

  lemma QuotientIsPositive(n: nat, q: nat, d: nat, base: nat)
    requires n == q * base + d && d < base <= n
    ensures q > 0
  {
  }

  /** What Itoa prints is decimal: no leading zero, and a minus sign before the digits of a negative number. */
  ghost predicate PrintsDecimal(text: string, n: int) {
    if n >= 0 then Canonical(text, 10, n) else text != "" && text[0] == '-' && Canonical(text[1..], 10, -n)
  }

  lemma ItoaIsDecimal(n: int)
    ensures PrintsDecimal(Itoa(n), n)
  {
    var ds := FormatIsCanonical(if n < 0 then -n else n, 10);
    assert n < 0 ==> Itoa(n)[1..] == FormatUint(-n, 10);
  }

  lemma CanonicalInit(text: string, ds: seq<nat>, base: nat, n: nat) returns (init: seq<nat>, q: nat, d: nat)
    requires 2 <= base <= 16 && CanonicalBy(text, ds, base, n) && |ds| > 1
    ensures d < 16 && |init| == |ds| - 1 && CanonicalBy(text[..|text| - 1], init, base, q)
    ensures text == text[..|text| - 1] + [Digit(d)] && n >= base && n / base == q && n % base == d
  {
    var last := |ds| - 1;
    init, d := ds[..last], ds[last];
    q := Value(init, base);
    DigitMeans('0', d);
    assert init + [d] == ds;
    ValueAppend(init, d, base);
    LeadingDigitCounts(init, base);
    DivideBack(n, q, d, base);
  }

  /** There is only one canonical numeral, so the printed text is determined. */
  lemma {:induction false} CanonicalIsUnique(text: string, ds: seq<nat>, base: nat, n: nat)
    requires 2 <= base <= 16 && CanonicalBy(text, ds, base, n)
    ensures text == FormatUint(n, base)
    decreases |ds|
  {
    if |ds| == 1 {
      DigitMeans('0', ds[0]);
      ValueAppend([], ds[0], base);
      assert [] + [ds[0]] == ds;
    } else {
      var init, q, d := CanonicalInit(text, ds, base, n);
      CanonicalIsUnique(text[..|text| - 1], init, base, q);
    }
  }

  lemma {:induction false} LeadingDigitCounts(ds: seq<nat>, base: nat)
    requires ds != [] && ds[0] != 0 && base > 0
    ensures Value(ds, base) > 0
  {
    PowPositive(base, |ds| - 1);
    Grows(ds[0], Pow(base, |ds| - 1));
  }

  lemma {:induction false} PowPositive(base: nat, k: nat)
    requires base > 0
    ensures Pow(base, k) > 0
    decreases k
  {
    if k > 0 {
      PowPositive(base, k - 1);
      Grows(base, Pow(base, k - 1));
    }
  }

  lemma Grows(a: nat, b: nat)
    requires a > 0 && b > 0
    ensures a * b >= b
  {
  }

  lemma DivideBack(n: nat, q: nat, d: nat, base: nat)
    requires 2 <= base && n == q * base + d && d < base && q > 0
    ensures n >= base && n / base == q && n % base == d
  {
    Grows(q, base);
    var q', d' := DivideOut(n, base);
    if q > q' {
      LargerQuotient(q, d, q', d', base);
    } else if q' > q {
      LargerQuotient(q', d', q, d, base);
    }
  }

  lemma LargerQuotient(q: nat, d: nat, q': nat, d': nat, base: nat)
    requires q > q' && d < base && d' < base
    ensures q * base + d > q' * base + d'
  {
    Grows(q - q', base);
    assert (q - q') * base == q * base - q' * base;
  }

  // ---------- scanning ----------

  /** A row of digits scans as its value, or as too large. */
  lemma {:induction false} ScanWritten(text: string, ds: seq<nat>, base: nat, underscores: bool, maxVal: nat)
    requires 2 <= base <= 16 && Writes(text, ds, base)
    ensures Scan(text, base, underscores, maxVal, 0) ==
            if Value(ds, base) <= maxVal then Parsed(Value(ds, base), None) else Parsed(maxVal, Some(Range))
    decreases |text|
  {
    if text != "" {
      var last := |text| - 1;
      var init, d := ds[..last], ds[last];
      assert text == text[..last] + [text[last]] && ds == init + [d];
      ScanWritten(text[..last], init, base, underscores, maxVal);
      ValueAppend(init, d, base);
      AppendGrows(Value(init, base), base, d);
      ScanOneMore(text[..last], text[last], Value(init, base), d, Value(ds, base), base, underscores, maxVal);
    }
  }

  lemma ScanOneMore(s: string, c: char, q: nat, d: nat, n: nat, base: nat, underscores: bool, maxVal: nat)
    requires 2 <= base <= 16 && d < base && StandsFor(c, d) && n == q * base + d && q <= n
    requires Scan(s, base, underscores, maxVal, 0) ==
            if q <= maxVal then Parsed(q, None) else Parsed(maxVal, Some(Range))
    ensures Scan(s + [c], base, underscores, maxVal, 0) ==
            if n <= maxVal then Parsed(n, None) else Parsed(maxVal, Some(Range))
  {
    ScanAppend(s, [c], base, underscores, maxVal, 0);
    DigitMeans(c, d);
    assert [c][1..] == [];
  }

  /** Only rows of digits scan without an error. */
  lemma {:induction false} ScannedIsWritten(text: string, base: nat, maxVal: nat, n: nat) returns (ds: seq<nat>)
    requires base <= 16 && Scan(text, base, false, maxVal, n).error.None?
    ensures Writes(text, ds, base)
    decreases |text|
  {
    ds := [];
    if text != "" {
      var d := DigitValue(text[0]).value;
      var rest := ScannedIsWritten(text[1..], base, maxVal, n * base + d);
      DigitMeans(text[0], d);
      ds := [d] + rest;
    }
  }

  lemma {:induction false} RangeIsTop(text: string, base: nat, underscores: bool, maxVal: nat, n: nat)
    ensures var r := Scan(text, base, underscores, maxVal, n); r.error == Some(Range) ==> r.value == maxVal
    decreases |text|
  {
    if text != "" {
      if text[0] == '_' && underscores {
        RangeIsTop(text[1..], base, underscores, maxVal, n);
      } else if DigitValue(text[0]).Some? {
        RangeIsTop(text[1..], base, underscores, maxVal, n * base + DigitValue(text[0]).value);
      }
    }
  }

  /** What an explicit base accepts. */
  lemma ParseUintMeans(s: string, base: nat, limit: nat, n: nat)
    requires 2 <= base <= 16 && limit > 0
    ensures ParseUint(s, base, limit) == Parsed(n, None) <==> Reads(s, base, n) && n < limit
    ensures Reads(s, base, n) && n >= limit ==> ParseUint(s, base, limit) == Parsed(limit - 1, Some(Range))
  {
    if ds :| s != "" && Writes(s, ds, base) && Value(ds, base) == n {
      ScanWritten(s, ds, base, false, limit - 1);
    }
    if ParseUint(s, base, limit) == Parsed(n, None) {
      var ds := ScannedIsWritten(s, base, limit - 1, 0);
      ScanWritten(s, ds, base, false, limit - 1);
    }
  }

  /** ParseInt's sign, and then a row of digits. */
  ghost predicate ReadsSigned(s: string, base: nat, n: int) {
    if s != "" && s[0] == '-' then n <= 0 && Reads(s[1..], base, -n)
    else n >= 0 && Reads(if s != "" && s[0] == '+' then s[1..] else s, base, n)
  }

  /**
   With an explicit base ParseInt accepts, after an optional sign, exactly the rows of
   digits worth a number of 64 signed bits; larger ones it clips beside an error.
   */
  lemma ParseIntMeans(s: string, base: nat, n: int)
    requires 2 <= base <= 16
    ensures ParseInt(s, base) == Parsed(n, None) <==> ReadsSigned(s, base, n) && -TWO_63 <= n < TWO_63
    ensures ReadsSigned(s, base, n) && n >= TWO_63 ==> ParseInt(s, base) == Parsed(TWO_63 - 1, Some(Range))
    ensures ReadsSigned(s, base, n) && n < -TWO_63 ==> ParseInt(s, base) == Parsed(-TWO_63, Some(Range))
  {
    if s != "" {
      var body := if s[0] == '-' || s[0] == '+' then s[1..] else s;
      RangeIsTop(body, base, false, TWO_64 - 1, 0);
      ParseUintBounds(body, base, TWO_64);
      ParseUintMeans(body, base, TWO_64, if n < 0 then -n else n);
      var error := ParseUint(body, base, TWO_64).error;
      assert error.Some? ==> error.value.Syntax? || error.value.Range?;
    }
  }

  /**
   A character that is no digit makes the value 0, beside a syntax error, unless the
   digits before it are too many.
   */
  lemma GarbageReadsAsZero(s: string, good: string, ds: seq<nat>, c: char, rest: string, base: nat)
    requires 2 <= base <= 16 && Writes(good, ds, base) && Value(ds, base) < TWO_64
    requires forall d: nat :: d < base ==> !StandsFor(c, d)
    requires s != "" && (if s[0] == '-' || s[0] == '+' then s[1..] else s) == good + ([c] + rest)
    ensures ParseInt(s, base) == Parsed(0, Some(Syntax))
  {
    ScanWritten(good, ds, base, false, TWO_64 - 1);
    ScanAppend(good, [c] + rest, base, false, TWO_64 - 1, 0);
    if DigitValue(c).Some? && DigitValue(c).value < base {
      DigitMeans(c, DigitValue(c).value);
    }
  }

  /** Nothing after the sign reads as 0 beside a syntax error; too many digits are clipped, whatever follows them. */
  lemma NothingOrTooMuch(s: string, base: nat)
    requires 2 <= base <= 16
    ensures s in {"", "-", "+"} ==> ParseInt(s, base) == Parsed(0, Some(Syntax))
    ensures forall good, ds, rest ::
              s != "" && (if s[0] == '-' || s[0] == '+' then s[1..] else s) == good + rest
              && Writes(good, ds, base) && Value(ds, base) >= TWO_64
              ==> ParseInt(s, base) == Parsed(if s[0] == '-' then -TWO_63 else TWO_63 - 1, Some(Range))
  {
    forall good, ds, rest | s != "" && (if s[0] == '-' || s[0] == '+' then s[1..] else s) == good + rest
                            && Writes(good, ds, base) && Value(ds, base) >= TWO_64
      ensures ParseInt(s, base) == Parsed(if s[0] == '-' then -TWO_63 else TWO_63 - 1, Some(Range))
    {
      ScanWritten(good, ds, base, false, TWO_64 - 1);
      ScanAppend(good, rest, base, false, TWO_64 - 1, 0);
    }
  }

  /** Decimal text is printed and read in base 10. */
  lemma DecimalRoundTrip(n: int)
    requires -TWO_63 <= n < TWO_63
    ensures ParseInt(Itoa(n), 10) == Parsed(n, None)
  {
    var ds := FormatIsCanonical(if n < 0 then -n else n, 10);
    CanonicalReads(FormatUint(if n < 0 then -n else n, 10), ds, 10, if n < 0 then -n else n);
    assert n < 0 ==> Itoa(n)[1..] == FormatUint(-n, 10);
    ParseIntMeans(Itoa(n), 10, n);
  }

  lemma CanonicalReads(text: string, ds: seq<nat>, base: nat, n: nat)
    requires base <= 16 && CanonicalBy(text, ds, base, n)
    ensures Reads(text, base, n) && text[0] != '-' && text[0] != '+'
  {
    assert Writes(text, ds, base);
    assert text[0] == DIGITS[ds[0]];
  }

  /** An empty text, or one with anything but decimal digits after its sign, is no decimal number. */
  lemma NotDecimal(s: string)
    requires var body := if s != "" && (s[0] == '-' || s[0] == '+') then s[1..] else s;
             body == "" || exists c :: c in body && !('0' <= c <= '9')
    ensures ParseInt(s, 10).error.Some?
  {
    if ParseInt(s, 10).error.None? {
      var n, body := ParseInt(s, 10).value, if s[0] == '-' || s[0] == '+' then s[1..] else s;
      ParseIntMeans(s, 10, n);
      var ds :| Writes(body, ds, 10) && Value(ds, 10) == if n < 0 then -n else n;
      var c :| c in body && !('0' <= c <= '9');
      var i :| 0 <= i < |body| && body[i] == c;
      DigitMeans(c, ds[i]);
      assert false;
    }
  }

  // ---------- base 0 ----------

  /** The text without its underscores. */
  function Plain(s: string): string
    decreases |s|
  {
    if s == "" then "" else if s[0] == '_' then Plain(s[1..]) else [s[0]] + Plain(s[1..])
  }

  /** Every underscore has a digit after it, and before it a digit or, at the beginning, what announces the base. */
  ghost predicate Placed(s: string, announced: bool) {
    forall i :: 0 <= i < |s| && s[i] == '_' ==>
      i + 1 < |s| && s[i + 1] != '_' && (i > 0 || announced)
  }

  /**
   "0x", "0o" and "0b", in either case, announce a base before the digits; any other
   leading zero announces base 8.
   */
  ghost predicate Announced(s: string, base: nat, digits: string) {
    if |s| >= 3 && s[0] == '0' && s[1] in "xXoObB" then
      digits == s[2..] && base == (if s[1] in "xX" then 16 else if s[1] in "oO" then 8 else 2)
    else
      digits == s && s != "" && base == (if s[0] == '0' then 8 else 10)
  }

  /** The text is a Go integer literal without a sign, worth n. */
  ghost predicate Numeral(s: string, n: nat) {
    exists base, digits :: NumeralBy(s, base, digits, n)
  }

  ghost predicate NumeralBy(s: string, base: nat, digits: string, n: nat) {
    Announced(s, base, digits) && Placed(digits, digits != s) && Reads(Plain(digits), base, n)
  }

  lemma {:induction false} PlainHasNone(s: string)
    ensures '_' !in Plain(s)
    ensures '_' !in s ==> Plain(s) == s
    decreases |s|
  {
    if s != "" {
      PlainHasNone(s[1..]);
    }
  }

  lemma {:induction false} ScanSkips(s: string, base: nat, maxVal: nat, n: nat)
    ensures Scan(s, base, true, maxVal, n) == Scan(Plain(s), base, false, maxVal, n)
    decreases |s|
  {
    if s != "" {
      if s[0] == '_' {
        ScanSkips(s[1..], base, maxVal, n);
      } else {
        assert Plain(s)[1..] == Plain(s[1..]);
        match DigitValue(s[0])
        case None =>
        case Some(d) => ScanSkips(s[1..], base, maxVal, n * base + d);
      }
    }
  }

  /** Digits as underscoreOK knows them. */
  predicate Known(c: char, hex: bool) {
    '0' <= c <= '9' || (hex && ('a' <= c <= 'f' || 'A' <= c <= 'F'))
  }

  lemma {:induction false} UnderscoresArePlaced(s: string, hex: bool, saw: char)
    requires forall c :: c in s && c != '_' ==> Known(c, hex)
    ensures UnderscoreFrom(s, hex, saw) <==> Placed(s, saw == '0') && (s == "" ==> saw != '_')
    decreases |s|
  {
    if s != "" {
      assert s[0] in s;
      UnderscoresArePlaced(s[1..], hex, if s[0] == '_' then '_' else '0');
      PlacedHead(s, saw == '0');
    }
  }

  lemma PlacedHead(s: string, announced: bool)
    requires s != ""
    ensures Placed(s, announced) <==>
            if s[0] == '_' then announced && |s| > 1 && Placed(s[1..], false) else Placed(s[1..], true)
  {
    var t := s[1..];
    if Placed(s, announced) {
      forall i | 0 <= i < |t| && t[i] == '_'
        ensures i + 1 < |t| && t[i + 1] != '_' && (i > 0 || s[0] != '_')
      {
        assert s[i + 1] == '_';
      }
    }
    forall i | 0 < i < |s| && s[i] == '_'
      ensures t[i - 1] == '_' && (i + 1 < |s| ==> t[i] == s[i + 1])
    {
    }
  }

  lemma {:induction false} PlainKeeps(s: string, c: char)
    ensures c in Plain(s) <==> c in s && c != '_'
    decreases |s|
  {
    if s != "" {
      PlainKeeps(s[1..], c);
      assert c in s <==> c == s[0] || c in s[1..];
    }
  }

  /** The digits of a base that a prefix can announce are known to underscoreOK. */
  lemma WrittenIsKnown(s: string, base: nat)
    requires base <= 10 || base == 16
    requires exists ds :: Writes(Plain(s), ds, base)
    ensures forall c :: c in s && c != '_' ==> Known(c, base == 16)
  {
    var ds :| Writes(Plain(s), ds, base);
    forall c | c in s && c != '_'
      ensures Known(c, base == 16)
    {
      PlainKeeps(s, c);
      var i :| 0 <= i < |Plain(s)| && Plain(s)[i] == c;
      DigitMeans(c, ds[i]);
    }
  }

  lemma PrefixAnnounces(s: string)
    requires s != ""
    ensures var (base, digits) := Prefix(s);
            if s[0] == '0' && base == 8 && digits == s[1..] then Announced(s, 8, s)
            else Announced(s, base, digits)
    ensures Prefix(s).0 in {2, 8, 10, 16}
  {
  }

  /** A leading zero is worth nothing. */
  lemma ZeroInFront(text: string, base: nat, n: nat)
    requires base > 0
    ensures Reads("0" + text, base, n) <==> if text == "" then n == 0 else Reads(text, base, n)
  {
    if ds :| Writes("0" + text, ds, base) && Value(ds, base) == n {
      DigitMeans('0', ds[0]);
      assert ds[0] == 0 && Value(ds, base) == Value(ds[1..], base);
      assert Writes(text, ds[1..], base);
    }
    if ds :| Writes(text, ds, base) && Value(ds, base) == n {
      ZeroWritten(text, ds, base);
    }
    if text == "" {
      ZeroWritten(text, [], base);
    }
  }

  lemma ZeroWritten(text: string, ds: seq<nat>, base: nat)
    requires base > 0 && Writes(text, ds, base)
    ensures Writes("0" + text, [0] + ds, base) && Value([0] + ds, base) == Value(ds, base)
  {
    DigitMeans('0', 0);
    assert ([0] + ds)[1..] == ds;
  }

  /** The digits that follow the announcement, scanned. */
  lemma DigitsRead(digits: string, base: nat, limit: nat, n: nat)
    requires 2 <= base <= 16 && limit > 0 && Plain(digits) != ""
    ensures Scan(digits, base, true, limit - 1, 0) == Parsed(n, None) <==> Reads(Plain(digits), base, n) && n < limit
  {
    ScanSkips(digits, base, limit - 1, 0);
    ParseUintMeans(Plain(digits), base, limit, n);
  }

  lemma AllUnderscores(s: string, announced: bool)
    requires s != "" && Plain(s) == ""
    ensures !Placed(s, announced) && forall c :: c in s ==> c == '_'
  {
    forall c | c in s
      ensures c == '_'
    {
      PlainKeeps(s, c);
    }
    assert s[|s| - 1] in s;
  }

  /** The rule about underscores, where all else are digits of the announced base. */
  lemma UnderscoreRule(s: string, base: nat, digits: string)
    requires Announced(s, base, digits)
    requires Plain(digits) == "" || exists ds :: Writes(Plain(digits), ds, base)
    ensures UnderscoreOK(s) <==> Placed(digits, digits != s)
    ensures '_' !in digits ==> Placed(digits, digits != s)
  {
    if Plain(digits) == "" {
      AllUnderscores(digits, false);
    } else {
      WrittenIsKnown(digits, base);
    }
    assert digits == s && |s| > 1 ==> s[1] in s;
    UnderscoresArePlaced(digits, base == 16, if digits == s then '^' else '0');
  }

  /** A prefix, or a digit other than zero, in front. */
  lemma AnnouncedMeans(s: string, limit: nat, n: nat)
    requires limit > 0 && s != "" && Announced(s, Prefix(s).0, Prefix(s).1)
    ensures ParseUint(s, 0, limit) == Parsed(n, None) <==> Numeral(s, n) && n < limit
  {
    var (base, digits) := Prefix(s);
    assert Numeral(s, n) <==> NumeralBy(s, base, digits, n);
    if Plain(digits) == "" {
      UnderscoreRule(s, base, digits);
      AllUnderscores(digits, digits != s);
      assert digits[0] == '_';
    } else {
      DigitsRead(digits, base, limit, n);
      if Reads(Plain(digits), base, n) {
        UnderscoreRule(s, base, digits);
      }
    }
  }

  lemma PlainHead(t: string)
    ensures Plain("0" + t) == "0" + Plain(t)
  {
    assert ("0" + t)[1..] == t;
  }

  /** A leading zero and nothing else announces base 8, and is itself a digit of it. */
  lemma OctalMeans(s: string, t: string, limit: nat, n: nat)
    requires limit > 0 && s == "0" + t && Prefix(s) == (8, t)
    ensures ParseUint(s, 0, limit) == Parsed(n, None) <==> Numeral(s, n) && n < limit
  {
    PlainHead(t);
    OctalAnnounced(s, t, n);
    ZeroInFront(Plain(t), 8, n);
    if Plain(t) == "" {
      ScanSkips(t, 8, limit - 1, 0);
      ZeroWritten("", [], 8);
      assert Plain(s) == "0" + "" && Writes(Plain(s), [0] + [], 8);
      UnderscoreRule(s, 8, s);
    } else {
      DigitsRead(t, 8, limit, n);
      if Reads(Plain(t), 8, n) {
        UnderscoreRule(s, 8, s);
      }
    }
  }

  lemma OctalAnnounced(s: string, t: string, n: nat)
    requires s == "0" + t && Prefix(s) == (8, t)
    ensures Announced(s, 8, s) && ('_' in t <==> '_' in s)
    ensures Numeral(s, n) <==> Placed(s, false) && Reads(Plain(s), 8, n)
  {
    assert s[1..] == t;
    assert NumeralBy(s, 8, s, n) <==> Placed(s, false) && Reads(Plain(s), 8, n);
  }

  /**
   With base 0 ParseUint accepts exactly the unsigned integer literals below the
   bound, each as what it is worth.
   */
  lemma ParseUintMeansNumeral(s: string, limit: nat, n: nat)
    requires limit > 0
    ensures ParseUint(s, 0, limit) == Parsed(n, None) <==> Numeral(s, n) && n < limit
  {
    if s != "" {
      PrefixAnnounces(s);
      if s[0] == '0' && Prefix(s) == (8, s[1..]) {
        assert s == "0" + s[1..];
        OctalMeans(s, s[1..], limit, n);
      } else {
        AnnouncedMeans(s, limit, n);
      }
    }
  }

  /** A numeral holds digits, letters of digits and prefixes, and underscores: no sign, no blank, no unit of time. */
  lemma NumeralCharacters(s: string, n: nat)
    requires Numeral(s, n)
    ensures s != "" && '0' <= s[0] <= '9'
    ensures forall i :: 1 < i < |s| ==> s[i] == '_' || Known(s[i], true)
    ensures |s| > 1 ==> s[1] == '_' || Known(s[1], false) || s[1] in "xXoObB"
  {
    var base, digits :| NumeralBy(s, base, digits, n);
    WrittenIsKnown(digits, base);
    assert forall i :: 0 <= i < |digits| ==> digits[i] in digits;
    assert forall i :: 2 <= i < |s| && |digits| == |s| - 2 ==> digits[i - 2] == s[i];
  }

  lemma WrittenReads(text: string, ds: seq<nat>, base: nat, n: nat)
    requires text != "" && base <= 16 && Writes(text, ds, base)
    ensures Reads(text, base, n) <==> n == Value(ds, base)
  {
    if ds' :| Writes(text, ds', base) && Value(ds', base) == n {
      forall i | 0 <= i < |ds|
        ensures ds[i] == ds'[i]
      {
        DigitMeans(text[i], ds[i]);
        DigitMeans(text[i], ds'[i]);
      }
      assert ds == ds';
    }
  }

  /** A leading zero makes the numeral octal. */
  lemma OctalExample(n: nat)
    ensures Numeral("010", n) <==> n == 8
  {
    var s := "010";
    assert Plain(s) == s;
    assert Value([0, 1, 0], 8) == 8;
    DigitMeans('0', 0);
    DigitMeans('1', 1);
    WrittenReads(s, [0, 1, 0], 8, n);
    assert Numeral(s, n) <==> NumeralBy(s, 8, s, n);
  }

  /** Units of time, blanks and signs are refused. */
  lemma RefusedExamples(n: nat)
    ensures !Numeral("30s", n) && !Numeral("12h", n) && !Numeral("3 0", n) && !Numeral("+3", n) && !Numeral("", n)
  {
    forall s | s in {"30s", "12h", "3 0", "+3", ""}
      ensures !Numeral(s, n)
    {
      if Numeral(s, n) {
        NumeralCharacters(s, n);
        assert false;
      }
    }
  }
}
