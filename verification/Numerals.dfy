/**
 The numerals the daemon writes and reads: `strconv.FormatUint`, `Itoa`,
 `ParseUint` and `ParseInt` as far as hbtd uses them. Go returns a value even
 beside an error, and hb_checker ignores the error, so `Parsed` holds both.
 */
module Numerals {
  import opened Basics

  datatype ParseError = Syntax | Range
  datatype Parsed = Parsed(value: int, error: Option<ParseError>)

  function Digit(d: nat): char
    requires d < 16
  {
    if d < 10 then ('0' as int + d) as char else ('a' as int + d - 10) as char
  }

  function DigitValue(c: char): Option<nat> {
    if '0' <= c <= '9' then Some(c as int - '0' as int)
    else if 'a' <= c <= 'z' then Some(c as int - 'a' as int + 10)
    else if 'A' <= c <= 'Z' then Some(c as int - 'A' as int + 10)
    else None
  }

  function FormatUint(n: nat, base: nat): string
    requires 2 <= base <= 16
    decreases n
  {
    if n < base then [Digit(n)] else FormatUint(n / base, base) + [Digit(n % base)]
  }

  function Itoa(n: int): string {
    if n < 0 then "-" + FormatUint(-n, 10) else FormatUint(n, 10)
  }

  /** The digit loop of ParseUint, with the digits before `s` already worth `n`. */
  function Scan(s: string, base: nat, underscores: bool, maxVal: nat, n: nat): Parsed
    decreases |s|
  {
    if s == [] then Parsed(n, None)
    else if s[0] == '_' && underscores then Scan(s[1..], base, underscores, maxVal, n)
    else match DigitValue(s[0])
      case None => Parsed(0, Some(Syntax))
      case Some(d) =>
        if d >= base then Parsed(0, Some(Syntax))
        else if n * base + d > maxVal then Parsed(maxVal, Some(Range))
        else Scan(s[1..], base, underscores, maxVal, n * base + d)
  }

  predicate IsLetter(c: char, lower: char)
    requires 'a' <= lower <= 'z'
  {
    c == lower || c as int + 32 == lower as int
  }

  /** An underscore must stand between digits; a base prefix counts as a digit. */
  predicate UnderscoreOK(s: string) {
    var prefixed := |s| >= 2 && s[0] == '0' && (IsLetter(s[1], 'b') || IsLetter(s[1], 'o') || IsLetter(s[1], 'x'));
    if prefixed then UnderscoreFrom(s[2..], IsLetter(s[1], 'x'), '0') else UnderscoreFrom(s, false, '^')
  }

  predicate UnderscoreFrom(s: string, hex: bool, saw: char)
    decreases |s|
  {
    if s == [] then saw != '_'
    else if '0' <= s[0] <= '9' || (hex && ('a' <= s[0] <= 'f' || 'A' <= s[0] <= 'F')) then
      UnderscoreFrom(s[1..], hex, '0')
    else if s[0] == '_' then saw == '0' && UnderscoreFrom(s[1..], hex, '_')
    else saw != '_' && UnderscoreFrom(s[1..], hex, '!')
  }

  /** The base that the text announces, and the digits after the announcement. */
  function Prefix(s: string): (nat, string)
    requires s != []
  {
    if s[0] != '0' then (10, s)
    else if |s| >= 3 && IsLetter(s[1], 'b') then (2, s[2..])
    else if |s| >= 3 && IsLetter(s[1], 'o') then (8, s[2..])
    else if |s| >= 3 && IsLetter(s[1], 'x') then (16, s[2..])
    else (8, s[1..])
  }

  /** `base` 0 means that the text announces its base; `limit` is 2 to the bit size. */
  function ParseUint(s: string, base: nat, limit: nat): Parsed
    requires limit > 0
  {
    if s == [] then Parsed(0, Some(Syntax))
    else
      var (b, digits) := if base == 0 then Prefix(s) else (base, s);
      var r := Scan(digits, b, base == 0, limit - 1, 0);
      if r.error.None? && base == 0 && '_' in digits && !UnderscoreOK(s) then Parsed(0, Some(Syntax)) else r
  }

  /** ParseInt with bit size 64. */
  function ParseInt(s: string, base: nat): Parsed {
    if s == [] then Parsed(0, Some(Syntax))
    else
      var neg := s[0] == '-';
      var u := ParseUint(if s[0] == '-' || s[0] == '+' then s[1..] else s, base, TWO_64);
      if u.error == Some(Syntax) then Parsed(0, Some(Syntax))
      else if !neg && u.value >= TWO_63 then Parsed(TWO_63 - 1, Some(Range))
      else if neg && u.value > TWO_63 then Parsed(-TWO_63, Some(Range))
      else Parsed(if neg then -u.value else u.value, None)
  }

  // ---------- what is printed can be read back ----------

  lemma {:induction false} ScanAppend(s: string, t: string, base: nat, underscores: bool, maxVal: nat, n: nat)
    ensures var r := Scan(s, base, underscores, maxVal, n);
            Scan(s + t, base, underscores, maxVal, n) ==
            if r.error.None? && r.value >= 0 then Scan(t, base, underscores, maxVal, r.value) else r
    decreases |s|
  {
    if s == [] {
      assert s + t == t;
    } else {
      assert (s + t)[1..] == s[1..] + t;
      if s[0] == '_' && underscores {
        ScanAppend(s[1..], t, base, underscores, maxVal, n);
      } else {
        match DigitValue(s[0])
        case None =>
        case Some(d) =>
          if d < base && n * base + d <= maxVal {
            ScanAppend(s[1..], t, base, underscores, maxVal, n * base + d);
          }
      }
    }
  }

  lemma ScanDigit(d: nat, base: nat, underscores: bool, maxVal: nat, n: nat)
    requires d < base <= 16
    ensures Scan([Digit(d)], base, underscores, maxVal, n) ==
            if n * base + d > maxVal then Parsed(maxVal, Some(Range)) else Parsed(n * base + d, None)
  {
    assert DigitValue(Digit(d)) == Some(d) && Digit(d) != '_';
  }

  lemma DivideOut(n: nat, base: nat) returns (q: nat, d: nat)
    requires 2 <= base <= n
    ensures q == n / base && d == n % base
    ensures n == q * base + d && d < base && q < n
  {
    q, d := n / base, n % base;
  }

  /** Appending the last digit of n == q * base + d to a text that reads as q makes it read as n. */
  lemma ScanLast(s: string, q: nat, d: nat, n: nat, base: nat, underscores: bool, maxVal: nat)
    requires d < base <= 16 && n == q * base + d && q <= n
    requires Scan(s, base, underscores, maxVal, 0) ==
            if q <= maxVal then Parsed(q, None) else Parsed(maxVal, Some(Range))
    ensures Scan(s + [Digit(d)], base, underscores, maxVal, 0) ==
            if n <= maxVal then Parsed(n, None) else Parsed(maxVal, Some(Range))
  {
    ScanAppend(s, [Digit(d)], base, underscores, maxVal, 0);
    ScanDigit(d, base, underscores, maxVal, q);
  }

  /** Reading a printed numeral in its own base gives the number, or a range error just when it exceeds the bound. */
  lemma {:induction false} ScanFormat(n: nat, base: nat, underscores: bool, maxVal: nat)
    requires 2 <= base <= 16
    ensures Scan(FormatUint(n, base), base, underscores, maxVal, 0) ==
            if n <= maxVal then Parsed(n, None) else Parsed(maxVal, Some(Range))
    decreases n
  {
    if n < base {
      ScanDigit(n, base, underscores, maxVal, 0);
      assert FormatUint(n, base) == [Digit(n)];
    } else {
      var q, d := DivideOut(n, base);
      assert FormatUint(n, base) == FormatUint(q, base) + [Digit(d)];
      ScanFormat(q, base, underscores, maxVal);
      ScanLast(FormatUint(q, base), q, d, n, base, underscores, maxVal);
    }
  }

  lemma {:induction false} FormatShape(n: nat, base: nat)
    requires 2 <= base <= 16
    ensures FormatUint(n, base) != []
    ensures forall c :: c in FormatUint(n, base) ==> '0' <= c <= '9' || 'a' <= c <= 'f'
    ensures n > 0 ==> FormatUint(n, base)[0] != '0'
    decreases n
  {
    if n >= base {
      FormatShape(n / base, base);
    }
  }

  /** ParseUint with base 0 accepts what Itoa prints exactly for the numbers below the bound. */
  lemma ItoaRoundTrip(n: int, limit: nat)
    requires limit > 0
    ensures var r := ParseUint(Itoa(n), 0, limit);
            && (r.error.None? <==> 0 <= n < limit)
            && (r.error.None? ==> r.value == n)
  {
    if n >= 0 {
      FormatShape(n, 10);
      ScanFormat(n, 10, true, limit - 1);
    }
  }

  /** A number written in the base that its prefix announces is read as that number. */
  lemma PrefixedRoundTrip(n: nat, limit: nat)
    requires n < limit
    ensures ParseUint("0x" + FormatUint(n, 16), 0, limit) == Parsed(n, None)
    ensures ParseUint("0o" + FormatUint(n, 8), 0, limit) == Parsed(n, None)
    ensures ParseUint("0b" + FormatUint(n, 2), 0, limit) == Parsed(n, None)
  {
    AnnouncedRoundTrip("0x", 16, n, limit);
    AnnouncedRoundTrip("0o", 8, n, limit);
    AnnouncedRoundTrip("0b", 2, n, limit);
  }

  lemma AnnouncedRoundTrip(prefix: string, base: nat, n: nat, limit: nat)
    requires n < limit
    requires (prefix, base) == ("0x", 16) || (prefix, base) == ("0o", 8) || (prefix, base) == ("0b", 2)
    ensures ParseUint(prefix + FormatUint(n, base), 0, limit) == Parsed(n, None)
  {
    var digits := FormatUint(n, base);
    FormatShape(n, base);
    ScanFormat(n, base, true, limit - 1);
    var s := prefix + digits;
    assert s[0] == '0' && s[1] == prefix[1] && s[2..] == digits;
  }

  /** A receive time printed in hexadecimal is read back as itself. */
  lemma HexTimeRoundTrip(t: nat)
    requires t < TWO_63
    ensures ParseInt(FormatUint(t, 16), 16) == Parsed(t, None)
  {
    FormatShape(t, 16);
    ScanFormat(t, 16, false, TWO_64 - 1);
  }

  lemma {:induction false} ScanBounds(s: string, base: nat, underscores: bool, maxVal: nat, n: nat)
    requires n <= maxVal
    ensures 0 <= Scan(s, base, underscores, maxVal, n).value <= maxVal
    decreases |s|
  {
    if s != [] {
      if s[0] == '_' && underscores {
        ScanBounds(s[1..], base, underscores, maxVal, n);
      } else {
        match DigitValue(s[0])
        case None =>
        case Some(d) =>
          if d < base && n * base + d <= maxVal {
            ScanBounds(s[1..], base, underscores, maxVal, n * base + d);
          }
      }
    }
  }

  lemma ParseUintBounds(s: string, base: nat, limit: nat)
    requires limit > 0
    ensures 0 <= ParseUint(s, base, limit).value < limit
  {
    if s != [] {
      var (b, digits) := if base == 0 then Prefix(s) else (base, s);
      ScanBounds(digits, b, base == 0, limit - 1, 0);
    }
  }

  /** Whatever the text, ParseInt's value fits 64 signed bits. */
  lemma ParseIntBounds(s: string, base: nat)
    ensures -TWO_63 <= ParseInt(s, base).value < TWO_63
  {
    if s != [] {
      ParseUintBounds(if s[0] == '-' || s[0] == '+' then s[1..] else s, base, TWO_64);
    }
  }
}
