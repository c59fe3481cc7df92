/**
 JSON strings and numbers as text.  Text is a sequence of UTF-16 code units, as JavaScript strings are,
 so it may hold surrogates that are not paired.  Printing follows JSON.stringify, reading follows
 section 7 of RFC 8259 for strings and the integer subset of section 6 for numbers.
 */
module JsonText {
  import opened Wrappers

  type Unit = x: int | 0 <= x < 0x10000
  type Text = seq<Unit>

  const QUOTE: Unit := 0x22
  const BACKSLASH: Unit := 0x5C
  const MINUS: Unit := 0x2D
  const MAX_SAFE := 9007199254740991

  predicate Digit(c: Unit) {
    0x30 <= c <= 0x39
  }

  predicate High(c: Unit) {
    0xD800 <= c < 0xDC00
  }

  predicate Low(c: Unit) {
    0xDC00 <= c < 0xE000
  }

  /** `t` stands in `src` at `i`. */
  predicate At(src: Text, i: nat, t: Text) {
    i + |t| <= |src| && src[i..i + |t|] == t
  }

  lemma AtParts(src: Text, i: nat, a: Text, b: Text)
    requires At(src, i, a + b)
    ensures At(src, i, a) && At(src, i + |a|, b)
  {
    assert src[i..i + |a|] == (a + b)[..|a|];
    assert src[i + |a|..i + |a| + |b|] == (a + b)[|a|..];
  }

  // ---- Strings ----

  function HexDigit(d: int): Unit
    requires 0 <= d < 16
  {
    if d < 10 then 0x30 + d else 0x61 + d - 10
  }

  function HexValue(c: Unit): (r: Option<int>)
    ensures r.Some? ==> 0 <= r.value < 16
  {
    if Digit(c) then Some(c - 0x30)
    else if 0x61 <= c <= 0x66 then Some(c - 0x61 + 10)
    else if 0x41 <= c <= 0x46 then Some(c - 0x41 + 10)
    else None
  }

  function Hex4(c: Unit): Text {
    [HexDigit(c / 16 / 16 / 16), HexDigit(c / 16 / 16 % 16), HexDigit(c / 16 % 16), HexDigit(c % 16)]
  }

  /** One escaped unit: a short escape where there is one, else four hex digits. */
  function EscapeUnit(c: Unit): Text {
    if c == QUOTE then [BACKSLASH, QUOTE]
    else if c == BACKSLASH then [BACKSLASH, BACKSLASH]
    else if c == 0x08 then [BACKSLASH, 0x62]
    else if c == 0x09 then [BACKSLASH, 0x74]
    else if c == 0x0A then [BACKSLASH, 0x6E]
    else if c == 0x0C then [BACKSLASH, 0x66]
    else if c == 0x0D then [BACKSLASH, 0x72]
    else [BACKSLASH, 0x75] + Hex4(c)
  }

  predicate Escaped(c: Unit) {
    c == QUOTE || c == BACKSLASH || c < 0x20
  }

  /** The inside of a printed string; only surrogates without a partner are escaped as such. */
  function Escape(s: Text): Text {
    if s == [] then []
    else if Escaped(s[0]) then EscapeUnit(s[0]) + Escape(s[1..])
    else if High(s[0]) && |s| > 1 && Low(s[1]) then [s[0], s[1]] + Escape(s[2..])
    else if High(s[0]) || Low(s[0]) then EscapeUnit(s[0]) + Escape(s[1..])
    else [s[0]] + Escape(s[1..])
  }

  function Quoted(s: Text): Text {
    [QUOTE] + Escape(s) + [QUOTE]
  }

  /** What one escape sequence stands for, and how long it is. */
  function ReadEscape(s: Text): Option<(Unit, nat)>
    requires |s| > 0 && s[0] == BACKSLASH
  {
    if |s| < 2 then None
    else if s[1] == QUOTE || s[1] == BACKSLASH || s[1] == 0x2F then Some((s[1], 2))
    else if s[1] == 0x62 then Some((0x08, 2))
    else if s[1] == 0x74 then Some((0x09, 2))
    else if s[1] == 0x6E then Some((0x0A, 2))
    else if s[1] == 0x66 then Some((0x0C, 2))
    else if s[1] == 0x72 then Some((0x0D, 2))
    else if s[1] == 0x75 && |s| >= 6 then
      match (HexValue(s[2]), HexValue(s[3]), HexValue(s[4]), HexValue(s[5]))
      case (Some(a), Some(b), Some(c), Some(d)) => Some((((a * 16 + b) * 16 + c) * 16 + d, 6))
      case _ => None
    else None
  }

  /** The value of the inside of a string literal. */
  function Unescape(s: Text): Option<Text> {
    if s == [] then Some([])
    else if s[0] == QUOTE || s[0] < 0x20 then None
    else if s[0] == BACKSLASH then
      match ReadEscape(s)
      case None => None
      case Some((c, n)) =>
        if n > |s| then None
        else
          var rest := Unescape(s[n..]);
          if rest.None? then None else Some([c] + rest.value)
    else
      var rest := Unescape(s[1..]);
      if rest.None? then None else Some([s[0]] + rest.value)
  }

  /** The index of the closing quote, where a backslash hides the unit after it. */
  function ClosingQuote(src: Text, i: nat): Option<nat>
    decreases |src| - i
  {
    if i >= |src| then None
    else if src[i] == BACKSLASH then ClosingQuote(src, i + 2)
    else if src[i] == QUOTE then Some(i)
    else ClosingQuote(src, i + 1)
  }

  lemma {:induction false} ClosingQuoteBounds(src: Text, i: nat)
    ensures ClosingQuote(src, i).Some? ==> i <= ClosingQuote(src, i).value < |src|
    decreases |src| - i
  {
    if i < |src| && src[i] != QUOTE {
      ClosingQuoteBounds(src, if src[i] == BACKSLASH then i + 2 else i + 1);
    }
  }

  lemma EscapeReads(c: Unit, rest: Text)
    ensures |EscapeUnit(c)| == 2 || |EscapeUnit(c)| == 6
    ensures ReadEscape(EscapeUnit(c) + rest) == Some((c, |EscapeUnit(c)|))
  {
    var s := EscapeUnit(c) + rest;
    if |EscapeUnit(c)| == 6 {
      assert s[2] == HexDigit(c / 16 / 16 / 16) && s[3] == HexDigit(c / 16 / 16 % 16);
      assert s[4] == HexDigit(c / 16 % 16) && s[5] == HexDigit(c % 16);
    }
  }

  lemma UnescapeOne(c: Unit, rest: Text)
    requires Unescape(rest).Some?
    ensures Unescape(EscapeUnit(c) + rest) == Some([c] + Unescape(rest).value)
    ensures !Escaped(c) ==> Unescape([c] + rest) == Some([c] + Unescape(rest).value)
  {
    EscapeReads(c, rest);
    EscapeUnitPlain(c);
    hide EscapeUnit, ReadEscape;
    var e := EscapeUnit(c);
    assert (e + rest)[0] == e[0] && (e + rest)[|e|..] == rest;
    assert ([c] + rest)[1..] == rest;
  }

  /** Reading back what was printed gives the same string, surrogates and all. */
  lemma {:induction false} UnescapeEscape(s: Text)
    ensures Unescape(Escape(s)) == Some(s)
    decreases |s|
  {
    hide EscapeUnit, ReadEscape;
    if s != [] {
      hide Unescape;
      assert s == [s[0]] + s[1..];
      if !Escaped(s[0]) && High(s[0]) && |s| > 1 && Low(s[1]) {
        UnescapeEscape(s[2..]);
        UnescapeOne(s[1], Escape(s[2..]));
        UnescapeOne(s[0], [s[1]] + Escape(s[2..]));
        assert [s[0], s[1]] + Escape(s[2..]) == [s[0]] + ([s[1]] + Escape(s[2..]));
        assert s == [s[0]] + ([s[1]] + s[2..]);
      } else {
        UnescapeEscape(s[1..]);
        UnescapeOne(s[0], Escape(s[1..]));
      }
    }
  }

  lemma EscapeUnitPlain(c: Unit)
    ensures EscapeUnit(c)[0] == BACKSLASH
    ensures |EscapeUnit(c)| == 6 ==> forall i :: 2 <= i < 6 ==> EscapeUnit(c)[i] != QUOTE && EscapeUnit(c)[i] != BACKSLASH
  {
  }

  lemma AtUnit(src: Text, i: nat, c: Unit, rest: Text)
    requires At(src, i, [c] + rest)
    ensures src[i] == c && At(src, i + 1, rest)
  {
    AtParts(src, i, [c], rest);
    assert src[i] == src[i..i + 1][0];
  }

  lemma SkipPlain(src: Text, i: nat, c: Unit, rest: Text)
    requires At(src, i, [c] + rest) && c != QUOTE && c != BACKSLASH
    ensures ClosingQuote(src, i) == ClosingQuote(src, i + 1) && At(src, i + 1, rest)
  {
    AtUnit(src, i, c, rest);
  }

  lemma SkipEscape(src: Text, i: nat, c: Unit, rest: Text)
    requires At(src, i, EscapeUnit(c) + rest)
    ensures ClosingQuote(src, i) == ClosingQuote(src, i + |EscapeUnit(c)|) && At(src, i + |EscapeUnit(c)|, rest)
  {
    var e := EscapeUnit(c);
    EscapeUnitPlain(c);
    EscapeReads(c, []);
    AtParts(src, i, e, rest);
    assert forall k :: 0 <= k < |e| ==> src[i..i + |e|][k] == e[k];
    assert src[i] == e[0];
    if |e| == 6 {
      assert src[i + 2] == e[2] && src[i + 3] == e[3] && src[i + 4] == e[4] && src[i + 5] == e[5];
      assert ClosingQuote(src, i + 2) == ClosingQuote(src, i + 3) == ClosingQuote(src, i + 4);
      assert ClosingQuote(src, i + 4) == ClosingQuote(src, i + 5) == ClosingQuote(src, i + 6);
    }
  }

  /** The scan for the closing quote stops exactly behind a printed string. */
  lemma {:induction false} ClosingFound(src: Text, i: nat, s: Text)
    requires At(src, i, Escape(s) + [QUOTE])
    ensures ClosingQuote(src, i) == Some(i + |Escape(s)|)
    decreases |s|
  {
    hide EscapeUnit, At, ClosingQuote;
    if s == [] {
      assert Escape(s) + [QUOTE] == [QUOTE] + [];
      AtUnit(src, i, QUOTE, []);
      assert ClosingQuote(src, i) == Some(i) by { QuoteCloses(src, i); }
    } else if !Escaped(s[0]) && High(s[0]) && |s| > 1 && Low(s[1]) {
      var rest := Escape(s[2..]) + [QUOTE];
      assert Escape(s) + [QUOTE] == [s[0]] + ([s[1]] + rest);
      SkipPlain(src, i, s[0], [s[1]] + rest);
      SkipPlain(src, i + 1, s[1], rest);
      ClosingFound(src, i + 2, s[2..]);
    } else {
      var rest := Escape(s[1..]) + [QUOTE];
      ClosingRest(src, i, s, rest);
      ClosingFound(src, i + |Escape(s)| - |Escape(s[1..])|, s[1..]);
    }
  }

  lemma QuoteCloses(src: Text, i: nat)
    requires i < |src| && src[i] == QUOTE
    ensures ClosingQuote(src, i) == Some(i)
  {
  }

  lemma ClosingRest(src: Text, i: nat, s: Text, rest: Text)
    requires s != [] && !(!Escaped(s[0]) && High(s[0]) && |s| > 1 && Low(s[1]))
    requires rest == Escape(s[1..]) + [QUOTE] && At(src, i, Escape(s) + [QUOTE])
    ensures |Escape(s)| > |Escape(s[1..])|
    ensures var j := i + |Escape(s)| - |Escape(s[1..])|;
            ClosingQuote(src, i) == ClosingQuote(src, j) && At(src, j, rest)
  {
    hide At, ClosingQuote;
    if Escaped(s[0]) || High(s[0]) || Low(s[0]) {
      EscapeReads(s[0], []);
      assert Escape(s) + [QUOTE] == EscapeUnit(s[0]) + rest;
      SkipEscape(src, i, s[0], rest);
    } else {
      assert Escape(s) + [QUOTE] == [s[0]] + rest;
      SkipPlain(src, i, s[0], rest);
    }
  }

  // ---- Numbers ----

  function Decimal(n: nat): (t: Text)
    ensures |t| >= 1 && forall i :: 0 <= i < |t| ==> Digit(t[i])
  {
    if n < 10 then [0x30 + n] else Decimal(n / 10) + [0x30 + n % 10]
  }

  function PrintNumber(n: int): Text {
    if n < 0 then [MINUS] + Decimal(-n) else Decimal(n)
  }

  function DigitValue(c: Unit): (v: nat)
    requires Digit(c)
    ensures v <= 9
  {
    c - 0x30
  }

  function DecimalValue(t: Text): nat
    requires forall i :: 0 <= i < |t| ==> Digit(t[i])
  {
    if t == [] then 0 else 10 * DecimalValue(t[..|t| - 1]) + DigitValue(t[|t| - 1])
  }

  lemma {:induction false} DecimalRoundTrip(n: nat)
    ensures DecimalValue(Decimal(n)) == n
    ensures n > 0 ==> Decimal(n)[0] != 0x30
    ensures n == 0 ==> Decimal(n) == [0x30]
  {
    if n >= 10 {
      DecimalRoundTrip(n / 10);
      assert Decimal(n)[..|Decimal(n)| - 1] == Decimal(n / 10);
      assert Decimal(n)[0] == Decimal(n / 10)[0];
    } else {
      assert Decimal(n)[..0] == [];
      assert DecimalValue([]) == 0;
    }
  }

  /** The end of the longest run of digits from `i`. */
  function DigitsEnd(src: Text, i: nat): (e: nat)
    requires i <= |src|
    ensures i <= e <= |src|
    ensures forall k :: i <= k < e ==> Digit(src[k])
    ensures e < |src| ==> !Digit(src[e])
    decreases |src| - i
  {
    if i < |src| && Digit(src[i]) then DigitsEnd(src, i + 1) else i
  }

  lemma {:induction false} DigitsEndIs(src: Text, i: nat, e: nat)
    requires i <= e <= |src|
    requires forall k :: i <= k < e ==> Digit(src[k])
    requires e < |src| ==> !Digit(src[e])
    ensures DigitsEnd(src, i) == e
    decreases e - i
  {
    if i < e {
      DigitsEndIs(src, i + 1, e);
    }
  }

  datatype Scanned = Scanned(value: int, next: nat)

  /** A fraction or an exponent follows: the number would not be an integer literal. */
  predicate Continues(src: Text, i: nat)
    requires i <= |src|
  {
    || (i + 1 < |src| && src[i] == 0x2E && Digit(src[i + 1]))
    || (i + 1 < |src| && (src[i] == 0x65 || src[i] == 0x45)
        && (Digit(src[i + 1]) || (i + 2 < |src| && (src[i + 1] == 0x2B || src[i + 1] == MINUS) && Digit(src[i + 2]))))
  }

  /** An integer literal without leading zeros, in the safe range, with neither fraction nor exponent. */
  function ScanNumber(src: Text, i: nat): Option<Scanned>
    requires i <= |src|
  {
    var start := if i < |src| && src[i] == MINUS then i + 1 else i;
    if start >= |src| || !Digit(src[start]) then None
    else
      var end := if src[start] == 0x30 then start + 1 else DigitsEnd(src, start);
      var magnitude: int := DecimalValue(src[start..end]);
      if Continues(src, end) || magnitude > MAX_SAFE then None
      else Some(Scanned(if start > i then -magnitude else magnitude, end))
  }

  predicate Safe(n: int) {
    -MAX_SAFE <= n <= MAX_SAFE
  }

  /** What may follow a number so that the scan stops there. */
  predicate Stops(src: Text, i: nat)
    requires i <= |src|
  {
    i == |src| || (!Digit(src[i]) && src[i] != 0x2E && src[i] != 0x65 && src[i] != 0x45)
  }

  lemma AllDigits(src: Text, start: nat, digits: Text)
    requires At(src, start, digits) && forall k :: 0 <= k < |digits| ==> Digit(digits[k])
    ensures forall k :: start <= k < start + |digits| ==> Digit(src[k])
    ensures digits != [] ==> src[start] == digits[0]
  {
    forall k | start <= k < start + |digits|
      ensures src[k] == digits[k - start]
    {
      assert src[start..start + |digits|][k - start] == digits[k - start];
    }
  }

  /** A printed safe integer is scanned back to itself. */
  lemma NumberRoundTrip(src: Text, i: nat, n: int)
    requires Safe(n) && At(src, i, PrintNumber(n)) && Stops(src, i + |PrintNumber(n)|)
    ensures ScanNumber(src, i) == Some(Scanned(n, i + |PrintNumber(n)|))
  {
    hide Decimal, DigitsEnd, DecimalValue;
    var m: nat := if n < 0 then -n else n;
    var start := if n < 0 then i + 1 else i;
    var digits := Decimal(m);
    if n < 0 {
      AtUnit(src, i, MINUS, digits);
    }
    AllDigits(src, start, digits);
    DecimalRoundTrip(m);
    DigitsEndIs(src, start, start + |digits|);
  }

  // ---- Exactly what is escaped ----

  /** Text without quotes, backslashes, control characters and surrogates is printed as it is. */
  lemma {:induction false} PlainText(s: Text)
    requires forall i :: 0 <= i < |s| ==> s[i] != QUOTE && s[i] != BACKSLASH && s[i] >= 0x20 && !(0xD800 <= s[i] < 0xE000)
    ensures Escape(s) == s
  {
    if s != [] {
      PlainText(s[1..]);
      assert s == [s[0]] + s[1..];
    }
  }

  lemma EscapeFirst(c: Unit, rest: Text)
    ensures Escaped(c) ==> Escape([c] + rest) == EscapeUnit(c) + Escape(rest)
    ensures Low(c) || (High(c) && (rest == [] || !Low(rest[0]))) ==> Escape([c] + rest) == EscapeUnit(c) + Escape(rest)
    ensures High(c) && rest != [] && Low(rest[0]) ==> Escape([c] + rest) == [c, rest[0]] + Escape(rest[1..])
  {
    hide EscapeUnit;
    var s := [c] + rest;
    assert s[1..] == rest && s[0] == c;
    if rest != [] {
      assert s[1] == rest[0] && s[2..] == rest[1..];
    }
  }

  /** The escapes: the seven short ones, and lower-case hex for other control characters. */
  lemma EscapedText(c: Unit, rest: Text)
    ensures Escape([QUOTE] + rest) == [0x5C, 0x22] + Escape(rest) && Escape([BACKSLASH] + rest) == [0x5C, 0x5C] + Escape(rest)
    ensures Escape([0x08] + rest) == [0x5C, 0x62] + Escape(rest) && Escape([0x09] + rest) == [0x5C, 0x74] + Escape(rest)
    ensures Escape([0x0A] + rest) == [0x5C, 0x6E] + Escape(rest) && Escape([0x0C] + rest) == [0x5C, 0x66] + Escape(rest)
    ensures Escape([0x0D] + rest) == [0x5C, 0x72] + Escape(rest)
    ensures c < 0x20 && c !in [0x08, 0x09, 0x0A, 0x0C, 0x0D] ==>
              Escape([c] + rest) == [0x5C, 0x75, 0x30, 0x30, if c < 0x10 then 0x30 else 0x31,
                                     if c % 16 < 10 then 0x30 + c % 16 else 0x57 + c % 16] + Escape(rest)
  {
    hide Escape;
    EscapeFirst(QUOTE, rest);
    EscapeFirst(BACKSLASH, rest);
    EscapeFirst(0x08, rest);
    EscapeFirst(0x09, rest);
    EscapeFirst(0x0A, rest);
    EscapeFirst(0x0C, rest);
    EscapeFirst(0x0D, rest);
    EscapeFirst(c, rest);
  }

  /** A surrogate pair is printed as it is; a surrogate without its partner in lower-case hex. */
  lemma SurrogateText(c: Unit, rest: Text)
    ensures High(c) && rest != [] && Low(rest[0]) ==> Escape([c] + rest) == [c, rest[0]] + Escape(rest[1..])
    ensures Low(c) || (High(c) && (rest == [] || !Low(rest[0]))) ==>
              Escape([c] + rest) == [0x5C, 0x75, 0x64, HexDigit(c / 256 % 16), HexDigit(c / 16 % 16), HexDigit(c % 16)] + Escape(rest)
  {
    hide Escape, HexDigit;
    EscapeFirst(c, rest);
    if High(c) || Low(c) {
      Thirteen(c);
    }
  }

  lemma Thirteen(c: Unit)
    requires 0xD800 <= c < 0xE000
    ensures HexDigit(c / 16 / 16 / 16) == 0x64 && c / 16 / 16 % 16 == c / 256 % 16
  {
  }
}
