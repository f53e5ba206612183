/** Text helpers of the configuration reader.  A string is a sequence of byte-sized
    characters; white space and case are those of the C locale. */
module Text {
  import opened Outcomes

  predicate IsSpace(c: char) {
    c == ' ' || 9 <= c as int <= 13
  }

  predicate IsDigit(c: char) {
    '0' <= c <= '9'
  }

  predicate Blank(s: string) {
    forall i | 0 <= i < |s| :: IsSpace(s[i])
  }

  function TrimLeft(s: string): string {
    if s != "" && IsSpace(s[0]) then TrimLeft(s[1..]) else s
  }

  function TrimRight(s: string): string {
    if s != "" && IsSpace(s[|s| - 1]) then TrimRight(s[..|s| - 1]) else s
  }

  function Trim(s: string): string {
    TrimRight(TrimLeft(s))
  }

  function LowerChar(c: char): (l: char)
    ensures IsSpace(l) <==> IsSpace(c)
  {
    if 'A' <= c <= 'Z' then (c as int + 32) as char else c
  }

  function Lower(s: string): (l: string)
    ensures |l| == |s| && forall i | 0 <= i < |s| :: l[i] == LowerChar(s[i])
  {
    seq(|s|, i requires 0 <= i < |s| => LowerChar(s[i]))
  }

  /** The white space of the C locale. */
  lemma SpaceExactly(c: char)
    ensures IsSpace(c) <==> c in {' ', '\t', '\n', '\r', 11 as char, 12 as char}
  {
  }

  function Capital(i: nat): char
    requires i < 26
  {
    ('A' as int + i) as char
  }

  function Small(i: nat): char
    requires i < 26
  {
    ('a' as int + i) as char
  }

  /** The same character, or the capital and the small form of one letter. */
  predicate SameLetter(c: char, d: char) {
    c == d || exists i: nat | i < 26 :: (c == Capital(i) && d == Small(i)) || (c == Small(i) && d == Capital(i))
  }

  predicate SameButCase(s: string, t: string) {
    |s| == |t| && forall i | 0 <= i < |s| :: SameLetter(s[i], t[i])
  }

  lemma SameLetterLower(c: char, d: char)
    ensures SameLetter(c, d) <==> LowerChar(c) == LowerChar(d)
  {
    if LowerChar(c) == LowerChar(d) && c != d {
      var i := LowerChar(c) as int - 'a' as int;
      assert (c == Capital(i) && d == Small(i)) || (c == Small(i) && d == Capital(i));
    }
  }

  /** Lower-casing identifies exactly the texts that differ in case alone, and leaves no
      capital. */
  lemma LowerExactly(s: string, t: string)
    ensures SameButCase(s, t) <==> Lower(s) == Lower(t)
    ensures SameButCase(s, Lower(s)) && forall i | 0 <= i < |s| :: !('A' <= Lower(s)[i] <= 'Z')
  {
    forall i | 0 <= i < |s| && i < |t| ensures SameLetter(s[i], t[i]) <==> LowerChar(s[i]) == LowerChar(t[i]) {
      SameLetterLower(s[i], t[i]);
    }
    forall i | 0 <= i < |s| ensures SameLetter(s[i], Lower(s)[i]) {
      SameLetterLower(s[i], Lower(s)[i]);
    }
    if Lower(s) == Lower(t) {
      forall i | 0 <= i < |s| ensures SameLetter(s[i], t[i]) {
        assert Lower(s)[i] == Lower(t)[i];
      }
    }
  }

  /** The first occurrence of a character. */
  function Find(s: string, c: char): (r: Option<nat>)
    ensures match r
            case None => c !in s
            case Some(i) => i < |s| && s[i] == c && c !in s[..i]
  {
    if s == "" then None
    else if s[0] == c then Some(0)
    else match Find(s[1..], c) case None => None case Some(i) => Some(i + 1)
  }

  /** The last occurrence of a character. */
  function FindLast(s: string, c: char): (r: Option<nat>)
    ensures match r
            case None => c !in s
            case Some(i) => i < |s| && s[i] == c && c !in s[i + 1..]
  {
    if s == "" then None
    else if s[|s| - 1] == c then Some(|s| - 1)
    else
      assert s == s[..|s| - 1] + [s[|s| - 1]];
      FindLast(s[..|s| - 1], c)
  }

  lemma {:induction false} FindAfter(a: string, c: char, b: string)
    requires c !in a
    ensures Find(a + [c] + b, c) == Some(|a|)
  {
    if a == "" {
    } else {
      assert (a + [c] + b)[1..] == a[1..] + [c] + b;
      FindAfter(a[1..], c, b);
    }
  }

  lemma {:induction false} FindLastBefore(a: string, c: char, b: string)
    requires c !in b
    ensures FindLast(a + [c] + b, c) == Some(|a|)
  {
    var s := a + [c] + b;
    if b == "" {
    } else {
      assert s[..|s| - 1] == a + [c] + b[..|b| - 1];
      assert s[|s| - 1] == b[|b| - 1] && b[|b| - 1] in b;
      FindLastBefore(a, c, b[..|b| - 1]);
    }
  }

  /** The text before the first occurrence of a character, or all of it. */
  function UpTo(s: string, c: char): string {
    if s == "" || s[0] == c then "" else [s[0]] + UpTo(s[1..], c)
  }

  lemma {:induction false} UpToCut(s: string, c: char, more: string)
    ensures UpTo(s + [c] + more, c) == UpTo(s, c)
  {
    if s == "" {
    } else {
      assert (s + [c] + more)[1..] == s[1..] + [c] + more;
      UpToCut(s[1..], c, more);
    }
  }

  lemma {:induction false} UpToWhole(s: string, c: char)
    requires c !in s
    ensures UpTo(s, c) == s
  {
    if s == "" {
    } else {
      UpToWhole(s[1..], c);
    }
  }

  // ----- Trimming -----

  lemma {:induction false} TrimLeftPad(pad: string, s: string)
    requires Blank(pad)
    ensures TrimLeft(pad + s) == TrimLeft(s)
  {
    if pad == "" {
      assert pad + s == s;
    } else {
      assert (pad + s)[1..] == pad[1..] + s;
      TrimLeftPad(pad[1..], s);
    }
  }

  lemma {:induction false} TrimRightPad(s: string, pad: string)
    requires Blank(pad)
    ensures TrimRight(s + pad) == TrimRight(s)
  {
    if pad == "" {
      assert s + pad == s;
    } else {
      assert (s + pad)[..|s + pad| - 1] == s + pad[..|pad| - 1];
      TrimRightPad(s, pad[..|pad| - 1]);
    }
  }

  /** Left trimming stops at a character that is not white space. */
  lemma {:induction false} TrimLeftStops(a: string, c: char, b: string)
    requires !IsSpace(c)
    ensures TrimLeft(a + [c] + b) == TrimLeft(a + [c]) + b
    ensures TrimLeft(a + [c]) == TrimLeft(a) + [c]
  {
    if a != "" {
      assert (a + [c] + b)[1..] == a[1..] + [c] + b;
      assert (a + [c])[1..] == a[1..] + [c];
      TrimLeftStops(a[1..], c, b);
    } else {
      assert a + [c] + b == [c] + b;
      assert a + [c] == [c];
    }
  }

  lemma {:induction false} TrimRightStops(a: string, c: char, b: string)
    requires !IsSpace(c)
    ensures TrimRight(a + [c] + b) == a + [c] + TrimRight(b)
  {
    var s := a + [c] + b;
    if b != "" {
      assert s[..|s| - 1] == a + [c] + b[..|b| - 1];
      TrimRightStops(a, c, b[..|b| - 1]);
    } else {
      assert s == a + [c] + TrimRight(b);
    }
  }

  lemma PadOnce(c: char, rest: string, pad: string, kept: string)
    requires IsSpace(c) && Blank(pad) && rest == pad + kept
    ensures Blank([c] + pad) && [c] + rest == ([c] + pad) + kept
  {
    assert forall i | 0 < i < |[c] + pad| :: ([c] + pad)[i] == pad[i - 1];
  }

  /** What left trimming removes is white space; what it keeps starts with none. */
  lemma {:induction false} TrimLeftShape(s: string) returns (pad: string)
    ensures Blank(pad) && s == pad + TrimLeft(s)
    ensures TrimLeft(s) != "" ==> !IsSpace(TrimLeft(s)[0])
  {
    if s != "" && IsSpace(s[0]) {
      var rest := TrimLeftShape(s[1..]);
      pad := [s[0]] + rest;
      PadOnce(s[0], s[1..], rest, TrimLeft(s[1..]));
      assert s == [s[0]] + s[1..];
    } else {
      pad := "";
    }
  }

  lemma {:induction false} TrimRightShape(s: string) returns (pad: string)
    ensures Blank(pad) && s == TrimRight(s) + pad
    ensures TrimRight(s) != "" ==> !IsSpace(TrimRight(s)[|TrimRight(s)| - 1]) && TrimRight(s)[0] == s[0]
  {
    if s != "" && IsSpace(s[|s| - 1]) {
      var rest := TrimRightShape(s[..|s| - 1]);
      pad := rest + [s[|s| - 1]];
    } else {
      pad := "";
    }
  }

  /** A trimmed text neither starts nor ends with white space. */
  lemma TrimShape(s: string)
    ensures var t := Trim(s); t != "" ==> !IsSpace(t[0]) && !IsSpace(t[|t| - 1])
  {
    var left := TrimLeftShape(s);
    var right := TrimRightShape(TrimLeft(s));
  }

  lemma TrimOfBlank(s: string)
    requires Blank(s)
    ensures Trim(s) == ""
  {
    TrimLeftPad(s, "");
    assert s + "" == s;
  }

  /** Padding with white space never changes the trimmed text. */
  lemma TrimPad(before: string, s: string, after: string)
    requires Blank(before) && Blank(after)
    ensures Trim(before + s + after) == Trim(s)
  {
    assert before + s + after == before + (s + after);
    TrimLeftPad(before, s + after);
    var pad := TrimLeftShape(s);
    var core := TrimLeft(s);
    if core == "" {
      assert Blank(s + after);
      TrimOfBlank(s + after);
      TrimOfBlank(s);
    } else {
      assert s + after == pad + (core + after);
      TrimLeftPad(pad, core + after);
      assert TrimLeft(core + after) == core + after;
      TrimRightPad(core, after);
    }
  }

  lemma TrimOfTrimLeft(s: string)
    ensures Trim(TrimLeft(s)) == Trim(s)
  {
    var pad := TrimLeftShape(s);
    TrimPad(pad, TrimLeft(s), "");
    assert pad + TrimLeft(s) + "" == s;
  }

  lemma TrimOfTrimRight(s: string)
    ensures Trim(TrimRight(s)) == Trim(s)
  {
    var pad := TrimRightShape(s);
    TrimPad("", TrimRight(s), pad);
    assert "" + TrimRight(s) + pad == s;
  }

  lemma {:induction false} LowerTrimLeft(s: string)
    ensures Lower(TrimLeft(s)) == TrimLeft(Lower(s))
  {
    if s == "" || !IsSpace(s[0]) {
    } else {
      assert Lower(s)[1..] == Lower(s[1..]);
      LowerTrimLeft(s[1..]);
    }
  }

  lemma {:induction false} LowerTrimRight(s: string)
    ensures Lower(TrimRight(s)) == TrimRight(Lower(s))
  {
    if s == "" || !IsSpace(s[|s| - 1]) {
    } else {
      assert Lower(s)[..|s| - 1] == Lower(s[..|s| - 1]);
      LowerTrimRight(s[..|s| - 1]);
    }
  }

  lemma LowerTrim(s: string)
    ensures Lower(Trim(s)) == Trim(Lower(s))
  {
    LowerTrimLeft(s);
    LowerTrimRight(TrimLeft(s));
  }

  // ----- Numbers -----

  function Digit(d: nat): (c: char)
    requires d < 10
    ensures IsDigit(c) && c as int - '0' as int == d
  {
    ('0' as int + d) as char
  }

  /** The decimal notation of a number. */
  function Decimal(n: nat): (s: string)
    ensures s != "" && forall i | 0 <= i < |s| :: IsDigit(s[i])
  {
    if n < 10 then [Digit(n)] else Decimal(n / 10) + [Digit(n % 10)]
  }

  /** The value of a string of digits. */
  function Value(s: string): nat
    requires forall i | 0 <= i < |s| :: IsDigit(s[i])
  {
    if s == "" then 0
    else
      assert IsDigit(s[|s| - 1]);
      Value(s[..|s| - 1]) * 10 + (s[|s| - 1] as int - '0' as int)
  }

  lemma {:induction false} ValueOfDecimal(n: nat)
    ensures Value(Decimal(n)) == n
  {
    if n >= 10 {
      ValueOfDecimal(n / 10);
      var s := Decimal(n / 10) + [Digit(n % 10)];
      assert s[..|s| - 1] == Decimal(n / 10);
    } else {
      assert [Digit(n)][..0] == "";
    }
  }

  /** A number with `places` zeros written behind it. */
  function Shifted(n: nat, places: nat): nat {
    if places == 0 then n else 10 * Shifted(n, places - 1)
  }

  /** Decimal notation: digits count ten times as much for each digit behind them. */
  lemma {:induction false} ValueOfConcat(a: string, b: string)
    requires (forall i | 0 <= i < |a| :: IsDigit(a[i])) && (forall i | 0 <= i < |b| :: IsDigit(b[i]))
    ensures Value(a + b) == Shifted(Value(a), |b|) + Value(b)
  {
    if b == "" {
      assert a + b == a;
    } else {
      var front := b[..|b| - 1];
      assert (a + b)[..|a + b| - 1] == a + front;
      ValueOfConcat(a, front);
    }
  }

  lemma ValueOfDigit(d: char)
    requires IsDigit(d)
    ensures Value([d]) == d as int - '0' as int
  {
    assert [d][..0] == "";
  }

  function LeadingDigits(s: string): (d: string)
    ensures forall i | 0 <= i < |d| :: IsDigit(d[i])
    ensures d <= s
  {
    if s != "" && IsDigit(s[0]) then [s[0]] + LeadingDigits(s[1..]) else ""
  }

  datatype NumberError = NotANumber | NumberTooBig

  const ULONG: nat := 0x1_0000_0000_0000_0000

  function SkipSign(t: string): string {
    if t != "" && (t[0] == '-' || t[0] == '+') then t[1..] else t
  }

  /** The standard conversion to an unsigned long: white space, an optional sign, digits;
      what follows the digits is ignored, and a negative number wraps around. */
  function ToUnsignedLong(s: string): Result<nat, NumberError> {
    var t := TrimLeft(s);
    var negative := t != "" && t[0] == '-';
    var digits := LeadingDigits(SkipSign(t));
    if digits == "" then Err(NotANumber)
    else
      var value := Value(digits);
      if value >= ULONG then Err(NumberTooBig)
      else Ok(if negative && value > 0 then ULONG - value else value)
  }

  /** Digits followed by something that is not one. */
  lemma {:induction false} LeadingDigitsStop(digits: string, tail: string)
    requires forall i | 0 <= i < |digits| :: IsDigit(digits[i])
    requires tail != "" ==> !IsDigit(tail[0])
    ensures LeadingDigits(digits + tail) == digits
  {
    if digits == "" {
      assert digits + tail == tail;
    } else {
      assert (digits + tail)[1..] == digits[1..] + tail;
      LeadingDigitsStop(digits[1..], tail);
    }
  }

  /** A text that the number conversion can read: white space, a sign or none, digits, and
      anything that does not start with a digit. */
  predicate NumberText(s: string, pad: string, sign: string, digits: string, tail: string) {
    && s == pad + (sign + (digits + tail))
    && Blank(pad) && (sign == "" || sign == "+" || sign == "-")
    && digits != "" && (forall i | 0 <= i < |digits| :: IsDigit(digits[i]))
    && (tail != "" ==> !IsDigit(tail[0]))
  }

  lemma SignedBody(sign: string, digits: string, tail: string)
    requires (sign == "" || sign == "+" || sign == "-") && digits != "" && IsDigit(digits[0])
    ensures var t := sign + (digits + tail);
            TrimLeft(t) == t && SkipSign(t) == digits + tail && (t[0] == '-' <==> sign == "-")
  {
    var t := sign + (digits + tail);
    assert t[0] == if sign == "" then digits[0] else sign[0];
    if sign == "" {
      assert t == digits + tail;
    } else {
      assert t[1..] == digits + tail;
    }
  }

  /** Negation of an unsigned long. */
  function Wrap(n: nat): nat
    requires n <= ULONG
  {
    (ULONG - n) % ULONG
  }

  lemma WrapOf(n: nat)
    ensures n < ULONG ==> Wrap(n) == if n > 0 then ULONG - n else n
  {
  }

  /** The value read is that of the digits, zeros in front included; whatever follows them
      is ignored, a number of 2^64 or more is an error, and a minus sign wraps around, so
      that some negative texts are accepted as small positive numbers. */
  lemma ReadsNumber(s: string, pad: string, sign: string, digits: string, tail: string)
    requires NumberText(s, pad, sign, digits, tail)
    ensures ToUnsignedLong(s) ==
            if Value(digits) >= ULONG then Err(NumberTooBig)
            else if sign == "-" then Ok(Wrap(Value(digits)))
            else Ok(Value(digits))
  {
    TrimLeftPad(pad, sign + (digits + tail));
    SignedBody(sign, digits, tail);
    LeadingDigitsStop(digits, tail);
    WrapOf(Value(digits));
  }

  /** The sign of a text, if it starts with one. */
  lemma SignOf(t: string) returns (sign: string)
    ensures t == sign + SkipSign(t) && (sign == "" || sign == "+" || sign == "-")
  {
    sign := if t != "" && (t[0] == '-' || t[0] == '+') then t[..1] else "";
  }

  lemma DigitsDecide(s: string)
    ensures ToUnsignedLong(s) == Err(NotANumber) <==> LeadingDigits(SkipSign(TrimLeft(s))) == ""
  {
  }

  lemma SplitDigits(rest: string) returns (tail: string)
    ensures rest == LeadingDigits(rest) + tail && (tail != "" ==> !IsDigit(tail[0]))
  {
    tail := rest[|LeadingDigits(rest)|..];
    LeadingDigitsMaximal(rest);
  }

  /** Only such texts are numbers. */
  lemma OnlyNumbers(s: string) returns (pad: string, sign: string, digits: string, tail: string)
    ensures ToUnsignedLong(s) != Err(NotANumber) <==> NumberText(s, pad, sign, digits, tail)
  {
    pad := TrimLeftShape(s);
    sign := SignOf(TrimLeft(s));
    digits := LeadingDigits(SkipSign(TrimLeft(s)));
    tail := SplitDigits(SkipSign(TrimLeft(s)));
    DigitsDecide(s);
  }

  /** What a text must look like to be read as `n`. */
  ghost predicate Reads(s: string, n: nat) {
    exists pad, sign, digits, tail ::
      && NumberText(s, pad, sign, digits, tail) && Value(digits) < ULONG
      && n == if sign == "-" then Wrap(Value(digits)) else Value(digits)
  }

  lemma NumberExactly(s: string, n: nat)
    ensures ToUnsignedLong(s) == Ok(n) <==> Reads(s, n)
  {
    if ToUnsignedLong(s) == Ok(n) {
      var pad, sign, digits, tail := OnlyNumbers(s);
      ReadsNumber(s, pad, sign, digits, tail);
      assert NumberText(s, pad, sign, digits, tail);
    }
    if Reads(s, n) {
      var pad, sign, digits, tail :|
        && NumberText(s, pad, sign, digits, tail) && Value(digits) < ULONG
        && n == if sign == "-" then Wrap(Value(digits)) else Value(digits);
      ReadsNumber(s, pad, sign, digits, tail);
    }
  }

  lemma {:induction false} LeadingDigitsMaximal(s: string)
    ensures var d := LeadingDigits(s); s[|d|..] != "" ==> !IsDigit(s[|d|..][0])
  {
    if s == "" || !IsDigit(s[0]) {
    } else {
      LeadingDigitsMaximal(s[1..]);
    }
  }

  /** The conversion reads back what the printer writes. */
  lemma ReadsDecimal(n: nat)
    requires n < ULONG
    ensures ToUnsignedLong(Decimal(n)) == Ok(n)
  {
    ValueOfDecimal(n);
    assert NumberText(Decimal(n), "", "", Decimal(n), "");
    ReadsNumber(Decimal(n), "", "", Decimal(n), "");
  }

  lemma MinusDigits(t: string, digits: string)
    requires t == "-" + digits && digits != "" && forall i | 0 <= i < |digits| :: IsDigit(digits[i])
    ensures NumberText(t, "", "-", digits, "")
  {
    assert t == "" + ("-" + (digits + ""));
  }

  lemma ReadsMinus(t: string, digits: string)
    requires NumberText(t, "", "-", digits, "") && 0 < Value(digits) < ULONG
    ensures ToUnsignedLong(t) == Ok(ULONG - Value(digits))
  {
    ReadsNumber(t, "", "-", digits, "");
    WrapOf(Value(digits));
  }

  /** A negative number reads as its complement. */
  lemma ReadsNegative(n: nat)
    requires 0 < n < ULONG
    ensures ToUnsignedLong("-" + Decimal(n)) == Ok(ULONG - n)
  {
    ValueOfDecimal(n);
    MinusDigits("-" + Decimal(n), Decimal(n));
    ReadsMinus("-" + Decimal(n), Decimal(n));
  }

  /** A text that neither starts nor ends with white space is already trimmed. */
  lemma TrimBare(s: string)
    requires s != "" ==> !IsSpace(s[0]) && !IsSpace(s[|s| - 1])
    ensures Trim(s) == s
  {
  }

  lemma LowerBare(s: string)
    requires forall i | 0 <= i < |s| :: !('A' <= s[i] <= 'Z')
    ensures Lower(s) == s
  {
  }

  // ----- Lines -----

  /** Every line satisfies a predicate. */
  predicate All(lines: seq<string>, ok: string -> bool) {
    lines == [] || (All(lines[..|lines| - 1], ok) && ok(lines[|lines| - 1]))
  }

  lemma {:induction false} AllMeans(lines: seq<string>, ok: string -> bool)
    ensures All(lines, ok) <==> forall i | 0 <= i < |lines| :: ok(lines[i])
  {
    if lines == [] {
    } else {
      var front := lines[..|lines| - 1];
      AllMeans(front, ok);
      assert forall i | 0 <= i < |front| :: front[i] == lines[i];
    }
  }

  /** getline never leaves a newline in a line. */
  predicate IsLine(line: string) {
    '\n' !in line
  }

  /** The lines of a file as getline reads them: a newline at the end adds no empty line. */
  function Lines(text: string): seq<string>
    decreases |text|
  {
    if text == "" then []
    else
      match Find(text, '\n')
      case None => [text]
      case Some(i) => [text[..i]] + Lines(text[i + 1..])
  }

  /** A file made of lines. */
  function Unlines(lines: seq<string>): string {
    if lines == [] then "" else lines[0] + "\n" + Unlines(lines[1..])
  }

  lemma {:induction false} LinesHaveNoNewline(text: string)
    ensures forall i | 0 <= i < |Lines(text)| :: IsLine(Lines(text)[i])
    decreases |text|
  {
    if text == "" || Find(text, '\n').None? {
    } else {
      LinesHaveNoNewline(text[Find(text, '\n').value + 1..]);
    }
  }

  lemma {:induction false} LinesOfUnlines(lines: seq<string>)
    requires forall i | 0 <= i < |lines| :: IsLine(lines[i])
    ensures Lines(Unlines(lines)) == lines
  {
    if lines == [] {
    } else {
      var first, rest := lines[0], Unlines(lines[1..]);
      assert first + "\n" + rest == first + ['\n'] + rest;
      FindAfter(first, '\n', rest);
      assert Unlines(lines)[..|first|] == first && Unlines(lines)[|first| + 1..] == rest;
      LinesOfUnlines(lines[1..]);
    }
  }
}
