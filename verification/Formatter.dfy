/**
 The formatter of kservice.c: what a format means as a text of any length, and the writer that stores as
 much of it as fits in a buffer.  Built with RT_PRINTF_PRECISION, without RT_PRINTF_SPECIAL and long long.
 */
module Formatter {

  const WORDS: nat := 0x1_0000_0000

  /** An argument word; `long`, `int` and pointers have 32 bits. */
  type Word = n: nat | n < WORDS

  /** A string argument may be the null pointer. */
  datatype Arg = Value(word: Word) | Text(text: string) | NullText

  datatype Flags = Flags(zeropad: bool, sign: bool, plus: bool, space: bool, left: bool, large: bool)

  const NO_FLAGS := Flags(false, false, false, false, false, false)

  // ---------------------------------------------------------------- numbers

  function DigitChar(d: nat, large: bool): char
    requires d < 16
  {
    (if large then "0123456789ABCDEF" else "0123456789abcdef")[d]
  }

  /** `divide` takes every base other than 10 for 16. */
  function Radix(base: nat): (r: nat)
    ensures r == 10 || r == 16
  {
    if base == 10 then 10 else 16
  }

  function Digits(n: nat, radix: nat, large: bool): (s: string)
    requires radix == 10 || radix == 16
    ensures |s| > 0
  {
    if n < radix then [DigitChar(n, large)]
    else Digits(n / radix, radix, large) + [DigitChar(n % radix, large)]
  }

  function Repeat(c: char, n: int): (s: string)
    ensures |s| == if n > 0 then n else 0
    ensures forall i :: 0 <= i < |s| ==> s[i] == c
  {
    seq(if n > 0 then n else 0, _ => c)
  }

  function SignText(u: Word, f: Flags): string {
    if !f.sign then "" else if u >= WORDS / 2 then "-" else if f.plus then "+" else if f.space then " " else ""
  }

  /** The absolute value of a signed word, or the word itself. */
  function Magnitude(u: Word, f: Flags): Word {
    if f.sign && u >= WORDS / 2 then WORDS - u else u
  }

  function Max(a: int, b: int): int {
    if a > b then a else b
  }

  /** What stands before the digits: the sign, and padding on either side of it. */
  function Front(sign: string, pad: int, f: Flags): string {
    if f.left then sign else if f.zeropad then sign + Repeat('0', pad) else Repeat(' ', pad) + sign
  }

  /** The digits up to the precision.  A precision of 0 suppresses them, whatever the number. */
  function Body(digits: string, precision: int): string {
    Repeat('0', precision - |digits|) + if precision == 0 then "" else digits
  }

  function Composed(digits: string, sign: string, width: int, precision: int, f: Flags): string {
    var pad := width - Max(|digits|, precision) - |sign|;
    Front(sign, pad, f) + Body(digits, precision) + if f.left then Repeat(' ', pad) else ""
  }

  /** What print_number writes. */
  function NumberText(u: Word, base: nat, width: int, precision: int, f: Flags): string {
    Composed(Digits(Magnitude(u, f), Radix(base), f.large), SignText(u, f), width, precision, f)
  }

  function CharText(c: char, width: int, left: bool): string {
    if left then [c] + Repeat(' ', width - 1) else Repeat(' ', width - 1) + [c]
  }

  /** How much of a string is printed: a field width also cuts it short. */
  function Shown(len: nat, width: int, precision: int): (n: nat)
    ensures n <= len
  {
    var n := if 0 <= width < len then width else len;
    if 0 < precision < n then precision else n
  }

  function StringText(s: string, width: int, precision: int, left: bool): string {
    var n := Shown(|s|, width, precision);
    if left then s[..n] + Repeat(' ', width - n) else Repeat(' ', width - n) + s[..n]
  }

  // ---------------------------------------------------------------- reading a format

  /** The character at a position of the format; behind its end the terminating NUL. */
  function At(fmt: string, k: nat): char {
    if k < |fmt| then fmt[k] else '\0'
  }

  function IsDigit(c: char): bool {
    '0' <= c <= '9'
  }

  function DigitValue(c: char): nat
    requires IsDigit(c)
  {
    c as int - '0' as int
  }

  /** Where the digits that begin at k end. */
  function DigitsEnd(fmt: string, k: nat): (j: nat)
    ensures j >= k && (k <= |fmt| ==> j <= |fmt|)
    decreases |fmt| - k
  {
    if IsDigit(At(fmt, k)) then DigitsEnd(fmt, k + 1) else k
  }

  /** skip_atoi, continued from the digits before k. */
  function Atoi(fmt: string, k: nat, i: nat): nat
    decreases |fmt| - k
  {
    if IsDigit(At(fmt, k)) then Atoi(fmt, k + 1, 10 * i + DigitValue(At(fmt, k))) else i
  }

  predicate IsFlag(c: char) {
    c == '-' || c == '+' || c == ' ' || c == '#' || c == '0'
  }

  function WithFlag(f: Flags, c: char): Flags {
    if c == '-' then f.(left := true) else if c == '+' then f.(plus := true) else if c == ' ' then f.(space := true)
    else if c == '0' then f.(zeropad := true) else f
  }

  function FlagsEnd(fmt: string, k: nat): (j: nat)
    ensures j >= k && (k <= |fmt| ==> j <= |fmt|)
    decreases |fmt| - k
  {
    if IsFlag(At(fmt, k)) then FlagsEnd(fmt, k + 1) else k
  }

  function FlagsFrom(fmt: string, k: nat, f: Flags): Flags
    decreases |fmt| - k
  {
    if IsFlag(At(fmt, k)) then FlagsFrom(fmt, k + 1, WithFlag(f, At(fmt, k))) else f
  }

  /** A missing or unsuitable argument, which C leaves undefined, is read as 0 or as a null string. */
  function WordOf(args: seq<Arg>): Word {
    if args != [] && args[0].Value? then args[0].word else 0
  }

  function TextOf(args: seq<Arg>): string {
    if args != [] && args[0].Text? then args[0].text else "(NULL)"
  }

  function Rest(args: seq<Arg>): seq<Arg> {
    if args == [] then [] else args[1..]
  }

  function Signed(u: Word): int {
    if u < WORDS / 2 then u else u - WORDS
  }

  /** A directive read up to its conversion character at `next`. */
  datatype Spec = Spec(flags: Flags, width: int, precision: int, qualifier: char, next: nat, args: seq<Arg>)

  function ReadWidth(fmt: string, k: nat, f: Flags, args: seq<Arg>): Spec {
    if IsDigit(At(fmt, k)) then Spec(f, Atoi(fmt, k, 0), -1, '\0', DigitsEnd(fmt, k), args)
    else if At(fmt, k) == '*' then
      var w := Signed(WordOf(args));
      if w < 0 then Spec(f.(left := true), -w, -1, '\0', k + 1, Rest(args)) else Spec(f, w, -1, '\0', k + 1, Rest(args))
    else Spec(f, -1, -1, '\0', k, args)
  }

  function ReadPrecision(fmt: string, p: Spec): Spec {
    if At(fmt, p.next) != '.' then p
    else
      var k := p.next + 1;
      if IsDigit(At(fmt, k)) then p.(precision := Atoi(fmt, k, 0), next := DigitsEnd(fmt, k))
      else if At(fmt, k) == '*' then p.(precision := Max(Signed(WordOf(p.args)), 0), next := k + 1, args := Rest(p.args))
      else p.(precision := 0, next := k)
  }

  function ReadQualifier(fmt: string, p: Spec): Spec {
    if At(fmt, p.next) == 'h' || At(fmt, p.next) == 'l' then p.(qualifier := At(fmt, p.next), next := p.next + 1) else p
  }

  function ReadSpec(fmt: string, k: nat, args: seq<Arg>): Spec {
    ReadQualifier(fmt, ReadPrecision(fmt, ReadWidth(fmt, FlagsEnd(fmt, k), FlagsFrom(fmt, k, NO_FLAGS), args)))
  }

  /** The word as the qualifier and the sign flag read it. */
  function Fetched(u: Word, qualifier: char, sign: bool): Word {
    if qualifier != 'h' then u
    else if sign && u % 0x10000 >= 0x8000 then WORDS - 0x10000 + u % 0x10000
    else u % 0x10000
  }

  datatype Piece = Piece(text: string, next: nat, args: seq<Arg>)

  function NumberPiece(p: Spec, base: nat, f: Flags): Piece {
    Piece(NumberText(Fetched(WordOf(p.args), p.qualifier, f.sign), base, p.width, p.precision, f), p.next + 1, Rest(p.args))
  }

  /** The conversion itself. */
  function Convert(fmt: string, p: Spec): Piece {
    var f, k := p.flags, p.next;
    match At(fmt, k)
    case 'c' => Piece(CharText((WordOf(p.args) % 256) as char, p.width, f.left), k + 1, Rest(p.args))
    case 's' => Piece(StringText(TextOf(p.args), p.width, p.precision, f.left), k + 1, Rest(p.args))
    case 'p' =>
      if p.width == -1
      then Piece(NumberText(WordOf(p.args), 16, 8, p.precision, f.(zeropad := true)), k + 1, Rest(p.args))
      else Piece(NumberText(WordOf(p.args), 16, p.width, p.precision, f), k + 1, Rest(p.args))
    case '%' => Piece("%", k + 1, p.args)
    case 'o' => NumberPiece(p, 8, f)
    case 'X' => NumberPiece(p, 16, f.(large := true))
    case 'x' => NumberPiece(p, 16, f)
    case 'd' => NumberPiece(p, 10, f.(sign := true))
    case 'i' => NumberPiece(p, 10, f.(sign := true))
    case 'u' => NumberPiece(p, 10, f)
    case c => if k < |fmt| then Piece(['%', c], k + 1, p.args) else Piece("%", k, p.args)
  }

  lemma ReadForward(fmt: string, k: nat, args: seq<Arg>)
    requires NoNul(fmt) && k <= |fmt|
    ensures k <= ReadSpec(fmt, k, args).next <= |fmt|
  {
  }

  /** A C string holds no NUL. */
  predicate NoNul(s: string) {
    forall i :: 0 <= i < |s| ==> s[i] != '\0'
  }

  /** The whole text that a format and its arguments stand for, from position k on. */
  function Render(fmt: string, k: nat, args: seq<Arg>): string
    requires NoNul(fmt) && k <= |fmt|
    decreases |fmt| - k
  {
    if k == |fmt| then ""
    else if fmt[k] != '%' then [fmt[k]] + Render(fmt, k + 1, args)
    else
      ReadForward(fmt, k + 1, args);
      var piece := Convert(fmt, ReadSpec(fmt, k + 1, args));
      piece.text + Render(fmt, piece.next, piece.args)
  }

  // ---------------------------------------------------------------- what the texts mean

  /** The value of a digit character in either case. */
  function CharValue(c: char): nat {
    if IsDigit(c) then c as int - '0' as int
    else if 'a' <= c <= 'f' then c as int - 'a' as int + 10
    else if 'A' <= c <= 'F' then c as int - 'A' as int + 10
    else 0
  }

  function ValueIn(s: string, radix: nat): nat {
    if s == "" then 0 else ValueIn(s[..|s| - 1], radix) * radix + CharValue(s[|s| - 1])
  }

  lemma DigitCharValue(d: nat, large: bool)
    requires d < 16
    ensures CharValue(DigitChar(d, large)) == d && (d < 10 ==> IsDigit(DigitChar(d, large)))
    ensures DigitChar(d, large) == '0' <==> d == 0
  {
  }

  lemma DivBack(n: nat, radix: nat)
    requires radix == 10 || radix == 16
    ensures n / radix * radix + n % radix == n && n % radix < radix && (n >= radix ==> 0 < n / radix < n)
  {
  }

  /** The digits denote the number. */
  lemma {:induction false} DigitsDenote(n: nat, radix: nat, large: bool)
    requires radix == 10 || radix == 16
    ensures ValueIn(Digits(n, radix, large), radix) == n
  {
    DivBack(n, radix);
    var s := Digits(n, radix, large);
    hide DigitChar, CharValue;
    if n < radix {
      DigitCharValue(n, large);
      assert s[..0] == "";
    } else {
      DigitCharValue(n % radix, large);
      DigitsDenote(n / radix, radix, large);
      assert s[..|s| - 1] == Digits(n / radix, radix, large);
    }
  }

  /** There is no superfluous zero in front of a number. */
  lemma {:induction false} DigitsLead(n: nat, radix: nat, large: bool)
    requires (radix == 10 || radix == 16) && n > 0
    ensures Digits(n, radix, large)[0] != '0'
  {
    DivBack(n, radix);
    if n < radix {
      DigitCharValue(n, large);
    } else {
      DigitsLead(n / radix, radix, large);
    }
  }

  lemma {:induction false} DecimalDigits(n: nat, large: bool)
    ensures forall i :: 0 <= i < |Digits(n, 10, large)| ==> IsDigit(Digits(n, 10, large)[i])
  {
    DigitCharValue(n % 10, large);
    if n >= 10 {
      DecimalDigits(n / 10, large);
    }
  }

  /** Reading decimal digits off a text gives their value. */
  lemma {:induction false} AtoiReads(fmt: string, k: nat, j: nat, i: nat)
    requires k <= j <= |fmt| && (forall x :: k <= x < j ==> IsDigit(fmt[x])) && !IsDigit(At(fmt, j))
    ensures DigitsEnd(fmt, k) == j
    ensures Atoi(fmt, k, i) == AtoiOf(fmt[k..j], i)
    decreases j - k
  {
    if k < j {
      AtoiReads(fmt, k + 1, j, 10 * i + DigitValue(fmt[k]));
      assert fmt[k..j][1..] == fmt[k + 1..j];
    }
  }

  function AtoiOf(s: string, i: nat): nat
    requires forall x :: 0 <= x < |s| ==> IsDigit(s[x])
  {
    if s == "" then i else AtoiOf(s[1..], 10 * i + DigitValue(s[0]))
  }

  lemma {:induction false} AtoiOfIs(s: string, i: nat)
    requires s != "" && forall x :: 0 <= x < |s| ==> IsDigit(s[x])
    ensures AtoiOf(s, i) == 10 * AtoiOf(s[..|s| - 1], i) + DigitValue(s[|s| - 1])
  {
    if |s| > 1 {
      AtoiOfIs(s[1..], 10 * i + DigitValue(s[0]));
      assert s[1..][..|s| - 2] == s[..|s| - 1][1..];
    }
  }

  lemma {:induction false} AtoiValue(s: string)
    requires forall x :: 0 <= x < |s| ==> IsDigit(s[x])
    ensures AtoiOf(s, 0) == ValueIn(s, 10)
  {
    if s != "" {
      AtoiOfIs(s, 0);
      AtoiValue(s[..|s| - 1]);
    }
  }

  /** What print_number writes in decimal, skip_atoi reads back, whatever follows that is not a digit. */
  lemma DecimalRoundTrip(n: nat, rest: string)
    requires rest == "" || !IsDigit(rest[0])
    ensures var text := Digits(n, 10, false) + rest;
            Atoi(text, 0, 0) == n && DigitsEnd(text, 0) == |Digits(n, 10, false)|
  {
    var digits := Digits(n, 10, false);
    var text := digits + rest;
    DigitsDenote(n, 10, false);
    DecimalDigits(n, false);
    AtoiReads(text, 0, |digits|, 0);
    assert text[0..|digits|] == digits;
    AtoiValue(digits);
  }

  lemma PlainNumber(n: Word)
    requires n < WORDS / 2
    ensures NumberText(n, 10, -1, -1, NO_FLAGS.(sign := true)) == Digits(n, 10, false)
  {
    hide Digits;
    var digits := Digits(n, 10, false);
    assert Front("", -1 - |digits|, NO_FLAGS.(sign := true)) == "";
    assert Body(digits, -1) == digits;
  }

  lemma PlainSpec(args: seq<Arg>)
    ensures ReadSpec("%d", 1, args) == Spec(NO_FLAGS, -1, -1, '\0', 1, args)
  {
    assert FlagsEnd("%d", 1) == 1 && FlagsFrom("%d", 1, NO_FLAGS) == NO_FLAGS;
  }

  /** A plain %d of a word below 2^31 prints the digits that skip_atoi reads back. */
  lemma PlainDecimal(n: Word)
    requires n < WORDS / 2
    ensures Render("%d", 0, [Value(n)]) == Digits(n, 10, false) && Atoi(Render("%d", 0, [Value(n)]), 0, 0) == n
  {
    PlainNumber(n);
    DecimalRoundTrip(n, "");
    hide Digits, NumberText, Atoi;
    var fmt, args := "%d", [Value(n)];
    assert Digits(n, 10, false) + "" == Digits(n, 10, false);
    PlainSpec(args);
    hide ReadSpec;
    var p := ReadSpec(fmt, 1, args);
    assert Convert(fmt, p) == NumberPiece(p, 10, NO_FLAGS.(sign := true));
    assert Render(fmt, 2, Rest(args)) == "";
  }

  /** A number takes up its field, or more if it does not fit; with precision 0 its digits are left out
      and their room is not made up for. */
  lemma NumberLength(u: Word, base: nat, width: int, precision: int, f: Flags)
    ensures var n := |Digits(Magnitude(u, f), Radix(base), f.large)|;
            |NumberText(u, base, width, precision, f)|
            == Max(width, |SignText(u, f)| + Max(n, precision)) - if precision == 0 then n else 0
  {
  }

  /** A string is padded to its field; longer ones are cut to the field width and to a positive precision. */
  lemma StringLength(s: string, width: int, precision: int, left: bool)
    ensures |StringText(s, width, precision, left)| == Max(width, Shown(|s|, width, precision))
    ensures forall i :: 0 <= i < Shown(|s|, width, precision) ==>
              StringText(s, width, precision, left)[if left then i else i + Max(width - Shown(|s|, width, precision), 0)] == s[i]
  {
  }

  // ---------------------------------------------------------------- the writer in place

  function Min(a: nat, b: nat): nat {
    if a < b then a else b
  }

  /** Output that goes on counting when the buffer is full. */
  class Writer {
    const buf: array<char>
    var pos: nat
    ghost var text: string
    ghost const before: seq<char>

    /** The buffer holds the beginning of the text, and behind it what it held before. */
    ghost predicate Valid()
      reads this, buf
    {
      pos == |text| && |before| == buf.Length
      && buf[..] == text[..Min(pos, buf.Length)] + before[Min(pos, buf.Length)..]
    }

    constructor (buffer: array<char>)
      ensures Valid() && buf == buffer && text == "" && before == buffer[..]
    {
      buf, pos, text := buffer, 0, "";
      before := buffer[..];
    }

    method Put(c: char)
      requires Valid()
      modifies this, buf
      ensures Valid() && text == old(text) + [c]
    {
      if pos < buf.Length {
        buf[pos] := c;
      }
      pos := pos + 1;
      text := text + [c];
    }

    method PutRepeated(c: char, n: int)
      requires Valid()
      modifies this, buf
      ensures Valid() && text == old(text) + Repeat(c, n)
    {
      var size := n;
      assert text + Repeat(c, 0) == text;
      while size > 0
        invariant Valid() && (n > 0 ==> size >= 0) && (n <= 0 ==> size == n)
        invariant text == old(text) + Repeat(c, if n > 0 then n - size else 0)
      {
        Put(c);
        size := size - 1;
        assert Repeat(c, n - size - 1) + [c] == Repeat(c, n - size);
      }
    }

    method PutText(s: string)
      requires Valid()
      modifies this, buf
      ensures Valid() && text == old(text) + s
    {
      var i := 0;
      while i < |s|
        invariant i <= |s| && Valid() && text == old(text) + s[..i]
      {
        Put(s[i]);
        i := i + 1;
        assert s[..i - 1] + [s[i - 1]] == s[..i];
      }
      assert s[..i] == s;
    }

    /** The digits in the local buffer go out last one first. */
    method PutBackwards(tmp: array<char>, n: nat, ghost digits: string)
      requires Valid() && tmp != buf && n <= tmp.Length && n == |digits|
      requires forall j :: 0 <= j < n ==> tmp[j] == digits[n - 1 - j]
      modifies this, buf
      ensures Valid() && text == old(text) + digits
    {
      var i: nat := n;
      assert text + digits[..0] == text;
      while i > 0
        invariant i <= n && Valid() && text == old(text) + digits[..n - i]
        invariant forall j :: 0 <= j < n ==> tmp[j] == digits[n - 1 - j]
      {
        i := i - 1;
        Put(tmp[i]);
        assert digits[..n - i - 1] + [digits[n - i - 1]] == digits[..n - i];
      }
      assert digits[..n] == digits;
    }
  }

  /** A bound on what is left of a word after i digits. */
  function Left(i: nat): nat {
    if i == 0 then WORDS - 1 else Left(i - 1) / 10
  }

  lemma TenDigits()
    ensures Left(10) == 0
  {
    assert Left(1) == 429496729;
    assert Left(2) == 42949672;
    assert Left(4) == 429496;
    assert Left(6) == 4294;
    assert Left(8) == 42;
  }

  /** The digits still to be taken off a number, none for 0. */
  function Remaining(n: nat, radix: nat, large: bool): string
    requires radix == 10 || radix == 16
  {
    if n == 0 then "" else Digits(n, radix, large)
  }

  lemma NoneRemaining(n: nat, radix: nat, large: bool)
    requires radix == 10 || radix == 16
    ensures Remaining(0, radix, large) == "" && (n > 0 ==> Remaining(n, radix, large) == Digits(n, radix, large))
    ensures n == 0 ==> Digits(n, radix, large) == [DigitChar(0, large)]
  {
  }

  lemma LastDigit(n: nat, radix: nat, large: bool)
    requires (radix == 10 || radix == 16) && n > 0
    ensures n % radix < 16 && n / radix < n
    ensures Remaining(n, radix, large) == Remaining(n / radix, radix, large) + [DigitChar(n % radix, large)]
  {
    DivBack(n, radix);
  }

  /** The digits of a word into the 16 characters of a local buffer, last digit first. */
  method Disassemble(u: Word, base: nat, large: bool) returns (tmp: array<char>, i: nat)
    ensures fresh(tmp) && i <= tmp.Length && i == |Digits(u, Radix(base), large)|
    ensures forall j :: 0 <= j < i ==> tmp[j] == Digits(u, Radix(base), large)[i - 1 - j]
  {
    hide DigitChar, Left, Radix, Digits, Remaining;
    NoneRemaining(u, Radix(base), large);
    tmp := new char[16];
    i := 0;
    ghost var radix, tail := Radix(base), "";
    TenDigits();
    if u == 0 {
      tmp[0] := DigitChar(0, large);
      i := 1;
      return;
    }
    var num: Word := u;
    FirstLeft(u);
    assert Remaining(u, radix, large) + tail == Remaining(u, radix, large);
    while num != 0
      invariant num <= Left(i) && num < WORDS && i <= 10
      invariant |tail| == i && Remaining(num, radix, large) + tail == Remaining(u, radix, large)
      invariant forall j :: 0 <= j < i ==> tmp[j] == tail[i - 1 - j]
      decreases num
    {
      LastDigit(num, radix, large);
      NextLeft(num, radix, i);
      ghost var was := num;
      var digit;
      digit, num := Divide(num, base);
      RadixIs(base);
      Decomposed(was, radix, num, digit);
      tmp[i] := DigitChar(digit, large);
      tail := [DigitChar(digit, large)] + tail;
      i := i + 1;
      assert Remaining(num, radix, large) + tail == Remaining(was, radix, large) + tail[1..];
    }
  }

  lemma RadixIs(base: nat)
    ensures Radix(base) == if base == 10 then 10 else 16
  {
  }

  lemma FirstLeft(u: Word)
    ensures u <= Left(0)
  {
  }

  /** While something is left, fewer than ten digits have been taken off. */
  lemma NextLeft(n: nat, radix: nat, i: nat)
    requires (radix == 10 || radix == 16) && 0 < n <= Left(i) && i <= 10
    ensures i < 10 && n / radix <= Left(i + 1)
  {
    hide Left;
    TenDigits();
    LeftStep(i);
    Shrinks(n, Left(i), radix);
  }

  lemma LeftStep(i: nat)
    ensures Left(i + 1) == Left(i) / 10
  {
  }

  lemma Shrinks(n: nat, m: nat, radix: nat)
    requires (radix == 10 || radix == 16) && n <= m
    ensures n / radix <= m / 10
  {
  }

  /** Quotient and remainder are determined by what they make up together. */
  lemma Decomposed(n: nat, radix: nat, quotient: nat, digit: nat)
    requires (radix == 10 || radix == 16) && quotient * radix + digit == n && digit < radix
    ensures quotient == n / radix && digit == n % radix
  {
  }

  /** `divide`: one digit is taken off, and no part of the number is lost; only base 10 is not taken for 16. */
  method Divide(n: Word, base: nat) returns (digit: nat, quotient: Word)
    ensures base == 10 ==> quotient * 10 + digit == n && digit < 10
    ensures base != 10 ==> quotient * 16 + digit == n && digit < 16
  {
    if base == 10 {
      digit, quotient := n % 10, n / 10;
    } else {
      digit, quotient := n % 16, n / 16;
    }
  }

  /** What is left of a counter after a loop that counts it down to below zero. */
  function Drained(n: int): int {
    if n > 0 then -1 else n - 1
  }

  /** print_number up to the digits; `room` is the width they leave. */
  method PutFront(w: Writer, sign: string, room: int, f: Flags) returns (size: int)
    requires w.Valid() && |sign| <= 1
    modifies w, w.buf
    ensures w.Valid() && w.text == old(w.text) + Front(sign, room - |sign|, f)
    ensures if f.left then size == room - |sign| else size < 0
  {
    hide Repeat;
    var zeropad := f.zeropad && !f.left;
    size := room;
    if !zeropad && !f.left {
      if sign != "" && size > 0 {
        size := size - 1;
      }
      w.PutRepeated(' ', size);
      Nothing(' ', size);
      Nothing(' ', room - |sign|);
      size := Drained(size);
    }
    if sign != "" {
      w.PutText(sign);
      size := size - 1;
    }
    if !f.left {
      var c := if zeropad then '0' else ' ';
      w.PutRepeated(c, size);
      Nothing(c, size);
      size := Drained(size);
    }
    assert old(w.text) + Repeat(' ', room - |sign|) + sign == old(w.text) + (Repeat(' ', room - |sign|) + sign);
    assert old(w.text) + sign + Repeat('0', room - |sign|) == old(w.text) + (sign + Repeat('0', room - |sign|));
  }

  method PutNumber(w: Writer, tmp: array<char>, i: nat, sign: string, width: int, precision: int, f: Flags, ghost digits: string)
    requires w.Valid() && tmp != w.buf && i <= tmp.Length && i == |digits| && |sign| <= 1
    requires forall j :: 0 <= j < i ==> tmp[j] == digits[i - 1 - j]
    modifies w, w.buf
    ensures w.Valid() && w.text == old(w.text) + Composed(digits, sign, width, precision, f)
  {
    hide Repeat, Front;
    var prec := if i > precision then i else precision;
    var size := PutFront(w, sign, width - prec, f);
    w.PutRepeated('0', prec - i);
    if precision != 0 {
      w.PutBackwards(tmp, i, digits);
    }
    w.PutRepeated(' ', size);
    Nothing(' ', size);
    Nothing('0', prec - i);
    Nothing('0', precision - i);
    var pad := width - prec - |sign|;
    Associate(old(w.text), Front(sign, pad, f), Repeat('0', prec - i), if precision != 0 then digits else "", Repeat(' ', size));
  }

  lemma Associate(a: string, b: string, c: string, d: string, e: string)
    ensures a + b + c + d + e == a + (b + (c + d) + e)
    ensures a + b + c + e == a + (b + (c + "") + e)
  {
  }

  lemma Nothing(c: char, n: int)
    ensures n <= 0 ==> Repeat(c, n) == ""
    ensures Repeat(c, 0) == ""
  {
  }

  method PrintNumber(w: Writer, u: Word, base: nat, width: int, precision: int, f: Flags)
    requires w.Valid()
    modifies w, w.buf
    ensures w.Valid() && w.text == old(w.text) + NumberText(u, base, width, precision, f)
  {
    hide Digits, Radix, Composed;
    var tmp, i := Disassemble(Magnitude(u, f), base, f.large);
    PutNumber(w, tmp, i, SignText(u, f), width, precision, f, Digits(Magnitude(u, f), Radix(base), f.large));
  }

  /** skip_atoi */
  method SkipAtoi(fmt: string, k: nat) returns (i: nat, next: nat)
    ensures i == Atoi(fmt, k, 0) && next == DigitsEnd(fmt, k)
  {
    i, next := 0, k;
    while IsDigit(At(fmt, next))
      invariant Atoi(fmt, next, i) == Atoi(fmt, k, 0) && DigitsEnd(fmt, next) == DigitsEnd(fmt, k)
      decreases |fmt| - next
    {
      i := i * 10 + DigitValue(At(fmt, next));
      next := next + 1;
    }
  }

  method ReadFlags(fmt: string, k: nat) returns (f: Flags, next: nat)
    ensures f == FlagsFrom(fmt, k, NO_FLAGS) && next == FlagsEnd(fmt, k)
  {
    f, next := NO_FLAGS, k;
    while true
      invariant FlagsFrom(fmt, next, f) == FlagsFrom(fmt, k, NO_FLAGS) && FlagsEnd(fmt, next) == FlagsEnd(fmt, k)
      decreases |fmt| - next
    {
      var c := At(fmt, next);
      if c == '-' {
        f := f.(left := true);
      } else if c == '+' {
        f := f.(plus := true);
      } else if c == ' ' {
        f := f.(space := true);
      } else if c == '#' {
      } else if c == '0' {
        f := f.(zeropad := true);
      } else {
        break;
      }
      next := next + 1;
    }
  }

  method ReadField(fmt: string, k: nat, f: Flags, args: seq<Arg>) returns (p: Spec)
    ensures p == ReadWidth(fmt, k, f, args)
  {
    if IsDigit(At(fmt, k)) {
      var width, next := SkipAtoi(fmt, k);
      p := Spec(f, width, -1, '\0', next, args);
    } else if At(fmt, k) == '*' {
      var width := Signed(WordOf(args));
      if width < 0 {
        p := Spec(f.(left := true), -width, -1, '\0', k + 1, Rest(args));
      } else {
        p := Spec(f, width, -1, '\0', k + 1, Rest(args));
      }
    } else {
      p := Spec(f, -1, -1, '\0', k, args);
    }
  }

  method ReadPoint(fmt: string, p: Spec) returns (q: Spec)
    ensures q == ReadPrecision(fmt, p)
  {
    q := p;
    if At(fmt, q.next) == '.' {
      q := q.(next := q.next + 1, precision := -1);
      if IsDigit(At(fmt, q.next)) {
        var precision, next := SkipAtoi(fmt, q.next);
        q := q.(precision := precision, next := next);
      } else if At(fmt, q.next) == '*' {
        q := q.(precision := Signed(WordOf(q.args)), next := q.next + 1, args := Rest(q.args));
      }
      if q.precision < 0 {
        q := q.(precision := 0);
      }
    }
  }

  method ReadDirective(fmt: string, k: nat, args: seq<Arg>) returns (p: Spec)
    ensures p == ReadSpec(fmt, k, args)
  {
    hide FlagsFrom, FlagsEnd, ReadWidth, ReadPrecision;
    var f, next := ReadFlags(fmt, k);
    p := ReadField(fmt, next, f, args);
    p := ReadPoint(fmt, p);
    if At(fmt, p.next) == 'h' || At(fmt, p.next) == 'l' {
      p := p.(qualifier := At(fmt, p.next), next := p.next + 1);
    }
  }

  method PutChar(w: Writer, c: char, width: int, left: bool)
    requires w.Valid()
    modifies w, w.buf
    ensures w.Valid() && w.text == old(w.text) + CharText(c, width, left)
  {
    hide Repeat;
    var size := width;
    if !left {
      w.PutRepeated(' ', size - 1);
      size := Drained(size - 1) + 1;
    }
    w.Put(c);
    w.PutRepeated(' ', size - 1);
    Nothing(' ', size - 1);
    assert old(w.text) + Repeat(' ', width - 1) + [c] + "" == old(w.text) + (Repeat(' ', width - 1) + [c]);
    assert old(w.text) + [c] + Repeat(' ', width - 1) == old(w.text) + ([c] + Repeat(' ', width - 1));
  }

  /** How much of the string is shown. */
  method Measure(s: string, width: int, precision: int) returns (len: nat)
    ensures len == Shown(|s|, width, precision)
  {
    len := 0;
    while len != width && len < |s|
      invariant 0 <= len <= |s| && (0 <= width ==> len <= width)
      decreases |s| - len
    {
      len := len + 1;
    }
    if precision > 0 && len > precision {
      len := precision;
    }
  }

  method PutString(w: Writer, s: string, width: int, precision: int, left: bool)
    requires w.Valid()
    modifies w, w.buf
    ensures w.Valid() && w.text == old(w.text) + StringText(s, width, precision, left)
  {
    hide Repeat, Shown;
    var len := Measure(s, width, precision);
    var size := width - len;
    if !left {
      w.PutRepeated(' ', size);
      size := Drained(size);
    }
    w.PutText(s[..len]);
    w.PutRepeated(' ', size);
    Nothing(' ', size);
    assert old(w.text) + Repeat(' ', width - len) + s[..len] + "" == old(w.text) + (Repeat(' ', width - len) + s[..len]);
    assert old(w.text) + s[..len] + Repeat(' ', width - len) == old(w.text) + (s[..len] + Repeat(' ', width - len));
  }

  /** The conversions that take a number. */
  method PutInteger(w: Writer, p: Spec, base: nat, f: Flags)
    requires w.Valid()
    modifies w, w.buf
    ensures w.Valid() && w.text == old(w.text) + NumberPiece(p, base, f).text
  {
    hide NumberText;
    var num := WordOf(p.args);
    if p.qualifier == 'h' {
      num := num % 0x10000;
      if f.sign && num >= 0x8000 {
        num := WORDS - 0x10000 + num;
      }
    }
    PrintNumber(w, num, base, p.width, p.precision, f);
  }

  /** The switch over the conversion character. */
  method PutConverted(w: Writer, fmt: string, p: Spec) returns (next: nat, args: seq<Arg>)
    requires w.Valid()
    modifies w, w.buf
    ensures w.Valid() && w.text == old(w.text) + Convert(fmt, p).text
    ensures next == Convert(fmt, p).next && args == Convert(fmt, p).args
  {
    hide NumberText, CharText, StringText, Fetched;
    next, args := p.next + 1, Rest(p.args);
    match At(fmt, p.next) {
      case 'c' => PutChar(w, (WordOf(p.args) % 256) as char, p.width, p.flags.left);
      case 's' => PutString(w, TextOf(p.args), p.width, p.precision, p.flags.left);
      case 'p' => PutPointer(w, p);
      case '%' =>
        w.Put('%');
        args := p.args;
      case 'o' => PutInteger(w, p, 8, p.flags);
      case 'X' => PutInteger(w, p, 16, p.flags.(large := true));
      case 'x' => PutInteger(w, p, 16, p.flags);
      case 'd' => PutInteger(w, p, 10, p.flags.(sign := true));
      case 'i' => PutInteger(w, p, 10, p.flags.(sign := true));
      case 'u' => PutInteger(w, p, 10, p.flags);
      case c =>
        args := p.args;
        w.Put('%');
        if p.next < |fmt| {
          w.Put(c);
          assert old(w.text) + ['%'] + [c] == old(w.text) + ['%', c];
        } else {
          next := p.next;
        }
    }
  }

  method PutPointer(w: Writer, p: Spec)
    requires w.Valid()
    modifies w, w.buf
    ensures w.Valid()
    ensures w.text == old(w.text) + if p.width == -1 then NumberText(WordOf(p.args), 16, 8, p.precision, p.flags.(zeropad := true))
                                    else NumberText(WordOf(p.args), 16, p.width, p.precision, p.flags)
  {
    hide NumberText;
    var width, f := p.width, p.flags;
    if width == -1 {
      width := 8;
      f := f.(zeropad := true);
    }
    PrintNumber(w, WordOf(p.args), 16, width, p.precision, f);
  }

  /**
   rt_vsnprintf: a buffer of any size ends up with the beginning of the text that the format stands for and
   a NUL, nothing behind that is touched, and what is returned is the length of the whole text.  That is the
   number of characters stored exactly when the text and its NUL fit, or when there is neither text nor buffer.
   */
  method Vsnprintf(buf: array<char>, fmt: string, args: seq<Arg>) returns (len: nat)
    requires NoNul(fmt)
    modifies buf
    ensures len == |Render(fmt, 0, args)|
    ensures buf.Length > 0 ==>
              var kept := if len < buf.Length then len else buf.Length - 1;
              buf[..kept] == Render(fmt, 0, args)[..kept] && buf[kept] == '\0' && buf[kept + 1..] == old(buf[kept + 1..])
    ensures len == Stored(len, buf.Length) <==> len < buf.Length || len == 0
  {
    var w := new Writer(buf);
    WriteAll(w, fmt, args);
    ghost var text := w.text;
    if buf.Length > 0 {
      if w.pos < buf.Length {
        buf[w.pos] := '\0';
      } else {
        buf[buf.Length - 1] := '\0';
      }
    }
    len := w.pos;
  }

  /** How many characters of a text of n characters a buffer of the given size receives. */
  function Stored(n: nat, size: nat): nat {
    if size == 0 then 0 else Min(n, size - 1)
  }

  method WriteAll(w: Writer, fmt: string, args: seq<Arg>)
    requires NoNul(fmt) && w.Valid() && w.text == ""
    modifies w, w.buf
    ensures w.Valid() && w.text == Render(fmt, 0, args)
  {
    hide Convert, ReadSpec, Render;
    RenderEnds(fmt, args);
    var k, left := 0, args;
    while k < |fmt|
      invariant k <= |fmt| && w.Valid() && w.text + Render(fmt, k, left) == Render(fmt, 0, args)
      decreases |fmt| - k
    {
      ghost var was, at, had := w.text, k, left;
      if fmt[k] != '%' {
        w.Put(fmt[k]);
        k := k + 1;
        RenderPlain(fmt, at, had);
        assert w.text + Render(fmt, k, left) == was + ([fmt[at]] + Render(fmt, k, left));
      } else {
        ReadForward(fmt, k + 1, left);
        var p := ReadDirective(fmt, k + 1, left);
        ConvertForward(fmt, p);
        k, left := PutConverted(w, fmt, p);
        RenderDirective(fmt, at, had);
        assert w.text + Render(fmt, k, left) == was + (Convert(fmt, p).text + Render(fmt, k, left));
      }
    }
    RenderEnds(fmt, left);
  }

  lemma RenderPlain(fmt: string, k: nat, args: seq<Arg>)
    requires NoNul(fmt) && k < |fmt| && fmt[k] != '%'
    ensures Render(fmt, k, args) == [fmt[k]] + Render(fmt, k + 1, args)
  {
  }

  lemma RenderDirective(fmt: string, k: nat, args: seq<Arg>)
    requires NoNul(fmt) && k < |fmt| && fmt[k] == '%'
    ensures var piece := Convert(fmt, ReadSpec(fmt, k + 1, args));
            piece.next <= |fmt| && Render(fmt, k, args) == piece.text + Render(fmt, piece.next, piece.args)
  {
    ReadForward(fmt, k + 1, args);
    ConvertForward(fmt, ReadSpec(fmt, k + 1, args));
    hide Convert, ReadSpec;
  }

  lemma RenderEnds(fmt: string, args: seq<Arg>)
    requires NoNul(fmt)
    ensures Render(fmt, |fmt|, args) == "" && "" + Render(fmt, 0, args) == Render(fmt, 0, args)
  {
  }

  lemma ConvertForward(fmt: string, p: Spec)
    requires p.next <= |fmt| && NoNul(fmt)
    ensures p.next <= Convert(fmt, p).next <= |fmt|
  {
  }
}
