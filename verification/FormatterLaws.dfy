/** What a directive of a format stands for: how it is read, what it prints, and which arguments it uses. */
module FormatterLaws {

  import opened Formatter

  // ---------------------------------------------------------------- what is printed

  predicate Only(s: string, c: char) {
    forall i :: 0 <= i < |s| ==> s[i] == c
  }

  /** A digit of the radix, in lower or upper case. */
  predicate DigitIn(c: char, radix: nat, large: bool) {
    '0' <= c <= '9' || (radix == 16 && if large then 'A' <= c <= 'F' else 'a' <= c <= 'f')
  }

  predicate Numeral(s: string, radix: nat, large: bool) {
    forall i :: 0 <= i < |s| ==> DigitIn(s[i], radix, large)
  }

  /** How many digits the number has: the least k with value < radix^k, but one for 0. */
  predicate DigitCount(value: nat, radix: nat, k: nat) {
    k > 0 && value < Power(radix, k) && (k > 1 ==> Power(radix, k - 1) <= value)
  }

  function Power(radix: nat, k: nat): nat {
    if k == 0 then 1 else radix * Power(radix, k - 1)
  }

  datatype Field = Field(width: int, precision: int, left: bool, zeropad: bool)

  /** The text is blanks, the sign, a numeral that denotes the value, and blanks. */
  predicate Laid(text: string, lead: string, sign: string, body: string, trail: string, value: nat, radix: nat, large: bool) {
    text == lead + sign + body + trail && Only(lead, ' ') && Only(trail, ' ')
    && Numeral(body, radix, large) && ValueIn(body, radix) == value
  }

  /** Which of the paddings may be there, with n digits for the number. */
  predicate Padded(lead: string, sign: string, body: string, trail: string, n: nat, f: Field) {
    var least := Max(n, f.precision);
    && |lead| + |sign| + |body| + |trail| == Max(f.width, |sign| + least)
    && (f.left ==> lead == "" && |body| == least)
    && (!f.left ==> trail == "" && if f.zeropad then lead == "" else |body| == least)
  }

  /** The text shows a number with a sign in a field, its digits not being suppressed by precision 0. */
  ghost predicate ShowsNumber(text: string, sign: string, value: nat, radix: nat, large: bool, f: Field) {
    exists lead, body, trail, n ::
      Laid(text, lead, sign, body, trail, value, radix, large) && DigitCount(value, radix, n)
      && Padded(lead, sign, body, trail, n, f)
  }

  /** The text is blanks, the sign, zeros and blanks; the room of the n digits left out is not made up for. */
  predicate Bare(text: string, lead: string, sign: string, zeros: string, trail: string, n: nat, f: Field) {
    text == lead + sign + zeros + trail && Only(lead, ' ') && Only(zeros, '0') && Only(trail, ' ')
    && |text| == Max(f.width, |sign| + n) - n
    && (f.left ==> lead == "" && zeros == "")
    && (!f.left ==> trail == "" && if f.zeropad then lead == "" else zeros == "")
  }

  /** With precision 0 the text has the sign and padding only. */
  ghost predicate ShowsNoDigits(text: string, sign: string, value: nat, radix: nat, f: Field) {
    exists lead, zeros, trail, n :: DigitCount(value, radix, n) && Bare(text, lead, sign, zeros, trail, n, f)
  }

  ghost predicate Shows(text: string, sign: string, value: nat, radix: nat, large: bool, f: Field) {
    if f.precision == 0 then ShowsNoDigits(text, sign, value, radix, f) else ShowsNumber(text, sign, value, radix, large, f)
  }

  predicate ShowsChar(text: string, c: char, width: int, left: bool) {
    |text| == Max(width, 1) && text[if left then 0 else |text| - 1] == c
    && if left then Only(text[1..], ' ') else Only(text[..|text| - 1], ' ')
  }

  /** The beginning of s, as far as the width and a positive precision allow, on its side of a field of blanks. */
  predicate ShowsString(text: string, s: string, width: int, precision: int, left: bool) {
    exists n: nat :: n <= |s| && Cut(n, |s|, width, precision) && Beside(text, s[..n], width, left)
  }

  /** The text is `shown` on one side of a field that the rest of is blank. */
  predicate Beside(text: string, shown: string, width: int, left: bool) {
    |text| == Max(width, |shown|)
    && if left then text[..|shown|] == shown && Only(text[|shown|..], ' ')
       else text[|text| - |shown|..] == shown && Only(text[..|text| - |shown|], ' ')
  }

  /** n is the least of the length, the width if there is one, and the precision if it is positive. */
  predicate Cut(n: nat, len: nat, width: int, precision: int) {
    n <= len && (width >= 0 ==> n <= width) && (precision > 0 ==> n <= precision)
    && (n == len || n == width || n == precision)
  }

  // ---------------------------------------------------------------- the texts are as described

  lemma {:induction false} DigitsCounted(n: nat, radix: nat, large: bool)
    requires radix == 10 || radix == 16
    ensures DigitCount(n, radix, |Digits(n, radix, large)|)
    ensures Numeral(Digits(n, radix, large), radix, large)
  {
    DivBack(n, radix);
    var s := Digits(n, radix, large);
    hide DigitCount, DigitIn, DigitChar;
    if n < radix {
      CountOne(n, radix);
      OneDigit(n, radix, large);
    } else {
      DigitsCounted(n / radix, radix, large);
      CountOneMore(n, radix, |s| - 1);
      OneDigit(n % radix, radix, large);
    }
  }

  lemma OneDigit(d: nat, radix: nat, large: bool)
    requires (radix == 10 || radix == 16) && d < radix
    ensures DigitIn(DigitChar(d, large), radix, large)
  {
  }

  lemma CountOne(n: nat, radix: nat)
    requires n < radix
    ensures DigitCount(n, radix, 1)
  {
    assert Power(radix, 1) == radix * Power(radix, 0);
  }

  lemma CountOneMore(n: nat, radix: nat, k: nat)
    requires (radix == 10 || radix == 16) && n >= radix && DigitCount(n / radix, radix, k)
    ensures DigitCount(n, radix, k + 1)
  {
    DivBack(n, radix);
    var p, q := Power(radix, k), Power(radix, k - 1);
    assert n < n / radix * radix + radix && n / radix + 1 <= p;
    assert Power(radix, k + 1) == radix * p && p == radix * q;
  }

  lemma {:induction false} ZerosInFront(zeros: string, s: string, radix: nat)
    requires Only(zeros, '0')
    ensures ValueIn(zeros + s, radix) == ValueIn(s, radix)
    decreases |zeros| + |s|
  {
    var all := zeros + s;
    if s != "" {
      assert all[..|all| - 1] == zeros + s[..|s| - 1];
      ZerosInFront(zeros, s[..|s| - 1], radix);
    } else if zeros != "" {
      assert all[..|all| - 1] == zeros[..|zeros| - 1] + "";
      ZerosInFront(zeros[..|zeros| - 1], "", radix);
    }
  }

  lemma NumberShown(u: Word, base: nat, width: int, precision: int, f: Flags)
    ensures Shows(NumberText(u, base, width, precision, f), SignText(u, f), Magnitude(u, f), Radix(base), f.large,
                  Field(width, precision, f.left, f.zeropad))
  {
    var radix, value, sign := Radix(base), Magnitude(u, f), SignText(u, f);
    var digits := Digits(value, radix, f.large);
    var pad := width - Max(|digits|, precision) - |sign|;
    DigitsCounted(value, radix, f.large);
    DigitsDenote(value, radix, f.large);
    hide Digits, DigitCount, Radix, SignText, Magnitude, ValueIn;
    var zeros := if f.zeropad && !f.left then Repeat('0', pad) else "";
    var lead := if f.zeropad || f.left then "" else Repeat(' ', pad);
    var trail := if f.left then Repeat(' ', pad) else "";
    if precision == 0 {
      NoDigitsLaid(digits, sign, width, f, lead, zeros, trail, value, radix);
    } else {
      DigitsLaid(digits, sign, width, precision, f, lead, zeros, trail, value, radix);
    }
  }

  lemma NoDigitsLaid(digits: string, sign: string, width: int, f: Flags, lead: string, zeros: string, trail: string,
                     value: nat, radix: nat)
    requires var pad := width - Max(|digits|, 0) - |sign|;
             && zeros == (if f.zeropad && !f.left then Repeat('0', pad) else "")
             && lead == (if f.zeropad || f.left then "" else Repeat(' ', pad))
             && trail == (if f.left then Repeat(' ', pad) else "")
    requires DigitCount(value, radix, |digits|)
    ensures ShowsNoDigits(Composed(digits, sign, width, 0, f), sign, value, radix, Field(width, 0, f.left, f.zeropad))
  {
    hide DigitCount;
    var text := Composed(digits, sign, width, 0, f);
    assert Body(digits, 0) == "";
    assert text == lead + sign + zeros + trail;
    assert Bare(text, lead, sign, zeros, trail, |digits|, Field(width, 0, f.left, f.zeropad));
  }

  lemma DigitsLaid(digits: string, sign: string, width: int, precision: int, f: Flags, lead: string, zeros: string, trail: string,
                   value: nat, radix: nat)
    requires var pad := width - Max(|digits|, precision) - |sign|;
             && zeros == (if f.zeropad && !f.left then Repeat('0', pad) else "")
             && lead == (if f.zeropad || f.left then "" else Repeat(' ', pad))
             && trail == (if f.left then Repeat(' ', pad) else "")
    requires precision != 0 && DigitCount(value, radix, |digits|)
    requires Numeral(digits, radix, f.large) && ValueIn(digits, radix) == value
    ensures ShowsNumber(Composed(digits, sign, width, precision, f), sign, value, radix, f.large, Field(width, precision, f.left, f.zeropad))
  {
    hide DigitCount, ValueIn;
    var text, more := Composed(digits, sign, width, precision, f), Repeat('0', precision - |digits|);
    var body := zeros + more + digits;
    assert text == lead + sign + body + trail;
    assert Only(zeros + more, '0');
    ZerosInFront(zeros + more, digits, radix);
    assert Laid(text, lead, sign, body, trail, value, radix, f.large);
    assert Padded(lead, sign, body, trail, |digits|, Field(width, precision, f.left, f.zeropad));
  }

  lemma CharShown(c: char, width: int, left: bool)
    ensures ShowsChar(CharText(c, width, left), c, width, left)
  {
    var t := CharText(c, width, left);
    assert if left then t[1..] == Repeat(' ', width - 1) else t[..|t| - 1] == Repeat(' ', width - 1);
  }

  lemma StringShown(s: string, width: int, precision: int, left: bool)
    ensures ShowsString(StringText(s, width, precision, left), s, width, precision, left)
  {
    var n, t := Shown(|s|, width, precision), StringText(s, width, precision, left);
    assert Cut(n, |s|, width, precision);
    var blanks := Repeat(' ', width - n);
    assert if left then t[..n] == s[..n] && t[n..] == blanks else t[|t| - n..] == s[..n] && t[..|t| - n] == blanks;
    assert Beside(t, s[..n], width, left);
  }

  // ---------------------------------------------------------------- conversions

  /** The number that a directive prints: its value, whether it is below 0, and whether its sign is shown at all. */
  datatype Number = Number(value: nat, negative: bool, signed: bool)

  /** The argument as a number: 'h' keeps its low 16 bits, and d and i read it in two's complement. */
  function NumberOf(u: Word, c: char, qualifier: char): Number {
    var bits := if qualifier == 'h' && c != 'p' then 0x1_0000 else WORDS;
    var v := u % bits;
    if (c == 'd' || c == 'i') && v >= bits / 2 then Number(bits - v, true, true)
    else Number(v, false, c == 'd' || c == 'i')
  }

  function SignOf(n: Number, plus: bool, space: bool): string {
    if !n.signed then "" else if n.negative then "-" else if plus then "+" else if space then " " else ""
  }

  predicate IsNumeric(c: char) {
    c == 'd' || c == 'i' || c == 'u' || c == 'x' || c == 'X' || c == 'o' || c == 'p'
  }

  /** The radix of a conversion; an octal one prints hexadecimal. */
  function RadixOf(c: char): nat {
    if c == 'd' || c == 'i' || c == 'u' then 10 else 16
  }

  /** A pointer without a width fills 8 places with zeros. */
  function FieldOf(c: char, p: Spec): Field {
    if c == 'p' && p.width == -1 then Field(8, p.precision, p.flags.left, true)
    else Field(p.width, p.precision, p.flags.left, p.flags.zeropad)
  }

  lemma NumberFetched(u: Word, c: char, p: Spec)
    requires IsNumeric(c) && c != 'p' && !p.flags.sign
    ensures var f, n := p.flags.(sign := c == 'd' || c == 'i'), NumberOf(u, c, p.qualifier);
            var v := Fetched(u, p.qualifier, f.sign);
            SignText(v, f) == SignOf(n, f.plus, f.space) && Magnitude(v, f) == n.value
  {
  }

  /**
   A numeric directive prints the number that its argument stands for, in its radix and case and in its field,
   and uses that argument.
   */
  lemma NumberPrinted(fmt: string, k: nat, args: seq<Arg>, p: Spec) returns (text: string)
    requires NoNul(fmt) && k < |fmt| && fmt[k] == '%' && p == ReadSpec(fmt, k + 1, args) && k < p.next < |fmt|
    requires IsNumeric(fmt[p.next]) && !p.flags.sign && !p.flags.large
    ensures Render(fmt, k, args) == text + Render(fmt, p.next + 1, Rest(p.args))
    ensures var c := fmt[p.next];
            var n := NumberOf(WordOf(p.args), c, p.qualifier);
            Shows(text, SignOf(n, p.flags.plus, p.flags.space), n.value, RadixOf(c), c == 'X', FieldOf(c, p))
  {
    hide Shows, NumberText, ReadSpec, Render;
    var c, u := fmt[p.next], WordOf(p.args);
    var f := p.flags.(sign := c == 'd' || c == 'i', large := c == 'X');
    var base := if c == 'd' || c == 'i' || c == 'u' then 10 else if c == 'o' then 8 else 16;
    OneStep(fmt, k, args, p);
    var piece := Convert(fmt, p);
    if c == 'p' {
      var g := if p.width == -1 then p.flags.(zeropad := true) else p.flags;
      NumberShown(u, 16, if p.width == -1 then 8 else p.width, p.precision, g);
    } else {
      NumberFetched(u, c, p);
      NumberShown(Fetched(u, p.qualifier, f.sign), base, p.width, p.precision, f);
      SameSign(Fetched(u, p.qualifier, f.sign), p.flags.(sign := f.sign), f);
    }
    text := piece.text;
  }

  lemma SameSign(u: Word, f: Flags, g: Flags)
    requires g.sign == f.sign && g.plus == f.plus && g.space == f.space
    ensures SignText(u, f) == SignText(u, g) && Magnitude(u, f) == Magnitude(u, g)
  {
  }

  lemma OneStep(fmt: string, k: nat, args: seq<Arg>, p: Spec)
    requires NoNul(fmt) && k < |fmt| && fmt[k] == '%' && p == ReadSpec(fmt, k + 1, args)
    ensures k < p.next <= |fmt| && p.next <= Convert(fmt, p).next <= |fmt|
    ensures Render(fmt, k, args) == Convert(fmt, p).text + Render(fmt, Convert(fmt, p).next, Convert(fmt, p).args)
  {
    ReadForward(fmt, k + 1, args);
    hide ReadSpec, NumberText, CharText, StringText;
  }

  /** Every other directive: characters, strings, the percent sign, and what is no conversion at all. */
  lemma OthersPrinted(fmt: string, k: nat, args: seq<Arg>, p: Spec) returns (text: string)
    requires NoNul(fmt) && k < |fmt| && fmt[k] == '%' && p == ReadSpec(fmt, k + 1, args) && k < p.next <= |fmt|
    ensures p.next < |fmt| && fmt[p.next] == 'c' ==>
              Render(fmt, k, args) == text + Render(fmt, p.next + 1, Rest(p.args))
              && ShowsChar(text, (WordOf(p.args) % 256) as char, p.width, p.flags.left)
    ensures p.next < |fmt| && fmt[p.next] == 's' ==>
              Render(fmt, k, args) == text + Render(fmt, p.next + 1, Rest(p.args))
              && ShowsString(text, if p.args != [] && p.args[0].Text? then p.args[0].text else "(NULL)",
                             p.width, p.precision, p.flags.left)
    ensures p.next < |fmt| && fmt[p.next] == '%' ==> Render(fmt, k, args) == "%" + Render(fmt, p.next + 1, p.args)
    ensures p.next < |fmt| && !IsNumeric(fmt[p.next]) && fmt[p.next] !in "cs%" ==>
              Render(fmt, k, args) == ['%', fmt[p.next]] + Render(fmt, p.next + 1, p.args)
    ensures p.next == |fmt| ==> Render(fmt, k, args) == "%"
  {
    hide ShowsChar, ShowsString, NumberText, ReadSpec, Render, CharText, StringText;
    OneStep(fmt, k, args, p);
    text := Convert(fmt, p).text;
    if p.next < |fmt| && fmt[p.next] == 'c' {
      CharShown((WordOf(p.args) % 256) as char, p.width, p.flags.left);
    } else if p.next < |fmt| && fmt[p.next] == 's' {
      StringShown(TextOf(p.args), p.width, p.precision, p.flags.left);
    } else if p.next == |fmt| {
      NothingLeft(fmt, p.args);
      assert "%" + "" == "%";
    }
  }

  lemma NothingLeft(fmt: string, args: seq<Arg>)
    requires NoNul(fmt)
    ensures Render(fmt, |fmt|, args) == ""
  {
  }

  /** Characters outside directives stand for themselves. */
  lemma {:induction false} LiteralText(before: string, tail: string, args: seq<Arg>)
    requires NoNul(before + tail) && '%' !in before
    ensures Render(before + tail, 0, args) == before + Render(before + tail, |before|, args)
  {
    LiteralFrom(before, tail, args, 0);
    assert before[0..] == before;
  }

  lemma {:induction false} LiteralFrom(before: string, tail: string, args: seq<Arg>, k: nat)
    requires NoNul(before + tail) && '%' !in before && k <= |before|
    ensures Render(before + tail, k, args) == before[k..] + Render(before + tail, |before|, args)
    decreases |before| - k
  {
    var fmt := before + tail;
    hide Convert, ReadSpec;
    if k < |before| {
      LiteralFrom(before, tail, args, k + 1);
      assert fmt[k] == before[k] && before[k] in before;
      assert Render(fmt, k, args) == [before[k]] + Render(fmt, k + 1, args);
      hide Render, NoNul;
      Regroup(before, k, Render(fmt, |before|, args));
    } else {
      assert before[k..] == "" && "" + Render(fmt, k, args) == Render(fmt, k, args);
    }
  }

  lemma Regroup(before: string, k: nat, rest: string)
    requires k < |before|
    ensures [before[k]] + (before[k + 1..] + rest) == before[k..] + rest
  {
  }

  // ---------------------------------------------------------------- how a directive is read

  /** A directive as it is written, up to its conversion character; width 0 and a negative precision stand for none. */
  function Directive(flags: string, width: nat, precision: int, qualifier: string): string {
    flags + Numerals(width) + Behind(precision) + qualifier
  }

  function Numerals(width: nat): string {
    if width == 0 then "" else Digits(width, 10, false)
  }

  function Behind(precision: int): string {
    if precision < 0 then "" else "." + Digits(precision, 10, false)
  }

  predicate Flagged(flags: string) {
    forall i :: 0 <= i < |flags| ==> IsFlag(flags[i])
  }

  /** A character that may end a directive. */
  predicate Ends(c: char, qualifier: string) {
    !IsFlag(c) && !IsDigit(c) && c != '.' && c != '*' && (qualifier == "" ==> c != 'h' && c != 'l')
  }

  function Seen(f: Flags, s: string): Flags {
    Flags(f.zeropad || '0' in s, f.sign, f.plus || '+' in s, f.space || ' ' in s, f.left || '-' in s, f.large)
  }

  lemma SeenMore(f: Flags, c: char, rest: string)
    requires IsFlag(c)
    ensures Seen(WithFlag(f, c), rest) == Seen(f, [c] + rest)
  {
    assert forall x :: x in [c] + rest <==> x == c || x in rest;
  }

  lemma {:induction false} FlagsRead(fmt: string, k: nat, j: nat, f: Flags)
    requires k <= j <= |fmt| && Flagged(fmt[k..j]) && !IsFlag(At(fmt, j))
    ensures FlagsEnd(fmt, k) == j && FlagsFrom(fmt, k, f) == Seen(f, fmt[k..j])
    decreases j - k
  {
    if k < j {
      var c, rest := fmt[k], fmt[k + 1..j];
      assert fmt[k..j] == [c] + rest;
      assert IsFlag(fmt[k..j][0]);
      assert forall i :: 0 <= i < |rest| ==> rest[i] == fmt[k..j][i + 1];
      SeenMore(f, c, rest);
      hide IsFlag, WithFlag, Seen;
      FlagsRead(fmt, k + 1, j, WithFlag(f, c));
    } else {
      assert fmt[k..j] == "";
    }
  }

  lemma NumberRead(fmt: string, k: nat, n: nat)
    requires var j := k + |Digits(n, 10, false)|; j <= |fmt| && fmt[k..j] == Digits(n, 10, false) && !IsDigit(At(fmt, j))
    ensures k < |fmt| && IsDigit(At(fmt, k)) && (n > 0 ==> At(fmt, k) != '0')
    ensures DigitsEnd(fmt, k) == k + |Digits(n, 10, false)| && Atoi(fmt, k, 0) == n
  {
    var digits := Digits(n, 10, false);
    var j := k + |digits|;
    DecimalDigits(n, false);
    DigitsDenote(n, 10, false);
    if n > 0 { DigitsLead(n, 10, false); }
    hide Digits, Atoi, DigitsEnd;
    assert forall x :: k <= x < j ==> fmt[x] == fmt[k..j][x - k];
    AtoiReads(fmt, k, j, 0);
    AtoiValue(digits);
  }

  /** Reading a directive gives back what was written, whatever stands before and behind it. */
  lemma DirectiveReads(before: string, flags: string, width: nat, precision: int, qualifier: string, tail: string, args: seq<Arg>)
    requires Flagged(flags) && qualifier in ["", "h", "l"] && tail != "" && Ends(tail[0], qualifier)
    ensures var d := Directive(flags, width, precision, qualifier);
            ReadSpec(before + "%" + d + tail, |before| + 1, args)
            == Spec(Seen(NO_FLAGS, flags), if width == 0 then -1 else width, if precision < 0 then -1 else precision,
                    if qualifier == "" then '\0' else qualifier[0], |before| + 1 + |d|, args)
  {
    var d := Directive(flags, width, precision, qualifier);
    var fmt := before + "%" + d + tail;
    var k := |before| + 1;
    var k1 := k + |flags|;
    var k2 := k1 + |Numerals(width)|;
    var k3 := k2 + |Behind(precision)|;
    var k4 := k3 + |qualifier|;
    Parts(before + "%", flags, Numerals(width), Behind(precision), qualifier, tail);
    hide Numerals, Behind, Flagged, Seen, Ends, ReadWidth, ReadPrecision, ReadQualifier, FlagsEnd, FlagsFrom, At;
    PartsRead(fmt, k, k1, k2, k3, k4, flags, width, precision, qualifier, args);
  }

  lemma Parts(a: string, b: string, c: string, d: string, e: string, f: string)
    requires f != ""
    ensures var s := a + (b + c + d + e) + f;
            var i, j, k, l := |a| + |b|, |a| + |b| + |c|, |a| + |b| + |c| + |d|, |a| + |b| + |c| + |d| + |e|;
            l < |s| && s[|a|..i] == b && s[i..j] == c && s[j..k] == d && s[k..l] == e && s[l] == f[0]
  {
  }

  lemma PartsRead(fmt: string, k: nat, k1: nat, k2: nat, k3: nat, k4: nat, flags: string, width: nat, precision: int,
                  qualifier: string, args: seq<Arg>)
    requires k <= k1 <= k2 <= k3 <= k4 < |fmt| && fmt[k..k1] == flags && fmt[k1..k2] == Numerals(width)
    requires fmt[k2..k3] == Behind(precision) && fmt[k3..k4] == qualifier
    requires Flagged(flags) && qualifier in ["", "h", "l"] && Ends(fmt[k4], qualifier)
    ensures ReadSpec(fmt, k, args)
            == Spec(Seen(NO_FLAGS, flags), if width == 0 then -1 else width, if precision < 0 then -1 else precision,
                    if qualifier == "" then '\0' else qualifier[0], k4, args)
  {
    hide Numerals, Behind, Flagged, Seen, Ends, ReadWidth, ReadPrecision, ReadQualifier, FlagsEnd, FlagsFrom, At, IsFlag, IsDigit;
    var f := Seen(NO_FLAGS, flags);
    AfterWidth(fmt, k2, k3, k4, precision, qualifier, fmt[k4]);
    WidthRead(fmt, k1, k2, width, args, f);
    FlagsRead(fmt, k, k1, NO_FLAGS);
    var p := Spec(f, if width == 0 then -1 else width, -1, '\0', k2, args);
    PrecisionRead(fmt, k2, k3, precision, p);
    QualifierRead(fmt, k3, k4, qualifier, p.(precision := if precision < 0 then -1 else precision, next := k3));
  }

  /** What follows the width, and what follows the precision, is no digit; nor does the width begin with a flag. */
  lemma AfterWidth(fmt: string, k2: nat, k3: nat, k4: nat, precision: int, qualifier: string, c: char)
    requires k2 <= k3 <= k4 < |fmt| && fmt[k2..k3] == Behind(precision) && fmt[k3..k4] == qualifier && fmt[k4] == c
    requires qualifier in ["", "h", "l"] && Ends(c, qualifier)
    ensures !IsDigit(At(fmt, k3)) && At(fmt, k3) != '.' && !IsFlag(At(fmt, k3)) && At(fmt, k3) != '*'
    ensures !IsDigit(At(fmt, k2)) && !IsFlag(At(fmt, k2)) && At(fmt, k2) != '*' && (precision < 0 <==> At(fmt, k2) != '.')
  {
    hide Digits;
    if k3 < k4 {
      assert fmt[k3] == fmt[k3..k4][0];
    }
    if k2 < k3 {
      assert fmt[k2] == fmt[k2..k3][0];
    }
  }

  lemma WidthRead(fmt: string, k: nat, j: nat, width: nat, args: seq<Arg>, f: Flags)
    requires k <= j < |fmt| && fmt[k..j] == Numerals(width)
    requires !IsDigit(At(fmt, j)) && !IsFlag(At(fmt, j)) && At(fmt, j) != '*'
    ensures !IsFlag(At(fmt, k)) && ReadWidth(fmt, k, f, args) == Spec(f, if width == 0 then -1 else width, -1, '\0', j, args)
  {
    if width > 0 {
      NumberRead(fmt, k, width);
      hide Digits, Atoi, DigitsEnd;
    }
  }

  lemma PrecisionRead(fmt: string, k: nat, j: nat, precision: int, p: Spec)
    requires k <= j < |fmt| && fmt[k..j] == Behind(precision) && p.next == k && p.precision == -1
    requires !IsDigit(At(fmt, j)) && (precision < 0 <==> At(fmt, k) != '.')
    ensures ReadPrecision(fmt, p) == p.(precision := if precision < 0 then -1 else precision, next := j)
  {
    if precision >= 0 {
      assert fmt[k + 1..j] == fmt[k..j][1..];
      NumberRead(fmt, k + 1, precision);
      hide Digits, Atoi, DigitsEnd;
    }
  }

  lemma QualifierRead(fmt: string, k: nat, j: nat, qualifier: string, p: Spec)
    requires k <= j < |fmt| && fmt[k..j] == qualifier && qualifier in ["", "h", "l"] && Ends(fmt[j], qualifier)
    requires p.next == k && p.qualifier == '\0'
    ensures ReadQualifier(fmt, p) == p.(qualifier := if qualifier == "" then '\0' else qualifier[0], next := j)
  {
    if k < j {
      assert fmt[k] == fmt[k..j][0];
    }
  }

  /** A width or a precision given as '*' is the next argument; a negative width aligns left. */
  lemma StarReads(args: seq<Arg>, u: Word, v: Word)
    requires |args| >= 2 && args[0] == Value(u) && args[1] == Value(v)
    ensures var p := ReadSpec("%*.*d", 1, args);
            && p.next == 4 && p.args == args[2..] && p.qualifier == '\0'
            && (if u < WORDS / 2 then p.width == u && !p.flags.left else p.width == WORDS - u && p.flags.left)
            && p.precision == if v < WORDS / 2 then v else 0
  {
    var fmt := "%*.*d";
    assert FlagsEnd(fmt, 1) == 1 && FlagsFrom(fmt, 1, NO_FLAGS) == NO_FLAGS;
    assert Rest(args) == args[1..] && Rest(args[1..]) == args[2..];
  }

  /** A point without digits asks for precision 0. */
  lemma PointReads(args: seq<Arg>)
    ensures ReadSpec("%.d", 1, args) == Spec(NO_FLAGS, -1, 0, '\0', 2, args)
  {
    assert FlagsEnd("%.d", 1) == 1 && FlagsFrom("%.d", 1, NO_FLAGS) == NO_FLAGS;
  }

  // ---------------------------------------------------------------- directives as users write them

  /** The directive that is written, as it is read at the start of a format. */
  function Written(flags: string, width: nat, precision: int, qualifier: string, args: seq<Arg>): Spec {
    Spec(Seen(NO_FLAGS, flags), if width == 0 then -1 else width, if precision < 0 then -1 else precision,
         if qualifier == "" then '\0' else qualifier[0], |Directive(flags, width, precision, qualifier)| + 1, args)
  }

  /** A numeric directive prints its own argument, as its flags, sizes and qualifier ask, and leaves the others to what follows. */
  lemma DirectivePrints(flags: string, width: nat, precision: int, qualifier: string, c: char, tail: string, u: Word, more: seq<Arg>)
    returns (text: string)
    requires Flagged(flags) && qualifier in ["", "h", "l"] && IsNumeric(c) && NoNul(tail)
    ensures var p := Written(flags, width, precision, qualifier, [Value(u)] + more);
            var fmt := "%" + Directive(flags, width, precision, qualifier) + [c] + tail;
            var n := NumberOf(u, c, p.qualifier);
            && NoNul(fmt) && p.next < |fmt| && fmt[p.next + 1..] == tail
            && Render(fmt, 0, [Value(u)] + more) == text + Render(fmt, p.next + 1, more)
            && Shows(text, SignOf(n, '+' in flags, ' ' in flags), n.value, RadixOf(c), c == 'X', FieldOf(c, p))
  {
    var fmt, args := "%" + Directive(flags, width, precision, qualifier) + [c] + tail, [Value(u)] + more;
    DirectiveWritten(flags, width, precision, qualifier, c, tail, args);
    var p := Written(flags, width, precision, qualifier, args);
    assert !p.flags.sign && !p.flags.large && p.flags.plus == ('+' in flags) && p.flags.space == (' ' in flags);
    assert Rest(args) == more && WordOf(args) == u && p.args == args && p.next > 0;
    hide Directive, ReadSpec, Shows, Render, NumberOf, SignOf, IsNumeric, Flagged, Written, Seen, WordOf, Rest, NoNul, FieldOf;
    text := NumberPrinted(fmt, 0, args, p);
  }

  lemma DirectiveWritten(flags: string, width: nat, precision: int, qualifier: string, c: char, tail: string, args: seq<Arg>)
    requires Flagged(flags) && qualifier in ["", "h", "l"] && IsNumeric(c) && NoNul(tail)
    ensures var d := Directive(flags, width, precision, qualifier);
            var fmt := "%" + d + [c] + tail;
            && NoNul(fmt) && |d| + 1 < |fmt| && fmt[0] == '%' && fmt[|d| + 1] == c && fmt[|d| + 2..] == tail
            && ReadSpec(fmt, 1, args) == Written(flags, width, precision, qualifier, args)
  {
    hide Directive, ReadSpec, IsNumeric, Flagged, Ends, Seen, NoNul;
    var d := Directive(flags, width, precision, qualifier);
    NumericEnds(c, qualifier);
    DirectiveNoNul(flags, width, precision, qualifier);
    DirectiveReads("", flags, width, precision, qualifier, [c] + tail, args);
    Joined(d, c, tail);
  }

  lemma Joined(d: string, c: char, tail: string)
    ensures var fmt := "%" + d + [c] + tail;
            && "" + "%" + d + ([c] + tail) == fmt
            && |d| + 1 < |fmt| && fmt[0] == '%' && fmt[|d| + 1] == c && fmt[|d| + 2..] == tail
    ensures NoNul(d) && NoNul(tail) && c != '\0' ==> NoNul("%" + d + [c] + tail)
  {
    assert "" + "%" == "%";
  }

  lemma NumericEnds(c: char, qualifier: string)
    requires IsNumeric(c)
    ensures Ends(c, qualifier) && c != '\0'
  {
  }

  lemma DirectiveNoNul(flags: string, width: nat, precision: int, qualifier: string)
    requires Flagged(flags) && qualifier in ["", "h", "l"]
    ensures NoNul(Directive(flags, width, precision, qualifier))
  {
    DecimalDigits(width, false);
    hide Digits;
    if precision >= 0 {
      DecimalDigits(precision, false);
    }
  }

  /** A plain directive prints just the digits, behind a minus sign for %d of words from 2^31 on. */
  lemma PlainNumbers(n: Word, c: char, tail: string, more: seq<Arg>)
    requires c in ['d', 'i', 'u', 'x', 'X'] && NoNul(tail)
    ensures NoNul("%" + [c] + tail)
    ensures var negative := (c == 'd' || c == 'i') && n >= WORDS / 2;
            Render("%" + [c] + tail, 0, [Value(n)] + more)
            == (if negative then "-" else "") + Digits(if negative then WORDS - n else n, RadixOf(c), c == 'X')
               + Render("%" + [c] + tail, 2, more)
  {
    var fmt, args := "%" + [c] + tail, [Value(n)] + more;
    DirectiveWritten("", 0, -1, "", c, tail, args);
    PlainWritten(args);
    assert "%" + "" + [c] + tail == fmt;
    var p := Written("", 0, -1, "", args);
    hide Written, Directive, Render, ReadSpec, NumberText, Convert, Digits, NoNul;
    OneStep(fmt, 0, args, p);
    PlainConvert(fmt, n, c, more);
    PlainText(n, RadixOf(c), NO_FLAGS.(sign := c == 'd' || c == 'i', large := c == 'X'));
  }

  lemma PlainConvert(fmt: string, n: Word, c: char, more: seq<Arg>)
    requires c in ['d', 'i', 'u', 'x', 'X'] && |fmt| > 1 && fmt[1] == c
    ensures Convert(fmt, Spec(NO_FLAGS, -1, -1, '\0', 1, [Value(n)] + more))
            == Piece(NumberText(n, RadixOf(c), -1, -1, NO_FLAGS.(sign := c == 'd' || c == 'i', large := c == 'X')), 2, more)
  {
    hide NumberText;
    assert Rest([Value(n)] + more) == more;
  }

  lemma PlainWritten(args: seq<Arg>)
    ensures Written("", 0, -1, "", args) == Spec(NO_FLAGS, -1, -1, '\0', 1, args) && Directive("", 0, -1, "") == ""
  {
  }

  lemma PlainText(u: Word, radix: nat, f: Flags)
    requires (radix == 10 || radix == 16) && !f.plus && !f.space && !f.left && !f.zeropad
    ensures NumberText(u, radix, -1, -1, f)
            == (if f.sign && u >= WORDS / 2 then "-" else "")
               + Digits(if f.sign && u >= WORDS / 2 then WORDS - u else u, radix, f.large)
  {
    hide Digits;
    var digits := Digits(Magnitude(u, f), radix, f.large);
    assert Body(digits, -1) == digits;
    assert Repeat(' ', -1 - |digits| - |SignText(u, f)|) + SignText(u, f) == SignText(u, f);
    assert SignText(u, f) + digits + "" == SignText(u, f) + digits;
  }

  /** Two directives print two arguments, in their order. */
  lemma TwoNumbers(a: Word, b: Word)
    ensures Render("%u %x", 0, [Value(a), Value(b)]) == Digits(a, 10, false) + " " + Digits(b, 16, false)
  {
    hide Digits, Render;
    assert "%" + ['u'] + " %x" == "%u %x" && [Value(a)] + [Value(b)] == [Value(a), Value(b)];
    PlainNumbers(a, 'u', " %x", [Value(b)]);
    SecondNumber(b);
    assert "" + Digits(a, 10, false) == Digits(a, 10, false);
    assert Digits(a, 10, false) + (" " + Digits(b, 16, false)) == Digits(a, 10, false) + " " + Digits(b, 16, false);
  }

  lemma SecondNumber(b: Word)
    ensures Render("%u %x", 2, [Value(b)]) == " " + Digits(b, 16, false)
  {
    hide Digits, Convert;
    var fmt, args := "%u %x", [Value(b)];
    assert Render(fmt, 2, args) == [' '] + Render(fmt, 3, args);
    hide Render;
    DirectiveReads("%u ", "", 0, -1, "", "x", args);
    PlainWritten(args);
    hide ReadSpec, Directive;
    assert "%u " + "%" + "" + "x" == fmt;
    LastNumber(fmt, b);
  }

  lemma LastNumber(fmt: string, b: Word)
    requires fmt == "%u %x" && ReadSpec(fmt, 4, [Value(b)]) == Spec(NO_FLAGS, -1, -1, '\0', 4, [Value(b)])
    ensures Render(fmt, 3, [Value(b)]) == Digits(b, 16, false)
  {
    hide Digits, Render, ReadSpec, NumberText;
    var p := ReadSpec(fmt, 4, [Value(b)]);
    OneStep(fmt, 3, [Value(b)], p);
    assert Convert(fmt, p) == Piece(NumberText(b, 16, -1, -1, NO_FLAGS), 5, []);
    PlainText(b, 16, NO_FLAGS);
    NothingLeft(fmt, []);
    assert "" + Digits(b, 16, false) + "" == Digits(b, 16, false);
  }
}
