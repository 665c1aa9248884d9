/**
 The text wire format of the display server: `snprintf` on one side, `sscanf` on the other.
 Only the conversions the protocol uses are modelled: `%d`, `%s` and ordinary characters.
 A message is the text before the terminating NUL of its buffer.
 */
module Wire {
  import opened MachineWords
  import opened Wrappers

  datatype Directive = Decimal | Word | Literal(c: char)
  datatype Value = Num(n: u32) | Str(s: string)

  predicate IsDigit(c: char) {
    '0' <= c <= '9'
  }

  predicate IsSpace(c: char) {
    c == ' ' || '\t' <= c <= '\r'
  }

  // ----- printing -----

  function Digits(n: nat): string {
    if n < 10 then ['0' + n as char] else Digits(n / 10) + ['0' + (n % 10) as char]
  }

  function PrintDecimal(u: u32): string {
    var v := ToSigned(u);
    if v < 0 then ['-'] + Digits(-v) else Digits(v)
  }

  /** The arguments a format consumes, in order, with the right types. */
  predicate Matches(fmt: seq<Directive>, args: seq<Value>) {
    if fmt == [] then args == []
    else match fmt[0]
      case Literal(_) => Matches(fmt[1..], args)
      case Decimal => args != [] && args[0].Num? && Matches(fmt[1..], args[1..])
      case Word => args != [] && args[0].Str? && Matches(fmt[1..], args[1..])
  }

  function Printf(fmt: seq<Directive>, args: seq<Value>): string
    requires Matches(fmt, args)
  {
    if fmt == [] then []
    else match fmt[0]
      case Literal(c) => [c] + Printf(fmt[1..], args)
      case Decimal => PrintDecimal(args[0].n) + Printf(fmt[1..], args[1..])
      case Word => args[0].s + Printf(fmt[1..], args[1..])
  }

  /** `snprintf` keeps at most `size - 1` characters. */
  function Snprintf(size: nat, text: string): string
    requires 0 < size
  {
    if |text| < size then text else text[..size - 1]
  }

  // ----- scanning -----

  function SkipSpace(s: string): string {
    if s != [] && IsSpace(s[0]) then SkipSpace(s[1..]) else s
  }

  /** Length of the longest prefix of digits. */
  function DigitRun(s: string): (k: nat)
    ensures k <= |s|
  {
    if s != [] && IsDigit(s[0]) then 1 + DigitRun(s[1..]) else 0
  }

  /** Length of the longest prefix without white space. */
  function WordRun(s: string): (k: nat)
    ensures k <= |s|
    ensures forall j :: 0 <= j < k ==> !IsSpace(s[j])
  {
    if s != [] && !IsSpace(s[0]) then 1 + WordRun(s[1..]) else 0
  }

  function DigitValue(c: char): nat
    requires IsDigit(c)
  {
    c as int - '0' as int
  }

  function ValueOf(digits: string): nat
    requires forall j :: 0 <= j < |digits| ==> IsDigit(digits[j])
  {
    if digits == [] then 0
    else ValueOf(digits[..|digits| - 1]) * 10 + DigitValue(digits[|digits| - 1])
  }

  lemma DigitRunIsDigits(s: string)
    ensures forall j :: 0 <= j < DigitRun(s) ==> IsDigit(s[j])
  {
    if s != [] && IsDigit(s[0]) {
      DigitRunIsDigits(s[1..]);
    }
  }

  function ScanDigits(s: string): (r: Option<(nat, string)>) {
    DigitRunIsDigits(s);
    var k := DigitRun(s);
    if k == 0 then None else Some((ValueOf(s[..k]), s[k..]))
  }

  /** `%d`: optional white space, an optional sign, at least one digit. */
  function ScanDecimal(s: string): Option<(int, string)> {
    ScanSigned(SkipSpace(s))
  }

  function ScanSigned(t: string): Option<(int, string)> {
    if t != [] && t[0] == '-' then
      match ScanDigits(t[1..])
      case None => None
      case Some(p) => Some((-(p.0 as int), p.1))
    else
      match ScanDigits(if t != [] && t[0] == '+' then t[1..] else t)
      case None => None
      case Some(p) => Some((p.0 as int, p.1))
  }

  /** `%s`: optional white space, then at least one other character. */
  function ScanWord(s: string): Option<(string, string)> {
    var t := SkipSpace(s);
    var k := WordRun(t);
    if k == 0 then None else Some((t[..k], t[k..]))
  }

  /** The values `sscanf` stores, in order; it stops at the first directive that does not match. */
  function Scanf(fmt: seq<Directive>, input: string): seq<Value> {
    if fmt == [] then []
    else match fmt[0]
      case Literal(c) =>
        if input != [] && input[0] == c then Scanf(fmt[1..], input[1..]) else []
      case Decimal =>
        (match ScanDecimal(input)
         case None => []
         case Some((v, rest)) => [Num(Wrap(v))] + Scanf(fmt[1..], rest))
      case Word =>
        (match ScanWord(input)
         case None => []
         case Some((w, rest)) => [Str(w)] + Scanf(fmt[1..], rest))
  }

  // ----- printing then scanning -----

  /** Each number is followed by a separator no digit can be mistaken for; a word comes last. */
  predicate Unambiguous(fmt: seq<Directive>) {
    fmt != [] ==>
    (match fmt[0]
     case Literal(_) => true
     case Decimal => |fmt| == 1 || (fmt[1].Literal? && !IsDigit(fmt[1].c))
     case Word => |fmt| == 1) && Unambiguous(fmt[1..])
  }

  /** A name `%s` gives back as it was printed. */
  predicate CleanName(s: string) {
    s != [] && forall j :: 0 <= j < |s| ==> !IsSpace(s[j])
  }

  predicate CleanArgs(args: seq<Value>) {
    forall v :: v in args && v.Str? ==> CleanName(v.s)
  }

  /** What may follow a printed message without being absorbed by its last directive. */
  predicate Stops(fmt: seq<Directive>, tail: string) {
    tail == [] || fmt == [] ||
    match fmt[|fmt| - 1]
    case Literal(_) => true
    case Decimal => !IsDigit(tail[0])
    case Word => IsSpace(tail[0])
  }

  lemma {:induction false} DigitsRoundTrip(n: nat)
    ensures Digits(n) != []
    ensures forall j :: 0 <= j < |Digits(n)| ==> IsDigit(Digits(n)[j])
    ensures ValueOf(Digits(n)) == n
    decreases n
  {
    if n >= 10 {
      DigitsRoundTrip(n / 10);
      var d := Digits(n);
      assert d[..|d| - 1] == Digits(n / 10);
    }
  }

  lemma {:induction false} DigitRunOfConcat(d: string, tail: string)
    requires forall j :: 0 <= j < |d| ==> IsDigit(d[j])
    requires tail == [] || !IsDigit(tail[0])
    ensures DigitRun(d + tail) == |d|
  {
    if d == [] {
      assert d + tail == tail;
    } else {
      assert (d + tail)[1..] == d[1..] + tail;
      DigitRunOfConcat(d[1..], tail);
    }
  }

  lemma {:induction false} WordRunOfConcat(w: string, tail: string)
    requires forall j :: 0 <= j < |w| ==> !IsSpace(w[j])
    requires tail == [] || IsSpace(tail[0])
    ensures WordRun(w + tail) == |w|
  {
    if w == [] {
      assert w + tail == tail;
    } else {
      assert (w + tail)[1..] == w[1..] + tail;
      WordRunOfConcat(w[1..], tail);
    }
  }

  predicate AllDigits(d: string) {
    d != [] && forall j :: 0 <= j < |d| ==> IsDigit(d[j])
  }

  lemma ScanDigitsOfConcat(d: string, tail: string)
    requires AllDigits(d)
    requires tail == [] || !IsDigit(tail[0])
    ensures ScanDigits(d + tail) == Some((ValueOf(d), tail))
  {
    DigitRunOfConcat(d, tail);
    assert (d + tail)[..|d|] == d && (d + tail)[|d|..] == tail;
  }

  lemma ScanUnsigned(d: string, tail: string)
    requires AllDigits(d)
    requires tail == [] || !IsDigit(tail[0])
    ensures ScanDecimal(d + tail) == Some((ValueOf(d) as int, tail))
  {
    ScanDigitsOfConcat(d, tail);
    assert (d + tail)[0] == d[0];
    assert SkipSpace(d + tail) == d + tail;
  }

  lemma ScanNegative(d: string, tail: string)
    requires AllDigits(d)
    requires tail == [] || !IsDigit(tail[0])
    ensures ScanDecimal(['-'] + d + tail) == Some((-(ValueOf(d) as int), tail))
  {
    var text := ['-'] + d + tail;
    ScanDigitsOfConcat(d, tail);
    assert text[0] == '-' && text[1..] == d + tail;
    assert SkipSpace(text) == text;
  }

  /** `%d` recovers every 32-bit value, also the upper half that prints as a negative number. */
  lemma DecimalRoundTrip(u: u32, tail: string)
    requires tail == [] || !IsDigit(tail[0])
    ensures ScanDecimal(PrintDecimal(u) + tail) == Some((ToSigned(u), tail))
  {
    var v := ToSigned(u);
    if v < 0 {
      DigitsRoundTrip(-v);
      ScanNegative(Digits(-v), tail);
    } else {
      DigitsRoundTrip(v);
      ScanUnsigned(Digits(v), tail);
    }
  }

  lemma WordRoundTrip(w: string, tail: string)
    requires CleanName(w)
    requires tail == [] || IsSpace(tail[0])
    ensures ScanWord(w + tail) == Some((w, tail))
  {
    WordRunOfConcat(w, tail);
    assert (w + tail)[..|w|] == w && (w + tail)[|w|..] == tail;
  }

  lemma ScanDecimalStep(fmt: seq<Directive>, u: u32, rest: string)
    requires fmt != [] && fmt[0] == Decimal
    requires rest == [] || !IsDigit(rest[0])
    ensures Scanf(fmt, PrintDecimal(u) + rest) == [Num(u)] + Scanf(fmt[1..], rest)
  {
    DecimalRoundTrip(u, rest);
    WrapToSigned(u);
  }

  /** What follows a printed number is the end of the text or a separator. */
  lemma SeparatorFollows(fmt: seq<Directive>, args: seq<Value>, tail: string)
    requires fmt != [] && fmt[0] == Decimal && Unambiguous(fmt)
    requires Matches(fmt[1..], args) && Stops(fmt, tail)
    ensures var rest := Printf(fmt[1..], args) + tail;
            rest == [] || !IsDigit(rest[0])
  {
    if |fmt| > 1 {
      assert fmt[1..][0] == fmt[1];
    }
  }

  lemma ScanWordStep(fmt: seq<Directive>, w: string, rest: string)
    requires fmt != [] && fmt[0] == Word && CleanName(w)
    requires rest == [] || IsSpace(rest[0])
    ensures Scanf(fmt, w + rest) == [Str(w)] + Scanf(fmt[1..], rest)
  {
    WordRoundTrip(w, rest);
  }

  /** Scanning printed text recovers every argument and goes on with what follows it. */
  lemma {:induction false} ScanfThroughPrintf(fmt: seq<Directive>, args: seq<Value>,
                                              more: seq<Directive>, tail: string)
    requires Matches(fmt, args) && Unambiguous(fmt) && CleanArgs(args) && Stops(fmt, tail)
    ensures Scanf(fmt + more, Printf(fmt, args) + tail) == args + Scanf(more, tail)
    decreases |fmt|
  {
    if fmt == [] {
      assert fmt + more == more && Printf(fmt, args) + tail == tail;
    } else {
      assert (fmt + more)[1..] == fmt[1..] + more;
      if fmt[0].Literal? {
        ScanLiteralCase(fmt, args, more, tail);
        ScanfThroughPrintf(fmt[1..], args, more, tail);
      } else {
        assert args == [args[0]] + args[1..];
        assert CleanArgs(args[1..]);
        ScanfThroughPrintf(fmt[1..], args[1..], more, tail);
        ScanValueCase(fmt, args, more, tail);
      }
    }
  }

  lemma ScanLiteralStep(fmt: seq<Directive>, rest: string)
    requires fmt != [] && fmt[0].Literal?
    ensures Scanf(fmt, [fmt[0].c] + rest) == Scanf(fmt[1..], rest)
  {
    assert ([fmt[0].c] + rest)[1..] == rest;
  }

  lemma ScanLiteralCase(fmt: seq<Directive>, args: seq<Value>, more: seq<Directive>, tail: string)
    requires fmt != [] && fmt[0].Literal? && Matches(fmt, args)
    ensures Scanf(fmt + more, Printf(fmt, args) + tail) == Scanf(fmt[1..] + more, Printf(fmt[1..], args) + tail)
  {
    var rest, whole := Printf(fmt[1..], args) + tail, fmt + more;
    assert Printf(fmt, args) + tail == [fmt[0].c] + rest;
    assert whole[0] == fmt[0] && whole[1..] == fmt[1..] + more;
    ScanLiteralStep(whole, rest);
  }

  /** The first value and what is printed behind it. */
  lemma PrintfStep(fmt: seq<Directive>, args: seq<Value>, tail: string)
    requires fmt != [] && !fmt[0].Literal? && Matches(fmt, args)
    ensures Matches(fmt[1..], args[1..])
    ensures Printf(fmt, args) + tail
         == (if fmt[0] == Decimal then PrintDecimal(args[0].n) else args[0].s) + (Printf(fmt[1..], args[1..]) + tail)
  {
  }

  /** A word is the last directive: what follows it is the tail. */
  lemma LastWordFollows(fmt: seq<Directive>, args: seq<Value>, tail: string)
    requires fmt != [] && fmt[0] == Word && Matches(fmt, args)
    requires Unambiguous(fmt) && CleanArgs(args) && Stops(fmt, tail)
    ensures CleanName(args[0].s) && Printf(fmt[1..], args[1..]) + tail == tail
    ensures tail == [] || IsSpace(tail[0])
  {
    assert args[0] in args && fmt[1..] == [] && args[1..] == [];
  }

  lemma ScanValueCase(fmt: seq<Directive>, args: seq<Value>, more: seq<Directive>, tail: string)
    requires fmt != [] && !fmt[0].Literal? && Matches(fmt, args)
    requires Unambiguous(fmt) && CleanArgs(args) && Stops(fmt, tail)
    ensures Scanf(fmt + more, Printf(fmt, args) + tail)
         == [args[0]] + Scanf(fmt[1..] + more, Printf(fmt[1..], args[1..]) + tail)
  {
    var rest := Printf(fmt[1..], args[1..]) + tail;
    var whole := fmt + more;
    assert whole[1..] == fmt[1..] + more;
    PrintfStep(fmt, args, tail);
    if fmt[0] == Decimal {
      SeparatorFollows(fmt, args[1..], tail);
      ScanDecimalStep(whole, args[0].n, rest);
    } else {
      LastWordFollows(fmt, args, tail);
      ScanWordStep(whole, args[0].s, rest);
    }
  }

  /** Printing with a longer format only appends to what the shorter one prints. */
  lemma Regroup(a: string, b: string, c: string)
    ensures a + (b + c) == (a + b) + c
  {
  }

  lemma {:induction false} PrintfPrefix(fmt: seq<Directive>, more: seq<Directive>,
                                        args: seq<Value>, moreArgs: seq<Value>)
    requires Matches(fmt, args) && Matches(more, moreArgs)
    ensures Matches(fmt + more, args + moreArgs)
    ensures Printf(fmt + more, args + moreArgs) == Printf(fmt, args) + Printf(more, moreArgs)
    decreases |fmt|
  {
    if fmt == [] {
      assert fmt + more == more && args + moreArgs == moreArgs;
    } else {
      assert (fmt + more)[0] == fmt[0] && (fmt + more)[1..] == fmt[1..] + more;
      var left := if fmt[0].Literal? then args else args[1..];
      assert !fmt[0].Literal? ==> (args + moreArgs)[0] == args[0] && (args + moreArgs)[1..] == left + moreArgs;
      PrintfPrefix(fmt[1..], more, left, moreArgs);
      Regroup(
        match fmt[0] case Literal(c) => [c] case Decimal => PrintDecimal(args[0].n) case Word => args[0].s,
        Printf(fmt[1..], left), Printf(more, moreArgs));
    }
  }

  // ----- lengths -----

  lemma {:induction false} DigitsLength(n: nat, k: nat, bound: nat)
    requires n < bound && bound == Pow10(k) && 0 < k
    ensures |Digits(n)| <= k
    decreases k
  {
    if n >= 10 {
      assert Pow10(k) == 10 * Pow10(k - 1);
      DigitsLength(n / 10, k - 1, Pow10(k - 1));
    }
  }

  function Pow10(k: nat): nat {
    if k == 0 then 1 else 10 * Pow10(k - 1)
  }

  lemma DecimalLength(u: u32)
    ensures |PrintDecimal(u)| <= 11
  {
    var v := ToSigned(u);
    var a := if v < 0 then -v else v;
    assert Pow10(10) == 10_000_000_000 by {
      assert Pow10(5) == 100_000;
      assert Pow10(10) == 100_000 * Pow10(5);
    }
    DigitsLength(a, 10, 10_000_000_000);
  }

  /** What is printed into a buffer of `size` bytes leaves room for the NUL, and is the text or its
      beginning. */
  lemma SnprintfCuts(size: nat, text: string)
    requires 0 < size
    ensures Snprintf(size, text) <= text
    ensures |Snprintf(size, text)| == if |text| < size then |text| else size - 1
  {
  }
}
