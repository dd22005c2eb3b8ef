/** The kernel's formatted output (kernel/snprintf.cc): integer and string conversions, and
    the state machine that reads the format. */
module Formatter {
  import opened Common

  const WORD := 0x1_0000_0000

  /** A variable argument: a 32-bit word, or a pointer to a string. */
  datatype Arg = Word(word: nat) | Text(text: Option<string>)

  datatype Flags = Flags(minus: bool, plus: bool, space: bool, num: bool, zero: bool, up: bool, unsigned: bool)

  const NO_FLAGS := Flags(false, false, false, false, false, false, false)

  function Max(a: int, b: int): int {
    if a >= b then a else b
  }

  function Repeat(c: char, n: int): (s: string)
    ensures |s| == Max(n, 0) && forall i | 0 <= i < |s| :: s[i] == c
  {
    seq(Max(n, 0), _ => c)
  }

  // ------------------------------------------------------------------
  // Digits

  function DigitChar(d: nat, up: bool): (c: char)
    requires d < 16
    ensures DigitValue(c) == d
  {
    if d < 10 then '0' + d as char else if up then 'A' + (d - 10) as char else 'a' + (d - 10) as char
  }

  function DigitValue(c: char): nat {
    if '0' <= c <= '9' then (c - '0') as nat
    else if 'A' <= c <= 'F' then (c - 'A') as nat + 10
    else if 'a' <= c <= 'f' then (c - 'a') as nat + 10
    else 0
  }

  /** Digits of `u`, most significant first. */
  function Digits(u: nat, base: nat, up: bool): (s: string)
    requires 2 <= base <= 16
    ensures |s| > 0
  {
    if u < base then [DigitChar(u, up)] else Digits(u / base, base, up) + [DigitChar(u % base, up)]
  }

  /** The number that digits stand for. */
  function Value(s: string, base: nat): nat {
    if s == [] then 0 else Value(s[..|s| - 1], base) * base + DigitValue(s[|s| - 1])
  }

  lemma ValueSnoc(s: string, c: char, base: nat)
    ensures Value(s + [c], base) == Value(s, base) * base + DigitValue(c)
  {
    assert (s + [c])[..|s|] == s;
  }

  lemma DivMod(u: nat, base: nat)
    requires base > 0
    ensures u == u / base * base + u % base
  {
  }

  lemma QuotientFacts(u: nat, base: nat)
    requires base >= 2
    ensures (u < base <==> u / base == 0) && u % base < base && (u < base ==> u % base == u) && (u > 0 ==> u / base < u)
  {
    DivMod(u, base);
    MulLe(1, u / base, base);
    MulLe(2, base, u / base);
  }

  lemma {:induction false} DigitsDecode(u: nat, base: nat, up: bool)
    requires 2 <= base <= 16
    ensures Value(Digits(u, base, up), base) == u
  {
    if u < base {
      ValueSnoc([], DigitChar(u, up), base);
      assert Digits(u, base, up) == [] + [DigitChar(u, up)];
    } else {
      var q, r := Divide(u, base, up);
      DigitsDecode(q, base, up);
      ValueSnoc(Digits(q, base, up), DigitChar(r, up), base);
    }
  }

  /** All but the last digit, and the last one. */
  lemma Divide(u: nat, base: nat, up: bool) returns (q: nat, r: nat)
    requires 2 <= base <= 16 && base <= u
    ensures r < base && q < u && u == q * base + r
    ensures Digits(u, base, up) == Digits(q, base, up) + [DigitChar(r, up)]
  {
    QuotientFacts(u, base);
    DivMod(u, base);
    q, r := u / base, u % base;
  }

  lemma {:induction false} LeadingZeros(n: nat, s: string, base: nat)
    ensures Value(Repeat('0', n) + s, base) == Value(s, base)
  {
    var t := Repeat('0', n) + s;
    if |s| > 0 {
      assert t[..|t| - 1] == Repeat('0', n) + s[..|s| - 1];
      LeadingZeros(n, s[..|s| - 1], base);
    } else if n > 0 {
      assert t[..|t| - 1] == Repeat('0', n - 1) + s;
      LeadingZeros(n - 1, s, base);
    }
  }

  function Pow8(k: nat): nat {
    if k == 0 then 1 else 8 * Pow8(k - 1)
  }

  lemma {:induction false} DigitsBound(u: nat, base: nat, up: bool, k: nat)
    requires 8 <= base <= 16 && k > 0 && u < Pow8(k)
    ensures |Digits(u, base, up)| <= k
  {
    if u >= base {
      Quotient(u, base);
      DigitsBound(u / base, base, up, k - 1);
    }
  }

  lemma Quotient(u: nat, base: nat)
    requires base >= 8
    ensures 8 * (u / base) <= u
  {
    DivMod(u, base);
    MulLe(8, base, u / base);
  }

  lemma WordDigits(u: nat, base: nat, up: bool)
    requires 8 <= base <= 16 && u < WORD
    ensures |Digits(u, base, up)| <= 11
  {
    assert Pow8(3) == 512;
    assert Pow8(7) == 2097152;
    assert Pow8(11) == 8589934592;
    DigitsBound(u, base, up, 11);
  }

  function Reverse(s: string): (r: string)
    ensures |r| == |s|
  {
    if s == [] then [] else [s[|s| - 1]] + Reverse(s[..|s| - 1])
  }

  // ------------------------------------------------------------------
  // What a conversion prints

  function Sign(value: int, flags: Flags): string {
    if flags.unsigned then ""
    else if value < 0 then "-"
    else if flags.plus then "+"
    else if flags.space then " "
    else ""
  }

  function Magnitude(value: int): nat {
    if value < 0 then -value else value
  }

  /** Spaces and zeros put around the digits. */
  function SpacePad(digits: nat, sign: nat, min: int, max: int): nat {
    Max(min - Max(Max(max, 0), digits) - sign, 0)
  }

  function ZeroPad(digits: nat, max: int): nat {
    Max(Max(max, 0) - digits, 0)
  }

  function Body(value: int, base: nat, min: int, max: int, flags: Flags): string
    requires 2 <= base <= 16
  {
    var digits := Digits(Magnitude(value), base, flags.up);
    var z, s := ZeroPad(|digits|, max), SpacePad(|digits|, |Sign(value, flags)|, min, max);
    Repeat('0', if flags.zero then Max(z, s) else z) + digits
  }

  function Padding(value: int, base: nat, min: int, max: int, flags: Flags): nat
    requires 2 <= base <= 16
  {
    if flags.zero then 0
    else SpacePad(|Digits(Magnitude(value), base, flags.up)|, |Sign(value, flags)|, min, max)
  }

  function IntText(value: int, base: nat, min: int, max: int, flags: Flags): string
    requires 2 <= base <= 16
  {
    var text := Sign(value, flags) + Body(value, base, min, max, flags);
    var spaces := Repeat(' ', Padding(value, base, min, max, flags));
    if flags.minus then text + spaces else spaces + text
  }

  /** Whatever the flags, width and precision, the digits printed stand for the number. */
  lemma IntTextDecodes(value: int, base: nat, min: int, max: int, flags: Flags)
    requires 2 <= base <= 16
    ensures Value(Body(value, base, min, max, flags), base) == Magnitude(value)
    ensures |Body(value, base, min, max, flags)| >= Max(max, |Digits(Magnitude(value), base, flags.up)|)
  {
    var digits := Digits(Magnitude(value), base, flags.up);
    var z, s := ZeroPad(|digits|, max), SpacePad(|digits|, |Sign(value, flags)|, min, max);
    LeadingZeros(if flags.zero then Max(z, s) else z, digits, base);
    DigitsDecode(Magnitude(value), base, flags.up);
  }

  /** The length a reader expects: the width, or sign and digits if these need more. */
  function ExpectedLength(value: int, base: nat, min: int, max: int, flags: Flags): int
    requires 2 <= base <= 16
  {
    Max(min, |Sign(value, flags)| + Max(max, |Digits(Magnitude(value), base, flags.up)|))
  }

  /** It is the length printed, unless the zero flag meets a precision above the digit count
      and a width above both. */
  lemma IntTextLength(value: int, base: nat, min: int, max: int, flags: Flags)
    requires 2 <= base <= 16
    ensures |IntText(value, base, min, max, flags)| == ExpectedLength(value, base, min, max, flags)
      <==> !(flags.zero && max > |Digits(Magnitude(value), base, flags.up)| && min > |Sign(value, flags)| + max)
  {
  }

  /** `%08.5d` of 42 prints 00042, three characters short of its width. */
  lemma ZeroFlagMeetsPrecision()
    ensures var f := NO_FLAGS.(zero := true);
      IntText(42, 10, 8, 5, f) == "00042" && ExpectedLength(42, 10, 8, 5, f) == 8
  {
    assert Digits(42, 10, false) == Digits(4, 10, false) + ['2'] == "42";
    assert Repeat('0', 3) == "000";
  }

  /** The string with its padding, cut off after `max` characters. */
  function StrText(value: Option<string>, flags: Flags, min: int, max: int): string {
    var s := if value.None? then "<NULL>" else value.value;
    var pad := Repeat(' ', min - |s|);
    var all := if flags.minus then s + pad else pad + s;
    Cut(all, max)
  }

  /** At most the first `max` characters. */
  function Cut(s: string, max: int): string {
    if max <= 0 then "" else if max < |s| then s[..max] else s
  }

  // ------------------------------------------------------------------
  // Reading the format

  datatype State = Default | InFlags | InMin | AtDot | InMax | AtMod | AtConv

  function Rank(state: State): nat {
    match state
    case Default => 6
    case InFlags => 5
    case InMin => 4
    case AtDot => 3
    case InMax => 2
    case AtMod => 1
    case AtConv => 0
  }

  predicate IsDigit(c: char) {
    '0' <= c <= '9'
  }

  predicate IsFlag(c: char) {
    c == '-' || c == '+' || c == ' ' || c == '#' || c == '0'
  }

  function AddFlag(flags: Flags, c: char): Flags {
    if c == '-' then flags.(minus := true)
    else if c == '+' then flags.(plus := true)
    else if c == ' ' then flags.(space := true)
    else if c == '#' then flags.(num := true)
    else if c == '0' then flags.(zero := true)
    else flags
  }

  /** The next argument as an unsigned word, a signed word, a string. */
  function NextWord(args: seq<Arg>): nat {
    if args != [] && args[0].Word? then args[0].word % WORD else 0
  }

  function NextInt(args: seq<Arg>): int {
    if NextWord(args) >= 0x8000_0000 then NextWord(args) - WORD else NextWord(args)
  }

  function NextText(args: seq<Arg>): Option<string> {
    if args != [] && args[0].Text? then args[0].text else None
  }

  function Rest(args: seq<Arg>): seq<Arg> {
    if args == [] then [] else args[1..]
  }

  predicate IsInt(c: char) {
    c in "diouxX"
  }

  function BaseOf(c: char): nat {
    if c == 'o' then 8 else if c == 'x' || c == 'X' then 16 else 10
  }

  function IntFlags(c: char, flags: Flags): Flags {
    if c == 'd' || c == 'i' then flags
    else if c == 'X' then flags.(unsigned := true, up := true)
    else flags.(unsigned := true)
  }

  /** The value a word stands for in a conversion. */
  function Meant(value: int, flags: Flags): int {
    if flags.unsigned && value < 0 then value + WORD else value
  }

  /** What conversion `c` prints, and the arguments after it. */
  function Convert(c: char, args: seq<Arg>, flags: Flags, min: int, max: int, maxlen: int): (string, seq<Arg>) {
    if IsInt(c) then (IntText(Meant(NextInt(args), IntFlags(c, flags)), BaseOf(c), min, max, IntFlags(c, flags)), Rest(args))
    else if c == 'c' then ([(NextWord(args) % 0x100) as char], Rest(args))
    else if c == 's' then (StrText(NextText(args), flags, min, if max < 0 then maxlen else max), Rest(args))
    else if c == '%' then ("%", args)
    else ("", args)
  }

  /** What a conversion does: its text and the arguments after it. */
  type Conversion = (char, seq<Arg>, Flags, int, int, int) -> (string, seq<Arg>)

  /** What is still to be printed when `format` is left to read in this state. */
  ghost function Pending(conv: Conversion, state: State, format: string, args: seq<Arg>, flags: Flags, min: int, max: int, len: nat, maxlen: int): string
    decreases |format|, Rank(state)
  {
    if format == [] || len >= maxlen then ""
    else
      var ch, next := format[0], format[1..];
      match state
      case Default =>
        if ch == '%' then Pending(conv, InFlags, next, args, flags, min, max, len, maxlen)
        else [ch] + Pending(conv, Default, next, args, flags, min, max, len + 1, maxlen)
      case InFlags =>
        if IsFlag(ch) then Pending(conv, InFlags, next, args, AddFlag(flags, ch), min, max, len, maxlen)
        else Pending(conv, InMin, format, args, flags, min, max, len, maxlen)
      case InMin =>
        if IsDigit(ch) then Pending(conv, InMin, next, args, flags, 10 * min + DigitValue(ch), max, len, maxlen)
        else if ch == '*' then Pending(conv, AtDot, next, Rest(args), flags, NextInt(args), max, len, maxlen)
        else Pending(conv, AtDot, format, args, flags, min, max, len, maxlen)
      case AtDot =>
        if ch == '.' then Pending(conv, InMax, next, args, flags, min, max, len, maxlen)
        else Pending(conv, AtMod, format, args, flags, min, max, len, maxlen)
      case InMax =>
        if IsDigit(ch) then Pending(conv, InMax, next, args, flags, min, 10 * Max(max, 0) + DigitValue(ch), len, maxlen)
        else if ch == '*' then Pending(conv, AtMod, next, Rest(args), flags, min, NextInt(args), len, maxlen)
        else Pending(conv, AtMod, format, args, flags, min, max, len, maxlen)
      case AtMod =>
        if ch == 'h' || ch == 'l' || ch == 'L' then Pending(conv, AtConv, next, args, flags, min, max, len, maxlen)
        else Pending(conv, AtConv, format, args, flags, min, max, len, maxlen)
      case AtConv =>
        var (text, left) := conv(ch, args, flags, min, max, maxlen);
        text + Pending(conv, Default, next, left, NO_FLAGS, 0, -1, len + |text|, maxlen)
  }

  // ------------------------------------------------------------------
  // Formats as lists of items

  datatype Number = Absent | Literally(digits: string) | Star

  datatype Item =
    | Plain(c: char)
    | Directive(flags: string, width: Number, dot: bool, precision: Number, modifier: string, conversion: char)

  predicate AllDigits(s: string) {
    forall i | 0 <= i < |s| :: IsDigit(s[i])
  }

  predicate AllFlags(s: string) {
    forall i | 0 <= i < |s| :: IsFlag(s[i])
  }

  predicate WellFormed(item: Item) {
    match item
    case Plain(c) => c != '%'
    case Directive(flags, width, dot, precision, modifier, conversion) =>
      && AllFlags(flags)
      && (width.Literally? ==> AllDigits(width.digits) && |width.digits| > 0 && width.digits[0] != '0')
      && (precision.Literally? ==> AllDigits(precision.digits)) && (!dot ==> precision.Absent?)
      && (modifier == "" || modifier == "h" || modifier == "l" || modifier == "L")
      && conversion in "diouxXcs%"
  }

  function Written(n: Number): string {
    match n
    case Absent => ""
    case Literally(digits) => digits
    case Star => "*"
  }

  /** The item as it stands in a format string. */
  function Render(item: Item): string {
    match item
    case Plain(c) => [c]
    case Directive(flags, width, dot, precision, modifier, conversion) =>
      "%" + (flags + (Written(width) + ((if dot then "." else "") + (Written(precision) + (modifier + [conversion])))))
  }

  function RenderAll(items: seq<Item>): string {
    if items == [] then "" else Render(items[0]) + RenderAll(items[1..])
  }

  function FlagsOf(s: string, flags: Flags): Flags {
    if s == [] then flags else FlagsOf(s[1..], AddFlag(flags, s[0]))
  }

  /** The decimal number after digits `s`, when `v` was read before. */
  function NumberOf(s: string, v: int): int {
    if s == [] then v else NumberOf(s[1..], 10 * v + DigitValue(s[0]))
  }

  function WidthOf(n: Number, args: seq<Arg>): (int, seq<Arg>) {
    match n
    case Absent => (0, args)
    case Literally(digits) => (NumberOf(digits, 0), args)
    case Star => (NextInt(args), Rest(args))
  }

  function PrecisionOf(n: Number, args: seq<Arg>): (int, seq<Arg>) {
    match n
    case Absent => (-1, args)
    case Literally(digits) => (if digits == [] then -1 else NumberOf(digits, 0), args)
    case Star => (NextInt(args), Rest(args))
  }

  /** One item on its own: its text, and the arguments after it. */
  function FormatItem(conv: Conversion, item: Item, args: seq<Arg>, maxlen: int): (string, seq<Arg>) {
    match item
    case Plain(c) => ([c], args)
    case Directive(flags, width, dot, precision, modifier, conversion) =>
      var (min, a) := WidthOf(width, args);
      var (max, b) := PrecisionOf(precision, a);
      conv(conversion, b, FlagsOf(flags, NO_FLAGS), min, max, maxlen)
  }

  /** The simple formatter: item by item, as long as an item begins before `maxlen`. */
  function Format(conv: Conversion, items: seq<Item>, args: seq<Arg>, len: nat, maxlen: int): string {
    if items == [] || len >= maxlen then ""
    else
      var (text, left) := FormatItem(conv, items[0], args, maxlen);
      text + Format(conv, items[1..], left, len + |text|, maxlen)
  }

  // ------------------------------------------------------------------
  // The state machine agrees with the simple formatter

  lemma {:induction false} ReadFlags(conv: Conversion, fs: string, rest: string, args: seq<Arg>, flags: Flags, len: nat, maxlen: int)
    requires AllFlags(fs) && rest != [] && !IsFlag(rest[0]) && len < maxlen
    ensures Pending(conv, InFlags, fs + rest, args, flags, 0, -1, len, maxlen)
      == Pending(conv, InMin, rest, args, FlagsOf(fs, flags), 0, -1, len, maxlen)
  {
    if fs == [] {
      assert fs + rest == rest;
    } else {
      assert (fs + rest)[1..] == fs[1..] + rest;
      ReadFlags(conv, fs[1..], rest, args, AddFlag(flags, fs[0]), len, maxlen);
    }
  }

  lemma {:induction false} ReadWidthDigits(conv: Conversion, ds: string, rest: string, args: seq<Arg>, flags: Flags, min: int, len: nat, maxlen: int)
    requires AllDigits(ds) && rest != [] && !IsDigit(rest[0]) && rest[0] != '*' && len < maxlen
    ensures Pending(conv, InMin, ds + rest, args, flags, min, -1, len, maxlen)
      == Pending(conv, AtDot, rest, args, flags, NumberOf(ds, min), -1, len, maxlen)
  {
    if ds == [] {
      assert ds + rest == rest;
    } else {
      assert (ds + rest)[1..] == ds[1..] + rest;
      ReadWidthDigits(conv, ds[1..], rest, args, flags, 10 * min + DigitValue(ds[0]), len, maxlen);
    }
  }

  lemma {:induction false} ReadPrecisionDigits(conv: Conversion, ds: string, rest: string, args: seq<Arg>, flags: Flags, min: int, max: nat, len: nat, maxlen: int)
    requires AllDigits(ds) && rest != [] && !IsDigit(rest[0]) && rest[0] != '*' && len < maxlen
    ensures Pending(conv, InMax, ds + rest, args, flags, min, max, len, maxlen)
      == Pending(conv, AtMod, rest, args, flags, min, NumberOf(ds, max), len, maxlen)
  {
    if ds == [] {
      assert ds + rest == rest;
    } else {
      assert (ds + rest)[1..] == ds[1..] + rest;
      ReadPrecisionDigits(conv, ds[1..], rest, args, flags, min, 10 * max + DigitValue(ds[0]), len, maxlen);
    }
  }

  /** The first digit of a precision ends its being absent. */
  lemma FirstPrecisionDigit(conv: Conversion, ds: string, rest: string, args: seq<Arg>, flags: Flags, min: int, len: nat, maxlen: int)
    requires AllDigits(ds) && rest != [] && !IsDigit(rest[0]) && rest[0] != '*' && len < maxlen
    ensures Pending(conv, InMax, ds + rest, args, flags, min, -1, len, maxlen)
      == Pending(conv, AtMod, rest, args, flags, min, if ds == [] then -1 else NumberOf(ds, 0), len, maxlen)
  {
    if ds == [] {
      assert ds + rest == rest;
    } else {
      assert (ds + rest)[1..] == ds[1..] + rest;
      ReadPrecisionDigits(conv, ds[1..], rest, args, flags, min, DigitValue(ds[0]), len, maxlen);
    }
  }

  /** No flag, digit, star or dot: what may follow a number. */
  predicate Ends(rest: string) {
    rest != [] && rest[0] in "hlLdiouxXcs%"
  }

  lemma ReadWidth(conv: Conversion, n: Number, rest: string, args: seq<Arg>, flags: Flags, len: nat, maxlen: int)
    requires n.Literally? ==> AllDigits(n.digits)
    requires rest != [] && (Ends(rest) || rest[0] == '.') && len < maxlen
    ensures var (min, a) := WidthOf(n, args);
      Pending(conv, InMin, Written(n) + rest, args, flags, 0, -1, len, maxlen) == Pending(conv, AtDot, rest, a, flags, min, -1, len, maxlen)
  {
    match n
    case Absent => assert "" + rest == rest;
    case Literally(digits) => ReadWidthDigits(conv, digits, rest, args, flags, 0, len, maxlen);
    case Star => assert ("*" + rest)[1..] == rest;
  }

  lemma ReadPrecision(conv: Conversion, dot: bool, n: Number, rest: string, args: seq<Arg>, flags: Flags, min: int, len: nat, maxlen: int)
    requires (n.Literally? ==> AllDigits(n.digits)) && (!dot ==> n.Absent?)
    requires Ends(rest) && len < maxlen
    ensures var (max, a) := PrecisionOf(n, args);
      Pending(conv, AtDot, (if dot then "." else "") + (Written(n) + rest), args, flags, min, -1, len, maxlen)
      == Pending(conv, AtMod, rest, a, flags, min, max, len, maxlen)
  {
    var tail := Written(n) + rest;
    if !dot {
      assert "" + tail == tail == rest;
    } else {
      assert ("." + tail)[1..] == tail;
      match n
      case Absent => assert tail == rest;
      case Literally(digits) => FirstPrecisionDigit(conv, digits, rest, args, flags, min, len, maxlen);
      case Star => assert tail[1..] == rest;
    }
  }

  lemma ReadConversion(conv: Conversion, modifier: string, c: char, rest: string, args: seq<Arg>, flags: Flags, min: int, max: int, len: nat, maxlen: int)
    requires modifier == "" || modifier == "h" || modifier == "l" || modifier == "L"
    requires c in "diouxXcs%" && len < maxlen
    ensures var (text, left) := conv(c, args, flags, min, max, maxlen);
      Pending(conv, AtMod, modifier + ([c] + rest), args, flags, min, max, len, maxlen)
      == text + Pending(conv, Default, rest, left, NO_FLAGS, 0, -1, len + |text|, maxlen)
  {
    var tail := [c] + rest;
    assert tail[1..] == rest;
    if modifier == "" { assert modifier + tail == tail; } else { assert (modifier + tail)[1..] == tail; }
  }

  /** The numbers of a directive and all that follows them. */
  function Tail(item: Item, rest: string): string
    requires item.Directive?
  {
    item.modifier + ([item.conversion] + rest)
  }

  function Middle(item: Item, rest: string): string
    requires item.Directive?
  {
    (if item.dot then "." else "") + (Written(item.precision) + Tail(item, rest))
  }

  lemma RenderSplit(item: Item, rest: string)
    requires item.Directive?
    ensures Render(item) + rest == "%" + (item.flags + (Written(item.width) + Middle(item, rest)))
  {
    var tail := item.modifier + [item.conversion];
    assert tail + rest == Tail(item, rest);
    var p := Written(item.precision) + tail;
    assert p + rest == Written(item.precision) + Tail(item, rest);
    var d := (if item.dot then "." else "") + p;
    assert d + rest == Middle(item, rest);
    var w := Written(item.width) + d;
    assert w + rest == Written(item.width) + Middle(item, rest);
    assert (item.flags + w) + rest == item.flags + (w + rest);
  }

  lemma TailEnds(item: Item, rest: string)
    requires item.Directive? && WellFormed(item)
    ensures Ends(Tail(item, rest))
  {
    if item.modifier != "" { assert Tail(item, rest)[0] == item.modifier[0]; } else { assert Tail(item, rest)[0] == item.conversion; }
  }

  lemma MiddleStarts(item: Item, rest: string)
    requires item.Directive? && WellFormed(item)
    ensures var m := Middle(item, rest); m != [] && (Ends(m) || m[0] == '.')
    ensures var w := Written(item.width) + Middle(item, rest); !IsFlag(w[0])
  {
    TailEnds(item, rest);
    if !item.dot { assert Middle(item, rest) == Tail(item, rest); }
    if item.width.Absent? { assert "" + Middle(item, rest) == Middle(item, rest); }
  }

  lemma ReadPlain(conv: Conversion, c: char, rest: string, args: seq<Arg>, flags: Flags, min: int, max: int, len: nat, maxlen: int)
    requires len < maxlen
    ensures Pending(conv, Default, [c] + rest, args, flags, min, max, len, maxlen)
      == if c == '%' then Pending(conv, InFlags, rest, args, flags, min, max, len, maxlen)
         else [c] + Pending(conv, Default, rest, args, flags, min, max, len + 1, maxlen)
  {
    assert ([c] + rest)[1..] == rest;
  }

  /** The machine reads one directive from end to end. */
  lemma ReadDirective(conv: Conversion, item: Item, rest: string, args: seq<Arg>, len: nat, maxlen: int, text: string, left: seq<Arg>)
    requires item.Directive? && WellFormed(item) && len < maxlen && FormatItem(conv, item, args, maxlen) == (text, left)
    ensures Pending(conv, Default, Render(item) + rest, args, NO_FLAGS, 0, -1, len, maxlen)
      == text + Pending(conv, Default, rest, left, NO_FLAGS, 0, -1, len + |text|, maxlen)
  {
    var flags := FlagsOf(item.flags, NO_FLAGS);
    var (min, a) := WidthOf(item.width, args);
    var (max, b) := PrecisionOf(item.precision, a);
    assert conv(item.conversion, b, flags, min, max, maxlen) == (text, left);
    var m, t := Middle(item, rest), Tail(item, rest);
    calc {
      Pending(conv, Default, Render(item) + rest, args, NO_FLAGS, 0, -1, len, maxlen);
      { RenderSplit(item, rest); }
      Pending(conv, Default, "%" + (item.flags + (Written(item.width) + m)), args, NO_FLAGS, 0, -1, len, maxlen);
      { ReadPlain(conv, '%', item.flags + (Written(item.width) + m), args, NO_FLAGS, 0, -1, len, maxlen); }
      Pending(conv, InFlags, item.flags + (Written(item.width) + m), args, NO_FLAGS, 0, -1, len, maxlen);
      { MiddleStarts(item, rest); ReadFlags(conv, item.flags, Written(item.width) + m, args, NO_FLAGS, len, maxlen); }
      Pending(conv, InMin, Written(item.width) + m, args, flags, 0, -1, len, maxlen);
      { MiddleStarts(item, rest); ReadWidth(conv, item.width, m, args, flags, len, maxlen); }
      Pending(conv, AtDot, m, a, flags, min, -1, len, maxlen);
      { TailEnds(item, rest); ReadPrecision(conv, item.dot, item.precision, t, a, flags, min, len, maxlen); }
      Pending(conv, AtMod, t, b, flags, min, max, len, maxlen);
      { ReadConversion(conv, item.modifier, item.conversion, rest, b, flags, min, max, len, maxlen); }
      text + Pending(conv, Default, rest, left, NO_FLAGS, 0, -1, len + |text|, maxlen);
    }
  }

  lemma ReadItem(conv: Conversion, item: Item, rest: string, whole: string, args: seq<Arg>, len: nat, maxlen: int, text: string, left: seq<Arg>)
    requires WellFormed(item) && len < maxlen && whole == Render(item) + rest && FormatItem(conv, item, args, maxlen) == (text, left)
    ensures Pending(conv, Default, whole, args, NO_FLAGS, 0, -1, len, maxlen)
      == text + Pending(conv, Default, rest, left, NO_FLAGS, 0, -1, len + |text|, maxlen)
  {
    if item.Plain? {
      ReadPlainItem(conv, item, rest, args, len, maxlen);
    } else {
      ReadDirective(conv, item, rest, args, len, maxlen, text, left);
    }
  }

  lemma ReadPlainItem(conv: Conversion, item: Item, rest: string, args: seq<Arg>, len: nat, maxlen: int)
    requires item.Plain? && WellFormed(item) && len < maxlen
    ensures Pending(conv, Default, Render(item) + rest, args, NO_FLAGS, 0, -1, len, maxlen)
      == [item.c] + Pending(conv, Default, rest, args, NO_FLAGS, 0, -1, len + 1, maxlen)
  {
    ReadPlain(conv, item.c, rest, args, NO_FLAGS, 0, -1, len, maxlen);
  }

  /** For every list of items, the state machine prints what the simple formatter prints. */
  lemma {:induction false} MachineFormats(conv: Conversion, items: seq<Item>, args: seq<Arg>, len: nat, maxlen: int)
    requires forall i | 0 <= i < |items| :: WellFormed(items[i])
    ensures Pending(conv, Default, RenderAll(items), args, NO_FLAGS, 0, -1, len, maxlen) == Format(conv, items, args, len, maxlen)
  {
    if items != [] && len < maxlen {
      var text, left := FormatItem(conv, items[0], args, maxlen).0, FormatItem(conv, items[0], args, maxlen).1;
      var rest, more := RenderAll(items[1..]), Format(conv, items[1..], left, len + |text|, maxlen);
      MachineFormats(conv, items[1..], left, len + |text|, maxlen);
      RenderStep(items, rest);
      ReadItem(conv, items[0], rest, RenderAll(items), args, len, maxlen, text, left);
      FormatStep(conv, items, args, len, maxlen, text, left, more);
    }
  }

  lemma FormatStep(conv: Conversion, items: seq<Item>, args: seq<Arg>, len: nat, maxlen: int, text: string, left: seq<Arg>, more: string)
    requires items != [] && len < maxlen && FormatItem(conv, items[0], args, maxlen) == (text, left)
    requires more == Format(conv, items[1..], left, len + |text|, maxlen)
    ensures Format(conv, items, args, len, maxlen) == text + more
  {
  }

  lemma RenderStep(items: seq<Item>, rest: string)
    requires items != [] && rest == RenderAll(items[1..])
    ensures RenderAll(items) == Render(items[0]) + rest
  {
  }

  // ------------------------------------------------------------------
  // What the output has to be, item by item

  const DECIMAL := "0123456789"

  function Power(b: nat, k: nat): nat {
    if k == 0 then 1 else b * Power(b, k - 1)
  }

  /** The number with these digits, the first one weighing most. */
  function Positional(ds: seq<nat>, b: nat): nat {
    if ds == [] then 0 else ds[0] * Power(b, |ds| - 1) + Positional(ds[1..], b)
  }

  ghost predicate Spells(s: string, alphabet: string, ds: seq<nat>) {
    |s| == |ds| && forall i | 0 <= i < |s| :: ds[i] < |alphabet| && s[i] == alphabet[ds[i]]
  }

  /** The text is the number `w` in the digits of this alphabet. */
  ghost predicate Denotes(s: string, alphabet: string, w: nat) {
    exists ds: seq<nat> :: Spells(s, alphabet, ds) && Positional(ds, |alphabet|) == w
  }

  ghost function AlphabetOf(conversion: char): string {
    match conversion
    case 'o' => "01234567"
    case 'x' => "0123456789abcdef"
    case 'X' => "0123456789ABCDEF"
    case _ => DECIMAL
  }

  /** The sign and the magnitude of a 32-bit word, read as signed. */
  ghost predicate SignedParts(w: nat, flags: string, sign: string, magnitude: nat) {
    if w >= 0x8000_0000 then sign == "-" && magnitude + w == 0x1_0000_0000
    else magnitude == w && sign == if '+' in flags then "+" else if ' ' in flags then " " else ""
  }

  /** The parts of an integer: spaces, sign, zeros, digits, spaces. */
  datatype Parts = Parts(left: nat, sign: string, zeros: nat, digits: string, right: nat)

  ghost function Laid(p: Parts): string {
    Repeat(' ', p.left) + (p.sign + (Repeat('0', p.zeros) + p.digits)) + Repeat(' ', p.right)
  }

  /** Word `w` under these flags, width and precision. */
  ghost predicate IsInteger(p: Parts, conversion: char, flags: string, min: int, max: int, w: nat) {
    IsValue(p, conversion, flags, w) && IsLaidOut(p, flags, min, max)
  }

  ghost predicate IsValue(p: Parts, conversion: char, flags: string, w: nat) {
    && p.digits != "" && (|p.digits| > 1 ==> p.digits[0] != '0')
    && exists m: nat :: Denotes(p.digits, AlphabetOf(conversion), m)
         && if conversion == 'd' || conversion == 'i' then SignedParts(w, flags, p.sign, m) else m == w && p.sign == ""
  }

  ghost predicate IsLaidOut(p: Parts, flags: string, min: int, max: int) {
    && ('-' in flags ==> p.left == 0) && ('-' !in flags ==> p.right == 0)
    && (if '0' in flags then
          p.left == 0 && p.right == 0
          && p.zeros == Max(0, Max(max - |p.digits|, min - |p.sign| - Max(max, |p.digits|)))
        else
          p.zeros == Max(0, max - |p.digits|) && p.left + p.right == Max(0, min - (|p.sign| + p.zeros + |p.digits|)))
  }

  /** A string padded with spaces to `min`, at the end if left-justified, and cut after `max`. */
  ghost predicate IsPadded(t: string, s: string, flags: string, min: int, max: int) {
    var pad := Max(min - |s|, 0);
    && |t| == Max(0, if max < |s| + pad then max else |s| + pad)
    && forall i | 0 <= i < |t| ::
         t[i] == if '-' in flags then (if i < |s| then s[i] else ' ') else (if i < pad then ' ' else s[i - pad])
  }

  /** A width or precision and the arguments after it; `none` stands for an absent one. */
  ghost predicate IsNumber(n: Number, none: int, args: seq<Arg>, v: int, left: seq<Arg>) {
    match n
    case Absent => v == none && left == args
    case Literally(digits) => left == args && if digits == "" then v == none else v >= 0 && Denotes(digits, DECIMAL, v)
    case Star =>
      args != [] && args[0].Word? && args[0].word < 0x1_0000_0000 ==>
        left == args[1..] && v == if args[0].word >= 0x8000_0000 then args[0].word - 0x1_0000_0000 else args[0].word
  }

  /** What one conversion prints for its own argument. */
  ghost predicate Converts(c: char, flags: string, b: seq<Arg>, min: int, max: int, maxlen: int, t: string, left: seq<Arg>) {
    && (c == '%' ==> t == "%" && left == b)
    && (c != '%' && b != [] ==> left == b[1..])
    && (c in "diouxX" && b != [] && b[0].Word? && b[0].word < 0x1_0000_0000 ==>
          exists p: Parts :: t == Laid(p) && IsInteger(p, c, flags, min, max, b[0].word))
    && (c == 'c' && b != [] && b[0].Word? ==> t == [(b[0].word % 256) as char])
    && (c == 's' && b != [] && b[0].Text? ==>
          IsPadded(t, if b[0].text.None? then "<NULL>" else b[0].text.value, flags, min, if max < 0 then maxlen else max))
  }

  /** What an item prints, for arguments of the right kind, and the arguments after it. */
  ghost predicate ItemPrints(item: Item, args: seq<Arg>, maxlen: int, t: string, left: seq<Arg>) {
    match item
    case Plain(c) => t == [c] && left == args
    case Directive(flags, width, dot, precision, modifier, c) =>
      exists min: int, max: int, a: seq<Arg>, b: seq<Arg> {:trigger IsNumber(width, 0, args, min, a), IsNumber(precision, -1, a, max, b)} ::
        && IsNumber(width, 0, args, min, a) && IsNumber(precision, -1, a, max, b)
        && Converts(c, flags, b, min, max, maxlen, t, left)
  }

  /** The output for a format: what its items print, as far as they begin before `maxlen`. */
  ghost predicate Prints(items: seq<Item>, args: seq<Arg>, len: nat, maxlen: int, t: string) {
    if items == [] || len >= maxlen then t == ""
    else
      exists first: string, left: seq<Arg>, more: string ::
        t == first + more && ItemPrints(items[0], args, maxlen, first, left) && Prints(items[1..], left, len + |first|, maxlen, more)
  }

  lemma {:induction false} PositionalSnoc(ds: seq<nat>, d: nat, b: nat)
    ensures Positional(ds + [d], b) == Positional(ds, b) * b + d
  {
    if ds == [] {
      assert [] + [d] == [d];
      assert Power(b, 0) == 1;
    } else {
      assert (ds + [d])[1..] == ds[1..] + [d];
      PositionalSnoc(ds[1..], d, b);
      Weighs(ds[0], b, |ds| - 1, Positional(ds[1..], b), d);
    }
  }

  lemma Weighs(x: nat, b: nat, k: nat, rest: nat, d: nat)
    ensures x * Power(b, k + 1) + (rest * b + d) == (x * Power(b, k) + rest) * b + d
  {
    var p := Power(b, k);
    assert Power(b, k + 1) == b * p;
    assert x * (b * p) == x * p * b;
  }

  ghost predicate IsAlphabet(base: nat, up: bool, alphabet: string) {
    || (base == 8 && alphabet == "01234567") || (base == 10 && alphabet == DECIMAL)
    || (base == 16 && alphabet == if up then "0123456789ABCDEF" else "0123456789abcdef")
  }

  lemma LetterOf(d: nat, base: nat, up: bool, alphabet: string)
    requires IsAlphabet(base, up, alphabet) && d < base
    ensures |alphabet| == base && alphabet[d] == DigitChar(d, up)
  {
    assert d == 0 || d == 1 || d == 2 || d == 3 || d == 4 || d == 5 || d == 6 || d == 7
      || d == 8 || d == 9 || d == 10 || d == 11 || d == 12 || d == 13 || d == 14 || d == 15;
  }

  /** The digits of `u` denote it, without a leading zero. */
  lemma {:induction false} DigitsSpell(u: nat, base: nat, up: bool, alphabet: string) returns (ds: seq<nat>)
    requires IsAlphabet(base, up, alphabet)
    ensures Spells(Digits(u, base, up), alphabet, ds) && Positional(ds, base) == u
    ensures |ds| > 0 && (u > 0 ==> ds[0] > 0) && (u == 0 ==> |ds| == 1)
  {
    if u < base {
      LetterOf(u, base, up, alphabet);
      ds := [u];
      assert Power(base, 0) == 1;
    } else {
      var q, r := Divide(u, base, up);
      var front := DigitsSpell(q, base, up, alphabet);
      LetterOf(r, base, up, alphabet);
      PositionalSnoc(front, r, base);
      ds := front + [r];
    }
  }

  lemma DigitsDenote(u: nat, base: nat, up: bool, alphabet: string)
    requires IsAlphabet(base, up, alphabet)
    ensures var s := Digits(u, base, up); Denotes(s, alphabet, u) && s != "" && (|s| > 1 ==> s[0] != '0')
  {
    var ds := DigitsSpell(u, base, up, alphabet);
    LetterOf(0, base, up, alphabet);
    LetterOf(ds[0], base, up, alphabet);
    assert Denotes(Digits(u, base, up), alphabet, u);
  }

  /** Reading digits gives the number they denote. */
  lemma {:induction false} NumberSpelt(s: string, v: int) returns (ds: seq<nat>)
    requires AllDigits(s)
    ensures Spells(s, DECIMAL, ds) && NumberOf(s, v) == v * Power(10, |s|) + Positional(ds, 10)
  {
    if s == [] {
      ds := [];
      assert Power(10, 0) == 1;
    } else {
      var d := DigitValue(s[0]);
      var rest := NumberSpelt(s[1..], 10 * v + d);
      LetterOf(d, 10, false, DECIMAL);
      ds := [d] + rest;
      assert ds[1..] == rest && ds[0] == d;
      ShiftedIn(v, d, Power(10, |s| - 1));
    }
  }

  lemma ShiftedIn(v: int, d: int, p: nat)
    ensures (10 * v + d) * p == v * (10 * p) + d * p
  {
  }

  lemma InCons(c: char, s: string)
    requires s != []
    ensures c in s <==> s[0] == c || c in s[1..]
  {
  }

  function FlagBit(flags: Flags, c: char): bool {
    if c == '-' then flags.minus else if c == '+' then flags.plus else if c == ' ' then flags.space else flags.zero
  }

  lemma FlagAdded(flags: Flags, x: char, c: char)
    requires IsFlag(x) && c in "-+ 0"
    ensures FlagBit(AddFlag(flags, x), c) <==> FlagBit(flags, c) || x == c
    ensures AddFlag(flags, x).up == flags.up && AddFlag(flags, x).unsigned == flags.unsigned
  {
  }

  /** A flag is set exactly if its character is among the flags. */
  lemma {:induction false} FlagRead(s: string, flags: Flags, c: char)
    requires AllFlags(s) && c in "-+ 0"
    ensures FlagBit(FlagsOf(s, flags), c) <==> FlagBit(flags, c) || c in s
    ensures FlagsOf(s, flags).up == flags.up && FlagsOf(s, flags).unsigned == flags.unsigned
  {
    if s != [] {
      FlagAdded(flags, s[0], c);
      FlagRead(s[1..], AddFlag(flags, s[0]), c);
      InCons(c, s);
    }
  }

  lemma FlagsRead(s: string)
    requires AllFlags(s)
    ensures var f := FlagsOf(s, NO_FLAGS);
      && (f.minus <==> '-' in s) && (f.plus <==> '+' in s) && (f.space <==> ' ' in s) && (f.zero <==> '0' in s)
      && !f.up && !f.unsigned
  {
    FlagRead(s, NO_FLAGS, '-');
    FlagRead(s, NO_FLAGS, '+');
    FlagRead(s, NO_FLAGS, ' ');
    FlagRead(s, NO_FLAGS, '0');
  }

  /** The parts that the code lays out. */
  ghost function PartsOf(value: int, base: nat, min: int, max: int, flags: Flags): Parts
    requires 2 <= base <= 16
  {
    var digits := Digits(Magnitude(value), base, flags.up);
    var sign := Sign(value, flags);
    var z, s := ZeroPad(|digits|, max), SpacePad(|digits|, |sign|, min, max);
    Parts(if flags.zero || flags.minus then 0 else s, sign, if flags.zero then Max(z, s) else z, digits,
          if flags.zero || !flags.minus then 0 else s)
  }

  lemma IntTextLaid(value: int, base: nat, min: int, max: int, flags: Flags)
    requires 2 <= base <= 16
    ensures IntText(value, base, min, max, flags) == Laid(PartsOf(value, base, min, max, flags))
  {
    var p := PartsOf(value, base, min, max, flags);
    var text := p.sign + (Repeat('0', p.zeros) + p.digits);
    assert text == Sign(value, flags) + Body(value, base, min, max, flags);
    assert Repeat(' ', 0) == [] && [] + text == text;
    assert text + [] == text;
    assert (Repeat(' ', p.left) + text) + [] == Repeat(' ', p.left) + text;
  }

  /** How a conversion reads its flags and its word. */
  lemma ReadAs(c: char, s: string, w: nat)
    requires c in "diouxX" && AllFlags(s) && w < 0x1_0000_0000
    ensures var f := IntFlags(c, FlagsOf(s, NO_FLAGS));
      && (f.minus <==> '-' in s) && (f.plus <==> '+' in s) && (f.space <==> ' ' in s) && (f.zero <==> '0' in s)
      && (f.unsigned <==> c != 'd' && c != 'i') && IsAlphabet(BaseOf(c), f.up, AlphabetOf(c))
      && Meant(NextInt([Word(w)]), f) == if !f.unsigned && w >= 0x8000_0000 then w - 0x1_0000_0000 else w
  {
    FlagsRead(s);
  }

  lemma ValuePrinted(p: Parts, c: char, s: string, value: int, base: nat, f: Flags, w: nat)
    requires (f.plus <==> '+' in s) && (f.space <==> ' ' in s) && (f.unsigned <==> c != 'd' && c != 'i')
    requires IsAlphabet(base, f.up, AlphabetOf(c)) && w < 0x1_0000_0000
    requires value == if !f.unsigned && w >= 0x8000_0000 then w - 0x1_0000_0000 else w
    requires p.sign == Sign(value, f) && p.digits == Digits(Magnitude(value), base, f.up)
    ensures IsValue(p, c, s, w)
  {
    DigitsDenote(Magnitude(value), base, f.up, AlphabetOf(c));
    assert c == 'd' || c == 'i' ==> SignedParts(w, s, p.sign, Magnitude(value));
  }

  lemma LaidOut(value: int, base: nat, min: int, max: int, f: Flags, s: string)
    requires 2 <= base <= 16 && (f.minus <==> '-' in s) && (f.zero <==> '0' in s)
    ensures IsLaidOut(PartsOf(value, base, min, max, f), s, min, max)
  {
  }

  /** An integer conversion prints what it has to. */
  lemma IntegerPrinted(c: char, s: string, min: int, max: int, w: nat)
    requires c in "diouxX" && AllFlags(s) && w < 0x1_0000_0000
    ensures var f := IntFlags(c, FlagsOf(s, NO_FLAGS));
      IsInteger(PartsOf(Meant(NextInt([Word(w)]), f), BaseOf(c), min, max, f), c, s, min, max, w)
  {
    ReadAs(c, s, w);
    var f := IntFlags(c, FlagsOf(s, NO_FLAGS));
    var value := Meant(NextInt([Word(w)]), f);
    ValuePrinted(PartsOf(value, BaseOf(c), min, max, f), c, s, value, BaseOf(c), f, w);
    LaidOut(value, BaseOf(c), min, max, f, s);
  }

  lemma StringPadded(value: Option<string>, s: string, min: int, max: int)
    requires AllFlags(s)
    ensures IsPadded(StrText(value, FlagsOf(s, NO_FLAGS), min, max), if value.None? then "<NULL>" else value.value, s, min, max)
  {
    FlagsRead(s);
  }

  /** A width or precision is read as written. */
  lemma NumberRead(digits: string)
    requires AllDigits(digits)
    ensures NumberOf(digits, 0) >= 0 && Denotes(digits, DECIMAL, NumberOf(digits, 0))
  {
    var ds := NumberSpelt(digits, 0);
    assert Spells(digits, DECIMAL, ds);
  }

  lemma WidthRead(n: Number, args: seq<Arg>)
    requires n.Literally? ==> AllDigits(n.digits) && |n.digits| > 0
    ensures IsNumber(n, 0, args, WidthOf(n, args).0, WidthOf(n, args).1)
  {
    if n.Literally? { NumberRead(n.digits); }
  }

  lemma PrecisionRead(n: Number, args: seq<Arg>)
    requires n.Literally? ==> AllDigits(n.digits)
    ensures IsNumber(n, -1, args, PrecisionOf(n, args).0, PrecisionOf(n, args).1)
  {
    if n.Literally? { NumberRead(n.digits); }
  }

  lemma IntConverts(c: char, s: string, b: seq<Arg>, min: int, max: int, maxlen: int) returns (p: Parts)
    requires c in "diouxX" && AllFlags(s) && b != [] && b[0].Word? && b[0].word < 0x1_0000_0000
    ensures Convert(c, b, FlagsOf(s, NO_FLAGS), min, max, maxlen) == (Laid(p), b[1..]) && IsInteger(p, c, s, min, max, b[0].word)
  {
    var w, f := b[0].word, IntFlags(c, FlagsOf(s, NO_FLAGS));
    IntegerPrinted(c, s, min, max, w);
    assert NextInt(b) == NextInt([Word(w)]);
    p := PartsOf(Meant(NextInt(b), f), BaseOf(c), min, max, f);
    IntTextLaid(Meant(NextInt(b), f), BaseOf(c), min, max, f);
  }

  lemma ConversionPrinted(c: char, s: string, b: seq<Arg>, min: int, max: int, maxlen: int, t: string, left: seq<Arg>)
    requires c in "diouxXcs%" && AllFlags(s) && (t, left) == Convert(c, b, FlagsOf(s, NO_FLAGS), min, max, maxlen)
    ensures Converts(c, s, b, min, max, maxlen, t, left)
  {
    if c in "diouxX" {
      if b != [] && b[0].Word? && b[0].word < 0x1_0000_0000 { var p := IntConverts(c, s, b, min, max, maxlen); }
    } else if c == 's' {
      if b != [] && b[0].Text? { StringPadded(b[0].text, s, min, if max < 0 then maxlen else max); }
    }
  }

  lemma ItemPrinted(item: Item, args: seq<Arg>, maxlen: int) returns (t: string, left: seq<Arg>)
    requires WellFormed(item)
    ensures FormatItem(Convert, item, args, maxlen) == (t, left) && ItemPrints(item, args, maxlen, t, left)
  {
    t, left := FormatItem(Convert, item, args, maxlen).0, FormatItem(Convert, item, args, maxlen).1;
    if item.Directive? {
      WidthRead(item.width, args);
      var (min, a) := WidthOf(item.width, args);
      PrecisionRead(item.precision, a);
      var (max, b) := PrecisionOf(item.precision, a);
      ConversionPrinted(item.conversion, item.flags, b, min, max, maxlen, t, left);
    }
  }

  lemma PrintsMore(items: seq<Item>, args: seq<Arg>, len: nat, maxlen: int, first: string, left: seq<Arg>, more: string)
    requires items != [] && len < maxlen && ItemPrints(items[0], args, maxlen, first, left)
    requires Prints(items[1..], left, len + |first|, maxlen, more)
    ensures Prints(items, args, len, maxlen, first + more)
  {
  }

  lemma FormatUnfolds(items: seq<Item>, args: seq<Arg>, len: nat, maxlen: int) returns (t: string, left: seq<Arg>, more: string)
    requires items != [] && WellFormed(items[0]) && len < maxlen
    ensures ItemPrints(items[0], args, maxlen, t, left) && more == Format(Convert, items[1..], left, len + |t|, maxlen)
    ensures Format(Convert, items, args, len, maxlen) == t + more
  {
    t, left := ItemPrinted(items[0], args, maxlen);
    more := Format(Convert, items[1..], left, len + |t|, maxlen);
    FormatStep(Convert, items, args, len, maxlen, t, left, more);
  }

  ghost predicate AllWellFormed(items: seq<Item>) {
    forall i | 0 <= i < |items| :: WellFormed(items[i])
  }

  /** The item-by-item formatter prints what has to be printed. */
  lemma {:induction false} FormatPrints(items: seq<Item>, args: seq<Arg>, len: nat, maxlen: int, text: string)
    requires AllWellFormed(items) && text == Format(Convert, items, args, len, maxlen)
    ensures Prints(items, args, len, maxlen, text)
  {
    if items != [] && len < maxlen {
      var t, left, more := FormatUnfolds(items, args, len, maxlen);
      FormatPrints(items[1..], left, len + |t|, maxlen, more);
      PrintsMore(items, args, len, maxlen, t, left, more);
    }
  }

  // ------------------------------------------------------------------
  // The printing code

  lemma ReverseSnoc(s: string, c: char)
    ensures Reverse(s + [c]) == [c] + Reverse(s)
  {
    assert (s + [c])[..|s|] == s;
  }

  /** The digits still to be made. */
  ghost function Leading(u: nat, base: nat, up: bool, more: bool): string
    requires 2 <= base <= 16
  {
    if more then Digits(u, base, up) else []
  }

  lemma DigitsSplit(u: nat, base: nat, up: bool)
    requires 2 <= base <= 16
    ensures u % base < 16 && Digits(u, base, up) == Leading(u / base, base, up, u / base != 0) + [DigitChar(u % base, up)]
    ensures u > 0 ==> u / base < u
  {
    QuotientFacts(u, base);
    var q, r := u / base, u % base;
    if u < base { assert [] + [DigitChar(r, up)] == [DigitChar(r, up)]; }
  }

  lemma DigitMade(full: string, u: nat, base: nat, up: bool, made: string)
    requires 2 <= base <= 16 && full == Leading(u, base, up, true) + Reverse(made)
    ensures u % base < 16 && full == Leading(u / base, base, up, u / base != 0) + Reverse(made + [DigitChar(u % base, up)])
    ensures (u > 0 ==> u / base < u) && |full| > |made| && (u / base != 0 ==> |full| > |made| + 1)
  {
    DigitsSplit(u, base, up);
    var q, c := u / base, DigitChar(u % base, up);
    ReverseSnoc(made, c);
    Shift(Leading(q, base, up, q != 0), c, Reverse(made));
  }

  lemma Shift(x: string, c: char, y: string)
    ensures (x + [c]) + y == x + ([c] + y)
  {
  }

  lemma Regroup(x: string, y: string, z: string)
    ensures (x + y) + z == x + (y + z)
  {
  }

  lemma InOrder(o: string, a: string, b: string, c: string, d: string, e: string)
    ensures ((((o + a) + b) + c) + d) + e == o + (a + (b + (c + d)) + e)
  {
  }

  /** The parts of a printed integer in order; a negative number of spaces goes behind. */
  lemma IntTextParts(value: int, base: nat, min: int, max: int, flags: Flags, sign: string, digits: string, z: int, s: int)
    requires 2 <= base <= 16 && sign == Sign(value, flags) && digits == Digits(Magnitude(value), base, flags.up)
    requires var (zeros, spaces) := (ZeroPad(|digits|, max), SpacePad(|digits|, |sign|, min, max));
      && z == (if flags.zero then Max(zeros, spaces) else zeros)
      && (if flags.zero then s == 0 else if flags.minus then s + spaces == 0 else s == spaces)
    ensures IntText(value, base, min, max, flags) == Repeat(' ', s) + (sign + (Repeat('0', z) + digits)) + Repeat(' ', -s)
  {
    var text := sign + (Repeat('0', z) + digits);
    assert text == sign + Body(value, base, min, max, flags);
    assert s >= 0 ==> Repeat(' ', -s) == [] && Repeat(' ', s) + text + [] == Repeat(' ', s) + text;
    assert s <= 0 ==> Repeat(' ', s) == [] && [] + text + Repeat(' ', -s) == text + Repeat(' ', -s);
  }

  lemma StrTextParts(value: Option<string>, flags: Flags, min: int, max: int, all: string)
    requires var s := if value.None? then "<NULL>" else value.value;
      var pad := Max(min - |s|, 0);
      all == Repeat(' ', if flags.minus then 0 else pad) + s + Repeat(' ', if flags.minus then pad else 0)
    ensures StrText(value, flags, min, max) == Cut(all, max)
  {
    var s := if value.None? then "<NULL>" else value.value;
    var pad := Repeat(' ', min - |s|);
    assert all == if flags.minus then s + pad else pad + s;
  }

  lemma Joined(a: string, b: string, c: string)
    ensures var all := a + b + c;
      && all[0..|a|] == a && all[|a|..|a| + |b|] == b && all[|a| + |b|..|a| + |b| + |c|] == c && |all| == |a| + |b| + |c|
  {
  }

  class Printer {
    var out: string
    var currlen: nat

    method Outch(c: char)
      modifies this
      ensures out == old(out) + [c] && currlen == old(currlen) + 1
    {
      currlen := currlen + 1;
      out := out + [c];
    }

    method Pad(c: char, n: int)
      modifies this
      ensures out == old(out) + Repeat(c, n) && currlen == old(currlen) + Max(n, 0)
    {
      var togo := n;
      ghost var done := 0;
      while togo > 0
        invariant done >= 0 && togo == n - done && (done > 0 ==> togo >= 0)
        invariant out == old(out) + Repeat(c, done) && currlen == old(currlen) + done
      {
        Outch(c);
        togo := togo - 1;
        assert Repeat(c, done) + [c] == Repeat(c, done + 1);
        done := done + 1;
      }
    }

    /** The digits of `u`, least significant first, in an array of 20 characters. */
    method MakeDigits(u: nat, base: nat, caps: bool) returns (convert: array<char>, place: nat)
      requires 8 <= base <= 16 && u < WORD
      ensures fresh(convert) && 0 < place <= 11 < convert.Length && Reverse(convert[..place]) == Digits(u, base, caps)
    {
      ghost var full := Digits(u, base, caps);
      WordDigits(u, base, caps);
      convert := new char[20];
      place := 0;
      var uvalue: nat, more := u, true;
      assert Reverse(convert[..0]) == [];
      while more
        invariant place <= 11 && (more <==> place == 0 || uvalue != 0) && |full| <= 11
        invariant full == Leading(uvalue, base, caps, more) + Reverse(convert[..place])
        decreases more, uvalue
      {
        DigitMade(full, uvalue, base, caps, convert[..place]);
        ghost var before := convert[..place];
        var c, q := DigitChar(uvalue % base, caps), uvalue / base;
        convert[place] := c;
        assert convert[..place + 1] == before + [c];
        place, uvalue := place + 1, q;
        more := uvalue != 0 && place < 20;
      }
    }

    /** The characters of `convert` below `place`, last first. */
    method PutReversed(convert: array<char>, n: nat)
      requires n <= convert.Length
      modifies this
      ensures out == old(out) + Reverse(convert[..n]) && currlen == old(currlen) + n
    {
      var place := n;
      while place > 0
        invariant 0 <= place <= n && currlen == old(currlen) + (n - place)
        invariant out + Reverse(convert[..place]) == old(out) + Reverse(convert[..n])
      {
        place := place - 1;
        assert convert[..place + 1] == convert[..place] + [convert[place]];
        ReverseSnoc(convert[..place], convert[place]);
        Outch(convert[place]);
      }
      assert convert[..0] == [];
    }

    method SignAndMagnitude(value: int, flags: Flags) returns (signvalue: string, uvalue: nat)
      requires -0x8000_0000 <= value < 0x8000_0000
      ensures signvalue == Sign(Meant(value, flags), flags) && |signvalue| <= 1
      ensures uvalue == Magnitude(Meant(value, flags)) < WORD
    {
      signvalue, uvalue := "", if value < 0 then value + WORD else value;
      if !flags.unsigned {
        if value < 0 {
          signvalue, uvalue := "-", -value;
        } else if flags.plus {
          signvalue := "+";
        } else if flags.space {
          signvalue := " ";
        }
      }
    }

    method FmtInt(value: int, base: nat, min: int, max: int, flags: Flags)
      requires 8 <= base <= 16 && -0x8000_0000 <= value < 0x8000_0000
      modifies this
      ensures out == old(out) + IntText(Meant(value, flags), base, min, max, flags)
      ensures currlen == old(currlen) + |IntText(Meant(value, flags), base, min, max, flags)|
    {
      var precision := if max < 0 then 0 else max;
      var signvalue, uvalue := SignAndMagnitude(value, flags);
      var convert, place := MakeDigits(uvalue, base, flags.up);
      assert |Reverse(convert[..place])| == place;
      var zpadlen := Max(precision - place, 0);
      var spadlen := Max(min - Max(precision, place) - |signvalue|, 0);
      if flags.zero { zpadlen, spadlen := Max(zpadlen, spadlen), 0; }
      if flags.minus { spadlen := -spadlen; }
      IntTextParts(Meant(value, flags), base, min, max, flags, signvalue, Reverse(convert[..place]), zpadlen, spadlen);
      Spread(signvalue, zpadlen, spadlen, convert, place);
    }

    method PutSign(signvalue: string)
      requires |signvalue| <= 1
      modifies this
      ensures out == old(out) + signvalue && currlen == old(currlen) + |signvalue|
    {
      if signvalue != "" { Outch(signvalue[0]); }
    }

    /** Spaces, sign, zeros, digits, spaces. */
    method Spread(signvalue: string, zpadlen: int, spadlen: int, convert: array<char>, place: nat)
      requires |signvalue| <= 1 && place <= convert.Length
      modifies this
      ensures var text := Repeat(' ', spadlen) + (signvalue + (Repeat('0', zpadlen) + Reverse(convert[..place]))) + Repeat(' ', -spadlen);
        out == old(out) + text && currlen == old(currlen) + |text|
    {
      InOrder(out, Repeat(' ', spadlen), signvalue, Repeat('0', zpadlen), Reverse(convert[..place]), Repeat(' ', -spadlen));
      Pad(' ', spadlen);
      PutSign(signvalue);
      Pad('0', zpadlen);
      PutReversed(convert, place);
      Pad(' ', -spadlen);
    }

    /** Print character `cnt` of `all`. */
    method Next(ghost start: string, ghost all: string, ghost len: nat, cnt: nat, c: char)
      requires cnt < |all| && all[cnt] == c && out == start + all[..cnt] && currlen == len + cnt
      modifies this
      ensures out == start + all[..cnt + 1] && currlen == len + cnt + 1
    {
      assert all[..cnt + 1] == all[..cnt] + [c];
      Outch(c);
    }

    /** Print `text` from `cnt` on, while fewer than `max` characters are out. */
    method PutWhile(text: string, cnt: nat, max: int, ghost start: string, ghost all: string, ghost len: nat) returns (now: nat)
      requires cnt <= |all| && cnt <= Max(max, 0) && out == start + all[..cnt] && currlen == len + cnt
      requires cnt < max ==> cnt + |text| <= |all| && all[cnt..cnt + |text|] == text
      modifies this
      ensures cnt <= now <= |all| && now <= Max(max, 0) && (now < max ==> now == cnt + |text|)
      ensures out == start + all[..now] && currlen == len + now
    {
      now := cnt;
      var i := 0;
      while i < |text| && now < max
        invariant 0 <= i <= |text| && now == cnt + i && now <= |all| && now <= Max(max, 0)
        invariant out == start + all[..now] && currlen == len + now
      {
        assert all[now] == all[cnt..cnt + |text|][i];
        Next(start, all, len, now, text[i]);
        i := i + 1;
        now := now + 1;
      }
    }

    method FmtStr(value: Option<string>, flags: Flags, min: int, max: int)
      modifies this
      ensures out == old(out) + StrText(value, flags, min, max)
      ensures currlen == old(currlen) + |StrText(value, flags, min, max)|
    {
      var s := if value.None? then "<NULL>" else value.value;
      var padlen := Max(min - |s|, 0);
      if flags.minus { padlen := -padlen; }
      StrTextParts(value, flags, min, max, Repeat(' ', padlen) + s + Repeat(' ', -padlen));
      PutCut(Repeat(' ', padlen), s, Repeat(' ', -padlen), max);
    }

    method PutCut(lead: string, s: string, trail: string, max: int)
      modifies this
      ensures out == old(out) + Cut(lead + s + trail, max) && currlen == old(currlen) + |Cut(lead + s + trail, max)|
    {
      ghost var start, len, all := out, currlen, lead + s + trail;
      Joined(lead, s, trail);
      var cnt := PutWhile(lead, 0, max, start, all, len);
      cnt := PutWhile(s, cnt, max, start, all, len);
      cnt := PutWhile(trail, cnt, max, start, all, len);
    }

    /** One conversion. */
    method Conversion(c: char, args: seq<Arg>, flags: Flags, min: int, max: int, maxlen: int) returns (left: seq<Arg>)
      modifies this
      ensures var (text, rest) := Convert(c, args, flags, min, max, maxlen);
        out == old(out) + text && currlen == old(currlen) + |text| && left == rest
    {
      left := Rest(args);
      if IsInt(c) {
        FmtInt(NextInt(args), BaseOf(c), min, max, IntFlags(c, flags));
      } else if c == 'c' {
        Outch((NextWord(args) % 0x100) as char);
      } else if c == 's' {
        FmtStr(NextText(args), flags, min, if max < 0 then maxlen else max);
      } else {
        if c == '%' { Outch(c); }
        left := args;
      }
    }

    /** One turn of the reading loop. */
    method Turn(maxlen: int, state0: State, rest0: string, args0: seq<Arg>, flags0: Flags, min0: int, max0: int)
      returns (state: State, rest: string, args: seq<Arg>, flags: Flags, min: int, max: int)
      requires rest0 != [] && currlen < maxlen
      modifies this
      ensures out + Pending(Convert, state, rest, args, flags, min, max, currlen, maxlen)
        == old(out) + Pending(Convert, state0, rest0, args0, flags0, min0, max0, old(currlen), maxlen)
      ensures |rest| < |rest0| || (rest == rest0 && Rank(state) < Rank(state0))
    {
      state, rest, args, flags, min, max := state0, rest0, args0, flags0, min0, max0;
      match state0
      case Default =>
        state := Copy(maxlen, rest, args, flags, min, max);
        rest := rest[1..];
      case AtConv =>
        args := Convey(maxlen, rest, args, flags, min, max);
        rest, state, flags, min, max := rest[1..], Default, NO_FLAGS, 0, -1;
      case _ =>
        state, rest, args, flags, min, max := Read(maxlen, state0, rest0, args0, flags0, min0, max0);
    }

    /** A turn outside directives. */
    method Copy(maxlen: int, format: string, args: seq<Arg>, flags: Flags, min: int, max: int) returns (state: State)
      requires format != [] && currlen < maxlen
      modifies this
      ensures out + Pending(Convert, state, format[1..], args, flags, min, max, currlen, maxlen)
        == old(out) + Pending(Convert, Default, format, args, flags, min, max, old(currlen), maxlen)
    {
      if format[0] == '%' {
        state := InFlags;
      } else {
        state := Default;
        Outch(format[0]);
        Regroup(old(out), [format[0]], Pending(Convert, Default, format[1..], args, flags, min, max, currlen, maxlen));
      }
    }

    /** The turn that ends a directive. */
    method Convey(maxlen: int, format: string, args: seq<Arg>, flags: Flags, min: int, max: int) returns (left: seq<Arg>)
      requires format != [] && currlen < maxlen
      modifies this
      ensures out + Pending(Convert, Default, format[1..], left, NO_FLAGS, 0, -1, currlen, maxlen)
        == old(out) + Pending(Convert, AtConv, format, args, flags, min, max, old(currlen), maxlen)
    {
      ghost var text := Convert(format[0], args, flags, min, max, maxlen).0;
      left := Conversion(format[0], args, flags, min, max, maxlen);
      Regroup(old(out), text, Pending(Convert, Default, format[1..], left, NO_FLAGS, 0, -1, currlen, maxlen));
    }

    /** One turn inside a directive. */
    method Read(maxlen: int, state0: State, rest0: string, args0: seq<Arg>, flags0: Flags, min0: int, max0: int)
      returns (state: State, rest: string, args: seq<Arg>, flags: Flags, min: int, max: int)
      requires rest0 != [] && currlen < maxlen && state0 != Default && state0 != AtConv
      ensures Pending(Convert, state, rest, args, flags, min, max, currlen, maxlen)
        == Pending(Convert, state0, rest0, args0, flags0, min0, max0, currlen, maxlen)
      ensures |rest| < |rest0| || (rest == rest0 && Rank(state) < Rank(state0))
    {
      state, rest, args, flags, min, max := state0, rest0, args0, flags0, min0, max0;
      var ch := rest[0];
      match state0
      case InFlags =>
        if IsFlag(ch) { flags, rest := AddFlag(flags, ch), rest[1..]; } else { state := InMin; }
      case InMin =>
        if IsDigit(ch) { min, rest := 10 * min + DigitValue(ch), rest[1..]; }
        else if ch == '*' { min, args, rest, state := NextInt(args), Rest(args), rest[1..], AtDot; }
        else { state := AtDot; }
      case AtDot =>
        if ch == '.' { state, rest := InMax, rest[1..]; } else { state := AtMod; }
      case InMax =>
        if IsDigit(ch) {
          if max < 0 { max := 0; }
          max, rest := 10 * max + DigitValue(ch), rest[1..];
        }
        else if ch == '*' { max, args, rest, state := NextInt(args), Rest(args), rest[1..], AtMod; }
        else { state := AtMod; }
      case AtMod =>
        if ch == 'h' || ch == 'l' || ch == 'L' { rest := rest[1..]; }
        state := AtConv;
    }

    /** Read the format and print, until it ends or `maxlen` characters are out. */
    method Dopr(maxlen: int, format: string, arguments: seq<Arg>)
      modifies this
      ensures out == old(out) + Pending(Convert, Default, format, arguments, NO_FLAGS, 0, -1, 0, maxlen)
    {
      var state, rest, args, flags, min, max := Default, format, arguments, NO_FLAGS, 0, -1;
      currlen := 0;
      while rest != [] && currlen < maxlen
        invariant out + Pending(Convert, state, rest, args, flags, min, max, currlen, maxlen)
          == old(out) + Pending(Convert, Default, format, arguments, NO_FLAGS, 0, -1, 0, maxlen)
        decreases |rest|, Rank(state)
      {
        state, rest, args, flags, min, max := Turn(maxlen, state, rest, args, flags, min, max);
      }
    }

    /** For a format made of items, the output is that of the simple formatter. */
    method Vsnprintf(maxlen: int, format: string, args: seq<Arg>, ghost items: seq<Item>)
      requires (forall i | 0 <= i < |items| :: WellFormed(items[i])) && format == RenderAll(items)
      modifies this
      ensures out == old(out) + Format(Convert, items, args, 0, maxlen)
      ensures old(out) <= out && Prints(items, args, 0, maxlen, out[|old(out)|..])
    {
      MachineFormats(Convert, items, args, 0, maxlen);
      FormatPrints(items, args, 0, maxlen, Format(Convert, items, args, 0, maxlen));
      Dopr(maxlen, format, args);
    }
  }
}
