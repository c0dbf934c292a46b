/**
 Formatted output of the C library (user/libc/src/stdio.cpp): vsnprintf writes what a format and its arguments stand for
 into a buffer of any size and reports the full length; vprintf logs a bounded prefix.

 The x64 ABI is modelled: long, long long, size_t, ptrdiff_t and pointers are 64 bits wide, int is 32.
 */
module Stdio {
  import opened Words

  const NUL: char := '\0'
  const EINVAL: i32 := 22
  const LOG_BUFFER_CAPACITY: nat := 512
  const MAX_DIGITS: nat := 32

  /** A string in C's sense: NUL ends it and is not part of it. */
  type CString = s: string | NUL !in s

  /** A variadic argument: the 64-bit word that is passed, and the string at that address (None for a null pointer),
      which only %s looks at. */
  datatype Argument = Argument(word: u64, text: Option<CString>)

  /** The k-th variadic argument. */
  type Arguments = nat -> Argument

  datatype Length = DefaultLength | LongLength | LongLongLength | SizeLength

  datatype Directive = Plain(c: char) | Conversion(length: Length, specifier: char)

  // ----- Numerals -----

  function Digit(d: nat, uppercase: bool): char
    requires d < 16
  {
    if uppercase then "0123456789ABCDEF"[d] else "0123456789abcdef"[d]
  }

  function DigitValue(c: char): int {
    if '0' <= c <= '9' then c as int - '0' as int
    else if 'a' <= c <= 'f' then c as int - 'a' as int + 10
    else c as int - 'A' as int + 10
  }

  function Rest(v: nat, base: nat): (r: nat)
    requires 2 <= base <= 16
    ensures v != 0 ==> r < v
  {
    v / base
  }

  function LowDigit(v: nat, base: nat): (r: nat)
    requires 2 <= base <= 16
    ensures r < base
  {
    v % base
  }

  /** The number that ends in one more digit. */
  function Behind(high: int, base: nat, digit: int): int {
    high * base + digit
  }

  lemma Splits(v: nat, base: nat)
    requires 2 <= base <= 16
    ensures v == Behind(Rest(v, base), base, LowDigit(v, base))
  {
  }

  function Numeral(v: nat, base: nat, uppercase: bool): string
    requires 2 <= base <= 16
  {
    if v == 0 then "" else Numeral(Rest(v, base), base, uppercase) + [Digit(LowDigit(v, base), uppercase)]
  }

  function Unsigned(v: nat, base: nat, uppercase: bool): string
    requires 2 <= base <= 16
  {
    if v == 0 then "0" else Numeral(v, base, uppercase)
  }

  function Signed(v: int): string {
    if v < 0 then "-" + Unsigned(-v, 10, false) else Unsigned(v, 10, false)
  }

  /** The number a row of digits stands for. */
  function Value(digits: string, base: nat): int {
    if digits == "" then 0
    else Behind(Value(digits[..|digits| - 1], base), base, DigitValue(digits[|digits| - 1]))
  }

  function SignedValue(text: string): int {
    if text != "" && text[0] == '-' then -Value(text[1..], 10) else Value(text, 10)
  }

  lemma DigitParses(d: nat, uppercase: bool)
    requires d < 16
    ensures DigitValue(Digit(d, uppercase)) == d && Digit(d, uppercase) != '-' && Digit(d, uppercase) != NUL
    ensures Digit(d, uppercase) == '0' <==> d == 0
  {
    assert d in {0, 1, 2, 3, 4, 5, 6, 7, 8, 9, 10, 11, 12, 13, 14, 15};
  }

  lemma {:induction false} NumeralParses(v: nat, base: nat, uppercase: bool)
    requires 2 <= base <= 16
    ensures Value(Numeral(v, base, uppercase), base) == v
    ensures v != 0 ==> Numeral(v, base, uppercase) != "" && Numeral(v, base, uppercase)[0] != '0'
    ensures '-' !in Numeral(v, base, uppercase)
  {
    if v != 0 {
      NumeralParses(Rest(v, base), base, uppercase);
      Splits(v, base);
      DigitParses(LowDigit(v, base), uppercase);
      hide Digit, DigitValue, Rest, LowDigit, Behind;
      var front := Numeral(Rest(v, base), base, uppercase);
      var text := front + [Digit(LowDigit(v, base), uppercase)];
      assert text[..|front|] == front;
      if Rest(v, base) != 0 {
        assert text[0] == front[0];
      }
    }
  }

  lemma UnsignedParsesBack(v: nat, base: nat, uppercase: bool)
    requires 2 <= base <= 16
    ensures Value(Unsigned(v, base, uppercase), base) == v
    ensures Unsigned(v, base, uppercase) != "" && '-' !in Unsigned(v, base, uppercase)
    ensures v != 0 ==> Unsigned(v, base, uppercase)[0] != '0'
  {
    NumeralParses(v, base, uppercase);
    hide Numeral, Digit;
    if v == 0 {
      assert "0"[..0] == "";
      assert Value("", base) == 0;
    } else {
      hide Value;
    }
  }

  /** Printed integers read back as themselves, without leading zeros, down to the least 64-bit integer. */
  lemma IntegersParseBack(v: nat, w: int, base: nat, uppercase: bool)
    requires base == 10 || base == 16
    ensures Value(Unsigned(v, base, uppercase), base) == v
    ensures v != 0 ==> Unsigned(v, base, uppercase)[0] != '0'
    ensures SignedValue(Signed(w)) == w
  {
    UnsignedParsesBack(v, base, uppercase);
    UnsignedParsesBack(if w < 0 then -w else w, 10, false);
    hide Unsigned, Value;
    if w < 0 {
      assert Signed(w)[1..] == Unsigned(-w, 10, false);
    } else {
      assert Unsigned(w, 10, false)[0] in Unsigned(w, 10, false);
    }
  }

  function Pow10(k: nat): nat {
    if k == 0 then 1 else 10 * Pow10(k - 1)
  }

  lemma Quotient(v: nat, base: nat, bound: nat)
    requires 10 <= base <= 16 && v < 10 * bound
    ensures Rest(v, base) < bound
  {
    var q, r := v / base, v % base;
    assert v == base * q + r;
    assert base * q >= 10 * q;
  }

  lemma {:induction false} NumeralLength(v: nat, base: nat, uppercase: bool, k: nat)
    requires 10 <= base <= 16 && v < Pow10(k)
    ensures |Numeral(v, base, uppercase)| <= k
    decreases k
  {
    if v != 0 && k != 0 {
      Quotient(v, base, Pow10(k - 1));
      NumeralLength(Rest(v, base), base, uppercase, k - 1);
    }
  }

  lemma WordNumeralLength(v: u64, base: nat, uppercase: bool)
    requires 10 <= base <= 16
    ensures |Numeral(v, base, uppercase)| <= 20
  {
    assert Pow10(4) == 10000;
    assert Pow10(8) == 10000_0000;
    assert Pow10(12) == 10000_0000_0000;
    assert Pow10(16) == 10000_0000_0000_0000;
    assert Pow10(20) == 10000_0000_0000_0000_0000;
    NumeralLength(v, base, uppercase, 20);
  }

  // ----- What a format stands for -----

  /** The length modifier at the head of a directive, and how many characters it takes. */
  function LengthOf(format: string): (r: (Length, nat))
    ensures r.1 <= |format|
  {
    if format == "" then (DefaultLength, 0)
    else if format[0] == 'l' then
      if |format| > 1 && format[1] == 'l' then (LongLongLength, 2) else (LongLength, 1)
    else if format[0] == 'z' then (SizeLength, 1)
    else (DefaultLength, 0)
  }

  /** A format as directives. A percent sign that the format ends before its specifier is put out by itself. */
  function Parse(format: CString): seq<Directive>
    decreases |format|
  {
    if format == "" then []
    else if format[0] != '%' then [Plain(format[0])] + Parse(format[1..])
    else if |format| > 1 && format[1] == '%' then [Plain('%')] + Parse(format[2..])
    else
      var (length, size) := LengthOf(format[1..]);
      var rest := format[1 + size..];
      if rest == "" then [Plain('%')] else [Conversion(length, rest[0])] + Parse(rest[1..])
  }

  predicate TakesArgument(specifier: char) {
    specifier in "cdipsuxX"
  }

  /** A default-length integer is an int: the low 32 bits of what was passed. */
  function UnsignedArgument(length: Length, word: u64): u64 {
    if length == DefaultLength then Wrap32(word) else word
  }

  function SignedArgument(length: Length, word: u64): i64 {
    if length == DefaultLength then ToSigned32(word) else ToSigned64(word)
  }

  function TextOf(text: Option<CString>): CString {
    match text
    case None => "(null)"
    case Some(s) => s
  }

  function Converted(length: Length, specifier: char, a: Argument): string {
    match specifier
    case 'c' => [(a.word % 256) as char]
    case 'd' => Signed(SignedArgument(length, a.word))
    case 'i' => Signed(SignedArgument(length, a.word))
    case 'p' => "0x" + Unsigned(a.word, 16, false)
    case 's' => TextOf(a.text)
    case 'u' => Unsigned(UnsignedArgument(length, a.word), 10, false)
    case 'x' => Unsigned(UnsignedArgument(length, a.word), 16, false)
    case 'X' => Unsigned(UnsignedArgument(length, a.word), 16, true)
    case _ => ['%', specifier]
  }

  /** The text of the directives when the first `used` arguments are gone. */
  function Expand(directives: seq<Directive>, arguments: Arguments, used: nat): string {
    if directives == [] then ""
    else
      match directives[0]
      case Plain(c) => [c] + Expand(directives[1..], arguments, used)
      case Conversion(length, specifier) =>
        Converted(length, specifier, arguments(used))
        + Expand(directives[1..], arguments, if TakesArgument(specifier) then used + 1 else used)
  }

  function Rendered(format: CString, arguments: Arguments): string {
    Expand(Parse(format), arguments, 0)
  }

  /** s with every percent sign doubled. */
  function Escaped(s: CString): CString {
    if s == "" then ""
    else (if s[0] == '%' then "%%" else [s[0]]) + Escaped(s[1..])
  }

  /** Any text can be printed: doubling its percent signs makes a format that renders as the text itself. */
  lemma {:induction false} EscapedTextRendersAsItself(s: CString, arguments: Arguments)
    ensures Rendered(Escaped(s), arguments) == s
  {
    if s != "" {
      EscapedTextRendersAsItself(s[1..], arguments);
      var head: CString := if s[0] == '%' then "%%" else [s[0]];
      assert Escaped(s)[|head|..] == Escaped(s[1..]);
      assert Parse(Escaped(s)) == [Plain(s[0])] + Parse(Escaped(s[1..]));
      hide Parse, Escaped;
      assert Parse(Escaped(s))[1..] == Parse(Escaped(s[1..]));
    }
  }

  // ----- Bounded output -----

  function Min(a: int, b: int): int {
    if a < b then a else b
  }

  /** The C string at the head of a buffer. */
  function UpToNul(s: string): CString {
    if s == "" || s[0] == NUL then "" else [s[0]] + UpToNul(s[1..])
  }

  lemma {:induction false} UpToNulEnds(s: string, rest: string)
    ensures UpToNul(s + [NUL] + rest) == UpToNul(s)
  {
    var whole := s + [NUL] + rest;
    if s != "" && s[0] != NUL {
      UpToNulEnds(s[1..], rest);
      assert whole[1..] == s[1..] + [NUL] + rest;
    }
  }

  lemma Grows(text: string, more: string)
    ensures text + more[..0] == text && text + more[..|more|] == text + more
    ensures forall i {:trigger more[i]} :: 0 <= i < |more| ==> text + more[..i + 1] == text + more[..i] + [more[i]]
  {
    assert more[..|more|] == more;
    forall i | 0 <= i < |more| ensures text + more[..i + 1] == text + more[..i] + [more[i]] {
      assert more[..i + 1] == more[..i] + [more[i]];
    }
  }

  /** The digit that division takes off a number is the last of those that are left of its numeral. */
  lemma LastDigit(rest: nat, base: nat, uppercase: bool, numeral: string, count: nat)
    requires 2 <= base <= 16 && rest != 0
    requires count <= |numeral| && Numeral(rest, base, uppercase) == numeral[..|numeral| - count]
    ensures count < |numeral| && numeral[|numeral| - 1 - count] == Digit(LowDigit(rest, base), uppercase)
    ensures Numeral(Rest(rest, base), base, uppercase) == numeral[..|numeral| - 1 - count]
  {
    hide Digit, Rest, LowDigit;
    var left := numeral[..|numeral| - count];
    assert left == Numeral(Rest(rest, base), base, uppercase) + [Digit(LowDigit(rest, base), uppercase)];
    assert left[..|left| - 1] == numeral[..|numeral| - 1 - count];
  }

  /** The digits of a number, the low one first. */
  method CollectDigits(value: u64, base: u32, uppercase: bool) returns (digits: array<char>, count: nat)
    requires base == 10 || base == 16
    ensures fresh(digits) && count == |Numeral(value, base, uppercase)| <= digits.Length
    ensures forall k :: 0 <= k < count ==> digits[k] == Numeral(value, base, uppercase)[count - 1 - k]
  {
    ghost var numeral := Numeral(value, base, uppercase);
    WordNumeralLength(value, base, uppercase);
    assert Numeral(0, base, uppercase) == "";
    hide Digit, Numeral, Rest, LowDigit;
    digits, count := new char[MAX_DIGITS], 0;
    var rest: nat := value;
    while rest != 0
      invariant count <= |numeral| <= 20
      invariant Numeral(rest, base, uppercase) == numeral[..|numeral| - count]
      invariant forall k :: 0 <= k < count ==> digits[k] == numeral[|numeral| - 1 - k]
    {
      LastDigit(rest, base, uppercase, numeral, count);
      digits[count] := Digit(LowDigit(rest, base), uppercase);
      rest := Rest(rest, base);
      count := count + 1;
    }
  }

  /** The cursor, the room left and the running total that the append functions pass around, over one caller's buffer. */
  class Output {
    const buffer: array?<char>
    const size: u64
    ghost const initial: string
    var cursor: nat
    var remaining: nat
    var total: nat

    ghost predicate Valid()
      reads this
    {
      (buffer == null ==> size == 0) && (buffer != null ==> size <= buffer.Length == |initial|)
    }

    /** What was appended so far is counted in full, and its beginning, with one place kept for the NUL, is in the buffer,
        whose other places are untouched. */
    ghost predicate Has(text: string)
      requires Valid()
      reads this, buffer
    {
      && total == |text|
      && remaining == (if |text| < size then size - |text| else 0)
      && cursor == (if size == 0 then 0 else Min(|text|, size - 1))
      && (buffer != null ==> buffer[..cursor] == text[..cursor] && buffer[cursor..] == initial[cursor..])
    }

    constructor (buffer: array?<char>, size: u64)
      requires buffer == null ==> size == 0
      requires buffer != null ==> size <= buffer.Length
      ensures Valid() && this.buffer == buffer && this.size == size && Has("")
      ensures buffer != null ==> initial == buffer[..]
    {
      this.buffer, this.size := buffer, size;
      initial := if buffer == null then "" else buffer[..];
      cursor, remaining, total := 0, size, 0;
    }

    method AppendCharacter(value: char, ghost text: string)
      requires Valid() && Has(text)
      modifies this, buffer
      ensures Valid() && Has(text + [value])
    {
      if remaining > 1 {
        buffer[cursor] := value;
        cursor := cursor + 1;
      }
      if remaining > 0 {
        remaining := remaining - 1;
      }
      total := total + 1;
    }

    method AppendString(value: Option<CString>, ghost text: string)
      requires Valid() && Has(text)
      modifies this, buffer
      ensures Valid() && Has(text + TextOf(value))
    {
      var current := match value case None => "(null)" case Some(s) => s;
      hide Has;
      Grows(text, current);
      var i := 0;
      while i < |current|
        invariant 0 <= i <= |current| && Valid() && Has(text + current[..i])
      {
        AppendCharacter(current[i], text + current[..i]);
        i := i + 1;
      }
    }

    method AppendUnsignedValue(value: u64, base: u32, uppercase: bool, ghost text: string)
      requires Valid() && Has(text) && (base == 10 || base == 16)
      modifies this, buffer
      ensures Valid() && Has(text + Unsigned(value, base, uppercase))
    {
      hide Has;
      if value == 0 {
        AppendCharacter('0', text);
        return;
      }
      ghost var numeral := Numeral(value, base, uppercase);
      assert Unsigned(value, base, uppercase) == numeral;
      hide Unsigned, Numeral;
      var digits, count := CollectDigits(value, base, uppercase);
      Grows(text, numeral);
      while count > 0
        invariant 0 <= count <= |numeral|
        invariant Valid() && Has(text + numeral[..|numeral| - count])
        modifies this, buffer
      {
        count := count - 1;
        ghost var done := |numeral| - 1 - count;
        AppendCharacter(digits[count], text + numeral[..done]);
      }
    }

    method AppendSignedValue(value: i64, ghost text: string)
      requires Valid() && Has(text)
      modifies this, buffer
      ensures Valid() && Has(text + Signed(value))
    {
      hide Has;
      if value < 0 {
        AppendCharacter('-', text);
        var almost: i64 := -(value + 1);
        var magnitude: u64 := almost + 1;
        AppendUnsignedValue(magnitude, 10, false, text + "-");
        assert text + "-" + Unsigned(magnitude, 10, false) == text + ("-" + Unsigned(magnitude, 10, false));
      } else {
        AppendUnsignedValue(value, 10, false, text);
      }
    }

    /** One conversion; `used` counts the arguments taken. */
    method Convert(length: Length, specifier: char, arguments: Arguments, used: nat, ghost text: string)
      returns (taken: nat)
      requires Valid() && Has(text)
      modifies this, buffer
      ensures Valid() && Has(text + Converted(length, specifier, arguments(used)))
      ensures taken == if TakesArgument(specifier) then used + 1 else used
    {
      hide Has, Signed, Unsigned, SignedArgument, UnsignedArgument;
      var a := arguments(used);
      taken := used + 1;
      match specifier {
        case 'c' => AppendCharacter((a.word % 256) as char, text);
        case 'd' => AppendSignedValue(SignedArgument(length, a.word), text);
        case 'i' => AppendSignedValue(SignedArgument(length, a.word), text);
        case 'p' =>
          AppendString(Some("0x"), text);
          AppendUnsignedValue(a.word, 16, false, text + "0x");
          assert text + "0x" + Unsigned(a.word, 16, false) == text + ("0x" + Unsigned(a.word, 16, false));
        case 's' => AppendString(a.text, text);
        case 'u' => AppendUnsignedValue(UnsignedArgument(length, a.word), 10, false, text);
        case 'x' => AppendUnsignedValue(UnsignedArgument(length, a.word), 16, false, text);
        case 'X' => AppendUnsignedValue(UnsignedArgument(length, a.word), 16, true, text);
        case _ =>
          taken := used;
          AppendCharacter('%', text);
          AppendCharacter(specifier, text + "%");
          assert text + "%" + [specifier] == text + ['%', specifier];
      }
    }

    /** The NUL goes behind the stored characters. */
    method Terminate(ghost text: string)
      requires Valid() && Has(text)
      modifies buffer
      ensures size != 0 ==>
                var stored := Min(|text|, size - 1);
                buffer[..] == text[..stored] + [NUL] + initial[stored + 1..]
      ensures buffer != null && size == 0 ==> buffer[..] == initial
    {
      if size != 0 {
        if remaining > 0 {
          buffer[cursor] := NUL;
        } else {
          buffer[size - 1] := NUL;
        }
        assert buffer[..] == text[..cursor] + [NUL] + initial[cursor + 1..];
      }
    }
  }

  /** The character at a position of a C string; the NUL is at its length. */
  function At(s: CString, i: nat): char
    requires i <= |s|
  {
    if i < |s| then s[i] else NUL
  }

  method ParseFormatLength(format: CString, at: nat) returns (length: Length, next: nat)
    requires at <= |format|
    ensures LengthOf(format[at..]) == (length, next - at) && at <= next <= |format|
  {
    next := at;
    if At(format, next) == 'l' {
      next := next + 1;
      if At(format, next) == 'l' {
        next := next + 1;
        return LongLongLength, next;
      }
      return LongLength, next;
    }
    if At(format, next) == 'z' {
      next := next + 1;
      return SizeLength, next;
    }
    return DefaultLength, next;
  }

  /** The text up to `at` is out; the rest of the format still stands for the rest of the text. */
  ghost predicate Remains(format: CString, arguments: Arguments, at: nat, used: nat, text: string)
    requires at <= |format|
  {
    text + Expand(Parse(format[at..]), arguments, used) == Rendered(format, arguments)
  }

  lemma PlainStep(format: CString, arguments: Arguments, at: nat, next: nat, used: nat, text: string, c: char)
    requires at < next <= |format| && Remains(format, arguments, at, used, text)
    requires Parse(format[at..]) == [Plain(c)] + Parse(format[next..])
    ensures Remains(format, arguments, next, used, text + [c])
  {
    var tail := Parse(format[next..]);
    assert ([Plain(c)] + tail)[1..] == tail;
    hide Parse;
    assert text + ([c] + Expand(tail, arguments, used)) == text + [c] + Expand(tail, arguments, used);
  }

  lemma ConversionStep(format: CString, arguments: Arguments, at: nat, next: nat, used: nat, text: string,
                       length: Length, specifier: char)
    requires at < next <= |format| && Remains(format, arguments, at, used, text)
    requires Parse(format[at..]) == [Conversion(length, specifier)] + Parse(format[next..])
    ensures Remains(format, arguments, next, if TakesArgument(specifier) then used + 1 else used,
                    text + Converted(length, specifier, arguments(used)))
  {
    hide Converted, Parse, TakesArgument;
    var tail := Parse(format[next..]);
    var converted := Converted(length, specifier, arguments(used));
    var after := Expand(tail, arguments, if TakesArgument(specifier) then used + 1 else used);
    assert ([Conversion(length, specifier)] + tail)[1..] == tail;
    assert Expand([Conversion(length, specifier)] + tail, arguments, used) == converted + after;
    hide Expand;
    assert text + (converted + after) == text + converted + after;
  }

  /** How the directive at `at` reads when its length modifier ends at `specifierAt`. */
  lemma DirectiveAt(format: CString, at: nat, length: Length, specifierAt: nat)
    requires at + 1 <= specifierAt <= |format| && format[at] == '%' && At(format, at + 1) != '%'
    requires LengthOf(format[at + 1..]) == (length, specifierAt - at - 1)
    ensures specifierAt == |format| ==> Parse(format[at..]) == [Plain('%')] + Parse(format[|format|..])
    ensures specifierAt < |format| ==>
              Parse(format[at..]) == [Conversion(length, format[specifierAt])] + Parse(format[specifierAt + 1..])
  {
    var here: CString := format[at..];
    assert here[1..] == format[at + 1..];
    assert here[1 + (specifierAt - at - 1)..] == format[specifierAt..];
    hide LengthOf;
    if specifierAt < |format| {
      assert format[specifierAt..][1..] == format[specifierAt + 1..];
    }
  }

  lemma PlainAt(format: CString, at: nat)
    requires at < |format|
    ensures format[at] != '%' ==> Parse(format[at..]) == [Plain(format[at])] + Parse(format[at + 1..])
    ensures format[at] == '%' && At(format, at + 1) == '%' ==>
              Parse(format[at..]) == [Plain('%')] + Parse(format[at + 2..])
  {
    var here: CString := format[at..];
    assert here[1..] == format[at + 1..];
    if |here| > 1 {
      assert here[2..] == format[at + 2..];
    }
  }

  /** One turn of the loop over the format: a character, an escaped percent sign or a conversion. */
  method PrintDirective(output: Output, format: CString, arguments: Arguments, at: nat, used: nat, ghost text: string)
    returns (next: nat, taken: nat, ghost after: string)
    requires at < |format| && Remains(format, arguments, at, used, text)
    requires output.Valid() && output.Has(text)
    modifies output, output.buffer
    ensures at < next <= |format| && Remains(format, arguments, next, taken, after)
    ensures output.Valid() && output.Has(after)
  {
    hide Parse, Expand, Converted, output.Has, Remains, Rendered, LengthOf, TakesArgument;
    PlainAt(format, at);
    next, taken := at + 1, used;
    if format[at] != '%' {
      output.AppendCharacter(format[at], text);
      PlainStep(format, arguments, at, next, used, text, format[at]);
      after := text + [format[at]];
      return;
    }
    if At(format, next) == '%' {
      output.AppendCharacter('%', text);
      next := next + 1;
      PlainStep(format, arguments, at, next, used, text, '%');
      after := text + ['%'];
      return;
    }
    var length;
    length, next := ParseFormatLength(format, next);
    DirectiveAt(format, at, length, next);
    if At(format, next) == NUL {
      // The source steps back and forth over the last character here; the cursor ends on the NUL.
      output.AppendCharacter('%', text);
      PlainStep(format, arguments, at, next, used, text, '%');
      after := text + ['%'];
      return;
    }
    var specifier := format[next];
    next := next + 1;
    ConversionStep(format, arguments, at, next, used, text, length, specifier);
    taken := output.Convert(length, specifier, arguments, used, text);
    after := text + Converted(length, specifier, arguments(used));
  }

  /** vsnprintf: the result is the full length of the text, the buffer holds as much of its beginning as fits and a NUL,
      and nothing else in the buffer changes; without a format, or without a buffer to write to, it fails. */
  method Vsnprintf(buffer: array?<char>, size: u64, format: Option<CString>, arguments: Arguments)
    returns (result: int, errno: Option<i32>)
    requires buffer != null ==> size <= buffer.Length
    modifies buffer
    ensures format.None? || (buffer == null && size != 0) ==>
              result == -1 && errno == Some(EINVAL) && (buffer != null ==> buffer[..] == old(buffer[..]))
    ensures format.Some? && (buffer == null ==> size == 0) ==>
              result == |Rendered(format.value, arguments)| && errno == None
    ensures format.Some? && buffer != null && size != 0 ==>
              var text := Rendered(format.value, arguments);
              var stored := Min(|text|, size - 1);
              buffer[..] == text[..stored] + [NUL] + old(buffer[..])[stored + 1..]
    ensures format.Some? && buffer != null && size == 0 ==> buffer[..] == old(buffer[..])
  {
    if format.None? || (buffer == null && size != 0) {
      return -1, Some(EINVAL);
    }
    var f: CString := format.value;
    var output := new Output(buffer, size);
    var used, at := 0, 0;
    ghost var text := "";
    assert Remains(f, arguments, 0, 0, "") by {
      assert f[0..] == f;
    }
    hide output.Has, Remains, Rendered;
    while At(f, at) != NUL
      invariant at <= |f|
      invariant output.Valid() && output.Has(text)
      invariant Remains(f, arguments, at, used, text)
      decreases |f| - at
    {
      at, used, text := PrintDirective(output, f, arguments, at, used, text);
    }
    AllOut(f, arguments, used, text);
    output.Terminate(text);
    result, errno := output.total, None;
  }

  lemma AllOut(format: CString, arguments: Arguments, used: nat, text: string)
    requires Remains(format, arguments, |format|, used, text)
    ensures text == Rendered(format, arguments)
  {
    assert format[|format|..] == "";
    assert text + "" == text;
  }

  /** vprintf: what is handed to the debug-log call, whose answer is ignored, is the beginning of the text, at most 511
      characters and none from a NUL on. */
  method Vprintf(format: Option<CString>, arguments: Arguments) returns (result: int, logged: Option<CString>)
    ensures format.None? ==> result == -1 && logged == None
    ensures format.Some? ==>
              var text := Rendered(format.value, arguments);
              && result == |text|
              && logged == Some(UpToNul(text[..Min(|text|, LOG_BUFFER_CAPACITY - 1)]))
  {
    var buffer := new char[LOG_BUFFER_CAPACITY];
    hide Rendered, UpToNul;
    ghost var initial := buffer[..];
    var errno;
    result, errno := Vsnprintf(buffer, LOG_BUFFER_CAPACITY, format, arguments);
    if result < 0 {
      return result, None;
    }
    logged := Some(UpToNul(buffer[..]));
    ghost var stored := Min(|Rendered(format.value, arguments)|, LOG_BUFFER_CAPACITY - 1);
    UpToNulEnds(Rendered(format.value, arguments)[..stored], initial[stored + 1..]);
  }

  lemma {:induction false} NothingCut(s: CString)
    ensures UpToNul(s) == s
  {
    if s != "" {
      NothingCut(s[1..]);
    }
  }
}
