/**
 What the directives of a format render (user/libc/src/stdio.cpp), read off the text they leave: numbers read back,
 strings and characters stand as they are, and formats follow one another, each taking its own arguments.
 */
module Formats {
  import opened Words
  import opened Stdio

  // ----- One format after another -----

  const ARGUMENT_SPECIFIERS: set<char> := {'c', 'd', 'i', 'p', 's', 'u', 'x', 'X'}

  /** The format does not end inside a directive. */
  predicate Complete(f: CString)
    decreases |f|
  {
    if f == "" then true
    else if f[0] != '%' then Complete(f[1..])
    else if |f| > 1 && f[1] == '%' then Complete(f[2..])
    else
      var size := LengthOf(f[1..]).1;
      1 + size < |f| && Complete(f[2 + size..])
  }

  /** How many arguments a format takes. */
  function Arity(f: CString): nat
    decreases |f|
  {
    if f == "" then 0
    else if f[0] != '%' then Arity(f[1..])
    else if |f| > 1 && f[1] == '%' then Arity(f[2..])
    else
      var size := LengthOf(f[1..]).1;
      if 1 + size < |f| then (if f[1 + size] in ARGUMENT_SPECIFIERS then 1 else 0) + Arity(f[2 + size..]) else 0
  }

  /** The arguments that are left when n are gone. */
  function From(arguments: Arguments, n: nat): Arguments {
    (k: nat) => arguments(n + k)
  }

  lemma {:induction false} ExpandFrom(directives: seq<Directive>, arguments: Arguments, n: nat, used: nat)
    ensures Expand(directives, arguments, n + used) == Expand(directives, From(arguments, n), used)
    decreases |directives|
  {
    hide Converted, TakesArgument;
    if directives != [] {
      match directives[0]
      case Plain(_) => ExpandFrom(directives[1..], arguments, n, used);
      case Conversion(_, specifier) =>
        ExpandFrom(directives[1..], arguments, n, if TakesArgument(specifier) then used + 1 else used);
    }
  }

  lemma TakersAreSpecifiers(specifier: char)
    ensures TakesArgument(specifier) <==> specifier in ARGUMENT_SPECIFIERS
  {
  }

  lemma LengthStays(f: string, g: string)
    requires LengthOf(f).1 < |f|
    ensures LengthOf(f + g) == LengthOf(f)
  {
  }

  /** The first directive of a complete format is the first one of every longer format. */
  lemma FirstDirective(f: CString, g: CString) returns (head: Directive, size: nat)
    requires f != "" && Complete(f)
    ensures 0 < size <= |f| && Complete(f[size..]) && Parse(f) == [head] + Parse(f[size..])
    ensures Parse(f + g) == [head] + Parse(f[size..] + g)
    ensures Arity(f) == Arity(f[size..]) + if head.Conversion? && head.specifier in ARGUMENT_SPECIFIERS then 1 else 0
  {
    var all: CString := f + g;
    if f[0] != '%' {
      head, size := Plain(f[0]), 1;
      assert all[1..] == f[1..] + g;
    } else if |f| > 1 && f[1] == '%' {
      head, size := Plain('%'), 2;
      assert all[2..] == f[2..] + g;
    } else {
      var length, n := LengthOf(f[1..]).0, LengthOf(f[1..]).1;
      assert all[1..] == f[1..] + g;
      LengthStays(f[1..], g);
      hide LengthOf;
      var rest: CString, more: CString := f[1 + n..], all[1 + n..];
      head, size := Conversion(length, f[1 + n]), 2 + n;
      assert rest[0] == f[1 + n] && rest[1..] == f[2 + n..];
      assert more[0] == f[1 + n] && more[1..] == f[2 + n..] + g;
    }
  }

  /** A complete format renders as it would alone, and what follows it renders from the arguments it leaves: the
      directives take the arguments in order, one each for those that take one. */
  lemma {:induction false} FormatsFollow(f: CString, g: CString, arguments: Arguments, used: nat)
    requires Complete(f)
    ensures Expand(Parse(f + g), arguments, used)
         == Expand(Parse(f), arguments, used) + Expand(Parse(g), From(arguments, used + Arity(f)), 0)
    decreases |f|
  {
    hide Parse, Converted, Complete, Arity, TakesArgument, From, Expand;
    if f == "" {
      assert f + g == g;
      ExpandFrom(Parse(g), arguments, used, 0);
      NothingToExpand(arguments, used);
    } else {
      var head, size := FirstDirective(f, g);
      var rest: CString := f[size..];
      var next := if head.Conversion? && head.specifier in ARGUMENT_SPECIFIERS then used + 1 else used;
      ExpandFirst(head, Parse(rest + g), arguments, used);
      ExpandFirst(head, Parse(rest), arguments, used);
      FormatsFollow(rest, g, arguments, next);
      hide ARGUMENT_SPECIFIERS;
      assert used + Arity(f) == next + Arity(rest);
    }
  }

  lemma NothingToExpand(arguments: Arguments, used: nat)
    ensures Expand(Parse(""), arguments, used) == "" && Arity("") == 0
  {
  }

  lemma ExpandFirst(head: Directive, tail: seq<Directive>, arguments: Arguments, used: nat)
    ensures var next := if head.Conversion? && head.specifier in ARGUMENT_SPECIFIERS then used + 1 else used;
            Expand([head] + tail, arguments, used) == DirectiveText(head, arguments(used)) + Expand(tail, arguments, next)
  {
    hide Converted, TakesArgument, ARGUMENT_SPECIFIERS;
    assert ([head] + tail)[1..] == tail;
    if head.Conversion? {
      TakersAreSpecifiers(head.specifier);
    }
  }

  function DirectiveText(head: Directive, a: Argument): string {
    match head
    case Plain(c) => [c]
    case Conversion(length, specifier) => Converted(length, specifier, a)
  }

  /** Around one directive. */
  lemma DirectiveInContext(prefix: CString, directive: CString, suffix: CString, arguments: Arguments)
    requires Complete(prefix) && Complete(directive)
    ensures Rendered(prefix + directive + suffix, arguments)
         == Rendered(prefix, arguments) + Rendered(directive, From(arguments, Arity(prefix)))
            + Rendered(suffix, From(From(arguments, Arity(prefix)), Arity(directive)))
  {
    hide Complete, Arity, Parse, Expand, From;
    assert prefix + directive + suffix == prefix + (directive + suffix);
    FormatsFollow(prefix, directive + suffix, arguments, 0);
    FormatsFollow(directive, suffix, From(arguments, Arity(prefix)), 0);
  }

  // ----- One directive -----

  const MODIFIERS: set<string> := {"", "l", "ll", "z"}

  /** A length modifier and a specifier that do not run into each other. */
  predicate Spells(modifier: string, specifier: char) {
    && modifier in MODIFIERS && specifier != NUL
    && !(modifier == "" && specifier in {'%', 'l', 'z'}) && !(modifier == "l" && specifier == 'l')
  }

  function DirectiveOf(modifier: string, specifier: char): CString
    requires Spells(modifier, specifier)
  {
    "%" + modifier + [specifier]
  }

  lemma DirectiveParses(modifier: string, specifier: char)
    requires Spells(modifier, specifier)
    ensures var length := if modifier == "" then DefaultLength else if modifier == "l" then LongLength
                          else if modifier == "ll" then LongLongLength else SizeLength;
            Parse(DirectiveOf(modifier, specifier)) == [Conversion(length, specifier)]
    ensures Complete(DirectiveOf(modifier, specifier))
    ensures Arity(DirectiveOf(modifier, specifier)) == if specifier in ARGUMENT_SPECIFIERS then 1 else 0
  {
    var f, n := DirectiveOf(modifier, specifier), |modifier|;
    assert f[1..] == modifier + [specifier];
    assert LengthOf(f[1..]).1 == n;
    var rest: CString := f[1 + n..];
    assert rest == [specifier] && f[2 + n..] == "" && rest[1..] == "";
    assert f[1 + n] == specifier;
    assert Parse("") == [] && Complete("") && Arity("") == 0;
    hide LengthOf;
  }

  /** The value of the argument: without a modifier an int, and so the low 32 bits. */
  function Bits(modifier: string): (r: nat)
    ensures r > 0
  {
    if modifier == "" then 0x1_0000_0000 else 0x1_0000_0000_0000_0000
  }

  /** v has the low bits of the word, and the range of their two's complement. */
  predicate TwosComplement(v: int, word: int, modifier: string) {
    var range: int := Bits(modifier);
    -range <= 2 * v < range && (word - v) % range == 0
  }

  /** Digits of the given alphabet, and no zero in front of others. */
  predicate IsNumeral(text: string, alphabet: string) {
    text != "" && (forall k :: 0 <= k < |text| ==> text[k] in alphabet) && (|text| > 1 ==> text[0] != '0')
  }

  const DECIMAL: string := "0123456789"
  const LOWER_HEX: string := "0123456789abcdef"
  const UPPER_HEX: string := "0123456789ABCDEF"

  function Alphabet(base: nat, uppercase: bool): string {
    if base == 10 then DECIMAL else if uppercase then UPPER_HEX else LOWER_HEX
  }

  lemma DigitInAlphabet(d: nat, base: nat, uppercase: bool)
    requires base in {10, 16} && d < base
    ensures Digit(d, uppercase) in Alphabet(base, uppercase)
  {
    assert Alphabet(base, uppercase)[d] == Digit(d, uppercase);
  }

  lemma {:induction false} NumeralInAlphabet(v: nat, base: nat, uppercase: bool)
    requires base in {10, 16}
    ensures forall k :: 0 <= k < |Numeral(v, base, uppercase)| ==> Numeral(v, base, uppercase)[k] in Alphabet(base, uppercase)
  {
    if v != 0 {
      NumeralInAlphabet(Rest(v, base), base, uppercase);
      DigitInAlphabet(LowDigit(v, base), base, uppercase);
      hide Digit, Alphabet, Rest, LowDigit;
    }
  }

  lemma UnsignedIsNumeral(v: nat, base: nat, uppercase: bool)
    requires base in {10, 16}
    ensures IsNumeral(Unsigned(v, base, uppercase), Alphabet(base, uppercase))
    ensures Value(Unsigned(v, base, uppercase), base) == v
  {
    NumeralInAlphabet(v, base, uppercase);
    UnsignedParsesBack(v, base, uppercase);
    assert Alphabet(base, uppercase)[0] == '0';
    hide Numeral, Value, Alphabet;
  }

  lemma RenderedDirective(modifier: string, specifier: char, arguments: Arguments)
    requires Spells(modifier, specifier)
    ensures var length := if modifier == "" then DefaultLength else if modifier == "l" then LongLength
                          else if modifier == "ll" then LongLongLength else SizeLength;
            Rendered(DirectiveOf(modifier, specifier), arguments) == Converted(length, specifier, arguments(0))
  {
    hide Parse, Converted, DirectiveOf;
    DirectiveParses(modifier, specifier);
    var directives := Parse(DirectiveOf(modifier, specifier));
    assert directives[1..] == [];
    var text := Converted(directives[0].length, specifier, arguments(0));
    assert text + "" == text;
  }

  /** %u, %x and %X: the argument's value, in decimal, or in hexadecimal of either case. */
  lemma UnsignedDirective(modifier: string, specifier: char, arguments: Arguments)
    requires modifier in MODIFIERS && specifier in {'u', 'x', 'X'}
    ensures var text := Rendered(DirectiveOf(modifier, specifier), arguments);
            var base := if specifier == 'u' then 10 else 16;
            && Value(text, base) == arguments(0).word % Bits(modifier)
            && IsNumeral(text, if specifier == 'u' then DECIMAL else if specifier == 'x' then LOWER_HEX else UPPER_HEX)
  {
    hide Rendered, Unsigned, Value, IsNumeral, DirectiveOf, UnsignedArgument, Bits;
    RenderedDirective(modifier, specifier, arguments);
    UnsignedBits(arguments(0).word, modifier);
    UnsignedIsNumeral(arguments(0).word % Bits(modifier), if specifier == 'u' then 10 else 16, specifier == 'X');
  }

  lemma UnsignedBits(word: u64, modifier: string)
    ensures UnsignedArgument(if modifier == "" then DefaultLength else if modifier == "l" then LongLength
                             else if modifier == "ll" then LongLongLength else SizeLength, word) == word % Bits(modifier)
  {
  }

  /** %d and %i: the two's complement value of the argument. */
  lemma SignedDirective(modifier: string, specifier: char, arguments: Arguments)
    requires modifier in MODIFIERS && specifier in {'d', 'i'}
    ensures var text := Rendered(DirectiveOf(modifier, specifier), arguments);
            var v := SignedValue(text);
            && TwosComplement(v, arguments(0).word, modifier)
            && text != "" && IsNumeral(if text[0] == '-' then text[1..] else text, DECIMAL)
  {
    hide Rendered, Signed, SignedValue, IsNumeral, DirectiveOf, ToSigned32, ToSigned64, TwosComplement;
    RenderedDirective(modifier, specifier, arguments);
    var word := arguments(0).word;
    var v: int := if modifier == "" then ToSigned32(word) else ToSigned64(word);
    SignedCongruent(word, modifier);
    IntegersParseBack(0, v, 10, false);
    SignedIsNumeral(v);
  }

  lemma SignedCongruent(word: u64, modifier: string)
    ensures var v := if modifier == "" then ToSigned32(word) else ToSigned64(word);
            TwosComplement(v, word, modifier)
  {
  }

  lemma SignedIsNumeral(v: int)
    ensures var text := Signed(v);
            text != "" && IsNumeral(if text[0] == '-' then text[1..] else text, DECIMAL)
  {
    hide Unsigned, IsNumeral, Value;
    UnsignedIsNumeral(if v < 0 then -v else v, 10, false);
    UnsignedParsesBack(if v < 0 then -v else v, 10, false);
    if v < 0 {
      assert Signed(v)[1..] == Unsigned(-v, 10, false);
    } else {
      assert Unsigned(v, 10, false)[0] in Unsigned(v, 10, false);
    }
  }

  /** %p: 0x and the whole word in hexadecimal. */
  lemma PointerDirective(modifier: string, arguments: Arguments)
    requires modifier in MODIFIERS
    ensures var text := Rendered(DirectiveOf(modifier, 'p'), arguments);
            && "0x" <= text && IsNumeral(text[2..], LOWER_HEX) && Value(text[2..], 16) == arguments(0).word
  {
    RenderedDirective(modifier, 'p', arguments);
    UnsignedIsNumeral(arguments(0).word, 16, false);
    hide Rendered, Unsigned, Value, IsNumeral, DirectiveOf;
    assert ("0x" + Unsigned(arguments(0).word, 16, false))[2..] == Unsigned(arguments(0).word, 16, false);
  }

  /** %s, %c, and a specifier that is none. */
  lemma TextDirectives(modifier: string, specifier: char, arguments: Arguments)
    requires Spells(modifier, specifier)
    ensures var text, a := Rendered(DirectiveOf(modifier, specifier), arguments), arguments(0);
            && (specifier == 's' && a.text.Some? ==> text == a.text.value)
            && (specifier == 's' && a.text.None? ==> text == "(null)")
            && (specifier == 'c' ==> |text| == 1 && text[0] as int == a.word % 256)
            && (specifier !in ARGUMENT_SPECIFIERS ==> text == ['%', specifier])
  {
    RenderedDirective(modifier, specifier, arguments);
    hide Rendered, DirectiveOf, Unsigned, Signed;
  }

  /** Characters that are no percent signs stand for themselves, two percent signs for one, and so does one that the
      format ends behind, a length modifier or not. */
  lemma PlainTexts(c: char, modifier: string, arguments: Arguments)
    requires c != NUL && c != '%' && modifier in MODIFIERS
    ensures Rendered([c], arguments) == [c] && Rendered("%%", arguments) == "%" && Rendered("", arguments) == ""
    ensures NUL !in "%" + modifier && Rendered("%" + modifier, arguments) == "%"
  {
    var f: CString := "%" + modifier;
    assert [c][1..] == "" && "%%"[2..] == "" && f[1..] == modifier && f[1 + |modifier|..] == "";
    assert LengthOf(modifier).1 == |modifier|;
    hide Converted, LengthOf;
    assert Parse("") == [];
    assert Parse([c]) == [Plain(c)];
    assert Parse("%%") == [Plain('%')];
    assert Parse(f) == [Plain('%')];
    hide Parse;
    assert forall d: char :: Expand([Plain(d)], arguments, 0) == [d] + Expand([], arguments, 0);
  }
}
