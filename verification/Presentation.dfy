/** Text for a terminal that must read back exactly: a command to paste into a shell, and ages
    computed digit by digit. */
module Presentation {
  import opened Basics
  import opened Identity
  import opened Texts
  import JsonText

  // ----- A command line -----

  /** Characters a terminal may show as nothing, or as something else. */
  const HIDDEN: seq<(int, int)> := [
    (0x2028, 0x2029), (0xe000, 0xf8ff), (0xf0000, 0xffffd), (0x100000, 0x10fffd), (0xad, 0xad), (0x600, 0x605),
    (0x61c, 0x61c), (0x6dd, 0x6dd), (0x70f, 0x70f), (0x890, 0x891), (0x8e2, 0x8e2), (0x180e, 0x180e),
    (0x200b, 0x200f), (0x202a, 0x202e), (0x2060, 0x2064), (0x2066, 0x206f), (0xfeff, 0xfeff), (0xfff9, 0xfffb),
    (0x110bd, 0x110bd), (0x110cd, 0x110cd), (0x13430, 0x1343f), (0x1bca0, 0x1bca3), (0x1d173, 0x1d17a),
    (0xe0001, 0xe0001), (0xe0020, 0xe007f)]

  predicate InRanges(c: int, ranges: seq<(int, int)>)
  {
    ranges != [] && (ranges[0].0 <= c <= ranges[0].1 || InRanges(c, ranges[1..]))
  }

  predicate TerminalSafe(c: char)
  {
    c == ' ' || !(IsControl(c) || IsWhite(c) || InRanges(c as int, HIDDEN))
  }

  predicate AllSafe(s: string) { s == "" || (TerminalSafe(s[0]) && AllSafe(s[1..])) }

  /** Characters that mean themselves to a shell. */
  predicate IsPlain(c: char)
  {
    IsAlphanumeric(c) || c == '_' || c == '@' || c == '%' || c == '+' || c == '=' || c == ':' || c == ',' || c == '.'
    || c == '/' || c == '-'
  }

  predicate AllPlain(s: string) { s == "" || (IsPlain(s[0]) && AllPlain(s[1..])) }

  /** A single quote inside single quotes: out of them, quoted by double ones, and back in. */
  const QUOTED_QUOTE := "'\"'\"'"

  function EscapeQuotes(s: string): string
  {
    if s == "" then "" else (if s[0] == '\'' then QUOTED_QUOTE else [s[0]]) + EscapeQuotes(s[1..])
  }

  function Quoted(arg: string): string
  {
    if AllPlain(arg) then arg else "'" + (EscapeQuotes(arg) + "'")
  }

  function JoinSpaces(words: seq<string>): string
  {
    if words == [] then "" else if |words| == 1 then words[0] else words[0] + (" " + JoinSpaces(words[1..]))
  }

  function QuoteAll(args: seq<string>): seq<string>
  {
    if args == [] then [] else [Quoted(args[0])] + QuoteAll(args[1..])
  }

  predicate Showable(args: seq<string>)
  {
    args == [] || (args[0] != "" && AllSafe(args[0]) && Showable(args[1..]))
  }

  /** The command line, or none when it cannot be shown in full and as it is. */
  function CommandOf(args: seq<string>): Option<string>
  {
    if args == [] || |args| > 64 || !Showable(args) || |JoinSpaces(QuoteAll(args))| > 2048 then None
    else Some(JoinSpaces(QuoteAll(args)))
  }

  lemma {:induction false} ShowableAppend(args: seq<string>, last: string)
    ensures Showable(args + [last]) <==> Showable(args) && last != "" && AllSafe(last)
    ensures QuoteAll(args + [last]) == QuoteAll(args) + [Quoted(last)]
  {
    if args != [] {
      ShowableAppend(args[1..], last);
      assert (args + [last])[1..] == args[1..] + [last];
    } else {
      assert [last][1..] == [];
    }
  }

  lemma {:induction false} ShowablePrefix(args: seq<string>, n: nat)
    requires Showable(args) && n <= |args|
    ensures Showable(args[..n])
  {
    if n > 0 {
      ShowablePrefix(args[1..], n - 1);
      assert args[..n][1..] == args[1..][..n - 1];
    }
  }

  method Command(args: seq<string>) returns (r: Option<string>)
    ensures r == CommandOf(args)
  {
    if args == [] || |args| > 64 {
      return None;
    }
    var result: seq<string> := [];
    for i := 0 to |args|
      invariant Showable(args[..i]) && result == QuoteAll(args[..i])
    {
      assert args[..i + 1] == args[..i] + [args[i]];
      ShowableAppend(args[..i], args[i]);
      if args[i] == "" || !AllSafe(args[i]) {
        if Showable(args) {
          ShowablePrefix(args, i + 1);
        }
        return None;
      }
      result := result + [Quoted(args[i])];
    }
    assert args[..|args|] == args;
    var joined := JoinSpaces(result);
    return if |joined| <= 2048 then Some(joined) else None;
  }

  // ----- Reading a command line: POSIX.1-2017, Shell Command Language, section 2.2 -----

  datatype Mode = Between | Bare | InSingle | InDouble

  /** Characters that, unquoted, are not just themselves: they end a word, start an expansion or a
      comment, or take part in an operator or a pattern. */
  predicate IsSpecial(c: char)
  {
    || c == '|' || c == '&' || c == ';' || c == '<' || c == '>' || c == '(' || c == ')' || c == '$' || c == '`'
    || c == '\\' || c == '"' || c == '\'' || c == ' ' || c == '\t' || c == '\n' || c == '*' || c == '?' || c == '['
    || c == ']' || c == '#' || c == '~' || c == '{' || c == '}' || c == '!' || c == '^'
  }

  /** What a backslash quotes inside double quotes. */
  predicate IsEscapable(c: char) { c == '$' || c == '`' || c == '"' || c == '\\' }

  predicate IsBlank(c: char) { c == ' ' || c == '\t' }

  /** The words of a line; none when a quote is left open, or where more than quoting would be
      at work. Inside single quotes everything is itself. Inside double quotes everything but
      the dollar sign, the backquote and the backslash is. */
  function ReadWords(text: string, mode: Mode, word: string): Option<seq<string>>
    decreases |text|
  {
    if text == "" then
      match mode
      case Between => Some([])
      case Bare => Some([word])
      case _ => None
    else
      var c, rest := text[0], text[1..];
      match mode
      case InSingle => if c == '\'' then ReadWords(rest, Bare, word) else ReadWords(rest, InSingle, word + [c])
      case InDouble =>
        if c == '"' then ReadWords(rest, Bare, word)
        else if c == '$' || c == '`' then None
        else if c == '\\' && rest != "" && IsEscapable(rest[0]) then ReadWords(rest[1..], InDouble, word + [rest[0]])
        else ReadWords(rest, InDouble, word + [c])
      case Between =>
        if IsBlank(c) then ReadWords(rest, Between, "")
        else if c == '\'' then ReadWords(rest, InSingle, word)
        else if c == '"' then ReadWords(rest, InDouble, word)
        else if c == '\\' && rest != "" && rest[0] != '\n' then ReadWords(rest[1..], Bare, word + [rest[0]])
        else if IsSpecial(c) then None
        else ReadWords(rest, Bare, word + [c])
      case Bare =>
        if IsBlank(c) then Prepend(word, ReadWords(rest, Between, ""))
        else if c == '\'' then ReadWords(rest, InSingle, word)
        else if c == '"' then ReadWords(rest, InDouble, word)
        else if c == '\\' && rest != "" && rest[0] != '\n' then ReadWords(rest[1..], Bare, word + [rest[0]])
        else if IsSpecial(c) then None
        else ReadWords(rest, Bare, word + [c])
  }

  function Prepend(word: string, words: Option<seq<string>>): Option<seq<string>>
  {
    if words.Some? then Some([word] + words.value) else None
  }

  function SplitWords(text: string): Option<seq<string>> { ReadWords(text, Between, "") }

  lemma PlainIsItself(c: char)
    requires IsPlain(c)
    ensures !IsSpecial(c) && !IsBlank(c)
  {
    if c == ',' || c == '/' || c == '=' || c == '_' || c == '@' {
      assert !IsSpecial(c);
    } else if c == '%' || c == '-' || c == '.' || c == ':' || c == '+' {
      assert !IsSpecial(c);
    }
  }

  lemma {:induction false} PlainReads(s: string, rest: string, word: string)
    requires AllPlain(s)
    ensures ReadWords(s + rest, Bare, word) == ReadWords(rest, Bare, word + s)
  {
    if s == "" {
      assert s + rest == rest && word + s == word;
    } else {
      PlainIsItself(s[0]);
      PlainReads(s[1..], rest, word + [s[0]]);
      assert (s + rest)[1..] == s[1..] + rest;
      assert word + [s[0]] + s[1..] == word + s;
    }
  }

  lemma PlainStarts(arg: string, rest: string)
    requires arg != "" && AllPlain(arg)
    ensures ReadWords(arg + rest, Between, "") == ReadWords(rest, Bare, arg)
  {
    PlainReads(arg[1..], rest, [arg[0]]);
    assert (arg + rest)[1..] == arg[1..] + rest;
    assert [arg[0]] + arg[1..] == arg && "" + [arg[0]] == [arg[0]];
    PlainIsItself(arg[0]);
  }

  /** The escaped text reads back inside single quotes. */
  lemma {:induction false} EscapedReads(s: string, rest: string, word: string)
    ensures ReadWords(EscapeQuotes(s) + rest, InSingle, word) == ReadWords(rest, InSingle, word + s)
  {
    if s == "" {
      assert EscapeQuotes(s) + rest == rest && word + s == word;
    } else {
      var more := EscapeQuotes(s[1..]) + rest;
      EscapedReads(s[1..], rest, word + [s[0]]);
      assert word + [s[0]] + s[1..] == word + s;
      if s[0] == '\'' {
        Regroup(QUOTED_QUOTE, EscapeQuotes(s[1..]), rest);
        QuoteReads(more, word);
      } else {
        assert EscapeQuotes(s) + rest == [s[0]] + more;
      }
    }
  }

  lemma QuoteReads(rest: string, word: string)
    ensures ReadWords(QUOTED_QUOTE + rest, InSingle, word) == ReadWords(rest, InSingle, word + "'")
  {
    var t := QUOTED_QUOTE + rest;
    assert t[1..] == "\"'\"'" + rest;
    assert t[1..][1..] == "'\"'" + rest;
    assert t[1..][1..][1..] == "\"'" + rest;
    assert t[1..][1..][1..][1..] == "'" + rest;
    assert t[1..][1..][1..][1..][1..] == rest;
    assert ReadWords(t, InSingle, word) == ReadWords(t[1..], Bare, word);
    assert ReadWords(t[1..], Bare, word) == ReadWords(t[1..][1..], InDouble, word);
    assert ReadWords(t[1..][1..], InDouble, word) == ReadWords(t[1..][1..][1..], InDouble, word + "'");
    assert ReadWords(t[1..][1..][1..], InDouble, word + "'") == ReadWords(t[1..][1..][1..][1..], Bare, word + "'");
  }

  lemma QuotedReads(arg: string, rest: string)
    requires arg != ""
    ensures ReadWords(Quoted(arg) + rest, Between, "") == ReadWords(rest, Bare, arg)
  {
    if AllPlain(arg) {
      PlainStarts(arg, rest);
    } else {
      var t := Quoted(arg) + rest;
      Regroup("'", EscapeQuotes(arg) + "'", rest);
      Regroup(EscapeQuotes(arg), "'", rest);
      assert t[1..] == EscapeQuotes(arg) + ("'" + rest);
      EscapedReads(arg, "'" + rest, "");
      assert "" + arg == arg && ("'" + rest)[1..] == rest;
    }
  }

  /** A shell splits the rendered line back into exactly the arguments. */
  lemma {:induction false} CommandReadsBack(args: seq<string>)
    requires Showable(args)
    ensures SplitWords(JoinSpaces(QuoteAll(args))) == Some(args)
  {
    if |args| == 1 {
      QuotedReads(args[0], "");
      assert Quoted(args[0]) + "" == Quoted(args[0]);
      assert args == [args[0]];
    } else if |args| > 1 {
      var others := JoinSpaces(QuoteAll(args[1..]));
      QuotedReads(args[0], " " + others);
      assert (" " + others)[1..] == others;
      CommandReadsBack(args[1..]);
      assert args == [args[0]] + args[1..];
      assert QuoteAll(args)[1..] == QuoteAll(args[1..]);
    }
  }

  /** Whatever command line is shown, it is that of one argument list only. */
  lemma CommandIsExact(args: seq<string>, others: seq<string>)
    requires CommandOf(args).Some? && CommandOf(args) == CommandOf(others)
    ensures args == others && SplitWords(CommandOf(args).value) == Some(args)
  {
    CommandReadsBack(args);
    CommandReadsBack(others);
  }

  // ----- Long division on decimal text -----

  lemma ValueStep(digits: string, i: nat)
    requires i < |digits| && forall k :: 0 <= k < |digits| ==> IsDigit(digits[k])
    ensures NumeralValue(digits[..i + 1]) == 10 * NumeralValue(digits[..i]) + DigitValue(digits[i])
  {
    assert digits[..i + 1][..i] == digits[..i];
  }

  lemma ValueAppend(s: string, c: char)
    requires (forall i :: 0 <= i < |s| ==> IsDigit(s[i])) && IsDigit(c)
    ensures NumeralValue(s + [c]) == 10 * NumeralValue(s) + DigitValue(c)
  {
    assert (s + [c])[..|s|] == s;
  }

  /** Multiplication as repeated addition. */
  function Times(q: nat, divisor: nat): nat { if q == 0 then 0 else Times(q - 1, divisor) + divisor }

  lemma {:induction false} TimesIsProduct(q: nat, divisor: nat)
    ensures Times(q, divisor) == q * divisor
  {
    if q > 0 {
      TimesIsProduct(q - 1, divisor);
    }
  }

  lemma {:induction false} TimesAdd(a: nat, b: nat, divisor: nat)
    ensures Times(a + b, divisor) == Times(a, divisor) + Times(b, divisor)
  {
    if b > 0 {
      TimesAdd(a, b - 1, divisor);
    }
  }

  lemma {:induction false} TimesGrows(a: nat, b: nat, divisor: nat)
    ensures a <= b ==> Times(a, divisor) <= Times(b, divisor)
  {
    if a < b {
      TimesGrows(a, b - 1, divisor);
    }
  }

  lemma TimesTen(a: nat, divisor: nat)
    ensures Times(10 * a, divisor) == 10 * Times(a, divisor)
  {
    TimesAdd(a, a, divisor);
    TimesAdd(2 * a, 2 * a, divisor);
    TimesAdd(4 * a, 4 * a, divisor);
    TimesAdd(8 * a, 2 * a, divisor);
  }

  lemma QuotientIsDigit(value: nat, divisor: nat, next: nat, remainder: nat)
    requires value == next * divisor + remainder && value < 10 * divisor
    ensures next < 10 && value == Times(next, divisor) + remainder
  {
    TimesIsProduct(next, divisor);
    TimesIsProduct(10, divisor);
    TimesGrows(10, next, divisor);
  }

  lemma DivisionIs(value: nat, divisor: nat)
    requires divisor > 0
    ensures value == value / divisor * divisor + value % divisor
  {
  }

  /** One digit of the quotient, and what is left. */
  method OneDigit(value: nat, divisor: nat) returns (next: nat, remainder: nat)
    requires value < 10 * divisor
    ensures next < 10 && remainder < divisor && value == Times(next, divisor) + remainder
  {
    next := value / divisor;
    remainder := value % divisor;
    DivisionIs(value, divisor);
    QuotientIsDigit(value, divisor, next, remainder);
  }

  /** The quotient with one more digit; a leading zero is left out. */
  function Push(quotient: string, next: nat): (r: string)
    requires next < 10 && forall k :: 0 <= k < |quotient| ==> IsDigit(quotient[k])
    ensures forall k :: 0 <= k < |r| ==> IsDigit(r[k])
  {
    if next != 0 || quotient != "" then quotient + [Digit(next)] else quotient
  }

  lemma PushValue(quotient: string, next: nat)
    requires next < 10 && forall k :: 0 <= k < |quotient| ==> IsDigit(quotient[k])
    ensures NumeralValue(Push(quotient, next)) == 10 * NumeralValue(quotient) + next
  {
    ValueAppend(quotient, Digit(next));
  }

  lemma DivideStep(
      before: nat, digit: nat, now: nat, quotient: nat, next: nat, grown: nat, remainder: nat, after: nat, divisor: nat)
    requires before == Times(quotient, divisor) + remainder
    requires 10 * remainder + digit == Times(next, divisor) + after
    requires now == 10 * before + digit && grown == 10 * quotient + next
    ensures now == Times(grown, divisor) + after
  {
    TimesTen(quotient, divisor);
    TimesAdd(10 * quotient, next, divisor);
  }

  predicate AllDigits(s: string) { forall i :: 0 <= i < |s| ==> IsDigit(s[i]) }

  /** The quotient and the remainder of the first digits; a quotient of zero has no digits yet. */
  ghost predicate DividedTo(digits: string, i: nat, quotient: string, remainder: nat, divisor: nat)
    requires AllDigits(digits) && i <= |digits|
  {
    && remainder < divisor && AllDigits(quotient) && (quotient != "" ==> quotient[0] != '0')
    && NumeralValue(digits[..i]) == Times(NumeralValue(quotient), divisor) + remainder
  }

  lemma DividedOneMore(
      digits: string, i: nat, quotient: string, remainder: nat, next: nat, after: nat, divisor: nat)
    requires AllDigits(digits) && i < |digits| && DividedTo(digits, i, quotient, remainder, divisor)
    requires next < 10 && after < divisor
    requires 10 * remainder + DigitValue(digits[i]) == Times(next, divisor) + after
    ensures DividedTo(digits, i + 1, Push(quotient, next), after, divisor)
  {
    ValueStep(digits, i);
    PushValue(quotient, next);
    PushStarts(quotient, next);
    DivideStep(
      NumeralValue(digits[..i]), DigitValue(digits[i]), NumeralValue(digits[..i + 1]), NumeralValue(quotient), next,
      NumeralValue(Push(quotient, next)), remainder, after, divisor);
  }

  lemma PushStarts(quotient: string, next: nat)
    requires next < 10 && AllDigits(quotient) && (quotient != "" ==> quotient[0] != '0')
    ensures Push(quotient, next) != "" ==> Push(quotient, next)[0] != '0'
  {
    assert next != 0 ==> Digit(next) != '0';
  }

  /** Divides digit by digit: the quotient's digits and the remainder. (`Times` is the product.) */
  method Divided(digits: string, divisor: nat) returns (quotient: string, remainder: nat)
    requires 0 < divisor && AllDigits(digits)
    ensures IsNumeral(quotient) && remainder < divisor
    ensures NumeralValue(digits) == Times(NumeralValue(quotient), divisor) + remainder
  {
    quotient, remainder := "", 0;
    for i := 0 to |digits|
      invariant DividedTo(digits, i, quotient, remainder, divisor)
    {
      var next, after := OneDigit(10 * remainder + DigitValue(digits[i]), divisor);
      DividedOneMore(digits, i, quotient, remainder, next, after, divisor);
      quotient := Push(quotient, next);
      remainder := after;
    }
    assert digits[..|digits|] == digits;
    if quotient == "" {
      quotient := "0";
      assert NumeralValue(quotient) == 0;
    }
  }

  /** How long ago, in whole units. */
  function AgeOf(seconds: nat): string
  {
    if seconds < 60 then Decimal(seconds) + "s ago"
    else if seconds < 3600 then Decimal(seconds / 60) + "m " + Decimal(seconds % 60) + "s ago"
    else Decimal(seconds / 3600) + "h " + Decimal(seconds / 60 % 60) + "m ago"
  }

  lemma SixtyTwice(n: nat, minutes: nat, second: nat, hours: nat, minute: nat)
    requires n == minutes * 60 + second && second < 60 && minutes == hours * 60 + minute && minute < 60
    ensures n / 60 == minutes && n % 60 == second && n / 60 % 60 == minute && n / 3600 == hours
    ensures (n < 60 <==> minutes == 0) && (n < 3600 <==> hours == 0)
  {
  }

  lemma AgeIs(n: nat, minutes: nat, second: nat, hours: nat, minute: nat)
    requires n == minutes * 60 + second && second < 60 && minutes == hours * 60 + minute && minute < 60
    ensures AgeOf(n) ==
            if minutes == 0 then Decimal(second) + "s ago"
            else if hours == 0 then Decimal(minutes) + "m " + Decimal(second) + "s ago"
            else Decimal(hours) + "h " + Decimal(minute) + "m ago"
  {
    SixtyTwice(n, minutes, second, hours, minute);
  }

  lemma ZeroIs(s: string)
    requires IsNumeral(s)
    ensures s == "0" <==> NumeralValue(s) == 0
  {
    NumeralIsDecimal(s);
  }

  method AgeOfDigits(seconds: string) returns (text: string)
    requires IsNumeral(seconds)
    ensures text == AgeOf(NumeralValue(seconds))
  {
    var minutes, remainder := Divided(seconds, 60);
    var hours, minute := Divided(minutes, 60);
    TimesIsProduct(NumeralValue(minutes), 60);
    TimesIsProduct(NumeralValue(hours), 60);
    AgeIs(NumeralValue(seconds), NumeralValue(minutes), remainder, NumeralValue(hours), minute);
    ZeroIs(minutes);
    ZeroIs(hours);
    NumeralIsDecimal(minutes);
    NumeralIsDecimal(hours);
    if minutes == "0" {
      return Decimal(remainder) + "s ago";
    }
    return if hours == "0" then minutes + "m " + Decimal(remainder) + "s ago" else hours + "h " + Decimal(minute) + "m ago";
  }

  /** What the nearest float of a number is: whether there is a finite one, whether it is below
      zero, and its whole part in digits, with a minus sign for a negative zero. */
  datatype Nearest = Nearest(finite: bool, negative: bool, whole: string)

  datatype AgeError = TooLarge

  function Unsigned(s: string): string { if s != "" && s[0] == '-' then Unsigned(s[1..]) else s }

  /** A number without a fraction or an exponent is a numeral once its sign is gone. */
  lemma UnsignedIsNumeral(raw: JsonText.Number)
    requires !JsonText.HasMark(raw)
    ensures IsNumeral(Unsigned(raw))
  {
    JsonText.UnmarkedIsNumeral(raw);
    assert Unsigned(JsonText.Magnitude(raw)) == JsonText.Magnitude(raw);
  }

  /** The age of any JSON number of seconds: none below zero or for a fraction too large, and a
      refusal for an integer beyond every finite float. */
  method Age(raw: JsonText.Number, nearest: Nearest) returns (r: Result<Option<string>, AgeError>)
    requires JsonText.HasMark(raw) ==> IsNumeral(Unsigned(nearest.whole))
    ensures r.Err? <==> !nearest.finite && !JsonText.HasMark(raw)
    ensures r.Ok? ==> (r.value.Some? <==> nearest.finite && !nearest.negative)
    ensures r.Ok? && r.value.Some? ==>
      var digits := Unsigned(if JsonText.HasMark(raw) then nearest.whole else raw);
      IsNumeral(digits) && r.value.value == AgeOf(NumeralValue(digits))
  {
    if !nearest.finite && !JsonText.HasMark(raw) {
      return Err(TooLarge);
    }
    if !nearest.finite || nearest.negative {
      return Ok(None);
    }
    var seconds: string;
    if JsonText.HasMark(raw) {
      seconds := Unsigned(nearest.whole);
    } else {
      UnsignedIsNumeral(raw);
      seconds := Unsigned(raw);
    }
    var text := AgeOfDigits(seconds);
    return Ok(Some(text));
  }
}
