/** The texts of RFC 8259, spelled out: every way a value can be written, with its white space,
    escapes and number parts. The reader of `JsonText` reads exactly these. */
module JsonGrammar {
  import opened Basics
  import opened JsonText

  // ----- Numbers: RFC 8259, section 6 -----

  datatype Parts = Parts(minus: bool, whole: string, fraction: string, exponent: string)

  predicate AllDigits(s: string) { s != "" && forall i :: 0 <= i < |s| ==> IsDigit(s[i]) }

  predicate ValidParts(p: Parts)
  {
    && AllDigits(p.whole) && (p.whole[0] == '0' ==> |p.whole| == 1)
    && (p.fraction == "" || (p.fraction[0] == '.' && AllDigits(p.fraction[1..])))
    && (p.exponent == "" ||
        ((p.exponent[0] == 'e' || p.exponent[0] == 'E') && |p.exponent| > 1 &&
         AllDigits(if p.exponent[1] == '+' || p.exponent[1] == '-' then p.exponent[2..] else p.exponent[1..])))
  }

  function PartsText(p: Parts): string { (if p.minus then "-" else "") + (p.whole + (p.fraction + p.exponent)) }

  lemma {:induction false} DigitsLead(digits: string, rest: string)
    requires forall i :: 0 <= i < |digits| ==> IsDigit(digits[i])
    requires rest == "" || !IsDigit(rest[0])
    ensures LeadingDigits(digits + rest) == |digits|
  {
    if digits == "" {
      assert digits + rest == rest;
    } else {
      DigitsLead(digits[1..], rest);
      assert (digits + rest)[1..] == digits[1..] + rest;
    }
  }

  lemma {:induction false} LeadAreDigits(s: string)
    ensures forall i :: 0 <= i < LeadingDigits(s) ==> IsDigit(s[i])
    ensures LeadingDigits(s) < |s| ==> !IsDigit(s[LeadingDigits(s)])
  {
    forall i | 0 <= i < LeadingDigits(s) ensures IsDigit(s[i]) {
      LeadingAreDigits(s, i);
    }
    LeadStops(s);
  }

  lemma {:induction false} LeadStops(s: string)
    ensures LeadingDigits(s) < |s| ==> !IsDigit(s[LeadingDigits(s)])
  {
    if s != "" && IsDigit(s[0]) {
      LeadStops(s[1..]);
    }
  }

  lemma {:induction false} AllDigitsIff(s: string)
    ensures AllDigits(s) <==> s != "" && LeadingDigits(s) == |s|
  {
    LeadAreDigits(s);
    if AllDigits(s) {
      DigitsLead(s, "");
      assert s + "" == s;
    }
  }

  lemma {:induction false} ExponentIff(s: string)
    ensures IsExponent(s) <==>
      s == "" ||
      ((s[0] == 'e' || s[0] == 'E') && |s| > 1 &&
       AllDigits(if s[1] == '+' || s[1] == '-' then s[2..] else s[1..]))
  {
    if |s| > 1 {
      AllDigitsIff(if s[1] == '+' || s[1] == '-' then s[2..] else s[1..]);
    }
  }

  /** Where the fraction of a number ends, its exponent starts. */
  lemma {:induction false} FractionReads(fraction: string, exponent: string)
    requires fraction == "" || (fraction[0] == '.' && AllDigits(fraction[1..]))
    requires IsExponent(exponent)
    ensures IsFraction(fraction + exponent)
  {
    if fraction == "" {
      assert fraction + exponent == exponent;
    } else {
      var s := fraction + exponent;
      assert s[1..] == fraction[1..] + exponent;
      DigitsLead(fraction[1..], exponent);
      assert s[1 + |fraction[1..]|..] == exponent;
    }
  }

  lemma {:induction false} FractionParts(s: string) returns (fraction: string, exponent: string)
    requires IsFraction(s)
    ensures s == fraction + exponent && IsExponent(exponent)
    ensures fraction == "" || (fraction[0] == '.' && AllDigits(fraction[1..]))
  {
    if s != "" && s[0] == '.' {
      var n := LeadingDigits(s[1..]);
      LeadAreDigits(s[1..]);
      fraction, exponent := s[..1 + n], s[1 + n..];
      assert fraction[1..] == s[1..][..n];
    } else {
      fraction, exponent := "", s;
    }
  }

  lemma {:induction false} PartsAreNumberChars(p: Parts)
    requires ValidParts(p)
    ensures forall i :: 0 <= i < |PartsText(p)| ==> NumberChar(PartsText(p)[i])
  {
    forall i | 0 <= i < |p.exponent| ensures NumberChar(p.exponent[i]) {
      var digits := if p.exponent[1] == '+' || p.exponent[1] == '-' then p.exponent[2..] else p.exponent[1..];
      assert i >= |p.exponent| - |digits| ==> p.exponent[i] == digits[i - (|p.exponent| - |digits|)];
    }
    forall i | 0 <= i < |p.fraction| ensures NumberChar(p.fraction[i]) {
      assert i > 0 ==> p.fraction[i] == p.fraction[1..][i - 1];
    }
  }

  /** Where a number's whole part ends. */
  lemma {:induction false} WholeReads(whole: string, rest: string)
    requires AllDigits(whole) && (whole[0] == '0' ==> |whole| == 1) && (rest == "" || !IsDigit(rest[0]))
    ensures (if (whole + rest)[0] == '0' then 1 else LeadingDigits(whole + rest)) == |whole|
    ensures (whole + rest)[..|whole|] == whole && (whole + rest)[|whole|..] == rest && IsInteger(whole)
  {
    DigitsLead(whole, rest);
    AllDigitsIff(whole);
  }

  lemma {:induction false} PartsAreNumber(p: Parts)
    requires ValidParts(p)
    ensures IsNumber(PartsText(p))
  {
    PartsAreNumberChars(p);
    var rest := p.fraction + p.exponent;
    ExponentIff(p.exponent);
    FractionReads(p.fraction, p.exponent);
    WholeReads(p.whole, rest);
    var s := PartsText(p);
    assert s[0] == '-' <==> p.minus;
    assert (if s[0] == '-' then s[1..] else s) == p.whole + rest;
  }

  lemma {:induction false} SignApart(s: string)
    ensures s == (if s != "" && s[0] == '-' then "-" else "") + Magnitude(s)
  {
  }

  /** The whole part of an unsigned number, and what follows it. */
  lemma {:induction false} WholeApart(s: string) returns (whole: string, rest: string)
    requires IsNumber(s)
    ensures IsInteger(whole) && IsFraction(rest) && Magnitude(s) == whole + rest
  {
    var body := Magnitude(s);
    var n := if body != "" && body[0] == '0' then 1 else LeadingDigits(body);
    whole, rest := body[..n], body[n..];
  }

  lemma {:induction false} NumberParts(s: string) returns (p: Parts)
    requires IsNumber(s)
    ensures ValidParts(p) && PartsText(p) == s
  {
    var whole, rest := WholeApart(s);
    var fraction, exponent := FractionParts(rest);
    p := Parts(s != "" && s[0] == '-', whole, fraction, exponent);
    PartsAreValid(whole, fraction, exponent, p.minus);
    SignApart(s);
  }

  lemma {:induction false} PartsAreValid(whole: string, fraction: string, exponent: string, minus: bool)
    requires IsInteger(whole) && IsExponent(exponent)
    requires fraction == "" || (fraction[0] == '.' && AllDigits(fraction[1..]))
    ensures ValidParts(Parts(minus, whole, fraction, exponent))
  {
    AllDigitsIff(whole);
    ExponentIff(exponent);
  }

  // ----- Strings: RFC 8259, section 7 -----

  /** One character of a string as it is written: itself, a short escape, the four hexadecimal
      digits of a code point, or the two halves of a surrogate pair. */
  datatype Piece = Plain(c: char) | Short(letter: char) | Coded(digits: string) | Paired(high: string, low: string)

  /** What the letter of a short escape stands for. */
  function ShortOf(letter: char): Option<char>
  {
    match letter
    case '"' => Some('"')
    case '\\' => Some('\\')
    case '/' => Some('/')
    case 'b' => Some(8 as char)
    case 'f' => Some(12 as char)
    case 'n' => Some(10 as char)
    case 'r' => Some(13 as char)
    case 't' => Some(9 as char)
    case _ => None
  }

  predicate IsHex(c: char) { '0' <= c <= '9' || 'a' <= c <= 'f' || 'A' <= c <= 'F' }

  predicate FourHex(s: string) { |s| == 4 && IsHex(s[0]) && IsHex(s[1]) && IsHex(s[2]) && IsHex(s[3]) }

  function HexOf(c: char): (n: nat)
    requires IsHex(c)
    ensures n < 16
  {
    if c <= '9' then c as int - '0' as int
    else if c <= 'F' then c as int - 'A' as int + 10 else c as int - 'a' as int + 10
  }

  function CodeOf(s: string): (n: nat)
    requires FourHex(s)
    ensures n < 0x10000
  {
    ((HexOf(s[0]) * 16 + HexOf(s[1])) * 16 + HexOf(s[2])) * 16 + HexOf(s[3])
  }

  predicate ValidPiece(p: Piece)
  {
    match p
    case Plain(c) => c >= ' ' && c != '"' && c != '\\'
    case Short(letter) => ShortOf(letter).Some?
    case Coded(digits) => FourHex(digits) && !(0xD800 <= CodeOf(digits) < 0xE000)
    case Paired(high, low) =>
      FourHex(high) && FourHex(low) && 0xD800 <= CodeOf(high) < 0xDC00 <= CodeOf(low) < 0xE000
  }

  function PieceChar(p: Piece): char
    requires ValidPiece(p)
  {
    match p
    case Plain(c) => c
    case Short(letter) => ShortOf(letter).value
    case Coded(digits) => CodeOf(digits) as char
    case Paired(high, low) => (0x10000 + 0x400 * (CodeOf(high) - 0xD800) + (CodeOf(low) - 0xDC00)) as char
  }

  function PieceOnto(p: Piece, rest: string): string
  {
    match p
    case Plain(c) => [c] + rest
    case Short(letter) => ['\\', letter] + rest
    case Coded(digits) => ['\\', 'u'] + (digits + rest)
    case Paired(high, low) => ['\\', 'u'] + (high + (['\\', 'u'] + (low + rest)))
  }

  predicate ValidPieces(pieces: seq<Piece>) { forall i :: 0 <= i < |pieces| ==> ValidPiece(pieces[i]) }

  function CharsOf(pieces: seq<Piece>): string
    requires ValidPieces(pieces)
  {
    if pieces == [] then [] else [PieceChar(pieces[0])] + CharsOf(pieces[1..])
  }

  function PiecesOnto(pieces: seq<Piece>, rest: string): string
  {
    if pieces == [] then rest else PieceOnto(pieces[0], PiecesOnto(pieces[1..], rest))
  }

  lemma {:induction false} HexIff(c: char)
    ensures IsHex(c) <==> HexValue(c).Some?
    ensures IsHex(c) ==> HexValue(c) == Some(HexOf(c))
  {
  }

  lemma {:induction false} CodeReads(digits: string, s: string)
    requires |s| >= 4 && digits == s[..4]
    ensures FourHex(digits) <==> Hex4(s).Some?
    ensures FourHex(digits) ==> Hex4(s) == Some(CodeOf(digits))
  {
    HexIff(s[0]);
    HexIff(s[1]);
    HexIff(s[2]);
    HexIff(s[3]);
  }

  lemma {:induction false} CodedReads(digits: string, rest: string)
    requires ValidPiece(Coded(digits))
    ensures ReadEscape(['u'] + (digits + rest)) == Some((CodeOf(digits) as char, rest))
  {
    var s := ['u'] + (digits + rest);
    assert s[1..] == digits + rest && s[1..][..4] == digits && s[5..] == rest;
    CodeReads(digits, s[1..]);
  }

  lemma {:induction false} PairedReads(high: string, low: string, rest: string)
    requires ValidPiece(Paired(high, low))
    ensures ReadEscape(['u'] + (high + (['\\', 'u'] + (low + rest)))) == Some((PieceChar(Paired(high, low)), rest))
  {
    var tail := ['\\', 'u'] + (low + rest);
    var s := ['u'] + (high + tail);
    assert s[1..] == high + tail && s[1..][..4] == high;
    assert s[5..] == tail && s[5] == '\\' && s[6] == 'u';
    assert s[7..] == low + rest && s[7..][..4] == low && s[11..] == rest;
    CodeReads(high, s[1..]);
    CodeReads(low, s[7..]);
  }

  lemma {:induction false} PieceReads(p: Piece, rest: string, read: string)
    requires ValidPiece(p)
    ensures ReadChars(PieceOnto(p, rest), read) == ReadChars(rest, read + [PieceChar(p)])
  {
    var s := PieceOnto(p, rest);
    match p
    case Plain(c) => assert s[1..] == rest;
    case Short(letter) =>
      assert s[1..] == [letter] + rest && ([letter] + rest)[1..] == rest;
      assert ReadEscape([letter] + rest) == Some((ShortOf(letter).value, rest));
    case Coded(digits) =>
      assert s[1..] == ['u'] + (digits + rest);
      CodedReads(digits, rest);
    case Paired(high, low) =>
      assert s[1..] == ['u'] + (high + (['\\', 'u'] + (low + rest)));
      PairedReads(high, low, rest);
  }

  lemma {:induction false} PiecesRead(pieces: seq<Piece>, rest: string, read: string)
    requires ValidPieces(pieces)
    ensures ReadChars(PiecesOnto(pieces, ['"'] + rest), read) == Some((read + CharsOf(pieces), rest))
  {
    if pieces == [] {
      assert (['"'] + rest)[1..] == rest && read + [] == read;
    } else {
      PiecesRead(pieces[1..], rest, read + [PieceChar(pieces[0])]);
      PieceReads(pieces[0], PiecesOnto(pieces[1..], ['"'] + rest), read);
      assert read + [PieceChar(pieces[0])] + CharsOf(pieces[1..]) == read + CharsOf(pieces);
    }
  }

  lemma {:induction false} ShortPiece(s: string)
    requires ReadEscape(s).Some? && s[0] != 'u'
    ensures ValidPiece(Short(s[0])) && ReadEscape(s) == Some((PieceChar(Short(s[0])), s[1..]))
  {
  }

  lemma {:induction false} CodedPiece(s: string, first: string)
    requires ReadEscape(s).Some? && s[0] == 'u'
    ensures |s| >= 5 && (first == s[1..5] ==> FourHex(first))
    ensures first == s[1..5] && !(0xD800 <= CodeOf(first) < 0xE000) ==>
      ReadEscape(s) == Some((CodeOf(first) as char, s[5..]))
    ensures first == s[1..5] && 0xD800 <= CodeOf(first) < 0xE000 ==>
      CodeOf(first) < 0xDC00 && |s| >= 11 && s[5] == '\\' && s[6] == 'u' && Hex4(s[7..]).Some?
      && 0xDC00 <= Hex4(s[7..]).value < 0xE000
      && ReadEscape(s) ==
         Some(((0x10000 + 0x400 * (CodeOf(first) - 0xD800) + (Hex4(s[7..]).value - 0xDC00)) as char, s[11..]))
  {
    assert Hex4(s[1..]).Some?;
    assert s[1..][..4] == s[1..5];
    CodeReads(s[1..5], s[1..]);
  }

  lemma {:induction false} EscapeText(s: string)
    requires s != "" && s[0] == 'u'
    ensures |s| >= 5 ==> ['\\'] + s == PieceOnto(Coded(s[1..5]), s[5..])
    ensures |s| >= 11 && s[5] == '\\' && s[6] == 'u' ==> ['\\'] + s == PieceOnto(Paired(s[1..5], s[7..11]), s[11..])
  {
    if |s| >= 5 {
      assert ['\\'] + s == ['\\', 'u'] + (s[1..5] + s[5..]);
    }
    if |s| >= 11 && s[5] == '\\' && s[6] == 'u' {
      assert s[5..] == ['\\', 'u'] + (s[7..11] + s[11..]);
    }
  }

  lemma {:induction false} CodedEscape(s: string) returns (p: Piece)
    requires ReadEscape(s).Some? && s[0] == 'u'
    ensures ValidPiece(p) && PieceChar(p) == ReadEscape(s).value.0
    ensures ['\\'] + s == PieceOnto(p, ReadEscape(s).value.1)
  {
    var first := if |s| >= 5 then s[1..5] else "";
    CodedPiece(s, first);
    EscapeText(s);
    if CodeOf(first) < 0xD800 || CodeOf(first) >= 0xE000 {
      p := Coded(first);
    } else {
      assert s[7..][..4] == s[7..11];
      CodeReads(s[7..11], s[7..]);
      p := Paired(first, s[7..11]);
    }
  }

  /** The piece an escape is, from what follows its backslash. */
  lemma {:induction false} EscapePiece(s: string) returns (p: Piece)
    requires ReadEscape(s).Some?
    ensures ValidPiece(p) && PieceChar(p) == ReadEscape(s).value.0
    ensures ['\\'] + s == PieceOnto(p, ReadEscape(s).value.1)
  {
    if s[0] != 'u' {
      ShortPiece(s);
      p := Short(s[0]);
      assert ['\\'] + s == ['\\', s[0]] + s[1..];
    } else {
      p := CodedEscape(s);
    }
  }

  lemma {:induction false} OnePieceMore(p: Piece, more: seq<Piece>, rest: string, read: string)
    requires ValidPiece(p) && ValidPieces(more)
    ensures ValidPieces([p] + more) && PiecesOnto([p] + more, rest) == PieceOnto(p, PiecesOnto(more, rest))
    ensures read + [PieceChar(p)] + CharsOf(more) == read + CharsOf([p] + more)
  {
    assert ([p] + more)[1..] == more;
  }

  /** The first character of a string that does not end yet, and what follows it. */
  lemma {:induction false} FirstPiece(s: string, read: string) returns (p: Piece, rest: string)
    requires ReadChars(s, read).Some? && s[0] != '"'
    ensures ValidPiece(p) && s == PieceOnto(p, rest) && |rest| < |s|
    ensures ReadChars(s, read) == ReadChars(rest, read + [PieceChar(p)])
  {
    assert s == [s[0]] + s[1..];
    if s[0] == '\\' {
      p := EscapePiece(s[1..]);
      rest := ReadEscape(s[1..]).value.1;
    } else {
      p, rest := Plain(s[0]), s[1..];
    }
  }

  lemma {:induction false} CharsArePieces(s: string, read: string) returns (pieces: seq<Piece>)
    requires ReadChars(s, read).Some?
    ensures ValidPieces(pieces) && ReadChars(s, read).value.0 == read + CharsOf(pieces)
    ensures s == PiecesOnto(pieces, ['"'] + ReadChars(s, read).value.1)
    decreases |s|
  {
    if s[0] == '"' {
      pieces := [];
      assert read + [] == read && s == ['"'] + s[1..];
    } else {
      var p, rest := FirstPiece(s, read);
      var more := CharsArePieces(rest, read + [PieceChar(p)]);
      pieces := [p] + more;
      OnePieceMore(p, more, ['"'] + ReadChars(s, read).value.1, read);
    }
  }

  // ----- Values: RFC 8259, sections 2 to 5 -----

  predicate Blank(s: string) { forall i :: 0 <= i < |s| ==> s[i] == ' ' || s[i] == '\t' || s[i] == '\n' || s[i] == '\r' }

  /** A value as it is written, with the white space inside it. `blank` is what an empty array or
      object has between its brackets. */
  datatype Spelling =
    | SNull
    | SBool(b: bool)
    | SNum(parts: Parts)
    | SStr(pieces: seq<Piece>)
    | SArr(blank: string, items: seq<Item>)
    | SObj(blank: string, fields: seq<Field>)

  datatype Item = Item(before: string, v: Spelling, after: string)

  datatype Field = Field(before: string, key: seq<Piece>, afterKey: string, item: Item)

  predicate Valid(sp: Spelling)
    decreases sp
  {
    match sp
    case SNum(parts) => ValidParts(parts)
    case SStr(pieces) => ValidPieces(pieces)
    case SArr(blank, items) => Blank(blank) && ValidItems(items)
    case SObj(blank, fields) => Blank(blank) && ValidFields(fields)
    case _ => true
  }

  predicate ValidItems(items: seq<Item>)
    decreases items
  {
    items == [] ||
    (Blank(items[0].before) && Valid(items[0].v) && Blank(items[0].after) && ValidItems(items[1..]))
  }

  predicate ValidFields(fields: seq<Field>)
    decreases fields
  {
    fields == [] ||
    (var f := fields[0];
     && Blank(f.before) && ValidPieces(f.key) && Blank(f.afterKey)
     && Blank(f.item.before) && Valid(f.item.v) && Blank(f.item.after) && ValidFields(fields[1..]))
  }

  predicate ValidItem(item: Item) { Blank(item.before) && Valid(item.v) && Blank(item.after) }

  predicate ValidField(f: Field)
  {
    Blank(f.before) && ValidPieces(f.key) && Blank(f.afterKey) && ValidItem(f.item)
  }

  function ValueOf(sp: Spelling): Value
    requires Valid(sp)
    decreases sp
  {
    match sp
    case SNull => Null
    case SBool(b) => Bool(b)
    case SNum(parts) =>
      PartsAreNumber(parts);
      Num(PartsText(parts))
    case SStr(pieces) => Str(CharsOf(pieces))
    case SArr(_, items) => Arr(ValuesOf(items))
    case SObj(_, fields) => Obj(MembersOf(fields))
  }

  function ValuesOf(items: seq<Item>): seq<Value>
    requires ValidItems(items)
    decreases items
  {
    if items == [] then [] else [ValueOf(items[0].v)] + ValuesOf(items[1..])
  }

  function MembersOf(fields: seq<Field>): seq<Member>
    requires ValidFields(fields)
    decreases fields
  {
    if fields == [] then []
    else [Member(CharsOf(fields[0].key), ValueOf(fields[0].item.v))] + MembersOf(fields[1..])
  }

  /** The text of a spelling, with `rest` written after it. */
  function TextOnto(sp: Spelling, rest: string): string
    decreases sp
  {
    match sp
    case SNull => "null" + rest
    case SBool(b) => (if b then "true" else "false") + rest
    case SNum(parts) => PartsText(parts) + rest
    case SStr(pieces) => ['"'] + PiecesOnto(pieces, ['"'] + rest)
    case SArr(blank, items) => ['['] + if items == [] then blank + ([']'] + rest) else ItemsOnto(items, rest)
    case SObj(blank, fields) => ['{'] + if fields == [] then blank + (['}'] + rest) else FieldsOnto(fields, rest)
  }

  function ItemOnto(item: Item, rest: string): string
    decreases item, 1
  {
    item.before + TextOnto(item.v, item.after + rest)
  }

  function ItemsOnto(items: seq<Item>, rest: string): string
    requires items != []
    decreases items
  {
    ItemOnto(items[0], Following(|items| == 1, if |items| == 1 then "" else ItemsOnto(items[1..], rest), ']', rest))
  }

  function FieldOnto(f: Field, rest: string): string
    decreases f, 2
  {
    f.before + (['"'] + PiecesOnto(f.key, ['"'] + (f.afterKey + ([':'] + ItemOnto(f.item, rest)))))
  }

  function FieldsOnto(fields: seq<Field>, rest: string): string
    requires fields != []
    decreases fields
  {
    FieldOnto(fields[0], Following(|fields| == 1, if |fields| == 1 then "" else FieldsOnto(fields[1..], rest), '}', rest))
  }

  // ----- Every spelling is read -----

  lemma {:induction false} SkipsBlank(blank: string, s: string)
    requires Blank(blank) && (s == "" || !IsSpace(s[0]))
    ensures SkipSpace(blank + s) == s
  {
    if blank == "" {
      assert blank + s == s;
    } else {
      SkipsBlank(blank[1..], s);
      assert (blank + s)[1..] == blank[1..] + s && IsSpace(blank[0]);
    }
  }

  /** How a spelling starts. */
  lemma {:induction false} Starts(sp: Spelling, rest: string)
    requires Valid(sp)
    ensures var s := TextOnto(sp, rest); s != "" && !IsSpace(s[0]) && s[0] != ']' && s[0] != '}'
  {
    if sp.SNum? {
      var p := sp.parts;
      assert PartsText(p)[0] == '-' || PartsText(p)[0] == p.whole[0];
    }
  }

  lemma {:induction false} BlankDelimits(blank: string, rest: string)
    requires Blank(blank) && Delimited(rest)
    ensures Delimited(blank + rest)
  {
    if blank != "" {
      assert (blank + rest)[0] == blank[0];
    }
  }

  /** Reading past white space is reading what follows. */
  lemma {:induction false} ReadsPast(blank: string, s: string)
    requires Blank(blank) && s != "" && !IsSpace(s[0])
    ensures ReadValue(blank + s) == ReadValue(s)
  {
    SkipsBlank(blank, s);
    SkipsBlank("", s);
    assert "" + s == s;
  }

  lemma {:induction false} NumberSpellingReads(parts: Parts, rest: string)
    requires ValidParts(parts) && Delimited(rest)
    ensures IsNumber(PartsText(parts)) && ReadValue(PartsText(parts) + rest) == Some((Num(PartsText(parts)), rest))
  {
    PartsAreNumber(parts);
    Starts(SNum(parts), rest);
    var s := PartsText(parts) + rest;
    var v := Num(PartsText(parts));
    ScalarReadsBack(v, rest);
    assert Onto(v, rest) == s;
    SkipsBlank("", s);
    assert "" + s == s;
  }

  lemma {:induction false} WordSpellingReads(sp: Spelling, rest: string)
    requires sp.SNull? || sp.SBool?
    ensures ReadValue(TextOnto(sp, rest)) == Some((ValueOf(sp), rest))
  {
    var s := TextOnto(sp, rest);
    SkipsBlank("", s);
    assert "" + s == s;
    match sp
    case SNull => assert "null" <= s && s[4..] == rest;
    case SBool(b) =>
      if b {
        assert "true" <= s && s[4..] == rest;
      } else {
        assert "false" <= s && s[5..] == rest;
      }
  }

  lemma {:induction false} StringSpellingReads(pieces: seq<Piece>, rest: string)
    requires ValidPieces(pieces)
    ensures ReadValue(['"'] + PiecesOnto(pieces, ['"'] + rest)) == Some((Str(CharsOf(pieces)), rest))
  {
    var body := PiecesOnto(pieces, ['"'] + rest);
    Opens('"', body, ['"'] + body);
    PiecesRead(pieces, rest, []);
    assert [] + CharsOf(pieces) == CharsOf(pieces);
    assert ReadScalar(['"'] + body) == Some((Str(CharsOf(pieces)), rest));
  }

  lemma {:induction false} EmptySpellingReads(blank: string, rest: string)
    requires Blank(blank)
    ensures ReadValue(['['] + (blank + ([']'] + rest))) == Some((Arr([]), rest))
    ensures ReadValue(['{'] + (blank + (['}'] + rest))) == Some((Obj([]), rest))
  {
    Opens('[', blank + ([']'] + rest), ['['] + (blank + ([']'] + rest)));
    Opens('{', blank + (['}'] + rest), ['{'] + (blank + (['}'] + rest)));
    SkipsBlank(blank, [']'] + rest);
    SkipsBlank(blank, ['}'] + rest);
    assert ([']'] + rest)[1..] == rest && (['}'] + rest)[1..] == rest;
  }

  lemma {:induction false} FullArrayReads(body: string, values: seq<Value>, rest: string)
    requires ReadItems(body, []) == Some((values, rest))
    requires SkipSpace(body) != "" && SkipSpace(body)[0] != ']'
    ensures ReadValue(['['] + body) == Some((Arr(values), rest))
  {
    Opens('[', body, ['['] + body);
  }

  lemma {:induction false} FullObjectReads(body: string, members: seq<Member>, rest: string)
    requires ReadMembers(body, []) == Some((members, rest))
    requires SkipSpace(body) != "" && SkipSpace(body)[0] != '}'
    ensures ReadValue(['{'] + body) == Some((Obj(members), rest))
  {
    Opens('{', body, ['{'] + body);
  }

  lemma {:induction false} SpellingReads(sp: Spelling, rest: string)
    requires Valid(sp) && Delimited(rest)
    ensures ReadValue(TextOnto(sp, rest)) == Some((ValueOf(sp), rest))
    decreases sp, 0
  {
    match sp
    case SNum(parts) => NumberSpellingReads(parts, rest);
    case SStr(pieces) => StringSpellingReads(pieces, rest);
    case SArr(blank, items) =>
      if items == [] {
        EmptySpellingReads(blank, rest);
      } else {
        ItemsRead(items, rest, []);
        ItemsStartWell(items, rest);
        assert [] + ValuesOf(items) == ValuesOf(items);
        FullArrayReads(ItemsOnto(items, rest), ValuesOf(items), rest);
      }
    case SObj(blank, fields) =>
      if fields == [] {
        EmptySpellingReads(blank, rest);
      } else {
        FieldsRead(fields, rest, []);
        FieldsStartWell(fields, rest);
        assert [] + MembersOf(fields) == MembersOf(fields);
        FullObjectReads(FieldsOnto(fields, rest), MembersOf(fields), rest);
      }
    case _ => WordSpellingReads(sp, rest);
  }

  lemma {:induction false} ItemsStartWell(items: seq<Item>, rest: string)
    requires items != [] && ValidItems(items)
    ensures var s := SkipSpace(ItemsOnto(items, rest)); s != "" && s[0] != ']'
  {
    var more := Following(|items| == 1, if |items| == 1 then "" else ItemsOnto(items[1..], rest), ']', rest);
    Starts(items[0].v, items[0].after + more);
    SkipsBlank(items[0].before, TextOnto(items[0].v, items[0].after + more));
  }

  lemma {:induction false} FieldsStartWell(fields: seq<Field>, rest: string)
    requires fields != [] && ValidFields(fields)
    ensures var s := SkipSpace(FieldsOnto(fields, rest)); s != "" && s[0] != '}'
  {
    var f := fields[0];
    var more := Following(|fields| == 1, if |fields| == 1 then "" else FieldsOnto(fields[1..], rest), '}', rest);
    SkipsBlank(f.before, ['"'] + PiecesOnto(f.key, ['"'] + (f.afterKey + ([':'] + ItemOnto(f.item, more)))));
  }

  /** One item, with the white space around it: what follows it is what the list goes on with. */
  lemma {:induction false} ItemReads(item: Item, more: string)
    requires ValidItem(item) && more != "" && !IsSpace(more[0]) && Delimited(more)
    requires ReadValue(TextOnto(item.v, item.after + more)) == Some((ValueOf(item.v), item.after + more))
    ensures ReadValue(ItemOnto(item, more)) == Some((ValueOf(item.v), item.after + more))
    ensures SkipSpace(item.after + more) == more
  {
    Starts(item.v, item.after + more);
    ReadsPast(item.before, TextOnto(item.v, item.after + more));
    SkipsBlank(item.after, more);
  }

  /** The step of a list: an item is read, and what follows it is a comma or the end. */
  lemma {:induction false} ItemsStep(s: string, v: Value, after: string, more: string, read: seq<Value>)
    requires ReadValue(s) == Some((v, after)) && SkipSpace(after) == more && more != ""
    ensures more[0] == ',' ==> ReadItems(s, read) == ReadItems(more[1..], read + [v])
    ensures more[0] == ']' ==> ReadItems(s, read) == Some((read + [v], more[1..]))
  {
  }

  lemma {:induction false} OneMoreValue(read: seq<Value>, items: seq<Item>)
    requires items != [] && ValidItems(items)
    ensures read + [ValueOf(items[0].v)] + ValuesOf(items[1..]) == read + ValuesOf(items)
    ensures |items| == 1 ==> read + [ValueOf(items[0].v)] == read + ValuesOf(items)
  {
    assert |items| == 1 ==> items[1..] == [];
  }

  lemma {:induction false} ItemsRead(items: seq<Item>, rest: string, read: seq<Value>)
    requires items != [] && ValidItems(items)
    ensures ReadItems(ItemsOnto(items, rest), read) == Some((read + ValuesOf(items), rest))
    decreases items, 1
  {
    var item := items[0];
    var more := Following(|items| == 1, if |items| == 1 then "" else ItemsOnto(items[1..], rest), ']', rest);
    BlankDelimits(item.after, more);
    SpellingReads(item.v, item.after + more);
    ItemReads(item, more);
    ItemsStep(ItemsOnto(items, rest), ValueOf(item.v), item.after + more, more, read);
    OneMoreValue(read, items);
    if |items| > 1 {
      ItemsRead(items[1..], rest, read + [ValueOf(item.v)]);
    }
  }

  lemma {:induction false} FieldReads(f: Field, more: string)
    requires ValidField(f)
    ensures ReadKey(FieldOnto(f, more)) == Some((CharsOf(f.key), ItemOnto(f.item, more)))
  {
    var after := ItemOnto(f.item, more);
    var colon := f.afterKey + ([':'] + after);
    var body := PiecesOnto(f.key, ['"'] + colon);
    SkipsBlank(f.before, ['"'] + body);
    assert (['"'] + body)[1..] == body;
    PiecesRead(f.key, colon, []);
    assert [] + CharsOf(f.key) == CharsOf(f.key);
    SkipsBlank(f.afterKey, [':'] + after);
    assert ([':'] + after)[1..] == after;
  }

  lemma {:induction false} FieldsStep(s: string, key: string, text: string, v: Value, after: string, more: string, read: seq<Member>)
    requires ReadKey(s) == Some((key, text)) && ReadValue(text) == Some((v, after))
    requires SkipSpace(after) == more && more != ""
    ensures more[0] == ',' ==> ReadMembers(s, read) == ReadMembers(more[1..], read + [Member(key, v)])
    ensures more[0] == '}' ==> ReadMembers(s, read) == Some((read + [Member(key, v)], more[1..]))
  {
  }

  function MemberOf(f: Field): Member
    requires ValidField(f)
  {
    Member(CharsOf(f.key), ValueOf(f.item.v))
  }

  lemma {:induction false} OneMoreMember(read: seq<Member>, fields: seq<Field>)
    requires fields != [] && ValidFields(fields)
    ensures read + [MemberOf(fields[0])] + MembersOf(fields[1..]) == read + MembersOf(fields)
    ensures |fields| == 1 ==> read + [MemberOf(fields[0])] == read + MembersOf(fields)
  {
    assert |fields| == 1 ==> fields[1..] == [];
  }

  lemma {:induction false} FieldsRead(fields: seq<Field>, rest: string, read: seq<Member>)
    requires fields != [] && ValidFields(fields)
    ensures ReadMembers(FieldsOnto(fields, rest), read) == Some((read + MembersOf(fields), rest))
    decreases fields, 1
  {
    var f := fields[0];
    var more := Following(|fields| == 1, if |fields| == 1 then "" else FieldsOnto(fields[1..], rest), '}', rest);
    FieldReads(f, more);
    BlankDelimits(f.item.after, more);
    SpellingReads(f.item.v, f.item.after + more);
    ItemReads(f.item, more);
    FieldsStep(
      FieldsOnto(fields, rest), CharsOf(f.key), ItemOnto(f.item, more), ValueOf(f.item.v), f.item.after + more, more, read);
    OneMoreMember(read, fields);
    if |fields| > 1 {
      FieldsRead(fields[1..], rest, read + [MemberOf(f)]);
    }
  }

  // ----- Whatever is read is a spelling -----

  lemma {:induction false} BlankSkipped(s: string) returns (blank: string)
    ensures Blank(blank) && s == blank + SkipSpace(s)
  {
    if s != "" && IsSpace(s[0]) {
      var more := BlankSkipped(s[1..]);
      blank := [s[0]] + more;
      Regroup([s[0]], more, SkipSpace(s[1..]));
      assert s == [s[0]] + s[1..];
    } else {
      blank := "";
      assert "" + s == s;
    }
  }

  lemma {:induction false} ScalarIsSpelled(s: string) returns (sp: Spelling)
    requires s != "" && ReadScalar(s).Some?
    ensures Valid(sp) && ReadScalar(s).value.0 == ValueOf(sp) && s == TextOnto(sp, ReadScalar(s).value.1)
  {
    var (v, rest) := ReadScalar(s).value;
    match s[0]
    case 'n' =>
      sp := SNull;
      assert s == "null" + s[4..];
    case 't' =>
      sp := SBool(true);
      assert s == "true" + s[4..];
    case 'f' =>
      sp := SBool(false);
      assert s == "false" + s[5..];
    case '"' =>
      var pieces := CharsArePieces(s[1..], []);
      sp := SStr(pieces);
      assert [] + CharsOf(pieces) == CharsOf(pieces) && s == ['"'] + s[1..];
    case _ =>
      var n := NumberRun(s);
      var parts := NumberParts(s[..n]);
      sp := SNum(parts);
      assert s == s[..n] + s[n..];
  }

  lemma {:induction false} ArrayParts(text: string)
    requires ReadValue(text).Some? && SkipSpace(text)[0] == '['
    ensures var body := SkipSpace(text)[1..];
      var t := SkipSpace(body);
      if t != "" && t[0] == ']' then ReadValue(text) == Some((Arr([]), t[1..]))
      else ReadItems(body, []).Some? &&
           ReadValue(text) == Some((Arr(ReadItems(body, []).value.0), ReadItems(body, []).value.1))
  {
  }

  lemma {:induction false} ObjectParts(text: string)
    requires ReadValue(text).Some? && SkipSpace(text)[0] == '{'
    ensures var body := SkipSpace(text)[1..];
      var t := SkipSpace(body);
      if t != "" && t[0] == '}' then ReadValue(text) == Some((Obj([]), t[1..]))
      else ReadMembers(body, []).Some? &&
           ReadValue(text) == Some((Obj(ReadMembers(body, []).value.0), ReadMembers(body, []).value.1))
  {
  }

  /** A value that is read is a spelling after some white space. */
  lemma {:induction false} ValueIsSpelled(text: string) returns (before: string, sp: Spelling)
    requires ReadValue(text).Some?
    ensures Blank(before) && Valid(sp) && ReadValue(text).value.0 == ValueOf(sp)
    ensures text == before + TextOnto(sp, ReadValue(text).value.1)
    decreases |text|, 1
  {
    before := BlankSkipped(text);
    var s := SkipSpace(text);
    Apart(s);
    if s[0] == '[' {
      sp := ArrayIsSpelled(text, s);
    } else if s[0] == '{' {
      sp := ObjectIsSpelled(text, s);
    } else {
      sp := ScalarIsSpelled(s);
    }
  }

  lemma {:induction false} ArrayIsSpelled(text: string, s: string) returns (sp: Spelling)
    requires ReadValue(text).Some? && s == SkipSpace(text) && s[0] == '['
    ensures Valid(sp) && ReadValue(text).value.0 == ValueOf(sp)
    ensures s == TextOnto(sp, ReadValue(text).value.1)
    decreases |text|, 0
  {
    var t := SkipSpace(s[1..]);
    ArrayParts(text);
    Apart(s);
    if t != "" && t[0] == ']' {
      var blank := BlankSkipped(s[1..]);
      sp := SArr(blank, []);
      Apart(t);
    } else {
      var items := ItemsAreSpelled(s[1..], []);
      sp := SArr("", items);
      assert [] + ValuesOf(items) == ValuesOf(items);
    }
  }

  lemma {:induction false} ObjectIsSpelled(text: string, s: string) returns (sp: Spelling)
    requires ReadValue(text).Some? && s == SkipSpace(text) && s[0] == '{'
    ensures Valid(sp) && ReadValue(text).value.0 == ValueOf(sp)
    ensures s == TextOnto(sp, ReadValue(text).value.1)
    decreases |text|, 0
  {
    var t := SkipSpace(s[1..]);
    ObjectParts(text);
    Apart(s);
    if t != "" && t[0] == '}' {
      var blank := BlankSkipped(s[1..]);
      sp := SObj(blank, []);
      Apart(t);
    } else {
      var fields := FieldsAreSpelled(s[1..], []);
      sp := SObj("", fields);
      assert [] + MembersOf(fields) == MembersOf(fields);
    }
  }

  lemma {:induction false} Apart(s: string)
    requires s != ""
    ensures s == [s[0]] + s[1..]
  {
  }

  /** What follows an item, when it is written out again. */
  lemma {:induction false} ItemsSpell(item: Item, others: seq<Item>, t: string, rest: string)
    requires t != ""
    requires others == [] ==> t[0] == ']' && rest == t[1..]
    requires others != [] ==> t[0] == ',' && t[1..] == ItemsOnto(others, rest)
    ensures ItemsOnto([item] + others, rest) == ItemOnto(item, t)
  {
    Apart(t);
    assert ([item] + others)[1..] == others;
  }

  lemma {:induction false} ValuesSpell(item: Item, others: seq<Item>, read: seq<Value>)
    requires ValidItem(item) && ValidItems(others)
    ensures ValidItems([item] + others)
    ensures read + [ValueOf(item.v)] + ValuesOf(others) == read + ValuesOf([item] + others)
  {
    assert ([item] + others)[1..] == others;
  }

  lemma {:induction false} ItemsAreSpelled(s: string, read: seq<Value>) returns (items: seq<Item>)
    requires ReadItems(s, read).Some?
    ensures items != [] && ValidItems(items) && ReadItems(s, read).value.0 == read + ValuesOf(items)
    ensures s == ItemsOnto(items, ReadItems(s, read).value.1)
    decreases |s|, 2
  {
    var before, sp := ValueIsSpelled(s);
    var (v, after) := ReadValue(s).value;
    var blank := BlankSkipped(after);
    var t := SkipSpace(after);
    var item, others := Item(before, sp, blank), [];
    ItemsStep(s, v, after, t, read);
    if t[0] == ',' {
      others := ItemsAreSpelled(t[1..], read + [v]);
    }
    items := [item] + others;
    ValuesSpell(item, others, read);
    ItemsSpell(item, others, t, ReadItems(s, read).value.1);
    if others == [] {
      assert read + [v] + [] == read + [v];
    }
  }

  lemma {:induction false} KeyParts(s: string)
    requires ReadKey(s).Some?
    ensures var t := SkipSpace(s);
      && t != "" && t[0] == '"' && ReadChars(t[1..], []).Some?
      && var (key, rest) := ReadChars(t[1..], []).value;
         var u := SkipSpace(rest);
         u != "" && u[0] == ':' && ReadKey(s) == Some((key, u[1..]))
  {
  }

  lemma {:induction false} KeyIsSpelled(s: string) returns (before: string, key: seq<Piece>, afterKey: string)
    requires ReadKey(s).Some?
    ensures Blank(before) && ValidPieces(key) && Blank(afterKey) && ReadKey(s).value.0 == CharsOf(key)
    ensures s == before + (['"'] + PiecesOnto(key, ['"'] + (afterKey + ([':'] + ReadKey(s).value.1))))
  {
    KeyParts(s);
    var t := SkipSpace(s);
    var rest := ReadChars(t[1..], []).value.1;
    before := BlankSkipped(s);
    key := CharsArePieces(t[1..], []);
    afterKey := BlankSkipped(rest);
    Apart(t);
    Apart(SkipSpace(rest));
    assert [] + CharsOf(key) == CharsOf(key);
  }

  lemma {:induction false} FieldsSpell(f: Field, others: seq<Field>, t: string, rest: string)
    requires t != ""
    requires others == [] ==> t[0] == '}' && rest == t[1..]
    requires others != [] ==> t[0] == ',' && t[1..] == FieldsOnto(others, rest)
    ensures FieldsOnto([f] + others, rest) == FieldOnto(f, t)
  {
    Apart(t);
    assert ([f] + others)[1..] == others;
  }

  lemma {:induction false} MembersSpell(f: Field, others: seq<Field>, read: seq<Member>)
    requires ValidField(f) && ValidFields(others)
    ensures ValidFields([f] + others)
    ensures read + [MemberOf(f)] + MembersOf(others) == read + MembersOf([f] + others)
  {
    assert ([f] + others)[1..] == others;
  }

  lemma {:induction false} FieldsAreSpelled(s: string, read: seq<Member>) returns (fields: seq<Field>)
    requires ReadMembers(s, read).Some?
    ensures fields != [] && ValidFields(fields) && ReadMembers(s, read).value.0 == read + MembersOf(fields)
    ensures s == FieldsOnto(fields, ReadMembers(s, read).value.1)
    decreases |s|, 2
  {
    var (key, text) := ReadKey(s).value;
    var before, pieces, afterKey := KeyIsSpelled(s);
    var start, sp := ValueIsSpelled(text);
    var (v, after) := ReadValue(text).value;
    var blank := BlankSkipped(after);
    var t := SkipSpace(after);
    var f, others := Field(before, pieces, afterKey, Item(start, sp, blank)), [];
    FieldsStep(s, key, text, v, after, t, read);
    if t[0] == ',' {
      others := FieldsAreSpelled(t[1..], read + [Member(key, v)]);
    }
    fields := [f] + others;
    MembersSpell(f, others, read);
    FieldsSpell(f, others, t, ReadMembers(s, read).value.1);
    if others == [] {
      assert read + [Member(key, v)] + [] == read + [Member(key, v)];
    }
  }

  // ----- Whole texts -----

  /** A text: one value between white space. */
  function Text(item: Item): string { ItemOnto(item, "") }

  /** Every text of the grammar is read, as the value it spells. */
  lemma {:induction false} TextReads(item: Item)
    requires ValidItem(item)
    ensures Read(Text(item)) == Some(ValueOf(item.v))
  {
    assert item.after + "" == item.after;
    BlankDelimits(item.after, "");
    SpellingReads(item.v, item.after);
    Starts(item.v, item.after);
    ReadsPast(item.before, TextOnto(item.v, item.after));
    SkipsBlank(item.after, "");
  }

  /** A text is read as a value exactly when the grammar spells that value with it. */
  lemma {:induction false} ReadsExactlyTheGrammar(text: string, v: Value)
    ensures Read(text) == Some(v) <==> exists item :: ValidItem(item) && ValueOf(item.v) == v && Text(item) == text
  {
    if Read(text) == Some(v) {
      var before, sp := ValueIsSpelled(text);
      var rest := ReadValue(text).value.1;
      var after := BlankSkipped(rest);
      assert after + "" == after == rest;
      var item := Item(before, sp, after);
      assert ValidItem(item) && ValueOf(item.v) == v && Text(item) == text;
    }
    if exists item :: ValidItem(item) && ValueOf(item.v) == v && Text(item) == text {
      var item :| ValidItem(item) && ValueOf(item.v) == v && Text(item) == text;
      TextReads(item);
    }
  }
}
