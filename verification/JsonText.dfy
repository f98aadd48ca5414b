/** JSON values, their compact text, and a plain reader of the RFC 8259 grammar. The reader
    keeps every member it sees, in order and with repeated keys: it is the reference against
    which the strict parser and the canonical printer are stated. */
module JsonText {
  import opened Basics

  /** A value as serde_json holds it: numbers keep their exact text, members keep their order. */
  datatype Value =
    | Null
    | Bool(b: bool)
    | Num(text: Number)
    | Str(s: string)
    | Arr(items: seq<Value>)
    | Obj(members: seq<Member>)

  datatype Member = Member(key: string, value: Value)

  // ----- Numbers: RFC 8259, section 6 -----

  predicate NumberChar(c: char) { IsDigit(c) || c in "+-.eE" }

  function LeadingDigits(s: string): (n: nat)
    ensures n <= |s|
  {
    if s == [] || !IsDigit(s[0]) then 0 else 1 + LeadingDigits(s[1..])
  }

  predicate IsInteger(s: string)
  {
    s != [] && IsDigit(s[0]) && LeadingDigits(s) == |s| && (s[0] == '0' ==> |s| == 1)
  }

  predicate IsExponent(s: string)
  {
    s == [] ||
    (s[0] in "eE" &&
     var digits := if |s| > 1 && s[1] in "+-" then s[2..] else s[1..];
     digits != [] && LeadingDigits(digits) == |digits|)
  }

  predicate IsFraction(s: string)
  {
    if s != [] && s[0] == '.' then
      var n := LeadingDigits(s[1..]);
      n > 0 && IsExponent(s[1 + n..])
    else
      IsExponent(s)
  }

  /** `-?int frac? exp?` with no leading zero. */
  predicate IsNumber(s: string)
  {
    && (forall i :: 0 <= i < |s| ==> NumberChar(s[i]))
    && var body := if s != [] && s[0] == '-' then s[1..] else s;
       var n := if body != [] && body[0] == '0' then 1 else LeadingDigits(body);
       n > 0 && IsInteger(body[..n]) && IsFraction(body[n..])
  }

  /** A number keeps its exact text. */
  type Number = s: string | IsNumber(s) witness "0"

  /** The float spelling of a number: it has a fraction or an exponent. */
  predicate HasMark(s: string) { '.' in s || 'e' in s || 'E' in s }

  /** A number without its sign. */
  function Magnitude(raw: string): string { if raw != [] && raw[0] == '-' then raw[1..] else raw }

  lemma {:induction false} LeadingAreDigits(s: string, i: nat)
    requires i < LeadingDigits(s)
    ensures IsDigit(s[i])
  {
    if i > 0 {
      LeadingAreDigits(s[1..], i - 1);
    }
  }

  /** A number without a fraction or an exponent is a numeral once its sign is gone. */
  lemma UnmarkedIsNumeral(raw: Number)
    requires !HasMark(raw)
    ensures IsNumeral(Magnitude(raw))
  {
    var body := Magnitude(raw);
    var n := if body != [] && body[0] == '0' then 1 else LeadingDigits(body);
    if body[n..] != [] {
      assert false;
    }
    assert body[..n] == body;
    forall i | 0 <= i < |body| ensures IsDigit(body[i]) {
      LeadingAreDigits(body, i);
    }
  }

  function NumberRun(s: string): (n: nat)
    ensures n <= |s|
  {
    if s == [] || !NumberChar(s[0]) then 0 else 1 + NumberRun(s[1..])
  }

  // ----- Strings: RFC 8259, section 7 -----

  const HEX := "0123456789abcdef"

  function HexValue(c: char): (r: Option<nat>)
    ensures r.Some? ==> r.value < 16
  {
    if '0' <= c <= '9' then Some(c as int - '0' as int)
    else if 'a' <= c <= 'f' then Some(c as int - 'a' as int + 10)
    else if 'A' <= c <= 'F' then Some(c as int - 'A' as int + 10)
    else None
  }

  function Hex4(s: string): (r: Option<nat>)
    ensures r.Some? ==> |s| >= 4 && r.value < 0x10000
  {
    if |s| < 4 then None else
    var a :- HexValue(s[0]);
    var b :- HexValue(s[1]);
    var c :- HexValue(s[2]);
    var d :- HexValue(s[3]);
    Some(4096 * a + 256 * b + 16 * c + d)
  }

  /** What serde_json writes for one character of a string. */
  function Escape(c: char): (r: string)
    ensures r != []
  {
    match c
    case '"' => "\\\""
    case '\\' => "\\\\"
    case '\n' => "\\n"
    case '\r' => "\\r"
    case '\t' => "\\t"
    case _ =>
      if c == 8 as char then "\\b"
      else if c == 12 as char then "\\f"
      else if c < ' ' then "\\u00" + [HEX[c as int / 16], HEX[c as int % 16]]
      else [c]
  }

  function EscapeAll(s: string): string
  {
    if s == [] then [] else Escape(s[0]) + EscapeAll(s[1..])
  }

  function Quote(s: string): string { "\"" + EscapeAll(s) + "\"" }

  /** The character an escape names, given what follows its backslash, and what is left. A
      surrogate counts only as the first half of a pair. */
  function ReadEscape(s: string): (r: Option<(char, string)>)
    ensures r.Some? ==> |r.value.1| < |s|
  {
    if s == [] then None
    else match s[0]
      case '"' => Some(('"', s[1..]))
      case '\\' => Some(('\\', s[1..]))
      case '/' => Some(('/', s[1..]))
      case 'b' => Some((8 as char, s[1..]))
      case 'f' => Some((12 as char, s[1..]))
      case 'n' => Some(('\n', s[1..]))
      case 'r' => Some(('\r', s[1..]))
      case 't' => Some(('\t', s[1..]))
      case 'u' =>
        var first :- Hex4(s[1..]);
        if first < 0xD800 || first >= 0xE000 then Some((first as char, s[5..]))
        else if first >= 0xDC00 || |s| < 7 || s[5] != '\\' || s[6] != 'u' then None
        else
          var second :- Hex4(s[7..]);
          if second < 0xDC00 || second >= 0xE000 then None
          else Some(((0x10000 + 0x400 * (first - 0xD800) + (second - 0xDC00)) as char, s[11..]))
      case _ => None
  }

  /** The rest of a string after its opening quote. */
  function ReadChars(s: string, read: string): (r: Option<(string, string)>)
    ensures r.Some? ==> |r.value.1| < |s|
    decreases |s|
  {
    if s == [] then None
    else if s[0] == '"' then Some((read, s[1..]))
    else if s[0] == '\\' then
      var (c, rest) :- ReadEscape(s[1..]);
      ReadChars(rest, read + [c])
    else if s[0] < ' ' then None
    else ReadChars(s[1..], read + [s[0]])
  }

  // ----- Values -----

  predicate IsSpace(c: char) { c in " \t\n\r" }

  function SkipSpace(s: string): (r: string)
    ensures |r| <= |s|
    ensures r == [] || !IsSpace(r[0])
  {
    if s != [] && IsSpace(s[0]) then SkipSpace(s[1..]) else s
  }

  function ReadWord(s: string, word: string, v: Value): (r: Option<(Value, string)>)
    requires word != []
    ensures r.Some? ==> |r.value.1| < |s|
  {
    if word <= s then Some((v, s[|word|..])) else None
  }

  function ReadValue(text: string): (r: Option<(Value, string)>)
    ensures r.Some? ==> |r.value.1| < |text|
    decreases |text|, 1
  {
    var s := SkipSpace(text);
    if s == [] then None
    else if s[0] == '[' then
      var t := SkipSpace(s[1..]);
      if t != [] && t[0] == ']' then Some((Arr([]), t[1..]))
      else
        var (items, rest) :- ReadItems(s[1..], []);
        Some((Arr(items), rest))
    else if s[0] == '{' then
      var t := SkipSpace(s[1..]);
      if t != [] && t[0] == '}' then Some((Obj([]), t[1..]))
      else
        var (members, rest) :- ReadMembers(s[1..], []);
        Some((Obj(members), rest))
    else ReadScalar(s)
  }

  function ReadScalar(s: string): (r: Option<(Value, string)>)
    requires s != []
    ensures r.Some? ==> |r.value.1| < |s|
    ensures r.Some? ==> !r.value.0.Arr? && !r.value.0.Obj?
  {
    match s[0]
    case 'n' => ReadWord(s, "null", Null)
    case 't' => ReadWord(s, "true", Bool(true))
    case 'f' => ReadWord(s, "false", Bool(false))
    case '"' =>
      var (chars, rest) :- ReadChars(s[1..], []);
      Some((Str(chars), rest))
    case _ =>
      var n := NumberRun(s);
      if IsNumber(s[..n]) then Some((Num(s[..n]), s[n..])) else None
  }

  /** One or more items, and the bracket that ends them, after the `read` ones. */
  function ReadItems(s: string, read: seq<Value>): (r: Option<(seq<Value>, string)>)
    ensures r.Some? ==> |r.value.1| < |s|
    decreases |s|, 2
  {
    var (v, rest) :- ReadValue(s);
    var t := SkipSpace(rest);
    if t == [] then None
    else if t[0] == ',' then ReadItems(t[1..], read + [v])
    else if t[0] == ']' then Some((read + [v], t[1..]))
    else None
  }

  /** A member's key and the text after its colon. */
  function ReadKey(s: string): (r: Option<(string, string)>)
    ensures r.Some? ==> |r.value.1| < |s|
  {
    var t := SkipSpace(s);
    if t == [] || t[0] != '"' then None
    else
      var (key, rest) :- ReadChars(t[1..], []);
      var u := SkipSpace(rest);
      if u == [] || u[0] != ':' then None else Some((key, u[1..]))
  }

  /** One or more members, and the brace that ends them, after the `read` ones. */
  function ReadMembers(s: string, read: seq<Member>): (r: Option<(seq<Member>, string)>)
    ensures r.Some? ==> |r.value.1| < |s|
    decreases |s|, 2
  {
    var (key, after) :- ReadKey(s);
    var (v, rest) :- ReadValue(after);
    var t := SkipSpace(rest);
    if t == [] then None
    else if t[0] == ',' then ReadMembers(t[1..], read + [Member(key, v)])
    else if t[0] == '}' then Some((read + [Member(key, v)], t[1..]))
    else None
  }

  /** A whole text that is one value. */
  function Read(text: string): Option<Value>
  {
    var (v, rest) :- ReadValue(text);
    if SkipSpace(rest) == [] then Some(v) else None
  }

  /** The compact text of a value, members in the order it holds them. */
  function Render(v: Value): string
    decreases v
  {
    match v
    case Null => "null"
    case Bool(b) => if b then "true" else "false"
    case Num(text) => text
    case Str(s) => Quote(s)
    case Arr(items) => "[" + RenderItems(items) + "]"
    case Obj(members) => "{" + RenderMembers(members) + "}"
  }

  function RenderItems(items: seq<Value>): string
    decreases items
  {
    if items == [] then []
    else if |items| == 1 then Render(items[0])
    else Render(items[0]) + "," + RenderItems(items[1..])
  }

  function RenderMember(m: Member): string
    decreases m, 1
  {
    Quote(m.key) + ":" + Render(m.value)
  }

  function RenderMembers(members: seq<Member>): string
    decreases members
  {
    if members == [] then []
    else if |members| == 1 then RenderMember(members[0])
    else RenderMember(members[0]) + "," + RenderMembers(members[1..])
  }

  // ----- The reader undoes the printer -----

  // The same text with `rest` written after it, built from the right, so that taking a
  // character off the front never regroups a concatenation.

  function Onto(v: Value, rest: string): (r: string)
    ensures Delimited(rest) ==> r != [] && !IsSpace(r[0]) && r[0] != ']'
    decreases v
  {
    match v
    case Arr(items) => ['['] + ItemsOnto(items, [']'] + rest)
    case Obj(members) => ['{'] + MembersOnto(members, ['}'] + rest)
    case Str(s) => ['"'] + CharsOnto(s, ['"'] + rest)
    case Null => "null" + rest
    case Bool(b) => (if b then "true" else "false") + rest
    case Num(text) => text + rest
  }

  function CharsOnto(s: string, rest: string): string
  {
    if s == [] then rest else Escape(s[0]) + CharsOnto(s[1..], rest)
  }

  function ItemsOnto(items: seq<Value>, rest: string): string
    decreases items
  {
    if items == [] then rest
    else Onto(items[0], if |items| == 1 then rest else [','] + ItemsOnto(items[1..], rest))
  }

  function MemberOnto(m: Member, rest: string): string
    decreases m, 1
  {
    ['"'] + CharsOnto(m.key, ['"'] + ([':'] + Onto(m.value, rest)))
  }

  function MembersOnto(members: seq<Member>, rest: string): string
    decreases members
  {
    if members == [] then rest
    else MemberOnto(members[0], if |members| == 1 then rest else [','] + MembersOnto(members[1..], rest))
  }

  lemma {:induction false} CharsOntoIsEscapeAll(s: string, rest: string)
    ensures CharsOnto(s, rest) == EscapeAll(s) + rest
  {
    if s != [] {
      CharsOntoIsEscapeAll(s[1..], rest);
      Regroup(Escape(s[0]), EscapeAll(s[1..]), rest);
    }
  }

  lemma QuoteOnto(s: string, rest: string)
    ensures ['"'] + CharsOnto(s, ['"'] + rest) == Quote(s) + rest
  {
    CharsOntoIsEscapeAll(s, ['"'] + rest);
    var text := EscapeAll(s);
    assert "\"" + text + "\"" + rest == ['"'] + (text + (['"'] + rest));
  }

  lemma RegroupComma(head: string, tail: string, rest: string)
    ensures head + "," + tail + rest == head + ([','] + (tail + rest))
  {
  }

  lemma {:induction false} OntoIsRender(v: Value, rest: string)
    ensures Onto(v, rest) == Render(v) + rest
    decreases v, 1
  {
    match v
    case Arr(items) =>
      ItemsOntoIsRender(items, [']'] + rest);
      var text := RenderItems(items);
      assert "[" + text + "]" + rest == ['['] + (text + ([']'] + rest));
    case Obj(members) =>
      MembersOntoIsRender(members, ['}'] + rest);
      var text := RenderMembers(members);
      assert "{" + text + "}" + rest == ['{'] + (text + (['}'] + rest));
    case Str(s) => QuoteOnto(s, rest);
    case _ =>
  }

  lemma {:induction false} ItemsOntoIsRender(items: seq<Value>, rest: string)
    ensures ItemsOnto(items, rest) == RenderItems(items) + rest
    decreases items, 0
  {
    if |items| == 1 {
      OntoIsRender(items[0], rest);
    } else if |items| > 1 {
      ItemsOntoIsRender(items[1..], rest);
      var head, tail := Render(items[0]), RenderItems(items[1..]);
      OntoIsRender(items[0], [','] + (tail + rest));
      RegroupComma(head, tail, rest);
    }
  }

  lemma {:induction false} MemberOntoIsRender(m: Member, rest: string)
    ensures MemberOnto(m, rest) == RenderMember(m) + rest
    decreases m, 2
  {
    OntoIsRender(m.value, rest);
    var text := Render(m.value);
    QuoteOnto(m.key, [':'] + (text + rest));
    var key := Quote(m.key);
    assert key + ":" + text + rest == key + ([':'] + (text + rest));
  }

  lemma {:induction false} MembersOntoIsRender(members: seq<Member>, rest: string)
    ensures MembersOnto(members, rest) == RenderMembers(members) + rest
    decreases members, 0
  {
    if |members| == 1 {
      MemberOntoIsRender(members[0], rest);
    } else if |members| > 1 {
      MembersOntoIsRender(members[1..], rest);
      var head, tail := RenderMember(members[0]), RenderMembers(members[1..]);
      MemberOntoIsRender(members[0], [','] + (tail + rest));
      RegroupComma(head, tail, rest);
    }
  }

  /** Where a number may end: whatever follows is not part of it. */
  predicate Delimited(rest: string) { rest == [] || !NumberChar(rest[0]) }

  lemma {:induction false} NumberRunStops(s: string, rest: string)
    requires forall i :: 0 <= i < |s| ==> NumberChar(s[i])
    requires Delimited(rest)
    ensures NumberRun(s + rest) == |s|
  {
    if s == [] {
      assert s + rest == rest;
    } else {
      NumberRunStops(s[1..], rest);
      assert (s + rest)[1..] == s[1..] + rest;
    }
  }

  lemma HexDigitReads(n: nat)
    requires n < 16
    ensures HexValue(HEX[n]) == Some(n)
  {
  }

  lemma UnicodeEscapeReads(c: char, rest: string)
    requires c < ' '
    ensures ReadEscape("u00" + [HEX[c as int / 16], HEX[c as int % 16]] + rest) == Some((c, rest))
  {
    var s := "u00" + [HEX[c as int / 16], HEX[c as int % 16]] + rest;
    var t := s[1..];
    assert t[0] == '0' && t[1] == '0' && t[2] == HEX[c as int / 16] && t[3] == HEX[c as int % 16];
    HexDigitReads(c as int / 16);
    HexDigitReads(c as int % 16);
    assert Hex4(t) == Some(c as int);
    assert s[5..] == rest;
  }

  lemma EscapeReads(c: char, rest: string, read: string)
    ensures ReadChars(Escape(c) + rest, read) == ReadChars(rest, read + [c])
  {
    var s := Escape(c) + rest;
    if s[0] != '\\' {
      assert s[1..] == rest;
    } else if |Escape(c)| == 2 {
      assert s[1..] == [s[1]] + rest;
      assert s[1..][1..] == rest;
      assert ReadEscape(s[1..]) == Some((c, rest));
    } else {
      UnicodeEscapeReads(c, rest);
      assert s[1..] == "u00" + [HEX[c as int / 16], HEX[c as int % 16]] + rest;
    }
  }

  lemma {:induction false} CharsReadBack(s: string, rest: string, read: string, all: string)
    requires all == read + s
    ensures ReadChars(CharsOnto(s, ['"'] + rest), read) == Some((all, rest))
  {
    if s == [] {
      assert (['"'] + rest)[1..] == rest;
      assert all == read;
    } else {
      CharsReadBack(s[1..], rest, read + [s[0]], all);
      EscapeReads(s[0], CharsOnto(s[1..], ['"'] + rest), read);
    }
  }

  lemma ScalarReadsBack(v: Value, rest: string)
    requires !v.Arr? && !v.Obj?
    requires Delimited(rest)
    ensures Onto(v, rest)[0] != '[' && Onto(v, rest)[0] != '{'
    ensures ReadScalar(Onto(v, rest)) == Some((v, rest))
  {
    var s := Onto(v, rest);
    match v
    case Null => assert "null" <= s && s[4..] == rest;
    case Bool(b) =>
      if b {
        assert "true" <= s && s[4..] == rest;
      } else {
        assert "false" <= s && s[5..] == rest;
      }
    case Num(text) =>
      NumberRunStops(text, rest);
      assert s[..|text|] == text && s[|text|..] == rest;
      assert s[0] == text[0];
    case Str(chars) =>
      CharsReadBack(chars, rest, [], chars);
      assert s[1..] == CharsOnto(chars, ['"'] + rest);
  }

  lemma Opens(open: char, body: string, s: string)
    requires s == [open] + body && !IsSpace(open)
    ensures s[0] == open && s[1..] == body && SkipSpace(s) == s
  {
  }

  lemma ArrayReads(items: seq<Value>, body: string, rest: string)
    requires items == [] ==> body == [']'] + rest
    requires items != [] ==> ReadItems(body, []) == Some((items, rest))
    requires items != [] ==> body != [] && SkipSpace(body) == body && body[0] != ']'
    ensures ReadValue(['['] + body) == Some((Arr(items), rest))
  {
    Opens('[', body, ['['] + body);
    if items == [] {
      Opens(']', rest, body);
    }
  }

  lemma ObjectReads(members: seq<Member>, body: string, rest: string)
    requires members == [] ==> body == ['}'] + rest
    requires members != [] ==> ReadMembers(body, []) == Some((members, rest))
    requires members != [] ==> body != [] && body[0] == '"'
    ensures ReadValue(['{'] + body) == Some((Obj(members), rest))
  {
    Opens('{', body, ['{'] + body);
    if members == [] {
      Opens('}', rest, body);
    } else {
      assert SkipSpace(body) == body;
    }
  }

  lemma {:induction false} ReadsBack(v: Value, rest: string)
    requires Delimited(rest)
    ensures ReadValue(Onto(v, rest)) == Some((v, rest))
    decreases v, 1
  {
    match v
    case Arr(items) =>
      if items != [] {
        ItemsReadBack(items, rest, [], items);
        ItemsStart(items, rest);
      }
      ArrayReads(items, ItemsOnto(items, [']'] + rest), rest);
    case Obj(members) =>
      if members != [] {
        MembersReadBack(members, rest, [], members);
      }
      ObjectReads(members, MembersOnto(members, ['}'] + rest), rest);
    case _ => ScalarReadsBack(v, rest);
  }

  /** How one more item or member is read, when what follows starts with no space. */
  lemma ReadsOneMore(s: string, v: Value, more: string, items: seq<Value>)
    requires ReadValue(s) == Some((v, more))
    requires more != [] && !IsSpace(more[0])
    ensures more[0] == ',' ==> ReadItems(s, items) == ReadItems(more[1..], items + [v])
    ensures more[0] == ']' ==> ReadItems(s, items) == Some((items + [v], more[1..]))
  {
    assert SkipSpace(more) == more;
  }

  lemma ReadsOneMoreMember(s: string, key: string, after: string, v: Value, more: string, members: seq<Member>)
    requires ReadKey(s) == Some((key, after))
    requires ReadValue(after) == Some((v, more))
    requires more != [] && !IsSpace(more[0])
    ensures more[0] == ',' ==> ReadMembers(s, members) == ReadMembers(more[1..], members + [Member(key, v)])
    ensures more[0] == '}' ==> ReadMembers(s, members) == Some((members + [Member(key, v)], more[1..]))
  {
    assert SkipSpace(more) == more;
  }

  /** What follows an item or a member: the closing bracket, or a comma and the others. */
  function Following(last: bool, tail: string, close: char, rest: string): (r: string)
    ensures r != []
    ensures r[0] == if last then close else ','
    ensures r[1..] == if last then rest else tail
  {
    if last then [close] + rest else [','] + tail
  }

  lemma ItemsStart(items: seq<Value>, rest: string)
    requires items != []
    ensures var s := ItemsOnto(items, [']'] + rest);
            s != [] && !IsSpace(s[0]) && s[0] != ']' && SkipSpace(s) == s
  {
  }

  lemma ItemsOntoStep(items: seq<Value>, rest: string)
    requires items != []
    ensures ItemsOnto(items, [']'] + rest) ==
            Onto(items[0], Following(|items| == 1, ItemsOnto(items[1..], [']'] + rest), ']', rest))
  {
  }

  lemma {:induction false} ItemsReadBack(items: seq<Value>, rest: string, read: seq<Value>, all: seq<Value>)
    requires items != [] && all == read + items
    ensures ReadItems(ItemsOnto(items, [']'] + rest), read) == Some((all, rest))
    decreases items, 0
  {
    var tail := ItemsOnto(items[1..], [']'] + rest);
    var more := Following(|items| == 1, tail, ']', rest);
    ReadsBack(items[0], more);
    ReadsOneMore(Onto(items[0], more), items[0], more, read);
    ItemsOntoStep(items, rest);
    MovesOne(read, items, all);
    if |items| > 1 {
      ItemsReadBack(items[1..], rest, read + [items[0]], all);
    }
  }

  lemma KeyReads(key: string, rest: string)
    ensures ReadKey(['"'] + CharsOnto(key, ['"'] + ([':'] + rest))) == Some((key, rest))
  {
    var body := CharsOnto(key, ['"'] + ([':'] + rest));
    CharsReadBack(key, [':'] + rest, [], key);
    assert (['"'] + body)[1..] == body;
    assert ([':'] + rest)[1..] == rest;
  }

  lemma MembersOntoStep(members: seq<Member>, rest: string)
    requires members != []
    ensures MembersOnto(members, ['}'] + rest) ==
            MemberOnto(members[0], Following(|members| == 1, MembersOnto(members[1..], ['}'] + rest), '}', rest))
  {
  }

  lemma MembersUnfold(members: seq<Member>, rest: string, tail: string, more: string, read: seq<Member>)
    requires members != [] && tail == MembersOnto(members[1..], ['}'] + rest)
    requires more == Following(|members| == 1, tail, '}', rest)
    requires ReadValue(Onto(members[0].value, more)) == Some((members[0].value, more))
    ensures ReadMembers(MembersOnto(members, ['}'] + rest), read) ==
            if |members| == 1 then Some((read + [members[0]], rest))
            else ReadMembers(tail, read + [members[0]])
  {
    var m := members[0];
    KeyReads(m.key, Onto(m.value, more));
    ReadsOneMoreMember(MemberOnto(m, more), m.key, Onto(m.value, more), m.value, more, read);
    MembersOntoStep(members, rest);
  }

  /** One item goes from what is left to what was read. */
  lemma MovesOne<T>(read: seq<T>, left: seq<T>, all: seq<T>)
    requires left != [] && all == read + left
    ensures all == read + [left[0]] + left[1..]
    ensures |left| == 1 ==> all == read + [left[0]]
  {
  }

  lemma {:induction false} MembersReadBack(
      members: seq<Member>, rest: string, read: seq<Member>, all: seq<Member>)
    requires members != [] && all == read + members
    ensures ReadMembers(MembersOnto(members, ['}'] + rest), read) == Some((all, rest))
    decreases members, 0
  {
    var tail := MembersOnto(members[1..], ['}'] + rest);
    var more := Following(|members| == 1, tail, '}', rest);
    ReadsBack(members[0].value, more);
    MembersUnfold(members, rest, tail, more, read);
    MovesOne(read, members, all);
    if |members| > 1 {
      MembersReadBack(members[1..], rest, read + [members[0]], all);
    }
  }

  /** RFC 8259 text is uniquely readable: reading a compact text gives the value it was
      printed from. */
  lemma RenderRoundTrip(v: Value)
    ensures Read(Render(v)) == Some(v)
  {
    ReadsBack(v, []);
    OntoIsRender(v, []);
    assert Render(v) + [] == Render(v);
  }
}
