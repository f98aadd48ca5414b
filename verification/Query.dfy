/** The query of a log or metric read, and how a server reads it. */
module Query {
  import opened Basics
  import opened Texts
  import opened Utf8

  // ----- What is asked for -----

  datatype View = Logs(stream: string, lines: int) | Metrics(maxPoints: int, names: Option<seq<string>>)

  datatype Pair = Pair(name: string, value: string)

  datatype Failure = Invalid

  predicate HasControl(s: string) { exists i :: 0 <= i < |s| && s[i] < ' ' }

  predicate ValidName(s: string) { Trim(s) != "" && |s| <= 128 && !HasControl(s) }

  predicate ValidNames(names: seq<string>) { |names| <= 256 && forall i :: 0 <= i < |names| ==> ValidName(names[i]) }

  function NamePairs(names: seq<string>): seq<Pair>
  {
    if names == [] then [] else [Pair("name", names[0])] + NamePairs(names[1..])
  }

  /** The pairs a view asks with. */
  function PairsOf(view: View): Result<seq<Pair>, Failure>
  {
    match view
    case Logs(stream, lines) =>
      if stream !in ["both", "stdout", "stderr"] || !(1 <= lines <= 10000) then Err(Invalid)
      else Ok([Pair("stream", stream), Pair("lines", Decimal(lines))])
    case Metrics(maxPoints, names) =>
      var selected := if names.Some? then names.value else [];
      if maxPoints <= 0 || !ValidNames(selected) then Err(Invalid)
      else Ok([Pair("max_points", Decimal(maxPoints))] + NamePairs(selected))
  }

  lemma {:induction false} NamesAt(names: seq<string>, i: nat)
    ensures |NamePairs(names)| == |names|
    ensures i < |names| ==> NamePairs(names)[i] == Pair("name", names[i])
  {
    if names != [] {
      NamesAt(names[1..], if i > 0 then i - 1 else 0);
    }
  }

  /** What is asked for: a stream and a number of lines within the bounds, or a positive number of
      points and each name in order. Anything else is refused. */
  lemma QueryAsks(view: View)
    ensures view.Logs? ==>
      (PairsOf(view).Ok? <==>
         (view.stream == "both" || view.stream == "stdout" || view.stream == "stderr") && 1 <= view.lines <= 10000)
      && (PairsOf(view).Ok? ==>
            PairsOf(view).value == [Pair("stream", view.stream), Pair("lines", Decimal(view.lines))])
    ensures view.Metrics? ==>
      var names := if view.names.Some? then view.names.value else [];
      && (PairsOf(view).Ok? <==> view.maxPoints > 0 && ValidNames(names))
      && (PairsOf(view).Ok? ==>
            && |PairsOf(view).value| == 1 + |names|
            && PairsOf(view).value[0] == Pair("max_points", Decimal(view.maxPoints))
            && forall i :: 0 <= i < |names| ==> PairsOf(view).value[1 + i] == Pair("name", names[i]))
  {
    if view.Metrics? {
      var names := if view.names.Some? then view.names.value else [];
      NamesAt(names, 0);
      forall i | 0 <= i < |names| ensures NamePairs(names)[i] == Pair("name", names[i]) {
        NamesAt(names, i);
      }
    }
  }

  // ----- Writing it -----

  const HEX := "0123456789ABCDEF"

  predicate IsUnreserved(b: byte)
  {
    var c := b as char;
    IsAlphanumeric(c) || c == '_' || c == '.' || c == '-' || c == '~'
  }

  function QuoteByte(b: byte): (r: string)
    ensures r != ""
  {
    if IsUnreserved(b) then [b as char] else if b == 32 then "+" else ['%', HEX[b / 16], HEX[b % 16]]
  }

  function QuoteBytes(bytes: Bytes): string
  {
    if bytes == [] then "" else QuoteByte(bytes[0]) + QuoteBytes(bytes[1..])
  }

  function QuotePlus(value: string): string { QuoteBytes(Utf8.Encode(value)) }

  lemma {:induction false} QuoteAppend(bytes: Bytes, b: byte)
    ensures QuoteBytes(bytes + [b]) == QuoteBytes(bytes) + QuoteByte(b)
  {
    if bytes == [] {
      assert QuoteBytes([b]) == QuoteByte(b) + QuoteBytes([b][1..]);
      assert [] + [b] == [b];
    } else {
      QuoteAppend(bytes[1..], b);
      assert (bytes + [b])[1..] == bytes[1..] + [b];
      Regroup(QuoteByte(bytes[0]), QuoteBytes(bytes[1..]), QuoteByte(b));
    }
  }

  method WriteQuoted(value: Bytes) returns (encoded: string)
    ensures encoded == QuoteBytes(value)
  {
    encoded := "";
    for i := 0 to |value|
      invariant encoded == QuoteBytes(value[..i])
    {
      var b := value[i];
      assert value[..i + 1] == value[..i] + [b];
      QuoteAppend(value[..i], b);
      if IsUnreserved(b) {
        encoded := encoded + [b as char];
      } else if b == 32 {
        encoded := encoded + "+";
      } else {
        encoded := encoded + ['%', HEX[b / 16], HEX[b % 16]];
      }
    }
    assert value[..|value|] == value;
  }

  function WritePair(p: Pair): string { p.name + ("=" + QuotePlus(p.value)) }

  function WritePairs(pairs: seq<Pair>): string
  {
    if pairs == [] then "" else if |pairs| == 1 then WritePair(pairs[0])
    else WritePair(pairs[0]) + ("&" + WritePairs(pairs[1..]))
  }

  // ----- Reading it: the URL Standard, section 5.1, application/x-www-form-urlencoded parsing -----

  function HexDigit(c: char): Option<nat>
  {
    if '0' <= c <= '9' then Some(c as int - '0' as int)
    else if 'A' <= c <= 'F' then Some(c as int - 'A' as int + 10)
    else if 'a' <= c <= 'f' then Some(c as int - 'a' as int + 10)
    else None
  }

  /** Plus signs become spaces, and a percent sign with two hex digits the byte they name. */
  function PercentDecode(s: string): Bytes
    decreases |s|
  {
    if s == "" then []
    else if s[0] == '+' then [32] + PercentDecode(s[1..])
    else if s[0] == '%' && |s| >= 3 && HexDigit(s[1]).Some? && HexDigit(s[2]).Some? then
      var high, low := HexDigit(s[1]).value, HexDigit(s[2]).value;
      assert high < 16 && low < 16;
      [16 * high + low] + PercentDecode(s[3..])
    else Utf8.EncodeChar(s[0]) + PercentDecode(s[1..])
  }

  /** The text before the first `c`, and after it. */
  function Cut(s: string, c: char): (r: (string, string))
    ensures |r.0| + |r.1| <= |s| && (s != "" && r.1 != "" ==> |r.1| < |s|)
  {
    if s == "" then ("", "") else if s[0] == c then ("", s[1..])
    else
      var (before, after) := Cut(s[1..], c);
      ([s[0]] + before, after)
  }

  /** The pieces between ampersands that are not empty. */
  function Pieces(s: string): seq<string>
    decreases |s|
  {
    if s == "" then []
    else
      var (piece, rest) := Cut(s, '&');
      var others := if |rest| < |s| then Pieces(rest) else [];
      if piece == "" then others else [piece] + others
  }

  /** One name and value; none where the bytes are no text. */
  function ReadPair(piece: string): Option<Pair>
  {
    var (name, value) := Cut(piece, '=');
    var n :- Utf8.Decode(PercentDecode(name));
    var v :- Utf8.Decode(PercentDecode(value));
    Some(Pair(n, v))
  }

  function ReadPieces(pieces: seq<string>): Option<seq<Pair>>
  {
    if pieces == [] then Some([])
    else
      var first :- ReadPair(pieces[0]);
      var others :- ReadPieces(pieces[1..]);
      Some([first] + others)
  }

  function ReadPairs(s: string): Option<seq<Pair>> { ReadPieces(Pieces(s)) }

  // ----- What is written reads back -----

  lemma HexReads(n: nat)
    requires n < 16
    ensures HexDigit(HEX[n]) == Some(n)
  {
  }

  lemma PlainByteReads(b: byte, rest: string)
    requires IsUnreserved(b) || b == 32
    ensures PercentDecode(QuoteByte(b) + rest) == [b] + PercentDecode(rest)
  {
    var s := QuoteByte(b) + rest;
    assert s[1..] == rest;
    assert IsUnreserved(b) ==> s[0] == b as char && Utf8.EncodeChar(b as char) == [b];
  }

  lemma EscapedByteReads(b: byte, high: char, low: char, rest: string)
    requires HexDigit(high) == Some(b / 16) && HexDigit(low) == Some(b % 16)
    ensures PercentDecode(['%', high, low] + rest) == [b] + PercentDecode(rest)
  {
    var s := ['%', high, low] + rest;
    assert s[3..] == rest;
    assert 16 * (b / 16) + b % 16 == b;
  }

  lemma ByteReads(b: byte, rest: string)
    ensures PercentDecode(QuoteByte(b) + rest) == [b] + PercentDecode(rest)
  {
    if IsUnreserved(b) || b == 32 {
      PlainByteReads(b, rest);
    } else {
      HexReads(b / 16);
      HexReads(b % 16);
      EscapedByteReads(b, HEX[b / 16], HEX[b % 16], rest);
    }
  }

  lemma {:induction false} BytesRead(bytes: Bytes)
    ensures PercentDecode(QuoteBytes(bytes)) == bytes
  {
    if bytes != [] {
      ByteReads(bytes[0], QuoteBytes(bytes[1..]));
      BytesRead(bytes[1..]);
      assert bytes == [bytes[0]] + bytes[1..];
    }
  }

  /** A quoted value decodes to itself, whatever text it is. */
  lemma QuotedReads(value: string)
    ensures Utf8.Decode(PercentDecode(QuotePlus(value))) == Some(value)
  {
    BytesRead(Utf8.Encode(value));
    DecodeUndoesEncode(value);
  }

  /** Neither separator is ever written in a value. */
  predicate HasNo(s: string, c: char) { s == "" || (s[0] != c && HasNo(s[1..], c)) }

  lemma {:induction false} HasNoJoins(a: string, b: string, c: char)
    requires HasNo(a, c) && HasNo(b, c)
    ensures HasNo(a + b, c)
  {
    if a == "" {
      assert a + b == b;
    } else {
      HasNoJoins(a[1..], b, c);
      assert (a + b)[1..] == a[1..] + b;
    }
  }

  lemma OneHasNo(d: char, c: char)
    requires d != c
    ensures HasNo([d], c)
  {
    assert [d][1..] == "";
  }

  lemma QuoteByteHasNo(b: byte)
    ensures HasNo(QuoteByte(b), '&')
  {
    if IsUnreserved(b) {
      OneHasNo(b as char, '&');
    } else if b == 32 {
      OneHasNo('+', '&');
    } else {
      var high, low := HEX[b / 16], HEX[b % 16];
      HexIsNo(b / 16);
      HexIsNo(b % 16);
      OneHasNo('%', '&');
      OneHasNo(high, '&');
      OneHasNo(low, '&');
      HasNoJoins([high], [low], '&');
      HasNoJoins(['%'], [high] + [low], '&');
      assert QuoteByte(b) == ['%'] + ([high] + [low]);
    }
  }

  lemma HexIsNo(n: nat)
    requires n < 16
    ensures HEX[n] != '&'
  {
    HexReads(n);
  }

  lemma {:induction false} QuotedHasNo(bytes: Bytes)
    ensures HasNo(QuoteBytes(bytes), '&')
  {
    if bytes != [] {
      QuoteByteHasNo(bytes[0]);
      QuotedHasNo(bytes[1..]);
      HasNoJoins(QuoteByte(bytes[0]), QuoteBytes(bytes[1..]), '&');
    }
  }

  lemma {:induction false} CutsThere(a: string, b: string, c: char)
    requires HasNo(a, c)
    ensures Cut(a + ([c] + b), c) == (a, b)
  {
    if a == "" {
      assert a + ([c] + b) == [c] + b;
    } else {
      CutsThere(a[1..], b, c);
      assert a == [a[0]] + a[1..];
      assert (a + ([c] + b))[1..] == a[1..] + ([c] + b);
    }
  }

  lemma {:induction false} CutsNowhere(a: string, c: char)
    requires HasNo(a, c)
    ensures Cut(a, c) == (a, "")
  {
    if a != "" {
      CutsNowhere(a[1..], c);
      assert a == [a[0]] + a[1..];
    }
  }

  /** Names that are written as they are. */
  predicate PlainName(s: string) { s == "" || ((IsAlphanumeric(s[0]) || s[0] == '_') && PlainName(s[1..])) }

  lemma {:induction false} PlainNameReads(s: string)
    requires PlainName(s)
    ensures Utf8.Decode(PercentDecode(s)) == Some(s) && HasNo(s, '=') && HasNo(s, '&')
  {
    if s != "" {
      PlainNameReads(s[1..]);
      var b := PercentDecode(s);
      assert b == [s[0] as int] + PercentDecode(s[1..]);
      assert b[1..] == PercentDecode(s[1..]);
      assert s == [s[0]] + s[1..];
    }
  }

  lemma PairReads(p: Pair)
    requires PlainName(p.name)
    ensures ReadPair(WritePair(p)) == Some(p) && HasNo(WritePair(p), '&') && WritePair(p) != ""
  {
    PlainNameReads(p.name);
    QuotedReads(p.value);
    CutsThere(p.name, QuotePlus(p.value), '=');
    QuotedHasNo(Utf8.Encode(p.value));
    HasNoJoins("=", QuotePlus(p.value), '&');
    HasNoJoins(p.name, "=" + QuotePlus(p.value), '&');
  }

  predicate PlainNames(pairs: seq<Pair>) { pairs == [] || (PlainName(pairs[0].name) && PlainNames(pairs[1..])) }

  lemma OnePiece(first: string)
    requires HasNo(first, '&') && first != ""
    ensures Pieces(first) == [first]
  {
    CutsNowhere(first, '&');
  }

  lemma OneMorePiece(first: string, others: string)
    requires HasNo(first, '&') && first != ""
    ensures Pieces(first + ("&" + others)) == [first] + Pieces(others)
  {
    CutsThere(first, others, '&');
  }

  lemma ReadMore(piece: string, pieces: seq<string>, p: Pair, pairs: seq<Pair>)
    requires ReadPair(piece) == Some(p) && ReadPieces(pieces) == Some(pairs)
    ensures ReadPieces([piece] + pieces) == Some([p] + pairs)
  {
    assert ([piece] + pieces)[1..] == pieces;
  }

  lemma LastPairReads(p: Pair)
    requires PlainName(p.name)
    ensures ReadPairs(WritePair(p)) == Some([p])
  {
    PairReads(p);
    OnePiece(WritePair(p));
    ReadMore(WritePair(p), [], p, []);
    assert [WritePair(p)] + [] == [WritePair(p)] && [p] + [] == [p];
  }

  lemma NextPairReads(p: Pair, others: string, pairs: seq<Pair>)
    requires PlainName(p.name) && ReadPairs(others) == Some(pairs)
    ensures ReadPairs(WritePair(p) + ("&" + others)) == Some([p] + pairs)
  {
    PairReads(p);
    OneMorePiece(WritePair(p), others);
    ReadMore(WritePair(p), Pieces(others), p, pairs);
  }

  lemma {:induction false} WritesMore(pairs: seq<Pair>)
    requires |pairs| > 1
    ensures WritePairs(pairs) == WritePair(pairs[0]) + ("&" + WritePairs(pairs[1..]))
    ensures pairs == [pairs[0]] + pairs[1..]
  {
  }

  lemma {:induction false} WritesOne(pairs: seq<Pair>)
    requires |pairs| == 1
    ensures WritePairs(pairs) == WritePair(pairs[0]) && pairs == [pairs[0]]
  {
  }

  /** The server reads exactly the pairs that were written, in order. */
  lemma {:induction false} PairsRead(pairs: seq<Pair>)
    requires PlainNames(pairs)
    ensures ReadPairs(WritePairs(pairs)) == Some(pairs)
  {
    if pairs != [] {
      if |pairs| == 1 {
        LastPairReads(pairs[0]);
        WritesOne(pairs);
      } else {
        PairsRead(pairs[1..]);
        NextPairReads(pairs[0], WritePairs(pairs[1..]), pairs[1..]);
        WritesMore(pairs);
      }
    }
  }

  lemma {:induction false} NamesArePlain(names: seq<string>)
    ensures PlainNames(NamePairs(names))
  {
    if names != [] {
      NamesArePlain(names[1..]);
      NameIsPlain();
      assert NamePairs(names)[1..] == NamePairs(names[1..]);
    }
  }

  lemma {:induction false} PlainChars(s: string)
    requires forall i :: 0 <= i < |s| ==> IsAlphanumeric(s[i]) || s[i] == '_'
    ensures PlainName(s)
  {
    if s != [] {
      PlainChars(s[1..]);
    }
  }

  lemma NameIsPlain()
    ensures PlainName("name")
  {
    PlainChars("name");
  }

  lemma LogNamesArePlain()
    ensures PlainName("lines") && PlainName("stream")
  {
    PlainChars("lines");
    PlainChars("stream");
  }

  lemma PointsArePlain()
    ensures PlainName("max_points")
  {
    PlainChars("max_points");
  }

  /** Every query that is sent is read as what was asked for. */
  lemma QueryReadsBack(view: View)
    requires PairsOf(view).Ok?
    ensures ReadPairs(WritePairs(PairsOf(view).value)) == Some(PairsOf(view).value)
  {
    var pairs := PairsOf(view).value;
    if view.Metrics? {
      PointsArePlain();
      NamesArePlain(if view.names.Some? then view.names.value else []);
      assert pairs[1..] == NamePairs(if view.names.Some? then view.names.value else []);
    } else {
      LogNamesArePlain();
      assert pairs[1..][0] == pairs[1] && pairs[1..][1..] == [];
    }
    PairsRead(pairs);
  }
}
