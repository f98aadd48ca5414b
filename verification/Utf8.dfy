/** UTF-8, as in RFC 3629. */
module Utf8 {
  import opened Basics

  function EncodeChar(c: char): (r: Bytes)
    ensures 1 <= |r| <= 4
  {
    var n := c as int;
    if n < 0x80 then [n]
    else if n < 0x800 then [0xC0 + n / 64, 0x80 + n % 64]
    else if n < 0x1_0000 then [0xE0 + n / 4096, 0x80 + n / 64 % 64, 0x80 + n % 64]
    else [0xF0 + n / 262144, 0x80 + n / 4096 % 64, 0x80 + n / 64 % 64, 0x80 + n % 64]
  }

  function Encode(s: string): Bytes
  {
    if s == "" then [] else EncodeChar(s[0]) + Encode(s[1..])
  }

  predicate IsTail(b: byte) { 0x80 <= b < 0xC0 }

  /** The shortest form of a code point that is no surrogate. */
  function Checked(n: int, least: int, length: nat): Option<(char, nat)>
  {
    if least <= n < 0x11_0000 && !(0xD800 <= n < 0xE000) && 0 <= n then Some((n as char, length)) else None
  }

  /** A byte without its leading mark. */
  function Low(b: byte, mark: int): int { b as int - mark }

  /** The first character of some bytes, and how many it takes. */
  function DecodeChar(b: Bytes): (r: Option<(char, nat)>)
    requires b != []
    ensures r.Some? ==> 1 <= r.value.1 <= |b|
  {
    if b[0] < 0x80 then Some((b[0] as char, 1))
    else if b[0] < 0xC0 then None
    else if b[0] < 0xE0 then
      if |b| < 2 || !IsTail(b[1]) then None else Checked(Low(b[0], 0xC0) * 64 + Low(b[1], 0x80), 0x80, 2)
    else if b[0] < 0xF0 then
      if |b| < 3 || !IsTail(b[1]) || !IsTail(b[2]) then None
      else Checked(Low(b[0], 0xE0) * 4096 + Low(b[1], 0x80) * 64 + Low(b[2], 0x80), 0x800, 3)
    else if b[0] < 0xF8 then
      if |b| < 4 || !IsTail(b[1]) || !IsTail(b[2]) || !IsTail(b[3]) then None
      else Checked(Low(b[0], 0xF0) * 262144 + Low(b[1], 0x80) * 4096 + Low(b[2], 0x80) * 64 + Low(b[3], 0x80), 0x1_0000, 4)
    else None
  }

  function Decode(b: Bytes): Option<string>
    decreases |b|
  {
    if b == [] then Some("")
    else
      var first :- DecodeChar(b);
      var rest :- Decode(b[first.1..]);
      Some([first.0] + rest)
  }

  lemma CharReads(c: char, rest: Bytes)
    ensures DecodeChar(EncodeChar(c) + rest) == Some((c, |EncodeChar(c)|))
  {
    var n, b := c as int, EncodeChar(c) + rest;
    Digits(n);
    assert b[0] == EncodeChar(c)[0];
    assert |EncodeChar(c)| > 1 ==> b[1] == EncodeChar(c)[1];
    assert |EncodeChar(c)| > 2 ==> b[2] == EncodeChar(c)[2];
    assert |EncodeChar(c)| > 3 ==> b[3] == EncodeChar(c)[3];
  }

  /** A code point and its digits in base 64. */
  lemma Digits(n: nat)
    ensures n == n / 64 * 64 + n % 64
    ensures n / 64 == n / 4096 * 64 + n / 64 % 64
    ensures n / 4096 == n / 262144 * 64 + n / 4096 % 64
  {
  }

  /** Text reads back from its bytes. */
  lemma {:induction false} DecodeUndoesEncode(s: string)
    ensures Decode(Encode(s)) == Some(s)
  {
    if s != "" {
      CharReads(s[0], Encode(s[1..]));
      Halves(EncodeChar(s[0]), Encode(s[1..]));
      DecodeUndoesEncode(s[1..]);
      assert s == [s[0]] + s[1..];
    }
  }

  lemma {:induction false} EncodeAppend(a: string, b: string)
    ensures Encode(a + b) == Encode(a) + Encode(b)
  {
    if a == "" {
      assert a + b == b;
    } else {
      EncodeAppend(a[1..], b);
      assert (a + b)[0] == a[0] && (a + b)[1..] == a[1..] + b;
      Regroup(EncodeChar(a[0]), Encode(a[1..]), Encode(b));
    }
  }

  // ----- Bytes that end inside a character -----

  /** The second byte narrows what the first one allows: shortest forms, no surrogates, and nothing
      past the last code point. */
  predicate SecondFits(first: byte, second: byte)
  {
    && IsTail(second)
    && (first == 0xE0 ==> second >= 0xA0) && (first == 0xED ==> second < 0xA0)
    && (first == 0xF0 ==> second >= 0x90) && (first == 0xF4 ==> second < 0x90)
  }

  /** The start of a character that needs more bytes. */
  predicate Unfinished(b: Bytes)
  {
    if |b| == 1 then 0xC2 <= b[0] < 0xF5
    else if |b| == 2 then 0xE0 <= b[0] < 0xF5 && SecondFits(b[0], b[1])
    else |b| == 3 && 0xF0 <= b[0] < 0xF5 && SecondFits(b[0], b[1]) && IsTail(b[2])
  }

  /** Whole characters, and at most the start of one after them: what Rust's `from_utf8` accepts, or
      refuses with an error that has no length. */
  predicate Unbroken(b: Bytes)
    decreases |b|
  {
    b == [] ||
    match DecodeChar(b)
    case Some(first) => Unbroken(b[first.1..])
    case None => Unfinished(b)
  }

  lemma CharIsCut(c: char, part: Bytes)
    requires part < EncodeChar(c) && part != []
    ensures DecodeChar(part).None? && Unfinished(part)
  {
    var n, b := c as int, EncodeChar(c);
    Digits(n);
    assert part[0] == b[0];
    assert |part| > 1 ==> part[1] == b[1];
    assert |part| > 2 ==> part[2] == b[2];
  }

  /** A part of a text's bytes, from its start: a part of its characters, and at most the start of one
      more. */
  lemma {:induction false} PartDecodes(s: string, part: Bytes) returns (text: string)
    requires part <= Encode(s) && part != Encode(s)
    ensures Unbroken(part) && text <= s && text != s
    ensures Decode(part).Some? ==> Decode(part) == Some(text)
  {
    var first, rest := EncodeChar(s[0]), Encode(s[1..]);
    if part == [] {
      text := "";
    } else if |part| < |first| {
      assert part == Encode(s)[..|part|] == first[..|part|];
      CharIsCut(s[0], part);
      text := "";
    } else {
      var tail := part[|first|..];
      assert part == first + tail && tail == Encode(s)[..|part|][|first|..];
      Halves(first, rest);
      CharReads(s[0], tail);
      var more := PartDecodes(s[1..], tail);
      text := [s[0]] + more;
      assert s == [s[0]] + s[1..];
    }
  }
}
