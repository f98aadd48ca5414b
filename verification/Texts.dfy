/** Cutting text at white space, at lines and at slashes. */
module Texts {
  import opened Basics

  /** char::is_whitespace. */
  predicate IsWhite(c: char)
  {
    var n := c as int;
    9 <= n <= 13 || n == 32 || n == 0x85 || n == 0xA0 || n == 0x1680 || 0x2000 <= n <= 0x200A ||
    n == 0x2028 || n == 0x2029 || n == 0x202F || n == 0x205F || n == 0x3000
  }

  function TrimStart(s: string): (r: string)
    ensures |r| <= |s|
    ensures r == [] || !IsWhite(r[0])
  {
    if s != [] && IsWhite(s[0]) then TrimStart(s[1..]) else s
  }

  function TrimEnd(s: string): (r: string)
    ensures |r| <= |s|
  {
    if s != [] && IsWhite(s[|s| - 1]) then TrimEnd(s[..|s| - 1]) else s
  }

  function Trim(s: string): string { TrimEnd(TrimStart(s)) }

  /** The text before the first white space. */
  function FirstWord(s: string): (r: string)
    ensures |r| <= |s|
    ensures forall i :: 0 <= i < |r| ==> !IsWhite(r[i])
  {
    if s == [] || IsWhite(s[0]) then [] else [s[0]] + FirstWord(s[1..])
  }

  /** The text after the first white space character. */
  function AfterWord(s: string): (r: string)
    ensures s != [] ==> |r| < |s|
  {
    if s == [] then [] else if IsWhite(s[0]) then s[1..] else AfterWord(s[1..])
  }

  function Words(s: string): seq<string>
    decreases |s|
  {
    var t := TrimStart(s);
    if t == [] then [] else [FirstWord(t)] + Words(AfterWord(t))
  }

  predicate Contains(s: string, part: string)
  {
    part <= s || (s != [] && Contains(s[1..], part))
  }

  /** The text before the first occurrence of `c`. */
  function Until(s: string, c: char): string
  {
    if s == [] || s[0] == c then [] else [s[0]] + Until(s[1..], c)
  }

  function UpperAscii(s: string): string
  {
    if s == [] then []
    else [if 'a' <= s[0] <= 'z' then (s[0] as int - 32) as char else s[0]] + UpperAscii(s[1..])
  }

  // ----- Lines -----

  function StripReturn(s: string): string
  {
    if s != [] && s[|s| - 1] == '\r' then s[..|s| - 1] else s
  }

  /** The lines of a text: a final line end does not start another one. */
  function Lines(s: string): seq<string>
    decreases |s|
  {
    if s == [] then []
    else
      var line := Until(s, '\n');
      UntilLength(s, '\n');
      [StripReturn(line)] + if |line| == |s| then [] else Lines(s[|line| + 1..])
  }

  lemma {:induction false} UntilLength(s: string, c: char)
    ensures |Until(s, c)| <= |s|
    ensures |Until(s, c)| < |s| ==> s[|Until(s, c)|] == c
  {
    if s != [] && s[0] != c {
      UntilLength(s[1..], c);
    }
  }

  // ----- Words of joined text -----

  lemma {:induction false} TrimStartOnto(s: string, rest: string)
    ensures TrimStart(s) != [] ==> TrimStart(s + rest) == TrimStart(s) + rest
    ensures TrimStart(s) == [] ==> TrimStart(s + rest) == TrimStart(rest)
  {
    if s == [] {
      assert s + rest == rest;
    } else if IsWhite(s[0]) {
      TrimStartOnto(s[1..], rest);
      assert (s + rest)[1..] == s[1..] + rest;
    }
  }

  lemma {:induction false} FirstWordOnto(s: string, gap: char, rest: string)
    requires IsWhite(gap)
    ensures FirstWord(s + ([gap] + rest)) == FirstWord(s)
    ensures AfterWord(s + ([gap] + rest)) ==
            if |FirstWord(s)| < |s| then AfterWord(s) + ([gap] + rest) else rest
  {
    var more := [gap] + rest;
    if s == [] {
      assert s + more == more;
    } else {
      assert (s + more)[1..] == s[1..] + more;
      if !IsWhite(s[0]) {
        FirstWordOnto(s[1..], gap, rest);
      }
    }
  }

  lemma {:induction false} WholeWord(s: string)
    requires |FirstWord(s)| == |s|
    ensures AfterWord(s) == []
  {
    if s != [] {
      WholeWord(s[1..]);
    }
  }

  lemma WordsOfTrimmed(s: string, t: string)
    requires TrimStart(s) == t
    ensures Words(s) == if t == [] then [] else [FirstWord(t)] + Words(AfterWord(t))
  {
  }

  /** White space keeps the words on its two sides apart, and adds none. */
  lemma {:induction false} WordsOfPair(a: string, gap: char, b: string)
    requires IsWhite(gap)
    ensures Words(a + ([gap] + b)) == Words(a) + Words(b)
    decreases |a|
  {
    var t, more := TrimStart(a), [gap] + b;
    TrimStartOnto(a, more);
    WordsOfTrimmed(a, t);
    if t == [] {
      assert more[1..] == b;
      assert TrimStart(a + more) == TrimStart(b);
      WordsOfTrimmed(a + more, TrimStart(b));
      WordsOfTrimmed(b, TrimStart(b));
    } else {
      WordsOfTrimmed(a + more, t + more);
      FirstWordOnto(t, gap, b);
      if |FirstWord(t)| < |t| {
        WordsOfPair(AfterWord(t), gap, b);
        Regroup([FirstWord(t)], Words(AfterWord(t)), Words(b));
      } else {
        WholeWord(t);
      }
    }
  }

  // ----- Paths -----

  /** The parts of a path between its slashes; empty parts stay. */
  function SplitSlash(s: string): (r: seq<string>)
    ensures r != []
  {
    if s == [] then [[]]
    else if s[0] == '/' then [[]] + SplitSlash(s[1..])
    else
      var r := SplitSlash(s[1..]);
      [[s[0]] + r[0]] + r[1..]
  }

  function JoinSlash(parts: seq<string>): string
    requires parts != []
  {
    if |parts| == 1 then parts[0] else parts[0] + (['/'] + JoinSlash(parts[1..]))
  }

  lemma {:induction false} SplitJoins(s: string)
    ensures JoinSlash(SplitSlash(s)) == s
  {
    if s != [] {
      SplitJoins(s[1..]);
      var r := SplitSlash(s[1..]);
      if s[0] == '/' {
        assert SplitSlash(s)[1..] == r;
        assert JoinSlash(SplitSlash(s)) == [] + (['/'] + s[1..]);
      } else {
        assert SplitSlash(s)[1..] == r[1..];
        if |r| > 1 {
          assert [s[0]] + r[0] + (['/'] + JoinSlash(r[1..])) == [s[0]] + (r[0] + (['/'] + JoinSlash(r[1..])));
        }
      }
    }
  }

  lemma SplitStep(c: char, s: string)
    ensures SplitSlash([c] + s) ==
            if c == '/' then [[]] + SplitSlash(s) else [[c] + SplitSlash(s)[0]] + SplitSlash(s)[1..]
  {
    assert ([c] + s)[1..] == s;
  }

  lemma PairStep(c: char, first: seq<string>, second: seq<string>)
    requires first != []
    ensures [[]] + (first + second) == [[]] + first + second
    ensures [[c] + (first + second)[0]] + (first + second)[1..] == [[c] + first[0]] + first[1..] + second
  {
  }

  lemma {:induction false} SplitOfPair(a: string, b: string)
    ensures SplitSlash(a + (['/'] + b)) == SplitSlash(a) + SplitSlash(b)
  {
    var more := ['/'] + b;
    if a == [] {
      assert a + more == more;
      SplitStep('/', b);
    } else {
      var c, tail := a[0], a[1..];
      SplitOfPair(tail, b);
      assert a == [c] + tail;
      Regroup([c], tail, more);
      SplitStep(c, tail);
      SplitStep(c, tail + more);
      PairStep(c, SplitSlash(tail), SplitSlash(b));
    }
  }

  lemma {:induction false} SplitOfPart(part: string)
    requires '/' !in part
    ensures SplitSlash(part) == [part]
  {
    if part != [] {
      assert part[0] != '/';
      SplitOfPart(part[1..]);
      assert [part[0]] + part[1..] == part;
    }
  }

  lemma {:induction false} SplitOfJoin(parts: seq<string>)
    requires parts != [] && forall i :: 0 <= i < |parts| ==> '/' !in parts[i]
    ensures SplitSlash(JoinSlash(parts)) == parts
  {
    SplitOfPart(parts[0]);
    if |parts| > 1 {
      SplitOfJoin(parts[1..]);
      SplitOfPair(parts[0], JoinSlash(parts[1..]));
    }
  }

  lemma {:induction false} JoinOfPair(a: seq<string>, b: seq<string>)
    requires a != [] && b != []
    ensures JoinSlash(a + b) == JoinSlash(a) + (['/'] + JoinSlash(b))
  {
    assert (a + b)[1..] == a[1..] + b;
    if |a| > 1 {
      JoinOfPair(a[1..], b);
      var more := ['/'] + JoinSlash(b);
      assert a[0] + (['/'] + (JoinSlash(a[1..]) + more)) == (a[0] + (['/'] + JoinSlash(a[1..]))) + more;
    } else {
      assert a[1..] + b == b;
    }
  }

  lemma InsideHasPrefix(parts: seq<string>, path: string)
    requires parts != [] && forall i :: 0 <= i < |parts| ==> '/' !in parts[i]
    requires path == JoinSlash(parts) || JoinSlash(parts) + "/" <= path
    ensures parts <= SplitSlash(path)
  {
    var root := JoinSlash(parts);
    SplitOfJoin(parts);
    if root + "/" <= path {
      CutAfter(root, path);
      SplitOfPair(root, path[|root| + 1..]);
    }
  }

  lemma CutAfter(root: string, path: string)
    requires root + "/" <= path
    ensures path == root + (['/'] + path[|root| + 1..])
  {
    assert path[..|root| + 1] == root + "/";
    Regroup(root, ['/'], path[|root| + 1..]);
  }

  lemma PrefixIsInside(parts: seq<string>, path: string)
    requires parts != [] && parts <= SplitSlash(path)
    ensures path == JoinSlash(parts) || JoinSlash(parts) + "/" <= path
  {
    SplitJoins(path);
    if parts != SplitSlash(path) {
      var more := SplitSlash(path)[|parts|..];
      assert SplitSlash(path) == parts + more;
      JoinOfPair(parts, more);
    }
  }

  /** Being a path or lying inside it, as text and as parts. */
  lemma InsideIsPrefix(parts: seq<string>, path: string)
    requires parts != [] && forall i :: 0 <= i < |parts| ==> '/' !in parts[i]
    ensures path == JoinSlash(parts) || JoinSlash(parts) + "/" <= path <==> parts <= SplitSlash(path)
  {
    if path == JoinSlash(parts) || JoinSlash(parts) + "/" <= path {
      InsideHasPrefix(parts, path);
    }
    if parts <= SplitSlash(path) {
      PrefixIsInside(parts, path);
    }
  }

  lemma {:induction false} SplitHasNoSlash(s: string)
    ensures forall i :: 0 <= i < |SplitSlash(s)| ==> '/' !in SplitSlash(s)[i]
  {
    if s != [] {
      SplitHasNoSlash(s[1..]);
    }
  }
}
