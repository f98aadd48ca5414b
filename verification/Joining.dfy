/** How the builder joins the lines of a Dockerfile and cuts their words, and exactly when
    `Dockerfile.InstructionsOf` reads the same instructions. The builder is BuildKit: its Dockerfile
    parser goes on after a line that ends in one backslash, with spaces and tabs at most after it,
    writes the next line right behind what stood before, passes over comments and blank lines, and
    cuts words at five blanks only. */
module Joining {
  import opened Basics
  import opened Texts
  import opened Dockerfile

  function TrimBlanks(s: string): (r: string)
    ensures |r| <= |s| && r <= s && forall i :: |r| <= i < |s| ==> IsWhite(s[i])
  {
    if s != [] && s[|s| - 1] in " \t" then TrimBlanks(s[..|s| - 1]) else s
  }

  /** The line ends in a backslash that no other one stands before. */
  predicate Continues(line: string)
  {
    var t := TrimBlanks(line);
    t != [] && t[|t| - 1] == '\\' && (|t| == 1 || t[|t| - 2] != '\\')
  }

  function Head(line: string): string
    requires Continues(line)
  {
    TrimBlanks(line)[..|TrimBlanks(line)| - 1]
  }

  predicate Blank(line: string) { TrimStart(line) == [] }

  predicate Skipped(line: string) { IsComment(TrimStart(line)) }

  /** What an instruction is so far, when one is open. */
  function Joined(current: Option<string>, text: string): string
  {
    if current.None? then TrimStart(text) else current.value + text
  }

  /** The instructions the builder reads, with `current` open. */
  function Built(lines: seq<string>, current: Option<string>): seq<string>
    decreases |lines|
  {
    if lines == [] then if current.Some? then [current.value] else []
    else if Skipped(lines[0]) || Blank(lines[0]) then Built(lines[1..], current)
    else if Continues(lines[0]) then Built(lines[1..], Some(Joined(current, Head(lines[0]))))
    else [Joined(current, lines[0])] + Built(lines[1..], None)
  }

  /** The words of each instruction that has any. */
  function Wordy(all: seq<string>): seq<seq<string>>
  {
    if all == [] then [] else (if Words(all[0]) == [] then [] else [Words(all[0])]) + Wordy(all[1..])
  }

  function Held(current: Option<string>): string { if current.None? then [] else current.value }

  /** No word of one ends where a word of the other starts. */
  predicate Apart(a: string, b: string)
  {
    a == [] || b == [] || IsWhite(a[|a| - 1]) || IsWhite(b[0])
  }

  /** What one line adds to an instruction. */
  function Part(line: string): string { if Continues(line) then Head(line) else line }

  /** Nothing but comments, blank lines and lone backslashes. */
  predicate Idle(lines: seq<string>)
  {
    lines == [] ||
    ((Skipped(lines[0]) || Blank(lines[0]) || (Continues(lines[0]) && Words(Head(lines[0])) == [])) && Idle(lines[1..]))
  }

  /** The joins on which both readers agree: no blank line inside an instruction, unless it has no
      words before it or nothing comes after it; no mark that only one of them sees; and no word
      that is continued on the next line. */
  predicate Plain(lines: seq<string>, current: Option<string>)
    decreases |lines|
  {
    if lines == [] then true
    else if Skipped(lines[0]) then Plain(lines[1..], current)
    else if Blank(lines[0]) then
      if Words(Held(current)) == [] then Plain(lines[1..], current) else Idle(lines[1..])
    else
      && (Continues(lines[0]) <==> IsContinued(Trim(lines[0])))
      && Apart(Held(current), Part(lines[0]))
      && Plain(lines[1..], if Continues(lines[0]) then Some(Joined(current, Head(lines[0]))) else None)
  }

  // ----- Words of a text and of its trimmed forms -----

  lemma {:induction false} WhiteHasNoWords(s: string)
    requires forall i :: 0 <= i < |s| ==> IsWhite(s[i])
    ensures TrimStart(s) == [] && Words(s) == []
  {
    if s != [] {
      WhiteHasNoWords(s[1..]);
    }
  }

  lemma {:induction false} WordsOfWhite(s: string, white: string)
    requires forall i :: 0 <= i < |white| ==> IsWhite(white[i])
    ensures Words(s + white) == Words(s)
  {
    if white == [] {
      assert s + white == s;
    } else {
      WordsOfPair(s, white[0], white[1..]);
      WhiteHasNoWords(white[1..]);
      assert white == [white[0]] + white[1..];
    }
  }

  lemma TrimStartKeepsWords(s: string)
    ensures Words(TrimStart(s)) == Words(s)
    ensures TrimStart(TrimStart(s)) == TrimStart(s)
    ensures Words(s) == [] <==> TrimStart(s) == []
  {
    TrimTwice(s);
    WordsOfTrimmed(s, TrimStart(s));
    WordsOfTrimmed(TrimStart(s), TrimStart(s));
  }

  lemma {:induction false} TrimEndCuts(s: string)
    ensures TrimEnd(s) <= s && forall i :: |TrimEnd(s)| <= i < |s| ==> IsWhite(s[i])
    ensures TrimEnd(s) == [] || !IsWhite(TrimEnd(s)[|TrimEnd(s)| - 1])
  {
    if s != [] && IsWhite(s[|s| - 1]) {
      TrimEndCuts(s[..|s| - 1]);
    }
  }

  lemma TrimKeepsWords(s: string)
    ensures Words(Trim(s)) == Words(s)
  {
    var t := TrimStart(s);
    TrimStartKeepsWords(s);
    TrimEndCuts(t);
    WordsOfWhite(TrimEnd(t), t[|TrimEnd(t)|..]);
    assert t == TrimEnd(t) + t[|TrimEnd(t)|..];
  }

  /** Trimming an end of white space off a text that ends in something else. */
  lemma {:induction false} TrimEndOnto(s: string, white: string)
    requires forall i :: 0 <= i < |white| ==> IsWhite(white[i])
    requires s == [] || !IsWhite(s[|s| - 1])
    ensures TrimEnd(s + white) == s
  {
    if white == [] {
      assert s + white == s;
    } else {
      var front := white[..|white| - 1];
      assert (s + white)[..|s + white| - 1] == s + front;
      TrimEndOnto(s, front);
    }
  }

  lemma TrimFirst(line: string)
    ensures Trim(line) == [] <==> Blank(line)
    ensures IsComment(Trim(line)) <==> Skipped(line)
  {
    var t := TrimStart(line);
    TrimEndCuts(t);
    if t != [] {
      assert !IsWhite(t[0]);
      assert TrimEnd(t) != [];
      assert TrimEnd(t)[0] == t[0];
    }
  }

  lemma TrimMarked(head: string, white: string)
    requires forall i :: 0 <= i < |white| ==> IsWhite(white[i])
    ensures Trim(head + ("\\" + white)) == TrimStart(head) + "\\"
  {
    var mark := "\\" + white;
    TrimStartOnto(head, mark);
    assert TrimStart(mark) == mark;
    assert [] + mark == mark;
    Regroup(TrimStart(head), "\\", white);
    TrimEndOnto(TrimStart(head) + "\\", white);
  }

  /** A mark the builder sees is one the code sees, and both keep the words before it. */
  lemma MarkIsSeen(line: string)
    requires Continues(line)
    ensures Trim(line) == TrimStart(Head(line)) + "\\"
    ensures IsContinued(Trim(line)) && Trim(line)[..|Trim(line)| - 1] == TrimStart(Head(line))
  {
    var t := TrimBlanks(line);
    var white := line[|t|..];
    assert t == Head(line) + "\\" && line == t + white;
    Regroup(Head(line), "\\", white);
    TrimMarked(Head(line), white);
  }

  lemma WordsAfterGap(a: string, b: string)
    requires b != [] && IsWhite(b[0])
    ensures Words(a + b) == Words(a) + Words(b)
  {
    var gap, rest := b[0], b[1..];
    WordsOfPair(a, gap, rest);
    WordsOfPair([], gap, rest);
    assert b == [gap] + rest;
    assert [] + ([gap] + rest) == [gap] + rest;
  }

  lemma WordsBeforeGap(a: string, b: string)
    requires a != [] && IsWhite(a[|a| - 1])
    ensures Words(a + b) == Words(a) + Words(b)
  {
    var front, gap := a[..|a| - 1], a[|a| - 1];
    assert a == front + [gap];
    WordsOfPair(front, gap, b);
    WordsOfPair(front, gap, []);
    assert [gap] + [] == [gap];
    Regroup(front, [gap], b);
  }

  /** Where no word goes on, the words of two texts are the words of both. */
  lemma WordsApart(a: string, b: string)
    requires Apart(a, b)
    ensures Words(a + b) == Words(a) + Words(b)
  {
    if a == [] {
      assert a + b == b;
    } else if b == [] {
      assert a + b == a;
    } else if IsWhite(b[0]) {
      WordsAfterGap(a, b);
    } else {
      WordsBeforeGap(a, b);
    }
  }

  lemma JoinedWords(current: Option<string>, text: string)
    requires Apart(Held(current), text)
    ensures Words(Joined(current, text)) == Words(Held(current)) + Words(text)
  {
    if current.None? {
      TrimStartKeepsWords(text);
    } else {
      WordsApart(current.value, text);
    }
  }

  lemma WordyStep(first: string, rest: seq<string>)
    ensures Wordy([first] + rest) == (if Words(first) == [] then [] else [Words(first)]) + Wordy(rest)
  {
    assert ([first] + rest)[1..] == rest;
  }

  lemma WordyOne(text: string)
    ensures Wordy([text]) == if Words(text) == [] then [] else [Words(text)]
  {
    WordyStep(text, []);
    assert [text] + [] == [text];
  }

  /** How the code reads one line more. */
  lemma CodeStep(lines: seq<string>, code: string)
    requires lines != []
    ensures var line, rest := Trim(lines[0]), Trimmed(lines[1..]);
            Continued(Trimmed(lines), code) ==
            if Skipped(lines[0]) then Continued(rest, code)
            else if IsContinued(line) then Continued(rest, code + (line[..|line| - 1] + [' ']))
            else [code + line] + Continued(rest, [])
    ensures Trim(lines[0]) == [] <==> Blank(lines[0])
  {
    TrimFirst(lines[0]);
    assert Trimmed(lines)[1..] == Trimmed(lines[1..]);
  }

  // ----- Both readers agree on plain joins -----

  /** The code's text so far and the builder's have the same words. */
  predicate Same(code: string, current: Option<string>)
  {
    Words(code) == Words(Held(current)) && (code == [] || code[|code| - 1] == ' ')
  }

  /** Over idle lines the code reads nothing more, and the builder ends what is open. */
  lemma {:induction false} IdleReads(lines: seq<string>, code: string, current: Option<string>)
    requires Idle(lines) && Words(code) == [] && (code == [] || code[|code| - 1] == ' ')
    ensures Wordy(Continued(Trimmed(lines), code)) == []
    ensures Wordy(Built(lines, current)) == if Words(Held(current)) == [] then [] else [Words(Held(current))]
    decreases |lines|
  {
    if lines == [] {
      WordyOne(code);
      WordyOne(Held(current));
    } else {
      var line, rest := lines[0], lines[1..];
      CodeStep(lines, code);
      if Skipped(line) {
        IdleReads(rest, code, current);
      } else if Blank(line) {
        IdleReads(rest, [], current);
        WordyStep(code + Trim(line), Continued(Trimmed(rest), []));
        assert code + Trim(line) == code;
      } else {
        MarkIsSeen(line);
        var head := TrimStart(Head(line));
        TrimStartKeepsWords(Head(line));
        WordsOfContinued(code, head);
        WhiteOnly(Head(line));
        if current.Some? {
          WordsOfWhite(current.value, Head(line));
        }
        IdleReads(rest, code + (head + [' ']), Some(Joined(current, Head(line))));
      }
    }
  }

  lemma {:induction false} WhiteOnly(s: string)
    requires Words(s) == []
    ensures forall i :: 0 <= i < |s| ==> IsWhite(s[i])
  {
    if s != [] {
      TrimStartKeepsWords(s);
      TrimStartKeepsWords(s[1..]);
      WhiteOnly(s[1..]);
    }
  }

  lemma {:induction false} PlainAgrees(lines: seq<string>, code: string, current: Option<string>)
    requires Plain(lines, current) && Same(code, current)
    ensures Wordy(Continued(Trimmed(lines), code)) == Wordy(Built(lines, current))
    decreases |lines|
  {
    if lines == [] {
      WordyOne(code);
      WordyOne(Held(current));
    } else {
      var line, rest := lines[0], lines[1..];
      CodeStep(lines, code);
      if Skipped(line) {
        PlainAgrees(rest, code, current);
      } else if Blank(line) {
        WordyStep(code + Trim(line), Continued(Trimmed(rest), []));
        assert code + Trim(line) == code;
        if Words(Held(current)) == [] {
          PlainAgrees(rest, [], current);
        } else {
          IdleReads(rest, [], current);
        }
      } else if Continues(line) {
        GoesOn(line, code, current);
        PlainAgrees(rest, code + (TrimStart(Head(line)) + [' ']), Some(Joined(current, Head(line))));
      } else {
        Ends(line, code, current);
        PlainAgrees(rest, [], None);
        WordyStep(code + Trim(line), Continued(Trimmed(rest), []));
        WordyStep(Joined(current, line), Built(rest, None));
      }
    }
  }

  lemma GoesOn(line: string, code: string, current: Option<string>)
    requires Continues(line) && Apart(Held(current), Head(line)) && Same(code, current)
    ensures IsContinued(Trim(line)) && Trim(line)[..|Trim(line)| - 1] == TrimStart(Head(line))
    ensures Same(code + (TrimStart(Head(line)) + [' ']), Some(Joined(current, Head(line))))
  {
    MarkIsSeen(line);
    TrimStartKeepsWords(Head(line));
    WordsOfContinued(code, TrimStart(Head(line)));
    JoinedWords(current, Head(line));
  }

  lemma Ends(line: string, code: string, current: Option<string>)
    requires Apart(Held(current), line) && Same(code, current)
    ensures Words(code + Trim(line)) == Words(Joined(current, line)) == Words(code) + Words(line)
  {
    WordsAfterOpen(code, Trim(line));
    TrimKeepsWords(line);
    JoinedWords(current, line);
  }

  // ----- Nothing else do they agree on -----

  function Ink(s: string): nat { if s == [] then 0 else (if IsWhite(s[0]) then 0 else 1) + Ink(s[1..]) }

  function Total(words: seq<string>): nat { if words == [] then 0 else |words[0]| + Total(words[1..]) }

  function InkAll(all: seq<string>): nat { if all == [] then 0 else Ink(all[0]) + InkAll(all[1..]) }

  function WordCount(all: seq<string>): nat { if all == [] then 0 else |Words(all[0])| + WordCount(all[1..]) }

  lemma {:induction false} InkOfPair(a: string, b: string)
    ensures Ink(a + b) == Ink(a) + Ink(b)
  {
    if a == [] {
      assert a + b == b;
    } else {
      InkOfPair(a[1..], b);
      assert (a + b)[1..] == a[1..] + b;
    }
  }

  lemma {:induction false} InkOfStart(s: string)
    ensures Ink(TrimStart(s)) == Ink(s)
  {
    if s != [] && IsWhite(s[0]) {
      InkOfStart(s[1..]);
    }
  }

  lemma {:induction false} WhiteHasNoInk(s: string)
    requires forall i :: 0 <= i < |s| ==> IsWhite(s[i])
    ensures Ink(s) == 0
  {
    if s != [] {
      WhiteHasNoInk(s[1..]);
    }
  }

  lemma InkOfTrim(s: string)
    ensures Ink(Trim(s)) == Ink(s)
  {
    var t := TrimStart(s);
    InkOfStart(s);
    TrimEndCuts(t);
    var white := t[|TrimEnd(t)|..];
    WhiteHasNoInk(white);
    InkOfPair(TrimEnd(t), white);
    assert t == TrimEnd(t) + white;
  }

  lemma {:induction false} InkOfWord(s: string)
    ensures Ink(s) == |FirstWord(s)| + Ink(AfterWord(s))
  {
    if s != [] && !IsWhite(s[0]) {
      InkOfWord(s[1..]);
    }
  }

  lemma {:induction false} InkIsWords(s: string)
    ensures Ink(s) == Total(Words(s))
    decreases |s|
  {
    var t := TrimStart(s);
    InkOfStart(s);
    WordsOfTrimmed(s, t);
    if t != [] {
      InkOfWord(t);
      InkIsWords(AfterWord(t));
      assert Words(s)[1..] == Words(AfterWord(t));
    }
  }

  function Totals(all: seq<seq<string>>): nat { if all == [] then 0 else Total(all[0]) + Totals(all[1..]) }

  function Counts(all: seq<seq<string>>): nat { if all == [] then 0 else |all[0]| + Counts(all[1..]) }

  lemma SumsStep(first: seq<seq<string>>, rest: seq<seq<string>>)
    requires |first| <= 1
    ensures Totals(first + rest) == (if first == [] then 0 else Total(first[0])) + Totals(rest)
    ensures Counts(first + rest) == (if first == [] then 0 else |first[0]|) + Counts(rest)
  {
    if first == [] {
      assert first + rest == rest;
    } else {
      assert (first + rest)[1..] == rest;
    }
  }

  /** Both sums can be read off the words alone. */
  lemma {:induction false} SumsAreWords(all: seq<string>)
    ensures InkAll(all) == Totals(Wordy(all)) && WordCount(all) == Counts(Wordy(all))
  {
    if all != [] {
      SumsAreWords(all[1..]);
      InkIsWords(all[0]);
      var first := if Words(all[0]) == [] then [] else [Words(all[0])];
      assert Wordy(all) == first + Wordy(all[1..]);
      SumsStep(first, Wordy(all[1..]));
    }
  }

  /** How many marks each reader takes off. */
  function CodeMarks(lines: seq<string>): nat
  {
    if lines == [] then 0
    else (if !Skipped(lines[0]) && IsContinued(Trim(lines[0])) then 1 else 0) + CodeMarks(lines[1..])
  }

  function BuilderMarks(lines: seq<string>): nat
  {
    if lines == [] then 0
    else (if !Skipped(lines[0]) && Continues(lines[0]) then 1 else 0) + BuilderMarks(lines[1..])
  }

  function InkOfLines(lines: seq<string>): nat
  {
    if lines == [] then 0 else (if Skipped(lines[0]) then 0 else Ink(lines[0])) + InkOfLines(lines[1..])
  }

  lemma {:induction false} CodeInk(lines: seq<string>, code: string)
    ensures InkAll(Continued(Trimmed(lines), code)) + CodeMarks(lines) == Ink(code) + InkOfLines(lines)
    decreases |lines|
  {
    if lines == [] {
      assert [code][1..] == [];
    } else {
      var line, rest := lines[0], lines[1..];
      var trimmed := Trim(line);
      CodeStep(lines, code);
      InkOfTrim(line);
      if Skipped(line) {
        CodeInk(rest, code);
      } else if IsContinued(trimmed) {
        var head := trimmed[..|trimmed| - 1];
        CodeInk(rest, code + (head + [' ']));
        InkOfPair(code, head + [' ']);
        InkOfPair(head, [' ']);
        MarkHasInk(head);
        assert trimmed == head + "\\";
      } else {
        CodeInk(rest, []);
        InkOfPair(code, trimmed);
        InkStep(code + trimmed, Continued(Trimmed(rest), []));
      }
    }
  }

  lemma InkStep(first: string, rest: seq<string>)
    ensures InkAll([first] + rest) == Ink(first) + InkAll(rest)
  {
    assert ([first] + rest)[1..] == rest;
  }

  lemma MarkHasInk(head: string)
    ensures Ink(head + "\\") == Ink(head) + 1 && Ink([' ']) == 0
  {
    InkOfPair(head, "\\");
    assert "\\"[1..] == [] && [' '][1..] == [];
  }

  lemma InkOfMark(line: string)
    requires Continues(line)
    ensures Ink(line) == Ink(Head(line)) + 1
  {
    var head, t := Head(line), TrimBlanks(line);
    MarkHasInk(head);
    WhiteHasNoInk(line[|t|..]);
    InkOfPair(t, line[|t|..]);
    assert t == head + "\\" && line == t + line[|t|..];
  }

  lemma InkOfJoined(current: Option<string>, text: string)
    ensures Ink(Joined(current, text)) == Ink(Held(current)) + Ink(text)
  {
    InkOfStart(text);
    InkOfPair(Held(current), text);
  }

  lemma {:induction false} BuilderInk(lines: seq<string>, current: Option<string>)
    ensures InkAll(Built(lines, current)) + BuilderMarks(lines) == Ink(Held(current)) + InkOfLines(lines)
    decreases |lines|
  {
    if lines == [] {
      assert current.Some? ==> [current.value][1..] == [];
    } else {
      var line, rest := lines[0], lines[1..];
      if Skipped(line) {
        BuilderInk(rest, current);
      } else if Blank(line) {
        BuilderInk(rest, current);
        InkOfStart(line);
        BlankGoesNowhere(line);
      } else if Continues(line) {
        InkOfMark(line);
        InkOfJoined(current, Head(line));
        BuilderInk(rest, Some(Joined(current, Head(line))));
      } else {
        InkOfJoined(current, line);
        BuilderInk(rest, None);
        InkStep(Joined(current, line), Built(rest, None));
      }
    }
  }

  lemma BlankGoesNowhere(line: string)
    requires Blank(line)
    ensures !Continues(line) && !IsContinued(Trim(line))
  {
    TrimFirst(line);
    if Continues(line) {
      MarkIsSeen(line);
    }
  }

  /** Every mark of one reader is a mark of the other. */
  predicate SameMarks(lines: seq<string>)
  {
    lines == [] ||
    ((Skipped(lines[0]) || (Continues(lines[0]) <==> IsContinued(Trim(lines[0])))) && SameMarks(lines[1..]))
  }

  lemma {:induction false} MarksCompare(lines: seq<string>)
    ensures BuilderMarks(lines) <= CodeMarks(lines)
    ensures BuilderMarks(lines) == CodeMarks(lines) ==> SameMarks(lines)
  {
    if lines != [] {
      MarksCompare(lines[1..]);
      if Continues(lines[0]) {
        MarkIsSeen(lines[0]);
      }
    }
  }

  function WordsOfLines(lines: seq<string>): nat
  {
    if lines == [] then 0
    else (if Skipped(lines[0]) then 0 else |Words(Part(lines[0]))|) + WordsOfLines(lines[1..])
  }

  lemma {:induction false} CodeWords(lines: seq<string>, code: string)
    requires SameMarks(lines) && (code == [] || code[|code| - 1] == ' ')
    ensures WordCount(Continued(Trimmed(lines), code)) == |Words(code)| + WordsOfLines(lines)
    decreases |lines|
  {
    if lines == [] {
      assert [code][1..] == [];
    } else {
      var line, rest := lines[0], lines[1..];
      CodeStep(lines, code);
      if Skipped(line) {
        CodeWords(rest, code);
      } else if Continues(line) {
        MarkIsSeen(line);
        var head := TrimStart(Head(line));
        TrimStartKeepsWords(Head(line));
        WordsOfContinued(code, head);
        CodeWords(rest, code + (head + [' ']));
      } else {
        CodeWords(rest, []);
        WordsAfterOpen(code, Trim(line));
        TrimKeepsWords(line);
        WordCountStep(code + Trim(line), Continued(Trimmed(rest), []));
      }
    }
  }

  lemma WordCountStep(first: string, rest: seq<string>)
    ensures WordCount([first] + rest) == |Words(first)| + WordCount(rest)
  {
    assert ([first] + rest)[1..] == rest;
  }

  /** No word of any line goes on in the next one. */
  predicate AllApart(lines: seq<string>, current: Option<string>)
    decreases |lines|
  {
    if lines == [] then true
    else if Skipped(lines[0]) || Blank(lines[0]) then AllApart(lines[1..], current)
    else
      && Apart(Held(current), Part(lines[0]))
      && AllApart(lines[1..], if Continues(lines[0]) then Some(Joined(current, Head(lines[0]))) else None)
  }

  lemma WordsOfStarted(t: string, b: string)
    requires t != [] && TrimStart(t) == t
    ensures Words(t) == [FirstWord(t)] + Words(AfterWord(t))
    ensures |FirstWord(t)| < |t| ==> Words(t + b) == [FirstWord(t)] + Words(AfterWord(t) + b)
    ensures |FirstWord(t)| == |t| ==>
      Words(t) == [FirstWord(t)] && Words(t + b) == [FirstWord(t + b)] + Words(AfterWord(b))
  {
    TrimStartOnto(t, b);
    WordsOfTrimmed(t, t);
    WordsOfTrimmed(t + b, t + b);
    WordGoesOn(t, b);
    if |FirstWord(t)| == |t| {
      WholeWord(t);
    }
  }

  lemma StartedWords(a: string, b: string)
    requires TrimStart(a) != []
    ensures Words(a) == Words(TrimStart(a)) && Words(a + b) == Words(TrimStart(a) + b)
  {
    var t := TrimStart(a);
    TrimStartOnto(a, b);
    TrimStartOnto(t, b);
    TrimStartKeepsWords(a);
    WordsOfTrimmed(a + b, t + b);
    WordsOfTrimmed(t + b, t + b);
  }

  /** A word that goes on is one word less. */
  lemma {:induction false} WordsMerge(a: string, b: string)
    requires !Apart(a, b)
    ensures |Words(a + b)| == |Words(a)| + |Words(b)| - 1
    decreases |a|
  {
    var t := TrimStart(a);
    TrimStartEnds(a);
    TrimStartKeepsWords(a);
    StartedWords(a, b);
    WordsOfStarted(t, b);
    if |FirstWord(t)| < |t| {
      AfterWordEnds(t);
      WordsMerge(AfterWord(t), b);
    } else {
      WordsOfTrimmed(b, b);
    }
  }

  lemma {:induction false} TrimStartEnds(s: string)
    requires s != [] && !IsWhite(s[|s| - 1])
    ensures TrimStart(s) != [] && TrimStart(s)[|TrimStart(s)| - 1] == s[|s| - 1]
  {
    if IsWhite(s[0]) {
      TrimStartEnds(s[1..]);
    }
  }

  lemma {:induction false} AfterWordEnds(s: string)
    requires |FirstWord(s)| < |s| && !IsWhite(s[|s| - 1])
    ensures AfterWord(s) != [] && AfterWord(s)[|AfterWord(s)| - 1] == s[|s| - 1]
  {
    if !IsWhite(s[0]) {
      AfterWordEnds(s[1..]);
    }
  }

  lemma {:induction false} WordGoesOn(s: string, more: string)
    ensures |FirstWord(s)| < |s| ==> FirstWord(s + more) == FirstWord(s) && AfterWord(s + more) == AfterWord(s) + more
    ensures |FirstWord(s)| == |s| ==> AfterWord(s + more) == AfterWord(more)
  {
    if s == [] {
      assert s + more == more;
    } else {
      assert (s + more)[1..] == s[1..] + more;
      if !IsWhite(s[0]) {
        WordGoesOn(s[1..], more);
      }
    }
  }

  lemma JoinedCount(current: Option<string>, text: string)
    ensures |Words(Joined(current, text))| <= |Words(Held(current))| + |Words(text)|
    ensures |Words(Joined(current, text))| == |Words(Held(current))| + |Words(text)| ==> Apart(Held(current), text)
  {
    if Apart(Held(current), text) {
      JoinedWords(current, text);
    } else {
      WordsMerge(current.value, text);
    }
  }

  lemma {:induction false} BuilderWords(lines: seq<string>, current: Option<string>)
    ensures WordCount(Built(lines, current)) <= |Words(Held(current))| + WordsOfLines(lines)
    ensures WordCount(Built(lines, current)) == |Words(Held(current))| + WordsOfLines(lines) ==>
              AllApart(lines, current)
    decreases |lines|
  {
    if lines == [] {
      assert current.Some? ==> [current.value][1..] == [];
    } else {
      var line, rest := lines[0], lines[1..];
      if Skipped(line) {
        BuilderWords(rest, current);
      } else if Blank(line) {
        BuilderWords(rest, current);
        BlankGoesNowhere(line);
        TrimStartKeepsWords(line);
      } else if Continues(line) {
        JoinedCount(current, Head(line));
        BuilderWords(rest, Some(Joined(current, Head(line))));
      } else {
        JoinedCount(current, line);
        BuilderWords(rest, None);
        WordCountStep(Joined(current, line), Built(rest, None));
      }
    }
  }

  /** Over lines that are not idle an open instruction gets more words. */
  lemma {:induction false} NotIdleGrows(lines: seq<string>, current: Option<string>)
    requires !Idle(lines) && AllApart(lines, current)
    ensures Built(lines, current) != [] && |Words(Built(lines, current)[0])| > |Words(Held(current))|
    decreases |lines|
  {
    var line, rest := lines[0], lines[1..];
    if Skipped(line) || Blank(line) {
      NotIdleGrows(rest, current);
    } else if Continues(line) {
      JoinedWords(current, Head(line));
      if Words(Head(line)) != [] && Idle(rest) {
        IdleKeeps(rest, Some(Joined(current, Head(line))));
      } else if !Idle(rest) {
        NotIdleGrows(rest, Some(Joined(current, Head(line))));
      }
    } else {
      JoinedWords(current, line);
      TrimStartKeepsWords(line);
    }
  }

  lemma {:induction false} IdleKeeps(lines: seq<string>, current: Option<string>)
    requires Idle(lines) && current.Some?
    ensures Built(lines, current) != [] && Words(Built(lines, current)[0]) == Words(current.value)
    decreases |lines|
  {
    if lines != [] {
      var line, rest := lines[0], lines[1..];
      if Skipped(line) || Blank(line) {
        IdleKeeps(rest, current);
      } else {
        WhiteOnly(Head(line));
        WordsOfWhite(current.value, Head(line));
        IdleKeeps(rest, Some(Joined(current, Head(line))));
      }
    }
  }

  lemma {:induction false} AgreedIsPlain(lines: seq<string>, code: string, current: Option<string>)
    requires SameMarks(lines) && AllApart(lines, current) && Same(code, current)
    requires Wordy(Continued(Trimmed(lines), code)) == Wordy(Built(lines, current))
    ensures Plain(lines, current)
    decreases |lines|
  {
    if lines != [] {
      var line, rest := lines[0], lines[1..];
      CodeStep(lines, code);
      if Skipped(line) {
        AgreedIsPlain(rest, code, current);
      } else if Blank(line) {
        WordyStep(code + Trim(line), Continued(Trimmed(rest), []));
        assert code + Trim(line) == code;
        if Words(code) == [] {
          AgreedIsPlain(rest, [], current);
        } else if !Idle(rest) {
          NotIdleGrows(rest, current);
          FirstWordy(Built(rest, current));
        }
      } else if Continues(line) {
        GoesOn(line, code, current);
        AgreedIsPlain(rest, code + (TrimStart(Head(line)) + [' ']), Some(Joined(current, Head(line))));
      } else {
        Ends(line, code, current);
        TrimStartKeepsWords(line);
        WordyStep(code + Trim(line), Continued(Trimmed(rest), []));
        WordyStep(Joined(current, line), Built(rest, None));
        var first := Words(code + Trim(line));
        Tails(first, Wordy(Continued(Trimmed(rest), [])), Wordy(Built(rest, None)));
        AgreedIsPlain(rest, [], None);
      }
    }
  }

  lemma Tails<T>(first: T, a: seq<T>, b: seq<T>)
    requires [first] + a == [first] + b
    ensures a == b
  {
    assert ([first] + a)[1..] == a && ([first] + b)[1..] == b;
  }

  lemma FirstWordy(all: seq<string>)
    requires all != [] && Words(all[0]) != []
    ensures Wordy(all) != [] && Wordy(all)[0] == Words(all[0])
  {
  }

  // ----- The lines and the words as the builder cuts them -----

  function TrimReturns(s: string): (r: string)
    ensures r <= s && forall i :: |r| <= i < |s| ==> IsWhite(s[i])
  {
    if s != [] && s[|s| - 1] == '\r' then TrimReturns(s[..|s| - 1]) else s
  }

  /** The lines of a Dockerfile, each without the carriage returns at its end. */
  function BuilderLines(s: string): seq<string>
    decreases |s|
  {
    if s == [] then []
    else
      var line := Until(s, '\n');
      UntilLength(s, '\n');
      [TrimReturns(line)] + if |line| == |s| then [] else BuilderLines(s[|line| + 1..])
  }

  lemma {:induction false} TrimEndOfWhite(s: string, white: string)
    requires forall i :: 0 <= i < |white| ==> IsWhite(white[i])
    ensures TrimEnd(s + white) == TrimEnd(s)
  {
    if white == [] {
      assert s + white == s;
    } else {
      var front := white[..|white| - 1];
      assert (s + white)[..|s + white| - 1] == s + front;
      TrimEndOfWhite(s, front);
    }
  }

  lemma TrimOfWhite(s: string, white: string)
    requires forall i :: 0 <= i < |white| ==> IsWhite(white[i])
    ensures Trim(s + white) == Trim(s)
  {
    TrimStartOnto(s, white);
    WhiteHasNoWords(white);
    TrimEndOfWhite(TrimStart(s), white);
  }

  lemma TrimOfPrefix(s: string, t: string)
    requires t <= s && forall i :: |t| <= i < |s| ==> IsWhite(s[i])
    ensures Trim(s) == Trim(t)
  {
    TrimOfWhite(t, s[|t|..]);
    assert s == t + s[|t|..];
  }

  /** However many carriage returns are taken off, trimmed lines are the same. */
  lemma {:induction false} SameTrimmed(s: string)
    ensures Trimmed(Lines(s)) == Trimmed(BuilderLines(s))
    decreases |s|
  {
    if s != [] {
      var line := Until(s, '\n');
      UntilLength(s, '\n');
      TrimOfPrefix(line, StripReturn(line));
      TrimOfPrefix(line, TrimReturns(line));
      if |line| < |s| {
        SameTrimmed(s[|line| + 1..]);
        TrimmedStep(StripReturn(line), Lines(s[|line| + 1..]));
        TrimmedStep(TrimReturns(line), BuilderLines(s[|line| + 1..]));
      } else {
        TrimmedStep(StripReturn(line), []);
        TrimmedStep(TrimReturns(line), []);
      }
    }
  }

  lemma TrimmedStep(line: string, rest: seq<string>)
    ensures Trimmed([line] + rest) == [Trim(line)] + Trimmed(rest)
  {
    assert ([line] + rest)[1..] == rest;
  }

  /** The builder cuts words at these alone; other white space is part of a word. */
  predicate IsBlank(c: char) { c in " \t\r" || c == 11 as char || c == 12 as char }

  function SkipBlanks(s: string): (r: string)
    ensures |r| <= |s| && (r == [] || !IsBlank(r[0]))
  {
    if s != [] && IsBlank(s[0]) then SkipBlanks(s[1..]) else s
  }

  function FirstField(s: string): string
  {
    if s == [] || IsBlank(s[0]) then [] else [s[0]] + FirstField(s[1..])
  }

  function AfterField(s: string): (r: string)
    ensures s != [] ==> |r| < |s|
  {
    if s == [] then [] else if IsBlank(s[0]) then s[1..] else AfterField(s[1..])
  }

  function Fields(s: string): seq<string>
    decreases |s|
  {
    var t := SkipBlanks(s);
    if t == [] then [] else [FirstField(t)] + Fields(AfterField(t))
  }

  /** The words of an instruction, as the builder cuts them. */
  function FieldsOf(instruction: string): seq<string> { Fields(Trim(instruction)) }

  function BuilderWordy(all: seq<string>): seq<seq<string>>
  {
    if all == [] then [] else (if FieldsOf(all[0]) == [] then [] else [FieldsOf(all[0])]) + BuilderWordy(all[1..])
  }

  predicate OnlyBlanks(s: string) { forall i :: 0 <= i < |s| ==> IsWhite(s[i]) ==> IsBlank(s[i]) }

  /** Between the words of every instruction there is no other white space. */
  predicate AllOnlyBlanks(all: seq<string>)
  {
    all == [] || (OnlyBlanks(Trim(all[0])) && AllOnlyBlanks(all[1..]))
  }

  lemma {:induction false} FirstFieldIsWord(s: string)
    requires OnlyBlanks(s)
    ensures FirstField(s) == FirstWord(s) && AfterField(s) == AfterWord(s) && OnlyBlanks(AfterField(s))
  {
    if s != [] {
      assert OnlyBlanks(s[1..]);
      if !IsBlank(s[0]) {
        FirstFieldIsWord(s[1..]);
      }
    }
  }

  lemma {:induction false} SkippedIsTrimmed(s: string)
    requires OnlyBlanks(s)
    ensures SkipBlanks(s) == TrimStart(s) && OnlyBlanks(TrimStart(s))
  {
    if s != [] && IsBlank(s[0]) {
      assert OnlyBlanks(s[1..]);
      SkippedIsTrimmed(s[1..]);
    }
  }

  /** Where there is no other white space, both cut the same words. */
  lemma {:induction false} FieldsAreWords(s: string)
    requires OnlyBlanks(s)
    ensures Fields(s) == Words(s)
    decreases |s|
  {
    var t := TrimStart(s);
    SkippedIsTrimmed(s);
    WordsOfTrimmed(s, t);
    if t != [] {
      FirstFieldIsWord(t);
      FieldsAreWords(AfterWord(t));
    }
  }

  predicate Unspaced(s: string) { forall i :: 0 <= i < |s| ==> !IsWhite(s[i]) }

  predicate Clean(words: seq<string>) { words == [] || (Unspaced(words[0]) && Clean(words[1..])) }

  predicate AllClean(all: seq<seq<string>>) { all == [] || (Clean(all[0]) && AllClean(all[1..])) }

  lemma {:induction false} WordsAreClean(s: string)
    ensures Clean(Words(s))
    decreases |s|
  {
    var t := TrimStart(s);
    WordsOfTrimmed(s, t);
    if t != [] {
      WordsAreClean(AfterWord(t));
      assert Words(s)[1..] == Words(AfterWord(t));
    }
  }

  lemma {:induction false} WordyIsClean(all: seq<string>)
    ensures AllClean(Wordy(all))
  {
    if all != [] {
      WordyIsClean(all[1..]);
      WordsAreClean(all[0]);
      var first := if Words(all[0]) == [] then [] else [Words(all[0])];
      CleanStep(first, Wordy(all[1..]));
    }
  }

  lemma CleanStep(first: seq<seq<string>>, rest: seq<seq<string>>)
    requires |first| <= 1
    ensures AllClean(first + rest) <==> (first == [] || Clean(first[0])) && AllClean(rest)
  {
    if first == [] {
      assert first + rest == rest;
    } else {
      assert (first + rest)[1..] == rest;
    }
  }

  lemma {:induction false} SkippedAreBlanks(s: string)
    ensures OnlyBlanks(SkipBlanks(s)) ==> OnlyBlanks(s)
  {
    if s != [] && IsBlank(s[0]) {
      SkippedAreBlanks(s[1..]);
      BlanksStep(s);
    }
  }

  lemma BlanksStep(s: string)
    requires s != []
    ensures OnlyBlanks(s) <==> (IsWhite(s[0]) ==> IsBlank(s[0])) && OnlyBlanks(s[1..])
  {
    assert forall i :: 0 < i < |s| ==> s[i] == s[1..][i - 1];
  }

  lemma {:induction false} FieldIsClean(s: string)
    requires Unspaced(FirstField(s)) && OnlyBlanks(AfterField(s))
    ensures OnlyBlanks(s)
  {
    if s != [] {
      BlanksStep(s);
      if !IsBlank(s[0]) {
        assert FirstField(s)[0] == s[0];
        assert FirstField(s)[1..] == FirstField(s[1..]);
        assert forall i :: 0 <= i < |FirstField(s[1..])| ==> FirstField(s[1..])[i] == FirstField(s)[i + 1];
        FieldIsClean(s[1..]);
      }
    }
  }

  /** A word without white space inside it says that the builder met no other white space. */
  lemma {:induction false} CleanFieldsOnlyBlanks(s: string)
    requires Clean(Fields(s))
    ensures OnlyBlanks(s)
    decreases |s|
  {
    var t := SkipBlanks(s);
    SkippedAreBlanks(s);
    if t != [] {
      assert Fields(s) == [FirstField(t)] + Fields(AfterField(t));
      assert Fields(s)[1..] == Fields(AfterField(t));
      CleanFieldsOnlyBlanks(AfterField(t));
      FieldIsClean(t);
    }
  }

  lemma {:induction false} CleanIsOnlyBlanks(all: seq<string>)
    requires AllClean(BuilderWordy(all))
    ensures AllOnlyBlanks(all)
  {
    if all != [] {
      var first := if FieldsOf(all[0]) == [] then [] else [FieldsOf(all[0])];
      CleanStep(first, BuilderWordy(all[1..]));
      CleanIsOnlyBlanks(all[1..]);
      CleanFieldsOnlyBlanks(Trim(all[0]));
    }
  }

  lemma {:induction false} OnlyBlanksAgree(all: seq<string>)
    requires AllOnlyBlanks(all)
    ensures BuilderWordy(all) == Wordy(all)
  {
    if all != [] {
      OnlyBlanksAgree(all[1..]);
      FieldsAreWords(Trim(all[0]));
      TrimKeepsWords(all[0]);
    }
  }

  /** What the code's reading of a Dockerfile asks of it. */
  predicate PlainJoins(dockerfile: string)
  {
    var lines := BuilderLines(dockerfile);
    Plain(lines, None) && AllOnlyBlanks(Built(lines, None))
  }

  /** The words of the instructions, joined either way and cut at white space. */
  lemma WordsAgreeIffPlain(dockerfile: string)
    ensures var built := Built(BuilderLines(dockerfile), None);
            Wordy(InstructionsOf(dockerfile)) == Wordy(built) <==> Plain(BuilderLines(dockerfile), None)
  {
    var lines := BuilderLines(dockerfile);
    SameTrimmed(dockerfile);
    var code, builder := Continued(Trimmed(lines), []), Built(lines, None);
    if Plain(lines, None) {
      PlainAgrees(lines, [], None);
    }
    if Wordy(code) == Wordy(builder) {
      SumsAreWords(code);
      SumsAreWords(builder);
      CodeInk(lines, []);
      BuilderInk(lines, None);
      MarksCompare(lines);
      CodeWords(lines, []);
      BuilderWords(lines, None);
      AgreedIsPlain(lines, [], None);
    }
  }

  /** The code reads a Dockerfile's instructions as the builder does, word for word, exactly when
      its joins are plain and its words stand apart by the builder's own blanks. */
  lemma JoiningsAgreeIffPlain(dockerfile: string)
    ensures Wordy(InstructionsOf(dockerfile)) == BuilderWordy(Built(BuilderLines(dockerfile), None)) <==>
            PlainJoins(dockerfile)
  {
    var code, built := InstructionsOf(dockerfile), Built(BuilderLines(dockerfile), None);
    WordsAgreeIffPlain(dockerfile);
    if Wordy(code) == BuilderWordy(built) {
      WordyIsClean(code);
      CleanIsOnlyBlanks(built);
    }
    if AllOnlyBlanks(built) {
      OnlyBlanksAgree(built);
    }
  }
}
