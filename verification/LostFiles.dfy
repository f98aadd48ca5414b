/** Three Dockerfiles whose split leaves out a file that the builder takes, one for each way in which
    the program and the builder read an instruction differently. */
module LostFiles {
  import opened Basics
  import opened Texts
  import opened Dockerfile
  import opened Joining
  import opened Builder

  // ----- Reading texts that are known -----

  lemma {:induction false} UntilAt(a: string, c: char, rest: string)
    requires c !in a
    ensures Until(a + ([c] + rest), c) == a
  {
    var s := a + ([c] + rest);
    if a != [] {
      assert a[0] in a && forall d :: d in a[1..] ==> d in a;
      UntilAt(a[1..], c, rest);
      assert s[1..] == a[1..] + ([c] + rest);
    }
  }

  lemma {:induction false} UntilEnd(a: string, c: char)
    requires c !in a
    ensures Until(a, c) == a
  {
    if a != [] {
      assert a[0] in a && forall d :: d in a[1..] ==> d in a;
      UntilEnd(a[1..], c);
    }
  }

  lemma OneLine(line: string)
    requires '\n' !in line && line != [] && TrimReturns(line) == line
    ensures BuilderLines(line) == [line]
  {
    UntilEnd(line, '\n');
    assert [line] + [] == [line];
  }

  lemma TwoLines(a: string, b: string)
    requires '\n' !in a && '\n' !in b && b != [] && TrimReturns(a) == a && TrimReturns(b) == b
    ensures BuilderLines(a + (['\n'] + b)) == [a, b]
  {
    var s := a + (['\n'] + b);
    UntilAt(a, '\n', b);
    OneLine(b);
    AfterEnd(a, b);
    assert BuilderLines(s) == [TrimReturns(a)] + BuilderLines(s[|a| + 1..]);
  }

  lemma AfterEnd(a: string, b: string)
    ensures (a + (['\n'] + b))[|a| + 1..] == b
  {
  }

  lemma {:induction false} NoHeredoc(s: string)
    requires '<' !in s
    ensures !Contains(s, "<<")
  {
    if s != [] {
      assert s[0] in s && forall c :: c in s[1..] ==> c in s;
      NoHeredoc(s[1..]);
    }
  }

  lemma {:induction false} WordLetters(s: string)
    ensures forall c :: c in FirstWord(s) || c in AfterWord(s) ==> c in s
  {
    if s != [] {
      assert forall c :: c in s[1..] ==> c in s;
      if !IsWhite(s[0]) {
        WordLetters(s[1..]);
        assert FirstWord(s) == [s[0]] + FirstWord(s[1..]);
      }
    }
  }

  lemma {:induction false} NoMount(s: string)
    requires '-' !in s
    ensures !IsMount(Words(s))
    decreases |s|
  {
    var t := TrimStart(s);
    TrimStartLetters(s);
    WordsOfTrimmed(s, t);
    if t != [] {
      WordLetters(t);
      NoMount(AfterWord(t));
      var words := Words(s);
      forall i | 0 <= i < |words| ensures !("--mount" <= words[i]) {
        if i > 0 {
          assert words[i] == Words(AfterWord(t))[i - 1];
        } else if "--mount" <= words[0] {
          assert words[0][0] in FirstWord(t);
        }
      }
    }
  }

  lemma {:induction false} TrimStartLetters(s: string)
    ensures forall c :: c in TrimStart(s) ==> c in s
  {
    if s != [] && IsWhite(s[0]) {
      assert forall c :: c in s[1..] ==> c in s;
      TrimStartLetters(s[1..]);
    }
  }

  lemma {:induction false} UnspacedIsWord(s: string)
    requires Unspaced(s)
    ensures FirstWord(s) == s && AfterWord(s) == []
  {
    if s != [] {
      UnspacedIsWord(s[1..]);
    }
  }

  lemma CutFirst(word: string, rest: string)
    requires Unspaced(word) && word != []
    ensures var s := word + ([' '] + rest);
            FirstWord(s) == word && AfterWord(s) == rest && Words(s) == [word] + Words(rest) && TrimStart(s) == s
  {
    UnspacedIsWord(word);
    FirstWordOnto(word, ' ', rest);
    WordsOfTrimmed(word + ([' '] + rest), word + ([' '] + rest));
  }

  lemma {:induction false} AlreadyUpper(s: string)
    requires forall i :: 0 <= i < |s| ==> !('a' <= s[i] <= 'z')
    ensures UpperAscii(s) == s
  {
    if s != [] {
      AlreadyUpper(s[1..]);
    }
  }

  lemma AlreadyTrimmed(s: string)
    requires s != [] && !IsWhite(s[0]) && !IsWhite(s[|s| - 1])
    ensures Trim(s) == s
  {
  }

  lemma Lacks(c: char, a: string, b: string)
    requires c !in a && c !in b
    ensures c !in a + b
  {
  }

  lemma OneWord(word: string)
    requires Unspaced(word) && word != []
    ensures Words(word) == [word] && TrimStart(word) == word
  {
    UnspacedIsWord(word);
    WordsOfTrimmed(word, word);
    assert Words([]) == [];
  }

  lemma EmptyTakesNothing()
    ensures LineSources([]) == Ok([])
  {
  }

  lemma NamedOfOne(line: string, named: seq<string>)
    requires LineSources(line) == Ok(named)
    ensures Named([line, []]) == Ok(named)
  {
    var all := [line, []];
    EmptyTakesNothing();
    assert all[..0] == [] && Named(all[..0]) == Ok([]);
    NamedStep(all, 0);
    NamedStep(all, 1);
    assert all[..2] == all;
    assert [] + named == named && named + [] == named;
  }

  /** A text of one line that is not continued is its own instruction. */
  lemma OneInstruction(line: string)
    requires Trim(line) == line && line != [] && line[0] != '#' && line[|line| - 1] != '\\'
    ensures Continued(Trimmed([line]), []) == [line, []]
    ensures Built([line], None) == [line] && Plain([line], None)
  {
    TrimmedStarts(line);
    CodeStep([line], []);
    EndsPlainly(line);
    assert [line][1..] == [] && Trimmed([]) == [] && Continued([], []) == [[]];
    assert [] + line == line;
    assert Built([line], None) == [line] + Built([], None);
  }

  lemma EndsPlainly(line: string)
    requires line != [] && !IsWhite(line[|line| - 1]) && line[|line| - 1] != '\\'
    ensures !Continues(line)
  {
    assert TrimBlanks(line) == line;
  }

  lemma NoIgnoreFiles(name: string)
    requires |name| < 13
    ensures name !in DockerIgnores("D")
  {
    SplitOfPart("D");
    assert Parent("D") == None;
    assert |".dockerignore"| == 13 && |"D" + ".dockerignore"| == 14;
  }

  /** A Dockerfile that names nothing has only itself in the split. */
  lemma NothingNamed(dockerfile: string, file: string)
    requires Named(InstructionsOf(dockerfile)) == Ok([]) && |file| < 13 && file != "D"
    ensures SplitOf(dockerfile, "D", ["D", file]) == Files({"D"})
  {
    var paths := ["D", file];
    NoIgnoreFiles("D");
    NoIgnoreFiles(file);
    var ignored := set p | p in paths && p in DockerIgnores("D");
    assert ignored == {} && Selected([], paths) == {};
    assert {} + {"D"} + ignored == {"D"};
    assert |{"D"}| == 1;
  }

  lemma SelectsItself(path: string)
    requires '/' !in path && path != "" && path != "."
    ensures Covers(Some([path]), path)
  {
    SplitOfPart(path);
    assert CleanParts([path]) == [path] + CleanParts([]);
    assert Selects([path][0], path);
  }

  lemma {:induction false} FieldAlone(word: string)
    requires forall i :: 0 <= i < |word| ==> !IsBlank(word[i])
    ensures FirstField(word) == word && AfterField(word) == []
  {
    if word != [] {
      FieldAlone(word[1..]);
    }
  }

  lemma {:induction false} FieldOnto(word: string, rest: string)
    requires forall i :: 0 <= i < |word| ==> !IsBlank(word[i])
    ensures var s := word + ([' '] + rest);
            FirstField(s) == word && AfterField(s) == rest
  {
    var s := word + ([' '] + rest);
    if word == [] {
      assert s == [' '] + rest;
    } else {
      FieldOnto(word[1..], rest);
      assert s[1..] == word[1..] + ([' '] + rest);
    }
  }

  lemma TwoFields(first: string, last: string)
    requires forall i :: 0 <= i < |first| ==> !IsBlank(first[i])
    requires forall i :: 0 <= i < |last| ==> !IsBlank(last[i])
    requires first != [] && last != []
    ensures Fields(first + ([' '] + last)) == [first, last]
  {
    var s := first + ([' '] + last);
    FieldOnto(first, last);
    FieldAlone(last);
    assert SkipBlanks(s) == s && SkipBlanks(last) == last;
    assert Fields([]) == [];
    assert Fields(last) == [last] + Fields([]);
    assert Fields(s) == [first] + Fields(last);
  }

  lemma BuilderCuts(args: string, line: string)
    requires line == "COPY" + ([' '] + args)
    requires args != [] && !IsWhite(args[|args| - 1]) && '<' !in line
    ensures Trim(line) == line && UpperAscii(FirstField(line)) == "COPY" && AfterField(line) == args
    ensures !Contains(line, "<<")
  {
    assert line[|line| - 1] == args[|args| - 1] && line[0] == 'C';
    AlreadyTrimmed(line);
    NoHeredoc(line);
    FieldOnto("COPY", args);
    AlreadyUpper("COPY");
  }

  lemma OneIsWritten(file: string, args: string)
    requires args == file + ([' '] + "/w") && file != [] && file[0] !in "-[" && !IsWhite(file[0])
    requires forall i :: 0 <= i < |file| ==> !IsBlank(file[i])
    ensures BuilderWritten("COPY", args) == Some([file])
  {
    assert args[0] == file[0] && TrimStart(args) == args;
    assert BuilderFlags(args) == ([], args);
    TwoFields(file, "/w");
    assert [file, "/w"][..1] == [file];
  }

  /** What the builder takes of a COPY of one file without flags. */
  lemma CopyOfOne(file: string, line: string)
    requires line == "COPY" + ([' '] + (file + ([' '] + "/w")))
    requires file != [] && file[0] !in "-[" && !IsWhite(file[0]) && '<' !in line
    requires forall i :: 0 <= i < |file| ==> !IsBlank(file[i])
    ensures BuilderTakes(line) == Some([file])
  {
    var args := file + ([' '] + "/w");
    BuilderCuts(args, line);
    OneIsWritten(file, args);
  }

  /** One file that the builder takes is in what it is given just when it is in the context. */
  lemma OneIsGiven(line: string, file: string, context: set<string>, hides: (set<string>, string) -> bool)
    requires BuilderTakes(line) == Some([file]) && '/' !in file && file != "" && file != "."
    requires forall ignores, p :: !hides(ignores, p)
    ensures file in BuilderGiven(line, "D", context, hides) <==> file in context
  {
    SelectsItself(file);
  }

  /** A line of the code that starts with a keyword. */
  lemma KeywordCuts(keyword: string, rest: string, line: string)
    requires line == keyword + ([' '] + rest) && Unspaced(keyword) && keyword != [] && UpperAscii(keyword) == keyword
    requires rest != [] && !IsWhite(rest[|rest| - 1]) && '<' !in line
    ensures Trim(line) == line && FirstWord(line) == keyword && AfterWord(line) == rest
    ensures !Contains(line, "<<")
  {
    assert line[|line| - 1] == rest[|rest| - 1] && line[0] == keyword[0];
    AlreadyTrimmed(line);
    NoHeredoc(line);
    CutFirst(keyword, rest);
  }

  lemma CopyReads(rest: string, line: string)
    requires line == "COPY" + ([' '] + rest) && rest != [] && !IsWhite(rest[|rest| - 1]) && '<' !in line
    ensures LineSources(line) == Sources("COPY", rest)
  {
    AlreadyUpper("COPY");
    KeywordCuts("COPY", rest, line);
  }

  lemma RunTakesNothing(rest: string)
    requires rest != [] && !IsWhite(rest[|rest| - 1]) && '<' !in rest && '-' !in rest
    ensures LineSources("RUN" + ([' '] + rest)) == Ok([])
  {
    Lacks('<', [' '], rest);
    Lacks('<', "RUN", [' '] + rest);
    AlreadyUpper("RUN");
    KeywordCuts("RUN", rest, "RUN" + ([' '] + rest));
    NoMount(rest);
    assert INSTRUCTIONS[1] == "RUN";
  }

  // ----- Two backslashes at the end of a line -----

  const COPIES := "COPY" + ([' '] + ("b" + ([' '] + "/w")))

  /** The first of the two lines; it ends in two backslashes. */
  const RUNS := "RUN \\\\"

  lemma CodeText()
    ensures Continued(Trimmed([RUNS, COPIES]), []) == ["RUN" + ([' '] + ("\\ " + COPIES)), []]
  {
    var lines := [RUNS, COPIES];
    var open := "RUN \\ ";
    AlreadyTrimmed(RUNS);
    AlreadyTrimmed(COPIES);
    CodeStep(lines, []);
    assert lines[1..] == [COPIES] && [COPIES][1..] == [];
    assert [] + (RUNS[..|RUNS| - 1] + [' ']) == open;
    CodeStep([COPIES], open);
    assert open + COPIES == "RUN" + ([' '] + ("\\ " + COPIES));
    assert Trimmed([]) == [] && Continued([], []) == [[]];
  }

  lemma CodeJoins()
    ensures Named(Continued(Trimmed([RUNS, COPIES]), [])) == Ok([])
  {
    var rest := "\\ " + COPIES;
    CodeText();
    RunTakesNothing(rest);
    NamedOfOne("RUN" + ([' '] + rest), []);
  }

  lemma BuilderEnds()
    ensures Built([RUNS, COPIES], None) == [RUNS, COPIES] && !Plain([RUNS, COPIES], None)
  {
    assert [RUNS, COPIES][1..] == [COPIES] && [COPIES][1..] == [];
    assert TrimBlanks(RUNS) == RUNS && TrimBlanks(COPIES) == COPIES;
    assert TrimStart(RUNS) == RUNS && TrimStart(COPIES) == COPIES;
    AlreadyTrimmed(RUNS);
    assert IsContinued(Trim(RUNS)) && !Continues(RUNS) && !Continues(COPIES);
    assert Built([COPIES], None) == [COPIES] + Built([], None);
    assert Built([RUNS, COPIES], None) == [RUNS] + Built([COPIES], None);
  }

  lemma TwoLinesRead()
    ensures BuilderLines(RUNS + (['\n'] + COPIES)) == [RUNS, COPIES]
  {
    TwoLines(RUNS, COPIES);
  }

  lemma CopiesTaken()
    ensures BuilderTakes(COPIES) == Some(["b"])
  {
    CopyOfOne("b", COPIES);
  }

  lemma BackslashSplit(dockerfile: string)
    requires dockerfile == RUNS + (['\n'] + COPIES)
    ensures SplitOf(dockerfile, "D", ["D", "b"]) == Files({"D"})
  {
    TwoLinesRead();
    SameTrimmed(dockerfile);
    CodeJoins();
    NothingNamed(dockerfile, "b");
  }

  /** Two backslashes end the line for the builder and continue it for the code: the split of this
      Dockerfile leaves out a file that the builder's second instruction takes. */
  lemma DoubleBackslashLosesFile(hides: (set<string>, string) -> bool)
    requires forall ignores, p :: !hides(ignores, p)
    ensures var dockerfile := RUNS + (['\n'] + COPIES);
            && !Plain(BuilderLines(dockerfile), None)
            && SplitOf(dockerfile, "D", ["D", "b"]) == Files({"D"})
            && Built(BuilderLines(dockerfile), None) == [RUNS, COPIES]
            && "b" in BuilderGiven(COPIES, "D", {"D", "b"}, hides)
            && "b" !in BuilderGiven(COPIES, "D", {"D"}, hides)
  {
    TwoLinesRead();
    BuilderEnds();
    BackslashSplit(RUNS + (['\n'] + COPIES));
    CopiesTaken();
    OneIsGiven(COPIES, "b", {"D", "b"}, hides);
    OneIsGiven(COPIES, "b", {"D"}, hides);
  }

  // ----- White space that is no blank to the builder -----

  const NO_BREAK: char := '\U{A0}'

  const ODD := "a" + ([NO_BREAK] + "b")

  const SPACED := "COPY" + ([' '] + (ODD + ([' '] + "/w")))

  lemma CodeCutsOdd()
    ensures Words(ODD + ([' '] + "/w")) == ["a", "b", "/w"]
  {
    OneWord("a");
    OneWord("b");
    OneWord("/w");
    WordsOfPair("a", NO_BREAK, "b");
    WordsOfPair(ODD, ' ', "/w");
  }

  lemma NameIsPath(name: string)
    requires name == "a" || name == "b"
    ensures SourcePath("COPY", name) == Ok(name)
  {
    SplitOfPart(name);
    assert CleanParts([name]) == [name] + CleanParts([]);
    assert !HasAny(name, "$\"'\\") && !HasAny(name, "*?[");
    assert JoinSlash([name]) == name;
  }

  lemma TwoPaths()
    ensures SourcePaths("COPY", ["a", "b"]) == Ok(["a", "b"])
  {
    NameIsPath("a");
    NameIsPath("b");
    assert ["a", "b"][1..] == ["b"] && ["b"][1..] == [];
    assert SourcePaths("COPY", ["b"]) == Ok(["b"] + []);
    assert ["a"] + (["b"] + []) == ["a", "b"];
  }

  lemma SourcesAreTwo(rest: string)
    requires Words(rest) == ["a", "b", "/w"] && rest != [] && rest[0] == 'a'
    ensures Sources("COPY", rest) == Ok(["a", "b"])
  {
    assert TrimStart(rest) == rest && !("--" <= rest) && !("[" <= rest);
    TwoPaths();
    assert ["a", "b", "/w"][..2] == ["a", "b"];
  }

  lemma CopyNamesTwo(rest: string, line: string)
    requires line == "COPY" + ([' '] + rest) && Words(rest) == ["a", "b", "/w"]
    requires rest != [] && rest[0] == 'a' && !IsWhite(rest[|rest| - 1]) && '<' !in line
    ensures LineSources(line) == Ok(["a", "b"])
  {
    CopyReads(rest, line);
    SourcesAreTwo(rest);
  }

  lemma CodeNamesTwo()
    ensures LineSources(SPACED) == Ok(["a", "b"])
  {
    CodeCutsOdd();
    CopyNamesTwo(ODD + ([' '] + "/w"), SPACED);
  }

  lemma OddIsOther()
    ensures !Holds("a", ODD) && !Holds("b", ODD) && ODD !in {"D", "a", "b"}
  {
    assert ODD[0] == 'a' && ODD[1] == NO_BREAK && |ODD| == 3;
    assert ("a" + "/")[1] == '/' && ("b" + "/")[0] == 'b';
  }

  lemma OddSelected(paths: seq<string>)
    requires paths == ["D", "a", "b", ODD]
    ensures AllMatched(["a", "b"], paths) && Selected(["a", "b"], paths) == {"a", "b"}
  {
    var named := ["a", "b"];
    OddIsOther();
    assert Holds(named[0], paths[1]) && Holds(named[1], paths[2]);
    assert Matches(named[0], paths) && Matches(named[1], paths);
    assert !Holds("a", "D") && !Holds("b", "D") && !Holds("a", "b") && !Holds("b", "a");
  }

  lemma OddSplit(paths: seq<string>)
    requires paths == ["D", "a", "b", ODD] && Named(InstructionsOf(SPACED)) == Ok(["a", "b"])
    ensures SplitOf(SPACED, "D", paths) == Files({"D", "a", "b"})
  {
    OddSelected(paths);
    NoIgnoreFiles("D");
    NoIgnoreFiles("a");
    NoIgnoreFiles("b");
    NoIgnoreFiles(ODD);
    var ignored := set p | p in paths && p in DockerIgnores("D");
    assert ignored == {};
    assert {"a", "b"} + {"D"} + ignored == {"D", "a", "b"};
    assert |{"D", "a", "b"}| == 3;
  }

  lemma OddIsRead()
    ensures BuilderLines(SPACED) == [SPACED] && Built([SPACED], None) == [SPACED] && Plain([SPACED], None)
    ensures Continued(Trimmed([SPACED]), []) == [SPACED, []] && !OnlyBlanks(Trim(SPACED))
  {
    OneLine(SPACED);
    AlreadyTrimmed(SPACED);
    OneInstruction(SPACED);
    assert SPACED[6] == NO_BREAK;
  }

  lemma OddSplits()
    ensures SplitOf(SPACED, "D", ["D", "a", "b", ODD]) == Files({"D", "a", "b"})
  {
    OddIsRead();
    SameTrimmed(SPACED);
    CodeNamesTwo();
    NamedOfOne(SPACED, ["a", "b"]);
    OddSplit(["D", "a", "b", ODD]);
  }

  lemma OddTaken()
    ensures BuilderTakes(SPACED) == Some([ODD])
  {
    CopyOfOne(ODD, SPACED);
  }

  lemma OddGiven(context: set<string>, hides: (set<string>, string) -> bool)
    requires forall ignores, p :: !hides(ignores, p)
    ensures ODD in BuilderGiven(SPACED, "D", context, hides) <==> ODD in context
  {
    OddTaken();
    OneIsGiven(SPACED, ODD, context, hides);
  }

  /** A no-break space ends a word for the code and is part of it for the builder: the split of this
      Dockerfile leaves out the one file that its instruction takes, though its joins are plain. */
  lemma OtherSpaceLosesFile(hides: (set<string>, string) -> bool)
    requires forall ignores, p :: !hides(ignores, p)
    ensures var paths := ["D", "a", "b", ODD];
            && Plain(BuilderLines(SPACED), None) && !OnlyBlanks(Trim(SPACED))
            && SplitOf(SPACED, "D", paths) == Files({"D", "a", "b"})
            && Built(BuilderLines(SPACED), None) == [SPACED]
            && ODD in BuilderGiven(SPACED, "D", {"D", "a", "b", ODD}, hides)
            && ODD !in BuilderGiven(SPACED, "D", {"D", "a", "b"}, hides)
  {
    OddIsRead();
    OddSplits();
    OddGiven({"D", "a", "b", ODD}, hides);
    OddGiven({"D", "a", "b"}, hides);
    OddIsOther();
  }

  // ----- A blank that is escaped inside a flag -----

  const AFTER_FLAG := "x" + ([' '] + "/w")

  const STAGE := "--" + (("from" + (['='] + "b")) + ([' '] + AFTER_FLAG))

  /** A flag that ends in a backslash, a blank, and what looks like a second flag. */
  const ESCAPED := "--" + (("chown" + (['='] + "a\\")) + ([' '] + STAGE))

  const FLAGGED := "COPY" + ([' '] + ESCAPED)

  lemma FlagNameIs(name: string, value: string, rest: string, text: string)
    requires Unspaced(name) && Unspaced(value) && '=' !in name && name != []
    requires text == "--" + ((name + (['='] + value)) + ([' '] + rest))
    ensures FlagName(text[2..]) == name && AfterWord(text[2..]) == rest
  {
    var flag := name + (['='] + value);
    assert text[2..] == flag + ([' '] + rest);
    UntilAt(name, '=', value);
    CutFirst(flag, rest);
  }

  lemma StageAfterFlag(rest: string, stage: string)
    requires "--" <= rest && FlagName(rest[2..]) == "chown" && TrimStart(AfterWord(rest[2..])) == stage
    requires "--" <= stage && FlagName(stage[2..]) == "from"
    ensures AfterFlags("COPY", rest) == Ok(None)
  {
    assert AfterFlags("COPY", stage) == Ok(None);
  }

  lemma CodeReadsFlags()
    ensures AfterFlags("COPY", ESCAPED) == Ok(None)
  {
    FlagNameIs("chown", "a\\", STAGE, ESCAPED);
    FlagNameIs("from", "b", AFTER_FLAG, STAGE);
    assert TrimStart(STAGE) == STAGE;
    StageAfterFlag(ESCAPED, STAGE);
  }

  lemma StageHasNoSources(rest: string)
    requires AfterFlags("COPY", rest) == Ok(None) && rest != [] && !IsWhite(rest[0])
    ensures Sources("COPY", rest) == Ok([])
  {
    assert TrimStart(rest) == rest;
  }

  lemma CodeSeesStage()
    ensures LineSources(FLAGGED) == Ok([])
  {
    NoAngle();
    CodeReadsFlags();
    CopyReads(ESCAPED, FLAGGED);
    StageHasNoSources(ESCAPED);
  }

  /** A flag goes on past an escaped blank. */
  lemma EscapedBlank(a: string, b: string, after: string, text: string)
    requires Unspaced(a) && Unspaced(b) && after != [] && IsWhite(after[0])
    requires forall c :: c in a || c in b ==> c !in "\"'\\"
    requires text == a + (['\\', ' '] + (b + after))
    ensures FlagWord(text, "--", None) == ("--" + a + [' '] + b, after)
  {
    var escaped := ['\\', ' '] + (b + after);
    FlagWordPlain(a, escaped, "--");
    assert escaped[0] == '\\' && escaped[1] == ' ' && escaped[2..] == b + after;
    assert FlagWord(escaped, "--" + a, None) == FlagWord(escaped[2..], "--" + a + [' '], None);
    FlagWordPlain(b, after, "--" + a + [' ']);
  }

  lemma BuilderSeesOneFlag()
    ensures BuilderFlags(ESCAPED) == (["--chown=a --from=b"], AFTER_FLAG)
  {
    var after := [' '] + AFTER_FLAG;
    EscapedBlank("chown=a", "--from=b", after, ESCAPED[2..]);
    assert "--" + "chown=a" + [' '] + "--from=b" == "--chown=a --from=b";
    assert TrimStart(ESCAPED) == ESCAPED;
    FlagsEnd(after);
    assert ["--chown=a --from=b"] + [] == ["--chown=a --from=b"];
  }

  lemma FlagsEnd(after: string)
    requires after == [' '] + AFTER_FLAG
    ensures BuilderFlags(after) == ([], AFTER_FLAG)
  {
    assert TrimStart(AFTER_FLAG) == AFTER_FLAG && after[1..] == AFTER_FLAG;
    assert TrimStart(after) == AFTER_FLAG;
  }

  lemma OnlyChown(flags: seq<string>)
    requires flags == ["--chown=a --from=b"]
    ensures !FromStage("COPY", flags)
  {
    assert flags[0][2..] == "chown" + (['='] + "a --from=b");
    UntilAt("chown", '=', "a --from=b");
    assert flags[1..] == [] && FlagNames(flags) == ["chown"] + FlagNames([]);
  }

  lemma WrittenAfter(args: string, flags: seq<string>)
    requires BuilderFlags(args) == (flags, AFTER_FLAG) && !FromStage("COPY", flags)
    ensures BuilderWritten("COPY", args) == Some(["x"])
  {
    TwoFields("x", "/w");
    assert !("[" <= AFTER_FLAG);
    assert ["x", "/w"][..1] == ["x"];
  }

  lemma NoAngle()
    ensures '<' !in FLAGGED && ESCAPED != [] && !IsWhite(ESCAPED[|ESCAPED| - 1])
  {
    Lacks('<', "x", [' '] + "/w");
    Lacks('<', "from" + (['='] + "b"), [' '] + AFTER_FLAG);
    Lacks('<', "--", ("from" + (['='] + "b")) + ([' '] + AFTER_FLAG));
    Lacks('<', [' '], STAGE);
    Lacks('<', "chown" + (['='] + "a\\"), [' '] + STAGE);
    Lacks('<', "--", ("chown" + (['='] + "a\\")) + ([' '] + STAGE));
    Lacks('<', [' '], ESCAPED);
    Lacks('<', "COPY", [' '] + ESCAPED);
  }

  lemma FlaggedTaken()
    ensures BuilderTakes(FLAGGED) == Some(["x"])
  {
    var flags := ["--chown=a --from=b"];
    NoAngle();
    BuilderCuts(ESCAPED, FLAGGED);
    BuilderSeesOneFlag();
    OnlyChown(flags);
    WrittenAfter(ESCAPED, flags);
  }

  lemma FlaggedIsRead()
    ensures BuilderLines(FLAGGED) == [FLAGGED] && Built([FLAGGED], None) == [FLAGGED] && Plain([FLAGGED], None)
    ensures Continued(Trimmed([FLAGGED]), []) == [FLAGGED, []]
  {
    OneLine(FLAGGED);
    AlreadyTrimmed(FLAGGED);
    OneInstruction(FLAGGED);
  }

  lemma EscapedWord(flag: string)
    requires flag == "--" + ("chown" + (['='] + "a\\"))
    ensures !PlainFlags(Words(ESCAPED))
  {
    CutFirst(flag, STAGE);
    assert ESCAPED == flag + ([' '] + STAGE);
    assert flag[9] == '\\' && "--" <= flag;
  }

  lemma FlaggedIsNotPlain()
    ensures !PlainFlags(ArgWords(FLAGGED))
  {
    NoAngle();
    AlreadyUpper("COPY");
    KeywordCuts("COPY", ESCAPED, FLAGGED);
    EscapedWord("--" + ("chown" + (['='] + "a\\")));
  }

  /** An escaped blank ends the flag for the code and belongs to it for the builder: what the code takes
      for a copy from another stage takes a file of the context. */
  lemma EscapedFlagLosesFile(hides: (set<string>, string) -> bool)
    requires forall ignores, p :: !hides(ignores, p)
    ensures && Plain(BuilderLines(FLAGGED), None) && !PlainFlags(ArgWords(FLAGGED))
            && SplitOf(FLAGGED, "D", ["D", "x"]) == Files({"D"})
            && Built(BuilderLines(FLAGGED), None) == [FLAGGED]
            && "x" in BuilderGiven(FLAGGED, "D", {"D", "x"}, hides)
            && "x" !in BuilderGiven(FLAGGED, "D", {"D"}, hides)
  {
    FlaggedIsRead();
    FlaggedIsNotPlain();
    SameTrimmed(FLAGGED);
    CodeSeesStage();
    NamedOfOne(FLAGGED, []);
    NothingNamed(FLAGGED, "x");
    FlaggedTaken();
    OneIsGiven(FLAGGED, "x", {"D", "x"}, hides);
    OneIsGiven(FLAGGED, "x", {"D"}, hides);
  }
}
