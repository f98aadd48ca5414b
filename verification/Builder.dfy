/** What the builder takes from a context, by its own reading of an instruction, and when a split
    gives it the same. */
module Builder {
  import opened Basics
  import opened Texts
  import opened Dockerfile
  import opened Joining

  // ----- How the builder reads one instruction -----

  /** One flag after its two dashes, without its quotes and with its escapes undone, and the text
      after it. */
  function FlagWord(s: string, word: string, quote: Option<char>): (r: (string, string))
    ensures |r.1| <= |s|
    decreases |s|
  {
    if s == [] then (word, [])
    else if quote.None? && IsWhite(s[0]) then (word, s)
    else if quote.None? && s[0] in "\"'" then FlagWord(s[1..], word, Some(s[0]))
    else if quote == Some(s[0]) then FlagWord(s[1..], word, None)
    else if s[0] == '\\' then if |s| == 1 then (word, []) else FlagWord(s[2..], word + [s[1]], quote)
    else FlagWord(s[1..], word + [s[0]], quote)
  }

  /** The flags of an instruction and the text after them. Two dashes alone end the flags. */
  function BuilderFlags(args: string): (seq<string>, string)
    decreases |args|
  {
    var text := TrimStart(args);
    if !("--" <= text) then ([], text)
    else
      var (word, rest) := FlagWord(text[2..], "--", None);
      if word == "--" then ([], rest)
      else
        var (more, after) := BuilderFlags(rest);
        ([word] + more, after)
  }

  /** A list of strings, or the words; text that is no such list is read as words. */
  function SourceList(text: string): seq<string>
  {
    if "[" <= text && JsonStrings(text).Some? then JsonStrings(text).value else Fields(text)
  }

  /** The sources of a COPY or ADD, as the builder reads what stands after its keyword. */
  function BuilderWritten(keyword: string, args: string): Option<seq<string>>
  {
    var (flags, text) := BuilderFlags(args);
    if FromStage(keyword, flags) then Some([])
    else
      var list := SourceList(text);
      if |list| < 2 then None else Some(list[..|list| - 1])
  }

  /** The sources an instruction takes from the context as the builder reads it, and None when more
      than COPY and ADD could read it. */
  function BuilderTakes(instruction: string): Option<seq<string>>
  {
    var line := Trim(instruction);
    var keyword, args := UpperAscii(FirstField(line)), AfterField(line);
    if Contains(line, "<<") || keyword == "ONBUILD" || (keyword == "RUN" && IsMount(BuilderFlags(args).0)) then None
    else if keyword == "COPY" || keyword == "ADD" then BuilderWritten(keyword, args)
    else Some([])
  }

  /** What the builder's instruction is given from a context. */
  ghost function BuilderGiven(
      instruction: string, name: string, context: set<string>, hides: (set<string>, string) -> bool): set<string>
  {
    GivenBy(BuilderTakes(instruction), name, context, hides)
  }

  // ----- Flags without quotes -----

  /** A flag that means what it says: plain ASCII, nothing quoted and nothing escaped. */
  predicate PlainFlag(word: string)
  {
    word != "--" && forall i :: 0 <= i < |word| ==> word[i] < 0x80 as char && word[i] !in "\"'\\"
  }

  predicate PlainFlags(words: seq<string>)
  {
    words == [] || ("--" <= words[0] ==> PlainFlag(words[0]) && PlainFlags(words[1..]))
  }

  function Leading(words: seq<string>): seq<string>
  {
    if words != [] && "--" <= words[0] then [words[0]] + Leading(words[1..]) else []
  }

  /** Letters that are neither white space nor quotes nor escapes go into the flag. */
  lemma {:induction false} FlagWordPlain(plain: string, more: string, word: string)
    requires forall i :: 0 <= i < |plain| ==> !IsWhite(plain[i]) && plain[i] !in "\"'\\"
    ensures FlagWord(plain + more, word, None) == FlagWord(more, word + plain, None)
  {
    if plain == [] {
      assert plain + more == more && word + plain == word;
    } else {
      assert (plain + more)[0] == plain[0] && (plain + more)[1..] == plain[1..] + more;
      FlagWordPlain(plain[1..], more, word + [plain[0]]);
      assert word + [plain[0]] + plain[1..] == word + plain;
    }
  }

  lemma {:induction false} AfterFirstWord(s: string)
    ensures FirstWord(s) <= s
    ensures var rest := s[|FirstWord(s)|..];
            (rest == [] || IsWhite(rest[0])) && TrimStart(rest) == TrimStart(AfterWord(s))
  {
    if s != [] && !IsWhite(s[0]) {
      AfterFirstWord(s[1..]);
      assert s[|FirstWord(s)|..] == s[1..][|FirstWord(s[1..])|..];
    }
  }

  lemma {:induction false} WordHasNoWhite(s: string)
    ensures Unspaced(FirstWord(s))
  {
    if s != [] && !IsWhite(s[0]) {
      WordHasNoWhite(s[1..]);
    }
  }

  lemma OneFlag(text: string)
    requires "--" <= text && PlainFlag(FirstWord(text))
    ensures FlagWord(text[2..], "--", None) == (FirstWord(text), text[|FirstWord(text)|..])
  {
    var word := FirstWord(text);
    DashWord(text);
    AfterFirstWord(text);
    WordHasNoWhite(text);
    var plain, rest := word[2..], text[|word|..];
    assert text[2..] == plain + rest && word == "--" + plain;
    FlagWordPlain(plain, rest, "--");
  }

  /** With plain flags the builder's flags are the leading words that start with two dashes. */
  lemma {:induction false} PlainFlagsAreWords(args: string)
    requires PlainFlags(Words(args))
    ensures BuilderFlags(args) == (Leading(Words(args)), UnflaggedText(TrimStart(args)))
    decreases |args|
  {
    var text := TrimStart(args);
    WordsOfTrimmed(args, text);
    if text != [] {
      var word, rest := FirstWord(text), text[|FirstWord(text)|..];
      AfterFirstWord(text);
      assert Words(args)[1..] == Words(AfterWord(text));
      assert "--" <= word ==> "--" <= text;
      if "--" <= text {
        DashWord(text);
        assert "--" <= word;
        OneFlag(text);
        TrimStartKeepsWords(rest);
        TrimStartKeepsWords(AfterWord(text));
        PlainFlagsAreWords(rest);
      }
    }
  }

  lemma {:induction false} LeadingNames(words: seq<string>)
    ensures FlagNames(Leading(words)) == FlagNames(words)
    ensures IsMount(Leading(words)) ==> IsMount(words)
  {
    if words != [] && "--" <= words[0] {
      LeadingNames(words[1..]);
      var leading := Leading(words);
      assert leading[1..] == Leading(words[1..]);
      if IsMount(leading) {
        var i :| 0 <= i < |leading| && "--mount" <= leading[i];
        if i > 0 {
          assert leading[1..][i - 1] == leading[i];
          var j :| 0 <= j < |words[1..]| && "--mount" <= words[1..][j];
          assert words[j + 1] == words[1..][j];
        }
      }
    }
  }

  // ----- Both readings of one instruction -----

  predicate HasHeredoc(words: seq<string>)
  {
    words != [] && (Contains(words[0], "<<") || HasHeredoc(words[1..]))
  }

  lemma {:induction false} HeredocAfterSpace(s: string)
    ensures Contains(TrimStart(s), "<<") <==> Contains(s, "<<")
  {
    if s != [] && IsWhite(s[0]) {
      HeredocAfterSpace(s[1..]);
    }
  }

  lemma {:induction false} HeredocInWord(s: string)
    ensures Contains(s, "<<") <==> Contains(FirstWord(s), "<<") || Contains(AfterWord(s), "<<")
  {
    if s != [] && !IsWhite(s[0]) {
      HeredocInWord(s[1..]);
      assert FirstWord(s)[1..] == FirstWord(s[1..]);
      if |s| > 1 && !IsWhite(s[1]) {
        assert FirstWord(s[1..])[0] == s[1];
      }
    }
  }

  lemma {:induction false} HeredocIsWord(s: string)
    ensures Contains(s, "<<") <==> HasHeredoc(Words(s))
    decreases |s|
  {
    var t := TrimStart(s);
    HeredocAfterSpace(s);
    WordsOfTrimmed(s, t);
    if t != [] {
      HeredocInWord(t);
      HeredocIsWord(AfterWord(t));
      assert Words(s)[1..] == Words(AfterWord(t));
    }
  }

  lemma {:induction false} UnflaggedWords(rest: string)
    requires TrimStart(rest) == rest
    ensures Words(UnflaggedText(rest)) == Unflagged(Words(rest))
    ensures TrimStart(UnflaggedText(rest)) == UnflaggedText(rest)
    ensures OnlyBlanks(rest) ==> OnlyBlanks(UnflaggedText(rest))
    decreases |rest|
  {
    WordsOfTrimmed(rest, rest);
    if "--" <= rest {
      DashWord(rest);
      var next := TrimStart(AfterWord(rest));
      TrimStartKeepsWords(AfterWord(rest));
      assert Words(rest)[0] == FirstWord(rest) && Words(rest)[1..] == Words(AfterWord(rest));
      if OnlyBlanks(rest) {
        FirstFieldIsWord(rest);
        SkippedIsTrimmed(AfterWord(rest));
      }
      UnflaggedWords(next);
    } else {
      NoFlags(rest);
    }
  }

  /** A COPY or ADD whose sources are a list in brackets. */
  predicate ListForm(instruction: string)
  {
    var words := Words(instruction);
    words != [] && UpperAscii(words[0]) in {"COPY", "ADD"} &&
    var rest := Unflagged(words[1..]);
    rest != [] && "[" <= rest[0]
  }

  lemma TrimmedStarts(s: string)
    ensures TrimStart(Trim(s)) == Trim(s)
    ensures Words(Trim(s)) == Words(s)
    ensures Words(s) == [] ==> Trim(s) == []
    ensures Words(s) != [] ==> Words(s) == [FirstWord(Trim(s))] + Words(AfterWord(Trim(s)))
  {
    TrimFirst(s);
    TrimEndCuts(TrimStart(s));
    TrimStartKeepsWords(s);
    TrimKeepsWords(s);
    WordsOfTrimmed(Trim(s), Trim(s));
  }

  lemma ListInWords(args: string)
    requires "[" <= UnflaggedText(TrimStart(args))
    ensures Unflagged(Words(args)) != [] && "[" <= Unflagged(Words(args))[0]
  {
    var text := UnflaggedText(TrimStart(args));
    TrimStartKeepsWords(args);
    UnflaggedWords(TrimStart(args));
    WordsOfTrimmed(text, text);
    assert FirstWord(text)[0] == '[';
  }

  lemma WrittenByWords(keyword: string, a: string, b: string)
    requires Words(a) == Words(b) && (Unflagged(Words(a)) == [] || !("[" <= Unflagged(Words(a))[0]))
    ensures Written(keyword, a) == Written(keyword, b)
  {
    if "[" <= UnflaggedText(TrimStart(a)) {
      ListInWords(a);
    }
    if "[" <= UnflaggedText(TrimStart(b)) {
      ListInWords(b);
    }
  }

  /** What an instruction takes is said by its words, unless they are a list. */
  lemma TakesByWords(a: string, b: string)
    requires Words(a) == Words(b) && !ListForm(a)
    ensures Takes(a) == Takes(b)
  {
    TrimmedStarts(a);
    TrimmedStarts(b);
    HeredocIsWord(Trim(a));
    HeredocIsWord(Trim(b));
    if Words(a) != [] {
      var x, y := AfterWord(Trim(a)), AfterWord(Trim(b));
      assert Words(a)[1..] == Words(x) && Words(b)[1..] == Words(y);
      assert FirstWord(Trim(a)) == Words(a)[0] == FirstWord(Trim(b));
      var keyword := UpperAscii(FirstWord(Trim(a)));
      if keyword == "COPY" || keyword == "ADD" {
        WrittenByWords(keyword, x, y);
      }
    }
  }

  /** The words after the keyword. */
  function ArgWords(instruction: string): seq<string> { Words(AfterWord(Trim(instruction))) }

  lemma UnflaggedFields(args: string)
    requires OnlyBlanks(args)
    ensures Fields(UnflaggedText(TrimStart(args))) == Unflagged(Words(args))
  {
    TrimStartKeepsWords(args);
    SkippedIsTrimmed(args);
    UnflaggedWords(TrimStart(args));
    FieldsAreWords(UnflaggedText(TrimStart(args)));
  }

  lemma WrittenIsTaken(keyword: string, args: string)
    requires OnlyBlanks(args) && PlainFlags(Words(args)) && Written(keyword, args).Some?
    ensures BuilderWritten(keyword, args) == Written(keyword, args)
  {
    PlainFlagsAreWords(args);
    LeadingNames(Words(args));
    UnflaggedFields(args);
  }

  lemma MountIsSeen(args: string)
    requires PlainFlags(Words(args))
    ensures IsMount(BuilderFlags(args).0) ==> IsMount(Words(args))
  {
    PlainFlagsAreWords(args);
    LeadingNames(Words(args));
  }

  /** With plain flags and no other white space the builder takes what the words say. */
  lemma BuilderTakesIt(instruction: string)
    requires OnlyBlanks(Trim(instruction)) && PlainFlags(ArgWords(instruction)) && Takes(instruction).Some?
    ensures BuilderTakes(instruction) == Takes(instruction)
  {
    var line := Trim(instruction);
    var keyword, args := UpperAscii(FirstWord(line)), AfterWord(line);
    FirstFieldIsWord(line);
    MountIsSeen(args);
    if keyword == "COPY" || keyword == "ADD" {
      WrittenIsTaken(keyword, args);
    }
  }

  // ----- The split, for what the builder reads -----

  /** The k-th instruction that the builder reads stands on one line. */
  predicate Alone(lines: seq<string>, current: Option<string>, k: nat)
    decreases |lines|
  {
    if lines == [] then false
    else if Skipped(lines[0]) || Blank(lines[0]) then Alone(lines[1..], current, k)
    else if Continues(lines[0]) then Alone(lines[1..], Some(Joined(current, Head(lines[0]))), k)
    else if k == 0 then current.None?
    else Alone(lines[1..], None, k - 1)
  }

  lemma {:induction false} IdleIsOne(lines: seq<string>, current: Option<string>, k: nat)
    requires Idle(lines) && current.Some?
    ensures |Built(lines, current)| == 1 && Words(Built(lines, current)[0]) == Words(current.value)
    ensures !Alone(lines, current, k)
    decreases |lines|
  {
    if lines != [] {
      var line, rest := lines[0], lines[1..];
      if Skipped(line) || Blank(line) {
        IdleIsOne(rest, current, k);
      } else {
        WhiteOnly(Head(line));
        WordsOfWhite(current.value, Head(line));
        IdleIsOne(rest, Some(Joined(current, Head(line))), k);
      }
    }
  }

  /** What the code's instruction at `j` has of the builder's at `k`: its words, and its text when that
      stands on one line. */
  ghost predicate Partner(
      lines: seq<string>, code: string, current: Option<string>, k: nat, j: nat)
  {
    var all, built := Continued(Trimmed(lines), code), Built(lines, current);
    && k < |built| && j < |all| && Words(all[j]) == Words(built[k])
    && (Alone(lines, current, k) ==> Trim(all[j]) == Trim(built[k]))
  }

  lemma TrimAgain(line: string)
    ensures Trim([] + Trim(line)) == Trim(line)
  {
    var t := Trim(line);
    TrimmedStarts(line);
    EndTwice(TrimStart(line));
    assert [] + t == t;
  }

  lemma EndTwice(s: string)
    ensures TrimEnd(TrimEnd(s)) == TrimEnd(s)
  {
    TrimEndCuts(s);
  }

  lemma TrimAfterStart(line: string)
    ensures Trim(TrimStart(line)) == Trim(line)
  {
    TrimStartKeepsWords(line);
  }

  lemma SkippedPartner(lines: seq<string>, code: string, current: Option<string>, k: nat, j: nat)
    requires lines != [] && Skipped(lines[0]) && Partner(lines[1..], code, current, k, j)
    ensures Partner(lines, code, current, k, j)
  {
    CodeStep(lines, code);
  }

  lemma BlankPartner(lines: seq<string>, code: string, current: Option<string>, k: nat, j: nat)
    requires lines != [] && !Skipped(lines[0]) && Blank(lines[0]) && Partner(lines[1..], [], current, k, j)
    ensures Partner(lines, code, current, k, j + 1)
  {
    CodeStep(lines, code);
    BlankGoesNowhere(lines[0]);
  }

  /** A blank line ends the code's instruction; nothing but idle lines may come after it. */
  lemma IdlePartner(lines: seq<string>, code: string, current: Option<string>, k: nat)
    requires lines != [] && !Skipped(lines[0]) && Blank(lines[0]) && Idle(lines[1..])
    requires current.Some? && Same(code, current) && k < |Built(lines, current)|
    ensures Partner(lines, code, current, k, 0)
  {
    CodeStep(lines, code);
    BlankGoesNowhere(lines[0]);
    IdleIsOne(lines[1..], current, k);
    assert code + Trim(lines[0]) == code;
  }

  /** What both texts are after a line that is continued. */
  predicate OpensTo(line: string, code: string, current: Option<string>, text: string, open: Option<string>)
  {
    Continues(line) && text == code + (TrimStart(Head(line)) + [' ']) && open == Some(Joined(current, Head(line)))
  }

  lemma OpenPartner(
      lines: seq<string>, code: string, current: Option<string>, k: nat, j: nat, text: string, open: Option<string>)
    requires lines != [] && !Skipped(lines[0]) && !Blank(lines[0]) && Continues(lines[0])
    requires OpensTo(lines[0], code, current, text, open) && Partner(lines[1..], text, open, k, j)
    ensures Partner(lines, code, current, k, j)
  {
    CodeStep(lines, code);
    MarkIsSeen(lines[0]);
  }

  lemma EndedPartner(lines: seq<string>, code: string, current: Option<string>, k: nat, j: nat)
    requires lines != [] && !Skipped(lines[0]) && !Blank(lines[0])
    requires !Continues(lines[0]) && !IsContinued(Trim(lines[0]))
    requires Partner(lines[1..], [], None, k, j)
    ensures Partner(lines, code, current, k + 1, j + 1)
  {
    CodeStep(lines, code);
    BuiltStep(lines, current);
    NextAfter(code + Trim(lines[0]), Continued(Trimmed(lines[1..]), []), j);
    NextAfter(Joined(current, lines[0]), Built(lines[1..], None), k);
  }

  lemma BuiltStep(lines: seq<string>, current: Option<string>)
    requires lines != [] && !Skipped(lines[0]) && !Blank(lines[0]) && !Continues(lines[0])
    ensures Built(lines, current) == [Joined(current, lines[0])] + Built(lines[1..], None)
  {
  }

  lemma NextAfter<T>(first: T, rest: seq<T>, i: nat)
    requires i < |rest|
    ensures ([first] + rest)[i + 1] == rest[i]
  {
  }

  lemma FirstPartner(lines: seq<string>, code: string, current: Option<string>)
    requires lines != [] && !Skipped(lines[0]) && !Blank(lines[0])
    requires !Continues(lines[0]) && !IsContinued(Trim(lines[0]))
    requires Apart(Held(current), lines[0]) && Same(code, current) && (current.None? ==> code == [])
    ensures Partner(lines, code, current, 0, 0)
  {
    CodeStep(lines, code);
    Ends(lines[0], code, current);
    TrimAgain(lines[0]);
    TrimAfterStart(lines[0]);
  }

  /** What the search for a partner asks of the lines before it. */
  ghost predicate Ready(lines: seq<string>, code: string, current: Option<string>, k: nat)
  {
    && Plain(lines, current) && Same(code, current) && (current.None? ==> code == [])
    && k < |Built(lines, current)|
  }

  lemma OpenReady(
      lines: seq<string>, code: string, current: Option<string>, k: nat, text: string, open: Option<string>)
    requires lines != [] && !Skipped(lines[0]) && !Blank(lines[0]) && Ready(lines, code, current, k)
    requires OpensTo(lines[0], code, current, text, open)
    ensures Ready(lines[1..], text, open, k)
  {
    GoesOn(lines[0], code, current);
  }

  lemma EndedReady(lines: seq<string>, code: string, current: Option<string>, k: nat)
    requires lines != [] && !Skipped(lines[0]) && !Blank(lines[0]) && !Continues(lines[0])
    requires Ready(lines, code, current, k)
    ensures !IsContinued(Trim(lines[0])) && Apart(Held(current), lines[0])
    ensures k > 0 ==> Ready(lines[1..], [], None, k - 1)
  {
  }

  lemma BlankReady(lines: seq<string>, code: string, current: Option<string>, k: nat)
    requires lines != [] && !Skipped(lines[0]) && Blank(lines[0]) && Ready(lines, code, current, k)
    ensures Words(Held(current)) == [] ==> Ready(lines[1..], [], current, k)
    ensures Words(Held(current)) != [] ==> current.Some? && Idle(lines[1..])
  {
  }

  lemma PartnerAtEnd(code: string, current: Option<string>, k: nat)
    requires Ready([], code, current, k)
    ensures Partner([], code, current, k, 0)
  {
  }

  lemma {:induction false} PartnerOfBlank(lines: seq<string>, code: string, current: Option<string>, k: nat)
    returns (j: nat)
    requires lines != [] && !Skipped(lines[0]) && Blank(lines[0]) && Ready(lines, code, current, k)
    ensures Partner(lines, code, current, k, j)
    decreases |lines|, 0
  {
    BlankReady(lines, code, current, k);
    if Words(Held(current)) == [] {
      var i := PartnerOf(lines[1..], [], current, k);
      BlankPartner(lines, code, current, k, i);
      j := i + 1;
    } else {
      IdlePartner(lines, code, current, k);
      j := 0;
    }
  }

  lemma {:induction false} PartnerOfOpen(lines: seq<string>, code: string, current: Option<string>, k: nat)
    returns (j: nat)
    requires lines != [] && !Skipped(lines[0]) && !Blank(lines[0]) && Continues(lines[0])
    requires Ready(lines, code, current, k)
    ensures Partner(lines, code, current, k, j)
    decreases |lines|, 0
  {
    var text, open := code + (TrimStart(Head(lines[0])) + [' ']), Some(Joined(current, Head(lines[0])));
    OpenReady(lines, code, current, k, text, open);
    j := PartnerOf(lines[1..], text, open, k);
    OpenPartner(lines, code, current, k, j, text, open);
  }

  lemma {:induction false} PartnerOfEnded(lines: seq<string>, code: string, current: Option<string>, k: nat)
    returns (j: nat)
    requires lines != [] && !Skipped(lines[0]) && !Blank(lines[0]) && !Continues(lines[0])
    requires Ready(lines, code, current, k)
    ensures Partner(lines, code, current, k, j)
    decreases |lines|, 0
  {
    EndedReady(lines, code, current, k);
    if k == 0 {
      FirstPartner(lines, code, current);
      j := 0;
    } else {
      var i := PartnerOf(lines[1..], [], None, k - 1);
      EndedPartner(lines, code, current, k - 1, i);
      j := i + 1;
    }
  }

  /** With plain joins every instruction the builder reads has a partner among the code's. */
  lemma {:induction false} PartnerOf(lines: seq<string>, code: string, current: Option<string>, k: nat)
    returns (j: nat)
    requires Ready(lines, code, current, k)
    ensures Partner(lines, code, current, k, j)
    decreases |lines|, 1
  {
    if lines == [] {
      PartnerAtEnd(code, current, k);
      j := 0;
    } else if Skipped(lines[0]) {
      j := PartnerOf(lines[1..], code, current, k);
      SkippedPartner(lines, code, current, k, j);
    } else if Blank(lines[0]) {
      j := PartnerOfBlank(lines, code, current, k);
    } else if Continues(lines[0]) {
      j := PartnerOfOpen(lines, code, current, k);
    } else {
      j := PartnerOfEnded(lines, code, current, k);
    }
  }

  /** What the k-th instruction of the builder asks of its line: no white space but blanks between its
      words, plain flags, and a list of sources on one line. */
  predicate ReadAlike(lines: seq<string>, k: nat)
    requires k < |Built(lines, None)|
  {
    var line := Built(lines, None)[k];
    OnlyBlanks(Trim(line)) && PlainFlags(ArgWords(line)) && (ListForm(line) ==> Alone(lines, None, k))
  }

  lemma PartnerTakes(lines: seq<string>, k: nat, j: nat)
    requires Partner(lines, [], None, k, j)
    requires ListForm(Built(lines, None)[k]) ==> Alone(lines, None, k)
    ensures Takes(Continued(Trimmed(lines), [])[j]) == Takes(Built(lines, None)[k])
  {
    var mine, line := Continued(Trimmed(lines), [])[j], Built(lines, None)[k];
    if !ListForm(line) {
      TakesByWords(line, mine);
    }
  }

  /** With plain joins a split keeps the meaning of the build as the builder reads it: every
      instruction that both read alike is given from the chosen files exactly what it is given from
      the whole directory. */
  lemma SplitKeepsBuilderBuild(
      dockerfile: string, name: string, paths: seq<string>, hides: (set<string>, string) -> bool, k: nat)
    requires SplitOf(dockerfile, name, paths).Files? && name in paths
    requires Plain(BuilderLines(dockerfile), None) && k < |Built(BuilderLines(dockerfile), None)|
    requires ReadAlike(BuilderLines(dockerfile), k)
    ensures var whole := set p | p in paths;
            var files := SplitOf(dockerfile, name, paths).chosen;
            var line := Built(BuilderLines(dockerfile), None)[k];
            && BuilderTakes(line).Some?
            && BuilderGiven(line, name, files, hides) == BuilderGiven(line, name, whole, hides)
  {
    var lines := BuilderLines(dockerfile);
    var line := Built(lines, None)[k];
    SameTrimmed(dockerfile);
    var j := PartnerOf(lines, [], None, k);
    PartnerTakes(lines, k, j);
    SplitKeepsBuild(dockerfile, name, paths, hides, j);
    BuilderTakesIt(line);
  }
}
