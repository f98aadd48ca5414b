/** Which files an image needs. Only what COPY and ADD name is packed, and whatever cannot be
    read for certain keeps the whole directory. */
module Dockerfile {
  import opened Basics
  import opened Texts
  import J = JsonText

  datatype Why =
    | BadOption | UnreadList | UnreadCopy | NeedsExpanding | IsPattern | IsDownload | AtRoot
    | WholeDirectory | LeavesDirectory | HasHeredoc | HasMount | RunsLater | UnreadLine
    | NotUploaded | EveryFile

  datatype Split = Files(chosen: set<string>) | Whole(why: Why)

  const INSTRUCTIONS := [
    "FROM", "RUN", "CMD", "LABEL", "MAINTAINER", "EXPOSE", "ENV", "ARG", "ENTRYPOINT", "VOLUME", "USER",
    "WORKDIR", "STOPSIGNAL", "HEALTHCHECK", "SHELL"]

  // ----- Continuation lines -----

  function Trimmed(lines: seq<string>): seq<string>
  {
    if lines == [] then [] else [Trim(lines[0])] + Trimmed(lines[1..])
  }

  predicate IsContinued(line: string) { line != [] && line[|line| - 1] == '\\' }

  predicate IsComment(line: string) { line != [] && line[0] == '#' }

  /** The instructions of trimmed lines, with `current` read so far. */
  function Continued(lines: seq<string>, current: string): seq<string>
    decreases |lines|
  {
    if lines == [] then [current]
    else if IsComment(lines[0]) then Continued(lines[1..], current)
    else if IsContinued(lines[0]) then Continued(lines[1..], current + (lines[0][..|lines[0]| - 1] + [' ']))
    else [current + lines[0]] + Continued(lines[1..], [])
  }

  function InstructionsOf(dockerfile: string): seq<string> { Continued(Trimmed(Lines(dockerfile)), []) }

  lemma {:induction false} TrimmedAt(lines: seq<string>, i: nat)
    requires i < |lines|
    ensures |Trimmed(lines)| == |lines| && Trimmed(lines)[i] == Trim(lines[i])
  {
    TrimmedLength(lines);
    if i > 0 {
      TrimmedAt(lines[1..], i - 1);
    }
  }

  lemma {:induction false} TrimmedLength(lines: seq<string>)
    ensures |Trimmed(lines)| == |lines|
  {
    if lines != [] {
      TrimmedLength(lines[1..]);
    }
  }

  method Instructions(dockerfile: string) returns (all: seq<string>)
    ensures all == InstructionsOf(dockerfile)
  {
    var lines := Lines(dockerfile);
    ghost var trimmed := Trimmed(lines);
    TrimmedLength(lines);
    all := [];
    var current: string := [];
    for i := 0 to |lines|
      invariant all + Continued(trimmed[i..], current) == Continued(trimmed, [])
    {
      TrimmedAt(lines, i);
      assert trimmed[i..][0] == trimmed[i] && trimmed[i..][1..] == trimmed[i + 1..];
      var line := Trim(lines[i]);
      if IsComment(line) {
        continue;
      }
      if IsContinued(line) {
        current := current + (line[..|line| - 1] + [' ']);
      } else {
        Regroup(all, [current + line], Continued(trimmed[i + 1..], []));
        all := all + [current + line];
        current := [];
      }
    }
    all := all + [current];
  }

  function AllWords(lines: seq<string>): seq<string>
  {
    if lines == [] then [] else Words(lines[0]) + AllWords(lines[1..])
  }

  /** The words of every line that is not a comment, without its continuation mark. */
  function KeptWords(lines: seq<string>): seq<string>
  {
    if lines == [] then []
    else if IsComment(lines[0]) then KeptWords(lines[1..])
    else Words(if IsContinued(lines[0]) then lines[0][..|lines[0]| - 1] else lines[0]) + KeptWords(lines[1..])
  }

  lemma WordsAfterOpen(current: string, more: string)
    requires current == [] || current[|current| - 1] == ' '
    ensures Words(current + more) == Words(current) + Words(more)
  {
    if current == [] {
      assert current + more == more;
    } else {
      var head := current[..|current| - 1];
      assert current + more == head + ([' '] + more);
      assert current == head + ([' '] + []);
      WordsOfPair(head, ' ', more);
      WordsOfPair(head, ' ', []);
    }
  }

  lemma WordsOfContinued(current: string, head: string)
    requires current == [] || current[|current| - 1] == ' '
    ensures Words(current + (head + [' '])) == Words(current) + Words(head)
  {
    WordsAfterOpen(current, head + [' ']);
    WordsOfPair(head, ' ', []);
    assert head + ([' '] + []) == head + [' '];
    assert Words(head) + Words([]) == Words(head);
  }

  lemma AllWordsStep(line: string, rest: seq<string>)
    ensures AllWords([line] + rest) == Words(line) + AllWords(rest)
  {
    assert ([line] + rest)[1..] == rest;
  }

  /** Joining continued lines loses no word, merges no two, and takes none from a comment. */
  lemma {:induction false} ContinuationKeepsWords(lines: seq<string>, current: string)
    requires current == [] || current[|current| - 1] == ' '
    ensures AllWords(Continued(lines, current)) == Words(current) + KeptWords(lines)
    decreases |lines|
  {
    if lines == [] {
      AllWordsStep(current, []);
      assert [current] + [] == [current];
    } else {
      var line, rest := lines[0], lines[1..];
      if IsComment(line) {
        ContinuationKeepsWords(rest, current);
      } else if IsContinued(line) {
        var head := line[..|line| - 1];
        ContinuationKeepsWords(rest, current + (head + [' ']));
        WordsOfContinued(current, head);
        Regroup(Words(current), Words(head), KeptWords(rest));
      } else {
        ContinuationKeepsWords(rest, []);
        WordsAfterOpen(current, line);
        AllWordsStep(current + line, Continued(rest, []));
        Regroup(Words(current), Words(line), KeptWords(rest));
        assert Words([]) + KeptWords(rest) == KeptWords(rest);
      }
    }
  }

  // ----- One COPY or ADD -----

  function FlagName(flagged: string): string { Until(FirstWord(flagged), '=') }

  /** The text after the flags, or None for a copy from another stage. */
  function AfterFlags(keyword: string, rest: string): Result<Option<string>, Why>
    decreases |rest|
  {
    if !("--" <= rest) then Ok(Some(rest))
    else
      var name := FlagName(rest[2..]);
      if keyword == "COPY" && name == "from" then Ok(None)
      else if name in {"chown", "chmod", "link"} || (keyword == "ADD" && name == "checksum") then
        AfterFlags(keyword, TrimStart(AfterWord(rest[2..])))
      else Err(BadOption)
  }

  function Strings(items: seq<J.Value>): Option<seq<string>>
  {
    if items == [] then Some([])
    else if !items[0].Str? then None
    else
      var rest :- Strings(items[1..]);
      Some([items[0].s] + rest)
  }

  function JsonStrings(text: string): Option<seq<string>>
  {
    var v :- J.Read(text);
    if v.Arr? then Strings(v.items) else None
  }

  function CleanParts(parts: seq<string>): seq<string>
  {
    if parts == [] then []
    else if parts[0] == "" || parts[0] == "." then CleanParts(parts[1..])
    else [parts[0]] + CleanParts(parts[1..])
  }

  predicate HasAny(s: string, chars: string) { exists i :: 0 <= i < |s| && s[i] in chars }

  function SourcePath(keyword: string, raw: string): Result<string, Why>
  {
    if HasAny(raw, "$\"'\\") then Err(NeedsExpanding)
    else if HasAny(raw, "*?[") then Err(IsPattern)
    else if keyword == "ADD" && (Contains(raw, "://") || "git@" <= raw) then Err(IsDownload)
    else if "/" <= raw then Err(AtRoot)
    else
      var parts := CleanParts(SplitSlash(raw));
      if parts == [] then Err(WholeDirectory)
      else if ".." in parts then Err(LeavesDirectory)
      else Ok(JoinSlash(parts))
  }

  function SourcePaths(keyword: string, raws: seq<string>): Result<seq<string>, Why>
  {
    if raws == [] then Ok([])
    else
      var first :- SourcePath(keyword, raws[0]);
      var rest :- SourcePaths(keyword, raws[1..]);
      Ok([first] + rest)
  }

  function Sources(keyword: string, words: string): Result<seq<string>, Why>
  {
    var rest :- AfterFlags(keyword, TrimStart(words));
    if rest.None? then Ok([])
    else
      var list := if "[" <= rest.value then JsonStrings(rest.value) else Some(Words(rest.value));
      if list.None? then Err(UnreadList)
      else if |list.value| < 2 then Err(UnreadCopy)
      else SourcePaths(keyword, list.value[..|list.value| - 1])
  }

  lemma {:induction false} SourcePathsAppend(keyword: string, raws: seq<string>, raw: string)
    ensures SourcePaths(keyword, raws + [raw]) ==
            match SourcePaths(keyword, raws)
            case Err(why) => Err(why)
            case Ok(paths) =>
              if SourcePath(keyword, raw).Ok? then Ok(paths + [SourcePath(keyword, raw).value])
              else Err(SourcePath(keyword, raw).error)
  {
    if raws == [] {
      assert raws + [raw] == [raw] && [raw][1..] == [];
      var only := SourcePath(keyword, raw);
      assert only.Ok? ==> [only.value] + [] == [] + [only.value];
    } else {
      SourcePathsAppend(keyword, raws[1..], raw);
      assert (raws + [raw])[0] == raws[0] && (raws + [raw])[1..] == raws[1..] + [raw];
      if SourcePaths(keyword, raws).Ok? && SourcePath(keyword, raw).Ok? {
        Regroup([SourcePath(keyword, raws[0]).value], SourcePaths(keyword, raws[1..]).value,
                [SourcePath(keyword, raw).value]);
      }
    }
  }

  lemma {:induction false} SourcePathsFail(keyword: string, raws: seq<string>, k: nat)
    requires k <= |raws| && SourcePaths(keyword, raws[..k]).Err?
    ensures SourcePaths(keyword, raws) == SourcePaths(keyword, raws[..k])
    decreases |raws| - k
  {
    if k < |raws| {
      SourcePathsAppend(keyword, raws[..k], raws[k]);
      assert raws[..k] + [raws[k]] == raws[..k + 1];
      SourcePathsFail(keyword, raws, k + 1);
    } else {
      assert raws[..k] == raws;
    }
  }

  method SourcesOf(keyword: string, words: string) returns (r: Result<seq<string>, Why>)
    ensures r == Sources(keyword, words)
  {
    var rest := TrimStart(words);
    while "--" <= rest
      invariant AfterFlags(keyword, TrimStart(words)) == AfterFlags(keyword, rest)
      decreases |rest|
    {
      var flagged := rest[2..];
      var name := FlagName(flagged);
      if keyword == "COPY" && name == "from" {
        return Ok([]);
      }
      if !(name in {"chown", "chmod", "link"} || (keyword == "ADD" && name == "checksum")) {
        return Err(BadOption);
      }
      rest := TrimStart(AfterWord(flagged));
    }
    var list := if "[" <= rest then JsonStrings(rest) else Some(Words(rest));
    if list.None? {
      return Err(UnreadList);
    }
    if |list.value| < 2 {
      return Err(UnreadCopy);
    }
    r := ReadPaths(keyword, list.value[..|list.value| - 1]);
  }

  method ReadPaths(keyword: string, raws: seq<string>) returns (r: Result<seq<string>, Why>)
    ensures r == SourcePaths(keyword, raws)
  {
    var paths: seq<string> := [];
    for k := 0 to |raws|
      invariant SourcePaths(keyword, raws[..k]) == Ok(paths)
    {
      SourcePathsAppend(keyword, raws[..k], raws[k]);
      assert raws[..k] + [raws[k]] == raws[..k + 1];
      var path := SourcePath(keyword, raws[k]);
      if path.Err? {
        SourcePathsFail(keyword, raws, k + 1);
        return Err(path.error);
      }
      paths := paths + [path.value];
    }
    assert raws[..|raws|] == raws;
    return Ok(paths);
  }

  // ----- The whole Dockerfile -----

  predicate IsMount(words: seq<string>) { exists i :: 0 <= i < |words| && "--mount" <= words[i] }

  /** What one instruction takes from the directory, or why that cannot be known. */
  function LineSources(instruction: string): Result<seq<string>, Why>
  {
    var line := Trim(instruction);
    if line == [] then Ok([])
    else
      var keyword, words := UpperAscii(FirstWord(line)), AfterWord(line);
      if Contains(line, "<<") then Err(HasHeredoc)
      else if keyword == "COPY" || keyword == "ADD" then Sources(keyword, words)
      else if keyword == "RUN" && IsMount(Words(words)) then Err(HasMount)
      else if keyword == "ONBUILD" then Err(RunsLater)
      else if keyword in INSTRUCTIONS then Ok([])
      else Err(UnreadLine)
  }

  function Named(instructions: seq<string>): Result<seq<string>, Why>
  {
    if instructions == [] then Ok([])
    else
      var before :- Named(instructions[..|instructions| - 1]);
      var last :- LineSources(instructions[|instructions| - 1]);
      Ok(before + last)
  }

  lemma {:induction false} NamedFails(lines: seq<string>, k: nat)
    requires k <= |lines| && Named(lines[..k]).Err?
    ensures Named(lines) == Named(lines[..k])
    decreases |lines| - k
  {
    if k < |lines| {
      assert lines[..k + 1][..k] == lines[..k];
      NamedFails(lines, k + 1);
    } else {
      assert lines[..k] == lines;
    }
  }

  lemma NamedStep(lines: seq<string>, k: nat)
    requires k < |lines| && Named(lines[..k]).Ok?
    ensures LineSources(lines[k]).Err? ==> Named(lines[..k + 1]) == Err(LineSources(lines[k]).error)
    ensures LineSources(lines[k]).Ok? ==>
      Named(lines[..k + 1]) == Ok(Named(lines[..k]).value + LineSources(lines[k]).value)
  {
    assert lines[..k + 1][..k] == lines[..k];
  }

  method ReadLine(instruction: string) returns (r: Result<seq<string>, Why>)
    ensures r == LineSources(instruction)
  {
    var line := Trim(instruction);
    if line == [] {
      return Ok([]);
    }
    var keyword, words := UpperAscii(FirstWord(line)), AfterWord(line);
    if Contains(line, "<<") {
      return Err(HasHeredoc);
    }
    if keyword == "COPY" || keyword == "ADD" {
      r := SourcesOf(keyword, words);
    } else if keyword == "RUN" && IsMount(Words(words)) {
      r := Err(HasMount);
    } else if keyword == "ONBUILD" {
      r := Err(RunsLater);
    } else {
      r := if keyword in INSTRUCTIONS then Ok([]) else Err(UnreadLine);
    }
  }

  method NamedSources(dockerfile: string) returns (r: Result<seq<string>, Why>)
    ensures r == Named(InstructionsOf(dockerfile))
  {
    var lines := Instructions(dockerfile);
    var named: seq<string> := [];
    for k := 0 to |lines|
      invariant Named(lines[..k]) == Ok(named)
    {
      NamedStep(lines, k);
      var taken := ReadLine(lines[k]);
      if taken.Err? {
        NamedFails(lines, k + 1);
        return Err(taken.error);
      }
      named := named + taken.value;
    }
    assert lines[..|lines|] == lines;
    return Ok(named);
  }

  function Parent(name: string): Option<string>
  {
    var parts := SplitSlash(name);
    if |parts| == 1 then None else Some(JoinSlash(parts[..|parts| - 1]))
  }

  /** The ignore files Docker may read for a Dockerfile of this name. */
  function DockerIgnores(name: string): set<string>
  {
    {".dockerignore", if Parent(name).Some? then Parent(name).value + "/.dockerignore" else ".dockerignore",
     name + ".dockerignore"}
  }

  predicate Holds(source: string, path: string) { path == source || source + "/" <= path }

  ghost function Selected(named: seq<string>, paths: seq<string>): set<string>
  {
    set p | p in paths && exists i :: 0 <= i < |named| && Holds(named[i], p)
  }

  predicate Matches(source: string, paths: seq<string>)
  {
    exists j :: 0 <= j < |paths| && Holds(source, paths[j])
  }

  predicate AllMatched(named: seq<string>, paths: seq<string>)
  {
    forall i :: 0 <= i < |named| ==> Matches(named[i], paths)
  }

  /** The decision of a split, given what the Dockerfile names. */
  ghost function Chosen(named: seq<string>, name: string, paths: seq<string>): Split
  {
    if !AllMatched(named, paths) then Whole(NotUploaded)
    else
      var chosen := Selected(named, paths) + {name} + (set p | p in paths && p in DockerIgnores(name));
      if |chosen| >= |paths| then Whole(EveryFile) else Files(chosen)
  }

  ghost function SplitOf(dockerfile: string, name: string, paths: seq<string>): Split
  {
    match Named(InstructionsOf(dockerfile))
    case Err(why) => Whole(why)
    case Ok(named) => Chosen(named, name, paths)
  }

  /** Adds the paths a source names, and tells whether there were any. */
  method Matching(source: string, paths: seq<string>) returns (found: set<string>, matched: bool)
    ensures found == Selected([source], paths)
    ensures matched == Matches(source, paths)
  {
    found, matched := {}, false;
    for j := 0 to |paths|
      invariant forall p :: p in found <==> p in paths[..j] && Holds(source, p)
      invariant matched <==> exists k :: 0 <= k < j && Holds(source, paths[k])
    {
      assert paths[..j + 1] == paths[..j] + [paths[j]];
      if Holds(source, paths[j]) {
        found := found + {paths[j]};
        matched := true;
      }
    }
    assert paths[..|paths|] == paths;
    assert [source][0] == source;
  }

  lemma SelectedStep(named: seq<string>, i: nat, paths: seq<string>)
    requires i < |named|
    ensures Selected(named[..i + 1], paths) == Selected(named[..i], paths) + Selected([named[i]], paths)
  {
    var now, before := named[..i + 1], named[..i];
    forall p | p in paths
      ensures p in Selected(now, paths) <==> p in Selected(before, paths) || Holds(named[i], p)
    {
      if p in Selected(before, paths) {
        var k :| 0 <= k < i && Holds(before[k], p);
        assert Holds(now[k], p);
      }
      if Holds(named[i], p) {
        assert Holds(now[i], p);
      }
      if p in Selected(now, paths) && !Holds(named[i], p) {
        var k :| 0 <= k <= i && Holds(now[k], p);
        assert Holds(before[k], p);
      }
    }
    assert [named[i]][0] == named[i];
  }

  /** Everything the sources name, unless one of them names nothing. */
  method Collect(named: seq<string>, paths: seq<string>) returns (chosen: Option<set<string>>)
    ensures chosen == if AllMatched(named, paths) then Some(Selected(named, paths)) else None
  {
    var all: set<string> := {};
    for i := 0 to |named|
      invariant all == Selected(named[..i], paths)
      invariant forall k :: 0 <= k < i ==> Matches(named[k], paths)
    {
      var inside, matched := Matching(named[i], paths);
      SelectedStep(named, i, paths);
      if !matched {
        return None;
      }
      all := all + inside;
    }
    assert named[..|named|] == named;
    assert AllMatched(named, paths);
    return Some(all);
  }

  method SplitDirectory(dockerfile: string, name: string, paths: seq<string>) returns (r: Split)
    ensures r == SplitOf(dockerfile, name, paths)
  {
    var found := NamedSources(dockerfile);
    if found.Err? {
      return Whole(found.error);
    }
    var collected := Collect(found.value, paths);
    if collected.None? {
      return Whole(NotUploaded);
    }
    var chosen := collected.value + {name};
    chosen := chosen + (set p | p in paths && p in DockerIgnores(name));
    if |chosen| >= |paths| {
      return Whole(EveryFile);
    }
    return Files(chosen);
  }

  // ----- What a build takes from its context, read from the words alone -----

  /** The names of the leading words that start with two dashes. */
  function FlagNames(words: seq<string>): seq<string>
  {
    if words != [] && "--" <= words[0] then [Until(words[0][2..], '=')] + FlagNames(words[1..]) else []
  }

  function Unflagged(words: seq<string>): seq<string>
  {
    if words != [] && "--" <= words[0] then Unflagged(words[1..]) else words
  }

  /** The text after the leading words that start with two dashes. */
  function UnflaggedText(rest: string): string
    decreases |rest|
  {
    if "--" <= rest then UnflaggedText(TrimStart(AfterWord(rest))) else rest
  }

  predicate FromStage(keyword: string, words: seq<string>) { keyword == "COPY" && "from" in FlagNames(words) }

  /** The sources of a COPY or ADD as it writes them: all its words but the last, after its
      flags, or all but the last string of its list. */
  function Written(keyword: string, words: string): Option<seq<string>>
  {
    if FromStage(keyword, Words(words)) then Some([])
    else
      var text := UnflaggedText(TrimStart(words));
      var list :- if "[" <= text then JsonStrings(text) else Some(Unflagged(Words(words)));
      if |list| < 2 then None else Some(list[..|list| - 1])
  }

  /** The sources an instruction takes from the context, and None when more than COPY and ADD
      could read it: a heredoc, a mount, or an instruction for a later build. */
  function Takes(instruction: string): Option<seq<string>>
  {
    var line := Trim(instruction);
    var keyword, words := UpperAscii(FirstWord(line)), AfterWord(line);
    if Contains(line, "<<") || keyword == "ONBUILD" || (keyword == "RUN" && IsMount(Words(words))) then None
    else if keyword == "COPY" || keyword == "ADD" then Written(keyword, words)
    else Some([])
  }

  /** A source selects a path when its parts, cleaned, are the first parts of it. */
  predicate Selects(raw: string, path: string) { CleanParts(SplitSlash(raw)) <= SplitSlash(path) }

  ghost predicate Covers(takes: Option<seq<string>>, path: string)
  {
    takes.Some? && exists i :: 0 <= i < |takes.value| && Selects(takes.value[i], path)
  }

  ghost predicate TakesPath(instruction: string, path: string) { Covers(Takes(instruction), path) }

  /** What some sources are given from a context. What is hidden depends on the ignore files the
      context has, and on the path. */
  ghost function GivenBy(
      takes: Option<seq<string>>, name: string, context: set<string>, hides: (set<string>, string) -> bool): set<string>
  {
    set p | p in context && !hides(context * DockerIgnores(name), p) && Covers(takes, p)
  }

  /** What each instruction is given. */
  ghost function Given(instruction: string, name: string, context: set<string>, hides: (set<string>, string) -> bool): set<string>
  {
    GivenBy(Takes(instruction), name, context, hides)
  }

  lemma {:induction false} CleanPartsHaveNoSlash(parts: seq<string>)
    requires forall i :: 0 <= i < |parts| ==> '/' !in parts[i]
    ensures forall i :: 0 <= i < |CleanParts(parts)| ==> '/' !in CleanParts(parts)[i]
  {
    if parts != [] {
      CleanPartsHaveNoSlash(parts[1..]);
    }
  }

  /** A cleaned source, compared as text, selects what the written one selects by its parts. */
  lemma SourceSelects(keyword: string, raw: string, path: string)
    requires SourcePath(keyword, raw).Ok?
    ensures Holds(SourcePath(keyword, raw).value, path) <==> Selects(raw, path)
  {
    var parts := CleanParts(SplitSlash(raw));
    SplitHasNoSlash(raw);
    CleanPartsHaveNoSlash(SplitSlash(raw));
    InsideIsPrefix(parts, path);
  }

  lemma {:induction false} SourcePathsAt(keyword: string, raws: seq<string>, i: nat)
    requires SourcePaths(keyword, raws).Ok? && i < |raws|
    ensures i < |SourcePaths(keyword, raws).value|
    ensures SourcePath(keyword, raws[i]) == Ok(SourcePaths(keyword, raws).value[i])
  {
    if i > 0 {
      SourcePathsAt(keyword, raws[1..], i - 1);
    }
  }

  lemma DashWord(rest: string)
    requires "--" <= rest
    ensures FirstWord(rest) == "--" + FirstWord(rest[2..]) && AfterWord(rest) == AfterWord(rest[2..])
    ensures TrimStart(rest) == rest
  {
    assert rest[0] == '-' && rest[1] == '-' && rest[1..][1..] == rest[2..];
    assert FirstWord(rest[1..]) == ['-'] + FirstWord(rest[2..]);
    assert FirstWord(rest) == ['-'] + FirstWord(rest[1..]);
  }

  /** Reading the flags from the text is reading them from the words. */
  lemma {:induction false} FlagsAreWords(keyword: string, rest: string)
    requires TrimStart(rest) == rest && AfterFlags(keyword, rest).Ok?
    ensures AfterFlags(keyword, rest).value.None? <==> FromStage(keyword, Words(rest))
    ensures AfterFlags(keyword, rest).value.Some? ==>
      var text := AfterFlags(keyword, rest).value.value;
      text == UnflaggedText(rest) && Words(text) == Unflagged(Words(rest))
    decreases |rest|
  {
    if "--" <= rest {
      DashWord(rest);
      var next := TrimStart(AfterWord(rest));
      var words := Words(rest);
      var flag := FirstWord(rest);
      WordsOfTrimmed(rest, rest);
      TrimTwice(AfterWord(rest));
      WordsOfTrimmed(AfterWord(rest), next);
      WordsOfTrimmed(next, next);
      assert words == [flag] + Words(next) && words[1..] == Words(next);
      assert flag[2..] == FirstWord(rest[2..]);
      assert FlagNames(words) == [FlagName(rest[2..])] + FlagNames(Words(next));
      if keyword != "COPY" || FlagName(rest[2..]) != "from" {
        FlagsAreWords(keyword, next);
      }
    } else {
      NoFlags(rest);
    }
  }

  lemma TrimTwice(s: string)
    ensures TrimStart(TrimStart(s)) == TrimStart(s)
  {
  }

  lemma NoFlags(rest: string)
    requires TrimStart(rest) == rest && !("--" <= rest)
    ensures FlagNames(Words(rest)) == [] && Unflagged(Words(rest)) == Words(rest)
  {
    if rest != [] {
      var word := FirstWord(rest);
      if "--" <= word {
        FirstWordIsPrefix(rest);
      }
    }
  }

  lemma {:induction false} FirstWordIsPrefix(s: string)
    ensures FirstWord(s) <= s
  {
    if s != [] {
      FirstWordIsPrefix(s[1..]);
    }
  }

  /** When the sources of a COPY or ADD are known, they are the written ones, cleaned. */
  lemma SourcesAreWritten(keyword: string, words: string)
    requires Sources(keyword, words).Ok?
    ensures Written(keyword, words).Some?
    ensures SourcePaths(keyword, Written(keyword, words).value) == Sources(keyword, words)
  {
    var rest := TrimStart(words);
    TrimTwice(words);
    WordsOfTrimmed(words, rest);
    WordsOfTrimmed(rest, rest);
    FlagsAreWords(keyword, rest);
  }

  lemma LineIsRead(instruction: string)
    requires LineSources(instruction).Ok?
    ensures Takes(instruction).Some?
    ensures forall p :: TakesPath(instruction, p) <==>
      exists i :: 0 <= i < |LineSources(instruction).value| && Holds(LineSources(instruction).value[i], p)
  {
    var line := Trim(instruction);
    var keyword, words := UpperAscii(FirstWord(line)), AfterWord(line);
    if line == [] {
      EmptyLine();
    } else if keyword == "COPY" || keyword == "ADD" {
      SourcesAreWritten(keyword, words);
      var raws, named := Takes(instruction).value, LineSources(instruction).value;
      SameLength(keyword, raws);
      forall p ensures TakesPath(instruction, p) <==> exists i :: 0 <= i < |named| && Holds(named[i], p) {
        forall i | 0 <= i < |raws| ensures Holds(named[i], p) <==> Selects(raws[i], p) {
          SourcePathsAt(keyword, raws, i);
          SourceSelects(keyword, raws[i], p);
        }
      }
    }
  }

  lemma EmptyLine()
    ensures FirstWord([]) == [] && UpperAscii([]) == []
    ensures !Contains([], "<<")
  {
  }

  lemma {:induction false} SameLength(keyword: string, raws: seq<string>)
    requires SourcePaths(keyword, raws).Ok?
    ensures |SourcePaths(keyword, raws).value| == |raws|
  {
    if raws != [] {
      SameLength(keyword, raws[1..]);
    }
  }

  lemma {:induction false} NamedHolds(lines: seq<string>, k: nat)
    requires Named(lines).Ok? && k < |lines|
    ensures LineSources(lines[k]).Ok?
    ensures forall s :: s in LineSources(lines[k]).value ==> s in Named(lines).value
  {
    if k < |lines| - 1 {
      NamedHolds(lines[..|lines| - 1], k);
    }
  }

  /** What a split into files has chosen. */
  lemma SplitFacts(dockerfile: string, name: string, paths: seq<string>)
    requires SplitOf(dockerfile, name, paths).Files?
    ensures Named(InstructionsOf(dockerfile)).Ok?
    ensures var files := SplitOf(dockerfile, name, paths).chosen;
            var named := Named(InstructionsOf(dockerfile)).value;
            && |files| < |paths|
            && forall p :: p in files <==>
                 p == name || (p in paths && p in DockerIgnores(name)) || p in Selected(named, paths)
  {
  }

  lemma TakenIsSelected(lines: seq<string>, k: nat, paths: seq<string>, p: string)
    requires Named(lines).Ok? && k < |lines| && p in paths && TakesPath(lines[k], p)
    ensures p in Selected(Named(lines).value, paths)
  {
    NamedHolds(lines, k);
    LineIsRead(lines[k]);
    var mine, named := LineSources(lines[k]).value, Named(lines).value;
    var i :| 0 <= i < |mine| && Holds(mine[i], p);
    assert mine[i] in named;
    var j :| 0 <= j < |named| && named[j] == mine[i];
    assert Holds(named[j], p);
  }

  /** A split keeps the meaning of the build: from the chosen files every instruction is given
      exactly what it is given from the whole directory, with the same ignore files present,
      whatever they hide; and nothing else in the Dockerfile can read the directory. */
  lemma SplitKeepsBuild(
      dockerfile: string, name: string, paths: seq<string>, hides: (set<string>, string) -> bool, k: nat)
    requires SplitOf(dockerfile, name, paths).Files? && name in paths
    requires k < |InstructionsOf(dockerfile)|
    ensures var whole := set p | p in paths;
            var files := SplitOf(dockerfile, name, paths).chosen;
            var line := InstructionsOf(dockerfile)[k];
            && files <= whole && |files| < |paths| && name in files
            && files * DockerIgnores(name) == whole * DockerIgnores(name)
            && Takes(line).Some?
            && Given(line, name, files, hides) == Given(line, name, whole, hides)
  {
    var lines := InstructionsOf(dockerfile);
    var whole := set p | p in paths;
    var files := SplitOf(dockerfile, name, paths).chosen;
    SplitKeepsIgnores(dockerfile, name, paths);
    NamedHolds(lines, k);
    LineIsRead(lines[k]);
    forall p | p in whole && TakesPath(lines[k], p) ensures p in files {
      TakenIsChosen(dockerfile, name, paths, k, p);
    }
  }

  lemma SplitKeepsIgnores(dockerfile: string, name: string, paths: seq<string>)
    requires SplitOf(dockerfile, name, paths).Files? && name in paths
    ensures var whole := set p | p in paths;
            var files := SplitOf(dockerfile, name, paths).chosen;
            && files <= whole && |files| < |paths| && name in files
            && files * DockerIgnores(name) == whole * DockerIgnores(name)
            && Named(InstructionsOf(dockerfile)).Ok?
  {
    SplitFacts(dockerfile, name, paths);
  }

  lemma TakenIsChosen(dockerfile: string, name: string, paths: seq<string>, k: nat, p: string)
    requires SplitOf(dockerfile, name, paths).Files? && k < |InstructionsOf(dockerfile)|
    requires p in paths && TakesPath(InstructionsOf(dockerfile)[k], p)
    ensures p in SplitOf(dockerfile, name, paths).chosen
  {
    SplitFacts(dockerfile, name, paths);
    TakenIsSelected(InstructionsOf(dockerfile), k, paths, p);
  }

  lemma {:induction false} NamedFrom(lines: seq<string>, s: string) returns (k: nat)
    requires Named(lines).Ok? && s in Named(lines).value
    ensures k < |lines| && LineSources(lines[k]).Ok? && s in LineSources(lines[k]).value
  {
    k := |lines| - 1;
    if s !in LineSources(lines[k]).value {
      k := NamedFrom(lines[..k], s);
    }
  }

  /** The split is the smallest such context: besides the Dockerfile and its ignore files,
      every chosen file is taken by some instruction. */
  lemma SplitIsSmallest(dockerfile: string, name: string, paths: seq<string>, p: string)
    requires SplitOf(dockerfile, name, paths).Files?
    requires p in SplitOf(dockerfile, name, paths).chosen && p != name && p !in DockerIgnores(name)
    ensures exists k :: 0 <= k < |InstructionsOf(dockerfile)| && TakesPath(InstructionsOf(dockerfile)[k], p)
  {
    var lines := InstructionsOf(dockerfile);
    var named := Named(lines).value;
    SplitFacts(dockerfile, name, paths);
    var i :| 0 <= i < |named| && Holds(named[i], p);
    var k := NamedFrom(lines, named[i]);
    NamedTakes(lines[k], named[i], p);
  }

  lemma NamedTakes(line: string, source: string, p: string)
    requires LineSources(line).Ok? && source in LineSources(line).value && Holds(source, p)
    ensures TakesPath(line, p)
  {
    LineIsRead(line);
    var mine := LineSources(line).value;
    var j :| 0 <= j < |mine| && mine[j] == source;
    assert Holds(mine[j], p);
  }

  // ----- Exactly which Dockerfiles are split -----

  /** Every instruction of the Dockerfile reference. */
  const DOCKER_INSTRUCTIONS := {
    "ADD", "ARG", "CMD", "COPY", "ENTRYPOINT", "ENV", "EXPOSE", "FROM", "HEALTHCHECK", "LABEL", "MAINTAINER",
    "ONBUILD", "RUN", "SHELL", "STOPSIGNAL", "USER", "VOLUME", "WORKDIR"}

  /** Flags that do not change what is taken from the context, up to one that takes it elsewhere. */
  predicate FlagsKnown(keyword: string, names: seq<string>)
  {
    names == [] || (keyword == "COPY" && names[0] == "from") ||
    ((names[0] == "chown" || names[0] == "chmod" || names[0] == "link" || (keyword == "ADD" && names[0] == "checksum"))
     && FlagsKnown(keyword, names[1..]))
  }

  /** A source that stands for itself: nothing to expand or match, no download, and a path inside
      the directory that is not the whole of it. */
  predicate PlainSource(keyword: string, raw: string)
  {
    && (forall c :: c in raw ==> c !in "$\"'\\*?[")
    && (keyword == "ADD" ==> !Contains(raw, "://") && !("git@" <= raw))
    && !("/" <= raw) && ".." !in SplitSlash(raw)
    && exists i :: 0 <= i < |SplitSlash(raw)| && SplitSlash(raw)[i] != "" && SplitSlash(raw)[i] != "."
  }

  predicate AllPlain(keyword: string, raws: seq<string>)
  {
    forall i :: 0 <= i < |raws| ==> PlainSource(keyword, raws[i])
  }

  /** A line is read for certain: a blank one, a COPY or ADD with known flags and plain sources, or
      another instruction of the reference that cannot read the directory in this build. */
  predicate Readable(instruction: string)
  {
    var line := Trim(instruction);
    var keyword, words := UpperAscii(FirstWord(line)), AfterWord(line);
    line == [] ||
    (&& !Contains(line, "<<") && keyword in DOCKER_INSTRUCTIONS && keyword != "ONBUILD"
     && (keyword == "RUN" ==> !IsMount(Words(words)))
     && (keyword == "COPY" || keyword == "ADD" ==>
           FlagsKnown(keyword, FlagNames(Words(words)))
           && Written(keyword, words).Some? && AllPlain(keyword, Written(keyword, words).value)))
  }

  lemma {:induction false} FlagsIff(keyword: string, rest: string)
    requires TrimStart(rest) == rest
    ensures AfterFlags(keyword, rest).Ok? <==> FlagsKnown(keyword, FlagNames(Words(rest)))
    decreases |rest|
  {
    if "--" <= rest {
      DashWord(rest);
      var next := TrimStart(AfterWord(rest));
      var words := Words(rest);
      WordsOfTrimmed(rest, rest);
      TrimTwice(AfterWord(rest));
      WordsOfTrimmed(AfterWord(rest), next);
      WordsOfTrimmed(next, next);
      assert words == [FirstWord(rest)] + Words(next) && words[1..] == Words(next);
      assert FirstWord(rest)[2..] == FirstWord(rest[2..]);
      assert FlagNames(words) == [FlagName(rest[2..])] + FlagNames(Words(next));
      assert FlagNames(words)[1..] == FlagNames(Words(next));
      FlagsIff(keyword, next);
    } else {
      NoFlags(rest);
    }
  }

  lemma {:induction false} CleanPartsKeep(parts: seq<string>, part: string)
    ensures part in CleanParts(parts) <==> part in parts && part != "" && part != "."
  {
    if parts != [] {
      CleanPartsKeep(parts[1..], part);
    }
  }

  lemma SourceIff(keyword: string, raw: string)
    ensures SourcePath(keyword, raw).Ok? <==> PlainSource(keyword, raw)
  {
    var parts := SplitSlash(raw);
    CleanPartsKeep(parts, "..");
    if exists i :: 0 <= i < |parts| && parts[i] != "" && parts[i] != "." {
      var i :| 0 <= i < |parts| && parts[i] != "" && parts[i] != ".";
      CleanPartsKeep(parts, parts[i]);
    } else if CleanParts(parts) != [] {
      CleanPartsKeep(parts, CleanParts(parts)[0]);
    }
    CharsIff(raw);
  }

  lemma CharsIff(raw: string)
    ensures !HasAny(raw, "$\"'\\") && !HasAny(raw, "*?[") <==> forall c :: c in raw ==> c !in "$\"'\\*?["
  {
    assert "$\"'\\*?[" == "$\"'\\" + "*?[";
    forall c | c in raw && c in "$\"'\\*?[" ensures HasAny(raw, "$\"'\\") || HasAny(raw, "*?[") {
      var i :| 0 <= i < |raw| && raw[i] == c;
      assert raw[i] in "$\"'\\" || raw[i] in "*?[";
    }
    if HasAny(raw, "$\"'\\") {
      var i :| 0 <= i < |raw| && raw[i] in "$\"'\\";
      assert raw[i] in "$\"'\\" + "*?[";
    } else if HasAny(raw, "*?[") {
      var i :| 0 <= i < |raw| && raw[i] in "*?[";
      assert raw[i] in "$\"'\\" + "*?[";
    }
  }

  lemma {:induction false} SourcesIff(keyword: string, raws: seq<string>)
    ensures SourcePaths(keyword, raws).Ok? <==> AllPlain(keyword, raws)
  {
    if raws != [] {
      SourceIff(keyword, raws[0]);
      SourcesIff(keyword, raws[1..]);
      assert AllPlain(keyword, raws) ==> AllPlain(keyword, raws[1..]);
      assert raws == [raws[0]] + raws[1..];
    }
  }

  /** The sources in the text after the flags. */
  function Listed(text: string): Option<seq<string>>
  {
    var list := if "[" <= text then JsonStrings(text) else Some(Words(text));
    if list.None? || |list.value| < 2 then None else Some(list.value[..|list.value| - 1])
  }

  lemma {:induction false} SourcesAreListed(keyword: string, words: string, rest: string)
    requires rest == TrimStart(words) && AfterFlags(keyword, rest).Ok?
    ensures AfterFlags(keyword, rest).value.None? ==> Sources(keyword, words) == Ok([])
    ensures AfterFlags(keyword, rest).value.Some? ==>
      var raws := Listed(AfterFlags(keyword, rest).value.value);
      if raws.None? then Sources(keyword, words).Err? else Sources(keyword, words) == SourcePaths(keyword, raws.value)
  {
  }

  lemma {:induction false} WrittenIsListed(keyword: string, words: string, rest: string, text: string)
    requires rest == TrimStart(words) && !FromStage(keyword, Words(words))
    requires text == UnflaggedText(rest) && Words(text) == Unflagged(Words(words))
    ensures Written(keyword, words) == Listed(text)
  {
  }

  /** With known flags, the sources are those that are written, cleaned. */
  lemma {:induction false} CopyWritten(keyword: string, words: string, rest: string)
    requires rest == TrimStart(words) == TrimStart(rest) && Words(rest) == Words(words)
    requires AfterFlags(keyword, rest).Ok?
    ensures Written(keyword, words).Some? ==>
              Sources(keyword, words) == SourcePaths(keyword, Written(keyword, words).value)
    ensures Written(keyword, words).None? ==> Sources(keyword, words).Err?
  {
    FlagsAreWords(keyword, rest);
    SourcesAreListed(keyword, words, rest);
    if AfterFlags(keyword, rest).value.None? {
      assert Written(keyword, words) == Some([]) && SourcePaths(keyword, []) == Ok([]);
    } else {
      WrittenIsListed(keyword, words, rest, AfterFlags(keyword, rest).value.value);
    }
  }

  lemma CopyKnown(keyword: string, words: string, rest: string)
    requires rest == TrimStart(words) == TrimStart(rest) && Words(rest) == Words(words)
    requires AfterFlags(keyword, rest).Ok?
    ensures Sources(keyword, words).Ok? <==>
            Written(keyword, words).Some? && AllPlain(keyword, Written(keyword, words).value)
  {
    CopyWritten(keyword, words, rest);
    if Written(keyword, words).Some? {
      SourcesIff(keyword, Written(keyword, words).value);
    }
  }

  lemma CopyIff(keyword: string, words: string)
    ensures Sources(keyword, words).Ok? <==>
            FlagsKnown(keyword, FlagNames(Words(words)))
            && Written(keyword, words).Some? && AllPlain(keyword, Written(keyword, words).value)
  {
    var rest := TrimStart(words);
    TrimTwice(words);
    WordsOfTrimmed(words, rest);
    WordsOfTrimmed(rest, rest);
    FlagsIff(keyword, rest);
    if AfterFlags(keyword, rest).Ok? {
      CopyKnown(keyword, words, rest);
    } else {
      assert Sources(keyword, words).Err?;
    }
  }

  lemma KeywordIff(keyword: string)
    ensures keyword in DOCKER_INSTRUCTIONS <==>
            keyword in INSTRUCTIONS || keyword == "COPY" || keyword == "ADD" || keyword == "ONBUILD"
  {
  }

  /** A line is read exactly when it is readable. */
  lemma LineIff(instruction: string)
    ensures LineSources(instruction).Ok? <==> Readable(instruction)
  {
    var line := Trim(instruction);
    var keyword, words := UpperAscii(FirstWord(line)), AfterWord(line);
    KeywordIff(keyword);
    CopyIff(keyword, words);
  }

  predicate IsRead(instruction: string) { LineSources(instruction).Ok? }

  lemma {:induction false} NamedIsRead(lines: seq<string>)
    ensures Named(lines).Ok? <==> forall k :: 0 <= k < |lines| ==> IsRead(lines[k])
  {
    if lines != [] {
      NamedIsRead(lines[..|lines| - 1]);
      assert lines == lines[..|lines| - 1] + [lines[|lines| - 1]];
    }
  }

  lemma NamedIff(lines: seq<string>)
    ensures Named(lines).Ok? <==> forall k :: 0 <= k < |lines| ==> Readable(lines[k])
  {
    NamedIsRead(lines);
    forall k | 0 <= k < |lines| ensures IsRead(lines[k]) <==> Readable(lines[k]) {
      LineIff(lines[k]);
    }
  }

  /** Every source that some line takes is there. */
  ghost predicate AllThere(lines: seq<string>, paths: seq<string>)
  {
    forall k :: 0 <= k < |lines| ==> LineThere(lines[k], paths)
  }

  ghost predicate LineThere(line: string, paths: seq<string>)
  {
    Takes(line).Some? && forall i :: 0 <= i < |Takes(line).value| ==> There(Takes(line).value[i], paths)
  }

  predicate There(raw: string, paths: seq<string>) { exists j :: 0 <= j < |paths| && Selects(raw, paths[j]) }

  /** What the build needs: what some line takes, the Dockerfile, and the ignore files there are. */
  ghost function Needed(lines: seq<string>, name: string, paths: seq<string>): set<string>
  {
    {name} + set p | p in paths && (p in DockerIgnores(name) || exists k :: 0 <= k < |lines| && TakesPath(lines[k], p))
  }

  /** The sources of a line that is read are the ones it takes, one by one. */
  lemma LineAgrees(line: string)
    requires LineSources(line).Ok?
    ensures Takes(line).Some? && |Takes(line).value| == |LineSources(line).value|
    ensures forall i, p :: 0 <= i < |LineSources(line).value| ==>
              (Holds(LineSources(line).value[i], p) <==> Selects(Takes(line).value[i], p))
  {
    var text := Trim(line);
    var keyword := UpperAscii(FirstWord(text));
    if text == [] {
      EmptyLine();
    } else if keyword == "COPY" || keyword == "ADD" {
      SourcesAreWritten(keyword, AfterWord(text));
      var raws, named := Takes(line).value, LineSources(line).value;
      SameLength(keyword, raws);
      forall i, p | 0 <= i < |named| ensures Holds(named[i], p) <==> Selects(raws[i], p) {
        SourcePathsAt(keyword, raws, i);
        SourceSelects(keyword, raws[i], p);
      }
    }
  }

  lemma LineMatches(line: string, paths: seq<string>)
    requires LineSources(line).Ok?
    ensures AllMatched(LineSources(line).value, paths) <==> LineThere(line, paths)
  {
    LineAgrees(line);
    var raws, named := Takes(line).value, LineSources(line).value;
    forall i | 0 <= i < |named| ensures Matches(named[i], paths) <==> There(raws[i], paths) {
      if There(raws[i], paths) {
        var j :| 0 <= j < |paths| && Selects(raws[i], paths[j]);
        assert Holds(named[i], paths[j]);
      }
    }
  }

  lemma {:induction false} NamedMatches(lines: seq<string>, paths: seq<string>)
    requires Named(lines).Ok?
    ensures AllMatched(Named(lines).value, paths) <==> AllThere(lines, paths)
  {
    if lines != [] {
      var front, last := lines[..|lines| - 1], lines[|lines| - 1];
      NamedMatches(front, paths);
      LineMatches(last, paths);
      MatchedJoined(Named(front).value, LineSources(last).value, paths);
      ThereStep(lines, paths);
    }
  }

  lemma ThereStep(lines: seq<string>, paths: seq<string>)
    requires lines != []
    ensures AllThere(lines, paths) <==>
            AllThere(lines[..|lines| - 1], paths) && LineThere(lines[|lines| - 1], paths)
  {
  }

  lemma MatchedJoined(a: seq<string>, b: seq<string>, paths: seq<string>)
    ensures AllMatched(a + b, paths) <==> AllMatched(a, paths) && AllMatched(b, paths)
  {
    forall i | 0 <= i < |b| && AllMatched(a + b, paths) ensures Matches(b[i], paths) {
      assert (a + b)[|a| + i] == b[i];
    }
    forall i | 0 <= i < |a| && AllMatched(a + b, paths) ensures Matches(a[i], paths) {
      assert (a + b)[i] == a[i];
    }
  }

  lemma NeededIsSelected(lines: seq<string>, name: string, paths: seq<string>)
    requires Named(lines).Ok?
    ensures Needed(lines, name, paths) ==
            Selected(Named(lines).value, paths) + {name} + (set p | p in paths && p in DockerIgnores(name))
  {
    var named := Named(lines).value;
    forall p | p in paths
      ensures p in Selected(named, paths) <==> exists k :: 0 <= k < |lines| && TakesPath(lines[k], p)
    {
      if p in Selected(named, paths) {
        var i :| 0 <= i < |named| && Holds(named[i], p);
        var k := NamedFrom(lines, named[i]);
        NamedTakes(lines[k], named[i], p);
      }
      if exists k :: 0 <= k < |lines| && TakesPath(lines[k], p) {
        var k :| 0 <= k < |lines| && TakesPath(lines[k], p);
        TakenIsSelected(lines, k, paths, p);
      }
    }
  }

  /** A Dockerfile is split exactly when every line is readable, every source is there and the build
      does not need every file, and then into exactly the files that it needs. */
  lemma SplitIff(dockerfile: string, name: string, paths: seq<string>)
    ensures var lines := InstructionsOf(dockerfile);
      var needed := Needed(lines, name, paths);
      && (SplitOf(dockerfile, name, paths).Files? <==>
            (forall k :: 0 <= k < |lines| ==> Readable(lines[k])) && AllThere(lines, paths) && |needed| < |paths|)
      && (SplitOf(dockerfile, name, paths).Files? ==> SplitOf(dockerfile, name, paths).chosen == needed)
  {
    var lines := InstructionsOf(dockerfile);
    NamedIff(lines);
    if Named(lines).Ok? {
      NamedMatches(lines, paths);
      NeededIsSelected(lines, name, paths);
    }
  }
}
