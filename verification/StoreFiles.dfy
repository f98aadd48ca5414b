/** The two files behind a durable store, byte by byte: a head that is replaced whole and a journal
    of lines that is appended to. An append may stop after any byte, inside a character too, and
    so may the append of a repair. */
module StoreFiles {
  import opened Basics
  import opened JsonText
  import opened Canonical
  import Durable
  import JsonPrefix
  import Parser = JsonParser
  import Utf8

  const NEWLINE: byte := 10

  /** What is used of the JSON library: how it prints floats, and whether it says of some bytes that
      they ended too early. */
  datatype Format = Format(floats: Floats, eof: Bytes -> bool)

  /** The keys by which the library passes numbers and raw text through an object. */
  const PRIVATE: set<string> := {"$serde_json::private::Number", "$serde_json::private::RawValue"}

  /** No object in it has a private key. */
  predicate Ordinary(v: Value)
  {
    match v
    case Arr(items) => forall i :: 0 <= i < |items| ==> Ordinary(items[i])
    case Obj(members) => Keys(members) !! PRIVATE && forall i :: 0 <= i < |members| ==> Ordinary(members[i].value)
    case _ => true
  }

  function ReadBytes(b: Bytes): Option<Value>
  {
    var text :- Utf8.Decode(b);
    Read(text)
  }

  /** Bytes that are no value, but that more of them make one: an ordinary one that is not nested too
      deep for the library. */
  predicate Unended(part: Bytes, more: Bytes)
  {
    && ReadBytes(part).None? && ReadBytes(part + more).Some?
    && Ordinary(ReadBytes(part + more).value) && Parser.Height(ReadBytes(part + more).value) <= Parser.MAX_DEPTH
  }

  ghost predicate FormatRule(format: Format)
  {
    FloatRule(format.floats) && forall part, more :: Unended(part, more) ==> format.eof(part)
  }

  // ----- Reading and writing -----

  /** Within what the reader of the service's own files accepts. */
  predicate Fits(v: Value) { Parser.Height(v) <= Parser.MAX_DEPTH && Parser.Nodes(v) <= Parser.UNBOUNDED }

  function Encoded(floats: Floats, v: Value): Option<Bytes>
  {
    var text :- Text(floats, v);
    Some(Utf8.Encode(text) + [NEWLINE])
  }

  function Decode(floats: Floats, b: Bytes): Option<Value>
  {
    var text :- Utf8.Decode(b);
    var members :- Parser.Accepted(floats, text, Parser.UNBOUNDED);
    Some(Obj(members))
  }

  lemma LineReads(v: Value)
    ensures ReadValue(Render(v)) == Some((v, [])) && ReadValue(Render(v) + "\n") == Some((v, "\n"))
    ensures Read(Render(v) + "\n") == Some(v)
  {
    ReadsBack(v, []);
    OntoIsRender(v, []);
    assert Render(v) + [] == Render(v);
    ReadsBack(v, "\n");
    OntoIsRender(v, "\n");
    assert "\n"[1..] == [];
  }

  /** What the bytes of a text, with or without the line end, decode to. */
  lemma EncodedText(text: string)
    ensures Utf8.Decode(Utf8.Encode(text)) == Some(text)
    ensures Utf8.Decode(Utf8.Encode(text) + [NEWLINE]) == Some(text + "\n")
  {
    Utf8.DecodeUndoesEncode(text);
    Utf8.DecodeUndoesEncode(text + "\n");
    Utf8.EncodeAppend(text, "\n");
    assert "\n"[1..] == "" && Utf8.Encode("\n") == [NEWLINE];
  }

  /** An object reads back from its canonical bytes, with or without the line end, exactly when
      it is within the reader's bounds. */
  lemma EncodedReads(floats: Floats, v: Value)
    requires FloatRule(floats) && v.Obj? && Distinct(v) && Norm(floats, v).Some?
    ensures Decode(floats, Utf8.Encode(Text(floats, v).value)) == if Fits(v) then Norm(floats, v) else None
    ensures Decode(floats, Encoded(floats, v).value) == if Fits(v) then Norm(floats, v) else None
  {
    var n := Norm(floats, v).value;
    Parser.ParserUndoesPrinter(floats, v, Parser.UNBOUNDED);
    LineReads(n);
    EncodedText(Render(n));
    Parser.NormMeasures(floats, v);
    NormIsOrdered(floats, v);
    Parser.OrderedIsDistinct(n);
  }

  /** No line, or lines that are all ended. */
  predicate Whole(text: Bytes) { text == [] || text[|text| - 1] == NEWLINE }

  /** Where the text after the last line end starts. */
  function Tail(text: Bytes): (n: nat)
    ensures n <= |text| && Whole(text[..n])
  {
    if text == [] || text[|text| - 1] == NEWLINE then
      assert text[..|text|] == text;
      |text|
    else
      var n := Tail(text[..|text| - 1]);
      assert text[..|text| - 1][..n] == text[..n];
      n
  }

  /** The lines of a text of whole lines, without their ends. */
  function Split(text: Bytes): seq<Bytes>
    requires Whole(text)
    decreases |text|
  {
    if text == [] then []
    else
      var open := text[..|text| - 1];
      Split(open[..Tail(open)]) + [open[Tail(open)..]]
  }

  function DecodeAll(floats: Floats, lines: seq<Bytes>): Option<seq<Value>>
  {
    if lines == [] then Some([])
    else
      var before :- DecodeAll(floats, lines[..|lines| - 1]);
      var v :- Decode(floats, lines[|lines| - 1]);
      Some(before + [v])
  }

  /** The events of a journal, and its text in order again when its last line is not. */
  datatype Journal = Journal(events: seq<Value>, normalized: Option<Bytes>)

  /** A last line without an end: a record that only lacks it, or the part of one that is cut. */
  function OpenJournal(format: Format, whole: Bytes, events: seq<Value>, tail: Bytes): (r: Option<Journal>)
    ensures r.Some? ==> r.value.normalized.Some?
  {
    match Decode(format.floats, tail)
    case Some(v) => Some(Journal(events + [v], Some(whole + tail + [NEWLINE])))
    case None => if format.eof(tail) && Utf8.Unbroken(tail) then Some(Journal(events, Some(whole))) else None
  }

  function JournalOf(format: Format, text: Bytes): Option<Journal>
  {
    var whole, tail := text[..Tail(text)], text[Tail(text)..];
    var events :- DecodeAll(format.floats, Split(whole));
    if tail == [] then Some(Journal(events, None)) else OpenJournal(format, whole, events, tail)
  }

  lemma {:induction false} DecodePrefix(floats: Floats, lines: seq<Bytes>, k: nat)
    requires k <= |lines| && DecodeAll(floats, lines[..k]).None?
    ensures DecodeAll(floats, lines).None?
  {
    if k < |lines| {
      var front := lines[..|lines| - 1];
      assert front[..k] == lines[..k];
      DecodePrefix(floats, front, k);
    } else {
      assert lines[..k] == lines;
    }
  }

  lemma DecodeStep(floats: Floats, lines: seq<Bytes>, line: Bytes)
    ensures DecodeAll(floats, lines + [line]) ==
            if DecodeAll(floats, lines).None? || Decode(floats, line).None? then None
            else Some(DecodeAll(floats, lines).value + [Decode(floats, line).value])
  {
    assert (lines + [line])[..|lines|] == lines;
  }

  lemma LineDecoded(floats: Floats, lines: seq<Bytes>, k: nat)
    requires k < |lines| && DecodeAll(floats, lines[..k]).Some?
    ensures Decode(floats, lines[k]).None? ==> DecodeAll(floats, lines).None?
    ensures Decode(floats, lines[k]).Some? ==>
      DecodeAll(floats, lines[..k + 1]) == Some(DecodeAll(floats, lines[..k]).value + [Decode(floats, lines[k]).value])
  {
    var front := lines[..k + 1];
    assert front[..|front| - 1] == lines[..k] && front[|front| - 1] == lines[k];
    if Decode(floats, lines[k]).None? {
      DecodePrefix(floats, lines, k + 1);
    }
  }

  lemma {:induction false} DecodeAllIff(floats: Floats, lines: seq<Bytes>)
    ensures DecodeAll(floats, lines).Some? <==> forall k :: 0 <= k < |lines| ==> Decode(floats, lines[k]).Some?
    ensures DecodeAll(floats, lines).Some? ==>
      |DecodeAll(floats, lines).value| == |lines| &&
      forall k :: 0 <= k < |lines| ==> Decode(floats, lines[k]) == Some(DecodeAll(floats, lines).value[k])
  {
    if lines != [] {
      var front := lines[..|lines| - 1];
      DecodeAllIff(floats, front);
      assert lines == front + [lines[|lines| - 1]];
    }
  }

  predicate AllDecode(floats: Floats, lines: seq<Bytes>)
  {
    forall k :: 0 <= k < |lines| ==> Decode(floats, lines[k]).Some?
  }

  /** A journal is read exactly when every ended line is a record, and what follows the last end is
      nothing, a record, or the start of one, cut inside its JSON text and not broken as UTF-8. */
  lemma JournalIff(format: Format, text: Bytes)
    ensures var tail := text[Tail(text)..];
      JournalOf(format, text).Some? <==>
      AllDecode(format.floats, Split(text[..Tail(text)]))
      && (tail == [] || Decode(format.floats, tail).Some? || (format.eof(tail) && Utf8.Unbroken(tail)))
  {
    DecodeAllIff(format.floats, Split(text[..Tail(text)]));
  }

  lemma JournalOpens(format: Format, text: Bytes, whole: Bytes, tail: Bytes, events: seq<Value>)
    requires whole == text[..Tail(text)] && tail == text[Tail(text)..]
    requires DecodeAll(format.floats, Split(whole)) == Some(events)
    ensures JournalOf(format, text) ==
            if tail == [] then Some(Journal(events, None)) else OpenJournal(format, whole, events, tail)
  {
  }

  /** An open last line is a record that is ended now, or the part of one that is dropped. */
  lemma OpenIs(format: Format, text: Bytes, whole: Bytes, events: seq<Value>, tail: Bytes)
    requires text == whole + tail
    ensures var j := OpenJournal(format, whole, events, tail);
      match Decode(format.floats, tail)
      case Some(v) => j == Some(Journal(events + [v], Some(text + [NEWLINE])))
      case None => j.Some? ==> j == Some(Journal(events, Some(whole)))
  {
  }

  method ReadTail(format: Format, whole: Bytes, events: seq<Value>, tail: Bytes) returns (r: Option<Journal>)
    ensures r == OpenJournal(format, whole, events, tail)
  {
    var last := Decode(format.floats, tail);
    if last.Some? {
      return Some(Journal(events + [last.value], Some(whole + tail + [NEWLINE])));
    }
    return if format.eof(tail) && Utf8.Unbroken(tail) then Some(Journal(events, Some(whole))) else None;
  }

  /** Reads the journal line by line. */
  method ReadJournal(format: Format, text: Bytes) returns (r: Option<Journal>)
    ensures r == JournalOf(format, text)
  {
    var end := Tail(text);
    var lines := Split(text[..end]);
    var events: seq<Value> := [];
    for k := 0 to |lines|
      invariant DecodeAll(format.floats, lines[..k]) == Some(events)
    {
      var v := Decode(format.floats, lines[k]);
      LineDecoded(format.floats, lines, k);
      if v.None? {
        return None;
      }
      events := events + [v.value];
    }
    assert lines[..|lines|] == lines;
    var tail := text[end..];
    if tail == [] {
      return Some(Journal(events, None));
    }
    r := ReadTail(format, text[..end], events, tail);
  }

  // ----- Journals after an append that may have stopped anywhere -----

  lemma {:induction false} TailOnto(text: Bytes, part: Bytes)
    requires Whole(text) && NEWLINE !in part
    ensures Tail(text + part) == |text|
  {
    if part == [] {
      assert text + part == text;
    } else {
      var front := part[..|part| - 1];
      assert part[|part| - 1] in part && forall c :: c in front ==> c in part;
      assert (text + part)[..|text + part| - 1] == text + front;
      TailOnto(text, front);
    }
  }

  /** A line written after whole lines is one line more. */
  lemma SplitAppend(text: Bytes, line: Bytes)
    requires Whole(text) && NEWLINE !in line
    ensures Whole(text + line + [NEWLINE]) && Split(text + line + [NEWLINE]) == Split(text) + [line]
  {
    var all, open := text + line + [NEWLINE], text + line;
    TailOnto(text, line);
    assert all[..|all| - 1] == open && open[..|text|] == text && open[|text|..] == line;
  }

  // ----- Canonical text stays on one line -----

  predicate OneLine(s: string) { forall i :: 0 <= i < |s| ==> s[i] != '\n' }

  lemma EscapeIsOneLine(c: char)
    ensures OneLine(Escape(c))
  {
    if c < ' ' && |Escape(c)| > 2 {
      assert OneLine(HEX);
      assert Escape(c) == "\\u00" + [HEX[c as int / 16], HEX[c as int % 16]];
    }
  }

  lemma JoinedLines(a: string, b: string)
    requires OneLine(a) && OneLine(b)
    ensures OneLine(a + b)
  {
  }

  lemma {:induction false} EscapesAreOneLine(s: string)
    ensures OneLine(EscapeAll(s))
  {
    if s != [] {
      EscapesAreOneLine(s[1..]);
      EscapeIsOneLine(s[0]);
      JoinedLines(Escape(s[0]), EscapeAll(s[1..]));
    }
  }

  lemma {:induction false} RenderIsOneLine(v: Value)
    ensures OneLine(Render(v))
    decreases v, 1
  {
    match v
    case Str(s) => EscapesAreOneLine(s);
    case Arr(items) => ItemsAreOneLine(items);
    case Obj(members) => MembersAreOneLine(members);
    case _ =>
  }

  lemma {:induction false} ItemsAreOneLine(items: seq<Value>)
    ensures OneLine(RenderItems(items))
    decreases items, 0
  {
    if items != [] {
      RenderIsOneLine(items[0]);
      ItemsAreOneLine(items[1..]);
    }
  }

  lemma {:induction false} MembersAreOneLine(members: seq<Member>)
    ensures OneLine(RenderMembers(members))
    decreases members, 0
  {
    if members != [] {
      EscapesAreOneLine(members[0].key);
      RenderIsOneLine(members[0].value);
      assert OneLine(RenderMember(members[0]));
      MembersAreOneLine(members[1..]);
    }
  }

  /** Only a line end has the byte of one. */
  lemma {:induction false} OneLineInBytes(s: string)
    requires OneLine(s)
    ensures NEWLINE !in Utf8.Encode(s)
  {
    if s != [] {
      OneLineInBytes(s[1..]);
      assert NEWLINE !in Utf8.EncodeChar(s[0]);
    }
  }

  // ----- A journal whose last line is cut -----

  /** What a record of the journal is once it was written: an object in its normal form that the
      reader accepts, and an ordinary one. */
  predicate Writable(floats: Floats, v: Value)
  {
    v.Obj? && Distinct(v) && Norm(floats, v) == Some(v) && Fits(v) && Ordinary(v)
  }

  /** A record in bytes, without its line end. */
  function Record(v: Value): Bytes { Utf8.Encode(Render(v)) }

  function Line(v: Value): Bytes { Record(v) + [NEWLINE] }

  lemma WritableReads(format: Format, v: Value)
    requires FormatRule(format) && Writable(format.floats, v)
    ensures Encoded(format.floats, v) == Some(Line(v))
    ensures Decode(format.floats, Record(v)) == Some(v) && Decode(format.floats, Line(v)) == Some(v)
    ensures NEWLINE !in Record(v) && Record(v) != []
  {
    EncodedReads(format.floats, v);
    RenderIsOneLine(v);
    OneLineInBytes(Render(v));
  }

  /** No proper part of a record reads as a value, whether it ends inside a character or not. */
  lemma PartIsNoValue(v: Value, part: Bytes)
    requires v.Obj? && part <= Record(v) && part != Record(v)
    ensures ReadBytes(part).None? && Utf8.Unbroken(part)
  {
    var text := Utf8.PartDecodes(Render(v), part);
    if Utf8.Decode(part).Some? {
      LineReads(v);
      JsonPrefix.PartIsNoValue(Render(v), text, v);
    }
  }

  /** A part of a record is none, and is known to be cut. */
  lemma PartIsCut(format: Format, v: Value, part: Bytes)
    requires FormatRule(format) && v.Obj? && Fits(v) && Ordinary(v) && part <= Record(v) && part != Record(v)
    ensures Decode(format.floats, part).None? && format.eof(part) && Utf8.Unbroken(part)
  {
    PartIsNoValue(v, part);
    var rest := Record(v)[|part|..];
    assert part + rest == Record(v);
    RenderRoundTrip(v);
    EncodedText(Render(v));
    assert Unended(part, rest);
  }

  lemma WholeJournal(format: Format, text: Bytes, events: seq<Value>)
    requires Whole(text) && DecodeAll(format.floats, Split(text)) == Some(events)
    ensures JournalOf(format, text) == Some(Journal(events, None))
  {
    TailOnto(text, []);
    assert text + [] == text && text[..|text|] == text;
  }

  lemma OpenReads(format: Format, text: Bytes, events: seq<Value>, part: Bytes)
    requires Whole(text) && DecodeAll(format.floats, Split(text)) == Some(events)
    requires part != [] && NEWLINE !in part
    ensures JournalOf(format, text + part) == OpenJournal(format, text, events, part)
  {
    TailOnto(text, part);
    Halves(text, part);
  }

  /** A record and its line end, after whole lines. */
  lemma LineIsWhole(format: Format, text: Bytes, events: seq<Value>, line: Bytes)
    requires Whole(text) && DecodeAll(format.floats, Split(text)) == Some(events)
    requires NEWLINE !in line && Decode(format.floats, line).Some?
    ensures JournalOf(format, text + line + [NEWLINE]) ==
            Some(Journal(events + [Decode(format.floats, line).value], None))
  {
    SplitAppend(text, line);
    DecodeStep(format.floats, Split(text), line);
    WholeJournal(format, text + line + [NEWLINE], events + [Decode(format.floats, line).value]);
  }

  /** Wherever the append of a record stops, the journal reads as before it or as after it, and
      is put in order again without loss. */
  lemma CutJournal(format: Format, text: Bytes, events: seq<Value>, v: Value, count: nat)
    requires FormatRule(format) && Writable(format.floats, v) && count <= |Line(v)|
    requires Whole(text) && DecodeAll(format.floats, Split(text)) == Some(events)
    ensures JournalOf(format, text + Line(v)[..count]) == Some(
              if count == 0 then Journal(events, None)
              else if count < |Record(v)| then Journal(events, Some(text))
              else if count == |Record(v)| then Journal(events + [v], Some(text + Line(v)))
              else Journal(events + [v], None))
  {
    var part := Line(v)[..count];
    WritableReads(format, v);
    if count == 0 {
      assert text + part == text;
      WholeJournal(format, text, events);
    } else if count <= |Record(v)| {
      assert part == Record(v)[..count];
      assert forall c :: c in part ==> c in Record(v);
      OpenReads(format, text, events, part);
      if count < |Record(v)| {
        PartIsCut(format, v, part);
      } else {
        assert part == Record(v);
        Regroup(text, part, [NEWLINE]);
      }
    } else {
      assert part == Line(v);
      LineIsWhole(format, text, events, Record(v));
      Regroup(text, Record(v), [NEWLINE]);
    }
  }

  /** What is wrong with a journal that is not in order: its last line has no end. */
  lemma OpenTail(format: Format, text: Bytes)
    requires JournalOf(format, text).Some? && JournalOf(format, text).value.normalized.Some?
    ensures var whole, part := text[..Tail(text)], text[Tail(text)..];
            var events := DecodeAll(format.floats, Split(whole));
            && events.Some? && NEWLINE !in part
            && JournalOf(format, text) == OpenJournal(format, whole, events.value, part)
  {
    PartHasNoEnd(text);
  }

  /** A journal put in order reads as it did. */
  lemma NormalizedReads(format: Format, text: Bytes)
    requires JournalOf(format, text).Some? && JournalOf(format, text).value.normalized.Some?
    ensures var journal := JournalOf(format, text).value;
            JournalOf(format, journal.normalized.value) == Some(Journal(journal.events, None))
  {
    var whole, part := text[..Tail(text)], text[Tail(text)..];
    OpenTail(format, text);
    var events := DecodeAll(format.floats, Split(whole)).value;
    if Decode(format.floats, part).Some? {
      LineIsWhole(format, whole, events, part);
    } else {
      WholeJournal(format, whole, events);
    }
  }

  lemma {:induction false} PartHasNoEnd(text: Bytes)
    ensures NEWLINE !in text[Tail(text)..]
  {
    if text != [] && text[|text| - 1] != NEWLINE {
      var front := text[..|text| - 1];
      PartHasNoEnd(front);
      assert text[Tail(text)..] == front[Tail(text)..] + [text[|text| - 1]];
    }
  }

  /** A journal that is in order is whole lines. */
  lemma OrderedIsWhole(format: Format, text: Bytes)
    requires JournalOf(format, text).Some? && JournalOf(format, text).value.normalized.None?
    ensures Whole(text) && DecodeAll(format.floats, Split(text)) == Some(JournalOf(format, text).value.events)
  {
    if text[Tail(text)..] == [] {
      assert text[..Tail(text)] == text;
    }
  }

  // ----- A head within the bounds carries its transition within them -----

  lemma {:induction false} MeasuresOfAppended(members: seq<Member>, m: Member)
    ensures Parser.HeightMembers(members + [m]) >= 1 + Parser.Height(m.value)
    ensures Parser.NodesMembers(members + [m]) >= 1 + Parser.Nodes(m.value)
  {
    if members == [] {
      assert [m][1..] == [];
    } else {
      MeasuresOfAppended(members[1..], m);
      assert (members + [m])[0] == members[0] && (members + [m])[1..] == members[1..] + [m];
    }
  }

  lemma HeadFits(payload: seq<Member>, revision: nat, t: Value)
    requires Fits(Durable.Head(payload, revision, t))
    ensures Fits(t)
  {
    var metadata := Durable.Metadata(revision, t);
    MeasuresOfAppended(payload, Member("_durability", metadata));
    MeasuresOfAppended([Member("revision", Durable.Json(revision))], Member("last_transition", t));
  }

  /** A head that is ordinary carries an ordinary transition. */
  lemma HeadIsOrdinary(payload: seq<Member>, revision: nat, t: Value)
    requires Ordinary(Durable.Head(payload, revision, t))
    ensures Ordinary(t)
  {
    var head, metadata := Durable.Head(payload, revision, t), Durable.Metadata(revision, t);
    assert head.members[|payload|].value == metadata && metadata.members[1].value == t;
  }

  lemma {:induction false} DistinctOfAppended(members: seq<Member>, m: Member)
    requires Distinct(Obj(members)) && Durable.Field(members, m.key).None? && Distinct(m.value)
    ensures Distinct(Obj(members + [m]))
  {
    Durable.KeysOfAppended(members, m);
    var all := members + [m];
    forall i | 0 <= i < |all| ensures Distinct(all[i].value) {
      if i < |members| {
        assert all[i] == members[i];
      }
    }
  }

  lemma HeadIsDistinct(payload: seq<Member>, event: seq<Member>, revision: nat, identity: string)
    requires Distinct(Obj(payload)) && Durable.Field(payload, "_durability").None?
    requires Distinct(Obj(event))
    requires Durable.Field(event, "revision").None? && Durable.Field(event, "transition_id").None?
    ensures var t := Durable.Transition(event, revision, identity);
            Distinct(t) && Distinct(Durable.Head(payload, revision, t))
  {
    var t := Durable.Transition(event, revision, identity);
    Durable.TransitionIsDistinct(event, revision, identity);
    var rev := Member("revision", Durable.Json(revision));
    assert [rev][1..] == [];
    DistinctOfAppended([rev], Member("last_transition", t));
    DistinctOfAppended(payload, Member("_durability", Durable.Metadata(revision, t)));
  }

  lemma NormIsWritable(floats: Floats, v: Value)
    requires FloatRule(floats) && v.Obj? && Distinct(v) && Norm(floats, v).Some? && Fits(v) && Ordinary(v)
    ensures Writable(floats, Norm(floats, v).value)
  {
    NormIsStable(floats, v);
    NormIsOrdered(floats, v);
    Parser.OrderedIsDistinct(Norm(floats, v).value);
    Parser.NormMeasures(floats, v);
    NormIsOrdinary(floats, v);
  }

  lemma {:induction false} NormIsOrdinary(floats: Floats, v: Value)
    requires Ordinary(v) && Norm(floats, v).Some?
    ensures Ordinary(Norm(floats, v).value)
    decreases v, 1
  {
    match v
    case Arr(items) => ItemsAreOrdinary(floats, items);
    case Obj(members) =>
      MembersAreOrdinary(floats, members);
      var normal := NormMembers(floats, members).value;
      var sorted := Sort(normal);
      forall i | 0 <= i < |sorted| ensures Ordinary(sorted[i].value) {
        assert sorted[i] in multiset(sorted) && sorted[i] in normal;
      }
    case _ =>
  }

  lemma {:induction false} ItemsAreOrdinary(floats: Floats, items: seq<Value>)
    requires NormItems(floats, items).Some? && forall i :: 0 <= i < |items| ==> Ordinary(items[i])
    ensures forall i :: 0 <= i < |items| ==> Ordinary(NormItems(floats, items).value[i])
    decreases items, 0
  {
    if items != [] {
      NormIsOrdinary(floats, items[0]);
      ItemsAreOrdinary(floats, items[1..]);
    }
  }

  lemma {:induction false} MembersAreOrdinary(floats: Floats, members: seq<Member>)
    requires NormMembers(floats, members).Some? && forall i :: 0 <= i < |members| ==> Ordinary(members[i].value)
    ensures forall i :: 0 <= i < |members| ==> Ordinary(NormMembers(floats, members).value[i].value)
    decreases members, 0
  {
    if members != [] {
      NormIsOrdinary(floats, members[0].value);
      MembersAreOrdinary(floats, members[1..]);
    }
  }

  // ----- The store over whole runs -----

  /** The two files, and the line a running commit has yet to append. */
  datatype Files = Files(head: Bytes, journal: Bytes, appending: Option<Bytes>)

  datatype Loaded = Loaded(state: Durable.Snapshot, journal: Journal, missing: Option<Value>)

  ghost function Load(format: Format, files: Files): Option<Loaded>
  {
    var head :- Decode(format.floats, files.head);
    var journal :- JournalOf(format, files.journal);
    match Durable.FromValue(head)
    case Err(_) => None
    case Ok(state) =>
      match Durable.MissingTransition(format.floats, state, journal.events)
      case Err(_) => None
      case Ok(missing) => Some(Loaded(state, journal, missing))
  }

  datatype Step =
    | Publish(value: Value, event: Value, expected: Option<nat>, identity: string)
    | Append(count: nat)
    | Crash
    | Normalize
    | Repair(count: nat)

  /** Head and transition are both encoded, or nothing is written. */
  ghost predicate Written(
      floats: Floats, value: Value, event: Value, c: Durable.Commit, journal: Bytes, after: Files)
  {
    && Distinct(value) && Distinct(event) && Fits(c.head) && Ordinary(c.head)
    && Encoded(floats, c.head).Some? && Encoded(floats, c.transition).Some?
    && after == Files(Encoded(floats, c.head).value, journal, Encoded(floats, c.transition))
  }

  /** One step of a store that is alone with its two files: a head replaced, a line appended as
      far as `count` bytes, a crash, a journal put in order, or the missing transition
      appended, again as far as `count` bytes. */
  ghost predicate Taken(format: Format, before: Files, step: Step, after: Files)
  {
    match step
    case Append(count) =>
      && before.appending.Some? && count <= |before.appending.value|
      && after == Files(before.head, before.journal + before.appending.value[..count], None)
    case Crash => after == before.(appending := None)
    case Publish(value, event, expected, identity) =>
      && before.appending.None?
      && var loaded := Load(format, before);
         loaded.Some? && loaded.value.journal.normalized.None? &&
         var c := Durable.MakeCommit(
           format.floats, loaded.value.state, loaded.value.journal.events, value, event, expected, identity);
         c.Ok? && Written(format.floats, value, event, c.value, before.journal, after)
    case Normalize =>
      && before.appending.None?
      && var loaded := Load(format, before);
         loaded.Some? && loaded.value.journal.normalized.Some? &&
         after == before.(journal := loaded.value.journal.normalized.value)
    case Repair(count) =>
      && before.appending.None?
      && var loaded := Load(format, before);
         loaded.Some? && loaded.value.journal.normalized.None? && loaded.value.missing.Some? &&
         var line := Encoded(format.floats, loaded.value.missing.value);
         line.Some? && count <= |line.value| &&
         after == before.(journal := before.journal + line.value[..count])
  }

  ghost predicate Readable(format: Format, files: Files)
  {
    Decode(format.floats, files.head).Some? && JournalOf(format, files.journal).Some?
  }

  /** The values a reader of the files finds. */
  ghost function View(format: Format, files: Files): Durable.Store
    requires Readable(format, files)
  {
    Durable.Store(
      Decode(format.floats, files.head).value, JournalOf(format, files.journal).value.events,
      if files.appending.None? then None else Decode(format.floats, files.appending.value))
  }

  ghost predicate AllWritable(floats: Floats, log: seq<Durable.Entry>)
  {
    forall i :: 0 <= i < |log| ==> Writable(floats, log[i].event)
  }

  /** The line that is yet to be appended is that of the last commit, after whole lines. */
  ghost predicate Pending(format: Format, files: Files, log: seq<Durable.Entry>)
    requires Readable(format, files)
  {
    && log != [] && files.appending == Some(Line(log[|log| - 1].event))
    && JournalOf(format, files.journal).value.normalized.None?
  }

  ghost predicate Holds(format: Format, files: Files, log: seq<Durable.Entry>)
  {
    && Readable(format, files) && AllWritable(format.floats, log)
    && Durable.Consistent(View(format, files), log)
    && (files.appending.Some? ==> Pending(format, files, log))
  }

  lemma HoldsLoads(format: Format, files: Files, log: seq<Durable.Entry>)
    requires Holds(format, files, log)
    ensures Load(format, files).Some?
    ensures var loaded, store := Load(format, files).value, View(format, files);
            && loaded.state == Durable.FromValue(store.head).value
            && loaded.journal == JournalOf(format, files.journal).value
            && loaded.missing == if Durable.Transitions(store.journal) == log then None else Durable.Last(log)
  {
    var store := View(format, files);
    var state := Durable.FromValue(store.head).value;
    if Durable.Transitions(store.journal) == log {
      Durable.NothingMissing(format.floats, state, store.journal, log);
    } else {
      Durable.LastMissing(format.floats, state, store.journal, log);
    }
  }

  /** The plain list of commits after a step. */
  ghost function Logged(format: Format, log: seq<Durable.Entry>, step: Step, after: Files): seq<Durable.Entry>
  {
    if step.Publish? && after.appending.Some? && Decode(format.floats, after.appending.value).Some? then
      log + [Durable.EntryOf(Decode(format.floats, after.appending.value).value)]
    else log
  }

  /** What a publish leaves reads back as head and transition in their normal forms. */
  lemma WrittenReads(
      format: Format, c: Durable.Commit, payload: seq<Member>, event: seq<Member>, revision: nat,
      identity: string, journal: Bytes, after: Files)
    requires FormatRule(format) && Written(format.floats, Obj(payload), Obj(event), c, journal, after)
    requires Durable.Field(payload, "_durability").None?
    requires Durable.Field(event, "revision").None? && Durable.Field(event, "transition_id").None?
    requires c.transition == Durable.Transition(event, revision, identity)
    requires c.head == Durable.Head(payload, revision, c.transition)
    ensures Norm(format.floats, c.head).Some? && Norm(format.floats, c.transition).Some?
    ensures Decode(format.floats, after.head) == Norm(format.floats, c.head)
    ensures after.appending == Some(Line(Norm(format.floats, c.transition).value))
    ensures Decode(format.floats, after.appending.value) == Norm(format.floats, c.transition)
    ensures Writable(format.floats, Norm(format.floats, c.transition).value)
  {
    HeadIsDistinct(payload, event, revision, identity);
    HeadFits(payload, revision, c.transition);
    HeadIsOrdinary(payload, revision, c.transition);
    EncodedReads(format.floats, c.head);
    EncodedReads(format.floats, c.transition);
    NormIsWritable(format.floats, c.transition);
  }

  /** A publish of the files is a publish of the values they hold. */
  lemma PublishIsTaken(format: Format, before: Files, step: Step, after: Files, log: seq<Durable.Entry>)
    requires FormatRule(format) && step.Publish?
    requires Holds(format, before, log) && Taken(format, before, step, after)
    ensures Readable(format, after) && View(format, after).appending.Some?
    ensures after.appending == Some(Line(View(format, after).appending.value)) && after.journal == before.journal
    ensures Writable(format.floats, View(format, after).appending.value)
    ensures var publish := Durable.Publish(step.value, step.event, step.expected, step.identity);
            Durable.Taken(format.floats, View(format, before), publish, View(format, after))
    ensures JournalOf(format, before.journal).value.normalized.None?
  {
    HoldsLoads(format, before, log);
    var loaded := Load(format, before).value;
    var c := Durable.MakeCommit(
      format.floats, loaded.state, loaded.journal.events, step.value, step.event, step.expected, step.identity).value;
    Durable.CommitChecked(
      format.floats, loaded.state, loaded.journal.events, step.value, step.event, step.expected, step.identity);
    WrittenReads(
      format, c, step.value.members, step.event.members, loaded.state.revision + 1, step.identity,
      before.journal, after);
  }

  lemma PublishHolds(
      format: Format, before: Files, step: Step, after: Files, log: seq<Durable.Entry>, next: seq<Durable.Entry>)
    requires FormatRule(format) && step.Publish?
    requires Holds(format, before, log) && Taken(format, before, step, after)
    requires next == Logged(format, log, step, after)
    ensures Holds(format, after, next)
    ensures Durable.Follows(log, step.value, step.event, step.expected, step.identity)
    ensures next == log + [Durable.EntryFor(format.floats, log, step.event, step.identity)]
  {
    var publish := Durable.Publish(step.value, step.event, step.expected, step.identity);
    PublishIsTaken(format, before, step, after, log);
    Durable.StepRefinesLog(format.floats, View(format, before), publish, View(format, after), log);
  }

  /** A publish can be taken exactly when no line is under way, the journal is in order and complete,
      the commit may follow the log, its head is within the reader's bounds, and payload and event
      have distinct keys and canonical forms. */
  lemma PublishIff(
      format: Format, before: Files, log: seq<Durable.Entry>, value: Value, event: Value, expected: Option<nat>,
      identity: string)
    requires Holds(format, before, log) && before.appending.None?
    requires JournalOf(format, before.journal).value.normalized.None?
    ensures (exists after :: Taken(format, before, Publish(value, event, expected, identity), after)) <==>
            && Durable.Transitions(View(format, before).journal) == log
            && Durable.Follows(log, value, event, expected, identity) && Distinct(value) && Distinct(event)
            && Text(format.floats, value).Some? && Text(format.floats, event).Some?
            && var head := Durable.Head(
                 value.members, |log| + 1, Durable.Transition(event.members, |log| + 1, identity));
               Fits(head) && Ordinary(head)
  {
    HoldsLoads(format, before, log);
    var loaded := Load(format, before).value;
    var snapshot, events := loaded.state, loaded.journal.events;
    Durable.CommitIff(format.floats, snapshot, events, log, value, event, expected, identity);
    var commit := Durable.MakeCommit(format.floats, snapshot, events, value, event, expected, identity);
    if commit.Ok? {
      Durable.CommitChecked(format.floats, snapshot, events, value, event, expected, identity);
      Durable.HeadForm(format.floats, value.members, event.members, snapshot.revision + 1, identity);
      var c := commit.value;
      var head, t := Encoded(format.floats, c.head), Encoded(format.floats, c.transition);
      if head.Some? && t.Some? && Fits(c.head) && Ordinary(c.head) && Distinct(value) && Distinct(event) {
        var after := Files(head.value, before.journal, t);
        assert Written(format.floats, value, event, c, before.journal, after);
        assert Taken(format, before, Publish(value, event, expected, identity), after);
      }
    }
  }

  /** Appending the last commit's line as far as it goes. */
  lemma AppendedReads(format: Format, files: Files, log: seq<Durable.Entry>, count: nat, after: Files)
    requires FormatRule(format) && Holds(format, files, log) && log != []
    requires JournalOf(format, files.journal).value.normalized.None?
    requires count <= |Line(log[|log| - 1].event)|
    requires after == Files(files.head, files.journal + Line(log[|log| - 1].event)[..count], None)
    ensures Readable(format, after) && View(format, after).appending.None?
    ensures View(format, after).head == View(format, files).head
    ensures View(format, after).journal ==
            if count < |Record(log[|log| - 1].event)| then View(format, files).journal
            else View(format, files).journal + [log[|log| - 1].event]
  {
    OrderedIsWhole(format, files.journal);
    CutJournal(format, files.journal, View(format, files).journal, log[|log| - 1].event, count);
  }

  lemma AppendHolds(format: Format, before: Files, step: Step, after: Files, log: seq<Durable.Entry>)
    requires FormatRule(format) && step.Append?
    requires Holds(format, before, log) && Taken(format, before, step, after)
    ensures Holds(format, after, log)
  {
    var event := log[|log| - 1].event;
    WritableReads(format, event);
    AppendedReads(format, before, log, step.count, after);
    var taken := if step.count < |Record(event)| then Durable.Crash else Durable.Append;
    assert Durable.Taken(format.floats, View(format, before), taken, View(format, after));
    Durable.StepRefinesLog(format.floats, View(format, before), taken, View(format, after), log);
  }

  lemma RepairHolds(format: Format, before: Files, step: Step, after: Files, log: seq<Durable.Entry>)
    requires FormatRule(format) && step.Repair?
    requires Holds(format, before, log) && Taken(format, before, step, after)
    ensures Holds(format, after, log)
  {
    HoldsLoads(format, before, log);
    var event := log[|log| - 1].event;
    WritableReads(format, event);
    AppendedReads(format, before, log, step.count, after);
    var taken := if step.count < |Record(event)| then Durable.Crash else Durable.Recover;
    assert Durable.Taken(format.floats, View(format, before), taken, View(format, after));
    Durable.StepRefinesLog(format.floats, View(format, before), taken, View(format, after), log);
  }

  lemma NormalizeHolds(format: Format, before: Files, step: Step, after: Files, log: seq<Durable.Entry>)
    requires step.Normalize? && Holds(format, before, log) && Taken(format, before, step, after)
    ensures Holds(format, after, log) && View(format, after) == View(format, before)
    ensures JournalOf(format, after.journal).value.normalized.None?
  {
    HoldsLoads(format, before, log);
    NormalizedReads(format, before.journal);
  }

  lemma CrashHolds(format: Format, before: Files, step: Step, after: Files, log: seq<Durable.Entry>)
    requires step.Crash? && Holds(format, before, log) && Taken(format, before, step, after)
    ensures Holds(format, after, log)
  {
    Durable.StepRefinesLog(format.floats, View(format, before), Durable.Crash, View(format, after), log);
  }

  /** Every step on the files, wherever it stops, is a step of the plain list of commits: a publish
      adds exactly the commit asked for, and only one that may follow the list. */
  lemma StepRefinesLog(format: Format, before: Files, step: Step, after: Files, log: seq<Durable.Entry>)
    requires FormatRule(format) && Holds(format, before, log) && Taken(format, before, step, after)
    ensures Holds(format, after, Logged(format, log, step, after))
    ensures step.Publish? ==> Durable.Follows(log, step.value, step.event, step.expected, step.identity)
    ensures Logged(format, log, step, after) ==
            if step.Publish? then log + [Durable.EntryFor(format.floats, log, step.event, step.identity)] else log
  {
    match step
    case Publish(_, _, _, _) => PublishHolds(format, before, step, after, log, Logged(format, log, step, after));
    case Append(_) => AppendHolds(format, before, step, after, log);
    case Crash => CrashHolds(format, before, step, after, log);
    case Normalize => NormalizeHolds(format, before, step, after, log);
    case Repair(_) => RepairHolds(format, before, step, after, log);
  }

  /** A run from files in which nothing was ever committed. */
  ghost predicate Run(format: Format, files: seq<Files>, steps: seq<Step>)
  {
    && |files| == |steps| + 1
    && Readable(format, files[0]) && files[0].appending.None? && Durable.Fresh(View(format, files[0]))
    && forall i :: 0 <= i < |steps| ==> Taken(format, files[i], steps[i], files[i + 1])
  }

  /** The commits of a run, in the order their heads were published. */
  ghost function History(format: Format, files: seq<Files>, steps: seq<Step>, k: nat): seq<Durable.Entry>
    requires k <= |steps| && |files| == |steps| + 1
  {
    if k == 0 then [] else Logged(format, History(format, files, steps, k - 1), steps[k - 1], files[k])
  }

  lemma RunStep(
      format: Format, files: seq<Files>, steps: seq<Step>, k: nat, log: seq<Durable.Entry>, next: seq<Durable.Entry>)
    requires FormatRule(format) && Run(format, files, steps) && 0 < k <= |steps|
    requires Holds(format, files[k - 1], log) && next == Logged(format, log, steps[k - 1], files[k])
    ensures Holds(format, files[k], next)
  {
    var i := k - 1;
    assert Taken(format, files[i], steps[i], files[i + 1]);
    StepRefinesLog(format, files[i], steps[i], files[i + 1], log);
  }

  lemma RunStarts(format: Format, files: seq<Files>, steps: seq<Step>)
    requires Run(format, files, steps)
    ensures Holds(format, files[0], [])
  {
    Durable.FreshIsConsistent(View(format, files[0]));
  }

  /** After any run the files can be read, and hold the committed history as `Holds` says. */
  lemma {:induction false} RunHolds(format: Format, files: seq<Files>, steps: seq<Step>, k: nat)
    requires FormatRule(format) && Run(format, files, steps) && k <= |steps|
    ensures Holds(format, files[k], History(format, files, steps, k))
  {
    if k == 0 {
      RunStarts(format, files, steps);
    } else {
      RunHolds(format, files, steps, k - 1);
      RunStep(format, files, steps, k, History(format, files, steps, k - 1), History(format, files, steps, k));
    }
  }

  /** The files after a repair that was not interrupted. */
  ghost function Restored(format: Format, files: Files): Files
  {
    match Load(format, files)
    case None => files
    case Some(loaded) =>
      var journal := if loaded.journal.normalized.Some? then loaded.journal.normalized.value else files.journal;
      var line := if loaded.missing.None? then None else Encoded(format.floats, loaded.missing.value);
      Files(files.head, if line.Some? then journal + line.value else journal, None)
  }

  /** The first half of a repair changes nothing that is read. */
  lemma OrderedFirst(format: Format, files: Files, log: seq<Durable.Entry>) returns (ordered: Files)
    requires Holds(format, files, log)
    ensures Holds(format, ordered, log) && ordered.head == files.head && ordered.appending.None?
    ensures View(format, ordered).journal == View(format, files).journal
    ensures JournalOf(format, ordered.journal).value.normalized.None?
    ensures ordered.journal == if JournalOf(format, files.journal).value.normalized.Some?
                               then JournalOf(format, files.journal).value.normalized.value else files.journal
  {
    var idle := files.(appending := None);
    CrashHolds(format, files, Crash, idle, log);
    HoldsLoads(format, idle, log);
    ordered := idle;
    if JournalOf(format, files.journal).value.normalized.Some? {
      ordered := idle.(journal := JournalOf(format, files.journal).value.normalized.value);
      NormalizeHolds(format, idle, Normalize, ordered, log);
    }
  }

  lemma RestoredLoads(format: Format, files: Files, log: seq<Durable.Entry>)
    requires FormatRule(format) && Holds(format, files, log)
    ensures Load(format, files).Some? && Load(format, Restored(format, files)).Some?
    ensures var loaded := Load(format, Restored(format, files)).value;
            && loaded.state == Load(format, files).value.state
            && loaded.missing.None? && loaded.journal.normalized.None?
            && Durable.Transitions(loaded.journal.events) == log
  {
    var restored := Restored(format, files);
    HoldsLoads(format, files, log);
    var ordered := OrderedFirst(format, files, log);
    HoldsLoads(format, ordered, log);
    if Durable.Transitions(View(format, files).journal) == log {
      assert restored == ordered;
    } else {
      var event := log[|log| - 1].event;
      WritableReads(format, event);
      assert Line(event)[..|Line(event)|] == Line(event);
      var repair := Repair(|Line(event)|);
      assert Taken(format, ordered, repair, restored);
      RepairHolds(format, ordered, repair, restored, log);
      HoldsLoads(format, restored, log);
      RepairedWhole(format, ordered, log, restored);
    }
  }

  /** The whole line of the missing transition completes the journal and leaves it in order. */
  lemma RepairedWhole(format: Format, files: Files, log: seq<Durable.Entry>, after: Files)
    requires FormatRule(format) && Holds(format, files, log) && log != []
    requires JournalOf(format, files.journal).value.normalized.None?
    requires Durable.Transitions(View(format, files).journal) != log
    requires after == Files(files.head, files.journal + Line(log[|log| - 1].event), None)
    ensures Readable(format, after) && JournalOf(format, after.journal).value.normalized.None?
    ensures Durable.Transitions(View(format, after).journal) == log
  {
    var event := log[|log| - 1].event;
    assert Line(event)[..|Line(event)|] == Line(event);
    OrderedIsWhole(format, files.journal);
    CutJournal(format, files.journal, View(format, files).journal, event, |Line(event)|);
    Durable.AppendCompletes(
      Durable.FromValue(View(format, files).head).value, View(format, files).journal, log);
  }

  /** Over every run of the two files, with every append and every repair stopped after any
      byte: the files load at every moment, and once a repair comes to its end the journal
      is whole lines, nothing is missing from it, and it holds exactly the committed history. */
  lemma RecoveryIsComplete(format: Format, files: seq<Files>, steps: seq<Step>, k: nat)
    requires FormatRule(format) && Run(format, files, steps) && k <= |steps|
    ensures Load(format, files[k]).Some? && Load(format, Restored(format, files[k])).Some?
    ensures var loaded := Load(format, Restored(format, files[k])).value;
            && loaded.state == Load(format, files[k]).value.state
            && loaded.missing.None? && loaded.journal.normalized.None?
            && Durable.Transitions(loaded.journal.events) == History(format, files, steps, k)
  {
    RunHolds(format, files, steps, k);
    RestoredLoads(format, files[k], History(format, files, steps, k));
  }

  /** The bound on a published head is needed: whatever `commit` made of distinct values, its
      encoded head reads back, and then as its normal form, exactly when it is at most 64 deep
      and has no more nodes than an index can count. */
  lemma HeadReadsIffFits(
      format: Format, snapshot: Durable.Snapshot, events: seq<Value>, value: Value, event: Value,
      expected: Option<nat>, identity: string)
    requires FormatRule(format) && Distinct(value) && Distinct(event)
    requires Durable.MakeCommit(format.floats, snapshot, events, value, event, expected, identity).Ok?
    ensures var c := Durable.MakeCommit(format.floats, snapshot, events, value, event, expected, identity).value;
            Encoded(format.floats, c.head).Some? ==>
              Decode(format.floats, Encoded(format.floats, c.head).value) ==
              if Fits(c.head) then Norm(format.floats, c.head) else None
  {
    var c := Durable.MakeCommit(format.floats, snapshot, events, value, event, expected, identity).value;
    Durable.CommitChecked(format.floats, snapshot, events, value, event, expected, identity);
    HeadIsDistinct(value.members, event.members, snapshot.revision + 1, identity);
    if Encoded(format.floats, c.head).Some? {
      EncodedReads(format.floats, c.head);
    }
  }
}
