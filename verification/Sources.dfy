/** The content stream of a source: for each file its path, a NUL, one byte that says whether it
    is executable, its size in eight bytes, and its body. Its digest is the source's identity. */
module Sources {
  import opened Basics
  import opened Sorting

  /** A file name on disk has no NUL in it. */
  type Path = p: Bytes | 0 !in p

  const SIZE_LIMIT := 0x1_0000_0000_0000_0000

  type Body = b: Bytes | |b| < SIZE_LIMIT witness []

  datatype Entry = Entry(path: Path, executable: bool, body: Body)

  // ----- Little-endian numbers -----

  function LittleEndian(n: nat, width: nat): (r: Bytes)
    ensures |r| == width
  {
    if width == 0 then [] else [n % 256] + LittleEndian(n / 256, width - 1)
  }

  function FromLittleEndian(b: Bytes): nat
  {
    if b == [] then 0 else b[0] + 256 * FromLittleEndian(b[1..])
  }

  function Power256(width: nat): nat { if width == 0 then 1 else 256 * Power256(width - 1) }

  lemma {:induction false} LittleEndianReads(n: nat, width: nat)
    requires n < Power256(width)
    ensures FromLittleEndian(LittleEndian(n, width)) == n
  {
    if width > 0 {
      LittleEndianReads(n / 256, width - 1);
    }
  }

  lemma LowestByte(low: byte, high: nat)
    ensures (low + 256 * high) % 256 == low && (low + 256 * high) / 256 == high
  {
  }

  lemma {:induction false} LittleEndianWrites(b: Bytes)
    ensures LittleEndian(FromLittleEndian(b), |b|) == b
  {
    if b != [] {
      LittleEndianWrites(b[1..]);
      LowestByte(b[0], FromLittleEndian(b[1..]));
      assert b == [b[0]] + b[1..];
    }
  }

  lemma EightBytes()
    ensures Power256(8) == SIZE_LIMIT
  {
    assert Power256(4) == 0x1_0000_0000;
  }

  // ----- The stream -----

  function Flag(executable: bool): byte { if executable then 1 else 0 }

  function Record(e: Entry): Bytes
  {
    e.path + ([0, Flag(e.executable)] + (LittleEndian(|e.body|, 8) + e.body))
  }

  function Stream(entries: seq<Entry>): Bytes
  {
    if entries == [] then [] else Record(entries[0]) + Stream(entries[1..])
  }

  /** The bytes before the first NUL, or all of them. */
  function ToNul(b: Bytes): (r: Path)
    ensures |r| <= |b| && r == b[..|r|]
  {
    if b == [] || b[0] == 0 then [] else [b[0]] + ToNul(b[1..])
  }

  /** Reads the first file of a stream, and what follows it. */
  function DecodeEntry(b: Bytes): (r: Option<(Entry, Bytes)>)
    ensures r.Some? ==> |r.value.1| < |b|
  {
    var path := ToNul(b);
    var rest := b[|path|..];
    if |rest| < 10 || rest[1] > 1 then None
    else
      var size := FromLittleEndian(rest[2..10]);
      if size >= SIZE_LIMIT || size > |rest| - 10 then None
      else Some((Entry(path, rest[1] == 1, rest[10..10 + size]), rest[10 + size..]))
  }

  function Decode(b: Bytes): Option<seq<Entry>>
    decreases |b|
  {
    if b == [] then Some([])
    else
      var first :- DecodeEntry(b);
      var others :- Decode(first.1);
      Some([first.0] + others)
  }

  lemma {:induction false} NulEnds(path: Path, rest: Bytes)
    requires rest != [] && rest[0] == 0
    ensures ToNul(path + rest) == path
  {
    if path == [] {
      assert path + rest == rest;
    } else {
      NulEnds(path[1..], rest);
      assert (path + rest)[1..] == path[1..] + rest;
    }
  }

  lemma HeadReads(flag: byte, size: Bytes, body: Bytes, rest: Bytes)
    requires |size| == 8
    ensures var b := [0, flag] + (size + (body + rest));
      b[1] == flag && b[2..10] == size && b[10..10 + |body|] == body && b[10 + |body|..] == rest
  {
    var b := [0, flag] + (size + (body + rest));
    assert b[10..] == body + rest;
    assert b[10..10 + |body|] == b[10..][..|body|] && b[10 + |body|..] == b[10..][|body|..];
  }

  lemma RecordReads(e: Entry, rest: Bytes)
    ensures DecodeEntry(Record(e) + rest) == Some((e, rest))
  {
    var size := LittleEndian(|e.body|, 8);
    var head := [0, Flag(e.executable)];
    var tail := head + (size + (e.body + rest));
    assert Record(e) + rest == e.path + tail by {
      Regroup(e.path, head + (size + e.body), rest);
      Regroup(head, size + e.body, rest);
      Regroup(size, e.body, rest);
    }
    NulEnds(e.path, tail);
    Halves(e.path, tail);
    HeadReads(Flag(e.executable), size, e.body, rest);
    EightBytes();
    LittleEndianReads(|e.body|, 8);
  }

  /** Reading a stream gives back the files it was made of. */
  lemma {:induction false} DecodeUndoesStream(entries: seq<Entry>)
    ensures Decode(Stream(entries)) == Some(entries)
  {
    if entries != [] {
      RecordReads(entries[0], Stream(entries[1..]));
      DecodeUndoesStream(entries[1..]);
      assert entries == [entries[0]] + entries[1..];
    }
  }

  lemma HeadWrites(rest: Bytes, size: nat)
    requires |rest| >= 10 + size && rest[0] == 0
    ensures rest == [0, rest[1]] + (rest[2..10] + rest[10..10 + size]) + rest[10 + size..]
  {
  }

  lemma {:induction false} ToNulStops(b: Bytes)
    ensures |ToNul(b)| < |b| ==> b[|ToNul(b)|] == 0
  {
    if b != [] && b[0] != 0 {
      ToNulStops(b[1..]);
    }
  }

  lemma EntryWrites(b: Bytes)
    requires DecodeEntry(b).Some?
    ensures b == Record(DecodeEntry(b).value.0) + DecodeEntry(b).value.1
  {
    var path := ToNul(b);
    var rest := b[|path|..];
    ToNulStops(b);
    var size := FromLittleEndian(rest[2..10]);
    var body, after := rest[10..10 + size], rest[10 + size..];
    LittleEndianWrites(rest[2..10]);
    HeadWrites(rest, size);
    Regroup(path, [0, rest[1]] + (rest[2..10] + body), after);
    assert Record(Entry(path, rest[1] == 1, body)) == path + ([0, rest[1]] + (rest[2..10] + body));
  }

  /** Only the stream of some files can be read. */
  lemma {:induction false} StreamUndoesDecode(b: Bytes)
    requires Decode(b).Some?
    ensures Stream(Decode(b).value) == b
    decreases |b|
  {
    if b != [] {
      EntryWrites(b);
      StreamUndoesDecode(DecodeEntry(b).value.1);
    }
  }

  /** Equal streams mean equal file lists. */
  lemma StreamsDiffer(a: seq<Entry>, b: seq<Entry>)
    ensures Stream(a) == Stream(b) <==> a == b
  {
    DecodeUndoesStream(a);
    DecodeUndoesStream(b);
  }

  // ----- Packing a directory -----

  /** Bytes as characters, to compare them in order. */
  function Characters(b: Bytes): (s: string)
    ensures |s| == |b|
  {
    if b == [] then "" else [b[0] as char] + Characters(b[1..])
  }

  lemma {:induction false} CharactersDiffer(a: Bytes, b: Bytes)
    requires Characters(a) == Characters(b)
    ensures a == b
  {
    if a != [] {
      assert Characters(a)[1..] == Characters(a[1..]) && Characters(b)[1..] == Characters(b[1..]);
      CharactersDiffer(a[1..], b[1..]);
      assert a == [a[0]] + a[1..] && b == [b[0]] + b[1..];
      assert Characters(a)[0] == Characters(b)[0];
    }
  }

  function PathOrder(): Entry -> string { (e: Entry) => Characters(e.path) }

  function Size(entries: seq<Entry>): nat
  {
    if entries == [] then 0 else Size(entries[..|entries| - 1]) + |entries[|entries| - 1].body|
  }

  datatype Failure = Packing | TooLarge | Changed

  datatype Packed = Packed(content: Bytes, paths: seq<Path>, expanded: nat)

  function PathsOf(entries: seq<Entry>): (r: seq<Path>)
    ensures |r| == |entries| && forall i :: 0 <= i < |r| ==> r[i] == entries[i].path
  {
    if entries == [] then [] else PathsOf(entries[..|entries| - 1]) + [entries[|entries| - 1].path]
  }

  lemma {:induction false} StreamGrows(entries: seq<Entry>, e: Entry)
    ensures Stream(entries + [e]) == Stream(entries) + Record(e)
  {
    if entries == [] {
      assert entries + [e] == [e] && Stream([e]) == Record(e) + Stream([]);
    } else {
      StreamGrows(entries[1..], e);
      assert (entries + [e])[1..] == entries[1..] + [e];
      Regroup(Record(entries[0]), Stream(entries[1..]), Record(e));
    }
  }

  /** Feeds one file to the digest: its path, its mark, its size and its body. */
  method Update(content: Bytes, e: Entry) returns (next: Bytes)
    ensures next == content + Record(e)
  {
    next := content + e.path;
    next := next + [0, Flag(e.executable)];
    next := next + LittleEndian(|e.body|, 8);
    next := next + e.body;
    Regroup(content, e.path, [0, Flag(e.executable)]);
    Regroup(content, e.path + [0, Flag(e.executable)], LittleEndian(|e.body|, 8));
    Regroup(content, e.path + [0, Flag(e.executable)] + LittleEndian(|e.body|, 8), e.body);
    Regroup(e.path + [0, Flag(e.executable)], LittleEndian(|e.body|, 8), e.body);
    Regroup(e.path, [0, Flag(e.executable)], LittleEndian(|e.body|, 8) + e.body);
  }

  /** Packs the files a walk of the directory found, in path order. */
  method PackDirectory(found: seq<Entry>, limit: nat) returns (r: Result<Packed, Failure>)
    ensures r.Ok? <==> found != [] && Size(found) <= limit
    ensures r.Ok? ==> r.value.content == Stream(Sort(PathOrder(), found))
    ensures r.Ok? ==> r.value.paths == PathsOf(Sort(PathOrder(), found)) && r.value.expanded == Size(found)
  {
    var expanded := 0;
    for i := 0 to |found|
      invariant expanded == Size(found[..i]) <= limit
    {
      assert found[..i + 1][..i] == found[..i];
      expanded := expanded + |found[i].body|;
      if expanded > limit {
        SizeGrows(found, i + 1);
        return Err(TooLarge);
      }
    }
    assert found[..|found|] == found;
    if found == [] {
      return Err(Packing);
    }
    var entries := Sort(PathOrder(), found);
    var content: Bytes, paths: seq<Path> := [], [];
    for i := 0 to |entries|
      invariant content == Stream(entries[..i]) && paths == PathsOf(entries[..i])
    {
      assert entries[..i + 1] == entries[..i] + [entries[i]];
      StreamGrows(entries[..i], entries[i]);
      content := Update(content, entries[i]);
      paths := paths + [entries[i].path];
    }
    assert entries[..|entries|] == entries;
    return Ok(Packed(content, paths, expanded));
  }

  lemma {:induction false} SizeGrows(entries: seq<Entry>, i: nat)
    requires i <= |entries|
    ensures Size(entries[..i]) <= Size(entries)
  {
    if i == |entries| {
      assert entries[..i] == entries;
    } else {
      SizeGrows(entries[..|entries| - 1], i);
      assert entries[..|entries| - 1][..i] == entries[..i];
    }
  }

  /** The identity of a directory is its set of files: it does not depend on the order the walk
      found them in, and no two sets of files share it. */
  lemma ContentIsFileSet(a: seq<Entry>, b: seq<Entry>)
    requires Distinct(PathOrder(), a)
    ensures Stream(Sort(PathOrder(), a)) == Stream(Sort(PathOrder(), b)) <==> multiset(a) == multiset(b)
  {
    StreamsDiffer(Sort(PathOrder(), a), Sort(PathOrder(), b));
    if multiset(a) == multiset(b) {
      SortForgetsOrder(PathOrder(), a, b);
    }
  }

  // ----- Packing some files of an archive -----

  function Filtered(entries: seq<Entry>, chosen: set<Path>): (r: seq<Entry>)
    ensures |r| <= |entries|
  {
    if entries == [] then []
    else
      var last := entries[|entries| - 1];
      var before := Filtered(entries[..|entries| - 1], chosen);
      if last.path in chosen then before + [last] else before
  }

  lemma {:induction false} FilteredMembers(entries: seq<Entry>, chosen: set<Path>)
    ensures forall e :: e in Filtered(entries, chosen) <==> e in entries && e.path in chosen
  {
    if entries != [] {
      FilteredMembers(entries[..|entries| - 1], chosen);
      assert entries == entries[..|entries| - 1] + [entries[|entries| - 1]];
    }
  }

  /** The Dockerfile in the archive is the text its instructions were read from. */
  predicate Agrees(entries: seq<Entry>, dockerfile: (Path, Bytes))
  {
    entries == [] ||
    (Agrees(entries[..|entries| - 1], dockerfile) && Unchanged(entries[|entries| - 1], dockerfile))
  }

  predicate Unchanged(e: Entry, dockerfile: (Path, Bytes)) { e.path == dockerfile.0 ==> e.body == dockerfile.1 }

  lemma {:induction false} AgreesIsEach(entries: seq<Entry>, dockerfile: (Path, Bytes))
    ensures Agrees(entries, dockerfile) <==> forall e :: e in entries ==> Unchanged(e, dockerfile)
  {
    if entries != [] {
      AgreesIsEach(entries[..|entries| - 1], dockerfile);
      assert entries == entries[..|entries| - 1] + [entries[|entries| - 1]];
    }
  }

  lemma FilteredStep(entries: seq<Entry>, i: nat, chosen: set<Path>)
    requires i < |entries|
    ensures var before := Filtered(entries[..i], chosen);
      Filtered(entries[..i + 1], chosen) == if entries[i].path in chosen then before + [entries[i]] else before
  {
    assert entries[..i + 1][..i] == entries[..i];
  }

  /** What has been written so far is of these files. */
  predicate Carries(p: Packed, entries: seq<Entry>)
  {
    p.content == Stream(entries) && p.paths == PathsOf(entries) && p.expanded == Size(entries)
  }

  lemma CarriesMore(p: Packed, entries: seq<Entry>, e: Entry, dockerfile: (Path, Bytes))
    requires Carries(p, entries) && Agrees(entries, dockerfile) && Unchanged(e, dockerfile)
    ensures Agrees(entries + [e], dockerfile)
    ensures Carries(Packed(p.content + Record(e), p.paths + [e.path], p.expanded + |e.body|), entries + [e])
  {
    StreamGrows(entries, e);
    assert (entries + [e])[..|entries|] == entries;
  }

  lemma ChangeIsSeen(whole: seq<Entry>, i: nat, chosen: set<Path>, dockerfile: (Path, Bytes))
    requires i < |whole| && whole[i].path in chosen && !Unchanged(whole[i], dockerfile)
    ensures !Agrees(Filtered(whole, chosen), dockerfile)
  {
    FilteredMembers(whole, chosen);
    AgreesIsEach(Filtered(whole, chosen), dockerfile);
    assert whole[i] in Filtered(whole, chosen);
  }

  method PackSubset(whole: seq<Entry>, chosen: set<Path>, dockerfile: (Path, Bytes)) returns (r: Result<Packed, Failure>)
    ensures r.Ok? <==> Agrees(Filtered(whole, chosen), dockerfile) && |Filtered(whole, chosen)| == |chosen|
    ensures r.Ok? ==> Carries(r.value, Filtered(whole, chosen))
    ensures r == Err(Changed) <==> !Agrees(Filtered(whole, chosen), dockerfile)
  {
    var packed := Packed([], [], 0);
    ghost var taken: seq<Entry> := [];
    for i := 0 to |whole|
      invariant taken == Filtered(whole[..i], chosen)
      invariant Agrees(taken, dockerfile)
      invariant Carries(packed, taken)
    {
      var entry := whole[i];
      FilteredStep(whole, i, chosen);
      if entry.path in chosen {
        if !Unchanged(entry, dockerfile) {
          ChangeIsSeen(whole, i, chosen, dockerfile);
          return Err(Changed);
        }
        CarriesMore(packed, taken, entry, dockerfile);
        var content := Update(packed.content, entry);
        packed := Packed(content, packed.paths + [entry.path], packed.expanded + |entry.body|);
        taken := taken + [entry];
      }
    }
    assert whole[..|whole|] == whole;
    if |packed.paths| != |chosen| {
      return Err(Packing);
    }
    return Ok(packed);
  }

  lemma {:induction false} FilteredCounts(entries: seq<Entry>, chosen: set<Path>, e: Entry)
    ensures multiset(Filtered(entries, chosen))[e] == if e.path in chosen then multiset(entries)[e] else 0
  {
    if entries != [] {
      FilteredCounts(entries[..|entries| - 1], chosen, e);
      assert entries == entries[..|entries| - 1] + [entries[|entries| - 1]];
    }
  }

  lemma {:induction false} FilteredOrdered(entries: seq<Entry>, chosen: set<Path>)
    requires Ordered(PathOrder(), entries)
    ensures Ordered(PathOrder(), Filtered(entries, chosen))
  {
    if entries != [] {
      var front, last := entries[..|entries| - 1], entries[|entries| - 1];
      OrderedIsIndexed(PathOrder(), entries);
      OrderedIsIndexed(PathOrder(), front);
      FilteredOrdered(front, chosen);
      FilteredMembers(front, chosen);
      if last.path in chosen {
        forall e | e in Filtered(front, chosen) ensures Less(PathOrder()(e), PathOrder()(last)) {
          var k :| 0 <= k < |front| && front[k] == e;
          assert entries[k] == e;
        }
        AppendOrders(PathOrder(), Filtered(front, chosen), last);
      }
    }
  }

  /** Choosing from a packed directory is packing a directory of the chosen files alone. */
  lemma SubsetIsDirectory(found: seq<Entry>, chosen: set<Path>)
    requires Distinct(PathOrder(), found)
    ensures Filtered(Sort(PathOrder(), found), chosen) == Sort(PathOrder(), Filtered(found, chosen))
  {
    var a, b := Filtered(Sort(PathOrder(), found), chosen), Sort(PathOrder(), Filtered(found, chosen));
    SortOrders(PathOrder(), found);
    FilteredOrdered(Sort(PathOrder(), found), chosen);
    forall e: Entry ensures multiset(a)[e] == multiset(b)[e] {
      FilteredCounts(Sort(PathOrder(), found), chosen, e);
      FilteredCounts(found, chosen, e);
    }
    assert multiset(a) == multiset(b);
    PermutedDistinct(PathOrder(), found, Sort(PathOrder(), found));
    OrderedIsDistinct(PathOrder(), a);
    PermutedDistinct(PathOrder(), a, Filtered(found, chosen));
    SortOrders(PathOrder(), Filtered(found, chosen));
    OrderedIsUnique(PathOrder(), a, b);
  }

  function PathSet(entries: seq<Entry>): (r: set<Path>)
    ensures |r| <= |entries|
  {
    if entries == [] then {} else {entries[0].path} + PathSet(entries[1..])
  }

  lemma {:induction false} PathSetIs(entries: seq<Entry>, p: Path)
    ensures p in PathSet(entries) <==> exists i :: 0 <= i < |entries| && entries[i].path == p
  {
    if entries != [] {
      var rest := entries[1..];
      PathSetIs(rest, p);
      if p in PathSet(rest) {
        var i :| 0 <= i < |rest| && rest[i].path == p;
        assert entries[i + 1].path == p;
      }
      if exists i :: 0 < i < |entries| && entries[i].path == p {
        var i :| 0 < i < |entries| && entries[i].path == p;
        assert rest[i - 1].path == p;
      }
    }
  }

  lemma NotAgain(e: Entry, rest: seq<Entry>)
    requires PathOrder()(e) !in Keys(PathOrder(), rest)
    ensures e.path !in PathSet(rest)
  {
    PathSetIs(rest, e.path);
    forall i | 0 <= i < |rest| ensures rest[i].path != e.path {
      assert PathOrder()(rest[i]) in Keys(PathOrder(), rest);
    }
  }

  lemma {:induction false} DistinctPaths(entries: seq<Entry>)
    requires Distinct(PathOrder(), entries)
    ensures |PathSet(entries)| == |entries|
  {
    if entries != [] {
      DistinctPaths(entries[1..]);
      NotAgain(entries[0], entries[1..]);
    }
  }

  lemma {:induction false} FilteredPaths(entries: seq<Entry>, chosen: set<Path>)
    ensures PathSet(Filtered(entries, chosen)) == PathSet(entries) * chosen
  {
    var taken := Filtered(entries, chosen);
    FilteredMembers(entries, chosen);
    forall p ensures p in PathSet(taken) <==> p in PathSet(entries) && p in chosen {
      PathSetIs(taken, p);
      PathSetIs(entries, p);
      if p in PathSet(taken) {
        var i :| 0 <= i < |taken| && taken[i].path == p;
        assert taken[i] in entries;
      }
      if p in PathSet(entries) && p in chosen {
        var i :| 0 <= i < |entries| && entries[i].path == p;
        assert entries[i] in taken;
      }
    }
  }

  /** The count is enough: of files with their own names, as many found as chosen means that
      every chosen one was found. */
  lemma CountMeansAll(whole: seq<Entry>, chosen: set<Path>)
    requires Ordered(PathOrder(), whole)
    ensures |Filtered(whole, chosen)| == |chosen| <==> chosen <= PathSet(whole)
  {
    var taken := Filtered(whole, chosen);
    FilteredOrdered(whole, chosen);
    OrderedIsDistinct(PathOrder(), taken);
    DistinctPaths(taken);
    FilteredPaths(whole, chosen);
    SubsetSize(PathSet(whole) * chosen, chosen);
  }
}
