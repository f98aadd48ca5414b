/** Immutable dataset identities and the delivery state of one upload, which only grows. */
module Datasets {
  import opened Basics
  import opened Identity
  import opened Texts
  import opened Multipart

  const CONTRACT := "native-dataset.v1"
  const MAX_METADATA := 8 * 1024 * 1024
  const MAX_FILES := 20_000
  const MAX_PATH_BYTES := 4096

  datatype Invalid = Invalid

  datatype FileReceipt = FileReceipt(path: string, sha256: string, bytes: nat)

  datatype Target = Target(backend: string, profile: string, scope: string)

  datatype Definition = Definition(sha256: string, archiveBytes: nat, files: seq<FileReceipt>)

  datatype PartRecord = PartRecord(sha256: string, bytes: nat)

  datatype Receipt = Receipt(
    contract: string, project: string, target: Target, asset: string, definition: Definition, root: string)

  datatype State = State(
    contract: string, project: string, target: Target, asset: string, definition: Definition,
    parts: map<nat, PartRecord>, ready: Option<Receipt>)

  /** What lies outside this model: whether a target and a storage root are well formed, and
      how many bytes a record takes when it is saved. */
  datatype Rules = Rules(
    target: Target -> bool, root: string -> bool, definitionBytes: Definition -> nat, stateBytes: State -> nat)

  // ----- Definitions -----

  predicate DatasetPath(s: string)
  {
    && s != "" && Utf8Length(s) <= MAX_PATH_BYTES
    && (forall i :: 0 <= i < |s| ==> s[i] != '\\' && !IsControl(s[i]))
    && |SplitSlash(s)| <= 128
    && "" !in SplitSlash(s) && "." !in SplitSlash(s) && ".." !in SplitSlash(s)
  }

  function Total(files: seq<FileReceipt>): nat
  {
    if files == [] then 0 else Total(files[..|files| - 1]) + files[|files| - 1].bytes
  }

  predicate FileValid(f: FileReceipt) { DatasetPath(f.path) && IsSha256(f.sha256) }

  predicate Ascending(files: seq<FileReceipt>)
  {
    forall i, j :: 0 <= i < j < |files| ==> Less(files[i].path, files[j].path)
  }

  function Paths(files: seq<FileReceipt>): set<string>
  {
    if files == [] then {} else Paths(files[..|files| - 1]) + {files[|files| - 1].path}
  }

  /** None of the names is a directory on the way to a path. */
  predicate Clear(names: set<string>, path: string)
  {
    forall n :: n in names ==> !(SplitSlash(n) < SplitSlash(path))
  }

  /** No file is a directory on the way to another. */
  predicate NoneInside(files: seq<FileReceipt>)
  {
    forall j :: 0 <= j < |files| ==> Clear(Paths(files), files[j].path)
  }

  predicate ValidDefinition(rules: Rules, d: Definition)
  {
    && IsSha256(d.sha256) && PartCount(d.archiveBytes).Ok?
    && 0 < |d.files| <= MAX_FILES
    && (forall i :: 0 <= i < |d.files| ==> FileValid(d.files[i]))
    && Ascending(d.files) && NoneInside(d.files)
    && Total(d.files) <= d.archiveBytes && rules.definitionBytes(d) <= MAX_METADATA / 2
  }

  lemma {:induction false} TotalGrows(files: seq<FileReceipt>, k: nat)
    requires k <= |files|
    ensures Total(files[..k]) <= Total(files)
    decreases |files|
  {
    if k < |files| {
      TotalGrows(files[..|files| - 1], k);
      assert files[..|files| - 1][..k] == files[..k];
    } else {
      assert files[..k] == files;
    }
  }

  lemma SmallArchive(size: nat)
    requires PartCount(size).Ok?
    ensures size <= MAX_PARTS * PART_BYTES < U64_MAX
  {
  }

  /** The parent directories of a path, checked from the nearest to the farthest. */
  method ParentIsFile(path: string, names: set<string>) returns (found: bool)
    ensures found <==> !Clear(names, path)
  {
    var parts := SplitSlash(path);
    var k := |parts| - 1;
    while k > 0
      invariant 0 <= k < |parts|
      invariant forall n :: n in names ==> SplitSlash(n) < parts ==> |SplitSlash(n)| <= k
    {
      var parent := JoinSlash(parts[..k]);
      SplitHasNoSlash(path);
      SplitOfJoin(parts[..k]);
      if parent in names {
        assert SplitSlash(parent) < parts;
        return true;
      }
      forall n | n in names && SplitSlash(n) < parts ensures |SplitSlash(n)| <= k - 1 {
        SplitJoins(n);
        assert SplitSlash(n) == parts[..|SplitSlash(n)|];
      }
      k := k - 1;
    }
    return false;
  }

  /** The files one by one: each valid, and after the one before it. */
  predicate Listed(files: seq<FileReceipt>)
  {
    files == [] ||
    var before, last := files[..|files| - 1], files[|files| - 1];
    Listed(before) && FileValid(last) && (before != [] ==> Less(before[|before| - 1].path, last.path))
  }

  lemma {:induction false} ListedAscends(files: seq<FileReceipt>)
    requires Listed(files)
    ensures (forall i :: 0 <= i < |files| ==> FileValid(files[i])) && Ascending(files)
  {
    if files != [] {
      var before, last := files[..|files| - 1], files[|files| - 1];
      ListedAscends(before);
      forall i | 0 <= i < |before| ensures Less(files[i].path, last.path) {
        if i < |before| - 1 {
          assert Less(before[i].path, before[|before| - 1].path);
          LessTransitive(files[i].path, before[|before| - 1].path, last.path);
        }
      }
      forall i | 0 <= i < |files| ensures FileValid(files[i]) {
        assert i < |before| ==> files[i] == before[i];
      }
    }
  }

  lemma {:induction false} AscendingIsListed(files: seq<FileReceipt>)
    requires (forall i :: 0 <= i < |files| ==> FileValid(files[i])) && Ascending(files)
    ensures Listed(files)
  {
    if files != [] {
      var before := files[..|files| - 1];
      forall i | 0 <= i < |before| ensures FileValid(before[i]) {
        assert before[i] == files[i];
      }
      AscendingIsListed(before);
    }
  }

  lemma ListedMeans(files: seq<FileReceipt>)
    ensures Listed(files) <==> (forall i :: 0 <= i < |files| ==> FileValid(files[i])) && Ascending(files)
  {
    if Listed(files) {
      ListedAscends(files);
    } else if (forall i :: 0 <= i < |files| ==> FileValid(files[i])) && Ascending(files) {
      AscendingIsListed(files);
    }
  }

  lemma {:induction false} ListedPrefix(files: seq<FileReceipt>, k: nat)
    requires Listed(files) && k <= |files|
    ensures Listed(files[..k])
  {
    if k < |files| {
      ListedPrefix(files[..|files| - 1], k);
      assert files[..|files| - 1][..k] == files[..k];
    } else {
      assert files[..k] == files;
    }
  }

  lemma {:induction false} PathsHold(files: seq<FileReceipt>)
    ensures forall i :: 0 <= i < |files| ==> files[i].path in Paths(files)
    ensures forall p :: p in Paths(files) ==> exists i :: 0 <= i < |files| && files[i].path == p
  {
    if files != [] {
      var before := files[..|files| - 1];
      PathsHold(before);
      forall p | p in Paths(files) ensures exists i :: 0 <= i < |files| && files[i].path == p {
        if p in Paths(before) {
          var i :| 0 <= i < |before| && before[i].path == p;
          assert files[i].path == p;
        } else {
          assert files[|files| - 1].path == p;
        }
      }
    }
  }

  lemma ListedStep(files: seq<FileReceipt>, i: nat)
    requires i < |files|
    ensures files[..i + 1][..i] == files[..i]
    ensures Listed(files[..i + 1]) <==>
              Listed(files[..i]) && FileValid(files[i]) && (i > 0 ==> Less(files[i - 1].path, files[i].path))
    ensures Listed(files[..i + 1]) ==> files[i].path !in Paths(files[..i])
    ensures Total(files[..i + 1]) == Total(files[..i]) + files[i].bytes <= Total(files)
    ensures Paths(files[..i + 1]) == Paths(files[..i]) + {files[i].path}
  {
    var now := files[..i + 1];
    assert now[..i] == files[..i];
    TotalGrows(files, i + 1);
    if Listed(now) {
      ListedMeans(now);
      PathsHold(files[..i]);
      forall k | 0 <= k < i ensures files[..i][k].path != files[i].path {
        assert Less(now[k].path, now[i].path);
        LessIrreflexive(now[k].path);
      }
    }
  }

  /** Refuses at the first file that is not valid or not after the one before it. */
  method CheckFiles(files: seq<FileReceipt>, limit: nat) returns (ok: bool, names: set<string>)
    requires limit < U64_MAX
    ensures ok <==> Listed(files) && Total(files) <= limit
    ensures ok ==> names == Paths(files)
  {
    names := {};
    var total: nat := 0;
    for i := 0 to |files|
      invariant Listed(files[..i]) && names == Paths(files[..i])
      invariant total == Total(files[..i]) <= U64_MAX
    {
      ListedStep(files, i);
      if Listed(files) {
        ListedPrefix(files, i + 1);
      }
      var file := files[i];
      if !DatasetPath(file.path) || (i > 0 && !Less(files[i - 1].path, file.path)) || file.path in names {
        return false, names;
      }
      if !IsSha256(file.sha256) || total + file.bytes > U64_MAX {
        return false, names;
      }
      total := total + file.bytes;
      names := names + {file.path};
    }
    assert files[..|files|] == files;
    ok := total <= limit;
  }

  method CheckNesting(files: seq<FileReceipt>, names: set<string>) returns (ok: bool)
    requires names == Paths(files)
    ensures ok <==> NoneInside(files)
  {
    for j := 0 to |files|
      invariant forall k :: 0 <= k < j ==> Clear(names, files[k].path)
    {
      var inside := ParentIsFile(files[j].path, names);
      if inside {
        return false;
      }
    }
    return true;
  }

  method CheckDefinition(rules: Rules, d: Definition) returns (ok: bool)
    ensures ok <==> ValidDefinition(rules, d)
  {
    if !IsSha256(d.sha256) || PartCount(d.archiveBytes).Err? || d.files == [] || |d.files| > MAX_FILES {
      return false;
    }
    SmallArchive(d.archiveBytes);
    ListedMeans(d.files);
    var listed, names := CheckFiles(d.files, d.archiveBytes);
    if !listed {
      return false;
    }
    var apart := CheckNesting(d.files, names);
    return apart && rules.definitionBytes(d) <= MAX_METADATA / 2;
  }

  function AssetId(d: Definition): string { "asset." + d.sha256 }

  // ----- States -----

  predicate ValidReceipt(rules: Rules, r: Receipt)
  {
    && ValidId(r.project) && rules.target(r.target) && ValidDefinition(rules, r.definition)
    && r.contract == CONTRACT && r.asset == AssetId(r.definition) && rules.root(r.root)
    && EndsWith(r.root, "/" + r.project + "/" + r.asset + "/tree")
  }

  predicate EndsWith(s: string, end: string) { |end| <= |s| && s[|s| - |end|..] == end }

  predicate PartFits(d: Definition, number: nat, part: PartRecord)
  {
    PartSize(d.archiveBytes, number) == Ok(part.bytes) && IsSha256(part.sha256)
  }

  predicate Valid(rules: Rules, s: State)
  {
    && ValidDefinition(rules, s.definition) && rules.target(s.target) && ValidId(s.project)
    && s.contract == CONTRACT && s.asset == AssetId(s.definition)
    && (forall n :: n in s.parts ==> PartFits(s.definition, n, s.parts[n]))
    && (s.ready.Some? ==>
          var r := s.ready.value;
          && ValidReceipt(rules, r) && r.project == s.project && r.target == s.target
          && r.definition == s.definition && r.asset == s.asset
          && |s.parts| == PartCount(s.definition.archiveBytes).value)
    && rules.stateBytes(s) <= MAX_METADATA - 4096
  }

  function RecordPart(rules: Rules, s: State, number: nat, part: PartRecord): Result<State, Invalid>
  {
    if !Valid(rules, s) || !PartFits(s.definition, number, part) then Err(Invalid)
    else if number in s.parts then if s.parts[number] == part then Ok(s) else Err(Invalid)
    else if s.ready.Some? then Err(Invalid)
    else
      var next := s.(parts := s.parts[number := part]);
      if Valid(rules, next) then Ok(next) else Err(Invalid)
  }

  function Publish(rules: Rules, s: State, receipt: Receipt): Result<State, Invalid>
  {
    if !Valid(rules, s) || (s.ready.Some? && s.ready.value != receipt) then Err(Invalid)
    else
      var next := s.(ready := Some(receipt));
      if Valid(rules, next) then Ok(next) else Err(Invalid)
  }

  /** Whether `next` is a later state of the same upload. */
  predicate Successor(rules: Rules, s: State, next: State)
  {
    && Valid(rules, s) && Valid(rules, next)
    && s.project == next.project && s.target == next.target && s.definition == next.definition
    && (forall n :: n in s.parts ==> n in next.parts && next.parts[n] == s.parts[n])
    && (s.ready.Some? ==> next.ready == s.ready)
  }

  /** Successors are a partial order on valid states. */
  lemma SuccessorIsOrder(rules: Rules, a: State, b: State, c: State)
    ensures Valid(rules, a) ==> Successor(rules, a, a)
    ensures Successor(rules, a, b) && Successor(rules, b, c) ==> Successor(rules, a, c)
    ensures Successor(rules, a, b) && Successor(rules, b, a) ==> a == b
  {
    if Successor(rules, a, b) && Successor(rules, b, a) {
      assert a.parts == b.parts;
    }
  }

  /** Recording and publishing only ever move to a successor, and do what they were asked. */
  lemma StepsAreSuccessors(rules: Rules, s: State, number: nat, part: PartRecord, receipt: Receipt)
    ensures RecordPart(rules, s, number, part).Ok? ==>
      var next := RecordPart(rules, s, number, part).value;
      Successor(rules, s, next) && number in next.parts && next.parts[number] == part && next.ready == s.ready
    ensures Publish(rules, s, receipt).Ok? ==>
      Successor(rules, s, Publish(rules, s, receipt).value)
      && Publish(rules, s, receipt).value.ready == Some(receipt)
  {
  }

  /** Whether the state still has room for this part. */
  predicate HasRoom(rules: Rules, s: State, number: nat, part: PartRecord)
  {
    rules.stateBytes(s.(parts := s.parts[number := part])) <= MAX_METADATA - 4096
  }

  /** A recording is accepted exactly when it is there already, as it is, or when it is the first of
      a part of this archive, of the right size, before the archive is ready and while there is room.
      So the same recording again is accepted and changes nothing. */
  lemma RecordIff(rules: Rules, s: State, number: nat, part: PartRecord)
    ensures RecordPart(rules, s, number, part).Ok? <==>
            Valid(rules, s) &&
            (Has(s.parts, number, part) ||
             (number !in s.parts && s.ready.None? && PartFits(s.definition, number, part)
              && HasRoom(rules, s, number, part)))
    ensures RecordPart(rules, s, number, part).Ok? ==>
            var next := RecordPart(rules, s, number, part).value;
            RecordPart(rules, next, number, part) == Ok(next) && (Has(s.parts, number, part) ==> next == s)
  {
  }

  function RecordAll(rules: Rules, s: State, records: seq<(nat, PartRecord)>): Result<State, Invalid>
    decreases |records|
  {
    if records == [] then Ok(s)
    else
      var next :- RecordPart(rules, s, records[0].0, records[0].1);
      RecordAll(rules, next, records[1..])
  }

  predicate Has(parts: map<nat, PartRecord>, n: nat, p: PartRecord) { n in parts && parts[n] == p }

  /** What a successful sequence of recordings leaves behind. */
  lemma {:induction false} RecordedExactly(
      rules: Rules, s: State, records: seq<(nat, PartRecord)>, n: nat, p: PartRecord)
    requires RecordAll(rules, s, records).Ok?
    ensures var t := RecordAll(rules, s, records).value;
            t == s.(parts := t.parts) && (Has(t.parts, n, p) <==> Has(s.parts, n, p) || (n, p) in records)
    decreases |records|
  {
    if records != [] {
      var next := RecordPart(rules, s, records[0].0, records[0].1).value;
      RecordedExactly(rules, next, records[1..], n, p);
      assert records == [records[0]] + records[1..];
      assert Has(next.parts, n, p) <==> Has(s.parts, n, p) || (n, p) == records[0];
    }
  }

  /** The same parts recorded in any two orders, and however often, give the same state. */
  lemma OrderDoesNotMatter(
      rules: Rules, s: State, a: seq<(nat, PartRecord)>, b: seq<(nat, PartRecord)>)
    requires RecordAll(rules, s, a).Ok? && RecordAll(rules, s, b).Ok?
    requires forall r :: r in a <==> r in b
    ensures RecordAll(rules, s, a) == RecordAll(rules, s, b)
  {
    var x, y := RecordAll(rules, s, a).value.parts, RecordAll(rules, s, b).value.parts;
    forall n, p ensures Has(x, n, p) <==> Has(y, n, p) {
      RecordedExactly(rules, s, a, n, p);
      RecordedExactly(rules, s, b, n, p);
    }
    RecordedExactly(rules, s, a, 0, PartRecord("", 0));
    RecordedExactly(rules, s, b, 0, PartRecord("", 0));
    forall n | n in x ensures n in y && y[n] == x[n] { assert Has(x, n, x[n]); }
    forall n | n in y ensures n in x { assert Has(y, n, y[n]); }
    assert x == y;
  }

  /** A state with fewer parts is written in no more bytes. */
  ghost predicate BytesGrow(rules: Rules)
  {
    forall s: State, t: State :: t == s.(parts := t.parts) && Within(s.parts, t.parts) ==>
      rules.stateBytes(s) <= rules.stateBytes(t)
  }

  predicate Within(a: map<nat, PartRecord>, b: map<nat, PartRecord>)
  {
    forall n :: n in a ==> n in b && a[n] == b[n]
  }

  /** On the way to a valid state. */
  ghost predicate Toward(rules: Rules, t: State, x: State)
  {
    && Valid(rules, t) && Valid(rules, x) && x == t.(parts := x.parts) && Within(t.parts, x.parts)
  }

  lemma TowardStep(rules: Rules, t: State, x: State, n: nat, p: PartRecord)
    requires BytesGrow(rules) && Toward(rules, t, x) && Has(x.parts, n, p)
    ensures RecordPart(rules, t, n, p).Ok? && Toward(rules, RecordPart(rules, t, n, p).value, x)
  {
    if t.ready.Some? {
      ReadyIsComplete(rules, t);
      ReadyIsComplete(rules, x);
      assert n in t.parts;
    } else if n !in t.parts {
      var next := t.(parts := t.parts[n := p]);
      assert Within(next.parts, x.parts) && x == next.(parts := x.parts);
      assert PartFits(x.definition, n, x.parts[n]);
      RecordIff(rules, t, n, p);
    }
  }

  lemma {:induction false} TowardAll(rules: Rules, t: State, x: State, records: seq<(nat, PartRecord)>)
    requires BytesGrow(rules) && Toward(rules, t, x)
    requires forall r :: r in records ==> Has(x.parts, r.0, r.1)
    ensures RecordAll(rules, t, records).Ok?
    decreases |records|
  {
    if records != [] {
      assert records[0] in records;
      TowardStep(rules, t, x, records[0].0, records[0].1);
      assert forall r :: r in records[1..] ==> r in records;
      TowardAll(rules, RecordPart(rules, t, records[0].0, records[0].1).value, x, records[1..]);
    }
  }

  lemma {:induction false} RecordedIsValid(rules: Rules, s: State, records: seq<(nat, PartRecord)>)
    requires Valid(rules, s) && RecordAll(rules, s, records).Ok?
    ensures Toward(rules, s, RecordAll(rules, s, records).value)
    decreases |records|
  {
    if records != [] {
      RecordedIsValid(rules, RecordPart(rules, s, records[0].0, records[0].1).value, records[1..]);
    }
  }

  /** If some parts can be recorded in one order, they can in every order, however often, and any of
      them alone; that the state has room does not depend on the order. */
  lemma AnyOrderSucceeds(
      rules: Rules, s: State, a: seq<(nat, PartRecord)>, b: seq<(nat, PartRecord)>)
    requires BytesGrow(rules) && Valid(rules, s) && RecordAll(rules, s, a).Ok?
    requires forall r :: r in b ==> r in a
    ensures RecordAll(rules, s, b).Ok?
  {
    var x := RecordAll(rules, s, a).value;
    RecordedIsValid(rules, s, a);
    forall r | r in b ensures Has(x.parts, r.0, r.1) {
      RecordedExactly(rules, s, a, r.0, r.1);
      assert (r.0, r.1) == r;
    }
    TowardAll(rules, s, x, b);
  }

  function Below(count: nat): (r: set<nat>)
    ensures |r| == count && forall n: nat :: n in r <==> n < count
  {
    if count == 0 then {} else Below(count - 1) + {count - 1}
  }

  /** Counting is enough: a valid state that is ready has exactly the parts 0 up to its count. */
  lemma ReadyIsComplete(rules: Rules, s: State)
    requires Valid(rules, s) && s.ready.Some?
    ensures forall n: nat :: n in s.parts <==> n < PartCount(s.definition.archiveBytes).value
  {
    var count := PartCount(s.definition.archiveBytes).value;
    forall n | n in s.parts ensures n in Below(count) {
      assert PartFits(s.definition, n, s.parts[n]);
    }
    assert |s.parts.Keys| == |s.parts|;
    SubsetSize(s.parts.Keys, Below(count));
  }
}
