/** Checkpoint manifests, the identity of a checkpoint, and the registry that gives each
    generation one identity for good. */
module Checkpoints {
  import opened Basics
  import opened Identity
  import opened JsonText
  import opened Sorting
  import opened Texts

  const MANIFEST_LIMIT := 262144
  const MAX_FILES := 20000
  const MAX_PATH_BYTES := 4096
  const MAX_GENERATION_BYTES := 128
  const MAX_BYTES := 0x8000_0000_0000_0000

  datatype Error = ManifestError | IdentityError | GenerationConflict | DocumentError

  datatype FileRecord = FileRecord(path: string, bytes: nat, sha256: string)

  /** The worker's ready marker. */
  datatype Ready = Ready(step: nat, files: seq<FileRecord>)

  datatype Manifest = Manifest(step: nat, files: seq<FileRecord>, generation: string)

  datatype Context = Context(project: string, runId: string, attemptId: string, sourceId: string, imageId: string,
    storageScope: string, stateRoot: string)

  /** What the identity is the digest of. */
  datatype Base = Base(context: Context, step: nat, files: seq<FileRecord>)

  /** What registering adds to a document. */
  datatype Registration = Registration(status: string, verification: string, registeredAt: string)

  /** A document as it is kept; registering it adds these fields and changes nothing else. */
  datatype Document = Document(schema: nat, base: Base, checkpointId: string, registration: Option<Registration>)

  function RegisteredAt(time: string): Registration { Registration("REGISTERED", "worker-sha256", time) }

  /** The SHA-256 of a base's canonical form. What is used of it is its shape, and where it is
      said, that it does not collide on the two bases compared. */
  type Digest = Base -> string

  ghost predicate GivesSha256(digest: Digest) { forall b :: IsSha256(digest(b)) }

  predicate Collides(digest: Digest, a: Base, b: Base) { digest(a) == digest(b) && a != b }

  // ----- Manifests -----

  predicate PlainText(s: string, limit: nat) { s != "" && Utf8Length(s) <= limit && '\\' !in s && 0 as char !in s }

  predicate IsGeneration(s: string)
  {
    0 < |s| <= MAX_GENERATION_BYTES && IsAlphanumeric(s[0]) && forall i :: 0 <= i < |s| ==> IsAlphanumeric(s[i]) || s[i] in "_.-"
  }

  /** No part is empty or starts with a dot. */
  predicate PlainParts(parts: seq<string>)
  {
    parts == [] || (parts[0] != "" && parts[0][0] != '.' && PlainParts(parts[1..]))
  }

  /** The generation a checkpoint path lies in. */
  function GenerationOf(path: string): Option<string>
  {
    var parts := SplitSlash(path);
    if !PlainText(path, MAX_PATH_BYTES) || |parts| < 3 then None
    else if !PlainParts(parts) then None
    else if parts[0] != "checkpoints" || !IsGeneration(parts[1]) then None
    else Some(parts[1])
  }

  /** The paths of a generation: under `checkpoints/`, then its name, then at least one part more; and no
      part is empty or starts with a dot. */
  lemma GenerationIff(path: string, generation: string)
    ensures var parts := SplitSlash(path);
      GenerationOf(path) == Some(generation) <==>
      && PlainText(path, MAX_PATH_BYTES) && IsGeneration(generation)
      && |parts| >= 3 && parts[0] == "checkpoints" && parts[1] == generation
      && forall i :: 0 <= i < |parts| ==> parts[i] != "" && parts[i][0] != '.'
  {
    PlainPartsIff(SplitSlash(path));
  }

  lemma {:induction false} PlainPartsIff(parts: seq<string>)
    ensures PlainParts(parts) <==> forall i :: 0 <= i < |parts| ==> parts[i] != "" && parts[i][0] != '.'
  {
    if parts != [] {
      PlainPartsIff(parts[1..]);
      assert parts == [parts[0]] + parts[1..];
    }
  }

  predicate ValidRow(f: FileRecord)
  {
    GenerationOf(f.path).Some? && f.bytes < MAX_BYTES && IsSha256(f.sha256)
  }

  function PathOrder(): FileRecord -> string { (f: FileRecord) => f.path }

  /** The length of a row's JSON text, its braces, keys and punctuation included. */
  function Weight(f: FileRecord): nat { 28 + Utf8Length(Quote(f.path)) + |Decimal(f.bytes)| + Utf8Length(Quote(f.sha256)) }

  function Weights(files: seq<FileRecord>): nat { if files == [] then 0 else Weight(files[0]) + Weights(files[1..]) }

  function EncodedLength(ready: Ready): nat
  {
    20 + |Decimal(ready.step)| + Weights(ready.files) + if ready.files == [] then 0 else |ready.files| - 1
  }

  /** The generations of the rows; a row outside any counts as one. */
  function Generations(files: seq<FileRecord>): set<Option<string>>
  {
    if files == [] then {} else Generations(files[..|files| - 1]) + {GenerationOf(files[|files| - 1].path)}
  }

  /** What a ready marker must be, whatever the order of its rows. */
  ghost predicate Acceptable(ready: Ready, generation: string)
  {
    && EncodedLength(ready) <= MANIFEST_LIMIT && ready.step <= U64_MAX && 0 < |ready.files| <= MAX_FILES
    && ValidRows(ready.files) && Generations(ready.files) == {Some(generation)}
  }

  /** Every row right by itself, with a path of its own. */
  predicate ValidRows(files: seq<FileRecord>)
  {
    files == [] ||
    (var front, last := files[..|files| - 1], files[|files| - 1];
     ValidRows(front) && ValidRow(last) && last.path !in Keys(PathOrder(), front))
  }

  ghost function ManifestOf(ready: Ready): Result<Manifest, Error>
  {
    if ready.files != [] && GenerationOf(ready.files[0].path).Some? && Acceptable(ready, GenerationOf(ready.files[0].path).value)
    then Ok(Manifest(ready.step, Sort(PathOrder(), ready.files), GenerationOf(ready.files[0].path).value))
    else Err(ManifestError)
  }

  lemma {:induction false} GenerationsAre(files: seq<FileRecord>)
    ensures forall g :: g in Generations(files) <==> exists i :: 0 <= i < |files| && GenerationOf(files[i].path) == g
  {
    if files != [] {
      GenerationsAre(files[..|files| - 1]);
      assert files == files[..|files| - 1] + [files[|files| - 1]];
    }
  }

  lemma Single<T>(s: set<T>, x: T)
    requires x in s
    ensures |s| == 1 <==> s <= {x}
  {
    assert s == {x} + (s - {x});
  }

  lemma {:induction false} ValidIsEach(files: seq<FileRecord>)
    ensures ValidRows(files) <==> (forall f :: f in files ==> ValidRow(f)) && Distinct(PathOrder(), files)
  {
    if files != [] {
      var front, last := files[..|files| - 1], files[|files| - 1];
      ValidIsEach(front);
      assert files == front + [last];
      DistinctAppend(PathOrder(), front, last);
    }
  }

  lemma {:induction false} ValidPrefix(files: seq<FileRecord>, n: nat)
    requires ValidRows(files) && n <= |files|
    ensures ValidRows(files[..n])
  {
    if n < |files| {
      var front := files[..|files| - 1];
      assert ValidRows(front);
      ValidPrefix(front, n);
      assert files[..n] == front[..n];
    } else {
      assert files[..n] == files;
    }
  }

  lemma ValidStep(files: seq<FileRecord>, i: nat)
    requires i < |files|
    ensures Keys(PathOrder(), files[..i + 1]) == Keys(PathOrder(), files[..i]) + {files[i].path}
    ensures ValidRows(files[..i + 1]) <==>
            ValidRows(files[..i]) && ValidRow(files[i]) && files[i].path !in Keys(PathOrder(), files[..i])
    ensures Generations(files[..i + 1]) == Generations(files[..i]) + {GenerationOf(files[i].path)}
  {
    assert files[..i + 1] == files[..i] + [files[i]];
    assert files[..i + 1][..i] == files[..i];
    KeysAppend(PathOrder(), files[..i], files[i]);
  }

  /** Reads the rows one by one: each must be right by itself, with a path of its own. */
  method ReadRows(rows: seq<FileRecord>) returns (generations: Option<set<Option<string>>>)
    ensures generations == if ValidRows(rows) then Some(Generations(rows)) else None
  {
    var seen: set<string>, found: set<Option<string>> := {}, {};
    for i := 0 to |rows|
      invariant ValidRows(rows[..i])
      invariant seen == Keys(PathOrder(), rows[..i])
      invariant found == Generations(rows[..i])
    {
      ValidStep(rows, i);
      if !ValidRow(rows[i]) || rows[i].path in seen {
        if ValidRows(rows) {
          ValidPrefix(rows, i + 1);
        }
        return None;
      }
      seen := seen + {rows[i].path};
      found := found + {GenerationOf(rows[i].path)};
    }
    assert rows[..|rows|] == rows;
    return Some(found);
  }

  lemma {:induction false} EachGeneration(files: seq<FileRecord>, i: nat)
    requires i < |files|
    ensures GenerationOf(files[i].path) in Generations(files)
  {
    if i < |files| - 1 {
      EachGeneration(files[..|files| - 1], i);
    }
  }

  /** Reads a ready marker: its rows in path order, and their one generation. */
  method ReadManifest(ready: Ready) returns (r: Result<Manifest, Error>)
    ensures r == ManifestOf(ready)
  {
    if EncodedLength(ready) > MANIFEST_LIMIT || ready.step > U64_MAX || ready.files == [] || |ready.files| > MAX_FILES {
      return Err(ManifestError);
    }
    var generations := ReadRows(ready.files);
    var first := GenerationOf(ready.files[0].path);
    if generations.None? {
      return Err(ManifestError);
    }
    EachGeneration(ready.files, 0);
    Single(generations.value, first);
    if |generations.value| != 1 || first.None? {
      return Err(ManifestError);
    }
    return Ok(Manifest(ready.step, Sort(PathOrder(), ready.files), first.value));
  }

  // ----- The order of the rows -----

  /** Taking one file out keeps the first one and takes it out of the tail. */
  lemma OthersOfTail(files: seq<FileRecord>, i: nat)
    requires 0 < i < |files|
    ensures var others := files[..i] + files[i + 1..];
            others[0] == files[0] && others[1..] == files[1..][..i - 1] + files[1..][i..]
  {
  }

  lemma {:induction false} WeightsSplit(files: seq<FileRecord>, i: nat)
    requires i < |files|
    ensures Weights(files) == Weight(files[i]) + Weights(files[..i] + files[i + 1..])
  {
    if i == 0 {
      assert files[..0] + files[1..] == files[1..];
    } else {
      WeightsSplit(files[1..], i - 1);
      OthersOfTail(files, i);
    }
  }

  lemma WithoutOne(files: seq<FileRecord>, i: nat)
    requires i < |files|
    ensures multiset(files[..i] + files[i + 1..]) == multiset(files) - multiset{files[i]}
  {
    assert files == files[..i] + [files[i]] + files[i + 1..];
  }

  lemma WithoutFirst(files: seq<FileRecord>)
    requires files != []
    ensures multiset(files[1..]) == multiset(files) - multiset{files[0]}
  {
    assert files == [files[0]] + files[1..];
  }

  lemma IndexIn(files: seq<FileRecord>, f: FileRecord) returns (i: nat)
    requires f in multiset(files)
    ensures i < |files| && files[i] == f
  {
    i :| 0 <= i < |files| && files[i] == f;
  }

  /** The second list without the first's first row. */
  lemma RemoveFirst(a: seq<FileRecord>, b: seq<FileRecord>) returns (rest: seq<FileRecord>)
    requires multiset(a) == multiset(b) && a != []
    ensures multiset(rest) == multiset(a[1..])
    ensures Weights(b) == Weight(a[0]) + Weights(rest)
  {
    assert a[0] in multiset(a);
    var i := IndexIn(b, a[0]);
    WeightsSplit(b, i);
    WithoutOne(b, i);
    WithoutFirst(a);
    rest := b[..i] + b[i + 1..];
  }

  lemma {:induction false} WeightsForgetOrder(a: seq<FileRecord>, b: seq<FileRecord>)
    requires multiset(a) == multiset(b)
    ensures Weights(a) == Weights(b) && |a| == |b|
    decreases |a|
  {
    assert |multiset(a)| == |multiset(b)|;
    if a != [] {
      var rest := RemoveFirst(a, b);
      WeightsForgetOrder(a[1..], rest);
    }
  }

  lemma MembersForgetOrder(a: seq<FileRecord>, b: seq<FileRecord>)
    requires multiset(a) == multiset(b)
    ensures forall f :: f in a <==> f in b
  {
    forall f ensures f in a <==> f in b {
      assert f in multiset(a) <==> f in multiset(b);
    }
  }

  lemma GenerationsForgetOrder(a: seq<FileRecord>, b: seq<FileRecord>)
    requires forall f :: f in a <==> f in b
    ensures Generations(a) == Generations(b)
  {
    assert forall i :: 0 <= i < |a| ==> a[i] in b;
    assert forall j :: 0 <= j < |b| ==> b[j] in a;
    forall i | 0 <= i < |a| ensures GenerationOf(a[i].path) in Generations(b) {
      var j :| 0 <= j < |b| && b[j] == a[i];
      EachGeneration(b, j);
    }
    forall j | 0 <= j < |b| ensures GenerationOf(b[j].path) in Generations(a) {
      var i :| 0 <= i < |a| && a[i] == b[j];
      EachGeneration(a, i);
    }
    GenerationsAre(a);
    GenerationsAre(b);
  }

  lemma AcceptableForgetsOrder(a: Ready, b: Ready, generation: string)
    requires a.step == b.step && multiset(a.files) == multiset(b.files) && Acceptable(a, generation)
    ensures Acceptable(b, generation)
  {
    WeightsForgetOrder(a.files, b.files);
    MembersForgetOrder(a.files, b.files);
    ValidIsEach(a.files);
    ValidIsEach(b.files);
    PermutedDistinct(PathOrder(), a.files, b.files);
    GenerationsForgetOrder(a.files, b.files);
  }

  /** A manifest does not depend on the order of its file rows. */
  lemma ManifestForgetsOrder(a: Ready, b: Ready)
    requires a.step == b.step && multiset(a.files) == multiset(b.files) && ManifestOf(a).Ok?
    ensures ManifestOf(b) == ManifestOf(a)
  {
    var generation := ManifestOf(a).value.generation;
    AcceptableForgetsOrder(a, b, generation);
    WeightsForgetOrder(a.files, b.files);
    EachGeneration(b.files, 0);
    ValidIsEach(a.files);
    SortForgetsOrder(PathOrder(), a.files, b.files);
  }

  // ----- Documents -----

  predicate ValidContext(c: Context)
  {
    && ValidId(c.project) && ValidId(c.runId) && ValidAttempt(c.attemptId)
    && PlainText(c.project, 128) && PlainText(c.runId, 128) && PlainText(c.attemptId, 128)
    && PlainText(c.sourceId, 128) && "source." <= c.sourceId && IsSha256(c.sourceId[7..])
    && PlainText(c.imageId, 512) && PlainText(c.storageScope, 256) && PlainText(c.stateRoot, 4096)
    && c.stateRoot[0] == '/' && ".." !in SplitSlash(c.stateRoot)
  }

  predicate ValidCheckpointId(s: string) { "checkpoint." <= s && IsSha256(s[11..]) }

  function IdOf(digest: Digest, b: Base): (id: string)
    ensures |id| >= 11 && id[..11] == "checkpoint." && id[11..] == digest(b)
  {
    "checkpoint." + digest(b)
  }

  ghost function DocumentOf(digest: Digest, context: Context, ready: Ready): Result<Document, Error>
  {
    if !ValidContext(context) then Err(IdentityError)
    else
      var manifest :- ManifestOf(ready);
      var base := Base(context, manifest.step, manifest.files);
      Ok(Document(1, base, IdOf(digest, base), None))
  }

  ghost function Validate(digest: Digest, d: Document, context: Option<Context>, id: Option<string>):
    Result<(Context, Manifest), Error>
  {
    if d.schema != 1 || !ValidCheckpointId(d.checkpointId) then Err(DocumentError)
    else if !ValidContext(d.base.context) then Err(IdentityError)
    else if context.Some? && context.value != d.base.context then Err(DocumentError)
    else if id.Some? && id.value != d.checkpointId then Err(DocumentError)
    else
      var ready := Ready(d.base.step, d.base.files);
      var manifest :- ManifestOf(ready);
      var expected :- DocumentOf(digest, d.base.context, ready);
      if expected.checkpointId != d.checkpointId then Err(DocumentError) else Ok((d.base.context, manifest))
  }

  /** The identity is that of the context, the step and the set of files. */
  lemma IdentityIsContent(digest: Digest, c: Context, a: Ready, d: Context, b: Ready)
    requires DocumentOf(digest, c, a).Ok? && DocumentOf(digest, d, b).Ok?
    requires !Collides(digest, DocumentOf(digest, c, a).value.base, DocumentOf(digest, d, b).value.base)
    ensures DocumentOf(digest, c, a).value.checkpointId == DocumentOf(digest, d, b).value.checkpointId <==>
            c == d && a.step == b.step && multiset(a.files) == multiset(b.files)
  {
    var x, y := DocumentOf(digest, c, a).value.base, DocumentOf(digest, d, b).value.base;
    if IdOf(digest, x) == IdOf(digest, y) {
      assert digest(x) == digest(y);
    }
    if a.step == b.step && multiset(a.files) == multiset(b.files) {
      ManifestForgetsOrder(a, b);
    }
  }

  /** Rows already in order make the same manifest. */
  lemma SortedManifest(ready: Ready)
    requires ManifestOf(ready).Ok?
    ensures ManifestOf(Ready(ready.step, ManifestOf(ready).value.files)) == ManifestOf(ready)
  {
    ManifestForgetsOrder(ready, Ready(ready.step, Sort(PathOrder(), ready.files)));
  }

  /** Validating a document gives back the context and the sorted manifest it was built from,
      registered or not, unless another context or identity was asked for. */
  lemma ValidateUndoesDocument(
      digest: Digest, c: Context, ready: Ready, added: Option<Registration>, context: Option<Context>, id: Option<string>)
    requires GivesSha256(digest) && DocumentOf(digest, c, ready).Ok?
    ensures var d := DocumentOf(digest, c, ready).value.(registration := added);
      Validate(digest, d, context, id) ==
      if (context.Some? && context.value != c) || (id.Some? && id.value != d.checkpointId) then Err(DocumentError)
      else Ok((c, ManifestOf(ready).value))
  {
    SortedManifest(ready);
    assert IsSha256(digest(DocumentOf(digest, c, ready).value.base));
  }

  /** Only a document that says what its identity says is valid: two valid documents have one
      identity just when they are of the same context, step and set of files. */
  lemma ValidMeansBuilt(digest: Digest, d: Document, e: Document)
    requires Validate(digest, d, None, None).Ok? && Validate(digest, e, None, None).Ok?
    requires !Collides(digest, Sorted(d.base), Sorted(e.base))
    ensures d.checkpointId == e.checkpointId <==>
            d.base.context == e.base.context && d.base.step == e.base.step &&
            multiset(d.base.files) == multiset(e.base.files)
  {
    IdentityIsContent(digest, d.base.context, Ready(d.base.step, d.base.files), e.base.context, Ready(e.base.step, e.base.files));
  }

  function Sorted(b: Base): Base { b.(files := Sort(PathOrder(), b.files)) }

  // ----- The registry of a Run's checkpoints -----

  method ValidateDocument(digest: Digest, d: Document) returns (r: Result<(Context, Manifest), Error>)
    ensures r == Validate(digest, d, None, None)
  {
    if d.schema != 1 || !ValidCheckpointId(d.checkpointId) {
      return Err(DocumentError);
    }
    if !ValidContext(d.base.context) {
      return Err(IdentityError);
    }
    var manifest := ReadManifest(Ready(d.base.step, d.base.files));
    if manifest.Err? {
      return Err(manifest.error);
    }
    if IdOf(digest, Base(d.base.context, manifest.value.step, manifest.value.files)) != d.checkpointId {
      return Err(DocumentError);
    }
    return Ok((d.base.context, manifest.value));
  }

  /** The generation of a valid document, and its identity. */
  ghost function Binding(digest: Digest, d: Document): Option<(string, string)>
  {
    var valid := Validate(digest, d, None, None);
    if valid.Ok? then Some((valid.value.1.generation, d.checkpointId)) else None
  }

  method BindingOf(digest: Digest, d: Document) returns (b: Option<(string, string)>)
    ensures b == Binding(digest, d)
  {
    var valid := ValidateDocument(digest, d);
    return if valid.Ok? then Some((valid.value.1.generation, d.checkpointId)) else None;
  }

  ghost function Bindings(digest: Digest, rows: seq<Document>): seq<Option<(string, string)>>
  {
    if rows == [] then [] else Bindings(digest, rows[..|rows| - 1]) + [Binding(digest, rows[|rows| - 1])]
  }

  /** Both valid, and one identity if they are of one generation. */
  predicate Agree(a: Option<(string, string)>, b: Option<(string, string)>)
  {
    a.Some? && b.Some? && (a.value.0 == b.value.0 ==> a.value.1 == b.value.1)
  }

  predicate OneIdentityEach(bindings: seq<Option<(string, string)>>)
  {
    forall i, j :: 0 <= i < |bindings| && 0 <= j < |bindings| ==> Agree(bindings[i], bindings[j])
  }

  lemma {:induction false} BindingsAre(digest: Digest, rows: seq<Document>, i: nat)
    requires i < |rows|
    ensures |Bindings(digest, rows)| == |rows| && Bindings(digest, rows)[i] == Binding(digest, rows[i])
  {
    if i < |rows| - 1 {
      BindingsAre(digest, rows[..|rows| - 1], i);
    } else if i > 0 {
      BindingsAre(digest, rows[..|rows| - 1], 0);
    }
  }

  /** The candidate is valid and no row, valid as they all are, gives its generation another
      identity. */
  ghost predicate Compatible(digest: Digest, rows: seq<Document>, candidate: Document)
  {
    && Binding(digest, candidate).Some?
    && forall b :: b in Bindings(digest, rows) ==> Agree(b, Binding(digest, candidate))
  }

  /** Looks at every registered row: all must be valid, and of the same generation only with
      the same identity. */
  method EnsureGenerationCompatible(digest: Digest, rows: seq<Document>, candidate: Document) returns (ok: bool)
    ensures ok <==> Compatible(digest, rows, candidate)
  {
    var binding := BindingOf(digest, candidate);
    if binding.None? {
      return false;
    }
    for i := 0 to |rows|
      invariant forall b :: b in Bindings(digest, rows[..i]) ==> Agree(b, binding)
    {
      assert rows[..i + 1][..i] == rows[..i];
      var existing := BindingOf(digest, rows[i]);
      if !Agree(existing, binding) {
        BindingsAre(digest, rows, i);
        return false;
      }
    }
    assert rows[..|rows|] == rows;
    return true;
  }

  lemma OneMoreAgrees(bindings: seq<Option<(string, string)>>, b: Option<(string, string)>)
    requires OneIdentityEach(bindings) && b.Some? && forall c :: c in bindings ==> Agree(c, b)
    ensures OneIdentityEach(bindings + [b])
  {
    var all := bindings + [b];
    forall i, j | 0 <= i < |all| && 0 <= j < |all| ensures Agree(all[i], all[j]) {
      assert i < |bindings| ==> all[i] in bindings;
      assert j < |bindings| ==> all[j] in bindings;
    }
  }

  lemma MoreBindings(digest: Digest, rows: seq<Document>, row: Document)
    requires OneIdentityEach(Bindings(digest, rows)) && Binding(digest, row).Some?
    requires forall b :: b in Bindings(digest, rows) ==> Agree(b, Binding(digest, row))
    ensures OneIdentityEach(Bindings(digest, rows + [row]))
  {
    assert (rows + [row])[..|rows|] == rows;
    OneMoreAgrees(Bindings(digest, rows), Binding(digest, row));
  }

  lemma RegisteringChangesNothing(digest: Digest, d: Document, added: Registration)
    ensures Binding(digest, d.(registration := Some(added))) == Binding(digest, d)
  {
  }

  /** The checkpoints registered so far. */
  class Registry {
    const digest: Digest
    /** Whether a timestamp is one by RFC 3339. */
    const rfc3339: string -> bool
    var rows: seq<Document>

    constructor (digest: Digest, rfc3339: string -> bool)
      ensures this.digest == digest && this.rfc3339 == rfc3339 && rows == [] && Valid()
    {
      this.digest, this.rfc3339 := digest, rfc3339;
      rows := [];
    }

    /** All valid, with one identity for each generation. */
    ghost predicate Valid()
      reads this
    {
      OneIdentityEach(Bindings(digest, rows))
    }

    /** Registers a document, unless its generation already has another identity or the time is
        not one. */
    method Register(candidate: Document, time: string) returns (ok: bool)
      requires Valid()
      modifies this`rows
      ensures Valid()
      ensures rows == old(rows) + if ok then [candidate.(registration := Some(RegisteredAt(time)))] else []
      ensures ok <==> rfc3339(time) && Compatible(digest, old(rows), candidate)
    {
      ok := EnsureGenerationCompatible(digest, rows, candidate);
      ok := ok && rfc3339(time);
      if ok {
        var row := candidate.(registration := Some(RegisteredAt(time)));
        RegisteringChangesNothing(digest, candidate, RegisteredAt(time));
        MoreBindings(digest, rows, row);
        rows := rows + [row];
      }
    }

    /** Any documents offered in any order: whatever identity a generation has, it keeps, and
        no other one ever gets in. */
    method RegisterAll(candidates: seq<Document>, time: string)
      requires Valid()
      modifies this`rows
      ensures Valid() && old(rows) <= rows
    {
      for k := 0 to |candidates|
        invariant Valid() && old(rows) <= rows
      {
        var ok := Register(candidates[k], time);
      }
    }
  }
}
