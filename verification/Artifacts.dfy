/** Proofs of a downloaded result archive, and the retention that follows from one. */
module Artifacts {
  import opened Basics
  import opened Identity
  import opened Texts

  const MAX_PATH := 4096
  const MAX_FILES := 20000

  datatype Error = IdentityError | ReceiptError | ProofConflict | Unavailable | TransitionError

  datatype FileReceipt = FileReceipt(path: string, bytes: nat, sha256: string)

  datatype Receipt = Receipt(
    project: string, runId: string, attemptId: string, sha256: string, bytes: nat, files: seq<FileReceipt>, objectKey: string)

  /** What a client says it holds: each archived file under its path in the archive. */
  datatype Proof = Proof(archiveSha256: string, archiveBytes: nat, files: map<string, FileReceipt>)

  /** Whether the JSON texts of a receipt and of a proof are short enough, and what instant a
      timestamp names. */
  datatype Rules = Rules(receiptFits: Receipt -> bool, proofFits: Proof -> bool, instant: string -> Option<int>)

  // ----- Receipts -----

  predicate PlainPart(part: string) { part != "" && part != "." && part != ".." }

  predicate PlainParts(parts: seq<string>) { parts == [] || (PlainPart(parts[0]) && PlainParts(parts[1..])) }

  predicate ReceiptPath(s: string)
  {
    s != "" && Utf8Length(s) <= MAX_PATH && '\\' !in s && 0 as char !in s && PlainParts(SplitSlash(s))
  }

  function Paths(files: seq<FileReceipt>): (r: set<string>)
    ensures |r| <= |files|
  {
    if files == [] then {} else Paths(files[..|files| - 1]) + {files[|files| - 1].path}
  }

  /** Every row right by itself, with a path of its own. */
  predicate ValidFiles(files: seq<FileReceipt>)
  {
    files == [] ||
    (var front, last := files[..|files| - 1], files[|files| - 1];
     ValidFiles(front) && ValidFile(last) && last.path !in Paths(front))
  }

  predicate ValidFile(f: FileReceipt) { ReceiptPath(f.path) && IsSha256(f.sha256) }

  function ObjectKey(r: Receipt): string { r.project + "/" + r.runId + "/" + r.attemptId + "/" + r.sha256 + ".tar" }

  predicate ValidIdentity(r: Receipt) { ValidId(r.project) && ValidId(r.runId) && ValidAttempt(r.attemptId) }

  predicate ValidReceipt(rules: Rules, r: Receipt)
  {
    && ValidIdentity(r) && r.bytes != 0 && IsSha256(r.sha256) && |r.files| <= MAX_FILES && ValidFiles(r.files)
    && r.objectKey == ObjectKey(r) && rules.receiptFits(r)
  }

  lemma {:induction false} ValidPrefix(files: seq<FileReceipt>, n: nat)
    requires ValidFiles(files) && n <= |files|
    ensures ValidFiles(files[..n])
  {
    if n < |files| {
      ValidPrefix(files[..|files| - 1], n);
      assert files[..n] == files[..|files| - 1][..n];
    } else {
      assert files[..n] == files;
    }
  }

  lemma ValidStep(files: seq<FileReceipt>, i: nat)
    requires i < |files|
    ensures Paths(files[..i + 1]) == Paths(files[..i]) + {files[i].path}
    ensures ValidFiles(files[..i + 1]) <==>
            ValidFiles(files[..i]) && ValidFile(files[i]) && files[i].path !in Paths(files[..i])
    ensures ValidFiles(files) ==> ValidFiles(files[..i + 1])
  {
    assert files[..i + 1][..i] == files[..i];
    if ValidFiles(files) {
      ValidPrefix(files, i + 1);
    }
  }

  method ValidateFiles(files: seq<FileReceipt>) returns (valid: bool)
    ensures valid == ValidFiles(files)
  {
    var paths: set<string> := {};
    for i := 0 to |files|
      invariant ValidFiles(files[..i]) && paths == Paths(files[..i])
    {
      ValidStep(files, i);
      if !ValidFile(files[i]) || files[i].path in paths {
        return false;
      }
      paths := paths + {files[i].path};
    }
    assert files[..|files|] == files;
    return true;
  }

  method ValidateReceipt(rules: Rules, r: Receipt) returns (error: Option<Error>)
    ensures error == if !ValidIdentity(r) then Some(IdentityError) else if ValidReceipt(rules, r) then None else Some(ReceiptError)
  {
    if !ValidIdentity(r) {
      return Some(IdentityError);
    }
    if r.bytes == 0 || !IsSha256(r.sha256) || |r.files| > MAX_FILES {
      return Some(ReceiptError);
    }
    var valid := ValidateFiles(r.files);
    return if valid && r.objectKey == ObjectKey(r) && rules.receiptFits(r) then None else Some(ReceiptError);
  }

  // ----- Proofs -----

  function Inside(path: string): string { "outputs/" + path }

  /** The files a proof must have: those of the receipt, each under `outputs/`. */
  function Outputs(files: seq<FileReceipt>): map<string, FileReceipt>
  {
    if files == [] then map[]
    else Outputs(files[..|files| - 1])[Inside(files[|files| - 1].path) := files[|files| - 1]]
  }

  lemma InsideDiffers(a: string, b: string)
    ensures Inside(a) == Inside(b) <==> a == b
  {
    assert Inside(a)[8..] == a && Inside(b)[8..] == b;
  }

  lemma {:induction false} OutputsAre(files: seq<FileReceipt>)
    requires ValidFiles(files)
    ensures |Outputs(files)| == |files|
    ensures forall p :: Inside(p) in Outputs(files) <==> p in Paths(files)
  {
    if files != [] {
      var front, last := files[..|files| - 1], files[|files| - 1];
      OutputsAre(front);
      assert Inside(last.path) !in Outputs(front);
      forall p ensures Inside(p) in Outputs(files) <==> p in Paths(files) {
        InsideDiffers(p, last.path);
      }
    }
  }

  /** Every file is there, under its path in the archive. */
  predicate Held(files: seq<FileReceipt>, held: map<string, FileReceipt>)
  {
    files == [] ||
    (var front, last := files[..|files| - 1], files[|files| - 1];
     Held(front, held) && Inside(last.path) in held && held[Inside(last.path)] == last)
  }

  lemma {:induction false} HeldPrefix(files: seq<FileReceipt>, held: map<string, FileReceipt>, n: nat)
    requires Held(files, held) && n <= |files|
    ensures Held(files[..n], held)
  {
    if n < |files| {
      HeldPrefix(files[..|files| - 1], held, n);
      assert files[..n] == files[..|files| - 1][..n];
    } else {
      assert files[..n] == files;
    }
  }

  lemma {:induction false} HeldIsOutputs(files: seq<FileReceipt>, held: map<string, FileReceipt>)
    requires ValidFiles(files)
    ensures Held(files, held) <==> forall k :: k in Outputs(files) ==> k in held && held[k] == Outputs(files)[k]
  {
    if files != [] {
      var front, last := files[..|files| - 1], files[|files| - 1];
      HeldIsOutputs(front, held);
      OutputsAre(front);
      assert Inside(last.path) !in Outputs(front);
      assert forall k :: k in Outputs(front) ==> k in Outputs(files) && Outputs(files)[k] == Outputs(front)[k];
    }
  }

  /** The count makes the difference between holding the files and holding only them. */
  lemma CountMeansExact(files: seq<FileReceipt>, held: map<string, FileReceipt>)
    requires ValidFiles(files)
    ensures |held| == |files| && Held(files, held) <==> held == Outputs(files)
  {
    HeldIsOutputs(files, held);
    OutputsAre(files);
    if |held| == |files| && Held(files, held) {
      assert |held.Keys| == |held| && |Outputs(files).Keys| == |Outputs(files)|;
      SubsetSize(Outputs(files).Keys, held.Keys);
    }
  }

  method CheckHeld(files: seq<FileReceipt>, held: map<string, FileReceipt>) returns (all: bool)
    ensures all == Held(files, held)
  {
    for i := 0 to |files|
      invariant Held(files[..i], held)
    {
      assert files[..i + 1][..i] == files[..i];
      if Inside(files[i].path) !in held || held[Inside(files[i].path)] != files[i] {
        if Held(files, held) {
          HeldPrefix(files, held, i + 1);
        }
        return false;
      }
    }
    assert files[..|files|] == files;
    return true;
  }

  /** A proof is accepted just when its file map is the receipt's files under `outputs/`, with
      nothing more and nothing less. */
  predicate Proves(rules: Rules, r: Receipt, proof: Proof)
  {
    && ValidReceipt(rules, r) && proof.archiveSha256 == r.sha256 && proof.archiveBytes == r.bytes
    && proof.files == Outputs(r.files) && rules.proofFits(proof)
  }

  method ProofMatches(rules: Rules, r: Receipt, proof: Proof) returns (error: Option<Error>)
    ensures error.None? <==> Proves(rules, r, proof)
    ensures error == Some(ProofConflict) <==> ValidReceipt(rules, r) && !Proves(rules, r, proof)
  {
    var invalid := ValidateReceipt(rules, r);
    if invalid.Some? {
      return invalid;
    }
    CountMeansExact(r.files, proof.files);
    if proof.archiveSha256 != r.sha256 || proof.archiveBytes != r.bytes || |proof.files| != |r.files| {
      return Some(ProofConflict);
    }
    var all := CheckHeld(r.files, proof.files);
    return if all && rules.proofFits(proof) then None else Some(ProofConflict);
  }

  // ----- Retention -----

  datatype Status = Keep | Scheduled | Releasing | Released

  datatype Retention = Retention(status: Status, sha256: string, releaseAfter: Option<string>, releasedAt: Option<string>)

  function Instant(rules: Rules, s: string): Option<int>
  {
    if s == "" || Utf8Length(s) > 128 then None else rules.instant(s)
  }

  predicate HasInstant(rules: Rules, s: Option<string>) { s.Some? && Instant(rules, s.value).Some? }

  predicate ValidRetention(rules: Rules, r: Retention, sha256: string)
  {
    && r.sha256 == sha256 && IsSha256(r.sha256)
    && match r.status
       case Keep => r.releaseAfter.None? && r.releasedAt.None?
       case Scheduled => HasInstant(rules, r.releaseAfter) && r.releasedAt.None?
       case Releasing => HasInstant(rules, r.releaseAfter) && r.releasedAt.None?
       case Released => HasInstant(rules, r.releaseAfter) && HasInstant(rules, r.releasedAt)
  }

  function Acknowledge(rules: Rules, receipt: Receipt, proof: Proof, verifiedAt: string, release: bool): Result<Retention, Error>
  {
    if !ValidReceipt(rules, receipt) then Err(if ValidIdentity(receipt) then ReceiptError else IdentityError)
    else if !Proves(rules, receipt, proof) || Instant(rules, verifiedAt).None? then Err(ProofConflict)
    else Ok(Retention(if release then Scheduled else Keep, receipt.sha256, if release then Some(verifiedAt) else None, None))
  }

  function BeginRelease(rules: Rules, receipt: Receipt, r: Retention): Result<Retention, Error>
  {
    if !ValidReceipt(rules, receipt) then Err(if ValidIdentity(receipt) then ReceiptError else IdentityError)
    else if !ValidRetention(rules, r, receipt.sha256) then Err(TransitionError)
    else
      match r.status
      case Keep => Err(Unavailable)
      case Released => Ok(r)
      case _ => Ok(r.(status := Releasing))
  }

  function FinishRelease(rules: Rules, receipt: Receipt, r: Retention, releasedAt: string): Result<Retention, Error>
  {
    if !ValidReceipt(rules, receipt) then Err(if ValidIdentity(receipt) then ReceiptError else IdentityError)
    else if !ValidRetention(rules, r, receipt.sha256) || !r.status.Releasing? then Err(TransitionError)
    else if Instant(rules, releasedAt).None? then Err(TransitionError)
    else if Instant(rules, releasedAt).value < Instant(rules, r.releaseAfter.value).value then Err(TransitionError)
    else Ok(r.(status := Released, releasedAt := Some(releasedAt)))
  }

  /** Every file of the receipt is held under `outputs/` with its hash and size, and nothing else is. */
  ghost predicate ExactlyHeld(files: seq<FileReceipt>, held: map<string, FileReceipt>)
  {
    && (forall i :: 0 <= i < |files| ==> Inside(files[i].path) in held && held[Inside(files[i].path)] == files[i])
    && (forall path :: path in held ==> exists i :: 0 <= i < |files| && path == Inside(files[i].path))
  }

  lemma {:induction false} OutputPaths(files: seq<FileReceipt>, path: string) returns (i: nat)
    requires path in Outputs(files)
    ensures i < |files| && path == Inside(files[i].path)
  {
    i := |files| - 1;
    if path != Inside(files[i].path) {
      i := OutputPaths(files[..i], path);
    }
  }

  /** An acknowledgement is given exactly for a valid receipt, a proof of this archive that holds the
      receipt's files and no others, and a timestamp; and it promises a release only when asked to. */
  lemma AcknowledgeIff(rules: Rules, receipt: Receipt, proof: Proof, verifiedAt: string, release: bool)
    ensures Acknowledge(rules, receipt, proof, verifiedAt, release).Ok? <==>
            && ValidReceipt(rules, receipt) && Instant(rules, verifiedAt).Some?
            && proof.archiveSha256 == receipt.sha256 && proof.archiveBytes == receipt.bytes && rules.proofFits(proof)
            && ExactlyHeld(receipt.files, proof.files)
    ensures Acknowledge(rules, receipt, proof, verifiedAt, release).Ok? ==>
            var r := Acknowledge(rules, receipt, proof, verifiedAt, release).value;
            ValidRetention(rules, r, receipt.sha256) && (r.status.Scheduled? <==> release) && (r.status.Keep? <==> !release)
  {
    if ValidReceipt(rules, receipt) {
      HeldIsExactly(receipt.files, proof.files);
    }
  }

  lemma {:induction false} OutputAt(files: seq<FileReceipt>, i: nat)
    requires ValidFiles(files) && i < |files|
    ensures Inside(files[i].path) in Outputs(files) && Outputs(files)[Inside(files[i].path)] == files[i]
  {
    var front, last := files[..|files| - 1], files[|files| - 1];
    if i < |front| {
      OutputAt(front, i);
      OutputsAre(front);
      assert Inside(last.path) !in Outputs(front);
    }
  }

  /** The receipt's files are the map that holds them all and nothing else. */
  lemma OutputsAreExact(files: seq<FileReceipt>)
    requires ValidFiles(files)
    ensures ExactlyHeld(files, Outputs(files))
  {
    forall i | 0 <= i < |files|
      ensures Inside(files[i].path) in Outputs(files) && Outputs(files)[Inside(files[i].path)] == files[i]
    {
      OutputAt(files, i);
    }
    forall path | path in Outputs(files) ensures exists i :: 0 <= i < |files| && path == Inside(files[i].path) {
      var i := OutputPaths(files, path);
    }
  }

  lemma ExactlyHeldOnce(files: seq<FileReceipt>, a: map<string, FileReceipt>, b: map<string, FileReceipt>)
    requires ExactlyHeld(files, a) && ExactlyHeld(files, b)
    ensures a == b
  {
    forall path | path in a ensures path in b && a[path] == b[path] {
      var i :| 0 <= i < |files| && path == Inside(files[i].path);
    }
    forall path | path in b ensures path in a {
      var i :| 0 <= i < |files| && path == Inside(files[i].path);
    }
    assert a.Keys == b.Keys;
  }

  lemma HeldIsExactly(files: seq<FileReceipt>, held: map<string, FileReceipt>)
    requires ValidFiles(files)
    ensures held == Outputs(files) <==> ExactlyHeld(files, held)
  {
    OutputsAreExact(files);
    if ExactlyHeld(files, held) {
      ExactlyHeldOnce(files, held, Outputs(files));
    }
  }

  // ----- Whole lives -----

  datatype Event = Begin | Finish(at: string)

  /** A refused step changes nothing. */
  function Next(rules: Rules, receipt: Receipt, r: Retention, event: Event): Retention
  {
    var next := if event.Begin? then BeginRelease(rules, receipt, r) else FinishRelease(rules, receipt, r, event.at);
    if next.Ok? then next.value else r
  }

  function After(rules: Rules, receipt: Receipt, start: Retention, events: seq<Event>): Retention
  {
    if events == [] then start
    else Next(rules, receipt, After(rules, receipt, start, events[..|events| - 1]), events[|events| - 1])
  }

  /** Kept results were proved to be held, and are kept, whatever is asked for afterwards. */
  lemma {:induction false} KeepIsKept(
      rules: Rules, receipt: Receipt, proof: Proof, verifiedAt: string, events: seq<Event>)
    requires Acknowledge(rules, receipt, proof, verifiedAt, false).Ok?
    ensures var start := Acknowledge(rules, receipt, proof, verifiedAt, false).value;
      After(rules, receipt, start, events) == start && start.status.Keep?
    ensures ExactlyHeld(receipt.files, proof.files)
  {
    AcknowledgeIff(rules, receipt, proof, verifiedAt, false);
    if events != [] {
      KeepIsKept(rules, receipt, proof, verifiedAt, events[..|events| - 1]);
    }
  }

  /** Some release was begun before this many events. */
  predicate Begun(events: seq<Event>) { events != [] && (events[|events| - 1].Begin? || Begun(events[..|events| - 1])) }

  /** A release was finished at this time, after it was begun. */
  predicate FinishedAt(events: seq<Event>, at: string)
  {
    events != [] &&
    ((events[|events| - 1] == Finish(at) && Begun(events[..|events| - 1])) || FinishedAt(events[..|events| - 1], at))
  }

  /** A released result was acknowledged with release by a proof that held exactly its files, then
      begun and then finished, at a time no earlier than the acknowledgement; and the retention is a
      valid one at every moment. */
  lemma {:induction false} ReleaseIsEarned(
      rules: Rules, receipt: Receipt, proof: Proof, verifiedAt: string, events: seq<Event>)
    requires Acknowledge(rules, receipt, proof, verifiedAt, true).Ok?
    ensures var start := Acknowledge(rules, receipt, proof, verifiedAt, true).value;
      var r := After(rules, receipt, start, events);
      && start.status.Scheduled? && ValidRetention(rules, r, receipt.sha256)
      && !r.status.Keep? && r.releaseAfter == Some(verifiedAt)
      && (r.status.Scheduled? <==> !Begun(events))
      && (r.status.Released? ==> FinishedAt(events, r.releasedAt.value))
      && (r.status.Released? ==> Instant(rules, r.releasedAt.value).value >= Instant(rules, verifiedAt).value)
    ensures ExactlyHeld(receipt.files, proof.files)
    ensures proof.archiveSha256 == receipt.sha256 && proof.archiveBytes == receipt.bytes
  {
    AcknowledgeIff(rules, receipt, proof, verifiedAt, true);
    if events != [] {
      ReleaseIsEarned(rules, receipt, proof, verifiedAt, events[..|events| - 1]);
    }
  }

  /** A release that was begun finishes at any time no earlier than the acknowledgement, and at no
      other. */
  lemma ReleaseFinishesIff(rules: Rules, receipt: Receipt, proof: Proof, verifiedAt: string, at: string)
    requires Acknowledge(rules, receipt, proof, verifiedAt, true).Ok?
    ensures var start := Acknowledge(rules, receipt, proof, verifiedAt, true).value;
      var r := After(rules, receipt, start, [Begin, Finish(at)]);
      && (r.status.Released? <==> Instant(rules, at).Some? && Instant(rules, at).value >= Instant(rules, verifiedAt).value)
      && (r.status.Released? ==> r.releasedAt == Some(at))
  {
    var start := Acknowledge(rules, receipt, proof, verifiedAt, true).value;
    assert [Begin, Finish(at)][..1] == [Begin] && [Begin][..0] == [];
    assert After(rules, receipt, start, [Begin]) == Next(rules, receipt, start, Begin);
  }

  /** Once released, a result stays released as it was. */
  lemma ReleasedIsFinal(rules: Rules, receipt: Receipt, r: Retention, event: Event)
    requires ValidReceipt(rules, receipt) && ValidRetention(rules, r, receipt.sha256) && r.status.Released?
    ensures Next(rules, receipt, r, event) == r
  {
  }
}
