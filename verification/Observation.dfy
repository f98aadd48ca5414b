/** Resolving a saved or named identity by reads alone. Each step is a value that holds the one
    GET to make next; what comes back may be anything at all. */
module Observation {
  import opened Basics
  import opened Identity

  // ----- Documents -----

  /** The keys these machines read. Any other key of a document makes no difference to them. */
  datatype Key =
    | KServer | KConfig | KProject | KRun | KAttempt | KSubmissionId | KPreparationId
    | KSubmission | KPreparation | KStatus | KPhase | KExecution | KResolution
    | KAttempts | KCurrent | KIdentity | KSubmissions | KEvidence | KScheduler | KState
    | KPublication | KInner | KScope | KScopeType | KObjectId

  /** A JSON value, with only those keys of its objects. */
  datatype Node =
    | Null
    | Bool(b: bool)
    | Num(zero: bool)
    | Text(s: string)
    | List(items: seq<Node>)
    | Object(fields: map<Key, Node>)

  function Get(v: Node, k: Key): Option<Node>
  {
    if v.Object? && k in v.fields then Some(v.fields[k]) else None
  }

  /** Indexing: null where there is nothing. */
  function At(v: Node, k: Key): Node
  {
    if v.Object? && k in v.fields then v.fields[k] else Null
  }

  predicate Truth(v: Node)
  {
    match v
    case Null => false
    case Bool(b) => b
    case Num(zero) => !zero
    case Text(s) => s != ""
    case List(items) => items != []
    case Object(fields) => fields != map[]
  }

  function TextOf(v: Node): Option<string> { if v.Text? then Some(v.s) else None }

  function OrNull(s: Option<string>): Node { if s.Some? then Text(s.value) else Null }

  predicate NamedHex(value: string, prefix: string, count: nat)
  {
    prefix <= value && |value| == |prefix| + count && forall i :: |prefix| <= i < |value| ==> IsLowerHex(value[i])
  }

  predicate ActionId(v: Node) { v.Text? && NamedHex(v.s, "action-", 16) }

  /** An identity that can stand in a path. */
  predicate Segment(s: string)
  {
    0 < |s| <= 256 && IsAlphanumeric(s[0]) && forall i :: 0 <= i < |s| ==> IsAlphanumeric(s[i]) || s[i] in "_.:-"
  }

  // ----- What is asked for, and what is bound -----

  datatype Selection = Selection(project: Option<string>, run: Option<string>, attempt: Option<string>)

  datatype Hints = Hints(server: Option<string>, project: Option<string>, run: Option<string>, attempt: Option<string>,
    saved: Node)

  datatype Reference = Reference(server: string, project: string, run: string, attempt: Option<string>, saved: Node,
    preparation: Option<Node>, submission: Option<Node>)

  datatype Phase = OfPreparation(id: string) | OfSubmission(id: string)

  datatype Step = Complete(reference: Reference) | Read(reference: Reference, phase: Phase)

  datatype Failure = Failed

  function OptionalHint(saved: Node, k: Key): Result<Option<string>, Failure>
  {
    match Get(saved, k)
    case None => Ok(None)
    case Some(v) => if v.Text? && v.s != "" then Ok(Some(v.s)) else Err(Failed)
  }

  /** The Submission a saved state names, its own or its Preparation's. */
  function SavedSubmission(saved: Node): Option<Node>
  {
    if Truth(At(saved, KSubmission)) then Some(At(saved, KSubmission))
    else if Truth(At(At(saved, KPreparation), KSubmission)) then Some(At(At(saved, KPreparation), KSubmission))
    else None
  }

  predicate PlainOrNull(v: Option<Node>) { v.Some? ==> v.value.Null? || v.value.Object? }

  function SavedHints(saved: Node): Result<Hints, Failure>
  {
    if !saved.Object? then Err(Failed)
    else
      var server :- OptionalHint(saved, KServer);
      if Get(saved, KConfig).None? then Err(Failed)
      else if !PlainOrNull(Get(saved, KPreparation)) || !PlainOrNull(Get(saved, KSubmission)) then Err(Failed)
      else
        var submission := SavedSubmission(saved);
        if submission.Some? && !submission.value.Object? then Err(Failed)
        else
          var target := if submission.Some? then TextOf(At(submission.value, KAttempt)) else None;
          if submission.Some? &&
             (target.None? || !ValidAttempt(target.value) || !ActionId(At(submission.value, KSubmissionId))) then Err(Failed)
          else
            var project :- OptionalHint(saved, KProject);
            var run :- OptionalHint(saved, KRun);
            if (project.Some? && !Segment(project.value)) || (run.Some? && !Segment(run.value)) then Err(Failed)
            else Ok(Hints(server, project, run, target, saved))
  }

  function WithoutSlashes(s: string): string
  {
    if s != [] && s[|s| - 1] == '/' then WithoutSlashes(s[..|s| - 1]) else s
  }

  predicate Differ(a: Option<string>, b: Option<string>) { a.Some? && b.Some? && a != b }

  function Or(a: Option<string>, b: Option<string>): Option<string> { if a.Some? then a else b }

  function NonEmpty(a: Option<string>): Option<string> { if a == Some("") then None else a }

  function Bind(base: string, hints: Option<Hints>, selection: Selection): Result<Reference, Failure>
  {
    var hint := if hints.Some? then hints.value else Hints(None, None, None, None, Object(map[]));
    if hint.server.Some? && WithoutSlashes(hint.server.value) != WithoutSlashes(base) then Err(Failed)
    else if Differ(selection.project, hint.project) || Differ(selection.run, hint.run)
            || Differ(selection.attempt, hint.attempt) then Err(Failed)
    else
      var project, run := NonEmpty(Or(selection.project, hint.project)), NonEmpty(Or(selection.run, hint.run));
      if project.None? || run.None? || !Segment(project.value) || !Segment(run.value) then Err(Failed)
      else
        var attempt := NonEmpty(Or(selection.attempt, hint.attempt));
        if attempt.Some? && !ValidAttempt(attempt.value) then Err(Failed)
        else Ok(Reference(base, project.value, run.value, attempt, hint.saved, None, None))
  }

  /** The requested identity, before anything is read. */
  function Bound(base: string, saved: Option<Node>, selection: Selection): Result<Reference, Failure>
  {
    if saved.None? then Bind(base, None, selection)
    else
      var hints :- SavedHints(saved.value);
      Bind(base, Some(hints), selection)
  }

  // ----- The machine -----

  predicate Mentions(v: Node, k: Key, wanted: Node) { Get(v, k).Some? ==> Get(v, k).value == wanted }

  function SubmissionStep(r: Reference, original: Option<Node>): Result<Step, Failure>
  {
    if original.None? || !Truth(original.value) then Ok(Complete(r))
    else
      var v := original.value;
      if !ActionId(At(v, KSubmissionId)) then Err(Failed)
      else if !Mentions(v, KProject, Text(r.project)) || !Mentions(v, KRun, Text(r.run))
              || !Mentions(v, KAttempt, OrNull(r.attempt)) then Err(Failed)
      else Ok(Read(r, OfSubmission(At(v, KSubmissionId).s)))
  }

  function Begin(base: string, saved: Option<Node>, selection: Selection): Result<Step, Failure>
  {
    var r :- Bound(base, saved, selection);
    if saved.None? then Ok(Complete(r))
    else if Truth(At(r.saved, KSubmission)) then SubmissionStep(r, Some(At(r.saved, KSubmission)))
    else if !Truth(At(r.saved, KPreparation)) then SubmissionStep(r, None)
    else
      var previous := At(r.saved, KPreparation);
      var id := At(previous, KPreparationId);
      if !id.Text? || !NamedHex(id.s, "preparation-", 32) then Err(Failed)
      else if !Mentions(previous, KProject, Text(r.project)) || !Mentions(previous, KRun, Text(r.run)) then Err(Failed)
      else Ok(Read(r, OfPreparation(id.s)))
  }

  /** The Attempt a Preparation's answer binds, or the one there was. */
  function PreparedAttempt(r: Reference, v: Node): Result<Option<string>, Failure>
  {
    var original := At(v, KSubmission);
    if original.Null? then Ok(r.attempt)
    else if Get(original, KProject) != Some(Text(r.project)) || Get(original, KRun) != Some(Text(r.run)) then Err(Failed)
    else
      var target := TextOf(At(original, KAttempt));
      if target.None? || !ValidAttempt(target.value) then Err(Failed)
      else if r.attempt.Some? && r.attempt != target then Err(Failed)
      else
        var previous := At(At(r.saved, KPreparation), KSubmission);
        if Truth(previous) && Get(original, KSubmissionId) != Get(previous, KSubmissionId) then Err(Failed)
        else Ok(target)
  }

  function Accept(r: Reference, phase: Phase, v: Node): Result<Step, Failure>
  {
    match phase
    case OfPreparation(id) =>
      if Get(v, KProject) != Some(Text(r.project)) || Get(v, KRun) != Some(Text(r.run))
         || Get(v, KPreparationId) != Some(Text(id)) then Err(Failed)
      else
        var target :- PreparedAttempt(r, v);
        var next := r.(attempt := target, preparation := Some(v));
        SubmissionStep(next, if At(v, KSubmission).Null? then None else Some(At(v, KSubmission)))
    case OfSubmission(id) =>
      if Get(v, KProject) != Some(Text(r.project)) || Get(v, KRun) != Some(Text(r.run))
         || Get(v, KAttempt) != Some(OrNull(r.attempt)) || Get(v, KSubmissionId) != Some(Text(id)) then Err(Failed)
      else Ok(Complete(r.(submission := Some(v))))
  }

  // ----- What every run of the machine keeps -----

  /** Nothing bound is ever bound again. */
  predicate Extends(a: Reference, b: Reference)
  {
    && b.server == a.server && b.project == a.project && b.run == a.run && b.saved == a.saved
    && (a.attempt.Some? ==> b.attempt == a.attempt)
    && (a.preparation.Some? ==> b.preparation == a.preparation)
    && (a.submission.Some? ==> b.submission == a.submission)
  }

  /** The reads that can still follow. */
  function Remaining(s: Step): nat
  {
    match s
    case Complete(_) => 0
    case Read(_, OfPreparation(_)) => 2
    case Read(_, OfSubmission(_)) => 1
  }

  /** What a step has to show for the reads already made. */
  ghost predicate Consistent(s: Step)
  {
    && (s.reference.submission.Some? ==> SubmissionAgrees(s.reference))
    && (s.Read? ==> s.reference.submission.None?)
    && (s.Read? && s.phase.OfPreparation? ==> s.reference.preparation.None?)
  }

  /** A Submission that was read is this Run's and this Attempt's. */
  predicate SubmissionAgrees(r: Reference)
    requires r.submission.Some?
  {
    var v := r.submission.value;
    At(v, KProject) == Text(r.project) && At(v, KRun) == Text(r.run) && At(v, KAttempt) == OrNull(r.attempt)
  }

  lemma AcceptExtends(r: Reference, phase: Phase, v: Node)
    requires Accept(r, phase, v).Ok? && Consistent(Read(r, phase))
    ensures var next := Accept(r, phase, v).value;
      Extends(r, next.reference) && Consistent(next) && Remaining(next) < Remaining(Read(r, phase))
    ensures phase.OfPreparation? ==> Accept(r, phase, v).value.reference.preparation.Some?
  {
    if phase.OfPreparation? {
      var target := PreparedAttempt(r, v).value;
      assert r.attempt.Some? ==> target == r.attempt;
    }
  }

  /** The requested Project, Run and Attempt are the ones bound, and a saved one must agree. */
  lemma BeginBinds(base: string, saved: Option<Node>, selection: Selection)
    requires Begin(base, saved, selection).Ok?
    ensures var s := Begin(base, saved, selection).value;
      && Consistent(s) && s.reference == Bound(base, saved, selection).value
      && (selection.project.Some? ==> s.reference.project == selection.project.value)
      && (selection.run.Some? ==> s.reference.run == selection.run.value)
      && (selection.attempt.Some? && selection.attempt != Some("") ==> s.reference.attempt == selection.attempt)
  {
  }

  /** A saved state is of this server, and the identity it names is the one that is bound. */
  lemma SavedAgrees(base: string, saved: Node, selection: Selection)
    requires Bound(base, Some(saved), selection).Ok?
    ensures var r := Bound(base, Some(saved), selection).value;
      && r.saved == saved && r.server == base
      && (Get(saved, KServer).Some? ==>
            Get(saved, KServer).value.Text? && WithoutSlashes(Get(saved, KServer).value.s) == WithoutSlashes(base))
      && (Get(saved, KProject).Some? ==> Get(saved, KProject) == Some(Text(r.project)))
      && (Get(saved, KRun).Some? ==> Get(saved, KRun) == Some(Text(r.run)))
      && (SavedSubmission(saved).Some? ==> At(SavedSubmission(saved).value, KAttempt) == OrNull(r.attempt))
  {
  }

  /** Everything a saved state names has been read: its Submission, or its Preparation and the
      Submission that one has, each under its own identity. */
  predicate Resolved(r: Reference)
  {
    var submission, preparation := At(r.saved, KSubmission), At(r.saved, KPreparation);
    if Truth(submission) then
      r.submission.Some? && Get(r.submission.value, KSubmissionId) == Some(At(submission, KSubmissionId))
    else if Truth(preparation) then
      && r.preparation.Some? && Get(r.preparation.value, KPreparationId) == Some(At(preparation, KPreparationId))
      && (At(r.preparation.value, KSubmission).Null? ||
          (r.submission.Some? &&
           Get(r.submission.value, KSubmissionId) == Get(At(r.preparation.value, KSubmission), KSubmissionId)))
    else r.submission.None?
  }

  /** What a step still has to read is what is missing. */
  predicate Owes(s: Step)
  {
    var r := s.reference;
    var submission, preparation := At(r.saved, KSubmission), At(r.saved, KPreparation);
    match s
    case Complete(_) => Resolved(r)
    case Read(_, OfPreparation(id)) =>
      !Truth(submission) && Truth(preparation) && At(preparation, KPreparationId) == Text(id)
    case Read(_, OfSubmission(id)) =>
      if Truth(submission) then At(submission, KSubmissionId) == Text(id)
      else
        && Truth(preparation) && r.preparation.Some?
        && Get(r.preparation.value, KPreparationId) == Some(At(preparation, KPreparationId))
        && Get(At(r.preparation.value, KSubmission), KSubmissionId) == Some(Text(id))
  }

  lemma BeginOwes(base: string, saved: Option<Node>, selection: Selection)
    requires Begin(base, saved, selection).Ok?
    ensures Owes(Begin(base, saved, selection).value)
  {
  }

  lemma AcceptOwes(r: Reference, phase: Phase, v: Node)
    requires Accept(r, phase, v).Ok? && Owes(Read(r, phase))
    ensures Owes(Accept(r, phase, v).value)
  {
    if phase.OfPreparation? && !At(v, KSubmission).Null? {
      assert Truth(At(v, KSubmission));
    }
  }

  /** The loop of reads: it ends after at most two, whatever comes back, with everything that
      was bound at the start still bound. */
  method Resolve(base: string, saved: Option<Node>, selection: Selection)
    returns (r: Result<Reference, Failure>, gets: nat)
    ensures gets <= 2
    ensures r.Ok? ==> Bound(base, saved, selection).Ok? && Extends(Bound(base, saved, selection).value, r.value)
    ensures r.Ok? && r.value.submission.Some? ==> SubmissionAgrees(r.value)
    ensures r.Ok? ==> Resolved(r.value)
  {
    gets := 0;
    var begun := Begin(base, saved, selection);
    if begun.Err? {
      return Err(begun.error), gets;
    }
    var step := begun.value;
    BeginBinds(base, saved, selection);
    BeginOwes(base, saved, selection);
    while step.Read?
      invariant Owes(step)
      invariant Consistent(step) && gets + Remaining(step) <= 2
      invariant Extends(Bound(base, saved, selection).value, step.reference)
      decreases Remaining(step)
    {
      var answer: Option<Node> := *;
      gets := gets + 1;
      if !answer.Some? {
        return Err(Failed), gets;
      }
      var next := Accept(step.reference, step.phase, answer.value);
      if next.Err? {
        return Err(Failed), gets;
      }
      AcceptExtends(step.reference, step.phase, answer.value);
      AcceptOwes(step.reference, step.phase, answer.value);
      step := next.value;
    }
    return Ok(step.reference), gets;
  }
}
