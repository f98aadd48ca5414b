/** A status observation: the identity machine first, then the reads of one Run and Attempt.
    The server may answer each GET with anything. */
module Status {
  import opened Basics
  import opened Identity
  import opened Observation

  /** What a GET brings: a document, an HTTP error, or nothing usable. */
  datatype Response = Answer(v: Node) | Http(status: nat) | Broken

  datatype FlowPhase =
    | ReadPreparation
    | ReadInitialProgress(id: string)
    | ReadRun
    | ReadAttempts
    | ReadDiscover
    | ReadDiscoveredProgress(id: string)
    | ReadCollection
    | ReadExpanded

  datatype Next = Ask(phase: FlowPhase) | Done

  type Outcome = Result<Next, Failure>

  /** The reads that can still follow, the awaited one included. */
  function Rank(p: FlowPhase): nat
  {
    match p
    case ReadPreparation => 8
    case ReadInitialProgress(_) => 7
    case ReadRun => 6
    case ReadAttempts => 5
    case ReadDiscover => 4
    case ReadDiscoveredProgress(_) => 3
    case ReadCollection => 2
    case ReadExpanded => 1
  }

  function Left(n: Next): nat { if n.Ask? then Rank(n.phase) else 0 }

  /** What a completed observation says. */
  datatype View = View(project: string, run: string, attempt: Option<string>, scheduler: Node, publication: Node)

  predicate ForRun(v: Node, r: Reference)
  {
    Get(v, KProject) == Some(Text(r.project)) && Get(v, KRun) == Some(Text(r.run))
  }

  /** The entries of a listing for exactly this Attempt of this Run. */
  function Exactly(entries: seq<Node>, run: string, attempt: string): seq<Node>
  {
    if entries == [] then []
    else
      var v := entries[0];
      var rest := Exactly(entries[1..], run, attempt);
      if v.Object? && At(v, KAttempt) == Text(attempt) && At(v, KIdentity) == Text(run + "::" + attempt) then [v] + rest
      else rest
  }

  predicate Mentioned(entries: seq<Node>, attempt: string)
  {
    exists i :: 0 <= i < |entries| && entries[i].Object? && At(entries[i], KAttempt) == Text(attempt)
  }

  lemma {:induction false} ExactlyIsMentioned(entries: seq<Node>, run: string, attempt: string)
    ensures Exactly(entries, run, attempt) != [] ==> Mentioned(entries, attempt)
  {
    if entries != [] {
      ExactlyIsMentioned(entries[1..], run, attempt);
      if Mentioned(entries[1..], attempt) {
        var i :| 0 <= i < |entries| - 1 && entries[1..][i].Object? && At(entries[1..][i], KAttempt) == Text(attempt);
        assert entries[i + 1] == entries[1..][i];
      }
    }
  }

  /** The Submissions of a listing for this Attempt; None when the listing mixes Runs. */
  function Candidates(rows: seq<Node>, r: Reference, attempt: Option<string>): Option<seq<Node>>
  {
    if rows == [] then Some([])
    else if At(rows[0], KProject) != Text(r.project) || At(rows[0], KRun) != Text(r.run) then None
    else
      var rest :- Candidates(rows[1..], r, attempt);
      Some(if At(rows[0], KAttempt) == OrNull(attempt) then [rows[0]] + rest else rest)
  }

  class Flow {
    const reference: Reference
    const saved: bool
    const details: bool
    const progressEnabled: bool
    var attempt: Option<string>
    var materialized: bool
    var preparationStatus: Node
    var run: Node
    var listing: Node
    var progress: Node
    var collection: Node
    var seenPreparation: bool
    var seenSubmission: Node
    var seenProgress: bool
    var seenAttempt: Node

    constructor (reference: Reference, saved: bool, details: bool, progressEnabled: bool)
      ensures this.reference == reference && this.saved == saved
      ensures this.details == details && this.progressEnabled == progressEnabled
      ensures Fresh()
    {
      this.reference, this.saved, this.details, this.progressEnabled := reference, saved, details, progressEnabled;
      attempt, materialized := reference.attempt, false;
      preparationStatus, run, listing := Text("NOT_OBSERVED"), Object(map[]), Object(map[]);
      progress, collection := Object(map[]), Object(map[]);
      seenPreparation, seenSubmission, seenProgress, seenAttempt := false, Null, false, Null;
    }

    /** Nothing read yet. */
    predicate Fresh()
      reads this
    {
      && attempt == reference.attempt && !materialized && run == Object(map[]) && collection == Object(map[])
      && !seenProgress && seenAttempt == Null
    }

    /** The Attempt is the bound one. Only an observation without saved state, with none bound,
        may have taken the Run's current one. */
    predicate Faithful()
      reads this
    {
      (saved || reference.attempt.Some? ==> attempt == reference.attempt) && (materialized ==> attempt.Some?)
    }

    /** All evidence is of this Run and this Attempt. */
    predicate Exact()
      reads this
    {
      && (Truth(run) ==> ForRun(run, reference))
      && (seenProgress ==> Get(progress, KRun) == Some(Text(reference.run)) && Get(progress, KAttempt) == Some(OrNull(attempt)))
      && (Truth(collection) ==> ForRun(collection, reference) && Get(collection, KAttempt) == Some(OrNull(attempt)))
      && (seenAttempt != Null ==> At(At(seenAttempt, KInner), KAttempt) == OrNull(attempt) && At(seenAttempt, KRun) == Text(reference.run))
    }

    /** What holds while this many reads may still follow. */
    predicate Valid(left: nat)
      reads this
    {
      && Faithful() && Exact()
      && (left >= Rank(ReadAttempts) ==> attempt == reference.attempt && !materialized && !Truth(collection))
      && (left >= Rank(ReadAttempts) && !saved ==> !seenProgress)
      && (left >= 7 || left == 4 || left == 3 ==> !seenProgress)
      && (left > 0 ==> seenAttempt == Null)
      && (left >= Rank(ReadCollection) ==> !Truth(collection))
    }

    /** What one step keeps: the Attempt changes only from none, only in an observation without
        saved state, and only on reading the listing. */
    twostate predicate Kept(phase: FlowPhase)
      reads this
    {
      attempt == old(attempt) || (phase.ReadAttempts? && !saved && old(attempt).None?)
    }

    /** What each phase relies on. */
    predicate Awaiting(phase: FlowPhase)
      reads this
    {
      && Valid(Rank(phase))
      && (phase.ReadPreparation? ==> Fresh())
      && (phase.ReadInitialProgress? ==> saved)
      && (phase.ReadAttempts? ==> Truth(run))
      && (phase.ReadCollection? || phase.ReadExpanded? ==> materialized)
    }

    /** The scheduler's evidence in a view. */
    static function Evidence(v: Node): Node { At(At(v, KEvidence), KScheduler) }

    predicate Names(layer: Node)
      reads this
    {
      layer.Object? && At(layer, KAttempt) == OrNull(attempt)
    }

    /** When the Run's view has no evidence of this Attempt, the Attempt's own view was read. */
    predicate Sought()
      reads this
    {
      materialized ==> At(Evidence(run), KAttempt) == OrNull(attempt) || seenAttempt != Null
    }

    /** The next step is closer to the end. */
    predicate Going(r: Outcome, before: nat)
      reads this
    {
      r.Ok? ==> Left(r.value) < before && if r.value.Ask? then Awaiting(r.value.phase) else Valid(0) && Sought()
    }

    function Endpoint(): bool { Segment(reference.project) && Segment(reference.run) }

    method Start() returns (r: Outcome)
      requires Fresh()
      modifies this
      ensures attempt == old(attempt)
      ensures Going(r, 9)
      ensures r.Ok? && r.value.Ask? && r.value.phase.ReadPreparation? ==> reference.preparation.None?
    {
      if saved && Truth(At(reference.saved, KPreparation)) {
        if reference.preparation.None? {
          var id := At(At(reference.saved, KPreparation), KPreparationId);
          if !id.Text? || !Segment(id.s) || !Segment(reference.project) {
            return Err(Failed);
          }
          return Ok(Ask(ReadPreparation));
        }
        var agrees := Preparation(reference.preparation.value);
        if !agrees {
          return Err(Failed);
        }
      }
      r := ReferenceEvidence();
    }

    method Preparation(value: Node) returns (agrees: bool)
      modifies this`preparationStatus, this`seenPreparation
      ensures agrees == (ForRun(value, reference)
        && At(value, KPreparationId) == At(At(reference.saved, KPreparation), KPreparationId))
    {
      if !ForRun(value, reference)
        || At(value, KPreparationId) != At(At(reference.saved, KPreparation), KPreparationId) {
        return false;
      }
      preparationStatus := At(value, KStatus);
      seenPreparation := true;
      return true;
    }

    /** Whether the Submission's progress, or else the Run, can be asked for. */
    predicate CanRefer()
      reads this
    {
      if saved && reference.submission.Some? && progressEnabled && At(reference.submission.value, KSubmissionId).Text?
      then Segment(At(reference.submission.value, KSubmissionId).s) else Endpoint()
    }

    method ReferenceEvidence() returns (r: Outcome)
      requires Fresh()
      modifies this`preparationStatus, this`seenSubmission
      ensures Going(r, 8)
      ensures r.Ok? <==> CanRefer()
    {
      if saved && reference.submission.Some? {
        var value := reference.submission.value;
        seenSubmission := value;
        if preparationStatus == Text("NOT_OBSERVED") {
          preparationStatus := At(value, KStatus);
        }
        if progressEnabled && At(value, KSubmissionId).Text? {
          var id := At(value, KSubmissionId).s;
          if !Segment(id) {
            return Err(Failed);
          }
          return Ok(Ask(ReadInitialProgress(id)));
        }
      }
      if !Endpoint() {
        return Err(Failed);
      }
      return Ok(Ask(ReadRun));
    }

    method AcceptPreparation(response: Response) returns (r: Outcome)
      requires Fresh()
      modifies this`preparationStatus, this`seenPreparation, this`seenSubmission
      ensures Going(r, 8)
      ensures r.Ok? <==>
        && response.Answer? && ForRun(response.v, reference)
        && At(response.v, KPreparationId) == At(At(reference.saved, KPreparation), KPreparationId) && CanRefer()
    {
      if !response.Answer? {
        return Err(Failed);
      }
      var agrees := Preparation(response.v);
      if !agrees {
        return Err(Failed);
      }
      r := ReferenceEvidence();
    }

    predicate BeforeSubmission()
      reads this
    {
      || (At(seenSubmission, KStatus) == Text("EXECUTING")
          && At(progress, KPhase) in [Text("VALIDATING_SOURCE"), Text("STAGING")])
      || (At(seenSubmission, KStatus) == Text("FAILED")
          && At(At(seenSubmission, KExecution), KResolution) == Text("FAILED_BEFORE_SUBMISSION"))
    }

    method Progress(id: string, value: Node) returns (agrees: bool)
      requires Exact()
      modifies this`progress, this`seenProgress
      ensures Exact()
      ensures agrees == OfThis(id, value)
    {
      if Get(value, KSubmissionId) != Some(Text(id)) || Get(value, KRun) != Some(Text(reference.run))
        || Get(value, KAttempt) != Some(OrNull(attempt)) {
        return false;
      }
      progress, seenProgress := value, true;
      return true;
    }

    predicate Passing(response: Response) { response.Http? && response.status !in [401, 403] }

    method AcceptInitialProgress(id: string, response: Response) returns (r: Outcome)
      requires saved && Valid(7)
      modifies this`progress, this`seenProgress
      ensures Going(r, 7)
      ensures r.Ok? <==> Endpoint() && if response.Answer? then OfThis(id, response.v) else Passing(response)
    {
      if response.Answer? {
        var agrees := Progress(id, response.v);
        if !agrees {
          return Err(Failed);
        }
      } else if Passing(response) {
        progress := Object(map[]);
      } else {
        return Err(Failed);
      }
      return if Endpoint() then Ok(Ask(ReadRun)) else Err(Failed);
    }

    method AcceptRun(response: Response) returns (r: Outcome)
      requires Valid(6)
      modifies this`run
      ensures Going(r, 6)
      ensures r.Ok? <==>
        && (if Truth(run) then Endpoint() else CanGoOn())
        && if response.Answer? then ForRun(response.v, reference)
           else response == Http(404)
                && (BeforeSubmission() || (seenPreparation && !Truth(At(reference.saved, KSubmission))))
      ensures r.Ok? && !response.Answer? ==> response == Http(404)
      ensures r.Ok? && !response.Answer? ==>
        BeforeSubmission() || (seenPreparation && !Truth(At(reference.saved, KSubmission)))
      ensures response.Answer? && r.Ok? ==> run == response.v
    {
      if response.Answer? {
        if !ForRun(response.v, reference) {
          return Err(Failed);
        }
        run := response.v;
      } else if response != Http(404)
        || (!BeforeSubmission() && (!seenPreparation || Truth(At(reference.saved, KSubmission)))) {
        return Err(Failed);
      }
      if Truth(run) {
        return if Endpoint() then Ok(Ask(ReadAttempts)) else Err(Failed);
      }
      r := AfterAttempts();
    }

    /** The listing has exactly one entry for the Attempt. */
    predicate Listed(response: Response)
      reads this
    {
      && response.Answer? && At(response.v, KAttempts).List? && attempt.Some? && ValidAttempt(attempt.value)
      && |Exactly(At(response.v, KAttempts).items, reference.run, attempt.value)| == 1
    }

    /** The listing does not know the Attempt at all. */
    predicate NotCurrent(response: Response)
      reads this
    {
      && response.Answer? && At(response.v, KAttempts).List? && attempt.Some?
      && At(response.v, KCurrent) != Text(attempt.value)
      && !Mentioned(At(response.v, KAttempts).items, attempt.value)
    }

    /** The listing: the one place where an Attempt may be adopted, and where the Attempt is
        found to exist. */
    method AcceptAttempts(response: Response) returns (r: Outcome)
      requires Valid(5) && Truth(run)
      modifies this`attempt, this`materialized, this`listing
      ensures Kept(ReadAttempts)
      ensures attempt != old(attempt) ==> response.Answer? && OrNull(attempt) == At(response.v, KCurrent)
      ensures r.Ok? <==>
        && response.Answer? && ForRun(response.v, reference) && At(response.v, KAttempts).List?
        && (old(attempt).None? && !saved ==> At(response.v, KCurrent).Null? || At(response.v, KCurrent).Text?)
        && (attempt.Some? ==> ValidAttempt(attempt.value) && (Listed(response) || (BeforeSubmission() && NotCurrent(response))))
        && (attempt.None? && !saved ==> At(response.v, KAttempts).items == [])
        && CanGoOn()
      ensures r.Ok? && materialized ==> Listed(response)
      ensures r.Ok? && attempt.Some? && !materialized ==> BeforeSubmission() && NotCurrent(response)
      ensures Going(r, 5)
    {
      if !response.Answer? || !ForRun(response.v, reference) || !At(response.v, KAttempts).List? {
        return Err(Failed);
      }
      var entries := At(response.v, KAttempts).items;
      var current := At(response.v, KCurrent);
      if attempt.None? && !saved {
        attempt := TextOf(current);
        if !current.Null? && attempt.None? {
          return Err(Failed);
        }
      }
      if attempt.Some? {
        if !ValidAttempt(attempt.value) {
          return Err(Failed);
        }
        var selected := Exactly(entries, reference.run, attempt.value);
        ExactlyIsMentioned(entries, reference.run, attempt.value);
        if |selected| > 1 {
          return Err(Failed);
        }
        if selected != [] {
          materialized := true;
        } else if !BeforeSubmission() || current == Text(attempt.value) || Mentioned(entries, attempt.value) {
          return Err(Failed);
        }
      } else if entries != [] && !saved {
        return Err(Failed);
      }
      listing := response.v;
      r := AfterAttempts();
    }

    /** Whether the Attempt's own view can be asked for, if it is needed. */
    predicate CanExpand()
      reads this
    {
      materialized && attempt.Some? && (details || At(Evidence(run), KAttempt) != OrNull(attempt)) ==>
        Segment(reference.project) && Segment(reference.run + "::" + attempt.value)
    }

    predicate CanCollect()
      reads this
    {
      if materialized && attempt.Some? then Endpoint() && Segment(attempt.value) else CanExpand()
    }

    predicate CanGoOn()
      reads this
    {
      if materialized && progressEnabled && !seenProgress then Endpoint() else CanCollect()
    }

    /** Progress evidence of this Submission, Run and Attempt. */
    predicate OfThis(id: string, v: Node)
      reads this
    {
      Get(v, KSubmissionId) == Some(Text(id)) && Get(v, KRun) == Some(Text(reference.run))
      && Get(v, KAttempt) == Some(OrNull(attempt))
    }

    method AfterAttempts() returns (r: Outcome)
      requires Valid(4) || (Valid(5) && !materialized) || (Faithful() && Exact() && seenAttempt == Null && !Truth(collection))
      ensures Going(r, 5)
      ensures r.Ok? <==> CanGoOn()
    {
      if materialized && progressEnabled && !seenProgress {
        return if Endpoint() then Ok(Ask(ReadDiscover)) else Err(Failed);
      }
      r := CollectionStep();
    }

    method CollectionStep() returns (r: Outcome)
      requires Faithful() && Exact() && seenAttempt == Null && !Truth(collection)
      ensures Going(r, 3)
      ensures r.Ok? <==> CanCollect()
    {
      if materialized {
        return if Endpoint() && Segment(attempt.value) then Ok(Ask(ReadCollection)) else Err(Failed);
      }
      r := Expanded();
    }

    /** The listing is of this Run and has one Submission of this Attempt, this one. */
    predicate OnlyOne(response: Response, id: string)
      reads this
    {
      && response.Answer? && ForRun(response.v, reference) && At(response.v, KSubmissions).List?
      && var candidates := Candidates(At(response.v, KSubmissions).items, reference, attempt);
         candidates.Some? && |candidates.value| == 1 && At(candidates.value[0], KSubmissionId) == Text(id)
    }

    method AcceptDiscover(response: Response) returns (r: Outcome)
      requires Valid(4)
      modifies this`progress, this`seenSubmission
      ensures Going(r, 4)
      ensures r.Ok? <==>
        if !response.Answer? then Passing(response) && CanCollect()
        else
          && ForRun(response.v, reference) && At(response.v, KSubmissions).List?
          && var candidates := Candidates(At(response.v, KSubmissions).items, reference, attempt);
             candidates.Some? &&
             if |candidates.value| != 1 then CanCollect()
             else At(candidates.value[0], KSubmissionId).Text? && Segment(At(candidates.value[0], KSubmissionId).s)
      ensures r.Ok? && r.value.Ask? && r.value.phase.ReadDiscoveredProgress? ==> OnlyOne(response, r.value.phase.id)
    {
      if !response.Answer? {
        if Passing(response) {
          progress := Object(map[]);
          r := CollectionStep();
          return;
        }
        return Err(Failed);
      }
      if !ForRun(response.v, reference) || !At(response.v, KSubmissions).List? {
        return Err(Failed);
      }
      var candidates := Candidates(At(response.v, KSubmissions).items, reference, attempt);
      if candidates.None? {
        return Err(Failed);
      }
      if |candidates.value| != 1 {
        progress := Object(map[]);
        r := CollectionStep();
        return;
      }
      var id := At(candidates.value[0], KSubmissionId);
      if !id.Text? || !Segment(id.s) {
        return Err(Failed);
      }
      seenSubmission := candidates.value[0];
      return Ok(Ask(ReadDiscoveredProgress(id.s)));
    }

    method AcceptDiscoveredProgress(id: string, response: Response) returns (r: Outcome)
      requires Valid(3)
      modifies this`progress, this`seenProgress
      ensures Going(r, 3)
      ensures r.Ok? <==> CanCollect() && if response.Answer? then OfThis(id, response.v) else Passing(response)
    {
      if response.Answer? {
        var agrees := Progress(id, response.v);
        if !agrees {
          return Err(Failed);
        }
      } else if Passing(response) {
        progress := Object(map[]);
      } else {
        return Err(Failed);
      }
      r := CollectionStep();
    }

    method AcceptCollection(response: Response) returns (r: Outcome)
      requires Valid(2) && materialized
      modifies this`collection
      ensures Going(r, 2)
      ensures r.Ok? <==>
        && CanExpand()
        && if response.Answer? then ForRun(response.v, reference) && Get(response.v, KAttempt) == Some(OrNull(attempt))
           else response == Http(404) || response == Http(409)
      ensures r.Ok? ==> collection == if response.Answer? then response.v else old(collection)
    {
      if response.Answer? {
        if !ForRun(response.v, reference) || Get(response.v, KAttempt) != Some(OrNull(attempt)) {
          return Err(Failed);
        }
        collection := response.v;
      } else if !response.Http? || response.status !in [404, 409] {
        return Err(Failed);
      }
      r := Expanded();
    }

    method Expanded() returns (r: Outcome)
      requires Faithful() && Exact() && seenAttempt == Null
      ensures Going(r, 2)
      ensures r.Ok? <==> CanExpand()
    {
      var exactRead := At(At(At(run, KEvidence), KScheduler), KAttempt) != OrNull(attempt);
      if materialized && (details || exactRead) {
        return if Segment(reference.project) && Segment(reference.run + "::" + attempt.value) then Ok(Ask(ReadExpanded))
          else Err(Failed);
      }
      return Ok(Done);
    }

    /** Exactly this Attempt's scope. */
    function Scope(): Node
      reads this
      requires attempt.Some?
    {
      Object(map[KProject := Text(reference.project), KScopeType := Text("attempt"),
                 KObjectId := Text(reference.run + "::" + attempt.value)])
    }

    method AcceptExpanded(response: Response) returns (r: Outcome)
      requires Valid(1) && materialized
      modifies this`seenAttempt
      ensures Going(r, 1)
      ensures r.Ok? <==>
        && response.Answer? && response.v.Object? && At(response.v, KRun) == Text(reference.run)
        && At(At(response.v, KInner), KAttempt) == OrNull(attempt) && At(response.v, KScope) == Scope()
      ensures r.Ok? ==> response.Answer? && seenAttempt == response.v && At(response.v, KScope) == Scope()
    {
      if !response.Answer? {
        return Err(Failed);
      }
      var v := response.v;
      if !v.Object? || At(v, KRun) != Text(reference.run) || At(At(v, KInner), KAttempt) != OrNull(attempt)
        || At(v, KScope) != Scope() {
        return Err(Failed);
      }
      seenAttempt := v;
      return Ok(Done);
    }

    /** The scheduler's evidence: the first that names this Attempt, from the Run's view or the
        Attempt's own. */
    function Layer(): (layer: Node)
      reads this
      ensures layer == Object(map[]) || (materialized && At(layer, KAttempt) == OrNull(attempt))
      ensures materialized && (Names(Evidence(run)) || Names(Evidence(seenAttempt))) ==>
        Names(layer) && (layer == Evidence(run) || (layer == Evidence(seenAttempt) && !Names(Evidence(run))))
    {
      if !materialized then Object(map[])
      else
        var current := At(At(run, KEvidence), KScheduler);
        var exact := At(At(seenAttempt, KEvidence), KScheduler);
        if current.Object? && At(current, KAttempt) == OrNull(attempt) then current
        else if exact.Object? && At(exact, KAttempt) == OrNull(attempt) then exact
        else Object(map[])
    }

    function Finish(): (v: View)
      reads this
      requires Valid(0) && Sought()
      ensures v.project == reference.project && v.run == reference.run && v.attempt == attempt
      ensures !materialized ==> v.scheduler == Text("NOT_SUBMITTED")
      ensures materialized && Names(Evidence(run)) && Truth(At(Evidence(run), KState)) ==>
        v.scheduler == At(Evidence(run), KState)
      ensures materialized && !Names(Evidence(run)) && Names(Evidence(seenAttempt)) && Truth(At(Evidence(seenAttempt), KState)) ==>
        v.scheduler == At(Evidence(seenAttempt), KState)
      ensures materialized && !Names(Evidence(run)) && !Names(Evidence(seenAttempt)) ==>
        v.scheduler == Text("UNKNOWN") && seenAttempt != Null
      ensures Get(collection, KStatus) == Some(v.publication)
        || (Get(collection, KStatus).None? && v.publication == Text("NOT_OBSERVED"))
      ensures v.publication != Text("NOT_OBSERVED") && Truth(v.publication) ==>
        ForRun(collection, reference) && Get(collection, KAttempt) == Some(OrNull(attempt))
    {
      var state := At(Layer(), KState);
      var unknown := Text(if materialized then "UNKNOWN" else "NOT_SUBMITTED");
      var publication := Get(collection, KStatus);
      View(reference.project, reference.run, attempt, if Truth(state) then state else unknown,
           if publication.Some? then publication.value else Text("NOT_OBSERVED"))
    }

    method Accept(phase: FlowPhase, response: Response) returns (r: Outcome)
      requires Awaiting(phase)
      modifies this
      ensures Kept(phase)
      ensures Going(r, Rank(phase))
    {
      match phase
      case ReadPreparation => r := AcceptPreparation(response);
      case ReadInitialProgress(id) => r := AcceptInitialProgress(id, response);
      case ReadRun => r := AcceptRun(response);
      case ReadAttempts => r := AcceptAttempts(response);
      case ReadDiscover => r := AcceptDiscover(response);
      case ReadDiscoveredProgress(id) => r := AcceptDiscoveredProgress(id, response);
      case ReadCollection => r := AcceptCollection(response);
      case ReadExpanded => r := AcceptExpanded(response);
    }
  }

  /** One observation of status, whatever the server answers: it ends after at most nine GETs,
      and what it returns is of the requested Project and Run. The Attempt is the one that was
      bound. Only without saved state, and with none bound, is the Run's current one taken, and
      then once. */
  method Observe(base: string, saved: Option<Node>, selection: Selection, details: bool, progressEnabled: bool)
    returns (r: Result<View, Failure>, gets: nat, reference: Option<Reference>, changes: nat)
    ensures gets <= 9
    ensures changes <= 1
    ensures reference.Some? && (saved.Some? || reference.value.attempt.Some?) ==> changes == 0
    ensures r.Ok? ==> reference.Some? && Bound(base, saved, selection).Ok?
    ensures r.Ok? ==> Extends(Bound(base, saved, selection).value, reference.value)
    ensures r.Ok? ==> r.value.project == reference.value.project && r.value.run == reference.value.run
    ensures r.Ok? && (saved.Some? || reference.value.attempt.Some?) ==> r.value.attempt == reference.value.attempt
  {
    gets, reference, changes := 0, None, 0;
    var begun := Begin(base, saved, selection);
    if begun.Err? {
      return Err(Failed), gets, None, 0;
    }
    BeginBinds(base, saved, selection);
    var step := begun.value;
    while step.Read?
      invariant Consistent(step) && gets + Remaining(step) <= 2
      invariant step.reference.preparation.None? && !(step.Read? && step.phase.OfPreparation?) ==>
        gets + Remaining(step) <= 1
      invariant Extends(Bound(base, saved, selection).value, step.reference)
      decreases Remaining(step)
    {
      var response: Response := *;
      gets := gets + 1;
      if !response.Answer? {
        return Err(Failed), gets, None, 0;
      }
      var next := Observation.Accept(step.reference, step.phase, response.v);
      if next.Err? {
        return Err(Failed), gets, None, 0;
      }
      AcceptExtends(step.reference, step.phase, response.v);
      step := next.value;
    }
    reference := Some(step.reference);
    var flow := new Flow(step.reference, saved.Some?, details, progressEnabled);
    var pending := flow.Start();
    while pending.Ok? && pending.value.Ask?
      invariant flow.Going(pending, 9)
      invariant pending.Ok? ==> gets + Left(pending.value) <= 9
      invariant gets <= 9
      invariant flow.attempt.None? ==> changes == 0
      invariant pending.Ok? && Left(pending.value) >= Rank(ReadAttempts) ==> changes == 0
      invariant changes <= 1 && (saved.Some? || step.reference.attempt.Some? ==> changes == 0)
      decreases if pending.Ok? then Left(pending.value) else 0
    {
      var response: Response := *;
      gets := gets + 1;
      var before := flow.attempt;
      pending := flow.Accept(pending.value.phase, response);
      changes := if flow.attempt == before then changes else changes + 1;
    }
    if pending.Err? {
      return Err(Failed), gets, reference, changes;
    }
    return Ok(flow.Finish()), gets, reference, changes;
  }
}
