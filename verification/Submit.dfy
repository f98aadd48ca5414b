/** Sending a job once. A machine runs `submit` and `retry` any number of times; each may stop
    at any request, lose any reply, fail to save its record, and requests it gave up on may
    still arrive later. */
module Submit {
  import opened Basics

  datatype Status = Prepared | Executing | ReconcileRequired | Verified | Blocked

  /** The server's record of one Submission. `started` counts granted claims: a scheduler job
      can only be made under one. */
  datatype Record = Record(status: Status, expired: bool, started: nat)

  datatype ClaimFault = Exists | NotReady | Expired | Frozen

  predicate Claimed(s: Status) { s.Executing? || s.ReconcileRequired? || s.Verified? }

  /** The server's decision on an execute request. */
  function Claim(r: Record, filesMatch: bool): Result<Record, ClaimFault>
  {
    if r.status.Verified? then Ok(r)
    else if r.status.Executing? || r.status.ReconcileRequired? then Err(Exists)
    else if !r.status.Prepared? then Err(NotReady)
    else if r.expired then Err(Expired)
    else if !filesMatch then Err(Frozen)
    else Ok(r.(status := Executing, started := r.started + 1))
  }

  predicate Settled(r: Record) { r.started <= 1 && (r.started == 1 ==> Claimed(r.status)) && (r.status.Prepared? ==> r.started == 0) }

  /** How far a Submission has come. BLOCKED is apart: it never gets anywhere. */
  function Stage(s: Status): nat
  {
    match s
    case Blocked => 0
    case Prepared => 1
    case Executing => 2
    case ReconcileRequired => 2
    case Verified => 3
  }

  /** What a record may become: nothing goes back, and a job starts only on leaving PREPARED. */
  predicate Forward(a: Record, b: Record)
  {
    && (a.expired ==> b.expired)
    && Stage(a.status) <= Stage(b.status)
    && (a.status.Blocked? ==> b.status.Blocked?)
    && (b.started == a.started || (a.status.Prepared? && !b.status.Prepared?))
  }

  /** No Submission was lost and none went back. */
  predicate MovedOn(before: map<nat, Record>, after: map<nat, Record>)
  {
    forall id :: id in before ==> id in after && Forward(before[id], after[id])
  }

  lemma MovedOnTwice(a: map<nat, Record>, b: map<nat, Record>, c: map<nat, Record>)
    requires MovedOn(a, b) && MovedOn(b, c)
    ensures MovedOn(a, c)
  {
  }

  lemma ClaimMovesForward(r: Record, filesMatch: bool)
    requires Settled(r) && Claim(r, filesMatch).Ok?
    ensures Forward(r, Claim(r, filesMatch).value) && Settled(Claim(r, filesMatch).value)
    ensures Claim(r, filesMatch).value.started == 1 ==> r.started == 1 || (r.status.Prepared? && !r.expired)
  {
  }

  /** The Submission as a client sees it. */
  datatype View = View(id: nat, status: Status, reprepare: bool, cloud: bool, reporting: bool, over: bool)

  function ViewOf(id: nat, r: Record, cloud: bool, reporting: bool, over: bool): View
  {
    View(id, r.status, r.status.Blocked? || (r.status.Prepared? && r.expired), cloud, reporting, over)
  }

  /** How a request fails. `Unknown` is a change whose reply did not come back; `Crashed` ends
      the command; `Told` is a refusal explained to the user. */
  datatype Failure = Unknown | Refused | Crashed | Told

  type Checkpoint = Option<string>

  /** One request for a further Attempt, as it was sent: with the parent's status in the server's
      record, the mark in the client's own, and the view of the parent the client saw last. */
  datatype Asked = Asked(parent: nat, checkpoint: Checkpoint, status: Status, unsettled: bool, seen: View)

  /** The client's own view is fresh and shows a job that has not ended. */
  predicate StillRuns(v: View) { v.reporting && v.cloud && !v.over }

  /** The server's records for one Run, and every request with an effect ever sent to it: any of
      those may still arrive. Attempt 1 is there from the start, `requests[k - 1]` is the retry
      request that made Attempt `k + 1`, and each Attempt has one Submission of its number. */
  class Server {
    var records: map<nat, Record>
    var requests: seq<Checkpoint>
    var sent: seq<nat>
    var asked: seq<Asked>

    constructor ()
      ensures Valid() && records == map[] && requests == [] && sent == [] && asked == []
    {
      records, requests, sent, asked := map[], [], [], [];
    }

    function Newest(): nat
      reads this
    {
      |requests| + 1
    }

    predicate Confirmed(id: nat)
      reads this
    {
      id in records && records[id].status.Verified?
    }

    predicate HasClaim(id: nat)
      reads this
    {
      id in records && Claimed(records[id].status)
    }

    /** Each Submission starts at most one job, only an execute request starts one, and every
        Attempt but the newest has a confirmed Submission. */
    ghost predicate Valid()
      reads this
    {
      && (forall id :: id in records ==> 1 <= id <= Newest() && Settled(records[id]))
      && (forall id :: id in records && records[id].started == 1 ==> id in sent)
      && (forall id :: 1 <= id < Newest() ==> id in records && records[id].status.Verified?)
      && (forall a :: a in asked ==> 1 <= a.parent && a.parent in records && records[a.parent].status.Verified?)
    }

    /** What every change on the server keeps. */
    twostate predicate Kept()
      reads this
    {
      MovedOn(old(records), records) && old(requests) <= requests
    }

    /** Nothing with an effect was sent. */
    twostate predicate Quiet()
      reads this
    {
      Valid() && Kept() && sent == old(sent) && asked == old(asked)
    }

    /** An execute request arrives. */
    method Claiming(id: nat) returns (r: Result<Record, ClaimFault>)
      requires Valid() && id in records && id in sent
      modifies this`records
      ensures Quiet()
      ensures r.Ok? ==> r.value.status == records[id].status && HasClaim(id)
    {
      var filesMatch: bool := *;
      r := Claim(records[id], filesMatch);
      if r.Ok? {
        ClaimMovesForward(records[id], filesMatch);
        records := records[id := r.value];
      }
    }

    /** A retry request arrives. The same request has the same Attempt, and another one for a
        parent that already has a successor is refused. */
    method Retrying(parent: nat, checkpoint: Checkpoint) returns (accepted: bool)
      requires Valid() && Confirmed(parent)
      modifies this`requests
      ensures Quiet()
      ensures accepted ==> parent < Newest() && requests[parent - 1] == checkpoint
    {
      if parent < Newest() {
        return requests[parent - 1] == checkpoint;
      }
      var willing: bool := *;
      if !willing {
        return false;
      }
      requests := requests + [checkpoint];
      return true;
    }

    /** A Submission's own progress: its gate expires, or its job is looked at. */
    method Progress(id: nat)
      requires Valid() && id in records
      modifies this`records
      ensures Quiet()
    {
      var r := records[id];
      var next: Status := *;
      if r.status.Prepared? {
        records := records[id := r.(expired := true)];
      } else if r.status.Executing? || r.status.ReconcileRequired? {
        if Claimed(next) {
          records := records[id := r.(status := next)];
        }
      }
    }

    /** What may happen on the server between two requests: jobs progress, and requests that
        were given up on arrive. */
    method Drift()
      requires Valid()
      modifies this`records, this`requests
      ensures Quiet()
    {
      var steps: int := *;
      for step := 0 to Max(0, steps)
        invariant Quiet()
      {
        Happen();
      }
    }

    method Happen()
      requires Valid()
      modifies this`records, this`requests
      ensures Quiet()
    {
      var id: nat, k: int, arrives: bool := *, *, *;
      if arrives && 0 <= k < |asked| {
        var late := Retrying(asked[k].parent, asked[k].checkpoint);
      } else if arrives && id in records && id in sent {
        var late := Claiming(id);
      } else if id in records {
        Progress(id);
      }
    }

    // ----- The requests a client makes -----

    method Reply(id: nat) returns (v: View)
      requires id in records
      ensures v.id == id && v.status == records[id].status
      ensures v.reprepare <==> v.status.Blocked? || (v.status.Prepared? && records[id].expired)
    {
      var cloud: bool, reporting: bool, over: bool := *, *, *;
      return ViewOf(id, records[id], cloud, reporting, over);
    }

    /** `GET`: changes nothing, and answers with the record as it is. */
    method Show(id: nat) returns (r: Result<View, Failure>)
      requires Valid()
      modifies this`records, this`requests
      ensures Quiet()
      ensures r.Ok? ==> r.value.id == id && id in records && r.value.status == records[id].status
      ensures r.Ok? ==> (r.value.reprepare <==> r.value.status.Blocked? || (r.value.status.Prepared? && records[id].expired))
      ensures r != Err(Unknown)
    {
      Drift();
      var failure: Failure := *;
      if id !in records || failure.Crashed? {
        return Err(if failure.Unknown? then Refused else failure);
      }
      var view := Reply(id);
      return Ok(view);
    }

    /** The one request that can start a job. It may never arrive, or arrive late, or its reply
        may be lost. */
    method Execute(id: nat) returns (r: Result<View, Failure>)
      requires Valid() && id in records
      modifies this
      ensures Valid() && Kept() && asked == old(asked)
      ensures sent == old(sent) || sent == old(sent) + [id]
      ensures r.Ok? ==> r.value.id == id && HasClaim(id) && r.value.status == records[id].status
    {
      var enabled: bool := *;
      if !enabled {
        return Err(Refused);
      }
      sent := sent + [id];
      Drift();
      var arrives: bool, failure: Failure := *, *;
      if !arrives {
        return Err(if failure.Crashed? then Crashed else Unknown);
      }
      var claim := Claiming(id);
      if claim.Err? {
        return Err(Refused);
      }
      if failure.Crashed? || failure.Unknown? {
        return Err(failure);
      }
      var view := Reply(id);
      return Ok(view);
    }

    /** Looks at the original job again; it never starts one. */
    method Reconcile(id: nat) returns (r: Result<View, Failure>)
      requires Valid() && id in records
      modifies this`records, this`requests
      ensures Quiet()
      ensures r.Ok? ==> r.value.id == id && r.value.status == records[id].status
    {
      Drift();
      var failure: Failure := *;
      if !failure.Told? {
        return Err(failure);
      }
      var view := Reply(id);
      return Ok(view);
    }

    /** Asks for a further Attempt after this one. */
    method AskRetry(parent: nat, checkpoint: Checkpoint, unsettled: bool, seen: View) returns (r: Result<(), Failure>)
      requires Valid() && Confirmed(parent)
      modifies this
      ensures Valid() && Kept() && sent == old(sent)
      ensures asked == old(asked) || asked == old(asked) + [Asked(parent, checkpoint, Verified, unsettled, seen)]
      ensures r.Ok? ==> parent < Newest() && requests[parent - 1] == checkpoint
    {
      var failure: Failure, arrives: bool := *, *;
      if failure.Refused? {
        return Err(Refused);
      }
      asked := asked + [Asked(parent, checkpoint, records[parent].status, unsettled, seen)];
      Drift();
      if !arrives {
        return Err(if failure.Crashed? then Crashed else Unknown);
      }
      var accepted := Retrying(parent, checkpoint);
      if !accepted {
        return Err(Refused);
      }
      if failure.Crashed? || failure.Unknown? {
        return Err(failure);
      }
      return Ok(());
    }

    /** Prepares the newest Attempt's Submission, or finds it. */
    method Prepare() returns (r: Result<View, Failure>)
      requires Valid()
      modifies this`records, this`requests
      ensures Quiet()
      ensures r.Ok? ==> r.value.id in records
    {
      Drift();
      var failure: Failure, ready: bool := *, *;
      var id := Newest();
      if id !in records {
        if failure.Refused? {
          return Err(Refused);
        }
        records := records[id := Record(if ready then Prepared else Blocked, false, 0)];
      }
      if !failure.Told? {
        return Err(failure);
      }
      var view := Reply(id);
      return Ok(view);
    }

    /** The Submission of the preparation a `submit` names, if it has one: Attempt 1's. */
    method Saved() returns (r: Result<Option<nat>, Failure>)
      requires Valid()
      modifies this`records, this`requests
      ensures Quiet()
      ensures r.Ok? ==> if r.value.Some? then r.value.value == 1 && 1 in records else 1 !in records
    {
      Drift();
      var failure: Failure := *;
      if !failure.Told? {
        return Err(failure);
      }
      return Ok(if 1 in records then Some(1) else None);
    }

    /** Moves the preparation along until it has a Submission. */
    method Advance() returns (r: Result<Option<nat>, Failure>)
      requires Valid()
      modifies this`records, this`requests
      ensures Quiet()
      ensures r.Ok? && r.value.Some? ==> r.value.value == 1 && 1 in records
    {
      Drift();
      var failure: Failure, ready: bool, waiting: bool := *, *, *;
      if 1 !in records {
        if failure.Refused? {
          return Err(Refused);
        }
        if waiting {
          return Ok(None);
        }
        records := records[1 := Record(if ready then Prepared else Blocked, false, 0)];
      }
      if !failure.Told? {
        return Err(failure);
      }
      return Ok(Some(1));
    }
  }

  // ----- The record a machine keeps of its last Submission -----

  datatype Latest = Latest(submission: Option<nat>, unsettled: bool)

  /** What a machine's commands do and find out, in order: a record that was saved, or could not
      be; an execute request; the news that a Submission is VERIFIED; and a request for a further
      Attempt, by a command that began when there were `at` entries. */
  datatype Entry =
    | Saved(latest: Latest)
    | Unsaved(latest: Latest)
    | Sent(id: nat)
    | Learned(id: nat)
    | Again(parent: nat, at: nat)

  function Front(log: seq<Entry>): seq<Entry>
    requires log != []
  {
    log[..|log| - 1]
  }

  function Last(log: seq<Entry>): Entry
    requires log != []
  {
    log[|log| - 1]
  }

  /** The record that is on disk: the last one that was saved. */
  function Disk(log: seq<Entry>): Option<Latest>
  {
    if log == [] then None else if Last(log).Saved? then Some(Last(log).latest) else Disk(Front(log))
  }

  function SentIn(log: seq<Entry>): seq<nat>
  {
    if log == [] then [] else SentIn(Front(log)) + if Last(log).Sent? then [Last(log).id] else []
  }

  function AgainIn(log: seq<Entry>): seq<nat>
  {
    if log == [] then [] else AgainIn(Front(log)) + if Last(log).Again? then [Last(log).parent] else []
  }

  /** A send began and the record says that its outcome was never learned. */
  predicate Owing(disk: Option<Latest>) { disk.Some? && disk.value.submission.Some? && disk.value.unsettled }

  /** The last thing done was to write this record, saved or not. */
  predicate Wrote(log: seq<Entry>, latest: Latest)
  {
    log != [] && (Last(log) == Saved(latest) || Last(log) == Unsaved(latest))
  }

  /** The record of a send is written last before it. */
  predicate Marked(log: seq<Entry>, id: nat) { Wrote(log, Latest(Some(id), true)) }

  /** What a command may write. Only the first Submission is prepared again. An owing record gives
      way to one of its own Submission only, and a Submission is settled when it has just been
      learned how it went, or when the record tells of none. */
  predicate Writes(log: seq<Entry>, latest: Latest)
  {
    var disk := Disk(log);
    match latest.submission
    case None => !latest.unsettled && (disk.Some? && disk.value.submission.Some? ==> disk.value.submission == Some(1))
    case Some(id) =>
      && (Owing(disk) ==> disk.value.submission == Some(id))
      && (latest.unsettled || (log != [] && Last(log) == Learned(id)) || disk == Some(latest)
          || disk.None? || disk.value.submission.None?)
  }

  predicate May(log: seq<Entry>, e: Entry)
  {
    match e
    case Saved(latest) => Writes(log, latest)
    case Unsaved(latest) => Writes(log, latest)
    case Sent(id) => Marked(log, id)
    case Learned(_) => true
    case Again(parent, at) =>
      at <= |log| && Disk(log[..at]) == Some(Latest(Some(parent), false)) && Learned(parent) in log[at..]
  }

  predicate Allowed(log: seq<Entry>)
  {
    log == [] || (Allowed(Front(log)) && May(Front(log), Last(log)))
  }

  lemma Appended(log: seq<Entry>, e: Entry)
    ensures Allowed(log + [e]) <==> Allowed(log) && May(log, e)
    ensures Disk(log + [e]) == if e.Saved? then Some(e.latest) else Disk(log)
    ensures SentIn(log + [e]) == SentIn(log) + if e.Sent? then [e.id] else []
    ensures AgainIn(log + [e]) == AgainIn(log) + if e.Again? then [e.parent] else []
  {
    assert Front(log + [e]) == log;
  }

  /** A send of this Submission whose record was saved. */
  predicate SavedSend(log: seq<Entry>, s: nat, id: nat)
  {
    0 < s < |log| && log[s] == Sent(id) && log[s - 1] == Saved(Latest(Some(id), true))
  }

  /** A send whose record was saved, and no command has learned since how it went. */
  predicate Unlearned(log: seq<Entry>, s: nat, id: nat)
  {
    SavedSend(log, s, id) && Learned(id) !in log[s..]
  }

  /** No `submit` wrote that it is preparing over the record of a send it knew no outcome of. */
  predicate Careful(log: seq<Entry>)
  {
    forall k :: 0 <= k < |log| && log[k].Saved? && log[k].latest.submission.None? ==> !Owing(Disk(log[..k]))
  }

  lemma {:induction false} UnlearnedIsOwed(log: seq<Entry>, s: nat, id: nat)
    requires Allowed(log) && Careful(log) && Unlearned(log, s, id)
    ensures Disk(log) == Some(Latest(Some(id), true))
  {
    var front := Front(log);
    if s == |log| - 1 {
      assert Last(front) == log[s - 1];
    } else {
      assert forall e :: e in front[s..] ==> e in log[s..];
      assert forall k :: 0 <= k < |front| ==> front[..k] == log[..k];
      UnlearnedIsOwed(front, s, id);
      assert Last(log) in log[s..];
      assert log[..|log| - 1] == front;
    }
  }

  lemma {:induction false} AllowedPrefix(log: seq<Entry>, n: nat)
    requires Allowed(log) && n <= |log|
    ensures Allowed(log[..n]) && (n < |log| ==> May(log[..n], log[n]))
  {
    if n < |log| {
      AllowedPrefix(Front(log), n);
      assert Front(log)[..n] == log[..n];
    } else {
      assert log[..n] == log;
    }
  }

  /** Before the command that asks for a further Attempt began, the outcome of every send of the
      last one, whose record was saved, was learned. */
  ghost predicate LearnedBefore(log: seq<Entry>, k: nat)
    requires k < |log| && log[k].Again? && log[k].at <= k
  {
    var parent, at := log[k].parent, log[k].at;
    forall s: nat :: s < at && SavedSend(log, s, parent) ==> Learned(parent) in log[s..at]
  }

  /** If a send's outcome was never learned, `retry` only finds out what happened: a further
      Attempt is asked for when an earlier command learned how the last one's sends went. */
  lemma RetryFollowsLearning(log: seq<Entry>, k: nat)
    requires Allowed(log) && k < |log| && log[k].Again?
    ensures log[k].at <= k && (Careful(log[..log[k].at]) ==> LearnedBefore(log, k))
  {
    AllowedPrefix(log, k);
    var parent, at := log[k].parent, log[k].at;
    var begun := log[..at];
    assert log[..k][..at] == begun;
    AllowedPrefix(log, at);
    if Careful(begun) {
      forall s: nat | s < at && SavedSend(log, s, parent) ensures Learned(parent) in log[s..at] {
        if Learned(parent) !in log[s..at] {
          assert begun[s..] == log[s..at] && SavedSend(begun, s, parent);
          UnlearnedIsOwed(begun, s, parent);
        }
      }
    }
  }

  /** Preparing again over such a record forgets it. A later `submit` goes back to the job when
      the late request made one after all and, if it ends before it learns more, leaves a record
      that says settled; then `retry` asks for a further Attempt. */
  lemma ReplacedRecordForgets(log: seq<Entry>, s: nat)
    requires Allowed(log) && Unlearned(log, s, 1) && Disk(log) == Some(Latest(Some(1), true))
    ensures var preparing := log + [Saved(Latest(None, false))];
            var reattached := preparing + [Saved(Latest(Some(1), false))];
            var again := reattached + [Learned(1), Again(1, |reattached|)];
            && !Careful(preparing) && Allowed(again) && !LearnedBefore(again, |again| - 1)
  {
    var preparing := log + [Saved(Latest(None, false))];
    var reattached := preparing + [Saved(Latest(Some(1), false))];
    var learned := reattached + [Learned(1)];
    var again := reattached + [Learned(1), Again(1, |reattached|)];
    Appended(log, Saved(Latest(None, false)));
    Appended(preparing, Saved(Latest(Some(1), false)));
    Appended(reattached, Learned(1));
    assert learned[..|reattached|] == reattached && learned[|reattached|..] == [Learned(1)];
    Appended(learned, Again(1, |reattached|));
    assert again == learned + [Again(1, |reattached|)];
    assert preparing[|log|] == Saved(Latest(None, false)) && preparing[..|log|] == log;
    assert SavedSend(again, s, 1);
    assert again[s..|reattached|] == log[s..] + [Saved(Latest(None, false)), Saved(Latest(Some(1), false))];
  }

  /** What a command about `parent` did to the record: nothing, or it says that the outcome of
      `parent` is owed, or that it is known where it was just learned. */
  predicate Tells(before: Option<Latest>, disk: Option<Latest>, parent: nat, learned: bool)
  {
    disk == before || disk == Some(Latest(Some(parent), true)) || (disk == Some(Latest(Some(parent), false)) && learned)
  }

  /** One request more: for this parent, confirmed, settled, and not seen to be still running. */
  predicate AskedOnce(before: seq<Asked>, asked: seq<Asked>, parent: nat, checkpoint: Checkpoint)
  {
    && |asked| == |before| + 1 && asked[..|before|] == before
    && var last := asked[|before|];
       last == Asked(parent, checkpoint, Verified, false, last.seen) && !StillRuns(last.seen)
  }

  lemma JustLearned(log: seq<Entry>, parent: nat)
    requires Disk(log) == Some(Latest(Some(parent), false))
    ensures May(log + [Learned(parent)], Again(parent, |log|))
  {
    assert (log + [Learned(parent)])[..|log|] == log && (log + [Learned(parent)])[|log|..] == [Learned(parent)];
  }

  function Parents(asked: seq<Asked>): seq<nat>
  {
    if asked == [] then [] else Parents(asked[..|asked| - 1]) + [asked[|asked| - 1].parent]
  }

  /** A log of what may be written, with this record, these sends and these requests. */
  ghost predicate Tallies(log: seq<Entry>, disk: Option<Latest>, sent: seq<nat>, again: seq<nat>)
  {
    Allowed(log) && disk == Disk(log) && SentIn(log) == sent && AgainIn(log) == again
  }

  lemma TalliesAppended(log: seq<Entry>, disk: Option<Latest>, sent: seq<nat>, again: seq<nat>, e: Entry)
    requires Tallies(log, disk, sent, again) && May(log, e)
    ensures e.Saved? ==> Tallies(log + [e], Some(e.latest), sent, again)
    ensures e.Unsaved? || e.Learned? ==> Tallies(log + [e], disk, sent, again)
    ensures e.Sent? ==> Tallies(log + [e], disk, sent + [e.id], again)
    ensures e.Again? ==> Tallies(log + [e], disk, sent, again + [e.parent])
  {
    Appended(log, e);
  }

  /** Every Attempt but the newest is confirmed, so while the first is not there is no other. */
  lemma FirstIsNewest(server: Server)
    requires server.Valid() && !server.Confirmed(1)
    ensures server.Newest() == 1
  {
  }

  /** One machine and its saved record of the Run. */
  class Machine {
    const server: Server
    var disk: Option<Latest>
    ghost var log: seq<Entry>

    constructor (server: Server)
      ensures this.server == server && disk == None && log == []
    {
      this.server := server;
      disk := None;
      log := [];
    }

    /** The log is of this disk and of what this server was sent, and of what may be written. */
    ghost predicate Sound()
      reads this, server
    {
      && Tallies(log, disk, server.sent, Parents(server.asked))
      && (disk.Some? && disk.value.submission.Some? ==> disk.value.submission.value in server.records)
    }

    /** Best effort: the record may not get saved. */
    method Remember(latest: Latest)
      requires Sound() && Writes(log, latest)
      requires latest.submission.Some? ==> latest.submission.value in server.records
      modifies this
      ensures Sound()
      ensures || (disk == Some(latest) && log == old(log) + [Saved(latest)])
              || (disk == old(disk) && log == old(log) + [Unsaved(latest)])
    {
      var saved: bool := *;
      TalliesAppended(log, disk, server.sent, Parents(server.asked), if saved then Saved(latest) else Unsaved(latest));
      log := log + [if saved then Saved(latest) else Unsaved(latest)];
      if saved {
        disk := Some(latest);
      }
    }

    /** This Submission, if the server had it before, was PREPARED then, within its gate. */
    twostate predicate WasPrepared(id: nat)
      reads server
    {
      id in old(server.records) ==> old(server.records[id]).status.Prepared? && !old(server.records[id]).expired
    }

    /** Sends at most one execute request, and only for a record that was PREPARED and is marked
        as being sent. */
    method Dispatch(id: nat) returns (r: Result<View, Failure>)
      requires server.Valid() && Sound()
      requires Marked(log, id) || (id in server.records && server.records[id].status.Blocked?)
      modifies this`log, server
      ensures Sound() && old(log) <= log
      ensures log == old(log) || (log == old(log) + [Sent(id)] && server.sent == old(server.sent) + [id])
      ensures server.Valid() && server.Kept() && server.asked == old(server.asked)
      ensures server.sent == old(server.sent) || server.sent == old(server.sent) + [id]
      ensures server.sent != old(server.sent) ==> WasPrepared(id)
      ensures r.Ok? ==> r.value.id == id && server.HasClaim(id) && r.value.status == server.records[id].status
      ensures r == Err(Unknown) ==> id in server.records && !server.records[id].status.Blocked?
    {
      ghost var start := server.records;
      var current := server.Show(id);
      ghost var shown := server.records;
      if current.Err? {
        return current;
      }
      if current.value.reprepare {
        return Err(Told);
      }
      if !current.value.status.Prepared? {
        return current;
      }
      ghost var before := server.sent;
      r := server.Execute(id);
      MovedOnTwice(start, shown, server.records);
      if server.sent != before {
        TalliesAppended(log, disk, before, Parents(server.asked), Sent(id));
        log := log + [Sent(id)];
      }
    }

    /** A reply was lost after the claim: finds out what happened to the original job. */
    method Observe(id: nat, current: View) returns (r: Result<View, Failure>)
      requires server.Valid() && Sound() && server.HasClaim(id) && current.id == id
      requires current.status.Verified? ==> server.Confirmed(id)
      modifies this`log, server`records, server`requests
      ensures server.Quiet() && Sound()
      ensures r.Ok? ==> r.value.id == id && (r.value.status.Verified? ==> server.Confirmed(id))
      ensures r.Ok? && r.value.status.Verified? ==> log == old(log) + [Learned(id)]
      ensures !(r.Ok? && r.value.status.Verified?) ==> log == old(log)
    {
      if current.status.Executing? || current.status.ReconcileRequired? {
        r := server.Reconcile(id);
      } else {
        r := Ok(current);
      }
      if r.Ok? && r.value.status.Verified? {
        TalliesAppended(log, disk, server.sent, Parents(server.asked), Learned(id));
        log := log + [Learned(id)];
      }
    }

    /** Sends, and asks the server's record when the reply says nothing. */
    method SendAndLook(id: nat) returns (r: Result<View, Failure>)
      requires server.Valid() && Sound() && Marked(log, id)
      modifies this`log, server
      ensures Sound()
      ensures log == old(log) || (log == old(log) + [Sent(id)] && server.sent == old(server.sent) + [id])
      ensures server.Valid() && server.Kept() && server.asked == old(server.asked)
      ensures server.sent == old(server.sent) || server.sent == old(server.sent) + [id]
      ensures server.sent != old(server.sent) ==> WasPrepared(id)
      ensures r.Ok? && !r.value.status.Prepared? ==> server.HasClaim(id)
      ensures r.Ok? ==> r.value.id == id && id in server.records && r.value.status == server.records[id].status
    {
      ghost var before := server.records;
      r := Dispatch(id);
      if r == Err(Unknown) {
        ghost var sent := server.records;
        r := server.Show(id);
        MovedOnTwice(before, sent, server.records);
      }
    }

    /** Sends once and tells what is known afterwards: success means the server's record shows
        a claim. */
    method Send(id: nat) returns (r: Result<View, Failure>)
      requires server.Valid() && Sound() && Marked(log, id)
      modifies this`log, server
      ensures Sound() && old(log) <= log
      ensures r.Ok? && r.value.status.Verified? ==> Last(log) == Learned(id)
      ensures server.Valid() && server.Kept() && server.asked == old(server.asked)
      ensures server.sent == old(server.sent) || server.sent == old(server.sent) + [id]
      ensures server.sent != old(server.sent) ==> WasPrepared(id)
      ensures r.Ok? ==> r.value.id == id && server.HasClaim(id)
    {
      ghost var before := server.records;
      r := SendAndLook(id);
      ghost var sent := server.records;
      if r.Err? {
        return;
      }
      if r.value.status.Prepared? {
        return Err(Told);
      }
      r := Observe(id, r.value);
      MovedOnTwice(before, sent, server.records);
    }

    /** A read that brings the view up to date; any failure keeps the view there was. */
    method Refreshed(current: View) returns (r: Result<View, Failure>)
      requires server.Valid()
      modifies server`records, server`requests
      ensures server.Quiet()
    {
      r := server.Show(current.id);
      if r.Err? && !r.error.Crashed? {
        return Ok(current);
      }
    }

    /** Waits for the preparation's Submission, through at most three lost replies. */
    method AwaitPrepared(polls: nat) returns (r: Result<nat, Failure>)
      requires server.Valid()
      modifies server`records, server`requests
      ensures server.Quiet()
      ensures r.Ok? ==> r.value == 1 && 1 in server.records
    {
      var lost := 0;
      for poll := 0 to polls
        invariant server.Quiet()
      {
        var view := server.Advance();
        if view.Ok? {
          lost := 0;
          if view.value.Some? {
            return Ok(view.value.value);
          }
          var stopped: bool := *;
          if stopped {
            return Err(Told);
          }
        } else if view.error.Unknown? && lost < 3 {
          lost := lost + 1;
        } else {
          return Err(view.error);
        }
      }
      return Err(Told);
    }

    /** Sends a Submission whose record is written, and writes what came of it. */
    method SendAndNote(id: nat) returns (r: Result<View, Failure>)
      requires server.Valid() && Sound() && Marked(log, id) && id in server.records
      requires Owing(disk) ==> disk.value.submission == Some(id)
      modifies this, server
      ensures server.Valid() && server.asked == old(server.asked) && Sound() && old(log) <= log
      ensures Tells(old(disk), disk, id, r.Ok? && r.value.status.Verified?)
      ensures r.Ok? ==> Wrote(log, Latest(Some(id), !r.value.status.Verified?))
      ensures server.sent == old(server.sent) || server.sent == old(server.sent) + [id]
      ensures server.sent != old(server.sent) ==> WasPrepared(id)
      ensures r.Ok? ==> r.value.id == id && server.HasClaim(id)
    {
      r := Send(id);
      if r.Ok? {
        Remember(Latest(Some(id), !r.value.status.Verified?));
      }
    }

    /** Sends a prepared Submission and keeps the record of it. Whatever gets saved names this
        Submission, and says that its outcome was learned only when it was. */
    method SendRemembered(id: nat) returns (r: Result<View, Failure>)
      requires server.Valid() && Sound() && id in server.records
      requires Owing(disk) ==> disk.value.submission == Some(id)
      modifies this, server
      ensures server.Valid() && server.asked == old(server.asked) && Sound() && old(log) <= log
      ensures Tells(old(disk), disk, id, r.Ok? && r.value.status.Verified?)
      ensures r.Ok? ==> Wrote(log, Latest(Some(id), !r.value.status.Verified?))
      ensures server.sent == old(server.sent) || server.sent == old(server.sent) + [id]
      ensures server.sent != old(server.sent) ==> WasPrepared(id)
      ensures r.Ok? ==> r.value.id == id && server.HasClaim(id)
    {
      Remember(Latest(Some(id), true));
      r := SendAndNote(id);
    }

    /** At most one execute request, and only after a yes. */
    twostate predicate OneMore(answer: bool)
      reads server
    {
      server.sent == old(server.sent) ||
      (answer && |server.sent| == |old(server.sent)| + 1 && old(server.sent) < server.sent)
    }

    /** Goes back to a job that may exist. A newer record of the Run stays as it is. */
    method Reattach(id: nat, current: View) returns (r: Result<Option<View>, Failure>)
      requires server.Valid() && Sound() && server.HasClaim(id) && current.id == id
      requires current.status.Verified? ==> server.Confirmed(id)
      modifies this, server`records, server`requests
      ensures server.Quiet() && Sound() && old(log) <= log
      ensures disk == old(disk) || (disk == Some(Latest(Some(id), false)) && !(old(disk).Some? && old(disk).value.submission.Some?))
      ensures r.Ok? ==> r.value.Some? && server.HasClaim(r.value.value.id)
    {
      Remember(if disk.Some? && disk.value.submission.Some? then disk.value else Latest(Some(id), false));
      var observed := Observe(id, current);
      return if observed.Ok? then Ok(Some(observed.value)) else Err(observed.error);
    }

    /** The job an earlier `submit` sent, if the server shows that there may be one. */
    method Existing() returns (r: Result<Option<View>, Failure>)
      requires server.Valid() && Sound()
      modifies this, server`records, server`requests
      ensures server.Quiet() && Sound() && old(log) <= log
      ensures disk == old(disk) || (disk == Some(Latest(Some(1), false)) && !(old(disk).Some? && old(disk).value.submission.Some?))
      ensures r.Ok? && r.value.None? ==> disk == old(disk) && server.Newest() == 1
      ensures r.Ok? && r.value.Some? ==> server.HasClaim(r.value.value.id)
    {
      ghost var start := server.records;
      var saved := server.Saved();
      ghost var found := server.records;
      if saved.Err? {
        return Err(saved.error);
      }
      if saved.value.None? {
        FirstIsNewest(server);
        return Ok(None);
      }
      var id := saved.value.value;
      var current := server.Show(id);
      ghost var shown := server.records;
      MovedOnTwice(start, found, shown);
      if current.Err? {
        return Err(current.error);
      }
      if current.value.status.Prepared? || current.value.status.Blocked? {
        FirstIsNewest(server);
        return Ok(None);
      }
      r := Reattach(id, current.value);
      MovedOnTwice(start, shown, server.records);
    }

    /** `submit`: finds the job an earlier command sent, or asks once and sends one. */
    method Submit(answer: bool, polls: nat) returns (r: Result<View, Failure>)
      requires server.Valid() && Sound()
      modifies this, server
      ensures server.Valid() && server.asked == old(server.asked) && Sound() && old(log) <= log
      ensures OneMore(answer)
      ensures r.Ok? ==> server.HasClaim(r.value.id)
    {
      var existing := Existing();
      if existing.Err? {
        return Err(existing.error);
      }
      if existing.value.Some? {
        return Ok(existing.value.value);
      }
      if !answer {
        return Err(Told);
      }
      Remember(Latest(None, false));
      var prepared := AwaitPrepared(polls);
      if prepared.Err? {
        return Err(prepared.error);
      }
      r := SendRemembered(prepared.value);
    }

    /** Asks for the Attempt after a confirmed one, and prepares it. */
    method NextAttempt(parent: nat, checkpoint: Checkpoint, seen: View, ghost at: nat)
      returns (r: Result<nat, Failure>)
      requires server.Valid() && Sound() && server.Confirmed(parent) && May(log, Again(parent, at))
      modifies this`log, server
      ensures server.Valid() && server.sent == old(server.sent) && Sound()
      ensures log == old(log) || log == old(log) + [Again(parent, at)]
      ensures server.asked != old(server.asked) ==> log != old(log)
      ensures server.asked == old(server.asked) ||
        server.asked == old(server.asked) + [Asked(parent, checkpoint, Verified, false, seen)]
      ensures r.Ok? ==> r.value in server.records
    {
      ghost var before := server.asked;
      var accepted := server.AskRetry(parent, checkpoint, false, seen);
      if server.asked != before {
        TalliesAppended(log, disk, server.sent, Parents(before), Again(parent, at));
        log := log + [Again(parent, at)];
        assert server.asked[..|server.asked| - 1] == before;
      }
      if accepted.Err? {
        return Err(accepted.error);
      }
      var prepared := server.Prepare();
      return if prepared.Ok? then Ok(prepared.value.id) else Err(prepared.error);
    }

    /** A further Attempt after one that is confirmed, unless it still runs or the answer is no. */
    method Another(parent: nat, current: View, checkpoint: Checkpoint, answer: bool, ghost at: nat)
      returns (r: Result<nat, Failure>)
      requires server.Valid() && Sound() && server.Confirmed(parent) && May(log, Again(parent, at))
      modifies this`log, server
      ensures server.Valid() && server.sent == old(server.sent) && Sound()
      ensures log == old(log) || log == old(log) + [Again(parent, at)]
      ensures server.asked != old(server.asked) ==> log != old(log)
      ensures server.asked == old(server.asked) ||
        (answer && AskedOnce(old(server.asked), server.asked, parent, checkpoint))
      ensures r.Ok? ==> r.value in server.records && answer
    {
      var seen := Refreshed(current);
      if seen.Err? {
        return Err(seen.error);
      }
      if StillRuns(seen.value) {
        return Err(Told);
      }
      if !answer {
        return Err(Told);
      }
      r := NextAttempt(parent, checkpoint, seen.value, at);
    }

    /** Anything unresolved is resolved first, and the record says so. */
    method Resolve(parent: nat, current: View, unsettled: bool) returns (r: Result<View, Failure>)
      requires server.Valid() && Sound() && server.HasClaim(parent) && current.id == parent
      requires disk == Some(Latest(Some(parent), unsettled))
      requires current.status.Verified? ==> server.Confirmed(parent)
      modifies this, server`records, server`requests
      ensures server.Quiet() && Sound() && old(log) <= log
      ensures Tells(old(disk), disk, parent, Learned(parent) in log[|old(log)|..])
      ensures r.Ok? ==> r.value.id == parent && server.Confirmed(parent)
      ensures r.Ok? && !unsettled ==> disk == old(disk) && log == old(log) + [Learned(parent)]
      ensures r.Ok? && unsettled ==> Wrote(log, Latest(Some(parent), false))
    {
      r := Observe(parent, current);
      if r.Err? {
        return;
      }
      if !r.value.status.Verified? {
        Remember(Latest(Some(parent), true));
        return Err(Told);
      }
      if unsettled {
        Remember(Latest(Some(parent), false));
        assert log[|old(log)|] == Learned(parent);
      }
    }

    /** What follows a claimed Submission: its outcome first, then a further Attempt if it is
        confirmed, not unsettled and not still running. Returns the Attempt to send, or the
        view of the one there is. */
    method Follow(parent: nat, current: View, unsettled: bool, checkpoint: Checkpoint, answer: bool)
      returns (r: Result<nat, Failure>, found: Option<View>)
      requires server.Valid() && Sound() && server.HasClaim(parent) && current.id == parent
      requires disk == Some(Latest(Some(parent), unsettled))
      requires current.status.Verified? ==> server.Confirmed(parent)
      modifies this, server
      ensures server.Valid() && server.sent == old(server.sent) && Sound() && old(log) <= log
      ensures server.asked != old(server.asked) ==> log != [] && Last(log) == Again(parent, |old(log)|)
      ensures Tells(old(disk), disk, parent, Learned(parent) in log[|old(log)|..])
      ensures r.Ok? && found.None? ==> disk == old(disk)
      ensures server.asked == old(server.asked) ||
        (answer && !unsettled && AskedOnce(old(server.asked), server.asked, parent, checkpoint))
      ensures r.Ok? && found.None? ==> r.value in server.records && answer && !unsettled
      ensures found.Some? ==> server.HasClaim(found.value.id)
    {
      found := None;
      var observed := Resolve(parent, current, unsettled);
      if observed.Err? {
        return Err(observed.error), None;
      }
      if unsettled {
        return Ok(parent), Some(observed.value);
      }
      JustLearned(old(log), parent);
      r := Another(parent, observed.value, checkpoint, answer, |old(log)|);
    }

    /** A Submission that can never be sent: looking again sends nothing. */
    method Blocked(parent: nat) returns (failure: Failure)
      requires server.Valid() && Sound() && parent in server.records && server.records[parent].status.Blocked?
      modifies this`log, server
      ensures server.Valid() && server.Kept() && server.sent == old(server.sent) && server.asked == old(server.asked)
      ensures Sound() && log == old(log)
    {
      var blocked := Dispatch(parent);
      return if blocked.Err? then blocked.error else Told;
    }

    /** What `retry` decides to send: the recorded Submission when it was never sent, a further
        Attempt, or nothing when it only found out how an unsettled one went. */
    method Choose(parent: nat, unsettled: bool, checkpoint: Checkpoint, answer: bool)
      returns (r: Result<nat, Failure>, found: Option<View>)
      requires server.Valid() && Sound() && disk == Some(Latest(Some(parent), unsettled))
      modifies this, server
      ensures server.Valid() && server.sent == old(server.sent) && Sound() && old(log) <= log
      ensures server.asked != old(server.asked) ==> log != [] && Last(log) == Again(parent, |old(log)|)
      ensures Tells(old(disk), disk, parent, Learned(parent) in log[|old(log)|..])
      ensures r.Ok? && found.None? ==> disk == old(disk)
      ensures r.Ok? && found.None? ==> r.value in server.records
      ensures server.asked == old(server.asked) ||
        (answer && !unsettled && AskedOnce(old(server.asked), server.asked, parent, checkpoint))
      ensures r.Ok? && found.None? ==> answer && (unsettled ==> r.value == parent && checkpoint.None?)
      ensures found.Some? ==> server.HasClaim(found.value.id)
    {
      var current := server.Show(parent);
      if current.Err? {
        return Err(current.error), None;
      }
      if current.value.status.Blocked? {
        var failure := Blocked(parent);
        return Err(failure), None;
      }
      if checkpoint.Some? && (current.value.status.Prepared? || unsettled) {
        return Err(Told), None;
      }
      if current.value.status.Prepared? {
        return if answer then Ok(parent) else Err(Told), None;
      }
      r, found := Follow(parent, current.value, unsettled, checkpoint, answer);
    }

    /** `retry`: runs the last Submission again as a new Attempt. */
    method Retry(checkpoint: Checkpoint, answer: bool) returns (r: Result<View, Failure>)
      requires server.Valid() && Sound()
      modifies this, server
      ensures server.Valid() && Sound() && old(log) <= log
      ensures OneMore(answer)
      ensures server.asked == old(server.asked) || (
        && answer && old(disk).Some? && old(disk).value.submission.Some? && !old(disk).value.unsettled
        && AskedOnce(old(server.asked), server.asked, old(disk).value.submission.value, checkpoint)
        && Again(old(disk).value.submission.value, |old(log)|) in log[|old(log)|..])
      ensures old(disk).Some? && old(disk).value.unsettled && old(disk).value.submission.Some? ==>
        server.sent == old(server.sent) ||
        (checkpoint.None? && server.sent == old(server.sent) + [old(disk).value.submission.value])
      ensures r.Ok? ==> server.HasClaim(r.value.id)
    {
      if disk.None? || disk.value.submission.None? {
        return Err(Told);
      }
      var chosen, found := Choose(disk.value.submission.value, disk.value.unsettled, checkpoint, answer);
      if found.Some? {
        return Ok(found.value);
      }
      if chosen.Err? {
        return Err(chosen.error);
      }
      r := SendRemembered(chosen.value);
    }
  }

  // ----- Whole histories -----

  /** The Submissions that started a job. */
  function Jobs(records: map<nat, Record>): set<nat>
  {
    set id | id in records && records[id].started > 0
  }

  function Elements(ids: seq<nat>): set<nat>
  {
    set i | 0 <= i < |ids| :: ids[i]
  }

  lemma {:induction false} ElementsAreFew(ids: seq<nat>)
    ensures |Elements(ids)| <= |ids|
  {
    if ids != [] {
      var front, last := ids[..|ids| - 1], ids[|ids| - 1];
      ElementsAreFew(front);
      assert Elements(ids) == Elements(front) + {last};
    }
  }

  /** Every job was asked for: no more jobs than execute requests. */
  lemma JobsAreSent(server: Server)
    requires server.Valid()
    ensures |Jobs(server.records)| <= |server.sent|
  {
    forall id | id in Jobs(server.records)
      ensures id in Elements(server.sent)
    {
      var i :| 0 <= i < |server.sent| && server.sent[i] == id;
    }
    SubsetSize(Jobs(server.records), Elements(server.sent));
    ElementsAreFew(server.sent);
  }

  predicate AskedInOrder(asked: seq<Asked>)
  {
    forall i :: 0 <= i < |asked| ==> asked[i].status.Verified? && !asked[i].unsettled && !StillRuns(asked[i].seen)
  }

  lemma AskedMore(before: seq<Asked>, asked: seq<Asked>, parent: nat, checkpoint: Checkpoint)
    requires AskedInOrder(before) && AskedOnce(before, asked, parent, checkpoint)
    ensures AskedInOrder(asked)
  {
    forall i | 0 <= i < |before| ensures asked[i] == before[i] {
      assert asked[..|before|][i] == before[i];
    }
  }

  /** Any commands with any answers on one machine, each ending wherever it does. No job is
      started without a yes, no Submission starts two, a further Attempt was only ever asked for
      after a confirmed and settled one, and every Attempt but the newest is confirmed. */
  method History(commands: nat) returns (server: Server, machine: Machine, yes: nat)
    ensures server.Valid() && machine.server == server && machine.Sound()
    ensures |Jobs(server.records)| <= yes
    ensures forall id :: id in server.records ==> server.records[id].started <= 1
    ensures AskedInOrder(server.asked)
    ensures forall k :: 0 <= k < |machine.log| && machine.log[k].Again? ==>
      machine.log[k].at <= k && (Careful(machine.log[..machine.log[k].at]) ==> LearnedBefore(machine.log, k))
    ensures forall id :: 1 <= id < server.Newest() ==> server.Confirmed(id)
  {
    server := new Server();
    yes := 0;
    machine := new Machine(server);
    for command := 0 to commands
      invariant server.Valid() && machine.server == server
      invariant fresh(server) && fresh(machine) && machine.Sound()
      invariant |server.sent| <= yes
      invariant AskedInOrder(server.asked)
    {
      var again: bool, answer: bool, checkpoint: Checkpoint, polls: int := *, *, *, *;
      ghost var before := server.asked;
      if again {
        ghost var disk := machine.disk;
        var retried := machine.Retry(checkpoint, answer);
        if server.asked != before {
          AskedMore(before, server.asked, disk.value.submission.value, checkpoint);
        }
      } else {
        var submitted := machine.Submit(answer, Max(0, polls));
      }
      yes := if answer then yes + 1 else yes;
    }
    JobsAreSent(server);
    forall k | 0 <= k < |machine.log| && machine.log[k].Again?
      ensures machine.log[k].at <= k
      ensures Careful(machine.log[..machine.log[k].at]) ==> LearnedBefore(machine.log, k)
    {
      RetryFollowsLearning(machine.log, k);
    }
  }
}
