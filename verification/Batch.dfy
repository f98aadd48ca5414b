/** Bounded dispatch of a saved batch. A claim file is made, for good, before the one request that
    can start a child's job. */
module Batch {
  import opened Basics

  const MAX_BATCH := 256

  /** What a row shows of its Submission. `finished` is a job state that has ended. */
  datatype Submission = Submission(
    prepared: bool, expired: bool, id: Option<string>, confirmation: Option<string>, finished: bool)

  datatype Note = NoNote | GateExpired | AlreadyRequested

  /** One child of the batch. `unknown` is a row whose read failed. */
  datatype Row = Row(unknown: bool, submission: Option<Submission>, note: Note)

  /** Whether a row takes a slot. */
  predicate Occupied(row: Row)
  {
    row.unknown || (row.submission.Some? && !row.submission.value.prepared && !row.submission.value.finished)
  }

  /** A slot is free only where the row was read, and shows no Submission, one that was not sent, or one
      whose job has ended. */
  lemma FreeIff(row: Row)
    ensures !Occupied(row) <==>
      !row.unknown && (row.submission == None || row.submission.value.prepared || row.submission.value.finished)
  {
  }

  function OccupiedCount(rows: seq<Row>): (n: nat)
    ensures n <= |rows|
  {
    if rows == [] then 0
    else OccupiedCount(rows[..|rows| - 1]) + if Occupied(rows[|rows| - 1]) then 1 else 0
  }

  /** A child that could start now. */
  predicate Ready(row: Row) { row.submission.Some? && row.submission.value.prepared && !row.submission.value.expired }

  /** Children that could start now and were claimed before: a request for each may be on its way. */
  function ClaimedCount(rows: seq<Row>, claims: set<string>): nat
  {
    if rows == [] then 0
    else
      var last := rows[|rows| - 1];
      ClaimedCount(rows[..|rows| - 1], claims) +
      if Ready(last) && last.submission.value.id.Some? && last.submission.value.id.value in claims then 1 else 0
  }

  datatype Failure = Invalid | Taken | Refused | Crashed

  predicate Distinct(actions: seq<string>)
  {
    forall i, j :: 0 <= i < j < |actions| ==> actions[i] != actions[j]
  }

  /** One state directory and the requests sent from it. The claims are files: a crash keeps
      them. */
  class Directory {
    var claims: set<string>
    var sent: seq<string>

    constructor ()
      ensures claims == {} && sent == []
    {
      claims, sent := {}, [];
    }

    /** Every execute request was preceded by its claim, and no Action was sent twice. */
    predicate Valid()
      reads this
    {
      Distinct(sent) && forall a :: a in sent ==> a in claims
    }

    /** An exclusive creation: it fails when the file is there. */
    method PublishNew(action: string) returns (done: bool)
      modifies this`claims
      ensures done ==> action !in old(claims) && claims == old(claims) + {action}
      ensures !done ==> claims == old(claims)
    {
      var works: bool := *;
      if !works || action in claims {
        return false;
      }
      claims := claims + {action};
      return true;
    }

    /** The one request that can start a job. Its reply, if there is one, can be anything. */
    method Execute(action: string) returns (reply: Option<Submission>)
      requires action in claims
      modifies this`sent
      ensures sent == old(sent) + [action]
    {
      sent := sent + [action];
      var answer: Option<Submission> := *;
      return answer;
    }

    /** What a pass may do to the directory: claims stay, and what is sent is newly claimed. */
    twostate predicate Kept()
      reads this
    {
      && old(claims) <= claims && old(sent) <= sent
      && forall i :: |old(sent)| <= i < |sent| ==> sent[i] !in old(claims)
    }

    /** Claims one child and sends it. The command may end between the two. */
    method Send(action: string) returns (r: Result<Submission, Failure>)
      requires Valid() && action !in claims
      modifies this
      ensures Valid() && Kept()
      ensures sent == old(sent) || sent == old(sent) + [action]
      ensures claims == old(claims) || claims == old(claims) + {action}
      ensures r.Ok? ==> sent == old(sent) + [action] && action in claims
    {
      var claimed := PublishNew(action);
      if !claimed {
        return Err(Invalid);
      }
      var alive: bool := *;
      if !alive {
        return Err(Crashed);
      }
      var reply := Execute(action);
      return if reply.Some? then Ok(reply.value) else Err(Refused);
    }
  }

  method CountOccupied(rows: array<Row>) returns (active: nat)
    ensures active == OccupiedCount(rows[..])
  {
    active := 0;
    for i := 0 to rows.Length
      invariant active == OccupiedCount(rows[..i])
    {
      assert rows[..i + 1][..i] == rows[..i];
      if Occupied(rows[i]) {
        active := active + 1;
      }
    }
    assert rows[..rows.Length] == rows[..];
  }

  /** A child that could start is shown with this Action. */
  predicate Offered(rows: seq<Row>, action: string)
  {
    exists k :: 0 <= k < |rows| && Ready(rows[k]) && rows[k].submission.value.id == Some(action)
  }

  predicate Covered(row: Row, claims: set<string>)
  {
    Ready(row) ==> row.submission.value.id.Some? && row.submission.value.id.value in claims
  }

  lemma SeenMore(rows: seq<Row>, k: nat)
    requires k < |rows|
    ensures forall action :: Offered(rows[..k], action) ==> Offered(rows[..k + 1], action)
    ensures forall claims :: ClaimedCount(rows[..k + 1], claims) == ClaimedCount(rows[..k], claims) +
              if Ready(rows[k]) && rows[k].submission.value.id.Some? && rows[k].submission.value.id.value in claims
              then 1 else 0
  {
    assert rows[..k + 1][..k] == rows[..k];
    forall action | Offered(rows[..k], action) ensures Offered(rows[..k + 1], action) {
      var i :| 0 <= i < k && Ready(rows[..k][i]) && rows[..k][i].submission.value.id == Some(action);
      assert Ready(rows[..k + 1][i]);
    }
  }

  /** One scheduling pass over the rows. It sends only children of the rows it has seen, none that was
      claimed before, and with those that take a slot and those that were claimed before they are no
      more than there are slots; and when slots are left at the end, every child that could start has
      been claimed. */
  method Dispatch(directory: Directory, rows: array<Row>, maxActive: nat)
    returns (r: Result<nat, Failure>, ghost seen: nat)
    requires directory.Valid()
    modifies directory, rows
    ensures directory.Valid() && directory.Kept()
    ensures seen <= rows.Length
    ensures OccupiedCount(old(rows[..])) + ClaimedCount(old(rows[..])[..seen], old(directory.claims))
              + |directory.sent| - |old(directory.sent)| <= Max(OccupiedCount(old(rows[..])), maxActive)
    ensures !(1 <= maxActive <= MAX_BATCH) ==> r == Err(Invalid) && directory.sent == old(directory.sent)
    ensures forall i :: |old(directory.sent)| <= i < |directory.sent| ==> Offered(old(rows[..])[..seen], directory.sent[i])
    ensures r.Ok? ==> seen == rows.Length || r.value >= maxActive
    ensures r.Ok? && r.value < maxActive ==> forall k :: 0 <= k < rows.Length ==> Covered(old(rows[..])[k], directory.claims)
  {
    if !(1 <= maxActive <= MAX_BATCH) {
      return Err(Invalid), 0;
    }
    ghost var shown := rows[..];
    var occupied := CountOccupied(rows);
    var active := occupied;
    var k := 0;
    while k < rows.Length && active < maxActive
      invariant 0 <= k <= rows.Length
      invariant directory.Valid() && directory.Kept()
      invariant occupied <= active && active <= Max(occupied, maxActive)
      invariant ClaimedCount(shown[..k], old(directory.claims)) + |directory.sent| - |old(directory.sent)| <= active - occupied
      invariant forall m :: k <= m < rows.Length ==> rows[m] == shown[m]
      invariant forall i :: |old(directory.sent)| <= i < |directory.sent| ==> Offered(shown[..k], directory.sent[i])
      invariant forall m :: 0 <= m < k ==> Covered(shown[m], directory.claims)
    {
      var row := rows[k];
      assert row == shown[k];
      SeenMore(shown, k);
      k := k + 1;
      if row.submission.None? || !row.submission.value.prepared {
        continue;
      }
      var s := row.submission.value;
      if s.id.None? || s.confirmation.None? {
        return Err(Invalid), k - 1;
      }
      if s.expired {
        rows[k - 1] := row.(note := GateExpired);
        continue;
      }
      if s.id.value in directory.claims {
        rows[k - 1] := row.(note := AlreadyRequested);
        active := active + 1;
        continue;
      }
      assert shown[..k][k - 1] == row && Offered(shown[..k], s.id.value);
      var reply := directory.Send(s.id.value);
      if reply.Err? {
        return Err(reply.error), k;
      }
      rows[k - 1] := row.(submission := Some(reply.value));
      active := active + 1;
    }
    return Ok(active), k;
  }

  /** What the server shows of the batch at some moment: anything. */
  method Status() returns (rows: array<Row>)
    ensures fresh(rows)
  {
    var shown: seq<Row> := *;
    rows := new Row[|shown|](i requires 0 <= i < |shown| => shown[i]);
  }

  /** Any number of passes in one directory, each over whatever the server shows then and each
      ending wherever it does: at most one execute request for each Action, and each after its
      claim. */
  method Passes(count: nat) returns (directory: Directory)
    ensures Distinct(directory.sent)
    ensures forall a :: a in directory.sent ==> a in directory.claims
  {
    directory := new Directory();
    for pass := 0 to count
      invariant fresh(directory) && directory.Valid()
    {
      var rows := Status();
      var maxActive: int := *;
      var result, seen := Dispatch(directory, rows, Max(0, maxActive));
    }
  }
}
