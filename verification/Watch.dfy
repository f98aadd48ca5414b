/** Watching one Attempt's status for a while: repeated observations that must all be of the
    identity the first one bound. */
module Watch {
  import opened Basics
  import opened Identity
  import opened Observation

  const INTERVAL := 5_000_000_000 // nanoseconds

  datatype End = Settled | WindowEnded

  datatype Decision = Wait(delay: nat) | Finish(reason: End)

  function TextAt(v: Node, k: Key): Option<string> { TextOf(At(v, k)) }

  /** The state a layer reports: none when it is absent or null. */
  function Reported(v: Node, layer: Key, k: Key): Result<Option<string>, Failure>
  {
    match At(At(v, layer), k)
    case Null => Ok(None)
    case Text(s) => Ok(Some(s))
    case _ => Err(Failed)
  }

  predicate Terminal(s: Option<string>)
  {
    s.Some? && s.value in ["SUCCEEDED", "FAILED", "CANCELLED", "PREEMPTED", "TIMEOUT"]
  }

  predicate Published(s: Option<string>) { s.Some? && s.value in ["AVAILABLE", "RELEASED", "FAILED"] }

  /** The job has ended and its results are there, or will never be. */
  predicate Ends(v: Node)
  {
    && Reported(v, KScheduler, KState).Ok? && Terminal(Reported(v, KScheduler, KState).value)
    && Reported(v, KPublication, KStatus).Ok? && Published(Reported(v, KPublication, KStatus).value)
  }

  /** The identity an update carries: its Project, its Run, and its Attempt if it has one. */
  datatype Carried = Carried(project: string, run: string, attempt: Option<string>)

  function CarriedBy(v: Node): Option<Carried>
  {
    var project :- TextAt(v, KProject);
    var run :- TextAt(v, KRun);
    Some(Carried(project, run, TextAt(v, KAttempt)))
  }

  /** One identity over a whole watch: the same Project and Run throughout, and an Attempt that,
      once there, is there for good. */
  predicate OneIdentity(updates: seq<Carried>)
  {
    forall i, j :: 0 <= i < j < |updates| ==> Precedes(updates[i], updates[j])
  }

  predicate Precedes(a: Carried, b: Carried)
  {
    a.project == b.project && a.run == b.run && (a.attempt.Some? ==> b.attempt == a.attempt)
  }

  predicate Matches(selection: Selection, c: Carried)
  {
    && (selection.project.Some? ==> c.project == selection.project.value)
    && (selection.run.Some? ==> c.run == selection.run.value)
    && (selection.attempt.Some? ==> c.attempt == selection.attempt)
  }

  function Naming(c: Carried): Selection { Selection(Some(c.project), Some(c.run), c.attempt) }

  /** A layer is absent, or its state is text or null. */
  predicate Legible(v: Node, layer: Key, k: Key) { At(At(v, layer), k).Null? || At(At(v, layer), k).Text? }

  /** The Attempt a document may bring: a valid one that is the bound one if there is one, or null
      while none is bound. */
  predicate MayBring(attempt: Option<string>, brought: Option<Node>)
  {
    match brought
    case Some(Text(a)) => ValidAttempt(a) && (attempt.None? || attempt == Some(a))
    case Some(Null) => attempt.None?
    case _ => false
  }

  /** A document of the bound identity, with what it reports legible. */
  predicate Welcome(bound: Selection, v: Node)
  {
    && CarriedBy(v).Some? && Segment(CarriedBy(v).value.project) && Segment(CarriedBy(v).value.run)
    && (bound.project.None? || bound.project == Some(CarriedBy(v).value.project))
    && (bound.run.None? || bound.run == Some(CarriedBy(v).value.run))
    && MayBring(bound.attempt, Get(v, KAttempt))
    && Legible(v, KScheduler, KState) && Legible(v, KPublication, KStatus)
  }

  class Watch {
    const duration: nat
    var elapsed: nat
    var project: Option<string>
    var run: Option<string>
    var attempt: Option<string>

    constructor (duration: nat, selection: Selection)
      ensures this.duration == duration && elapsed == 0 && Pinned() == selection
    {
      this.duration, elapsed := duration, 0;
      project, run, attempt := selection.project, selection.run, selection.attempt;
    }

    /** What the watch is bound to; the next read asks for exactly this. */
    function Pinned(): Selection
      reads this
    {
      Selection(project, run, attempt)
    }

    predicate Expired()
      reads this
    {
      elapsed >= duration
    }

    function Delay(): nat
      reads this
    {
      Min(Max(0, duration - elapsed), INTERVAL)
    }

    method Clock(now: nat) returns (ok: bool)
      modifies this`elapsed
      ensures ok == (now >= old(elapsed))
      ensures elapsed == if ok then now else old(elapsed)
    {
      if now < elapsed {
        return false;
      }
      elapsed := now;
      return true;
    }

    /** Binds the first identity that comes back, and refuses any other afterwards. */
    method Accept(v: Node, now: nat) returns (r: Result<Decision, Failure>)
      modifies this
      ensures r.Ok? <==> now >= old(elapsed) && Welcome(old(Pinned()), v)
      ensures r.Ok? ==> CarriedBy(v).Some? && Matches(old(Pinned()), CarriedBy(v).value)
      ensures r.Ok? ==> Pinned() == Naming(CarriedBy(v).value)
      ensures r.Ok? ==> elapsed == now >= old(elapsed)
      ensures r.Ok? && r.value.Wait? ==> now < duration && r.value.delay == Min(duration - now, INTERVAL)
      ensures r.Ok? ==> (r.value == Finish(Settled) <==> Ends(v))
      ensures r.Ok? && !Ends(v) ==> (r.value == Finish(WindowEnded) <==> now >= duration)
    {
      var timely := Clock(now);
      if !timely {
        return Err(Failed);
      }
      var p, u := TextAt(v, KProject), TextAt(v, KRun);
      if p.None? || !Segment(p.value) || Differ(project, p) {
        return Err(Failed);
      }
      project := p;
      if u.None? || !Segment(u.value) || Differ(run, u) {
        return Err(Failed);
      }
      run := u;
      var incoming := Get(v, KAttempt);
      if incoming.None? || !(incoming.value.Text? || incoming.value.Null?) {
        return Err(Failed);
      }
      if incoming.value.Text? {
        if !ValidAttempt(incoming.value.s) || Differ(attempt, Some(incoming.value.s)) {
          return Err(Failed);
        }
        attempt := Some(incoming.value.s);
      } else if attempt.Some? {
        return Err(Failed);
      }
      var state, status := Reported(v, KScheduler, KState), Reported(v, KPublication, KStatus);
      if state.Err? || status.Err? {
        return Err(Failed);
      }
      if Terminal(state.value) && Published(status.value) {
        return Ok(Finish(Settled));
      }
      return Ok(if Expired() then Finish(WindowEnded) else Wait(Delay()));
    }
  }

  lemma MoreUpdates(updates: seq<Carried>, c: Carried)
    requires OneIdentity(updates)
    requires updates != [] ==> Precedes(updates[|updates| - 1], c)
    ensures OneIdentity(updates + [c])
  {
  }

  predicate Selectable(s: Selection)
  {
    && (s.project.Some? ==> Segment(s.project.value))
    && (s.run.Some? ==> Segment(s.run.value))
    && (s.attempt.Some? ==> ValidAttempt(s.attempt.value))
  }

  /** A whole watch, for any documents read and any times the clock shows. Every update is of
      one identity, the one asked for; and no read but the first starts once the time is up. */
  method ObserveWith(duration: nat, selection: Selection, documents: seq<Node>, times: seq<nat>)
    returns (updates: seq<Carried>, starts: seq<nat>)
    requires |times| >= 1 + 3 * |documents|
    ensures !Selectable(selection) ==> starts == []
    ensures OneIdentity(updates)
    ensures forall i :: 0 <= i < |updates| ==> Matches(selection, updates[i])
    ensures forall i :: 0 < i < |starts| ==> starts[i] < duration
  {
    updates, starts := [], [];
    if !Selectable(selection) {
      return;
    }
    var watch := new Watch(duration, selection);
    var timely := watch.Clock(times[0]);
    if !timely {
      return;
    }
    for k := 0 to |documents|
      invariant watch.Pinned() == if updates == [] then selection else Naming(updates[|updates| - 1])
      invariant OneIdentity(updates) && forall i :: 0 <= i < |updates| ==> Matches(selection, updates[i])
      invariant forall i :: 0 < i < |starts| ==> starts[i] < duration
      invariant k > 0 ==> watch.elapsed < watch.duration
      invariant |starts| == k && watch.duration == duration
    {
      starts := starts + [watch.elapsed];
      var decision := watch.Accept(documents[k], times[3 * k + 1]);
      if decision.Err? {
        return;
      }
      MoreUpdates(updates, CarriedBy(documents[k]).value);
      updates := updates + [CarriedBy(documents[k]).value];
      if decision.value.Finish? {
        return;
      }
      timely := watch.Clock(times[3 * k + 2]);
      if !timely || watch.Expired() {
        return;
      }
      timely := watch.Clock(times[3 * k + 3]);
      if !timely || watch.Expired() {
        return;
      }
    }
  }
}
