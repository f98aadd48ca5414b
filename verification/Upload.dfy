/** The resumable upload loop. Every run starts from what a reply shows the server has recorded,
    sends only what that reply lacks, and asks to complete only when nothing is missing. A request
    that was given up on may still arrive at any later time. */
module Upload {
  import opened Basics
  import opened Multipart
  import opened Datasets

  const ATTEMPTS := 12

  /** SHA-256 of bytes. Nothing is assumed of it but that it is one. */
  type Sha = seq<byte> -> string

  /** What the network makes of one request: it does not arrive now, its reply is lost, or both
      arrive. */
  datatype Weather = LostRequest | LostReply | Fair

  /** The server's answer when it is asked for a ticket: there is no object store, here is one, a
      failure that may pass, or one that does not. */
  datatype Ticket = NoStore | Granted | NotNow | Denied

  /** The object store's answer to a PUT, if one comes back. */
  datatype PutReply = Code(status: nat) | NoAnswer

  /** What a PUT's answer means: a part stored now or before, a failure that may pass, or one that
      does not. */
  datatype Put = Stored | TryAgain | Refused

  predicate MayPass(status: nat)
  {
    status == 408 || status == 429 || status == 500 || status == 502 || status == 503 || status == 504
  }

  function Judged(reply: PutReply): Put
  {
    match reply
    case NoAnswer => TryAgain
    case Code(status) =>
      if status == 200 || status == 409 then Stored else if MayPass(status) then TryAgain else Refused
  }

  datatype Failure = Response | GaveUp | Stopped | Transport

  /** One archive to upload. */
  datatype Archive = Archive(definition: Definition, bytes: seq<byte>)

  predicate Fits(a: Archive) { |a.bytes| == a.definition.archiveBytes && PartCount(|a.bytes|).Ok? }

  function Count(a: Archive): nat
    requires Fits(a)
  {
    PartCount(|a.bytes|).value
  }

  function PartBytes(a: Archive, number: nat): seq<byte>
    requires Fits(a) && number < Count(a)
  {
    PartsMeet(|a.bytes|, number);
    a.bytes[PartStart(number)..PartStart(number) + PartSize(|a.bytes|, number).value]
  }

  /** The record a part must have. */
  function RecordOf(sha: Sha, a: Archive, number: nat): PartRecord
    requires Fits(a) && number < Count(a)
  {
    PartRecord(sha(PartBytes(a, number)), |PartBytes(a, number)|)
  }

  function Assembled(a: Archive, count: nat): seq<byte>
    requires Fits(a) && count <= Count(a)
  {
    if count == 0 then [] else Assembled(a, count - 1) + PartBytes(a, count - 1)
  }

  lemma Slices(bytes: seq<byte>, i: nat, j: nat)
    requires i <= j <= |bytes|
    ensures bytes[..i] + bytes[i..j] == bytes[..j]
  {
  }

  /** Where the first parts of an archive end. */
  function EndOf(a: Archive, count: nat): nat
    requires Fits(a) && count <= Count(a)
  {
    if count < Count(a) then PartStart(count) else |a.bytes|
  }

  lemma EndsMeet(a: Archive, number: nat)
    requires Fits(a) && number < Count(a)
    ensures PartStart(number) <= EndOf(a, number + 1) <= |a.bytes|
    ensures PartBytes(a, number) == a.bytes[PartStart(number)..EndOf(a, number + 1)]
  {
    PartsMeet(|a.bytes|, number);
  }

  /** The parts put together in order are the archive, without gap or overlap. */
  lemma {:induction false} PartsAssemble(a: Archive, count: nat)
    requires Fits(a) && count <= Count(a)
    ensures EndOf(a, count) <= |a.bytes| && Assembled(a, count) == a.bytes[..EndOf(a, count)]
  {
    if count == 0 {
      assert PartStart(0) == 0;
    } else {
      PartsAssemble(a, count - 1);
      EndsMeet(a, count - 1);
      assert EndOf(a, count - 1) == PartStart(count - 1);
      Slices(a.bytes, PartStart(count - 1), EndOf(a, count));
    }
  }

  ghost predicate AllRecorded(sha: Sha, a: Archive, s: State)
    requires Fits(a)
  {
    RecordedTo(sha, a, s, Count(a))
  }

  /** The first parts are recorded as they should be. */
  ghost predicate RecordedTo(sha: Sha, a: Archive, s: State, count: nat)
    requires Fits(a) && count <= Count(a)
  {
    forall n: nat :: n < count ==> n in s.parts && s.parts[n] == RecordOf(sha, a, n)
  }

  lemma RecordedKeeps(sha: Sha, a: Archive, rules: Rules, s: State, next: State, count: nat)
    requires Fits(a) && count <= Count(a) && Successor(rules, s, next) && RecordedTo(sha, a, s, count)
    ensures RecordedTo(sha, a, next, count)
  {
  }

  lemma RecordedOneMore(sha: Sha, a: Archive, rules: Rules, s: State, next: State, number: nat)
    requires Fits(a) && number < Count(a) && Successor(rules, s, next) && RecordedTo(sha, a, s, number)
    requires number in next.parts && next.parts[number] == RecordOf(sha, a, number)
    ensures RecordedTo(sha, a, next, number + 1)
    ensures next.definition == s.definition
  {
  }

  // ----- What the object store has -----

  /** The held parts put together in order. */
  function Gathered(held: map<nat, seq<byte>>, count: nat): seq<byte>
    requires forall n: nat :: n < count ==> n in held
  {
    if count == 0 then [] else Gathered(held, count - 1) + held[count - 1]
  }

  /** Every part is held, and together they are the archive. */
  ghost predicate Whole(a: Archive, held: map<nat, seq<byte>>)
    requires Fits(a)
  {
    (forall n: nat :: n < Count(a) ==> n in held) && Gathered(held, Count(a)) == a.bytes
  }

  lemma {:induction false} GatheredIsAssembled(a: Archive, held: map<nat, seq<byte>>, count: nat)
    requires Fits(a) && count <= Count(a)
    requires forall n: nat :: n < count ==> n in held && held[n] == PartBytes(a, n)
    ensures Gathered(held, count) == Assembled(a, count)
  {
    if count > 0 {
      GatheredIsAssembled(a, held, count - 1);
    }
  }

  /** Whatever a reply showed recorded is held. */
  lemma ShownIsHeld(rules: Rules, a: Archive, shown: State, w: Wire, number: nat)
    requires Fits(a) && Backed(a, w) && Successor(rules, shown, w.state) && number in shown.parts
    ensures number < Count(a) && number in w.held && w.held[number] == PartBytes(a, number)
  {
    assert number in w.state.parts && Own(a, number, w.held[number]);
  }

  lemma ShownIsWhole(sha: Sha, a: Archive, rules: Rules, shown: State, w: Wire)
    requires Fits(a) && Backed(a, w) && Successor(rules, shown, w.state) && AllRecorded(sha, a, shown)
    ensures Whole(a, w.held)
  {
    RecordedKeeps(sha, a, rules, shown, w.state, Count(a));
    RecordedIsWhole(sha, a, w);
  }

  /** When every part is recorded, what is held is the archive. */
  lemma RecordedIsWhole(sha: Sha, a: Archive, w: Wire)
    requires Fits(a) && Backed(a, w) && AllRecorded(sha, a, w.state)
    ensures Whole(a, w.held)
  {
    forall n: nat | n < Count(a) ensures n in w.held && w.held[n] == PartBytes(a, n) {
      assert n in w.state.parts && Own(a, n, w.held[n]);
    }
    GatheredIsAssembled(a, w.held, Count(a));
    PartsAssemble(a, Count(a));
    assert a.bytes[..|a.bytes|] == a.bytes;
  }

  // ----- What the server has, and what the client was shown -----

  /** A request to record a part: one sent through the server carries the part's bytes, and one
      about a part in the object store does not. */
  datatype Request = Request(number: nat, part: PartRecord, bytes: Option<seq<byte>>)

  /** A part's bytes on their way to the object store. */
  datatype Sent = Sent(number: nat, bytes: seq<byte>)

  /** A part that became recorded, by a request of the present or by one that was given up on. */
  datatype Arrival = Arrival(request: Request, late: bool)

  /** The server's state, the last reply that came back, what became recorded after it, and every
      request to record a part whose reply did not come back: each of them may still arrive, any
      number of times. Then the bytes that the object store holds for each part, and every PUT that
      was not answered as stored: each of those may still land. */
  datatype Wire = Wire(
    state: State, shown: State, since: seq<Arrival>, lost: set<Request>, held: map<nat, seq<byte>>, puts: set<Sent>)

  function Numbers(since: seq<Arrival>): set<nat>
  {
    if since == [] then {} else Numbers(since[..|since| - 1]) + {since[|since| - 1].request.number}
  }

  /** The parts recorded by late requests. */
  function LateNumbers(since: seq<Arrival>): set<nat>
  {
    if since == [] then {}
    else LateNumbers(since[..|since| - 1]) + if since[|since| - 1].late then {since[|since| - 1].request.number} else {}
  }

  predicate AllLate(since: seq<Arrival>)
  {
    since == [] || (AllLate(since[..|since| - 1]) && since[|since| - 1].late)
  }

  /** Whatever came late was given up on before. */
  predicate LateWereLost(since: seq<Arrival>, lost: set<Request>)
  {
    since == [] ||
    (LateWereLost(since[..|since| - 1], lost) && (since[|since| - 1].late ==> since[|since| - 1].request in lost))
  }

  /** A reply comes back: it shows the state as it is. */
  function Answered(w: Wire): Wire { w.(shown := w.state, since := []) }

  /** Bytes land in the object store: a part that is there is never replaced. */
  function Landed(held: map<nat, seq<byte>>, sent: Sent): map<nat, seq<byte>>
  {
    if sent.number in held then held else held[sent.number := sent.bytes]
  }

  /** A PUT is on its way, or arrives. */
  function PutSent(w: Wire, sent: Sent): Wire { w.(puts := w.puts + {sent}) }

  function PutArrived(w: Wire, sent: Sent): Wire { w.(held := Landed(w.held, sent)) }

  /** A request to record a part arrives; the bytes it carries are stored first. */
  function Arrived(rules: Rules, w: Wire, request: Request, late: bool): Wire
  {
    match RecordPart(rules, w.state, request.number, request.part)
    case Err(_) => w
    case Ok(next) =>
      w.(state := next, since := if request.number in w.state.parts then w.since else w.since + [Arrival(request, late)],
         held := if request.bytes.Some? then Landed(w.held, Sent(request.number, request.bytes.value)) else w.held)
  }

  /** The reply of a request was given up on. */
  function GivenUp(w: Wire, request: Request): Wire { w.(lost := w.lost + {request}) }

  /** A request to complete the archive arrives. */
  function Completed(rules: Rules, w: Wire, receipt: Receipt): Wire
  {
    match Publish(rules, w.state, receipt)
    case Err(_) => w
    case Ok(next) => w.(state := next)
  }

  ghost predicate Sound(rules: Rules, a: Archive, w: Wire)
    requires Fits(a)
  {
    Tracked(rules, w) && Backed(a, w)
  }

  /** What became recorded since the last reply is known, and how. */
  ghost predicate Tracked(rules: Rules, w: Wire)
  {
    && Successor(rules, w.shown, w.state) && w.state.parts.Keys == w.shown.parts.Keys + Numbers(w.since)
    && LateWereLost(w.since, w.lost)
  }

  /** A part's number with its own bytes. */
  predicate Own(a: Archive, number: nat, bytes: seq<byte>)
    requires Fits(a)
  {
    number < Count(a) && bytes == PartBytes(a, number)
  }

  /** A request carries its part's own bytes, or the part's own bytes are held. */
  predicate Carries(a: Archive, held: map<nat, seq<byte>>, request: Request)
    requires Fits(a)
  {
    if request.bytes.Some? then Own(a, request.number, request.bytes.value) else request.number in held
  }

  /** Only a part's own bytes are held or on their way, and every recorded part is held. */
  ghost predicate Backed(a: Archive, w: Wire)
    requires Fits(a)
  {
    && (forall n :: n in w.held ==> Own(a, n, w.held[n]))
    && (forall sent :: sent in w.puts ==> Own(a, sent.number, sent.bytes))
    && (forall n :: n in w.state.parts ==> n in w.held)
    && (forall request :: request in w.lost ==> Carries(a, w.held, request))
  }

  lemma HeldIsOwn(a: Archive, w: Wire, number: nat)
    requires Fits(a) && Backed(a, w)
    ensures number in w.held ==> Own(a, number, w.held[number])
  {
  }

  lemma LandedIsBacked(a: Archive, w: Wire, sent: Sent)
    requires Fits(a) && Backed(a, w) && Own(a, sent.number, sent.bytes)
    ensures Backed(a, PutArrived(w, sent)) && sent.number in PutArrived(w, sent).held
    ensures w.held.Keys <= PutArrived(w, sent).held.Keys
  {
    forall request | request in w.lost ensures Carries(a, PutArrived(w, sent).held, request) {
      assert Carries(a, w.held, request);
    }
  }

  lemma PutIsSound(rules: Rules, a: Archive, w: Wire, sent: Sent)
    requires Fits(a) && Sound(rules, a, w) && Own(a, sent.number, sent.bytes)
    ensures Sound(rules, a, PutSent(w, sent)) && Sound(rules, a, PutArrived(w, sent))
    ensures w.held.Keys <= PutArrived(w, sent).held.Keys
  {
    LandedIsBacked(a, w, sent);
    assert forall other :: other in PutSent(w, sent).puts ==> other in w.puts || other == sent;
  }

  lemma AnsweredIsSound(rules: Rules, a: Archive, w: Wire)
    requires Fits(a) && Sound(rules, a, w)
    ensures Sound(rules, a, Answered(w)) && AllLate(Answered(w).since)
  {
    SuccessorIsOrder(rules, w.state, w.state, w.state);
  }

  lemma {:induction false} MoreLost(since: seq<Arrival>, lost: set<Request>, request: Request)
    requires LateWereLost(since, lost)
    ensures LateWereLost(since, lost + {request})
  {
    if since != [] {
      MoreLost(since[..|since| - 1], lost, request);
    }
  }

  lemma GivenUpIsSound(rules: Rules, a: Archive, w: Wire, request: Request)
    requires Fits(a) && Sound(rules, a, w) && Carries(a, w.held, request)
    ensures Sound(rules, a, GivenUp(w, request))
  {
    MoreLost(w.since, w.lost, request);
    assert forall other :: other in GivenUp(w, request).lost ==> other in w.lost || other == request;
  }

  lemma SinceGrows(since: seq<Arrival>, a: Arrival, lost: set<Request>)
    ensures Numbers(since + [a]) == Numbers(since) + {a.request.number}
    ensures AllLate(since) && a.late ==> AllLate(since + [a])
    ensures LateWereLost(since, lost) && (a.late ==> a.request in lost) ==> LateWereLost(since + [a], lost)
  {
    assert (since + [a])[..|since|] == since;
  }

  lemma ArrivedIsSound(rules: Rules, a: Archive, w: Wire, request: Request, late: bool)
    requires Fits(a) && Sound(rules, a, w) && (late ==> request in w.lost) && Carries(a, w.held, request)
    ensures var next := Arrived(rules, w, request, late);
      && Sound(rules, a, next) && w.held.Keys <= next.held.Keys
      && Successor(rules, w.state, next.state) && next.shown == w.shown && next.lost == w.lost
      && (AllLate(w.since) && late ==> AllLate(next.since))
  {
    ArrivedIsTracked(rules, w, request, late);
    ArrivedIsBacked(rules, a, w, request, late);
  }

  lemma ArrivedIsTracked(rules: Rules, w: Wire, request: Request, late: bool)
    requires Tracked(rules, w) && (late ==> request in w.lost)
    ensures var next := Arrived(rules, w, request, late);
      && Tracked(rules, next) && Successor(rules, w.state, next.state) && next.shown == w.shown && next.lost == w.lost
      && (AllLate(w.since) && late ==> AllLate(next.since))
  {
    var next := Arrived(rules, w, request, late);
    ArrivedMovesOn(rules, w, request, late);
    SuccessorIsOrder(rules, w.shown, w.state, next.state);
    SinceGrows(w.since, Arrival(request, late), w.lost);
  }

  lemma ArrivedIsBacked(rules: Rules, a: Archive, w: Wire, request: Request, late: bool)
    requires Fits(a) && Backed(a, w) && Valid(rules, w.state) && Carries(a, w.held, request)
    ensures Backed(a, Arrived(rules, w, request, late)) && w.held.Keys <= Arrived(rules, w, request, late).held.Keys
  {
    var next := Arrived(rules, w, request, late);
    ArrivedMovesOn(rules, w, request, late);
    if next != w {
      if request.bytes.Some? {
        LandedIsBacked(a, w, Sent(request.number, request.bytes.value));
      }
      forall other | other in next.lost ensures Carries(a, next.held, other) {
        assert Carries(a, w.held, other);
      }
    }
  }

  lemma ArrivedMovesOn(rules: Rules, w: Wire, request: Request, late: bool)
    requires Valid(rules, w.state)
    ensures var next := Arrived(rules, w, request, late);
      && Successor(rules, w.state, next.state)
      && (next == w || (next.state.parts.Keys == w.state.parts.Keys + {request.number} &&
            next.since == if request.number in w.state.parts then w.since else w.since + [Arrival(request, late)]))
  {
    SuccessorIsOrder(rules, w.state, w.state, w.state);
    if RecordPart(rules, w.state, request.number, request.part).Ok? {
      RecordedKeys(rules, w.state, request.number, request.part);
    }
  }

  lemma RecordedKeys(rules: Rules, s: State, number: nat, part: PartRecord)
    requires RecordPart(rules, s, number, part).Ok?
    ensures RecordPart(rules, s, number, part).value.parts.Keys == s.parts.Keys + {number}
    ensures Successor(rules, s, RecordPart(rules, s, number, part).value)
  {
  }

  lemma CompletedIsSound(rules: Rules, a: Archive, w: Wire, receipt: Receipt)
    requires Fits(a) && Sound(rules, a, w)
    ensures var next := Completed(rules, w, receipt);
      && Sound(rules, a, next) && Successor(rules, w.state, next.state)
      && next.shown == w.shown && next.since == w.since && next.lost == w.lost && next.held == w.held
  {
    var next := Completed(rules, w, receipt);
    SuccessorIsOrder(rules, w.state, w.state, w.state);
    StepsAreSuccessors(rules, w.state, 0, PartRecord("", 0), receipt);
    SuccessorIsOrder(rules, w.shown, w.state, next.state);
  }

  // ----- Sending a part's bytes -----

  /** One time a part's bytes were sent: whether the last reply showed the part recorded, whether
      the server had it recorded by then, and whether a late request had recorded it since that
      reply. */
  datatype Sending = Sending(number: nat, shown: bool, recorded: bool, late: bool)

  function SendingOf(w: Wire, number: nat): Sending
  {
    Sending(number, number in w.shown.parts, number in w.state.parts, number in LateNumbers(w.since))
  }

  /** Bytes are sent only of a part the last reply lacks, and they were there already just when a
      request given up on had arrived after that reply. */
  predicate Exact(s: Sending) { !s.shown && (s.recorded <==> s.late) }

  predicate OnlyExact(before: seq<Sending>, after: seq<Sending>)
  {
    before <= after && forall i :: |before| <= i < |after| ==> Exact(after[i])
  }

  lemma {:induction false} LateIsAll(since: seq<Arrival>)
    requires AllLate(since)
    ensures LateNumbers(since) == Numbers(since)
  {
    if since != [] {
      LateIsAll(since[..|since| - 1]);
    }
  }

  /** A part that came late was asked for by a request that was given up on. */
  lemma {:induction false} LateWasLost(since: seq<Arrival>, lost: set<Request>, number: nat) returns (request: Request)
    requires LateWereLost(since, lost) && number in LateNumbers(since)
    ensures request in lost && request.number == number
  {
    var last := since[|since| - 1];
    request := last.request;
    if !last.late || last.request.number != number {
      request := LateWasLost(since[..|since| - 1], lost, number);
    }
  }

  lemma SendingIsExact(rules: Rules, a: Archive, w: Wire, number: nat)
    requires Fits(a) && Sound(rules, a, w) && AllLate(w.since) && number !in w.shown.parts
    ensures Exact(SendingOf(w, number))
    ensures SendingOf(w, number).recorded ==> exists request :: request in w.lost && request.number == number
  {
    LateIsAll(w.since);
    if SendingOf(w, number).late {
      var request := LateWasLost(w.since, w.lost, number);
    }
  }

  /** A part that arrives late, and first since the last reply, is on the server by then. */
  lemma FirstLate(rules: Rules, w: Wire, request: Request)
    requires w.shown == w.state && w.since == [] && request.number !in w.state.parts
    requires RecordPart(rules, w.state, request.number, request.part).Ok?
    ensures SendingOf(w, request.number) == Sending(request.number, false, false, false)
    ensures SendingOf(Arrived(rules, w, request, true), request.number) == Sending(request.number, false, true, true)
  {
    var next := RecordPart(rules, w.state, request.number, request.part).value;
    var since := [] + [Arrival(request, true)];
    assert Arrived(rules, w, request, true).state == next && Arrived(rules, w, request, true).since == since;
    RecordedKeys(rules, w.state, request.number, request.part);
    assert since[..0] == [] && LateNumbers([]) == {};
    assert LateNumbers(since) == {request.number};
  }

  /** The one way a recorded part is sent again: a request to record it is given up on, the reply
      that begins the next run lacks the part, and the request arrives before its bytes are sent. */
  lemma LateRecordIsSentAgain(rules: Rules, a: Archive, before: Wire, request: Request)
    requires Fits(a) && Sound(rules, a, before) && request.number !in before.state.parts
    requires RecordPart(rules, before.state, request.number, request.part).Ok? && Carries(a, before.held, request)
    ensures var begun := Answered(GivenUp(before, request));
      var later := Arrived(rules, begun, request, true);
      && request in begun.lost && Sound(rules, a, later) && AllLate(later.since)
      && SendingOf(begun, request.number) == Sending(request.number, false, false, false)
      && SendingOf(later, request.number) == Sending(request.number, false, true, true)
  {
    var begun := Answered(GivenUp(before, request));
    FirstLate(rules, begun, request);
    GivenUpIsSound(rules, a, before, request);
    AnsweredIsSound(rules, a, GivenUp(before, request));
    ArrivedIsSound(rules, a, begun, request, true);
  }

  /** From one moment to a later one. */
  ghost predicate Onward(rules: Rules, w: Wire, log: seq<Sending>, w': Wire, log': seq<Sending>)
  {
    && Successor(rules, w.state, w'.state) && w.held.Keys <= w'.held.Keys
    && w.lost <= w'.lost && OnlyExact(log, log')
  }

  lemma OnwardTwice(
      rules: Rules, w: Wire, log: seq<Sending>, w': Wire, log': seq<Sending>, w'': Wire, log'': seq<Sending>)
    requires Onward(rules, w, log, w', log') && Onward(rules, w', log', w'', log'')
    ensures Onward(rules, w, log, w'', log'')
  {
    SuccessorIsOrder(rules, w.state, w'.state, w''.state);
  }

  // ----- The server -----

  /** The server's side of one upload, and the object store's. */
  class Gateway {
    const rules: Rules
    const archive: Archive
    var wire: Wire
    var completing: bool
    ghost var log: seq<Sending>

    /** What was recorded before is held. */
    constructor (rules: Rules, archive: Archive, state: State, held: map<nat, seq<byte>>)
      requires Fits(archive) && Valid(rules, state) && Backed(archive, Wire(state, state, [], {}, held, {}))
      ensures this.rules == rules && this.archive == archive
      ensures wire == Wire(state, state, [], {}, held, {}) && Holds() && log == []
    {
      SuccessorIsOrder(rules, state, state, state);
      this.rules, this.archive, wire, completing, log := rules, archive, Wire(state, state, [], {}, held, {}), false, [];
    }

    ghost predicate Holds()
      reads this
    {
      Fits(archive) && Sound(rules, archive, wire)
    }

    /** What every call keeps: the server only moves on, no request given up on and no bytes held are
        forgotten, every recorded part is held, and the log stays exact. */
    twostate predicate Kept()
      reads this
    {
      Holds() && Onward(rules, old(wire), old(log), wire, log)
    }

    twostate predicate MovesOn()
      reads this
    {
      Successor(rules, old(wire.state), wire.state) && old(wire.held).Keys <= wire.held.Keys
    }

    ghost method Log(number: nat)
      requires Holds() && AllLate(wire.since) && number !in wire.shown.parts
      modifies this`log
      ensures log == old(log) + [SendingOf(wire, number)] && Exact(SendingOf(wire, number))
    {
      SendingIsExact(rules, archive, wire, number);
      log := log + [SendingOf(wire, number)];
    }

    /** One late request arrives. */
    method Happen()
      requires Holds()
      modifies this`wire
      ensures Holds() && MovesOn()
      ensures wire.shown == old(wire.shown) && wire.lost == old(wire.lost)
      ensures AllLate(old(wire.since)) ==> AllLate(wire.since)
    {
      var request: Request, receipt: Receipt, sent: Sent := *, *, *;
      if sent in wire.puts {
        SuccessorIsOrder(rules, wire.state, wire.state, wire.state);
        PutIsSound(rules, archive, wire, sent);
        wire := PutArrived(wire, sent);
      } else if request in wire.lost {
        ArrivedIsSound(rules, archive, wire, request, true);
        wire := Arrived(rules, wire, request, true);
      } else {
        SuccessorIsOrder(rules, wire.state, wire.state, wire.state);
        if completing {
          CompletedIsSound(rules, archive, wire, receipt);
          wire := Completed(rules, wire, receipt);
        }
      }
    }

    /** Between two requests any of those given up on may arrive. */
    method Drift()
      requires Holds()
      modifies this`wire
      ensures Holds() && MovesOn()
      ensures wire.shown == old(wire.shown) && wire.lost == old(wire.lost)
      ensures AllLate(old(wire.since)) ==> AllLate(wire.since)
    {
      SuccessorIsOrder(rules, wire.state, wire.state, wire.state);
      var steps: int := *;
      for step := 0 to Max(0, steps)
        invariant Holds() && MovesOn()
        invariant wire.shown == old(wire.shown) && wire.lost == old(wire.lost)
        invariant AllLate(old(wire.since)) ==> AllLate(wire.since)
      {
        ghost var before := wire.state;
        Happen();
        SuccessorIsOrder(rules, old(wire.state), before, wire.state);
      }
    }

    method ArriveNow(request: Request) returns (recorded: bool)
      requires Holds() && Carries(archive, wire.held, request)
      modifies this`wire
      ensures Holds() && MovesOn() && wire.lost == old(wire.lost)
      ensures recorded ==> request.number in wire.state.parts && wire.state.parts[request.number] == request.part
    {
      recorded := RecordPart(rules, wire.state, request.number, request.part).Ok?;
      ArrivedIsSound(rules, archive, wire, request, false);
      wire := Arrived(rules, wire, request, false);
    }

    /** A request to record a part arrives, after whatever arrives before it, or is refused. */
    method Arrive(request: Request) returns (recorded: bool)
      requires Holds() && Carries(archive, wire.held, request)
      modifies this`wire
      ensures Holds() && MovesOn() && wire.lost == old(wire.lost) && Carries(archive, wire.held, request)
      ensures recorded ==> request.number in wire.state.parts && wire.state.parts[request.number] == request.part
    {
      Drift();
      ghost var before := wire.state;
      recorded := ArriveNow(request);
      SuccessorIsOrder(rules, old(wire.state), before, wire.state);
    }

    /** A PUT to the object store: only an answer of 200 or 409 says that the part is there, and
        after any other the bytes may have landed or may still land. */
    method Put(number: nat, bytes: seq<byte>) returns (reply: PutReply)
      requires Holds() && Own(archive, number, bytes)
      modifies this`wire
      ensures Holds() && MovesOn() && wire.lost == old(wire.lost) && wire.shown == old(wire.shown)
      ensures AllLate(old(wire.since)) ==> AllLate(wire.since)
      ensures reply == Code(200) || reply == Code(409) ==> number in wire.held && wire.held[number] == bytes
    {
      Drift();
      reply := *;
      var lands: bool := *;
      PutIsSound(rules, archive, wire, Sent(number, bytes));
      if reply == Code(409) && number !in wire.held {
        reply := NoAnswer;
      }
      if reply == Code(200) || lands {
        wire := PutArrived(wire, Sent(number, bytes));
      } else {
        wire := PutSent(wire, Sent(number, bytes));
      }
      HeldIsOwn(archive, wire, number);
    }

    /** A reply that comes back. */
    method Reply() returns (reply: State)
      requires Holds()
      modifies this`wire
      ensures Holds() && wire.state == old(wire.state) && wire.lost == old(wire.lost) && wire.held == old(wire.held)
      ensures reply == wire.shown == wire.state && AllLate(wire.since)
    {
      AnsweredIsSound(rules, archive, wire);
      wire := Answered(wire);
      return wire.shown;
    }

    /** A PUT of a part that the last reply lacks. */
    method PutPart(number: nat, bytes: seq<byte>) returns (reply: PutReply)
      requires Holds() && Own(archive, number, bytes) && AllLate(wire.since) && number !in wire.shown.parts
      modifies this`wire, this`log
      ensures Kept() && |log| == |old(log)| + 1 && wire.shown == old(wire.shown) && AllLate(wire.since)
      ensures reply == Code(200) || reply == Code(409) ==> number in wire.held && wire.held[number] == bytes
    {
      Log(number);
      reply := Put(number, bytes);
    }

    /** The reply to a request was given up on: it may still arrive later, whether it arrived now
        or not. */
    method GiveUp(request: Request)
      requires Holds() && Carries(archive, wire.held, request)
      modifies this`wire
      ensures Holds() && wire == GivenUp(old(wire), request)
    {
      GivenUpIsSound(rules, archive, wire, request);
      wire := GivenUp(wire, request);
    }

    /** A reply that shows the present state, when it comes back. */
    method Show(weather: Weather) returns (reply: Option<State>)
      requires Holds()
      modifies this`wire
      ensures Holds() && MovesOn() && wire.lost == old(wire.lost)
      ensures reply.Some? ==> reply.value == wire.shown && AllLate(wire.since)
    {
      Drift();
      if !weather.Fair? {
        return None;
      }
      var shown := Reply();
      return Some(shown);
    }

    /** A request to record a part. Without a reply or a refusal it may still arrive later. */
    method Record(request: Request, weather: Weather) returns (reply: Option<State>)
      requires Holds() && Carries(archive, wire.held, request)
      modifies this`wire
      ensures Holds() && MovesOn()
      ensures reply.Some? ==> reply.value == wire.shown && AllLate(wire.since)
      ensures reply.Some? ==> request.number in reply.value.parts && reply.value.parts[request.number] == request.part
      ensures wire.lost == old(wire.lost) || (reply.None? && wire.lost == old(wire.lost) + {request})
    {
      if weather.LostRequest? {
        Drift();
        GiveUp(request);
        return None;
      }
      var recorded := Arrive(request);
      if !recorded {
        return None;
      }
      if weather.LostReply? {
        GiveUp(request);
        return None;
      }
      var shown := Reply();
      return Some(shown);
    }

    /** From now on the archive may become complete at any time. */
    method Complete()
      modifies this`completing
      ensures completing
    {
      completing := true;
    }
  }

  /** One running upload. */
  class Uploader {
    const sha: Sha
    const archive: Archive
    const gateway: Gateway
    var direct: bool
    var sentDirectly: bool

    constructor (sha: Sha, archive: Archive, gateway: Gateway, direct: bool)
      ensures this.sha == sha && this.archive == archive && this.gateway == gateway
    {
      this.sha, this.archive, this.gateway, this.direct, this.sentDirectly := sha, archive, gateway, direct, false;
    }

    /** The client's snapshot is the last reply, and only late requests have arrived since. */
    ghost predicate Knows(current: State)
      reads gateway
    {
      gateway.Holds() && gateway.archive == archive && current == gateway.wire.shown && AllLate(gateway.wire.since)
    }

    /** One PUT of a part's bytes, and what its answer means. */
    method PutOnce(number: nat, current: State) returns (outcome: Put)
      requires Knows(current) && number !in current.parts && number < Count(archive)
      modifies gateway
      ensures gateway.Kept() && Knows(current) && |gateway.log| == |old(gateway.log)| + 1
      ensures outcome.Stored? ==> number in gateway.wire.held && gateway.wire.held[number] == PartBytes(archive, number)
    {
      var reply := gateway.PutPart(number, PartBytes(archive, number));
      outcome := Judged(reply);
    }

    /** A new ticket and one PUT each time, at most twelve times. True means that the part's own
        bytes are in the object store, and false that there is none. */
    method PutToStore(number: nat, current: State) returns (r: Result<bool, Failure>)
      requires Knows(current) && number !in current.parts && number < Count(archive)
      modifies gateway
      ensures gateway.Kept() && Knows(current)
      ensures |gateway.log| <= |old(gateway.log)| + ATTEMPTS
      ensures r == Ok(true) ==> number in gateway.wire.held && gateway.wire.held[number] == PartBytes(archive, number)
    {
      var count := 0;
      SuccessorIsOrder(gateway.rules, gateway.wire.state, gateway.wire.state, gateway.wire.state);
      while true
        invariant count < ATTEMPTS && |gateway.log| <= |old(gateway.log)| + count
        invariant gateway.Kept() && Knows(current)
        decreases ATTEMPTS - count
      {
        count := count + 1;
        ghost var before, logged := gateway.wire, gateway.log;
        var ticket: Ticket := *;
        if ticket.NoStore? {
          return Ok(false);
        }
        if ticket.Denied? {
          return Err(Transport);
        }
        if ticket.Granted? {
          var outcome := PutOnce(number, current);
          OnwardTwice(gateway.rules, old(gateway.wire), old(gateway.log), before, logged, gateway.wire, gateway.log);
          if outcome.Stored? {
            return Ok(true);
          }
          if outcome.Refused? {
            return Err(Stopped);
          }
        }
        if count >= ATTEMPTS {
          return Err(GaveUp);
        }
      }
    }

    /** Asks the server to record a stored part, at most twelve times. */
    method RecordStored(number: nat, part: PartRecord) returns (r: Result<State, Failure>)
      requires gateway.Holds() && gateway.archive == archive && number in gateway.wire.held
      modifies gateway
      ensures gateway.Kept() && gateway.log == old(gateway.log)
      ensures r.Ok? ==> Knows(r.value)
    {
      var count := 0;
      SuccessorIsOrder(gateway.rules, gateway.wire.state, gateway.wire.state, gateway.wire.state);
      while true
        invariant count < ATTEMPTS && number in gateway.wire.held
        invariant gateway.Kept() && gateway.log == old(gateway.log)
        decreases ATTEMPTS - count
      {
        count := count + 1;
        var weather: Weather := *;
        ghost var before, logged := gateway.wire, gateway.log;
        var reply := gateway.Record(Request(number, part, None), weather);
        OnwardTwice(gateway.rules, old(gateway.wire), old(gateway.log), before, logged, gateway.wire, gateway.log);
        if reply.Some? {
          return Ok(reply.value);
        }
        if count >= ATTEMPTS {
          return Err(GaveUp);
        }
      }
    }

    /** Sends one part through the object store, or None when there is no object store. */
    method SendDirect(number: nat, part: PartRecord, current: State) returns (r: Result<Option<State>, Failure>)
      requires Knows(current) && number !in current.parts && number < Count(archive)
      modifies gateway
      ensures gateway.Kept()
      ensures r.Ok? && r.value.None? ==> Knows(current) && !sentDirectly
      ensures r.Ok? && r.value.Some? ==> Knows(r.value.value)
    {
      var stored := PutToStore(number, current);
      if stored.Err? {
        return Err(stored.error);
      }
      if !stored.value {
        return if sentDirectly then Err(GaveUp) else Ok(None);
      }
      ghost var before, logged := gateway.wire, gateway.log;
      var recorded := RecordStored(number, part);
      OnwardTwice(gateway.rules, old(gateway.wire), old(gateway.log), before, logged, gateway.wire, gateway.log);
      return if recorded.Ok? then Ok(Some(recorded.value)) else Err(recorded.error);
    }

    method SendThroughServer(number: nat, part: PartRecord, current: State) returns (r: Result<State, Failure>)
      requires Knows(current) && number !in current.parts && number < Count(archive)
      modifies gateway
      ensures gateway.Kept()
      ensures r.Ok? ==> Knows(r.value)
    {
      gateway.Log(number);
      var weather: Weather := *;
      ghost var before, logged := gateway.wire, gateway.log;
      var reply := gateway.Record(Request(number, part, Some(PartBytes(archive, number))), weather);
      OnwardTwice(gateway.rules, old(gateway.wire), old(gateway.log), before, logged, gateway.wire, gateway.log);
      return if reply.Some? then Ok(reply.value) else Err(Transport);
    }

    /** The bytes of one missing part, one way or the other. */
    method Transfer(number: nat, part: PartRecord, current: State) returns (r: Result<State, Failure>)
      requires Knows(current) && number !in current.parts && number < Count(archive)
      modifies this, gateway
      ensures gateway.Kept()
      ensures r.Ok? ==> Knows(r.value)
    {
      SuccessorIsOrder(gateway.rules, gateway.wire.state, gateway.wire.state, gateway.wire.state);
      if direct {
        var sent := SendDirect(number, part, current);
        if sent.Err? {
          return Err(sent.error);
        }
        sentDirectly := sent.value.Some?;
        if sent.value.Some? {
          return Ok(sent.value.value);
        }
        direct := false;
      }
      ghost var before, logged := gateway.wire, gateway.log;
      r := SendThroughServer(number, part, current);
      OnwardTwice(gateway.rules, old(gateway.wire), old(gateway.log), before, logged, gateway.wire, gateway.log);
    }

    /** One missing part. Success means that a reply shows it recorded with its own hash. */
    method Send(number: nat, current: State) returns (r: Result<State, Failure>)
      requires Knows(current) && number < Count(archive) && number !in current.parts
      modifies this, gateway
      ensures gateway.Kept()
      ensures r.Ok? ==> Knows(r.value) && Successor(gateway.rules, current, r.value)
      ensures r.Ok? ==> number in r.value.parts && r.value.parts[number] == RecordOf(sha, archive, number)
    {
      var part := RecordOf(sha, archive, number);
      var sent := Transfer(number, part, current);
      if sent.Err? {
        return sent;
      }
      var next := sent.value;
      if !Successor(gateway.rules, current, next) || number !in next.parts || next.parts[number] != part {
        return Err(Response);
      }
      return Ok(next);
    }

    /** One part: nothing to do when a reply shows it recorded as it should be, and otherwise it is
        sent. */
    method Settle(number: nat, current: State) returns (r: Result<State, Failure>)
      requires Knows(current) && number < Count(archive)
      modifies this, gateway
      ensures gateway.Kept()
      ensures number in current.parts ==> gateway.log == old(gateway.log)
      ensures r.Ok? ==> Knows(r.value) && Successor(gateway.rules, current, r.value)
      ensures r.Ok? ==> number in r.value.parts && r.value.parts[number] == RecordOf(sha, archive, number)
      ensures r.Ok? ==> number in gateway.wire.held && gateway.wire.held[number] == PartBytes(archive, number)
    {
      SuccessorIsOrder(gateway.rules, gateway.wire.state, gateway.wire.state, gateway.wire.state);
      SuccessorIsOrder(gateway.rules, current, current, current);
      if number !in current.parts {
        r := Send(number, current);
      } else if current.parts[number] != RecordOf(sha, archive, number) {
        r := Err(Response);
      } else {
        r := Ok(current);
      }
      if r.Ok? {
        ShownIsHeld(gateway.rules, archive, r.value, gateway.wire, number);
      }
    }

    /** With one part settled, one part more is recorded as it should be. */
    method SettleNext(number: nat, current: State) returns (r: Option<State>)
      requires Knows(current) && number < Count(archive)
      requires current.definition == archive.definition && RecordedTo(sha, archive, current, number)
      modifies this, gateway
      ensures gateway.Kept()
      ensures r.Some? ==> Knows(r.value) && r.value.definition == archive.definition
      ensures r.Some? ==> RecordedTo(sha, archive, r.value, number + 1)
    {
      var settled := Settle(number, current);
      if settled.Err? {
        return None;
      }
      RecordedOneMore(sha, archive, gateway.rules, current, settled.value, number);
      return Some(settled.value);
    }

    /** The loop over the parts: each is settled before the next. */
    method SendMissing(begun: State) returns (all: Option<State>)
      requires Knows(begun) && begun.definition == archive.definition
      modifies this, gateway
      ensures gateway.Kept()
      ensures all.Some? ==> Knows(all.value) && AllRecorded(sha, archive, all.value)
      ensures all.Some? ==> Whole(archive, gateway.wire.held)
    {
      var current := begun;
      SuccessorIsOrder(gateway.rules, gateway.wire.state, gateway.wire.state, gateway.wire.state);
      for number := 0 to Count(archive)
        invariant gateway.Kept() && Knows(current) && current.definition == archive.definition
        invariant RecordedTo(sha, archive, current, number)
      {
        ghost var before, logged := gateway.wire, gateway.log;
        var settled := SettleNext(number, current);
        OnwardTwice(gateway.rules, old(gateway.wire), old(gateway.log), before, logged, gateway.wire, gateway.log);
        if settled.None? {
          return None;
        }
        current := settled.value;
      }
      ShownIsWhole(sha, archive, gateway.rules, current, gateway.wire);
      return Some(current);
    }

    /** What a run does once a reply has shown where the upload stands. */
    method Continue(begun: State) returns (asked: Option<State>)
      requires Knows(begun) && begun.definition == archive.definition
      modifies this, gateway
      ensures gateway.Kept()
      ensures asked.Some? ==> Successor(gateway.rules, asked.value, gateway.wire.state)
      ensures asked.Some? ==> asked.value.ready.Some? || AllRecorded(sha, archive, asked.value)
      ensures asked.Some? && asked.value.ready.None? ==> Whole(archive, gateway.wire.held)
    {
      asked := Some(begun);
      SuccessorIsOrder(gateway.rules, gateway.wire.state, gateway.wire.state, gateway.wire.state);
      if begun.ready.None? {
        asked := SendMissing(begun);
      }
      if asked.Some? {
        gateway.Complete();
      }
    }

    /** Asks where the upload of this archive stands. */
    method Begin() returns (begun: Option<State>)
      requires gateway.Holds() && gateway.archive == archive
      modifies gateway
      ensures gateway.Kept() && gateway.log == old(gateway.log)
      ensures begun.Some? ==> Knows(begun.value) && begun.value.definition == archive.definition
    {
      var weather: Weather := *;
      begun := gateway.Show(weather);
      if begun.Some? && begun.value.definition != archive.definition {
        begun := None;
      }
    }

    /** One run of the upload, which may end at any request. The result tells whether it asked
        the server to complete the archive, with what the last reply showed. */
    method Run() returns (asked: Option<State>)
      requires gateway.Holds() && gateway.archive == archive
      modifies this, gateway
      ensures gateway.Kept()
      ensures asked.Some? ==> Successor(gateway.rules, asked.value, gateway.wire.state)
      ensures asked.Some? ==> asked.value.ready.Some? || AllRecorded(sha, archive, asked.value)
      ensures asked.Some? && asked.value.ready.None? ==> Whole(archive, gateway.wire.held)
    {
      var begun := Begin();
      if begun.None? {
        return None;
      }
      ghost var before, logged := gateway.wire, gateway.log;
      asked := Continue(begun.value);
      OnwardTwice(gateway.rules, old(gateway.wire), old(gateway.log), before, logged, gateway.wire, gateway.log);
    }
  }

  /** Any number of runs, each ending wherever it does, with requests given up on arriving whenever
      they do. No recorded part is ever lost or changed; bytes are sent only of a part that the
      last reply lacks, and the server had that part already just when such a request had arrived
after that reply; and once some run has asked to complete an archive that was not ready, every
      part is recorded with its own hash, and the parts that are held make up the archive. */
  method Resume(sha: Sha, archive: Archive, gateway: Gateway, runs: nat) returns (asked: bool)
    requires gateway.Holds() && gateway.archive == archive
    modifies gateway
    ensures gateway.Kept()
    ensures asked ==> gateway.wire.state.ready.Some? || AllRecorded(sha, archive, gateway.wire.state)
    ensures asked && gateway.wire.state.ready.None? ==> Whole(archive, gateway.wire.held)
  {
    asked := false;
    SuccessorIsOrder(gateway.rules, gateway.wire.state, gateway.wire.state, gateway.wire.state);
    for run := 0 to runs
      invariant gateway.Kept()
      invariant asked ==> gateway.wire.state.ready.Some? || AllRecorded(sha, archive, gateway.wire.state)
    {
      ghost var before, logged := gateway.wire, gateway.log;
      var direct: bool := *;
      var uploader := new Uploader(sha, archive, gateway, direct);
      var again := uploader.Run();
      OnwardTwice(gateway.rules, old(gateway.wire), old(gateway.log), before, logged, gateway.wire, gateway.log);
      if asked && before.state.ready.None? {
        RecordedKeeps(sha, archive, gateway.rules, before.state, gateway.wire.state, Count(archive));
      }
      if again.Some? && again.value.ready.None? {
        RecordedKeeps(sha, archive, gateway.rules, again.value, gateway.wire.state, Count(archive));
      }
      asked := asked || again.Some?;
    }
    if asked && gateway.wire.state.ready.None? {
      RecordedIsWhole(sha, archive, gateway.wire);
    }
  }
}
