/** How the server takes a packet of an attached stream: an intent, the record store, a receipt and
    the cursor are four durable writes, and the server may stop between any two of them. */
module LocalIngest {
  import opened Basics
  import opened LocalCursor

  // ----- The record store keeps each event once -----

  /** The events of a sequence where they occur first. */
  function Firsts<T(==)>(s: seq<T>): seq<T>
  {
    if s == [] then []
    else
      var before, last := Firsts(s[..|s| - 1]), s[|s| - 1];
      if last in before then before else before + [last]
  }

  function Appended<T(==)>(journal: seq<T>, events: seq<T>): seq<T>
    decreases |events|
  {
    if events == [] then journal
    else Appended(if events[0] in journal then journal else journal + [events[0]], events[1..])
  }

  lemma {:induction false} FirstsAre<T>(s: seq<T>, e: T)
    ensures e in Firsts(s) <==> e in s
    ensures forall i, j :: 0 <= i < j < |Firsts(s)| ==> Firsts(s)[i] != Firsts(s)[j]
  {
    if s != [] {
      var front, last := s[..|s| - 1], s[|s| - 1];
      FirstsAre(front, e);
      FirstsAre(front, last);
      assert s == front + [last];
    }
  }

  lemma {:induction false} FirstsStep<T>(s: seq<T>, e: T)
    ensures Firsts(s + [e]) == if e in Firsts(s) then Firsts(s) else Firsts(s) + [e]
  {
    assert (s + [e])[..|s|] == s;
  }

  /** Appending to what is kept of a sequence is keeping what the longer one has. */
  lemma {:induction false} AppendedIsFirsts<T>(s: seq<T>, events: seq<T>)
    ensures Appended(Firsts(s), events) == Firsts(s + events)
    decreases |events|
  {
    if events == [] {
      assert s + events == s;
    } else {
      var next := s + [events[0]];
      assert next + events[1..] == s + events;
      FirstsStep(s, events[0]);
      FirstsAre(s, events[0]);
      AppendedIsFirsts(next, events[1..]);
    }
  }

  /** Appending the same events again changes nothing. */
  lemma {:induction false} AppendedAgain<T>(journal: seq<T>, events: seq<T>)
    requires forall e :: e in events ==> e in journal
    ensures Appended(journal, events) == journal
    decreases |events|
  {
    if events != [] {
      assert events[0] in events;
      AppendedAgain(journal, events[1..]);
    }
  }

  lemma {:induction false} AppendedStep<T>(journal: seq<T>, events: seq<T>, k: nat)
    requires k < |events|
    ensures var before := Appended(journal, events[..k]);
      Appended(journal, events[..k + 1]) == if events[k] in before then before else before + [events[k]]
    decreases k
  {
    if k > 0 {
      var next := if events[0] in journal then journal else journal + [events[0]];
      AppendedStep(next, events[1..], k - 1);
      assert events[..k + 1][1..] == events[1..][..k] && events[..k][1..] == events[1..][..k - 1];
    } else {
      assert events[..1][1..] == [] && events[..0] == [];
    }
  }

  lemma {:induction false} AppendedGrows<T>(journal: seq<T>, events: seq<T>)
    ensures journal <= Appended(journal, events)
    decreases |events|
  {
    if events != [] {
      AppendedGrows(if events[0] in journal then journal else journal + [events[0]], events[1..]);
    }
  }

  // ----- What is kept of a stream -----

  /** Where a packet's intent and receipt are kept: its offset, and whether it brings bytes. */
  datatype Place = Place(offset: nat, data: bool)

  function PlaceOf(p: Packet): Place { Place(p.offset, p.bytes != []) }

  datatype Receipt = Receipt(packet: Link, offset: nat, chain: Link, finished: Option<Finish>, through: nat)

  function ReceiptOf(packet: Link, next: Cursor, through: nat): Receipt
  {
    Receipt(packet, next.offset, next.chain, next.finished, through)
  }

  /** The receipt of exactly this packet. */
  predicate Answers(receipt: Receipt, packet: Link, p: Packet)
  {
    && receipt.packet == packet && receipt.chain == packet
    && receipt.offset == p.offset + |p.bytes| && receipt.finished == p.finish
  }

  /** An event's identity is made of its content: two events of one identity are one event. */
  type Name<!E> = Event<E> -> string

  ghost predicate NameRule<E(!new)>(name: Name<E>) { forall e: Event<E>, f: Event<E> :: name(e) == name(f) ==> e == f }

  ghost predicate Agreeing<E>(name: Name<E>, events: seq<Event<E>>)
  {
    forall e, f :: e in events && f in events && name(e) == name(f) ==> e == f
  }

  ghost predicate Names<E>(name: Name<E>, ids: map<string, Event<E>>, journal: seq<Event<E>>)
  {
    && (forall e :: e in journal ==> name(e) in ids && ids[name(e)] == e)
    && (forall n :: n in ids ==> ids[n] in journal && name(ids[n]) == n)
  }

  /** The files of one attached Run, but for its record store. */
  datatype Files = Files(cursor: Cursor, receipts: map<Place, Receipt>, intents: map<Place, Link>)

  /** A place before the cursor, where nothing new can come. */
  predicate Past(cursor: Cursor, place: Place) { place.offset < cursor.offset || cursor.finished.Some? }

  /** The packet whose writes have begun and not ended: the next one, with its events in the journal
      or not, and its receipt only when they are. */
  ghost predicate Begun<E>(
      importer: Importer<E>, hash: Hash, files: Files, journal: seq<Event<E>>, stream: seq<Event<E>>, p: Packet)
  {
    && Advanced(importer, hash, files.cursor, p).Ok?
    && !Past(files.cursor, PlaceOf(p))
    && var (next, events) := Advanced(importer, hash, files.cursor, p).value;
    && PlaceOf(p) in files.intents && files.intents[PlaceOf(p)] == hash(p)
    && (journal == Firsts(stream) || journal == Firsts(stream + events))
    && (PlaceOf(p) in files.receipts ==>
          journal == Firsts(stream + events) && files.receipts[PlaceOf(p)] == ReceiptOf(hash(p), next, |journal|))
  }

  /** Between packets the journal holds exactly the events of the stream, each where it occurs first;
      while one is under way, those or those and its own. Every other receipt and intent is past. */
  ghost predicate Sound<E>(
      importer: Importer<E>, hash: Hash, files: Files, journal: seq<Event<E>>, waiting: Option<Packet>)
  {
    var stream := Stream(importer, files.cursor);
    && stream.Some?
    && (waiting.None? ==> journal == Firsts(stream.value))
    && (waiting.Some? ==> Begun(importer, hash, files, journal, stream.value, waiting.value))
    && (forall n :: n in files.receipts ==>
          Past(files.cursor, n) || (waiting.Some? && n == PlaceOf(waiting.value)))
    && (forall n :: n in files.intents ==>
          Past(files.cursor, n) || (waiting.Some? && n == PlaceOf(waiting.value)))
  }

  /** An accepted packet's place is past from then on, and what was past stays so. */
  lemma AdvancedIsPast<E>(importer: Importer<E>, hash: Hash, cursor: Cursor, p: Packet)
    requires Advanced(importer, hash, cursor, p).Ok?
    ensures var next := Advanced(importer, hash, cursor, p).value.0;
      && Past(next, PlaceOf(p)) && !Past(cursor, PlaceOf(p))
      && forall n :: Past(cursor, n) ==> Past(next, n)
  {
  }

  lemma BeginsSound<E>(importer: Importer<E>, hash: Hash, files: Files, journal: seq<Event<E>>, p: Packet)
    requires Sound(importer, hash, files, journal, None) && Advanced(importer, hash, files.cursor, p).Ok?
    ensures var begun := files.(intents := files.intents[PlaceOf(p) := hash(p)]);
      Sound(importer, hash, begun, journal, Some(p)) && PlaceOf(p) !in files.receipts
  {
    AdvancedIsPast(importer, hash, files.cursor, p);
  }

  /** The events of a begun packet are appended once, however often it is tried. */
  lemma JournalsSound<E>(importer: Importer<E>, hash: Hash, files: Files, journal: seq<Event<E>>, p: Packet)
    requires Sound(importer, hash, files, journal, Some(p))
    ensures var events := Advanced(importer, hash, files.cursor, p).value.1;
      var next := Appended(journal, events);
      && next == Firsts(Stream(importer, files.cursor).value + events)
      && Sound(importer, hash, files, next, Some(p))
  {
    var stream := Stream(importer, files.cursor).value;
    var events := Advanced(importer, hash, files.cursor, p).value.1;
    AppendedIsFirsts(stream, events);
    if journal == Firsts(stream + events) {
      forall e | e in events ensures e in journal {
        FirstsAre(stream + events, e);
        assert e in stream + events;
      }
      AppendedAgain(journal, events);
    }
  }

  lemma EndsSound<E>(importer: Importer<E>, hash: Hash, files: Files, journal: seq<Event<E>>, p: Packet)
    requires Sound(importer, hash, files, journal, Some(p))
    requires var events := Advanced(importer, hash, files.cursor, p).value.1;
      journal == Firsts(Stream(importer, files.cursor).value + events)
    ensures var next := Advanced(importer, hash, files.cursor, p).value.0;
      Sound(importer, hash, files.(cursor := next), journal, None)
  {
    AdvancedIsPast(importer, hash, files.cursor, p);
    AdvanceEmits(importer, hash, files.cursor, p, Stream(importer, files.cursor).value);
  }

  // ----- The server -----

  class Ingress<E(==,!new)> {
    const importer: Importer<E>
    const hash: Hash
    const name: Name<E>
    var files: Files
    var ids: map<string, Event<E>>
    var journal: seq<Event<E>>
    ghost var waiting: Option<Packet>

    constructor (importer: Importer<E>, hash: Hash, name: Name<E>)
      requires NameRule(name)
      ensures this.importer == importer && this.hash == hash && this.name == name
      ensures files == Files(START, map[], map[]) && journal == [] && waiting == None && Valid()
    {
      this.importer, this.hash, this.name := importer, hash, name;
      files, ids, journal, waiting := Files(START, map[], map[]), map[], [], None;
      assert Wrapped<E>([]) == [];
    }

    /** The identities of the store are those of its events. */
    ghost predicate Indexed()
      reads this
    {
      Names(name, ids, journal)
    }

    ghost predicate Valid()
      reads this
    {
      NameRule(name) && Indexed() && Sound(importer, hash, files, journal, waiting)
    }

    /** One transaction: an event of a known identity is passed over, and one whose content differs
        from the known one's undoes it all. */
    method Append(events: seq<Event<E>>) returns (done: bool)
      requires Indexed()
      modifies this`ids, this`journal
      ensures Indexed()
      ensures done <==> Agreeing(name, old(journal) + events)
      ensures journal == if done then Appended(old(journal), events) else old(journal)
    {
      var known, kept := ids, journal;
      ghost var start := journal;
      for k := 0 to |events|
        invariant journal == start && ids == old(ids) && Names(name, known, kept)
        invariant kept == Appended(start, events[..k])
        invariant forall e :: e in kept <==> e in start + events[..k]
      {
        var e := events[k];
        assert start + events[..k + 1] == start + events[..k] + [e];
        AppendedStep(start, events, k);
        if name(e) in known {
          if known[name(e)] != e {
            assert start + events == start + events[..k + 1] + events[k + 1..];
            assert known[name(e)] in start + events && e in start + events;
            return false;
          }
        } else {
          known := known[name(e) := e];
          kept := kept + [e];
        }
      }
      assert events[..|events|] == events;
      ids, journal := known, kept;
      return true;
    }

    /** Whatever is sent while a packet is under way, this keeps the journal to the stream: that packet
        again, one that cannot be next, or another in its place, which its intent refuses. */
    ghost predicate Offered(p: Packet)
      reads this
    {
      waiting.Some? ==>
        || p == waiting.value
        || Advanced(importer, hash, files.cursor, p).Err?
        || (PlaceOf(p) == PlaceOf(waiting.value) && hash(p) != hash(waiting.value))
    }

    /** The next packet, and no other one is under way. */
    ghost predicate Ready(p: Packet)
      reads this
    {
      (waiting.None? || waiting == Some(p)) && Advanced(importer, hash, files.cursor, p).Ok?
    }

    /** This packet was taken, and its receipt is kept. */
    ghost predicate Answered(p: Packet)
      reads this
    {
      && Digest(hash, p).Ok? && Past(files.cursor, PlaceOf(p))
      && PlaceOf(p) in files.receipts && Answers(files.receipts[PlaceOf(p)], hash(p), p)
    }

    /** The last three writes of a packet whose intent is written. */
    method Record(p: Packet, next: Cursor, events: seq<Event<E>>, stops: nat) returns (reply: Option<Receipt>)
      requires Indexed() && Advanced(importer, hash, files.cursor, p) == Ok((next, events))
      modifies this`files, this`ids, this`journal, this`waiting
      ensures Indexed() && old(journal) <= journal
      ensures reply.None? ==> files.cursor == old(files.cursor) && waiting == old(waiting)
      ensures reply.Some? ==>
        && files.cursor == next && waiting.None? && Answered(p) && files.receipts[PlaceOf(p)] == reply.value
      ensures forall q :: old(Answered(q)) ==> Answered(q)
      ensures old(Valid() && waiting == Some(p)) ==> Valid() && (stops > 3 ==> reply.Some?)
    {
      ghost var sound := Valid() && waiting == Some(p);
      AdvancedIsPast(importer, hash, files.cursor, p);
      var place := PlaceOf(p);
      if sound {
        JournalsSound(importer, hash, files, journal, p);
      }
      AppendedGrows(journal, events);
      var appended := Append(events);
      if stops == 2 || !appended {
        return None;
      }
      var ack := ReceiptOf(hash(p), next, |journal|);
      if place in files.receipts {
        if files.receipts[place] != ack {
          return None;
        }
      } else {
        files := files.(receipts := files.receipts[place := ack]);
      }
      if stops == 3 {
        return None;
      }
      if sound {
        EndsSound(importer, hash, files, journal, p);
      }
      files := files.(cursor := next);
      waiting := None;
      return Some(ack);
    }

    /** One delivered packet. The server stops after `stops` of its writes, or answers with the
        receipt. */
    method Ingest(p: Packet, stops: nat) returns (reply: Option<Receipt>)
      requires Indexed()
      modifies this`files, this`ids, this`journal, this`waiting
      ensures Indexed() && old(journal) <= journal
      ensures files.cursor == old(files.cursor) ||
        (Advanced(importer, hash, old(files.cursor), p).Ok? && waiting.None? && reply.Some?
         && files.cursor == Advanced(importer, hash, old(files.cursor), p).value.0)
      ensures waiting == old(waiting) || waiting.None? || waiting == Some(p)
      ensures reply.Some? ==> Answered(p) && reply.value == files.receipts[PlaceOf(p)]
      ensures forall q :: old(Answered(q)) ==> Answered(q)
      ensures old(Answered(p)) ==> reply.Some? && files == old(files)
      ensures old(Valid() && Offered(p)) ==> Valid()
      ensures old(Valid() && Ready(p)) && stops > 3 ==>
        reply.Some? && waiting.None? && files.cursor == Advanced(importer, hash, old(files.cursor), p).value.0
    {
      ghost var sound := Valid() && Offered(p);
      var digest := Digest(hash, p);
      if digest.Err? {
        return None;
      }
      var place := PlaceOf(p);
      var saved := if place in files.receipts then Some(files.receipts[place]) else None;
      if saved.Some? {
        if !Answers(saved.value, digest.value, p) {
          return None;
        }
        if Past(files.cursor, place) {
          return saved;
        }
      }
      var advanced := Advance(importer, hash, files.cursor, p);
      if advanced.Err? {
        return None;
      }
      var (next, events) := advanced.value;
      AdvancedIsPast(importer, hash, files.cursor, p);
      if stops == 0 {
        return None;
      }
      if place in files.intents {
        if files.intents[place] != digest.value {
          return None;
        }
      } else {
        if sound {
          BeginsSound(importer, hash, files, journal, p);
        }
        files := files.(intents := files.intents[place := digest.value]);
        waiting := Some(p);
      }
      assert sound ==> waiting == Some(p) && Valid();
      if stops == 1 {
        return None;
      }
      reply := Record(p, next, events, stops);
    }
  }

  /** A client that gave up a packet under way for another it can send next would leave its events in
      the journal: those are in no stream that the answered packets make. */
  lemma GivenUpLeavesEvents<E>(
      importer: Importer<E>, hash: Hash, files: Files, journal: seq<Event<E>>, p: Packet, other: Packet, e: Event<E>)
    requires Sound(importer, hash, files, journal, Some(p)) && Advanced(importer, hash, files.cursor, other).Ok?
    requires e in Advanced(importer, hash, files.cursor, p).value.1
    requires e !in Advanced(importer, hash, files.cursor, other).value.1
    requires e !in Stream(importer, files.cursor).value
    ensures var (next, events) := Advanced(importer, hash, files.cursor, other).value;
      && Stream(importer, next).Some? && e !in Stream(importer, next).value
      && e in Appended(Appended(journal, Advanced(importer, hash, files.cursor, p).value.1), events)
  {
    var stream := Stream(importer, files.cursor).value;
    var (next, events) := Advanced(importer, hash, files.cursor, other).value;
    var own := Advanced(importer, hash, files.cursor, p).value.1;
    JournalsSound(importer, hash, files, journal, p);
    FirstsAre(stream + own, e);
    AppendedGrows(Appended(journal, own), events);
    AdvanceEmits(importer, hash, files.cursor, other, stream);
  }

  /** What a journal may hold while the server stands at a cursor. */
  ghost predicate Journaled<E>(
      importer: Importer<E>, hash: Hash, cursor: Cursor, journal: seq<Event<E>>, waiting: Option<Packet>)
  {
    var stream := Stream(importer, cursor);
    && stream.Some?
    && (journal == Firsts(stream.value) ||
        (waiting.Some? && Advanced(importer, hash, cursor, waiting.value).Ok? &&
         journal == Firsts(stream.value + Advanced(importer, hash, cursor, waiting.value).value.1)))
  }

  /** A client that repeats a packet until it is answered, while any others come again at any time,
      against a server that may stop after any write. The accepted packets follow one another from
      the start, each of them was answered, and the journal holds every event of theirs once, in the
      order of the stream, and besides at most those of the one packet that is not answered yet. */
  method Deliveries<E(==,!new)>(importer: Importer<E>, hash: Hash, name: Name<E>, count: nat)
    returns (ingress: Ingress<E>, answered: seq<Packet>, ghost accepted: seq<Packet>)
    requires NameRule(name)
    ensures ingress.importer == importer && ingress.hash == hash && ingress.Valid()
    ensures Linked(hash, accepted) && Stands(hash, ingress.files.cursor, accepted)
    ensures forall p :: p in accepted ==> p in answered
    ensures forall p :: p in answered ==> ingress.Answered(p)
    ensures Journaled(importer, hash, ingress.files.cursor, ingress.journal, ingress.waiting)
    ensures ingress.waiting.None? ==> ingress.journal == Firsts(Stream(importer, ingress.files.cursor).value)
    ensures ingress.waiting.Some? ==> ingress.Ready(ingress.waiting.value)
  {
    ingress := new Ingress(importer, hash, name);
    answered, accepted := [], [];
    var pending: Option<Packet> := None;
    for k := 0 to count
      invariant fresh(ingress) && ingress.Valid() && ingress.importer == importer && ingress.hash == hash
      invariant Linked(hash, accepted) && Stands(hash, ingress.files.cursor, accepted)
      invariant forall p :: p in accepted ==> p in answered
      invariant forall p :: p in answered ==> ingress.Answered(p)
      invariant ingress.waiting.Some? ==> pending == ingress.waiting
    {
      var other: Packet, stops: nat := *, *;
      var p := if other in answered || pending.None? then other else pending.value;
      ghost var cursor := ingress.files.cursor;
      var reply := ingress.Ingest(p, stops);
      if ingress.files.cursor != cursor {
        AdvanceExtends(importer, hash, cursor, p, accepted);
        accepted := accepted + [p];
      }
      if reply.Some? {
        pending := if p in answered then pending else None;
        answered := answered + [p];
      } else if p !in answered {
        pending := Some(p);
      }
    }
  }
}
