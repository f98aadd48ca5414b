/** The server half of an attached metrics stream: packets are accepted only in order, each
    chained to the one before it. */
module LocalCursor {
  import opened Basics

  const MAX_BATCH := 65536
  const INPUT_BOUND := 4096

  /** A chain value. Digests are symbols: SHA-256 gives one for every packet, and none of them is
      the sixty-four zeros a chain starts with. Text that is no digest at all is malformed. */
  datatype Link = Zeros | Sealed(symbol: string) | Malformed(text: string)

  const INITIAL_CHAIN := Zeros

  datatype Finish = Succeeded | Failed | Cancelled

  datatype Packet = Packet(
    execution: string, offset: nat, previous: Link, bytes: seq<byte>, finish: Option<Finish>)

  /** SHA-256 of a packet's canonical form. Only `ChainRule` is used of it. */
  type Hash = Packet -> Link

  ghost predicate ChainRule(hash: Hash)
  {
    && (forall p, q :: hash(p) == hash(q) ==> p == q)
    && (forall p :: hash(p).Sealed?)
  }

  predicate LowerHex(s: string) { forall i :: 0 <= i < |s| ==> IsLowerHex(s[i]) }

  predicate ValidToken(s: string) { |s| == 32 && LowerHex(s) }

  predicate ValidDigest(s: Link) { !s.Malformed? }

  datatype Error = IdentityInvalid | StreamInvalid | BatchInvalid | StreamFinished | OrderMismatch | ImportFailed

  predicate ValidBatch(p: Packet) { |p.bytes| <= MAX_BATCH && (p.bytes == [] ==> p.finish.Some?) }

  function Digest(hash: Hash, p: Packet): Result<Link, Error>
  {
    if !ValidToken(p.execution) then Err(IdentityInvalid)
    else if !ValidDigest(p.previous) then Err(StreamInvalid)
    else if !ValidBatch(p) then Err(BatchInvalid)
    else Ok(hash(p))
  }

  /** The metrics importer, which is not part of this model: what it emits, or that it refuses,
      is any function of the chunks it was fed. */
  datatype Importer<!E> = Importer(
    feed: seq<seq<byte>> -> Option<seq<E>>, finish: seq<seq<byte>> -> Option<seq<E>>)

  datatype Event<E> = Imported(event: E) | Drained(packet: Link, state: Finish)

  /** How far a stream has come, and the chunks its importer was fed. */
  datatype Cursor = Cursor(offset: nat, chain: Link, finished: Option<Finish>, fed: seq<seq<byte>>)

  const START := Cursor(0, INITIAL_CHAIN, None, [])

  function Chunks(bytes: seq<byte>): seq<seq<byte>>
  {
    if bytes == [] then []
    else if |bytes| <= INPUT_BOUND then [bytes]
    else [bytes[..INPUT_BOUND]] + Chunks(bytes[INPUT_BOUND..])
  }

  function Joined(chunks: seq<seq<byte>>): seq<byte>
  {
    if chunks == [] then [] else chunks[0] + Joined(chunks[1..])
  }

  /** Every chunk is as long as the bound, but for the last, which is not empty either. */
  lemma {:induction false} ChunksAreFull(bytes: seq<byte>, i: nat)
    requires i < |Chunks(bytes)|
    ensures if i < |Chunks(bytes)| - 1 then |Chunks(bytes)[i]| == INPUT_BOUND
            else 0 < |Chunks(bytes)[i]| <= INPUT_BOUND
  {
    if |bytes| > INPUT_BOUND {
      if i > 0 {
        ChunksAreFull(bytes[INPUT_BOUND..], i - 1);
      } else {
        assert Chunks(bytes[INPUT_BOUND..]) != [];
      }
    }
  }

  lemma {:induction false} ChunksJoin(bytes: seq<byte>)
    ensures Joined(Chunks(bytes)) == bytes
  {
    if |bytes| > INPUT_BOUND {
      ChunksJoin(bytes[INPUT_BOUND..]);
    }
  }

  lemma {:induction false} JoinedAppend(a: seq<seq<byte>>, b: seq<seq<byte>>)
    ensures Joined(a + b) == Joined(a) + Joined(b)
  {
    if a == [] {
      assert a + b == b;
    } else {
      JoinedAppend(a[1..], b);
      assert (a + b)[1..] == a[1..] + b;
      Regroup(a[0], Joined(a[1..]), Joined(b));
    }
  }

  function Wrapped<E>(events: seq<E>): seq<Event<E>>
  {
    seq(|events|, i requires 0 <= i < |events| => Imported(events[i]))
  }

  /** Feeding the chunks one by one after those in `fed`. */
  function Feed<E>(importer: Importer<E>, fed: seq<seq<byte>>, chunks: seq<seq<byte>>): Option<seq<Event<E>>>
    decreases |chunks|
  {
    if chunks == [] then Some([])
    else
      var first :- importer.feed(fed + [chunks[0]]);
      var others :- Feed(importer, fed + [chunks[0]], chunks[1..]);
      Some(Wrapped(first) + others)
  }

  /** What the cursor becomes and what is emitted; replay is not this reducer's business. */
  function Advanced<E>(importer: Importer<E>, hash: Hash, cursor: Cursor, packet: Packet)
    : Result<(Cursor, seq<Event<E>>), Error>
  {
    var digest :- Digest(hash, packet);
    if cursor.finished.Some? then Err(StreamFinished)
    else if packet.offset != cursor.offset || packet.previous != cursor.chain then Err(OrderMismatch)
    else
      var fed := cursor.fed + Chunks(packet.bytes);
      match Feed(importer, cursor.fed, Chunks(packet.bytes))
      case None => Err(ImportFailed)
      case Some(events) =>
        if packet.finish.Some? && importer.finish(fed).None? then Err(ImportFailed)
        else if cursor.offset + |packet.bytes| > U64_MAX then Err(StreamInvalid)
        else
          var last := match packet.finish
            case None => []
            case Some(state) => Wrapped(importer.finish(fed).value) + [Drained(digest, state)];
          Ok((Cursor(cursor.offset + |packet.bytes|, digest, packet.finish, fed), events + last))
  }

  lemma {:induction false} FeedStep<E>(importer: Importer<E>, fed: seq<seq<byte>>, chunks: seq<seq<byte>>, k: nat)
    requires k < |chunks|
    ensures var before := Feed(importer, fed, chunks[..k]);
            var now := Feed(importer, fed, chunks[..k + 1]);
            var more := importer.feed(fed + chunks[..k + 1]);
            && (now.Some? <==> before.Some? && more.Some?)
            && (now.Some? ==> now.value == before.value + Wrapped(more.value))
    decreases k
  {
    var now := chunks[..k + 1];
    if k == 0 {
      assert now == [chunks[0]] && now[1..] == [] && chunks[..0] == [];
      assert importer.feed(fed + now).Some? ==>
        Wrapped(importer.feed(fed + now).value) + [] == [] + Wrapped(importer.feed(fed + now).value);
    } else {
      FeedStep(importer, fed + [chunks[0]], chunks[1..], k - 1);
      assert now[0] == chunks[0] && now[1..] == chunks[1..][..k];
      assert chunks[..k][0] == chunks[0] && chunks[..k][1..] == chunks[1..][..k - 1];
      assert fed + now == fed + [chunks[0]] + chunks[1..][..k];
    }
  }

  lemma {:induction false} FeedFails<E>(importer: Importer<E>, fed: seq<seq<byte>>, chunks: seq<seq<byte>>, k: nat)
    requires k <= |chunks| && Feed(importer, fed, chunks[..k]).None?
    ensures Feed(importer, fed, chunks).None?
    decreases |chunks| - k
  {
    if k < |chunks| {
      FeedStep(importer, fed, chunks, k);
      FeedFails(importer, fed, chunks, k + 1);
    } else {
      assert chunks[..k] == chunks;
    }
  }

  /** Accepts the next packet: a clone of the cursor is fed chunk by chunk. */
  method Advance<E>(importer: Importer<E>, hash: Hash, cursor: Cursor, packet: Packet)
    returns (r: Result<(Cursor, seq<Event<E>>), Error>)
    ensures r == Advanced(importer, hash, cursor, packet)
  {
    var digest := Digest(hash, packet);
    if digest.Err? {
      return Err(digest.error);
    }
    if cursor.finished.Some? {
      return Err(StreamFinished);
    }
    if packet.offset != cursor.offset || packet.previous != cursor.chain {
      return Err(OrderMismatch);
    }
    var next := cursor;
    var events: seq<Event<E>> := [];
    var chunks := Chunks(packet.bytes);
    for k := 0 to |chunks|
      invariant next == cursor.(fed := cursor.fed + chunks[..k])
      invariant Feed(importer, cursor.fed, chunks[..k]) == Some(events)
    {
      FeedStep(importer, cursor.fed, chunks, k);
      assert next.fed + [chunks[k]] == cursor.fed + chunks[..k + 1];
      var emission := importer.feed(next.fed + [chunks[k]]);
      if emission.None? {
        FeedFails(importer, cursor.fed, chunks, k + 1);
        return Err(ImportFailed);
      }
      next := next.(fed := next.fed + [chunks[k]]);
      events := events + Wrapped(emission.value);
    }
    assert chunks[..|chunks|] == chunks;
    if packet.finish.Some? {
      var emission := importer.finish(next.fed);
      if emission.None? {
        return Err(ImportFailed);
      }
      events := events + (Wrapped(emission.value) + [Drained(digest.value, packet.finish.value)]);
      next := next.(finished := packet.finish);
    } else {
      assert events + [] == events;
    }
    if next.offset + |packet.bytes| > U64_MAX {
      return Err(StreamInvalid);
    }
    return Ok((next.(offset := next.offset + |packet.bytes|, chain := digest.value), events));
  }

  // ----- Histories of accepted packets -----

  function Front(history: seq<Packet>): seq<Packet>
    requires history != []
  {
    history[..|history| - 1]
  }

  function Contents(history: seq<Packet>): seq<byte>
  {
    if history == [] then [] else Contents(Front(history)) + history[|history| - 1].bytes
  }

  function Chain(hash: Hash, history: seq<Packet>): Link
  {
    if history == [] then INITIAL_CHAIN else hash(history[|history| - 1])
  }

  function Finished(history: seq<Packet>): Option<Finish>
  {
    if history == [] then None else history[|history| - 1].finish
  }

  /** Each packet starts where the ones before it end, names their chain, and follows no finish. */
  predicate Linked(hash: Hash, history: seq<Packet>)
  {
    history == [] ||
    var before, p := Front(history), history[|history| - 1];
    && Linked(hash, before) && Digest(hash, p).Ok?
    && p.offset == |Contents(before)| && p.previous == Chain(hash, before) && Finished(before).None?
  }

  /** Where a stream stands after a history of packets. */
  predicate Stands(hash: Hash, cursor: Cursor, history: seq<Packet>)
  {
    && cursor.offset == |Contents(history)| && cursor.chain == Chain(hash, history)
    && cursor.finished == Finished(history) && Joined(cursor.fed) == Contents(history)
  }

  /** An accepted packet extends the history by exactly itself: its bytes are imported once,
      after all the earlier ones, and nothing else changes the cursor. */
  lemma AdvanceExtends<E>(importer: Importer<E>, hash: Hash, cursor: Cursor, packet: Packet, history: seq<Packet>)
    requires Linked(hash, history) && Stands(hash, cursor, history)
    requires Advanced(importer, hash, cursor, packet).Ok?
    ensures Linked(hash, history + [packet])
    ensures Stands(hash, Advanced(importer, hash, cursor, packet).value.0, history + [packet])
  {
    var next := history + [packet];
    assert Front(next) == history;
    ChunksJoin(packet.bytes);
    JoinedAppend(cursor.fed, Chunks(packet.bytes));
  }

  /** A packet is accepted exactly when it is a valid one, the stream is not finished, it is the next,
      the importer takes its chunks after the earlier ones and its finish, and the offset fits. */
  lemma AdvanceIff<E>(importer: Importer<E>, hash: Hash, cursor: Cursor, packet: Packet)
    requires Emitted(importer, cursor.fed).Some?
    ensures var fed := cursor.fed + Chunks(packet.bytes);
      Advanced(importer, hash, cursor, packet).Ok? <==>
      && ValidToken(packet.execution) && !packet.previous.Malformed? && |packet.bytes| <= MAX_BATCH
      && (packet.bytes == [] ==> packet.finish.Some?)
      && cursor.finished.None? && packet.offset == cursor.offset && packet.previous == cursor.chain
      && Emitted(importer, fed).Some? && (packet.finish.Some? ==> importer.finish(fed).Some?)
      && cursor.offset + |packet.bytes| <= U64_MAX
  {
    FeedEmits(importer, cursor.fed, Chunks(packet.bytes));
  }

  // ----- The events of a whole stream -----

  /** What the importer emits for a whole sequence of chunks, in order. */
  function Emitted<E>(importer: Importer<E>, chunks: seq<seq<byte>>): Option<seq<E>>
  {
    if chunks == [] then Some([])
    else
      var before :- Emitted(importer, chunks[..|chunks| - 1]);
      var last :- importer.feed(chunks);
      Some(before + last)
  }

  /** The events of a stream that stands at a cursor: one for each of the importer's, in order,
      and after a finish its last ones and the one that says the packet of the finish drained it. */
  function Stream<E>(importer: Importer<E>, cursor: Cursor): Option<seq<Event<E>>>
  {
    var imported :- Emitted(importer, cursor.fed);
    match cursor.finished
    case None => Some(Wrapped(imported))
    case Some(state) =>
      var last :- importer.finish(cursor.fed);
      Some(Wrapped(imported + last) + [Drained(cursor.chain, state)])
  }

  /** Feeding more chunks emits exactly what the importer emits for them after the earlier ones. */
  lemma {:induction false} FeedEmits<E>(importer: Importer<E>, fed: seq<seq<byte>>, chunks: seq<seq<byte>>)
    requires Emitted(importer, fed).Some?
    ensures Feed(importer, fed, chunks).Some? <==> Emitted(importer, fed + chunks).Some?
    ensures Feed(importer, fed, chunks).Some? ==>
              Wrapped(Emitted(importer, fed + chunks).value) ==
              Wrapped(Emitted(importer, fed).value) + Feed(importer, fed, chunks).value
    decreases |chunks|
  {
    if chunks == [] {
      assert fed + chunks == fed;
    } else {
      var next := fed + [chunks[0]];
      assert next[..|next| - 1] == fed && fed + chunks == next + chunks[1..];
      if importer.feed(next).None? {
        EmittedFails(importer, next, chunks[1..]);
      } else {
        FeedEmits(importer, next, chunks[1..]);
        WrappedJoined(Emitted(importer, fed).value, importer.feed(next).value);
      }
    }
  }

  lemma WrappedJoined<E>(a: seq<E>, b: seq<E>)
    ensures Wrapped(a + b) == Wrapped(a) + Wrapped(b)
  {
  }

  lemma {:induction false} EmittedFails<E>(importer: Importer<E>, fed: seq<seq<byte>>, chunks: seq<seq<byte>>)
    requires Emitted(importer, fed).None?
    ensures Emitted(importer, fed + chunks).None?
    decreases |chunks|
  {
    var whole := fed + chunks;
    if chunks == [] {
      assert whole == fed;
    } else {
      EmittedFails(importer, fed, chunks[..|chunks| - 1]);
      assert whole[..|whole| - 1] == fed + chunks[..|chunks| - 1];
    }
  }

  /** The events of an accepted packet are exactly what the stream's events grow by: nothing of
      what the importer emits for its chunks is lost, repeated or moved, and a finish adds the
      importer's last events and one `Drained` of this packet. */
  lemma AdvanceEmits<E>(importer: Importer<E>, hash: Hash, cursor: Cursor, packet: Packet, before: seq<Event<E>>)
    requires Stream(importer, cursor) == Some(before)
    requires Advanced(importer, hash, cursor, packet).Ok?
    ensures var (next, events) := Advanced(importer, hash, cursor, packet).value;
            && next.fed == cursor.fed + Chunks(packet.bytes)
            && Stream(importer, next) == Some(before + events)
  {
    var (next, events) := Advanced(importer, hash, cursor, packet).value;
    var more := Feed(importer, cursor.fed, Chunks(packet.bytes)).value;
    FeedEmits(importer, cursor.fed, Chunks(packet.bytes));
    if packet.finish.None? {
      assert more + [] == more && next.finished.None?;
      assert Stream(importer, next) == Some(Wrapped(Emitted(importer, next.fed).value));
    } else {
      FinishEmits(importer, next, before, more, packet.finish.value);
    }
  }

  lemma FinishEmits<E>(
      importer: Importer<E>, next: Cursor, before: seq<Event<E>>, more: seq<Event<E>>, state: Finish)
    requires Emitted(importer, next.fed).Some? && Wrapped(Emitted(importer, next.fed).value) == before + more
    requires next.finished == Some(state) && importer.finish(next.fed).Some?
    ensures Stream(importer, next) ==
            Some(before + (more + (Wrapped(importer.finish(next.fed).value) + [Drained(next.chain, state)])))
  {
    var last := importer.finish(next.fed).value;
    WrappedJoined(Emitted(importer, next.fed).value, last);
    assert before + more + Wrapped(last) + [Drained(next.chain, state)] ==
           before + (more + (Wrapped(last) + [Drained(next.chain, state)]));
  }

  /** Of the events of a stream that stands at a cursor, only the last can say it drained. */
  lemma DrainedOnce<E>(importer: Importer<E>, cursor: Cursor, i: nat)
    requires Stream(importer, cursor).Some? && i < |Stream(importer, cursor).value|
    ensures Stream(importer, cursor).value[i].Drained? <==>
              cursor.finished.Some? && i == |Stream(importer, cursor).value| - 1
  {
  }

  /** Equal chain values mean equal packet histories. */
  lemma {:induction false} ChainDeterminesHistory(hash: Hash, a: seq<Packet>, b: seq<Packet>)
    requires ChainRule(hash) && Linked(hash, a) && Linked(hash, b)
    requires Chain(hash, a) == Chain(hash, b)
    ensures a == b
  {
    if a != [] && b != [] {
      ChainDeterminesHistory(hash, Front(a), Front(b));
      assert a == Front(a) + [a[|a| - 1]] && b == Front(b) + [b[|b| - 1]];
    }
  }
}
