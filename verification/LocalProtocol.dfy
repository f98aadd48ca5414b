/** The whole attached stream as steps: a growing file, a client that can stop anywhere, its
    state file, a network that loses, delays and repeats, and the server. */
module LocalProtocol {
  import opened Basics
  import opened LocalCursor
  import opened LocalClient
  import opened JsonText

  // ----- The system -----

  datatype Request = Register(request: Registration) | Status | Post(packet: Packet)

  /** One HTTP exchange: a reply is to one numbered request. */
  datatype Message = Message(id: nat, request: Request)

  datatype Reply = Viewed(view: View) | Acked(ack: Ack)

  datatype Answer = Answer(to: Message, reply: Reply)

  /** Where a running command stands between two of its effects. */
  datatype Stage =
    | Opening
    | Registering(id: nat)
    | Posting(resent: bool)
    | Waiting(id: nat, resent: bool)
    | Settled(resent: bool)
    | Checking(id: nat)
    | Reading
    | Preparing
    | Refused

  datatype Process = Stopped | Running(saved: Saved, stage: Stage)

  /** The server's run, once registered: its cursor, the stored reply of every accepted packet,
      and the events it has given to the Run. The history is what the cursor stands for; nothing
      reads it. */
  datatype Server = Server(
    registered: Option<Registration>, cursor: Cursor, receipts: map<Link, Ack>, history: seq<Packet>,
    events: seq<Event<Value>>)

  datatype World = World(
    file: seq<byte>, disk: Option<Saved>, process: Process, server: Server,
    messages: set<Message>, answers: set<Answer>, next: nat)

  datatype Step =
    | Grow(bytes: seq<byte>)
    | Open(execution: string, finishing: Option<Finish>)
    | SaveOpened
    | Registered(view: View)
    | SendPacket
    | Acknowledged(ack: Ack)
    | SaveSettled
    | Checked(view: View)
    | ReadMore(count: nat, finishing: Option<Finish>)
    | SavePrepared
    | Crash
    | Serve(message: Message)

  function ViewOf(config: Config, server: Server): View
    requires server.registered.Some?
  {
    View(config.project, server.registered.value.run, server.registered.value.execution, "local", false, false,
         server.cursor.offset, server.cursor.chain, server.cursor.finished)
  }

  function AckOf(config: Config, request: Registration, p: Packet): Ack
  {
    Ack(config.project, request.run, request.execution, config.hash(p), config.hash(p),
        p.offset + |p.bytes|, p.finish)
  }

  /** What the server does with one delivered request, and its answer if it gives one. A packet
      already accepted gets its stored reply; a new one must be the next. */
  function Served(config: Config, importer: Importer<Value>, server: Server, request: Request)
    : (Server, Option<Reply>)
  {
    match request
    case Register(r) =>
      if server.registered.None? then
        var started := Server(Some(r), START, map[], [], []);
        (started, Some(Viewed(ViewOf(config, started))))
      else if server.registered == Some(r) then (server, Some(Viewed(ViewOf(config, server))))
      else (server, None)
    case Status =>
      (server, if server.registered.Some? then Some(Viewed(ViewOf(config, server))) else None)
    case Post(p) =>
      if server.registered.None? || p.execution != server.registered.value.execution then (server, None)
      else if Digest(config.hash, p).Err? then (server, None)
      else if config.hash(p) in server.receipts then (server, Some(Acked(server.receipts[config.hash(p)])))
      else
        match Advanced(importer, config.hash, server.cursor, p)
        case Err(_) => (server, None)
        case Ok((cursor, events)) =>
          var ack := AckOf(config, server.registered.value, p);
          (Server(server.registered, cursor, server.receipts[config.hash(p) := ack], server.history + [p],
                  server.events + events),
           Some(Acked(ack)))
  }

  /** The stage after the state file holds no pending packet any more. */
  function Onward(saved: Saved): Process
  {
    if saved.finished.Some? then Stopped else Running(saved, Reading)
  }

  ghost predicate Taken(config: Config, importer: Importer<Value>, w: World, step: Step, w': World)
  {
    match step
    case Grow(bytes) => |w.file| + |bytes| <= U64_MAX && w' == w.(file := w.file + bytes)
    case Open(execution, finishing) =>
      && w.process.Stopped?
      && var start := Opened(config, w.disk, execution, w.file, finishing);
         start.Ok? && w' == w.(process := Running(start.value, Opening))
    case SaveOpened =>
      // The opened state is durable before the registration is sent.
      && w.process.Running? && w.process.stage == Opening
      && w' == w.(disk := Some(w.process.saved), process := Running(w.process.saved, Registering(w.next)),
                  messages := w.messages + {Message(w.next, Register(w.process.saved.request))}, next := w.next + 1)
    case Registered(view) =>
      && w.process.Running? && w.process.stage.Registering?
      && Answer(Message(w.process.stage.id, Register(w.process.saved.request)), Viewed(view)) in w.answers
      && w' == w.(process :=
           if w.process.saved.pending.Some? then Running(w.process.saved, Posting(true))
           else if BoundStatus(w.process.saved, view) then Onward(w.process.saved)
           else Running(w.process.saved, Refused))
    case SendPacket =>
      && w.process.Running? && w.process.stage.Posting? && w.process.saved.pending.Some?
      && w' == w.(process := Running(w.process.saved, Waiting(w.next, w.process.stage.resent)),
                  messages := w.messages + {Message(w.next, Post(w.process.saved.pending.value.packet))},
                  next := w.next + 1)
    case Acknowledged(ack) =>
      && w.process.Running? && w.process.stage.Waiting? && w.process.saved.pending.Some?
      && Answer(Message(w.process.stage.id, Post(w.process.saved.pending.value.packet)), Acked(ack)) in w.answers
      && w' == w.(process :=
           if Accepts(config.hash, w.process.saved, w.process.saved.pending.value, ack)
           then Running(Delivered(w.process.saved, ack), Settled(w.process.stage.resent))
           else Running(w.process.saved, Refused))
    case SaveSettled =>
      && w.process.Running? && w.process.stage.Settled?
      && var saved := w.process.saved;
         w' == if w.process.stage.resent
               then w.(disk := Some(saved), process := Running(saved, Checking(w.next)),
                       messages := w.messages + {Message(w.next, Status)}, next := w.next + 1)
               else w.(disk := Some(saved), process := Onward(saved))
    case Checked(view) =>
      && w.process.Running? && w.process.stage.Checking?
      && Answer(Message(w.process.stage.id, Status), Viewed(view)) in w.answers
      && w' == w.(process := if BoundStatus(w.process.saved, view) then Onward(w.process.saved)
                             else Running(w.process.saved, Refused))
    case ReadMore(count, finishing) =>
      && w.process.Running? && w.process.stage == Reading
      && w.process.saved.offset + count <= |w.file| && count <= MAX_BATCH
      && (count == 0 ==> finishing.Some? && |w.file| == w.process.saved.offset)
      && w' == w.(process := Running(Extended(config, w.process.saved, w.file, count, finishing), Preparing))
    case SavePrepared =>
      && w.process.Running? && w.process.stage == Preparing
      && w' == w.(disk := Some(w.process.saved), process := Running(w.process.saved, Posting(false)))
    case Crash => w' == w.(process := Stopped)
    case Serve(message) =>
      && message in w.messages
      && var (server, reply) := Served(config, importer, w.server, message.request);
         w' == w.(server := server,
                  answers := w.answers + if reply.Some? then {Answer(message, reply.value)} else {})
  }

  ghost predicate Initial(w: World)
  {
    && |w.file| <= U64_MAX && w.disk.None? && w.process.Stopped? && w.messages == {} && w.answers == {}
    && w.server.registered.None? && w.server.cursor == START
    && w.server.receipts == map[] && w.server.history == [] && w.server.events == []
  }

  // ----- What every step keeps -----

  /** The server holds exactly a prefix of the file, and one receipt for each accepted packet. */
  ghost predicate ServerSound(config: Config, w: World)
  {
    && Linked(config.hash, w.server.history) && Stands(config.hash, w.server.cursor, w.server.history)
    && Contents(w.server.history) <= w.file
    && (w.server.registered.None? ==> w.server.cursor == START && w.server.history == [] && w.server.receipts == map[])
    && (forall p :: p in w.server.history ==> Receipted(config, w.server, p))
    && (forall p :: config.hash(p) in w.server.receipts ==> p in w.server.history)
  }

  ghost predicate Receipted(config: Config, server: Server, p: Packet)
  {
    && config.hash(p) in server.receipts && server.registered.Some?
    && server.receipts[config.hash(p)] == AckOf(config, server.registered.value, p)
  }

  /** A saved state belongs to this command and this file. */
  ghost predicate Sound(config: Config, file: seq<byte>, saved: Saved)
  {
    && Bound(config, saved) && ValidToken(saved.request.execution) && config.admits(saved.request)
    && saved.offset <= |file| && saved.prefix == config.seal(file[..saved.offset])
    && (saved.pending.Some? ==>
          saved.finished.None? && PendingRefusal(config, saved, saved.pending.value, file).None?)
  }

  /** The saved cursor is where a history of packets ends. */
  ghost predicate StandsAt(config: Config, saved: Saved, history: seq<Packet>)
  {
    && saved.offset == |Contents(history)| && saved.chain == Chain(config.hash, history)
    && saved.finished == Finished(history)
  }

  /** The state file against the server: equal cursors, or the server one packet ahead, and
      then that packet is the pending one. */
  ghost predicate InStep(config: Config, saved: Saved, history: seq<Packet>)
  {
    || StandsAt(config, saved, history)
    || (saved.pending.Some? && history != [] && history[|history| - 1] == saved.pending.value.packet
        && StandsAt(config, saved, Front(history)))
  }

  ghost predicate DiskSound(config: Config, w: World)
  {
    match w.disk
    case None => w.server.registered.None? && w.messages == {}
    case Some(saved) =>
      && Sound(config, w.file, saved) && InStep(config, saved, w.server.history)
      && (w.server.registered.Some? ==> w.server.registered == Some(saved.request))
  }

  /** Nothing on the network is news: every packet in flight is accepted already or pending. */
  ghost predicate NetworkSound(config: Config, w: World)
  {
    && (forall m :: m in w.messages ==> m.id < w.next)
    && (forall m :: m in w.messages && m.request.Post? ==>
          m.request.packet in w.server.history ||
          (w.disk.Some? && w.disk.value.pending.Some? && m.request.packet == w.disk.value.pending.value.packet))
    && (forall m :: m in w.messages && m.request.Register? ==>
          w.disk.Some? && m.request.request == w.disk.value.request)
    && (forall a :: a in w.answers ==> a.to.id < w.next && w.server.registered.Some?)
    && (forall a :: a in w.answers && a.to.request.Post? ==>
          a.to.request.packet in w.server.history && w.server.registered.Some?
          && a.reply == Acked(AckOf(config, w.server.registered.value, a.to.request.packet)))
  }

  /** The view a command is waiting for can only be of the cursor as it is now. */
  ghost predicate FreshView(config: Config, w: World, id: nat)
  {
    forall a :: a in w.answers && a.to.id == id && a.reply.Viewed? ==>
      w.server.registered.Some? && a.reply.view == ViewOf(config, w.server)
  }

  ghost predicate StageSound(config: Config, w: World)
  {
    match w.process
    case Stopped => true
    case Running(saved, stage) =>
      match stage
      case Opening =>
        if w.disk.Some? then w.disk == Some(saved)
        else Sound(config, w.file, saved) && saved.pending.None? && StandsAt(config, saved, [])
      case Registering(id) =>
        w.disk == Some(saved) && (saved.pending.None? ==> FreshView(config, w, id))
      case Posting(_) => w.disk == Some(saved) && saved.pending.Some?
      case Waiting(_, _) => w.disk == Some(saved) && saved.pending.Some?
      case Settled(_) =>
        && w.disk.Some? && w.disk.value.pending.Some? && w.server.registered.Some?
        && var before := w.disk.value;
           var p := before.pending.value.packet;
        && p in w.server.history && StandsAt(config, saved, w.server.history)
        && saved == Delivered(before, AckOf(config, before.request, p))
      case Checking(id) => w.disk == Some(saved) && saved.pending.None? && FreshView(config, w, id)
      case Reading => w.disk == Some(saved) && saved.pending.None? && saved.finished.None?
      case Preparing =>
        && w.disk == Some(saved.(pending := None)) && saved.pending.Some? && saved.finished.None?
        && Sound(config, w.file, saved)
      case Refused => false
  }

  ghost predicate Inv(config: Config, w: World)
  {
    && |w.file| <= U64_MAX && ServerSound(config, w) && DiskSound(config, w) && NetworkSound(config, w)
    && StageSound(config, w)
  }

  /** What is assumed of the two hashes, and that a definition names its execution. */
  ghost predicate Rules(config: Config)
  {
    && ChainRule(config.hash) && SealRule(config.seal)
    && forall e :: config.definition(config.definition(e).execution) == config.definition(e)
  }

  lemma InitialHolds(config: Config, w: World)
    requires Initial(w)
    ensures Inv(config, w)
  {
  }

  lemma GrowKeeps(config: Config, importer: Importer<Value>, w: World, step: Step, w': World)
    requires step.Grow? && Inv(config, w) && Taken(config, importer, w, step, w')
    ensures Inv(config, w')
  {
    GrowSound(config, w.file, step.bytes);
  }

  /** A longer file still has every prefix it had. */
  lemma GrowSound(config: Config, file: seq<byte>, more: seq<byte>)
    ensures forall saved :: Sound(config, file, saved) ==> Sound(config, file + more, saved)
  {
    forall saved | Sound(config, file, saved) ensures Sound(config, file + more, saved) {
      assert (file + more)[..saved.offset] == file[..saved.offset];
      if saved.pending.Some? {
        var end := saved.offset + |saved.pending.value.packet.bytes|;
        assert (file + more)[..end] == file[..end];
        assert (file + more)[saved.offset..end] == file[saved.offset..end];
      }
    }
  }

  lemma OpenKeeps(config: Config, importer: Importer<Value>, w: World, step: Step, w': World)
    requires Rules(config)
    requires step.Open? && Inv(config, w) && Taken(config, importer, w, step, w')
    ensures Inv(config, w')
  {
  }

  lemma SaveOpenedKeeps(config: Config, importer: Importer<Value>, w: World, step: Step, w': World)
    requires step.SaveOpened? && Inv(config, w) && Taken(config, importer, w, step, w')
    ensures Inv(config, w')
  {
  }

  lemma RegisteredKeeps(config: Config, importer: Importer<Value>, w: World, step: Step, w': World)
    requires step.Registered? && Inv(config, w) && Taken(config, importer, w, step, w')
    ensures Inv(config, w')
  {
  }

  lemma SendPacketKeeps(config: Config, importer: Importer<Value>, w: World, step: Step, w': World)
    requires step.SendPacket? && Inv(config, w) && Taken(config, importer, w, step, w')
    ensures Inv(config, w')
  {
  }

  lemma {:induction false} LinkedAt(hash: Hash, history: seq<Packet>, i: nat)
    requires Linked(hash, history) && i < |history|
    ensures Linked(hash, history[..i]) && history[i].previous == Chain(hash, history[..i])
  {
    if i < |history| - 1 {
      LinkedAt(hash, Front(history), i);
      assert Front(history)[..i] == history[..i];
    }
  }

  /** An accepted packet does not continue the chain it is part of. */
  lemma AcceptedIsPast(hash: Hash, history: seq<Packet>, p: Packet)
    requires ChainRule(hash) && Linked(hash, history) && p in history
    ensures p.previous != Chain(hash, history)
  {
    var i :| 0 <= i < |history| && history[i] == p;
    LinkedAt(hash, history, i);
    if p.previous == Chain(hash, history) {
      ChainDeterminesHistory(hash, history[..i], history);
    }
  }

  /** Once the pending packet is accepted, the server is exactly that packet ahead. */
  lemma PendingAccepted(config: Config, w: World)
    requires Rules(config) && Inv(config, w) && w.disk.Some? && w.disk.value.pending.Some?
    requires w.disk.value.pending.value.packet in w.server.history
    ensures var saved := w.disk.value;
            var p := saved.pending.value.packet;
            StandsAt(config, Delivered(saved, AckOf(config, saved.request, p)), w.server.history)
  {
    var saved, history := w.disk.value, w.server.history;
    AcceptedIsPast(config.hash, history, saved.pending.value.packet);
    assert Contents(history) == Contents(Front(history)) + history[|history| - 1].bytes;
  }

  lemma AcknowledgedKeeps(config: Config, importer: Importer<Value>, w: World, step: Step, w': World)
    requires Rules(config)
    requires step.Acknowledged? && Inv(config, w) && Taken(config, importer, w, step, w')
    ensures Inv(config, w')
  {
    var saved := w.process.saved;
    var p := saved.pending.value.packet;
    assert p in w.server.history && step.ack == AckOf(config, saved.request, p);
    assert Accepts(config.hash, saved, saved.pending.value, step.ack);
    PendingAccepted(config, w);
  }

  lemma SaveSettledKeeps(config: Config, importer: Importer<Value>, w: World, step: Step, w': World)
    requires step.SaveSettled? && Inv(config, w) && Taken(config, importer, w, step, w')
    ensures Inv(config, w')
  {
    SettledIsSound(config, w);
    if w.process.stage.resent {
      assert w'.process.stage.Checking?;
    } else {
      assert w'.process == Onward(w.process.saved);
    }
  }

  /** What was settled is as sound a state as the one it came from. */
  lemma SettledIsSound(config: Config, w: World)
    requires Inv(config, w) && w.process.Running? && w.process.stage.Settled?
    ensures Sound(config, w.file, w.process.saved) && w.process.saved.pending.None?
    ensures w.process.saved.request == w.disk.value.request
  {
  }

  lemma CheckedKeeps(config: Config, importer: Importer<Value>, w: World, step: Step, w': World)
    requires step.Checked? && Inv(config, w) && Taken(config, importer, w, step, w')
    ensures Inv(config, w')
  {
  }

  lemma ChainIsDigest(hash: Hash, history: seq<Packet>)
    requires ChainRule(hash)
    ensures ValidDigest(Chain(hash, history))
  {
  }

  lemma ExtendedIsSound(config: Config, saved: Saved, file: seq<byte>, count: nat, finishing: Option<Finish>)
    requires Sound(config, file, saved) && saved.finished.None? && ValidDigest(saved.chain)
    requires saved.offset + count <= |file| && count <= MAX_BATCH && (count == 0 ==> finishing.Some?)
    ensures Sound(config, file, Extended(config, saved, file, count, finishing))
  {
  }

  lemma ReadMoreKeeps(config: Config, importer: Importer<Value>, w: World, step: Step, w': World)
    requires Rules(config)
    requires step.ReadMore? && Inv(config, w) && Taken(config, importer, w, step, w')
    ensures Inv(config, w')
  {
    var saved := w.process.saved;
    ChainIsDigest(config.hash, w.server.history);
    ExtendedIsSound(config, saved, w.file, step.count, step.finishing);
    var extended := Extended(config, saved, w.file, step.count, step.finishing);
    assert extended.(pending := None) == saved;
  }

  lemma SavePreparedKeeps(config: Config, importer: Importer<Value>, w: World, step: Step, w': World)
    requires step.SavePrepared? && Inv(config, w) && Taken(config, importer, w, step, w')
    ensures Inv(config, w')
  {
  }

  lemma ServeViewRecords(config: Config, importer: Importer<Value>, w: World, step: Step, w': World)
    requires step.Serve? && !step.message.request.Post?
    requires Inv(config, w) && Taken(config, importer, w, step, w')
    ensures w'.server.cursor == w.server.cursor && w'.server.history == w.server.history
    ensures w'.server.receipts == w.server.receipts
    ensures ServerSound(config, w') && DiskSound(config, w')
  {
  }

  lemma ServeViewNetwork(config: Config, importer: Importer<Value>, w: World, step: Step, w': World)
    requires step.Serve? && !step.message.request.Post?
    requires Inv(config, w) && Taken(config, importer, w, step, w')
    ensures NetworkSound(config, w')
  {
    ServeViewRecords(config, importer, w, step, w');
  }

  lemma ServeViewKeeps(config: Config, importer: Importer<Value>, w: World, step: Step, w': World)
    requires step.Serve? && !step.message.request.Post?
    requires Inv(config, w) && Taken(config, importer, w, step, w')
    ensures Inv(config, w')
  {
    ServeViewRecords(config, importer, w, step, w');
    ServeViewNetwork(config, importer, w, step, w');
  }

  /** A packet that was accepted before is answered by its receipt; one that is refused is not
      answered. */
  lemma ReplayAnswer(config: Config, importer: Importer<Value>, w: World, p: Packet)
    requires ChainRule(config.hash) && ServerSound(config, w)
    requires Served(config, importer, w.server, Post(p)).0 == w.server
    ensures var reply := Served(config, importer, w.server, Post(p)).1;
            reply.Some? ==> p in w.server.history && w.server.registered.Some?
                            && reply == Some(Acked(AckOf(config, w.server.registered.value, p)))
  {
    var s := w.server;
    if s.registered.Some? && config.hash(p) in s.receipts {
      assert Receipted(config, s, p);
    }
    assert Served(config, importer, s, Post(p)).0.history == s.history;
  }

  lemma ServeReplayKeeps(config: Config, importer: Importer<Value>, w: World, step: Step, w': World)
    requires Rules(config)
    requires step.Serve? && step.message.request.Post? && w'.server == w.server
    requires Inv(config, w) && Taken(config, importer, w, step, w')
    ensures Inv(config, w')
  {
    ReplayAnswer(config, importer, w, step.message.request.packet);
  }

  /** A newly accepted packet is the pending one, and it carries the file's next bytes. */
  lemma NextIsPending(config: Config, importer: Importer<Value>, w: World, m: Message, p: Packet)
    requires Rules(config) && Inv(config, w) && m in w.messages && m.request == Post(p)
    requires Served(config, importer, w.server, Post(p)).0 != w.server
    ensures p !in w.server.history && w.disk.Some? && w.server.registered.Some?
    ensures w.disk.value.pending.Some? && w.disk.value.pending.value.packet == p
    ensures StandsAt(config, w.disk.value, w.server.history)
    ensures Advanced(importer, config.hash, w.server.cursor, p).Ok?
  {
    assert p in w.server.history ==> Receipted(config, w.server, p);
  }

  /** What accepting `p` does to the world: the history grows by it and one message is answered. */
  ghost predicate Accepting(config: Config, w: World, w': World, p: Packet, m: Message)
  {
    && w.server.registered.Some? && m in w.messages && m.request == Post(p)
    && w'.server.history == w.server.history + [p] && w'.server.registered == w.server.registered
    && w'.server.receipts ==
         w.server.receipts[config.hash(p) := AckOf(config, w.server.registered.value, p)]
    && w' == w.(server := w'.server, answers :=
         w.answers + {Answer(m, Acked(AckOf(config, w.server.registered.value, p)))})
    && p !in w.server.history && Front(w'.server.history) == w.server.history
    && w'.server.history[|w.server.history|] == p
  }

  lemma AcceptingServer(config: Config, w: World, w': World, p: Packet, m: Message)
    requires Rules(config) && ServerSound(config, w) && Accepting(config, w, w', p, m)
    requires Linked(config.hash, w'.server.history) && Stands(config.hash, w'.server.cursor, w'.server.history)
    requires Contents(w'.server.history) <= w'.file
    ensures ServerSound(config, w')
  {
    forall q | q in w'.server.history ensures Receipted(config, w'.server, q) {
      if q != p {
        assert Receipted(config, w.server, q);
      }
    }
  }

  lemma AcceptingRest(config: Config, w: World, w': World, p: Packet, m: Message)
    requires Rules(config) && Inv(config, w) && Accepting(config, w, w', p, m)
    requires w.disk.Some? && w.disk.value.pending.Some? && w.disk.value.pending.value.packet == p
    requires StandsAt(config, w.disk.value, w.server.history)
    ensures DiskSound(config, w') && NetworkSound(config, w') && StageSound(config, w')
  {
    assert forall q :: q in w.server.history ==> q in w'.server.history;
  }

  /** The pending packet carries exactly the next bytes of the file. */
  lemma PendingIsNext(config: Config, file: seq<byte>, saved: Saved, history: seq<Packet>)
    requires Sound(config, file, saved) && saved.pending.Some? && StandsAt(config, saved, history)
    requires Contents(history) <= file
    ensures Contents(history + [saved.pending.value.packet]) <= file
  {
    var p := saved.pending.value.packet;
    assert Front(history + [p]) == history;
    var end := saved.offset + |p.bytes|;
    assert file[..end] == file[..saved.offset] + file[saved.offset..end];
  }

  lemma ServeNextKeeps(config: Config, importer: Importer<Value>, w: World, step: Step, w': World)
    requires Rules(config)
    requires step.Serve? && step.message.request.Post? && w'.server != w.server
    requires Inv(config, w) && Taken(config, importer, w, step, w')
    ensures Inv(config, w')
  {
    var m, p := step.message, step.message.request.packet;
    NextIsPending(config, importer, w, m, p);
    assert Front(w.server.history + [p]) == w.server.history;
    assert (w.server.history + [p])[|w.server.history|] == p;
    assert Accepting(config, w, w', p, m);
    AdvanceExtends(importer, config.hash, w.server.cursor, p, w.server.history);
    PendingIsNext(config, w.file, w.disk.value, w.server.history);
    AcceptingServer(config, w, w', p, m);
    AcceptingRest(config, w, w', p, m);
  }

  lemma ServeKeeps(config: Config, importer: Importer<Value>, w: World, step: Step, w': World)
    requires Rules(config)
    requires step.Serve? && Inv(config, w) && Taken(config, importer, w, step, w')
    ensures Inv(config, w')
  {
    if !step.message.request.Post? {
      ServeViewKeeps(config, importer, w, step, w');
    } else if w'.server == w.server {
      ServeReplayKeeps(config, importer, w, step, w');
    } else {
      ServeNextKeeps(config, importer, w, step, w');
    }
  }

  lemma StepKeeps(config: Config, importer: Importer<Value>, w: World, step: Step, w': World)
    requires Rules(config) && Inv(config, w) && Taken(config, importer, w, step, w')
    ensures Inv(config, w')
  {
    match step
    case Grow(_) => GrowKeeps(config, importer, w, step, w');
    case Open(_, _) => OpenKeeps(config, importer, w, step, w');
    case SaveOpened => SaveOpenedKeeps(config, importer, w, step, w');
    case Registered(_) => RegisteredKeeps(config, importer, w, step, w');
    case SendPacket => SendPacketKeeps(config, importer, w, step, w');
    case Acknowledged(_) => AcknowledgedKeeps(config, importer, w, step, w');
    case SaveSettled => SaveSettledKeeps(config, importer, w, step, w');
    case Checked(_) => CheckedKeeps(config, importer, w, step, w');
    case ReadMore(_, _) => ReadMoreKeeps(config, importer, w, step, w');
    case SavePrepared => SavePreparedKeeps(config, importer, w, step, w');
    case Crash => CrashKeeps(config, importer, w, step, w');
    case Serve(_) => ServeKeeps(config, importer, w, step, w');
  }

  lemma CrashKeeps(config: Config, importer: Importer<Value>, w: World, step: Step, w': World)
    requires step.Crash? && Inv(config, w) && Taken(config, importer, w, step, w')
    ensures Inv(config, w')
  {
  }

  // ----- Whole runs -----

  /** A run up to some moment: how it began, and every step it took. */
  datatype Trace = Begun(world: World) | Then(before: Trace, step: Step, world: World)

  ghost predicate Run(config: Config, importer: Importer<Value>, t: Trace)
  {
    match t
    case Begun(w) => Initial(w)
    case Then(before, step, w) => Run(config, importer, before) && Taken(config, importer, before.world, step, w)
  }

  lemma {:induction false} RunHolds(config: Config, importer: Importer<Value>, t: Trace)
    requires Rules(config) && Run(config, importer, t)
    ensures Inv(config, t.world)
  {
    match t
    case Begun(w) => InitialHolds(config, w);
    case Then(before, step, w) =>
      RunHolds(config, importer, before);
      StepKeeps(config, importer, before.world, step, w);
  }

  /** A step gives the Run exactly the events its stream grows by. */
  lemma StepStreams(config: Config, importer: Importer<Value>, w: World, step: Step, w': World)
    requires Taken(config, importer, w, step, w')
    requires Stream(importer, w.server.cursor) == Some(w.server.events)
    ensures Stream(importer, w'.server.cursor) == Some(w'.server.events)
  {
    if step.Serve? && w'.server != w.server {
      match step.message.request
      case Post(p) => AdvanceEmits(importer, config.hash, w.server.cursor, p, w.server.events);
      case _ => StartStreams(importer);
    }
  }

  lemma StartStreams(importer: Importer<Value>)
    ensures Stream(importer, START) == Some([])
  {
    assert Wrapped<Value>([]) == [];
  }

  lemma {:induction false} RunStreams(config: Config, importer: Importer<Value>, t: Trace)
    requires Run(config, importer, t)
    ensures Stream(importer, t.world.server.cursor) == Some(t.world.server.events)
  {
    match t
    case Begun(w) => StartStreams(importer);
    case Then(before, step, w) =>
      RunStreams(config, importer, before);
      StepStreams(config, importer, before.world, step, w);
  }

  /** In every run, whatever crashes, losses, delays and repeats it has: the server has imported
      exactly a prefix of the file, every byte once and in order, and has given the Run exactly
      the events of that stream, every one once and in order. */
  lemma ExactlyOnce(config: Config, importer: Importer<Value>, t: Trace)
    requires Rules(config) && Run(config, importer, t)
    ensures var w := t.world;
            && w.server.cursor.offset <= |w.file|
            && Joined(w.server.cursor.fed) == w.file[..w.server.cursor.offset]
            && Stream(importer, w.server.cursor) == Some(w.server.events)
  {
    RunHolds(config, importer, t);
    RunStreams(config, importer, t);
  }

  /** The state file is never more than its pending packet behind the server: without one their
      cursors are equal, and with one the server may have accepted exactly that packet. */
  lemma AtMostPendingBehind(config: Config, importer: Importer<Value>, t: Trace)
    requires Rules(config) && Run(config, importer, t)
    requires t.world.disk.Some?
    ensures var saved, cursor := t.world.disk.value, t.world.server.cursor;
            var level := saved.offset == cursor.offset && saved.chain == cursor.chain && saved.finished == cursor.finished;
            || level
            || (saved.pending.Some? &&
                var p := saved.pending.value.packet;
                cursor.chain == config.hash(p) && cursor.offset == saved.offset + |p.bytes| && cursor.finished == p.finish)
  {
    RunHolds(config, importer, t);
    var history := t.world.server.history;
    if history != [] {
      assert Contents(history) == Contents(Front(history)) + history[|history| - 1].bytes;
    }
  }

  /** No reply ever makes a command refuse its own state: the checks of the acknowledgement and
      of the bound status succeed whenever they are reached. */
  lemma NeverRefused(config: Config, importer: Importer<Value>, t: Trace)
    requires Rules(config) && Run(config, importer, t)
    ensures t.world.process.Running? ==> t.world.process.stage != Refused
  {
    RunHolds(config, importer, t);
  }

  /** A stopped command can be started again from its state file, unless the stream is finished
      and the file has grown since or another finish is asked for. */
  lemma RestartSucceeds(
      config: Config, importer: Importer<Value>, t: Trace,
      execution: string, finishing: Option<Finish>)
    requires Rules(config) && Run(config, importer, t)
    requires t.world.disk.Some?
    ensures var saved, file := t.world.disk.value, t.world.file;
            Opened(config, t.world.disk, execution, file, finishing) ==
            if saved.finished.Some? && (|file| != saved.offset || (finishing.Some? && finishing != saved.finished))
            then Err(Invalid) else Ok(saved)
  {
    RunHolds(config, importer, t);
  }
}
