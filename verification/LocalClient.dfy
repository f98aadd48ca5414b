/** The client half of an attached metrics stream. The exact pending packet is saved before it
    is sent, and only its exact acknowledgement advances the saved cursor. */
module LocalClient {
  import opened Basics
  import opened LocalCursor

  const FORMAT := "native-local-attach.v1"

  datatype Registration = Registration(run: string, execution: string, body: string)

  datatype Pending = Pending(packet: Packet, prefix: string)

  /** The durable state of one attachment. */
  datatype Saved = Saved(
    format: string, server: string, project: string, request: Registration,
    offset: nat, chain: Link, prefix: string, finished: Option<Finish>, pending: Option<Pending>)

  /** SHA-256 of the bytes of a file. Only `SealRule` is used of it. */
  type Seal = seq<byte> -> string

  ghost predicate SealRule(seal: Seal) { forall a, b :: seal(a) == seal(b) ==> a == b }

  /** What one command was started with. `definition` is the definition file, which names an
      execution only when it has none of its own; `admits` is what else a registration needs. */
  datatype Config = Config(
    server: string, project: string, definition: string -> Registration, admits: Registration -> bool,
    hash: Hash, seal: Seal)

  datatype Refusal = Invalid | Source | Response

  datatype Ack = Ack(
    project: string, run: string, execution: string, packet: Link, chain: Link,
    offset: nat, finished: Option<Finish>)

  datatype View = View(
    project: string, run: string, execution: string, kind: string, submitted: bool, provided: bool,
    offset: nat, chain: Link, finished: Option<Finish>)

  // ----- Decisions -----

  function Fresh(config: Config, execution: string): Saved
  {
    Saved(FORMAT, config.server, config.project, config.definition(execution),
          0, INITIAL_CHAIN, config.seal([]), None, None)
  }

  predicate Bound(config: Config, saved: Saved)
  {
    && saved.format == FORMAT && saved.server == config.server && saved.project == config.project
    && config.definition(saved.request.execution) == saved.request
  }

  function PendingRefusal(config: Config, saved: Saved, pending: Pending, file: seq<byte>): Option<Refusal>
    requires saved.offset <= |file|
  {
    var p, end := pending.packet, saved.offset + |pending.packet.bytes|;
    if p.execution != saved.request.execution || p.offset != saved.offset || p.previous != saved.chain then Some(Invalid)
    else if Digest(config.hash, p).Err? then Some(Invalid)
    else if |file| < end then Some(Source)
    else if file[saved.offset..end] != p.bytes then Some(Source)
    else if config.seal(file[..end]) != pending.prefix then Some(Source)
    else None
  }

  /** The state a command starts from: the saved one if it still belongs to this definition
      and this file, or a fresh one. */
  function Opened(config: Config, disk: Option<Saved>, execution: string, file: seq<byte>, finishing: Option<Finish>)
    : Result<Saved, Refusal>
  {
    if disk.Some? && !Bound(config, disk.value) then Err(Invalid)
    else
      var saved := if disk.Some? then disk.value else Fresh(config, execution);
      if !ValidToken(saved.request.execution) || !config.admits(saved.request) then Err(Invalid)
      else if |file| < saved.offset then Err(Source)
      else if config.seal(file[..saved.offset]) != saved.prefix then Err(Source)
      else if saved.pending.Some? && PendingRefusal(config, saved, saved.pending.value, file).Some? then
        Err(PendingRefusal(config, saved, saved.pending.value, file).value)
      else if saved.finished.Some? &&
              (|file| != saved.offset || (finishing.Some? && finishing != saved.finished)) then Err(Invalid)
      else Ok(saved)
  }

  /** The pending packet is the next of this stream, and the file still has its bytes. */
  ghost predicate PendingFits(config: Config, saved: Saved, file: seq<byte>)
  {
    saved.pending.Some? ==>
      var pending := saved.pending.value;
      var p, end := pending.packet, saved.offset + |pending.packet.bytes|;
      && p.execution == saved.request.execution && p.offset == saved.offset && p.previous == saved.chain
      && Digest(config.hash, p).Ok? && end <= |file| && p.bytes == file[saved.offset..end]
      && pending.prefix == config.seal(file[..end])
  }

  /** A state file is taken up exactly when it is of this format, server, project and definition, the
      file still starts with the bytes that were sent and has those of the pending packet, and a
      finished stream neither grew nor is to be finished otherwise; and then it is taken as it is. */
  lemma OpenedIff(config: Config, saved: Saved, execution: string, file: seq<byte>, finishing: Option<Finish>)
    ensures Opened(config, Some(saved), execution, file, finishing).Ok? <==>
            && saved.format == FORMAT && saved.server == config.server && saved.project == config.project
            && saved.request == config.definition(saved.request.execution)
            && ValidToken(saved.request.execution) && config.admits(saved.request)
            && saved.offset <= |file| && saved.prefix == config.seal(file[..saved.offset])
            && PendingFits(config, saved, file)
            && (saved.finished.Some? ==>
                  |file| == saved.offset && (finishing.Some? ==> finishing == saved.finished))
    ensures Opened(config, Some(saved), execution, file, finishing).Ok? ==>
            Opened(config, Some(saved), execution, file, finishing).value == saved
  {
  }

  /** A file that no longer starts with the bytes that were sent is refused. */
  lemma ChangedFileIsRefused(
      config: Config, saved: Saved, execution: string, sent: seq<byte>, file: seq<byte>, finishing: Option<Finish>)
    requires SealRule(config.seal) && saved.offset == |sent| && saved.prefix == config.seal(sent)
    requires !(sent <= file)
    ensures Opened(config, Some(saved), execution, file, finishing).Err?
  {
    if saved.offset <= |file| {
      assert file[..saved.offset] != sent;
    }
  }

  /** Without a state file a command starts at the beginning, for every valid definition. */
  lemma FreshIff(config: Config, execution: string, file: seq<byte>, finishing: Option<Finish>)
    ensures var start := Opened(config, None, execution, file, finishing);
      var request := config.definition(execution);
      && (start.Ok? <==> ValidToken(request.execution) && config.admits(request))
      && (start.Ok? ==> start.value.request == request && start.value.offset == 0 && start.value.chain == INITIAL_CHAIN
                        && start.value.finished.None? && start.value.pending.None?)
  {
    assert file[..0] == [];
  }

  /** Whether an acknowledgement is exactly the one of the pending packet. */
  predicate Accepts(hash: Hash, saved: Saved, pending: Pending, ack: Ack)
  {
    && Digest(hash, pending.packet).Ok?
    && saved.offset + |pending.packet.bytes| <= U64_MAX
    && ack == Ack(saved.project, saved.request.run, saved.request.execution, hash(pending.packet),
                  hash(pending.packet), saved.offset + |pending.packet.bytes|, pending.packet.finish)
  }

  /** An acknowledgement counts exactly when each of its parts is that of the pending packet: of this
      Project, Run and execution, of the packet and the chain it makes, up to its end, with its finish. */
  lemma AcceptsIff(hash: Hash, saved: Saved, pending: Pending, ack: Ack)
    ensures Accepts(hash, saved, pending, ack) <==>
      && Digest(hash, pending.packet).Ok? && ack.offset <= U64_MAX
      && ack.project == saved.project && ack.run == saved.request.run && ack.execution == saved.request.execution
      && ack.packet == hash(pending.packet) && ack.chain == ack.packet
      && ack.offset == saved.offset + |pending.packet.bytes| && ack.finished == pending.packet.finish
  {
  }

  function Delivered(saved: Saved, ack: Ack): Saved
    requires saved.pending.Some?
  {
    saved.(offset := ack.offset, chain := ack.chain, finished := saved.pending.value.packet.finish,
           prefix := saved.pending.value.prefix, pending := None)
  }

  /** Whether a server's view of the run is the one the saved cursor stands at. */
  predicate BoundStatus(saved: Saved, view: View)
  {
    && view.project == saved.project && view.run == saved.request.run
    && view.execution == saved.request.execution && view.kind == "local"
    && !view.submitted && !view.provided
    && view.offset == saved.offset && view.chain == saved.chain && view.finished == saved.finished
  }

  /** The state with the next bytes of the file pending; a finish is sent only with no bytes. */
  function Extended(config: Config, saved: Saved, file: seq<byte>, count: nat, finishing: Option<Finish>): Saved
    requires saved.offset + count <= |file|
  {
    var end := saved.offset + count;
    var packet := Packet(saved.request.execution, saved.offset, saved.chain, file[saved.offset..end],
                         if count == 0 then finishing else None);
    saved.(pending := Some(Pending(packet, config.seal(file[..end]))))
  }

  // ----- The uploader -----

  /** Hashing a prefix of the file, in reads of any size the file gives. */
  method Prefix(file: seq<byte>, length: nat) returns (r: Result<seq<byte>, Refusal>)
    ensures r == if length <= |file| then Ok(file[..length]) else Err(Source)
  {
    var hashed: seq<byte> := [];
    var remaining: nat := length;
    while remaining > 0
      invariant |hashed| + remaining == length
      invariant |hashed| <= |file| && hashed == file[..|hashed|]
    {
      var at := |hashed|;
      if at == |file| {
        return Err(Source);
      }
      var most := Min(remaining, Min(MAX_BATCH, |file| - at));
      var count :| 0 < count <= most;
      hashed := hashed + file[at..at + count];
      assert hashed == file[..at + count];
      remaining := remaining - count;
    }
    assert |hashed| == length && hashed == file[..length];
    return Ok(hashed);
  }

  /** One running command: its memory, its place in the file, and its state file. */
  class Uploader {
    var saved: Saved
    var hashed: seq<byte>
    var disk: Option<Saved>

    constructor (start: Saved, bytes: seq<byte>, file: Option<Saved>)
      ensures saved == start && hashed == bytes && disk == file
    {
      saved, hashed, disk := start, bytes, file;
    }

    method Save()
      modifies this`disk
      ensures disk == Some(saved)
    {
      disk := Some(saved);
    }

    /** The bytes hashed so far end where the next packet starts. */
    ghost predicate At(file: seq<byte>)
      reads this
    {
      saved.offset <= |file| && hashed == file[..saved.offset]
    }

    /** Makes the next packet pending and durable, before anything is sent. */
    method Prepare(config: Config, file: seq<byte>, count: nat, finishing: Option<Finish>)
      requires saved.offset + count <= |file| && At(file)
      modifies this
      ensures saved == Extended(config, old(saved), file, count, finishing)
      ensures disk == Some(saved) && hashed == file[..saved.offset + count]
    {
      var bytes := file[saved.offset..saved.offset + count];
      hashed := hashed + bytes;
      assert hashed == file[..saved.offset + count];
      var packet := Packet(saved.request.execution, saved.offset, saved.chain, bytes,
                           if count == 0 then finishing else None);
      saved := saved.(pending := Some(Pending(packet, config.seal(hashed))));
      Save();
    }

    /** Only the exact acknowledgement advances the cursor, and it is saved before the next packet. */
    method Deliver(config: Config, reply: Option<Ack>) returns (r: Result<Ack, Refusal>)
      requires saved.pending.Some?
      modifies this
      ensures r.Ok? <==> reply.Some? && Accepts(config.hash, old(saved), old(saved.pending.value), reply.value)
      ensures r.Ok? ==> saved == Delivered(old(saved), reply.value) && disk == Some(saved)
      ensures r.Err? ==> saved == old(saved) && disk == old(disk)
      ensures hashed == old(hashed)
    {
      var pending := saved.pending.value;
      if reply.None? || !Accepts(config.hash, saved, pending, reply.value) {
        return Err(Response);
      }
      var ack := reply.value;
      saved := saved.(offset := ack.offset);
      saved := saved.(chain := ack.chain);
      saved := saved.(finished := pending.packet.finish);
      saved := saved.(prefix := pending.prefix);
      saved := saved.(pending := None);
      Save();
      return Ok(ack);
    }
  }
}
