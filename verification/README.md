# A verified model of the experiment controller's hard core

An experiment controller has a server that owns durable records and a command-line client that
must survive crashes, lost replies and adversarial answers. Its hard decisions are almost free of
I/O. This project states those decisions in Dafny, in the form they have in the program (loops and
objects stay loops and objects), and proves what the program promises of them over every input,
every run and every crash point.

`dafny verify dfyconfig.toml` checks everything. Each module is in the file of its name:

| file | what it models |
|---|---|
| `Basics`, `Texts`, `Identity`, `Sorting`, `Utf8` | shared values: results, decimal text, word and path splitting, identities, sorting by a key, UTF-8 |
| `JsonText`, `JsonGrammar`, `JsonPrefix`, `Canonical`, `JsonParser` | JSON values and their reader, every text of the RFC 8259 grammar spelled out, what a cut text can be read as, the canonical printer, the strict parser with its depth, node and repeated-key refusals |
| `Durable`, `StoreFiles` | a JSON head and its journal: commit, crash between the two writes, recovery, first on values and then on the two files byte by byte |
| `LocalCursor`, `LocalClient`, `LocalProtocol`, `LocalIngest` | the attached metrics stream: server cursor, client state file, both with a network as one system of steps, and the server's four durable writes with a crash between any two |
| `Polling` | the fair rotation with phases and backoff |
| `Batch` | bounded dispatch with claim files |
| `Submit` | sending a job once: dispatch, observe, send, submit and retry against a server that claims an Action once |
| `Observation`, `Status`, `Watch` | read-only continuation machines against a server that may answer anything |
| `Multipart`, `Datasets`, `Upload` | part arithmetic, the monotone state of a dataset upload, and the resumable upload loop |
| `Dockerfile`, `Joining`, `Builder`, `LostFiles` | the smallest build context that keeps a build's meaning, when the program reads a Dockerfile as the builder does, and what is lost where it does not |
| `Sources` | the content stream that identifies a source, and choosing files from an archive |
| `Checkpoints` | checkpoint manifests, their identity and the registry of generations |
| `Artifacts` | download proofs and the retention machine |
| `Presentation`, `Query` | a command line that a shell reads back, ages by long division, and query strings |

How steps, crashes and replies are modelled. A run is a sequence of steps or a loop of calls. What
the outside world decides (whether a request arrives, whether its reply comes back, what a GET
answers, whether the process stops here) is an arbitrary value, so every contract holds for all of
it. A request whose reply was given up on may still arrive later. A state file, a claim file and a
server record keep their value over a crash; everything else is lost.

What is assumed, and nothing else is. SHA-256 tells packets of a stream apart and never gives the
starting chain value (`LocalCursor.ChainRule`; chain values are symbols there), it tells the
prefixes of a file apart (`LocalClient.SealRule`), it tells the events of a stream apart by their
identities (`LocalIngest.NameRule`), and for checkpoint identities it does not collide
on the two documents compared. The text of a finite float is an idempotent function of the number's
text that keeps a fraction or exponent (`Canonical.FloatRule`). The JSON library reports an early end
for all bytes that are no value and that more bytes make one of at most 64 levels
(`StoreFiles.FormatRule`); of deeper nesting it reports its own limit, and an object whose first key
is one of its two private keys it reads as something else, so `StoreFiles.Ordinary` leaves those keys
out, and a committed head has neither. The values a program commits have distinct keys, as every
`serde_json` map has. The server answers an identical packet with its stored reply, as the comment at
`rust/crates/core/src/local.rs:134-135` says; it claims an Action only through the decision at
`rust/crates/core/src/operations.rs:293-342`, a record does not go back, and a retry request sent
twice names the same Attempt. Whatever parts of an upload are recorded before the modelled runs are held
(`Upload.Backed`), as they are when there are none, and only runs of this archive write to its keys; a
dataset state with more parts is written in no fewer bytes (`Datasets.BytesGrow`). The builder that
`server/src/ml_exp_server/image_builder.py:78` calls is BuildKit, and reads a Dockerfile as its parser
does: it takes every carriage return off the end of a line, joins lines as `Joining.Built` says, cuts
words at space, tab, carriage return, vertical tab and form feed alone (`Joining.Fields`), takes quotes
and escapes out of flags (`Builder.BuilderFlags`), and reads a source that is no list of strings as
words (`Builder.SourceList`). A Dockerfile that sets another escape character is refused before any of
this (`rust/crates/client/src/submit.rs:418-432`).

Some promises hold only under a condition, which is proved exactly:

- A strict parse undoes the canonical printer just when the value is at most 64 deep and within the
  node budget (`JsonParser.ParserUndoesPrinter`), so some canonical texts cannot be read back. The
  head of a store is such a text, and nothing checks its depth before it is published: it reads back
  just when it is at most 64 deep (`StoreFiles.HeadReadsIffFits`). `StoreFiles.RecoveryIsComplete`
  is over runs that publish such heads, as the registry does, whose records hold only scalars
  (`rust/crates/core/src/projects.rs:28-36`).
- `commit` and `missing_transition` agree on an event just when it has a canonical form
  (`Durable.CommitSettlesIffCanonical`); `{"x":1e999}` is valid JSON and has none. The store encodes
  head and transition before it writes either (`rust/crates/server/src/projects/store.rs:303-304`),
  so such an event is never published (`Durable.OverflowingEventIsNotPublished`) and recovery needs
  no condition.
- An upload sends a part's bytes only when the last reply did not show the part, but the server may
  have it already: it does just when a request to record it, given up on before, arrived after that
  reply. `Upload.LateRecordIsSentAgain` has those steps, and `Upload.Gateway.Kept` says that no call
  sends a recorded part in any other way.
- The server's journal is that of the accepted packets as long as no packet whose writes have begun is
  given up for another that can be next (`LocalIngest.Ingress.Offered`). The client's pending packet is
  durable before it is sent, so it never is; a client that did give one up, its data for a bare finish
  say, would leave its events behind (`LocalIngest.GivenUpLeavesEvents`).
- A `retry` after a send whose outcome the client does not know only looks for that outcome, as the
  comment at `rust/crates/client/src/submit.rs:1541-1546` promises. Whenever the record of the send was saved,
  this holds just as long as no `submit` writes that it is preparing over that record
  (`Submit.Careful`, `Submit.RetryFollowsLearning`). A `submit` may do so while the execute request of an
  earlier one is still on its way, since it finds the Submission PREPARED; `Submit.ReplacedRecordForgets`
  has the steps after which `retry` asks for a further Attempt, though still only with a yes and after
  the server confirmed the last one.
- The program reads a Dockerfile's instructions as the builder does, word for word, as the comment at
  `rust/crates/client/src/submit.rs:396` promises, just when `Joining.PlainJoins` holds
  (`Joining.JoiningsAgreeIffPlain`). In short: no line that goes on ends in more than one backslash, no
  word goes on in the next line, no blank line stands inside an instruction, and no other white space
  than the builder's five blanks stands between words. With plain joins the split keeps the build for
  every instruction whose own line is read alike (`Builder.ReadAlike`, `Builder.SplitKeepsBuilderBuild`):
  no such white space, no quote and no escape in a flag, and a list of sources on one line. Otherwise a
  file may be lost, as three Dockerfiles show: two backslashes before a line end
  (`LostFiles.DoubleBackslashLosesFile`), a no-break space inside a name
  (`LostFiles.OtherSpaceLosesFile`), and a blank escaped inside a flag
  (`LostFiles.EscapedFlagLosesFile`).

## Model

| member | source | states |
|---|---|---|
| JsonText.RenderRoundTrip | rust/crates/core/src/canonical.rs:60-97 | The compact text of any value, with RFC 8259 section 7 escapes, reads back as that value and nothing is left over. |
| JsonGrammar.ReadsExactlyTheGrammar | rust/crates/core/src/json.rs:43-72 | A text is read as a value exactly when the grammar of RFC 8259 spells that value with it: its white space, number parts, short and coded escapes, surrogate pairs and lists. |
| Canonical.WriteValue | rust/crates/core/src/canonical.rs:64-97 | Appends exactly the rendered normal form to the buffer, or fails when there is none. |
| Canonical.WriteItems | rust/crates/core/src/canonical.rs:71-80 | Writes array items in order between commas. |
| Canonical.WriteMembers | rust/crates/core/src/canonical.rs:81-94 | Writes members in key order whatever order they came in. |
| Canonical.Bytes | rust/crates/core/src/canonical.rs:12-16 | The canonical text of a value, or none. |
| Canonical.IntegerIsExact | rust/crates/core/src/canonical.rs:47-58 | The text of an integer is the decimal text of the number it writes, sign and all; it is the integer's own text for every integer other than `-0`. |
| Canonical.IntegersAgree | rust/crates/core/src/canonical.rs:49-58 | Two integers have the same text exactly when they are the same number. |
| Canonical.FloatIsNoInteger | rust/crates/core/src/canonical.rs:30-32 | A float and an integer never have the same text, so `1.0` and `1` stay two. |
| Canonical.NormIsOrdered | rust/crates/core/src/canonical.rs:81-94 | A normal form has its keys strictly increasing at every level. |
| Canonical.CanonicalTextIsMeaning | rust/crates/core/src/canonical.rs:30-37 | Two values have the same canonical text exactly when they mean the same document, with objects as maps, integers as numbers and floats as the shortest text of their nearest one; and there is a text exactly when there is a meaning. |
| Canonical.NormIsStable | rust/crates/core/src/canonical.rs:60-97 | A normal form is its own normal form, so a record that was read back is written again as it stands. |
| JsonParser.Budget.Consume | rust/crates/core/src/json.rs:39-42 | Takes one node from the budget, or refuses at zero and changes nothing. |
| JsonParser.ParseValue | rust/crates/core/src/json.rs:43-72 | Accepts exactly the clean values the budget covers, and pays for exactly their nodes. |
| JsonParser.ParseItems | rust/crates/core/src/json.rs:84-94 | Reads the items the grammar reads, all clean, within the budget. |
| JsonParser.ParseMembers | rust/crates/core/src/json.rs:95-114 | Reads the members the grammar reads, refusing a repeated key at any level. |
| JsonParser.Parse | rust/crates/core/src/json.rs:32-38 | Accepts exactly the texts of one clean object, counted with one node for each value and one for each key. |
| JsonParser.CleanIsBounded | rust/crates/core/src/json.rs:43-72 | What the parser lets through is exactly: depth at most 64, keys distinct at every level, all floats finite. |
| JsonParser.ParserUndoesPrinter | rust/crates/core/src/json.rs:24-37 | Parsing the canonical text of an object gives its normal form exactly when its depth and node count are within the limits, and is refused otherwise. |
| JsonParser.Mapping | rust/crates/core/src/json.rs:24-26 | A mapping from outside is accepted exactly within 600,000 nodes and the other bounds. |
| JsonParser.OwnMapping | rust/crates/core/src/json.rs:29-31 | A mapping the service wrote has no bound on its nodes but what an index can count. |
| JsonPrefix.PartIsNoValue | rust/crates/server/src/projects/store.rs:132-143 | No proper part of an object's text, from its start, reads as a value. |
| Durable.ValidateJournal | rust/crates/core/src/durable.rs:65-85 | Accepts exactly the journals whose transitions are contiguous with distinct identities, and returns their number. |
| Durable.ContiguousMeans | rust/crates/core/src/durable.rs:65-85 | In such a journal the i-th transition has revision i and no two share an identity. |
| Durable.TransitionFields | rust/crates/core/src/durable.rs:124-165 | A committed transition reads back with its identity and revision. |
| Durable.HeadReadsBack | rust/crates/core/src/durable.rs:17-53 | A committed head reads back as its payload, its revision and its transition. |
| Durable.NormalHeadReadsBack | rust/crates/server/src/projects/store.rs:101-105 | The same from the canonical form of the head, each part in its own normal form, wherever sorting moved it. |
| Durable.SnapshotIff | rust/crates/core/src/durable.rs:18-64 | A head is read exactly when it is an object without commits, or what it says of its last commit is whole. |
| Durable.SnapshotIs | rust/crates/core/src/durable.rs:18-64 | What is read is the object without that, the revision and the transition. |
| Durable.SettledIff | rust/crates/core/src/durable.rs:87-114 | Nothing is missing exactly when the journal is intact, of the head's revision, and ends in the head's transition, as one record. |
| Durable.BehindIff | rust/crates/core/src/durable.rs:87-114 | The head's transition is missing exactly when the journal is intact, one revision behind, and has not used its identity; in every other case the two are refused. |
| Durable.StepRefinesLog | rust/crates/core/src/durable.rs:87-167 | Every step refines a plain list of commits: a publish adds exactly the commit asked for, and only one that may follow the list, so any expected revision is the number of commits and the identity is new; every other step leaves the list alone. |
| Durable.CommitIff | rust/crates/core/src/durable.rs:123-167 | A commit is accepted exactly when nothing is missing from the journal, an expected revision is the number of commits, the identity is valid and new, and payload and event are objects without the keys that committing adds. |
| Durable.PublishIff | rust/crates/server/src/projects/store.rs:262-321 | A publish can be taken exactly when the same holds, no append is under way, and payload and event have distinct keys and canonical forms. |
| Durable.RunIsConsistent | rust/crates/core/src/durable.rs:87-165 | After any run the journal holds the committed history, or all of it but the last transition, which the head has. |
| Durable.RecoveryIsComplete | rust/crates/server/src/projects/store.rs:262-321 | From any moment of any run, recovery does not fail, the repaired journal holds exactly the committed history, and nothing is missing from it. |
| Durable.CommitSettlesIffCanonical | rust/crates/core/src/durable.rs:87-165 | For any snapshot, journal, value and event: with its transition in the journal an accepted commit has nothing missing exactly when the event has a canonical form, and is refused otherwise. |
| Durable.OverflowingEventIsNotPublished | rust/crates/server/src/projects/store.rs:295-304 | The event `{"x":1e999}` is accepted by `commit`, could not be settled, and is refused by the encoding before anything is written. |
| StoreFiles.EncodedReads | rust/crates/server/src/projects/store.rs:101-105 | An object reads back from its encoded bytes as its normal form exactly when it is within the reader's bounds. |
| StoreFiles.HeadReadsIffFits | rust/crates/server/src/projects/store.rs:303-312 | A committed head reads back from its bytes exactly when it is at most 64 deep. |
| StoreFiles.ReadJournal | rust/crates/server/src/projects/store.rs:115-146 | Reads the journal line by line: its events, and its bytes put in order when the last line has no end, whether it is cut between characters or inside one. |
| StoreFiles.JournalIff | rust/crates/server/src/projects/store.rs:115-146 | A journal is read exactly when every ended line is a record, and what follows the last end is nothing, a record, or the start of one cut inside its JSON text and not broken as UTF-8. |
| StoreFiles.OpenIs | rust/crates/server/src/projects/store.rs:127-145 | An open last line is a record that gets its end, or the part of one that is dropped; nothing before it changes. |
| Utf8.PartDecodes | rust/crates/server/src/projects/store.rs:132-138 | A part of a text's bytes is a part of its characters and at most the start of one more, which Rust's check of UTF-8 does not hold against it. |
| StoreFiles.PartIsCut | rust/crates/server/src/projects/store.rs:132-143 | No proper part of a record reads as a value, at whatever byte it ends, and it is known to be cut. |
| StoreFiles.CutJournal | rust/crates/server/src/projects/store.rs:115-146 | Wherever the append of a record stops, at any byte, the journal reads as before it or as after it, and is put in order without loss. |
| StoreFiles.NormalizedReads | rust/crates/server/src/projects/store.rs:115-146 | A journal put in order reads as it did, and is in order. |
| StoreFiles.StepRefinesLog | rust/crates/server/src/projects/store.rs:262-321 | Every step on the two files, wherever it stops, is a step of the plain list of commits: a publish adds exactly the commit asked for, and only one that expects the number of commits there are. |
| StoreFiles.PublishIff | rust/crates/server/src/projects/store.rs:262-321 | A publish of the files can be taken exactly when the journal is in order and complete, the commit may follow the list, its head is within the reader's bounds, and payload and event have distinct keys and canonical forms. |
| StoreFiles.RecoveryIsComplete | rust/crates/server/src/projects/store.rs:232-281 | After any run of such steps the files load, and a finished repair leaves a journal of whole lines that holds exactly the committed history. |
| LocalCursor.Advance | rust/crates/core/src/local.rs:137-176 | Accepts exactly the next packet of an unfinished stream, importing its bytes in chunks, or names the refusal; what it does to the stream is `LocalCursor.AdvanceExtends` and `LocalCursor.AdvanceEmits`. |
| LocalCursor.AdvanceIff | rust/crates/core/src/local.rs:106-171 | A packet is accepted exactly when it is valid, the stream is unfinished, it is the next, the importer takes its chunks and its finish, and the offset fits. |
| LocalCursor.AdvanceExtends | rust/crates/core/src/local.rs:136-173 | An accepted packet extends the history the cursor stands for by exactly itself. |
| LocalCursor.AdvanceEmits | rust/crates/core/src/local.rs:145-167 | The events of an accepted packet are exactly what the events of the whole stream grow by: in order, everything the importer emits for the packet's chunks after the earlier ones, and on a finish its last events and the one that says this packet drained it. |
| LocalCursor.DrainedOnce | rust/crates/core/src/local.rs:155-167 | Of a stream's events only the last can say that it drained, and it does exactly when the stream is finished. |
| LocalCursor.ChainDeterminesHistory | rust/crates/core/src/local.rs:102-114 | Equal chain values mean equal packet histories. |
| LocalClient.Prefix | rust/crates/client/src/local.rs:72-88 | Hashes exactly the first bytes of the file, whatever sizes its reads give. |
| LocalClient.OpenedIff | rust/crates/client/src/local.rs:203-262 | A state file is taken up exactly when it is of this format, server, project and definition, the file still has the bytes that were sent and those of the pending packet, and a finished stream neither grew nor is to be finished otherwise; and then as it is. |
| LocalClient.ChangedFileIsRefused | rust/crates/client/src/local.rs:236-240 | A file that no longer starts with the bytes that were sent is refused. |
| LocalClient.Uploader.Prepare | rust/crates/client/src/local.rs:286-311 | Makes the next bytes pending and durable before anything is sent. |
| LocalClient.Uploader.Deliver | rust/crates/client/src/local.rs:117-134 | Only the exact acknowledgement advances the cursor; any other reply leaves memory and disk as they were. |
| LocalProtocol.StepKeeps | rust/crates/client/src/local.rs:163-317 | Every step of file, client, network and server keeps the whole invariant. |
| LocalProtocol.ReplayAnswer | rust/crates/core/src/local.rs:134-172 | A packet that changes nothing on the server is answered only if it was accepted before, and then with its own receipt. |
| LocalProtocol.NextIsPending | rust/crates/core/src/local.rs:136-147 | A packet the server newly accepts, however late, is the client's pending one. |
| LocalProtocol.ExactlyOnce | rust/crates/core/src/local.rs:137-176 | In every run the bytes fed to the importer are exactly a prefix of the file, every byte once and in order, and the events given to the Run are exactly those of that stream, every one once and in order. |
| LocalProtocol.AtMostPendingBehind | rust/crates/client/src/local.rs:117-134 | The state file is level with the server, or exactly its pending packet behind. |
| LocalProtocol.NeverRefused | rust/crates/client/src/local.rs:99-148 | The checks of an acknowledgement and of the bound status never fail in any run. |
| LocalProtocol.RestartSucceeds | rust/crates/client/src/local.rs:163-255 | A restart opens its state file in every reachable state, unless the stream is finished and the file grew or another finish is asked for. |
| LocalIngest.AppendedIsFirsts | rust/crates/server/src/records/store.rs:296-361 | Appending events to a journal that holds each event of a stream once, where it occurs first, gives the journal that holds the longer stream so. |
| LocalIngest.Ingress.Append | rust/crates/server/src/records/store.rs:296-361 | Appends the events whose identity is new, in order, or changes nothing exactly when two different events have one identity. |
| LocalIngest.JournalsSound | rust/crates/server/src/api/local_runs.rs:441-444 | Appending the events of a packet under way gives the journal of the stream with them, whether an earlier try that stopped had appended them or not. |
| LocalIngest.Ingress.Ingest | rust/crates/server/src/api/local_runs.rs:345-465 | Wherever the server stops between intent, journal, receipt and cursor, the files stay sound: the journal is that of the stream at the cursor, or with the one packet under way. A packet that is next is answered once the server no longer stops, and an answered packet is answered again with its stored receipt and changes nothing. |
| LocalIngest.GivenUpLeavesEvents | rust/crates/server/src/api/local_runs.rs:425-444 | If a client gave up a packet under way for another one that can be next, its events would stay in the journal and be in no stream that was accepted. |
| LocalIngest.Deliveries | rust/crates/server/src/api/local_runs.rs:345-465 | A client that repeats a packet until it is answered, with answered ones coming again at any time, and a server that stops after any write: the accepted packets follow one another, each was answered and keeps its receipt, and the journal holds each of their events once in order, and besides at most those of the packet not yet answered. |
| Polling.Schedule.Select | rust/crates/core/src/polling.rs:74-100 | Picks the ready candidate that comes soonest in the rotation past the last one, and only that moves. |
| Polling.Schedule.Outcome | rust/crates/core/src/polling.rs:101-132 | The whole new schedule after a report, a busy one included. |
| Polling.Schedule.DueAt | rust/crates/core/src/polling.rs:133-142 | Clears the failures and sets the due time of that entry alone. |
| Polling.Schedule.Skipped | rust/crates/core/src/polling.rs:143-150 | Moves the phase on, keeps the failure count, and does not wait the backoff again. |
| Polling.PassesAreBounded | rust/crates/core/src/polling.rs:74-100 | While a ready candidate is passed over, the candidates ahead of it in the rotation only get fewer. |
| Polling.BoundedBypass | rust/crates/core/src/polling.rs:74-100 | A candidate due at every select is returned within as many selects as there are candidates, whatever the others report. |
| Polling.PollLeads | rust/crates/core/src/polling.rs:101-150 | What one poll at its due time makes of an entry, in terms of all polls so far: a busy report keeps phase and failures and waits a second; a failure in any phase counts, and a success clears the count. |
| Polling.PollEach | rust/crates/core/src/polling.rs:74-150 | Asked every second, an entry is polled at exactly the seconds of the closed form, and in the phase that the polls before it lead to, whatever each poll brings. |
| Polling.RoundTakes | rust/crates/core/src/polling.rs:101-150 | The time from a scheduler read to the next, for every outcome of the worker and history polls in between and any number of busy ones: each failure waits the interval times two to the failures in a row, five at most, capped at 300. |
| Polling.IdleRoundTakes | rust/crates/core/src/polling.rs:137-150 | With no other work the gap is two seconds more than the interval after a success, and than the backoff after failures. |
| Batch.Directory.Send | rust/crates/client/src/batch.rs:195-214 | Sends only after a new claim file, and the claim stays if the command ends between the two. |
| Batch.Dispatch | rust/crates/client/src/batch.rs:126-219 | A pass sends only children offered as ready and never claimed before, and no more of them than there are slots left by the occupied rows and by the children claimed before; with slots left over, every ready child has a claim. |
| Batch.CountOccupied | rust/crates/core/src/preparation.rs:80-100 | Counts the rows that take a slot: unknown, or submitted and not ended. |
| Batch.Passes | rust/crates/client/src/batch.rs:126-219 | Over any passes and crashes each Action is sent at most once, after its claim. |
| Submit.ClaimMovesForward | rust/crates/core/src/operations.rs:293-342 | A granted claim moves a record forward and starts a job only from PREPARED within its gate. |
| Submit.Server.Claiming | rust/crates/core/src/operations.rs:293-342 | An execute request, however late, leaves every Submission with at most one job. |
| Submit.Machine.Dispatch | rust/crates/client/src/submit.rs:1042-1066 | Sends at most one execute request, and none for a Submission that was not PREPARED within its gate. |
| Submit.Machine.Observe | rust/crates/client/src/submit.rs:1069-1082 | Finds out what happened to the original job without sending anything that could start one. |
| Submit.Machine.Send | rust/crates/client/src/submit.rs:1087-1101 | Succeeds only when the server's record holds a claim: it has left PREPARED and is not BLOCKED. |
| Submit.Machine.SendAndNote | rust/crates/client/src/submit.rs:1483-1496 | What is saved after a send names this Submission, and says that its outcome is known only when the command succeeded with VERIFIED; a success is always followed by writing the record it calls for. |
| Submit.Machine.SendRemembered | rust/crates/client/src/submit.rs:1682-1685 | The same from before the send: the record on disk is what it was or names this Submission, as owing its outcome unless the command learned it. |
| Submit.Machine.Reattach | rust/crates/client/src/submit.rs:1376-1425 | Goes back to a job that may exist, sending nothing. |
| Submit.Machine.AwaitPrepared | rust/crates/client/src/submit.rs:1874-1934 | Finds the preparation's Submission, and sends nothing that could start a job. |
| Submit.Machine.Resolve | rust/crates/client/src/submit.rs:1601-1628 | A claimed Submission's outcome first: success means confirmed, the record changes only about this Submission, and says that the outcome is known only where it was just learned. |
| Submit.Machine.Submit | rust/crates/client/src/submit.rs:1340-1514 | At most one execute request and only after a yes, no retry request ever, and success only with a claim. |
| Submit.Machine.Choose | rust/crates/client/src/submit.rs:1547-1686 | Chooses what a retry sends: the recorded Submission if it was never sent, a further Attempt, or nothing for an unsettled one that was claimed. |
| Submit.Machine.Follow | rust/crates/client/src/submit.rs:1601-1686 | A further Attempt is asked for only after a yes, when the last Submission is confirmed, not unsettled and not seen to be still running. |
| Submit.Machine.Retry | rust/crates/client/src/submit.rs:1547-1697 | At most one execute request after a yes; a retry request only for the recorded Submission, VERIFIED on the server and settled in the record; an unsettled one is only finished, never followed. |
| Submit.RetryFollowsLearning | rust/crates/client/src/submit.rs:1541-1546 | In any log of what commands may write: before the command that asks for a further Attempt began, the outcome of every send of the last one, whose record was saved, had been learned, unless a `submit` wrote that it is preparing over a record that owed one. |
| Submit.ReplacedRecordForgets | rust/crates/client/src/submit.rs:1454-1460 | Wherever such a record is replaced, later commands may go on to ask for a further Attempt with nothing learned before. |
| Submit.JobsAreSent | rust/crates/core/src/operations.rs:293-342 | There are never more jobs than execute requests. |
| Submit.History | rust/crates/client/src/submit.rs:1340-1697 | Over any commands, answers, crashes and late requests: no more jobs than yeses, at most one for each Submission, every Attempt but the newest confirmed, and every request for a further Attempt follows the outcome of the last one's recorded sends, under the condition of `Submit.RetryFollowsLearning`. |
| Observation.BeginBinds | rust/crates/client/src/observation.rs:173-275 | The requested Project, Run and Attempt are the ones bound. |
| Observation.SavedAgrees | rust/crates/client/src/observation.rs:115-233 | A saved state is taken only for its own server, and the Project, Run and Attempt it names are the ones that are bound. |
| Observation.AcceptExtends | rust/crates/client/src/observation.rs:303-368 | Any accepted answer keeps everything already bound and brings the machine closer to its end. |
| Observation.AcceptOwes | rust/crates/client/src/observation.rs:234-371 | What is still to be read is what the saved state names and has not been read; so a completed resolution has read its Submission, or its Preparation and the Submission that one has, each under its own identity. |
| Observation.Resolve | rust/crates/client/src/observation.rs:373-389 | Ends after at most two reads, whatever comes back, with everything bound still bound and everything the saved state names read. |
| Status.Flow.Start | rust/crates/client/src/status.rs:181-198 | Reads the Preparation again only if it was not read while resolving. |
| Status.Flow.Progress | rust/crates/client/src/status.rs:248-261 | Takes progress evidence exactly when it is of this Submission, Run and Attempt. |
| Status.Flow.AcceptRun | rust/crates/client/src/status.rs:282-306 | Goes on exactly with an answer of this Run, or without one on a 404 before submission or with a prepared state, if the next read can be asked for. |
| Status.Flow.AcceptAttempts | rust/crates/client/src/status.rs:307-358 | The one place that may adopt an Attempt, only without saved state and with none bound; the Attempt is taken to exist only on exactly one exact entry, and when a listing is taken at all is stated exactly. |
| Status.Flow.AcceptDiscover | rust/crates/client/src/status.rs:359-401 | Follows a Submission only if it is the only one of this Attempt in a listing of this Run, and goes on without one exactly on any other number of them or on a passing failure. |
| Status.Flow.AcceptCollection | rust/crates/client/src/status.rs:412-431 | Goes on exactly with a collection of this Run and Attempt, or without one on a 404 or 409. |
| Status.Flow.AcceptExpanded | rust/crates/client/src/status.rs:432-452 | Takes the expanded evidence exactly for this Run, this Attempt and its scope. |
| Status.Flow.Layer | rust/crates/client/src/status.rs:511-529 | The scheduler layer shown is the first that names the bound Attempt, the Run's before the Attempt's own, and empty only when neither does. |
| Status.Flow.Finish | rust/crates/client/src/status.rs:530-602 | The result carries the bound identity, the state of that layer, `UNKNOWN` for an existing Attempt only when its own view was read and has no evidence of it either, and the status of that Attempt's collection when one was read. |
| Status.Flow.Accept | rust/crates/client/src/status.rs:262-453 | Every answer brings the machine strictly closer to its end and keeps all evidence of one Run and Attempt; a bound Attempt never changes. |
| Status.Observe | rust/crates/client/src/status.rs:608-625 | For every server: at most nine GETs; the result is of the requested Project and Run; a saved or bound Attempt is the result's, and an unbound one is adopted at most once. |
| Watch.Watch.Accept | rust/crates/client/src/watch.rs:85-143 | A document is accepted exactly when the clock has not gone back, it is of the bound Project and Run, it brings the bound Attempt, the first one, or none while none is bound, and its states are legible; then its identity is bound, and the watch ends, or waits five seconds or what is left. |
| Watch.ObserveWith | rust/crates/client/src/watch.rs:149-181 | Every update of a whole watch carries one identity, the one asked for, and no read but the first starts after the window. |
| Multipart.PartsTile | rust/crates/core/src/multipart.rs:19-37 | Every byte of an archive lies in exactly one part, and every part has at least one. |
| Multipart.PartsMeet | rust/crates/core/src/multipart.rs:31-37 | Each part ends where the next begins, and the last at the end of the archive. |
| Datasets.CheckFiles | rust/crates/core/src/datasets.rs:98-137 | Accepts exactly the listings of valid, distinct paths within the size limit. |
| Datasets.CheckNesting | rust/crates/core/src/datasets.rs:98-137 | Accepts exactly when no file lies inside another file. |
| Datasets.CheckDefinition | rust/crates/core/src/datasets.rs:98-137 | Accepts exactly the valid definitions. |
| Datasets.SuccessorIsOrder | rust/crates/core/src/datasets.rs:286-301 | Succession is a partial order on valid states. |
| Datasets.StepsAreSuccessors | rust/crates/core/src/datasets.rs:254-285 | Recording a part and publishing lead to successors, with exactly that part or receipt added. |
| Datasets.RecordIff | rust/crates/core/src/datasets.rs:254-275 | A recording is accepted exactly when it is there already as it is, or is the first of a part of this archive, of the right size, before the archive is ready and while there is room; the same one again changes nothing. |
| Datasets.RecordedExactly | rust/crates/core/src/datasets.rs:254-275 | After any recordings the parts are those there were and those recorded, and nothing else changed. |
| Datasets.OrderDoesNotMatter | rust/crates/core/src/datasets.rs:254-275 | The same recordings in any order and number give the same state. |
| Datasets.AnyOrderSucceeds | rust/crates/core/src/datasets.rs:254-275 | Parts that can be recorded in one order can be in every order, however often, and any of them alone. |
| Datasets.ReadyIsComplete | rust/crates/core/src/datasets.rs:224-253 | A ready state has exactly the parts from zero to the part count, though only their number is checked. |
| Upload.PartsAssemble | rust/crates/client/src/datasets.rs:385-491 | The parts sent, put together in order, are the archive. |
| Upload.RecordedIsWhole | rust/crates/client/src/datasets.rs:384-437 | When every part is recorded with its own hash, the bytes held for the parts, put together in order, are the archive. |
| Upload.SendingIsExact | rust/crates/client/src/datasets.rs:385-478 | When the last reply lacks a part, the server has it exactly when a late request recorded it after that reply, and then one that was given up on. |
| Upload.LateRecordIsSentAgain | rust/crates/client/src/datasets.rs:462-478 | A request is given up on, the reply that begins the next run lacks its part, and it arrives then: the part is recorded and not shown, so its bytes are sent again. |
| Upload.Gateway.Record | rust/crates/core/src/datasets.rs:254-275 | A request to record moves the server to a successor; without a reply it may still arrive any number of times later, and a reply shows the part recorded as asked. |
| Upload.Gateway.PutPart | rust/crates/client/src/datasets.rs:156-167 | Only an answer of 200 or 409 says that the part's bytes are in the object store; after any other answer they may have landed or may still land, and what is held is never replaced. |
| Upload.Uploader.PutToStore | rust/crates/client/src/datasets.rs:141-167 | At most twelve PUTs; success means that the object store holds exactly the part's bytes, and bytes are sent only of a part that the last reply lacks. |
| Upload.Uploader.RecordStored | rust/crates/client/src/datasets.rs:177-183 | Asks at most twelve times to record a part whose bytes are held: the server only moves to a successor, no bytes are sent, and success is the state that a reply shows. |
| Upload.Uploader.Settle | rust/crates/client/src/datasets.rs:385-478 | A part that the last reply shows recorded is not sent; success means it is recorded with its own hash and its own bytes are held. |
| Upload.Uploader.Send | rust/crates/client/src/datasets.rs:407-478 | Success means that a reply shows the part recorded with its own hash, in a successor of what was known. |
| Upload.Uploader.Run | rust/crates/client/src/datasets.rs:349-491 | Ending anywhere, with requests and PUTs given up on arriving at any time, a run loses and changes no recorded part, sends bytes only of parts the last reply lacks, and asks to complete an archive that was not ready only with every part recorded and with held parts that make up the archive. |
| Upload.Resume | rust/crates/client/src/datasets.rs:349-491 | The same over any number of interrupted runs, with requests of earlier runs arriving in later ones. |
| Dockerfile.Instructions | rust/crates/client/src/submit.rs:397-414 | The instructions of a Dockerfile after line joining. |
| Dockerfile.ContinuationKeepsWords | rust/crates/client/src/submit.rs:397-414 | Joining lines keeps every word that is not in a comment, in order. |
| Dockerfile.FlagsAreWords | rust/crates/client/src/dockerfile.rs:38-66 | Skipping flags leaves exactly the words after the leading ones that start with two dashes, or finds `--from`. |
| Dockerfile.SourcesOf | rust/crates/client/src/dockerfile.rs:38-66 | The sources of one COPY or ADD, or why they cannot be read for certain. |
| Dockerfile.SourcesAreWritten | rust/crates/client/src/dockerfile.rs:38-66 | The sources found are exactly those the line writes, read by its words alone. |
| Dockerfile.SourceSelects | rust/crates/client/src/dockerfile.rs:67-92 | A source read for certain selects exactly the paths that Docker's own reading of it selects. |
| Dockerfile.NamedSources | rust/crates/client/src/dockerfile.rs:93-123 | All sources of a Dockerfile, or the first reason to keep the whole directory. |
| Dockerfile.LineIsRead | rust/crates/client/src/dockerfile.rs:93-123 | For each line, what it takes from the context is exactly what its sources hold. |
| Dockerfile.LineIff | rust/crates/client/src/dockerfile.rs:38-120 | A line is read exactly when it is blank, a COPY or ADD whose flags are known and whose sources are plain, or another instruction of the Dockerfile reference that cannot read the directory in this build. |
| Dockerfile.SplitDirectory | rust/crates/client/src/dockerfile.rs:136-168 | Decides between a chosen set of files and the whole directory. |
| Dockerfile.SplitIff | rust/crates/client/src/dockerfile.rs:136-168 | A Dockerfile is split exactly when every line is readable, every source that a line takes is there, and not every file is needed; and then into exactly the files needed: what some line takes, the Dockerfile and its ignore files. |
| Dockerfile.SplitKeepsBuild | rust/crates/client/src/dockerfile.rs:136-168 | With the chosen files every line, as the program joins them, is given exactly what it is given from the whole directory, under the same ignore files, for every Dockerfile. |
| Dockerfile.SplitIsSmallest | rust/crates/client/src/dockerfile.rs:136-168 | Every chosen file is taken by some line, or is the Dockerfile or an ignore file. |
| Joining.JoiningsAgreeIffPlain | rust/crates/client/src/submit.rs:396-414 | The program and the builder read the same instructions, word for word and each cutting words in its own way, exactly when the joins are plain and only the builder's blanks stand between words. |
| Builder.PartnerOf | rust/crates/client/src/submit.rs:396-414 | With plain joins every instruction the builder reads has one of the program with the same words, and the same text when it stands on one line. |
| Builder.PlainFlagsAreWords | rust/crates/client/src/dockerfile.rs:38-54 | Without quotes and escapes the builder's flags are the leading words that start with two dashes, and the rest is what the program skips to. |
| Builder.BuilderTakesIt | rust/crates/client/src/dockerfile.rs:38-66 | What the builder takes by its own reading of a line is what the line's words say, under the line's conditions. |
| Builder.SplitKeepsBuilderBuild | rust/crates/client/src/dockerfile.rs:136-168 | With plain joins every instruction that is read alike is given by the builder, from the chosen files, exactly what it is given from the whole directory, lists on one line included. |
| LostFiles.DoubleBackslashLosesFile | rust/crates/client/src/submit.rs:396-414 | A Dockerfile whose split leaves out a file that the builder's second instruction takes. |
| LostFiles.OtherSpaceLosesFile | rust/crates/client/src/dockerfile.rs:38-66 | A Dockerfile with plain joins whose split leaves out the one file it takes, for a no-break space in its name. |
| LostFiles.EscapedFlagLosesFile | rust/crates/client/src/dockerfile.rs:38-54 | A Dockerfile with plain joins whose split leaves out the one file it takes, for a blank escaped in a flag. |
| Sources.DecodeUndoesStream | rust/crates/client/src/sources.rs:733-777 | A content stream reads back as the files it was made of. |
| Sources.StreamUndoesDecode | rust/crates/client/src/sources.rs:733-777 | Only the streams of some files can be read. |
| Sources.StreamsDiffer | rust/crates/client/src/sources.rs:733-777 | Equal streams mean equal file lists. |
| Sources.Update | rust/crates/client/src/sources.rs:756-767 | The digest is fed exactly one file's record: path, NUL, mark, eight-byte size, body. |
| Sources.PackDirectory | rust/crates/client/src/sources.rs:690-777 | Packs what the walk found, in path order, within the size limit. |
| Sources.ContentIsFileSet | rust/crates/client/src/sources.rs:725-777 | A directory's identity does not depend on the walk's order, and no two sets of files share a stream. |
| Sources.PackSubset | rust/crates/client/src/sources.rs:448-525 | Produces exactly the stream of the chosen files in archive order; refuses exactly a changed Dockerfile or a wrong count. |
| Sources.CountMeansAll | rust/crates/client/src/sources.rs:511-513 | In a packed archive the right count means that every chosen file was found. |
| Sources.SubsetIsDirectory | rust/crates/client/src/sources.rs:448-525 | Choosing from a packed directory is packing a directory of the chosen files alone. |
| Checkpoints.ReadRows | rust/crates/core/src/checkpoints.rs:214-233 | Accepts exactly the rows that are each right and have paths of their own, and collects their generations. |
| Checkpoints.GenerationIff | rust/crates/core/src/checkpoints.rs:163-195 | A path is of a generation exactly when it lies under `checkpoints/`, that name and at least one part more, and no part is empty or starts with a dot. |
| Checkpoints.ReadManifest | rust/crates/core/src/checkpoints.rs:197-243 | A manifest, its rows in path order with their one generation, or the refusal. |
| Checkpoints.ManifestForgetsOrder | rust/crates/core/src/checkpoints.rs:197-243 | A manifest does not depend on the order of its rows, its size limit included. |
| Checkpoints.IdentityIsContent | rust/crates/core/src/checkpoints.rs:299-320 | Two documents have one identity exactly when context, step and set of files agree, unless the digest collides on them. |
| Checkpoints.ValidateUndoesDocument | rust/crates/core/src/checkpoints.rs:334-393 | Validating a built or registered document gives back its context and sorted manifest, and is refused exactly when another context or identity is asked for. |
| Checkpoints.ValidMeansBuilt | rust/crates/core/src/checkpoints.rs:334-380 | The same for any two valid documents, however their rows are ordered. |
| Checkpoints.ValidateDocument | rust/crates/core/src/checkpoints.rs:334-380 | Accepts exactly the documents that say what their identity says. |
| Checkpoints.EnsureGenerationCompatible | rust/crates/core/src/checkpoints.rs:412-423 | Accepts exactly a valid candidate whose generation has no other identity among valid rows. |
| Checkpoints.Registry.Register | rust/crates/core/src/checkpoints.rs:382-423 | Adds exactly an accepted candidate with a valid timestamp, with the fields registering adds, and keeps one identity for each generation. |
| Checkpoints.Registry.RegisterAll | rust/crates/core/src/checkpoints.rs:412-423 | Whatever is offered in whatever order, a generation keeps its one identity for good. |
| Artifacts.ValidateReceipt | rust/crates/core/src/artifacts.rs:157-179 | Accepts exactly the valid receipts, and tells a wrong identity from the rest. |
| Artifacts.CountMeansExact | rust/crates/core/src/artifacts.rs:181-202 | Holding as many files as the receipt, each of its own among them, is holding exactly those. |
| Artifacts.ProofMatches | rust/crates/core/src/artifacts.rs:181-202 | Accepts a proof exactly when its file map is the receipt's files under `outputs/`, with hash and size. |
| Artifacts.AcknowledgeIff | rust/crates/core/src/artifacts.rs:204-231 | An acknowledgement is given exactly for a valid receipt, a proof of this archive that holds every file of the receipt under `outputs/` and nothing else, and a timestamp; it promises a release exactly when asked to. |
| Artifacts.KeepIsKept | rust/crates/core/src/artifacts.rs:204-271 | After an acknowledgement that keeps, whose proof held exactly the receipt's files, no sequence of release steps changes anything. |
| Artifacts.ReleaseIsEarned | rust/crates/core/src/artifacts.rs:204-271 | A released archive was acknowledged for release by a proof that held exactly the receipt's files, then begun, then finished no earlier than the acknowledgement; every state on the way is valid. |
| Artifacts.ReleaseFinishesIff | rust/crates/core/src/artifacts.rs:233-271 | A release that was begun finishes exactly at a time no earlier than the acknowledgement. |
| Artifacts.ReleasedIsFinal | rust/crates/core/src/artifacts.rs:233-271 | No step changes a released retention. |
| Presentation.Command | rust/crates/client/src/presentation.rs:192-216 | The command line of an argument list that can be shown in full, and none otherwise. |
| Presentation.CommandReadsBack | rust/crates/client/src/presentation.rs:192-216 | Read by the quoting rules of section 2.2 of the POSIX.1-2017 Shell Command Language, the line splits into exactly the arguments. |
| Presentation.CommandIsExact | rust/crates/client/src/presentation.rs:192-216 | No other argument list has the same line. |
| Presentation.Divided | rust/crates/client/src/presentation.rs:98-113 | Digit by digit, the quotient without a needless zero and the remainder. |
| Presentation.Age | rust/crates/client/src/presentation.rs:76-137 | The age text of any JSON number of seconds: none below zero or for a fraction beyond every float, and a refusal exactly for an integer beyond every float. |
| Utf8.DecodeUndoesEncode | rust/crates/client/src/read.rs:61-76 | Text reads back from its UTF-8 bytes. |
| Query.WriteQuoted | rust/crates/client/src/read.rs:61-76 | Writes each byte plain, as a plus sign or as a percent escape. |
| Query.QuotedReads | rust/crates/client/src/read.rs:61-76 | A quoted value decodes to itself, whatever text it is. |
| Query.PairsRead | rust/crates/client/src/read.rs:107-116 | Written pairs are read back in order by section 5.1 of the WHATWG URL Standard. |
| Query.QueryAsks | rust/crates/client/src/read.rs:77-117 | A log query is accepted exactly for a known stream and 1 to 10,000 lines, a metric query for a positive number of points and valid names; and the pairs are those, in order. |
| Query.QueryReadsBack | rust/crates/client/src/read.rs:77-117 | Every accepted query is read as exactly the pairs it asks with. |

## Left out

- HTTP, TLS, timeouts, redirects and URL building: a request is a message that may be lost, late or repeated; a path is the endpoint and its identities.
- Files, directories, locks, tar and gzip: durable writes, exclusive creations and byte sequences stand for them. A dispatch lock that keeps two passes apart is taken as held.
- SHA-256 and the printing of floats: only the rules named above are used of them.
- Canonical.Bytes: the text is a sequence of characters; its encoding to UTF-8 bytes is not part of the printer's model.
- JsonParser.Parse: reads each nested value in one pass, where the program reads a slice again for every level; what is accepted is the same, but which of two faults is reported first is not modelled. Input bytes are taken as decoded text.
- StoreFiles.RecoveryIsComplete: the lock, the reading of the head a second time, and the registry's own check of the payload are left out; one process at a time holds the two files.
- LocalCursor.Advance: the importer is any function of the chunks fed so far; `JsonlImporter` is not part of this model.
- LocalClient.Uploader.Prepare: what else a registration must satisfy (`Registration::validate`) is a parameter, and the metrics file only grows while a run goes on, since its prefix hash is checked only at the start.
- LocalProtocol.ExactlyOnce: the server accepts a packet in one step; `LocalIngest` has its four writes, and `LocalIngest.Deliveries` is over a client that repeats its pending packet as this one does, but the two are not one system of steps.
- LocalIngest.Ingress.Append: equal metrics are also told apart by their payload in the program, which says the same for imported lines, whose identity is made of it; the overflow of the sequence number, the checks of who holds the store, and the one event of the attachment itself, written before any packet, are left out.
- LocalProtocol.ReplayAnswer: chain values are symbols, so the length and alphabet of a digest are a constructor and not a check of characters.
- Polling.Schedule.Select: `scheduler_follows` and the default policy are not modelled.
- Submit.Machine.Retry: one Run on one machine with one record; the record of another Run that became the latest, an explicit renewal of a gate, cancellation, and commands of other machines are not modelled. Watching after a send only reads and is left out, as are the summary shown before the question and the choice of executor and resources.
- Submit.Server.Retrying: the server's own checks of a retry are an arbitrary refusal.
- Submit.Machine.AwaitPrepared: build progress is left out, why waiting longer cannot help is any reason at any poll, and the deadline is a number of polls.
- Status.Flow.Finish: of the completed view only the identity, the scheduler state and the publication state are kept; worker, model, queue and progress text are left out.
- Watch.ObserveWith: covers every finite run of reads, with any documents and any clock; it says nothing of a watch that never ends.
- Log and metric reads as a continuation (`read.rs`), which follow the same identity machine as a status.
- Datasets.CheckDefinition: the bounds on serialized sizes and the target's own checks are parameters.
- Upload.Uploader.Run: the wait between attempts and the reading of the archive file are left out; a part's bytes are a slice of the archive. What the server checks before it records a part or completes an archive is an arbitrary refusal, and the removal of parts whose bytes turn out wrong is not modelled.
- Dockerfile.SplitKeepsBuild: Docker's own reading of a line is written from its words, or from its JSON list; environment substitution, wildcards and here-documents are what the code refuses, and they keep the whole directory.
- Builder.SplitKeepsBuilderBuild: leaves out a list of sources over several lines, where white space at a join may be part of a source, and flags with quotes, escapes or characters beyond ASCII, which the builder reads byte by byte; `Dockerfile.SplitKeepsBuild` has both, with lines and flags read as the program reads them. A byte order mark before the first line, which the builder drops, makes the program keep the whole directory.
- Sources.PackDirectory: the walk, the git selection, path policy, tar headers, and the metadata checks against a directory that changes are left out; what was found is a list of entries.
- Checkpoints.ReadManifest: rows have the right keys and types already; the check of their JSON shape is left out.
- Checkpoints.Registry.Register: what text is an RFC 3339 timestamp is a parameter.
- Artifacts.ProofMatches: the limits on the JSON text of a receipt and a proof, and the instant a timestamp names, are parameters.
- Presentation.CommandReadsBack: about quoting and blanks only; to a shell, a first word such as `A=b` would be an assignment.
- Presentation.Age: the nearest float of a number (finite or not, below zero or not, and its whole part in digits) is a parameter.
- Regex redaction and failure classification, command-line wiring, human summaries, thin request planners and deployment scripts.
