/** A recoverable JSON head and its contiguous transition journal. The head is published
    first and the transition appended second; whatever a crash leaves between the two can be
    repaired, and nothing else is. */
module Durable {
  import opened Basics
  import opened JsonText
  import opened Canonical

  datatype Error = Invalid

  // ----- Reading JSON objects -----

  function Field(members: seq<Member>, key: string): Option<Value>
  {
    if members == [] then None
    else if members[0].key == key then Some(members[0].value)
    else Field(members[1..], key)
  }

  function Get(v: Value, key: string): Option<Value>
  {
    if v.Obj? then Field(v.members, key) else None
  }

  function Without(members: seq<Member>, key: string): seq<Member>
  {
    if members == [] then []
    else if members[0].key == key then members[1..]
    else [members[0]] + Without(members[1..], key)
  }

  function AsU64(v: Value): Option<nat> { if v.Num? then ParseU64(v.text) else None }

  function U64Field(v: Value, key: string): Option<nat>
  {
    var field :- Get(v, key);
    AsU64(field)
  }

  lemma {:induction false} FieldAppend(members: seq<Member>, m: Member, key: string)
    ensures Field(members + [m], key) ==
            if Field(members, key).Some? then Field(members, key)
            else if m.key == key then Some(m.value) else None
  {
    if members != [] {
      FieldAppend(members[1..], m, key);
      assert (members + [m])[1..] == members[1..] + [m];
    }
  }

  lemma {:induction false} WithoutAppended(members: seq<Member>, m: Member)
    requires Field(members, m.key).None?
    ensures Without(members + [m], m.key) == members
  {
    if members != [] {
      WithoutAppended(members[1..], m);
      assert (members + [m])[1..] == members[1..] + [m];
    }
  }

  lemma DecimalIsNumber(n: nat)
    ensures IsNumber(Decimal(n))
  {
    var s := Decimal(n);
    AllDigits(s);
    assert s[..|s|] == s && s[|s|..] == [];
  }

  lemma {:induction false} AllDigits(s: string)
    requires forall i :: 0 <= i < |s| ==> IsDigit(s[i])
    ensures LeadingDigits(s) == |s|
  {
    if s != [] {
      AllDigits(s[1..]);
    }
  }

  function Json(n: nat): (v: Value)
    ensures n <= U64_MAX ==> AsU64(v) == Some(n)
  {
    DecimalIsNumber(n);
    DecimalParses(n);
    Num(Decimal(n))
  }

  // ----- Snapshots -----

  datatype Snapshot = Snapshot(value: Value, revision: nat, lastTransition: Option<Value>)

  /** The identity of a transition, when it has a valid one. */
  function TransitionId(v: Value): Option<string>
  {
    var id :- Get(v, "transition_id");
    if id.Str? && id.s != "" && Utf8Length(id.s) <= 1024 then Some(id.s) else None
  }

  function FromValue(raw: Value): Result<Snapshot, Error>
  {
    if !raw.Obj? then Err(Invalid)
    else
      var value := Obj(Without(raw.members, "_durability"));
      match Field(raw.members, "_durability")
      case None => Ok(Snapshot(value, 0, None))
      case Some(Null) => Ok(Snapshot(value, 0, None))
      case Some(metadata) =>
        var revision := U64Field(metadata, "revision");
        var transition := Get(metadata, "last_transition");
        if revision.None? || revision.value == 0 then Err(Invalid)
        else if transition.None? || !transition.value.Obj? then Err(Invalid)
        else if U64Field(transition.value, "revision") != revision then Err(Invalid)
        else if TransitionId(transition.value).None? then Err(Invalid)
        else Ok(Snapshot(value, revision.value, transition))
  }

  // ----- The journal -----

  /** A transition with what identifies it. */
  datatype Entry = Entry(event: Value, id: Option<string>, revision: Option<nat>)

  function EntryOf(event: Value): Entry { Entry(event, TransitionId(event), U64Field(event, "revision")) }

  predicate IsTransition(event: Value) { Get(event, "transition_id").Some? }

  /** The state transitions among the events, in order. */
  function Transitions(events: seq<Value>): (r: seq<Entry>)
    ensures |r| <= |events|
  {
    if events == [] then []
    else
      var last := events[|events| - 1];
      var before := Transitions(events[..|events| - 1]);
      if IsTransition(last) then before + [EntryOf(last)] else before
  }

  function Front(log: seq<Entry>): seq<Entry> { if log == [] then [] else log[..|log| - 1] }

  function Last(log: seq<Entry>): Option<Value> { if log == [] then None else Some(log[|log| - 1].event) }

  function Ids(transitions: seq<Entry>): set<Option<string>>
  {
    if transitions == [] then {} else Ids(Front(transitions)) + {transitions[|transitions| - 1].id}
  }

  /** Whether `t` can be the next transition: the next number, and an identity of its own. */
  predicate Continues(t: Entry, revision: nat, identities: set<Option<string>>)
  {
    t.id.Some? && revision < U64_MAX && t.id !in identities && t.revision == Some(revision + 1)
  }

  predicate Contiguous(transitions: seq<Entry>)
  {
    transitions == [] ||
    (Contiguous(Front(transitions)) &&
     Continues(transitions[|transitions| - 1], |transitions| - 1, Ids(Front(transitions))))
  }

  ghost predicate AllObjects(events: seq<Value>)
  {
    forall i :: 0 <= i < |events| ==> events[i].Obj?
  }

  ghost predicate Intact(events: seq<Value>)
  {
    AllObjects(events) && Contiguous(Transitions(events))
  }

  lemma {:induction false} IdsHold(transitions: seq<Entry>, i: nat)
    requires i < |transitions|
    ensures transitions[i].id in Ids(transitions)
  {
    if i < |transitions| - 1 {
      IdsHold(Front(transitions), i);
    }
  }

  /** Numbered from one without gaps, each with an identity of its own. */
  lemma {:induction false} ContiguousMeans(transitions: seq<Entry>, i: nat, j: nat)
    requires Contiguous(transitions) && i < j < |transitions|
    ensures transitions[i].revision == Some(i + 1) && transitions[j].revision == Some(j + 1)
    ensures transitions[i].id.Some? && transitions[j].id.Some? && transitions[i].id != transitions[j].id
    decreases |transitions|
  {
    var front := Front(transitions);
    IdsHold(front, i);
    if j < |front| {
      ContiguousMeans(front, i, j);
    } else if 0 < i {
      ContiguousMeans(front, 0, i);
    } else if |front| > 1 {
      ContiguousMeans(front, 0, 1);
    }
  }

  lemma {:induction false} ContiguousPrefix(a: seq<Entry>, b: seq<Entry>)
    requires a <= b && Contiguous(b)
    ensures Contiguous(a)
  {
    if |a| < |b| {
      ContiguousPrefix(a, Front(b));
    } else {
      assert a == b;
    }
  }

  lemma TransitionsStep(events: seq<Value>, k: nat)
    requires k < |events|
    ensures Transitions(events[..k + 1]) ==
            if IsTransition(events[k]) then Transitions(events[..k]) + [EntryOf(events[k])]
            else Transitions(events[..k])
  {
    assert events[..k + 1][..k] == events[..k];
  }

  lemma {:induction false} TransitionsPrefix(events: seq<Value>, k: nat)
    requires k <= |events|
    ensures Transitions(events[..k]) <= Transitions(events)
    decreases |events| - k
  {
    if k < |events| {
      TransitionsStep(events, k);
      TransitionsPrefix(events, k + 1);
    } else {
      assert events[..k] == events;
    }
  }

  lemma {:induction false} TransitionsIn(events: seq<Value>, i: nat) returns (at: nat)
    requires i < |Transitions(events)|
    ensures at < |events| && IsTransition(events[at])
    ensures Transitions(events)[i] == EntryOf(events[at])
  {
    at := |events| - 1;
    var before := events[..at];
    if i < |Transitions(before)| {
      at := TransitionsIn(before, i);
    }
  }

  lemma TransitionsHold(events: seq<Value>, at: nat) returns (i: nat)
    requires at < |events| && IsTransition(events[at])
    ensures i < |Transitions(events)| && Transitions(events)[i] == EntryOf(events[at])
  {
    TransitionsStep(events, at);
    TransitionsPrefix(events, at + 1);
    i := |Transitions(events[..at])|;
    assert Transitions(events[..at + 1])[i] == EntryOf(events[at]);
  }

  lemma ObjectsStep(events: seq<Value>, k: nat)
    requires k < |events|
    ensures AllObjects(events[..k + 1]) <==> AllObjects(events[..k]) && events[k].Obj?
  {
    var before, now := events[..k], events[..k + 1];
    assert now == before + [events[k]];
    assert now[k] == events[k];
    assert forall i :: 0 <= i < k ==> now[i] == before[i];
  }

  lemma IntactPrefix(events: seq<Value>, k: nat)
    requires k <= |events| && Intact(events)
    ensures Intact(events[..k])
  {
    TransitionsPrefix(events, k);
    ContiguousPrefix(Transitions(events[..k]), Transitions(events));
  }

  lemma ContiguousStep(transitions: seq<Entry>, t: Entry)
    ensures Front(transitions + [t]) == transitions
    ensures Ids(transitions + [t]) == Ids(transitions) + {t.id}
    ensures Contiguous(transitions + [t]) <==>
              Contiguous(transitions) && Continues(t, |transitions|, Ids(transitions))
  {
    assert Front(transitions + [t]) == transitions;
  }

  /** What the scan of the first `k` events has established. */
  ghost predicate Scanned(events: seq<Value>, k: nat, revision: nat, identities: set<Option<string>>)
    requires k <= |events|
  {
    && Intact(events[..k]) && revision == |Transitions(events[..k])|
    && identities == Ids(Transitions(events[..k]))
  }

  lemma ScanStep(events: seq<Value>, k: nat, revision: nat, identities: set<Option<string>>)
    requires k < |events| && Scanned(events, k, revision, identities)
    ensures !events[k].Obj? ==> !Intact(events)
    ensures events[k].Obj? && !IsTransition(events[k]) ==> Scanned(events, k + 1, revision, identities)
    ensures events[k].Obj? && IsTransition(events[k]) ==>
      var entry := EntryOf(events[k]);
      if Continues(entry, revision, identities) then Scanned(events, k + 1, revision + 1, identities + {entry.id})
      else !Intact(events)
  {
    TransitionsStep(events, k);
    ObjectsStep(events, k);
    ContiguousStep(Transitions(events[..k]), EntryOf(events[k]));
    if Intact(events) {
      IntactPrefix(events, k + 1);
    }
  }

  /** The revision of an intact journal; an error for every other one. */
  method ValidateJournal(events: seq<Value>) returns (r: Result<nat, Error>)
    ensures r == if Intact(events) then Ok(|Transitions(events)|) else Err(Invalid)
  {
    var revision: nat := 0;
    var identities: set<Option<string>> := {};
    for k := 0 to |events|
      invariant Scanned(events, k, revision, identities)
    {
      ScanStep(events, k, revision, identities);
      if !events[k].Obj? {
        return Err(Invalid);
      }
      if IsTransition(events[k]) {
        var entry := EntryOf(events[k]);
        if !Continues(entry, revision, identities) {
          return Err(Invalid);
        }
        revision := revision + 1;
        identities := identities + {entry.id};
      }
    }
    assert events[..|events|] == events;
    return Ok(revision);
  }

  /** The head's complete final transition when only that one is not in the journal. */
  ghost function MissingTransition(floats: Floats, snapshot: Snapshot, events: seq<Value>): Result<Option<Value>, Error>
  {
    if !Intact(events) then Err(Invalid)
    else
      var transitions := Transitions(events);
      var revision := |transitions|;
      var last := Last(transitions);
      if snapshot.lastTransition.None? then
        if last.None? && snapshot.revision == 0 then Ok(None) else Err(Invalid)
      else
        var head := snapshot.lastTransition.value;
        var id := TransitionId(head);
        if last.Some? && (id.None? || transitions[revision - 1].id.None?) then Err(Invalid)
        else if last.Some? && id == transitions[revision - 1].id then
          if revision == snapshot.revision && Equal(floats, head, last.value) then Ok(None) else Err(Invalid)
        else if revision == U64_MAX then Err(Invalid)
        else if snapshot.revision == revision + 1 then
          if id.None? || UsesId(events, id.value) then Err(Invalid) else Ok(Some(head))
        else Err(Invalid)
  }

  predicate UsesId(events: seq<Value>, id: string)
  {
    exists i :: 0 <= i < |events| && Get(events[i], "transition_id") == Some(Str(id))
  }

  // ----- Committing -----

  datatype Commit = Commit(head: Value, transition: Value, revision: nat)

  predicate ValidIdentity(identity: string)
  {
    |identity| == 32 && forall i :: 0 <= i < |identity| ==> IsLowerHex(identity[i])
  }

  function Transition(event: seq<Member>, revision: nat, identity: string): Value
  {
    Obj(event + [Member("revision", Json(revision))] + [Member("transition_id", Str(identity))])
  }

  function Metadata(revision: nat, transition: Value): Value
  {
    Obj([Member("revision", Json(revision))] + [Member("last_transition", transition)])
  }

  function Head(payload: seq<Member>, revision: nat, transition: Value): Value
  {
    Obj(payload + [Member("_durability", Metadata(revision, transition))])
  }

  predicate IsPayload(value: Value) { value.Obj? && Field(value.members, "_durability").None? }

  predicate IsEvent(event: Value)
  {
    event.Obj? && Field(event.members, "revision").None? && Field(event.members, "transition_id").None?
  }

  ghost function MakeCommit(
      floats: Floats, snapshot: Snapshot, events: seq<Value>, value: Value, event: Value,
      expected: Option<nat>, identity: string): Result<Commit, Error>
  {
    var missing := MissingTransition(floats, snapshot, events);
    if missing.Err? || missing.value.Some? then Err(Invalid)
    else if expected.Some? && expected.value != snapshot.revision then Err(Invalid)
    else if !ValidIdentity(identity) || UsesId(events, identity) then Err(Invalid)
    else if !IsPayload(value) || !IsEvent(event) || snapshot.revision + 1 > U64_MAX then Err(Invalid)
    else
      var revision := snapshot.revision + 1;
      var transition := Transition(event.members, revision, identity);
      Ok(Commit(Head(value.members, revision, transition), transition, revision))
  }

  lemma {:induction false} HexLength(s: string)
    requires forall i :: 0 <= i < |s| ==> IsLowerHex(s[i])
    ensures Utf8Length(s) == |s|
  {
    if s != [] {
      HexLength(s[1..]);
    }
  }

  /** A transition carries its own revision and identity. */
  lemma TransitionFields(event: seq<Member>, revision: nat, identity: string)
    requires Field(event, "revision").None? && Field(event, "transition_id").None?
    requires 0 < revision <= U64_MAX && ValidIdentity(identity)
    ensures var t := Transition(event, revision, identity);
            IsTransition(t) && EntryOf(t) == Entry(t, Some(identity), Some(revision))
  {
    var first := event + [Member("revision", Json(revision))];
    FieldAppend(event, Member("revision", Json(revision)), "revision");
    FieldAppend(event, Member("revision", Json(revision)), "transition_id");
    FieldAppend(first, Member("transition_id", Str(identity)), "revision");
    FieldAppend(first, Member("transition_id", Str(identity)), "transition_id");
    HexLength(identity);
  }

  /** What makes a head read as a snapshot. */
  lemma ReadsAs(raw: Value, metadata: Value, revision: nat, t: Value)
    requires raw.Obj? && Get(raw, "_durability") == Some(metadata) && metadata.Obj?
    requires Get(metadata, "revision") == Some(Json(revision)) && Get(metadata, "last_transition") == Some(t)
    requires 0 < revision <= U64_MAX && t.Obj?
    requires U64Field(t, "revision") == Some(revision) && TransitionId(t).Some?
    ensures FromValue(raw) == Ok(Snapshot(Obj(Without(raw.members, "_durability")), revision, Some(t)))
  {
  }

  /** Reading a published head gives back exactly what was committed. */
  lemma HeadReadsBack(payload: seq<Member>, event: seq<Member>, revision: nat, identity: string)
    requires Field(payload, "_durability").None?
    requires Field(event, "revision").None? && Field(event, "transition_id").None?
    requires 0 < revision <= U64_MAX && ValidIdentity(identity)
    ensures var t := Transition(event, revision, identity);
            FromValue(Head(payload, revision, t)) == Ok(Snapshot(Obj(payload), revision, Some(t)))
  {
    var t := Transition(event, revision, identity);
    TransitionFields(event, revision, identity);
    var rev, last := Member("revision", Json(revision)), Member("last_transition", t);
    var durability := Member("_durability", Metadata(revision, t));
    FieldAppend([rev], last, "revision");
    FieldAppend([rev], last, "last_transition");
    FieldAppend(payload, durability, "_durability");
    WithoutAppended(payload, durability);
    assert EntryOf(t).id == Some(identity);
    ReadsAs(Head(payload, revision, t), Metadata(revision, t), revision, t);
  }

  // ----- Heads as they are written -----

  lemma {:induction false} FieldIsKey(members: seq<Member>, key: string)
    ensures Field(members, key).Some? <==> key in Keys(members)
  {
    if members != [] {
      FieldIsKey(members[1..], key);
    }
  }

  lemma {:induction false} FieldOfNorm(floats: Floats, members: seq<Member>, key: string)
    requires NormMembers(floats, members).Some?
    ensures Field(NormMembers(floats, members).value, key) ==
            if Field(members, key).None? then None else Norm(floats, Field(members, key).value)
    ensures Field(members, key).Some? ==> Norm(floats, Field(members, key).value).Some?
  {
    if members != [] {
      FieldOfNorm(floats, members[1..], key);
      assert NormMembers(floats, members).value[1..] == NormMembers(floats, members[1..]).value;
    }
  }

  lemma {:induction false} FieldOfInsert(m: Member, members: seq<Member>, key: string)
    requires m.key !in Keys(members)
    ensures Field(Insert(m, members), key) == if m.key == key then Some(m.value) else Field(members, key)
  {
    var r := Insert(m, members);
    if members == [] || Less(m.key, members[0].key) {
      assert r[1..] == members;
    } else {
      FieldOfInsert(m, members[1..], key);
      assert r[0] == members[0] && r[1..] == Insert(m, members[1..]);
    }
  }

  lemma {:induction false} FieldOfSort(members: seq<Member>, key: string)
    requires KeysDistinct(members)
    ensures Field(Sort(members), key) == Field(members, key)
  {
    if members != [] {
      FieldOfSort(members[1..], key);
      FieldOfInsert(members[0], Sort(members[1..]), key);
    }
  }

  /** Normalising an object normalises each of its fields and moves none to another key. */
  lemma GetOfNorm(floats: Floats, v: Value, key: string)
    requires v.Obj? && KeysDistinct(v.members) && Norm(floats, v).Some?
    ensures Get(v, key).None? ==> Get(Norm(floats, v).value, key).None?
    ensures Get(v, key).Some? ==> Norm(floats, Get(v, key).value).Some?
    ensures Get(v, key).Some? ==> Get(Norm(floats, v).value, key) == Norm(floats, Get(v, key).value)
  {
    FieldOfNorm(floats, v.members, key);
    FieldOfSort(NormMembers(floats, v.members).value, key);
  }

  lemma {:induction false} WithoutInserted(m: Member, members: seq<Member>)
    requires m.key !in Keys(members)
    ensures Without(Insert(m, members), m.key) == members
  {
    var r := Insert(m, members);
    if members == [] || Less(m.key, members[0].key) {
      assert r[1..] == members;
    } else {
      WithoutInserted(m, members[1..]);
      assert r[0] == members[0] && r[1..] == Insert(m, members[1..]);
      assert members == [members[0]] + members[1..];
    }
  }

  /** Two members with different keys are inserted in either order. */
  lemma {:induction false} InsertsCommute(a: Member, b: Member, members: seq<Member>)
    requires a.key != b.key
    ensures Insert(a, Insert(b, members)) == Insert(b, Insert(a, members))
  {
    LessTotal(a.key, b.key);
    if members != [] {
      var head, tail := members[0], members[1..];
      InsertsCommute(a, b, tail);
      InsertStep(a, members);
      InsertStep(b, members);
      if Less(a.key, b.key) && Less(b.key, head.key) {
        LessTransitive(a.key, b.key, head.key);
      } else if Less(b.key, a.key) && Less(a.key, head.key) {
        LessTransitive(b.key, a.key, head.key);
      }
    }
  }

  lemma InsertStep(m: Member, members: seq<Member>)
    requires members != []
    ensures Less(m.key, members[0].key) ==> Insert(m, members)[1..] == members
    ensures !Less(m.key, members[0].key) ==>
              Insert(m, members)[0] == members[0] && Insert(m, members)[1..] == Insert(m, members[1..])
  {
  }

  /** Appending below the first member: what is inserted last and first may change places. */
  lemma AppendedStep(members: seq<Member>, m: Member, all: seq<Member>)
    requires members != [] && all == members + [m] && members[0].key != m.key
    requires Sort(all[1..]) == Insert(m, Sort(members[1..]))
    ensures Sort(all) == Insert(m, Sort(members))
  {
    InsertsCommute(members[0], m, Sort(members[1..]));
  }

  lemma {:induction false} SortOfAppended(members: seq<Member>, m: Member)
    requires m.key !in Keys(members)
    ensures Sort(members + [m]) == Insert(m, Sort(members))
  {
    var all := members + [m];
    if members == [] {
      assert all == [m] && all[1..] == [];
    } else {
      SortOfAppended(members[1..], m);
      assert all[1..] == members[1..] + [m];
      AppendedStep(members, m, all);
    }
  }

  lemma KeysOfAppended(members: seq<Member>, m: Member)
    requires KeysDistinct(members) && Field(members, m.key).None?
    ensures KeysDistinct(members + [m]) && m.key !in Keys(members)
  {
    FieldIsKey(members, m.key);
    JoinedKeys(members, [m]);
    assert [m][1..] == [];
  }

  lemma TransitionKeys(event: seq<Member>, revision: nat, identity: string)
    requires Field(event, "revision").None? && Field(event, "transition_id").None? && KeysDistinct(event)
    ensures KeysDistinct(Transition(event, revision, identity).members)
  {
    var first := Member("revision", Json(revision));
    KeysOfAppended(event, first);
    FieldAppend(event, first, "transition_id");
    KeysOfAppended(event + [first], Member("transition_id", Str(identity)));
  }

  lemma NumberIsNormal(floats: Floats, n: nat)
    ensures Norm(floats, Json(n)) == Some(Json(n))
  {
    assert !HasMark(Decimal(n));
  }

  /** The fields that make a transition read back from its normal form. */
  lemma NormalTransition(floats: Floats, event: seq<Member>, revision: nat, identity: string)
    requires Field(event, "revision").None? && Field(event, "transition_id").None? && KeysDistinct(event)
    requires 0 < revision <= U64_MAX && ValidIdentity(identity)
    requires Norm(floats, Transition(event, revision, identity)).Some?
    ensures var t := Norm(floats, Transition(event, revision, identity)).value;
            IsTransition(t) && EntryOf(t) == Entry(t, Some(identity), Some(revision))
  {
    var t := Transition(event, revision, identity);
    TransitionFields(event, revision, identity);
    TransitionKeys(event, revision, identity);
    TransitionGets(event, revision, identity);
    GetOfNorm(floats, t, "revision");
    GetOfNorm(floats, t, "transition_id");
    NumberIsNormal(floats, revision);
  }

  lemma TransitionGets(event: seq<Member>, revision: nat, identity: string)
    requires Field(event, "revision").None? && Field(event, "transition_id").None?
    ensures var t := Transition(event, revision, identity);
            Get(t, "revision") == Some(Json(revision)) && Get(t, "transition_id") == Some(Str(identity))
  {
    var first, second := Member("revision", Json(revision)), Member("transition_id", Str(identity));
    FieldAppend(event, first, "revision");
    FieldAppend(event, first, "transition_id");
    FieldAppend(event + [first], second, "revision");
    FieldAppend(event + [first], second, "transition_id");
  }

  lemma NormalMetadata(floats: Floats, revision: nat, transition: Value)
    requires Norm(floats, Metadata(revision, transition)).Some?
    ensures Norm(floats, transition).Some?
    ensures var metadata := Norm(floats, Metadata(revision, transition)).value;
            metadata.Obj? && Get(metadata, "revision") == Some(Json(revision))
            && Get(metadata, "last_transition") == Norm(floats, transition)
  {
    var rev, last := Member("revision", Json(revision)), Member("last_transition", transition);
    FieldAppend([rev], last, "revision");
    FieldAppend([rev], last, "last_transition");
    assert [rev][1..] == [];
    KeysOfAppended([rev], last);
    GetOfNorm(floats, Metadata(revision, transition), "revision");
    GetOfNorm(floats, Metadata(revision, transition), "last_transition");
    NumberIsNormal(floats, revision);
  }

  lemma {:induction false} NormOfAppended(floats: Floats, members: seq<Member>, m: Member)
    ensures NormMembers(floats, members + [m]).Some? <==>
              NormMembers(floats, members).Some? && Norm(floats, m.value).Some?
    ensures NormMembers(floats, members + [m]).Some? ==>
              NormMembers(floats, members + [m]).value ==
              NormMembers(floats, members).value + [Member(m.key, Norm(floats, m.value).value)]
  {
    if members == [] {
      assert [m][1..] == [];
    } else {
      NormOfAppended(floats, members[1..], m);
      assert (members + [m])[1..] == members[1..] + [m];
    }
  }

  lemma NormalPayload(floats: Floats, payload: seq<Member>, m: Member)
    requires KeysDistinct(payload) && Field(payload, m.key).None?
    requires Norm(floats, Obj(payload + [m])).Some?
    ensures Norm(floats, Obj(payload)).Some? && Norm(floats, m.value).Some?
    ensures var head := Norm(floats, Obj(payload + [m])).value;
            && Get(head, m.key) == Norm(floats, m.value)
            && Without(head.members, m.key) == Norm(floats, Obj(payload)).value.members
  {
    NormOfAppended(floats, payload, m);
    KeysOfAppended(payload, m);
    var normal := NormMembers(floats, payload).value;
    var last := Member(m.key, Norm(floats, m.value).value);
    SortOfAppended(normal, last);
    FieldOfInsert(last, Sort(normal), m.key);
    WithoutInserted(last, Sort(normal));
  }

  /** Reading a head from its canonical form gives back exactly what was committed, each part
      in its own normal form. */
  lemma NormalHeadReadsBack(
      floats: Floats, payload: seq<Member>, event: seq<Member>, revision: nat, identity: string)
    requires Field(payload, "_durability").None? && KeysDistinct(payload)
    requires Field(event, "revision").None? && Field(event, "transition_id").None? && KeysDistinct(event)
    requires 0 < revision <= U64_MAX && ValidIdentity(identity)
    requires Norm(floats, Head(payload, revision, Transition(event, revision, identity))).Some?
    ensures Norm(floats, Obj(payload)).Some? && Norm(floats, Transition(event, revision, identity)).Some?
    ensures var t := Transition(event, revision, identity);
            FromValue(Norm(floats, Head(payload, revision, t)).value) ==
            Ok(Snapshot(Norm(floats, Obj(payload)).value, revision, Norm(floats, t)))
  {
    var t := Transition(event, revision, identity);
    var metadata := Metadata(revision, t);
    NormalPayload(floats, payload, Member("_durability", metadata));
    NormalMetadata(floats, revision, t);
    NormalTransition(floats, event, revision, identity);
    var normal := Norm(floats, t).value;
    assert EntryOf(normal).id == Some(identity);
    ReadsAs(Norm(floats, Head(payload, revision, t)).value, Norm(floats, metadata).value, revision, normal);
  }

  // ----- The store over whole runs -----

  /** The two files, and the transition a running commit has yet to append. */
  datatype Store = Store(head: Value, journal: seq<Value>, appending: Option<Value>)

  datatype Step =
    | Publish(value: Value, event: Value, expected: Option<nat>, identity: string)
    | Append
    | Note(event: Value)
    | Crash
    | Recover

  /** Head and transition are both encoded before anything is written, so one without a
      canonical form is refused there; what is written reads back as its normal form. */
  ghost predicate Written(
      floats: Floats, value: Value, event: Value, c: Commit, journal: seq<Value>, after: Store)
  {
    var head, transition := Norm(floats, c.head), Norm(floats, c.transition);
    && Distinct(value) && Distinct(event)
    && head.Some? && transition.Some?
    && after == Store(head.value, journal, Some(transition.value))
  }

  ghost predicate Taken(floats: Floats, before: Store, step: Step, after: Store)
  {
    match step
    case Publish(value, event, expected, identity) =>
      && before.appending.None?
      && var snapshot := FromValue(before.head);
         snapshot.Ok? &&
         var c := MakeCommit(floats, snapshot.value, before.journal, value, event, expected, identity);
         c.Ok? && Written(floats, value, event, c.value, before.journal, after)
    case Append =>
      before.appending.Some? && after == Store(before.head, before.journal + [before.appending.value], None)
    case Note(event) =>
      event.Obj? && !IsTransition(event) && after == before.(journal := before.journal + [event])
    case Crash => after == before.(appending := None)
    case Recover =>
      && before.appending.None?
      && var snapshot := FromValue(before.head);
         snapshot.Ok? &&
         var missing := MissingTransition(floats, snapshot.value, before.journal);
         missing.Ok? && missing.value.Some? &&
         after == before.(journal := before.journal + [missing.value.value])
  }

  /** What a plain list of commits would hold after the step. */
  ghost function Logged(log: seq<Entry>, step: Step, after: Store): seq<Entry>
  {
    if step.Publish? && after.appending.Some? then log + [EntryOf(after.appending.value)] else log
  }

  /** The head is the last commit of the log, and the journal holds the log or all of it but
      that last commit. */
  ghost predicate Agrees(snapshot: Snapshot, journal: seq<Value>, log: seq<Entry>)
  {
    && Contiguous(log) && AllObjects(journal) && Sound(log)
    && snapshot.revision == |log| && snapshot.lastTransition == Last(log)
    && (Transitions(journal) == log || (log != [] && Transitions(journal) == Front(log)))
  }

  ghost predicate Sound(log: seq<Entry>)
  {
    forall i :: 0 <= i < |log| ==> log[i] == EntryOf(log[i].event) && IsTransition(log[i].event)
  }

  ghost predicate Consistent(store: Store, log: seq<Entry>)
  {
    && FromValue(store.head).Ok?
    && Agrees(FromValue(store.head).value, store.journal, log)
    && (store.appending.Some? ==> store.appending == Last(log) && Transitions(store.journal) == Front(log))
  }

  /** Every committed transition is in its normal form, as it was read back. */
  ghost predicate AllNormal(floats: Floats, log: seq<Entry>)
  {
    forall i :: 0 <= i < |log| ==> Norm(floats, log[i].event) == Some(log[i].event)
  }

  /** With the whole log in the journal, recovery finds nothing, unless the last commit has no
      canonical form. */
  lemma NothingMissing(floats: Floats, snapshot: Snapshot, journal: seq<Value>, log: seq<Entry>)
    requires Agrees(snapshot, journal, log) && Transitions(journal) == log
    ensures MissingTransition(floats, snapshot, journal) ==
            if log == [] || Text(floats, log[|log| - 1].event).Some? then Ok(None) else Err(Invalid)
  {
    assert Intact(journal);
    assert log != [] ==> log[|log| - 1].id == TransitionId(log[|log| - 1].event);
  }

  /** A transition of the journal before the last commit has another identity. */
  lemma OtherIdentity(journal: seq<Value>, log: seq<Entry>, at: nat)
    requires Contiguous(log) && log != [] && Transitions(journal) == Front(log)
    requires at < |journal| && IsTransition(journal[at])
    ensures TransitionId(journal[at]) != log[|log| - 1].id
  {
    var i := TransitionsHold(journal, at);
    IdsHold(Front(log), i);
  }

  lemma NotUsed(journal: seq<Value>, log: seq<Entry>)
    requires Contiguous(log) && log != [] && Transitions(journal) == Front(log)
    requires log[|log| - 1].id == TransitionId(log[|log| - 1].event)
    ensures !UsesId(journal, log[|log| - 1].id.value)
  {
    var id := log[|log| - 1].id;
    forall at | 0 <= at < |journal| ensures Get(journal[at], "transition_id") != Some(Str(id.value)) {
      if Get(journal[at], "transition_id") == Some(Str(id.value)) {
        OtherIdentity(journal, log, at);
      }
    }
  }

  /** The last commit of a log continues the ones before it under an identity of its own. */
  lemma LastIsNew(log: seq<Entry>)
    requires Contiguous(log) && Sound(log) && log != []
    ensures var last, before := log[|log| - 1], Front(log);
            && last.id == TransitionId(last.event) && last.id.Some? && |before| + 1 == |log| <= U64_MAX
            && Contiguous(before)
            && (before != [] ==> before[|before| - 1].id.Some? && before[|before| - 1].id != last.id)
  {
    var before := Front(log);
    assert log[|log| - 1] == EntryOf(log[|log| - 1].event);
    if before != [] {
      IdsHold(before, |before| - 1);
    }
  }

  /** With the last commit not in the journal, recovery finds that one. */
  lemma LastMissing(floats: Floats, snapshot: Snapshot, journal: seq<Value>, log: seq<Entry>)
    requires Agrees(snapshot, journal, log) && Transitions(journal) != log
    ensures MissingTransition(floats, snapshot, journal) == Ok(Last(log))
  {
    LastIsNew(log);
    NotUsed(journal, log);
  }

  lemma TransitionsAppend(events: seq<Value>, e: Value)
    ensures Transitions(events + [e]) ==
            if IsTransition(e) then Transitions(events) + [EntryOf(e)] else Transitions(events)
  {
    assert (events + [e])[..|events|] == events;
  }

  lemma ObjectsAppend(events: seq<Value>, e: Value)
    requires AllObjects(events) && e.Obj?
    ensures AllObjects(events + [e])
  {
  }

  /** Appending the missing transition completes the journal. */
  lemma AppendCompletes(snapshot: Snapshot, journal: seq<Value>, log: seq<Entry>)
    requires Agrees(snapshot, journal, log) && log != [] && Transitions(journal) == Front(log)
    ensures Agrees(snapshot, journal + [log[|log| - 1].event], log)
    ensures Transitions(journal + [log[|log| - 1].event]) == log
  {
    var last := log[|log| - 1];
    assert EntryOf(last.event) == last && IsTransition(last.event);
    TransitionsAppend(journal, last.event);
    TransitionIsObject(last.event);
    ObjectsAppend(journal, last.event);
    assert Front(log) + [last] == log;
  }

  lemma TransitionIsObject(event: Value)
    requires IsTransition(event)
    ensures event.Obj?
  {
  }

  lemma {:induction false} IdsUsed(journal: seq<Value>, transitions: seq<Entry>, id: string)
    requires transitions <= Transitions(journal) && Some(id) in Ids(transitions)
    ensures UsesId(journal, id)
  {
    var last := |transitions| - 1;
    if transitions[last].id == Some(id) {
      var at := TransitionsIn(journal, last);
      assert TransitionId(journal[at]) == Some(id);
      assert Get(journal[at], "transition_id") == Some(Str(id));
    } else {
      IdsUsed(journal, Front(transitions), id);
    }
  }

  lemma NextIsContiguous(journal: seq<Value>, log: seq<Entry>, t: Entry)
    requires Contiguous(log) && Transitions(journal) == log && |log| < U64_MAX
    requires t.id.Some? && t.revision == Some(|log| + 1) && !UsesId(journal, t.id.value)
    ensures Contiguous(log + [t]) && Front(log + [t]) == log
  {
    ContiguousStep(log, t);
    if t.id in Ids(log) {
      IdsUsed(journal, log, t.id.value);
    }
  }

  /** What an accepted commit has checked. */
  lemma CommitChecked(
      floats: Floats, snapshot: Snapshot, events: seq<Value>, value: Value, event: Value,
      expected: Option<nat>, identity: string)
    requires MakeCommit(floats, snapshot, events, value, event, expected, identity).Ok?
    ensures MissingTransition(floats, snapshot, events) == Ok(None)
    ensures expected.Some? ==> expected.value == snapshot.revision
    ensures snapshot.revision < U64_MAX && !UsesId(events, identity) && ValidIdentity(identity)
    ensures value.Obj? && Field(value.members, "_durability").None?
    ensures event.Obj? && Field(event.members, "revision").None? && Field(event.members, "transition_id").None?
    ensures var c := MakeCommit(floats, snapshot, events, value, event, expected, identity).value;
            && c.transition == Transition(event.members, snapshot.revision + 1, identity)
            && c.head == Head(value.members, snapshot.revision + 1, c.transition)
  {
  }

  /** What may follow a log of commits: an expected number is the number of commits so far, the
      identity is new to the log, and payload and event keep off the keys that committing adds. */
  ghost predicate Follows(log: seq<Entry>, value: Value, event: Value, expected: Option<nat>, identity: string)
  {
    && (expected.Some? ==> expected.value == |log|) && |log| < U64_MAX
    && ValidIdentity(identity) && Some(identity) !in Ids(log)
    && value.Obj? && "_durability" !in Keys(value.members)
    && event.Obj? && "revision" !in Keys(event.members) && "transition_id" !in Keys(event.members)
  }

  lemma UsedIsInLog(journal: seq<Value>, id: string)
    requires ValidIdentity(id)
    ensures UsesId(journal, id) <==> Some(id) in Ids(Transitions(journal))
  {
    if UsesId(journal, id) {
      var at :| 0 <= at < |journal| && Get(journal[at], "transition_id") == Some(Str(id));
      HexLength(id);
      assert TransitionId(journal[at]) == Some(id);
      var i := TransitionsHold(journal, at);
      IdsHold(Transitions(journal), i);
    } else if Some(id) in Ids(Transitions(journal)) {
      IdsUsed(journal, Transitions(journal), id);
    }
  }

  lemma ReservedKeys(value: Value, event: Value)
    ensures IsPayload(value) <==> value.Obj? && "_durability" !in Keys(value.members)
    ensures IsEvent(event) <==>
      event.Obj? && "revision" !in Keys(event.members) && "transition_id" !in Keys(event.members)
  {
    if value.Obj? {
      FieldIsKey(value.members, "_durability");
    }
    if event.Obj? {
      FieldIsKey(event.members, "revision");
      FieldIsKey(event.members, "transition_id");
    }
  }

  /** A commit is accepted exactly when nothing is missing from the journal and it may follow the
      log: in particular, a writer that expects another revision is refused. */
  lemma CommitIff(
      floats: Floats, snapshot: Snapshot, journal: seq<Value>, log: seq<Entry>, value: Value, event: Value,
      expected: Option<nat>, identity: string)
    requires Agrees(snapshot, journal, log) && AllNormal(floats, log)
    ensures MakeCommit(floats, snapshot, journal, value, event, expected, identity).Ok? <==>
            Transitions(journal) == log && Follows(log, value, event, expected, identity)
  {
    if Transitions(journal) == log {
      NothingMissing(floats, snapshot, journal, log);
      ReservedKeys(value, event);
      if ValidIdentity(identity) {
        UsedIsInLog(journal, identity);
      }
    } else {
      LastMissing(floats, snapshot, journal, log);
    }
  }

  /** What a published head says: the commit that was asked for, in its normal form. */
  lemma PublishedHead(floats: Floats, before: Store, step: Step, after: Store)
    requires step.Publish? && Taken(floats, before, step, after)
    ensures FromValue(before.head).Ok? && FromValue(before.head).value.revision < U64_MAX
    ensures step.value.Obj? && step.event.Obj? && after.appending.Some? && after.journal == before.journal
    ensures var revision, t := FromValue(before.head).value.revision + 1, after.appending.value;
            && Some(t) == Norm(floats, Transition(step.event.members, revision, step.identity))
            && Norm(floats, step.value).Some?
            && FromValue(after.head) == Ok(Snapshot(Norm(floats, step.value).value, revision, Some(t)))
            && IsTransition(t) && EntryOf(t) == Entry(t, Some(step.identity), Some(revision))
    ensures MissingTransition(floats, FromValue(before.head).value, before.journal) == Ok(None)
    ensures !UsesId(before.journal, step.identity) && ValidIdentity(step.identity)
    ensures step.expected.Some? ==> step.expected.value == FromValue(before.head).value.revision
    ensures IsPayload(step.value) && IsEvent(step.event)
  {
    var revision := FromValue(before.head).value.revision + 1;
    CommitChecked(floats, FromValue(before.head).value, before.journal, step.value, step.event, step.expected, step.identity);
    NormalHeadReadsBack(floats, step.value.members, step.event.members, revision, step.identity);
    NormalTransition(floats, step.event.members, revision, step.identity);
  }

  /** The commit of an event after a log: the event with its revision and identity, in its normal
      form. */
  ghost function EntryFor(floats: Floats, log: seq<Entry>, event: Value, identity: string): Entry
    requires event.Obj?
  {
    var t := Norm(floats, Transition(event.members, |log| + 1, identity));
    Entry(if t.Some? then t.value else event, Some(identity), Some(|log| + 1))
  }

  lemma PublishKeeps(floats: Floats, before: Store, step: Step, after: Store, log: seq<Entry>)
    requires step.Publish? && Consistent(before, log) && Taken(floats, before, step, after)
    ensures after.appending.Some?
    ensures Consistent(after, log + [EntryOf(after.appending.value)])
    ensures Front(log + [EntryOf(after.appending.value)]) == log == Transitions(after.journal)
    ensures Follows(log, step.value, step.event, step.expected, step.identity)
    ensures EntryOf(after.appending.value) == EntryFor(floats, log, step.event, step.identity)
  {
    PublishedHead(floats, before, step, after);
    ReservedKeys(step.value, step.event);
    UsedIsInLog(before.journal, step.identity);
    if Transitions(before.journal) != log {
      LastMissing(floats, FromValue(before.head).value, before.journal, log);
    }
    NextIsContiguous(before.journal, log, EntryOf(after.appending.value));
  }

  lemma PublishIsNormal(floats: Floats, before: Store, step: Step, after: Store)
    requires FloatRule(floats) && step.Publish? && Taken(floats, before, step, after)
    ensures after.appending.Some? && Norm(floats, after.appending.value) == after.appending
  {
    PublishedHead(floats, before, step, after);
    var event, revision := step.event, FromValue(before.head).value.revision + 1;
    CommitChecked(floats, FromValue(before.head).value, before.journal, step.value, event, step.expected, step.identity);
    TransitionIsDistinct(event.members, revision, step.identity);
    NormIsStable(floats, Transition(event.members, revision, step.identity));
  }

  lemma TransitionIsDistinct(event: seq<Member>, revision: nat, identity: string)
    requires Field(event, "revision").None? && Field(event, "transition_id").None? && Distinct(Obj(event))
    ensures Distinct(Transition(event, revision, identity))
  {
    TransitionKeys(event, revision, identity);
    var members := Transition(event, revision, identity).members;
    forall i | 0 <= i < |members| ensures Distinct(members[i].value) {
      if i < |event| {
        assert members[i] == event[i];
      }
    }
  }

  /** Every step refines a plain list of commits: publishing adds exactly the commit asked for, and
      only one that may follow the list; appending, crashing, recovering and noting leave it alone. */
  lemma StepRefinesLog(floats: Floats, before: Store, step: Step, after: Store, log: seq<Entry>)
    requires Consistent(before, log) && Taken(floats, before, step, after)
    ensures Consistent(after, Logged(log, step, after))
    ensures step.Publish? ==> Follows(log, step.value, step.event, step.expected, step.identity)
    ensures Logged(log, step, after) ==
            if step.Publish? then log + [EntryFor(floats, log, step.event, step.identity)] else log
  {
    match step
    case Publish(_, _, _, _) => PublishKeeps(floats, before, step, after, log);
    case Append => AppendCompletes(FromValue(before.head).value, before.journal, log);
    case Note(event) =>
      TransitionsAppend(before.journal, event);
      ObjectsAppend(before.journal, event);
    case Crash =>
    case Recover =>
      var snapshot := FromValue(before.head).value;
      if Transitions(before.journal) == log {
        NothingMissing(floats, snapshot, before.journal, log);
      } else {
        LastMissing(floats, snapshot, before.journal, log);
        AppendCompletes(snapshot, before.journal, log);
      }
  }

  /** A run from a store that has never committed. */
  ghost predicate Fresh(store: Store)
  {
    && store.head.Obj? && Field(store.head.members, "_durability").None?
    && store.appending.None? && AllObjects(store.journal) && Transitions(store.journal) == []
  }

  ghost predicate Run(floats: Floats, stores: seq<Store>, steps: seq<Step>)
  {
    && |stores| == |steps| + 1 && Fresh(stores[0])
    && forall i :: 0 <= i < |steps| ==> Taken(floats, stores[i], steps[i], stores[i + 1])
  }

  /** The commits of a run, in the order their heads were published. */
  ghost function History(stores: seq<Store>, steps: seq<Step>, k: nat): seq<Entry>
    requires k <= |steps| && |stores| == |steps| + 1
  {
    if k == 0 then [] else Logged(History(stores, steps, k - 1), steps[k - 1], stores[k])
  }

  lemma FreshIsConsistent(store: Store)
    requires Fresh(store)
    ensures Consistent(store, [])
  {
  }

  lemma RunStep(
      floats: Floats, stores: seq<Store>, steps: seq<Step>, k: nat, log: seq<Entry>, next: seq<Entry>)
    requires Run(floats, stores, steps) && 0 < k <= |steps|
    requires Consistent(stores[k - 1], log) && next == Logged(log, steps[k - 1], stores[k])
    ensures Consistent(stores[k], next)
  {
    var i := k - 1;
    assert Taken(floats, stores[i], steps[i], stores[i + 1]);
    StepRefinesLog(floats, stores[i], steps[i], stores[i + 1], log);
  }

  lemma {:induction false} RunIsConsistent(floats: Floats, stores: seq<Store>, steps: seq<Step>, k: nat)
    requires Run(floats, stores, steps) && k <= |steps|
    ensures Consistent(stores[k], History(stores, steps, k))
  {
    if k == 0 {
      FreshIsConsistent(stores[0]);
    } else {
      RunIsConsistent(floats, stores, steps, k - 1);
      RunStep(floats, stores, steps, k, History(stores, steps, k - 1), History(stores, steps, k));
    }
  }

  lemma {:induction false} HistoryIsNormal(floats: Floats, stores: seq<Store>, steps: seq<Step>, k: nat)
    requires FloatRule(floats) && Run(floats, stores, steps) && k <= |steps|
    ensures AllNormal(floats, History(stores, steps, k))
  {
    if k > 0 {
      var i := k - 1;
      HistoryIsNormal(floats, stores, steps, i);
      assert Taken(floats, stores[i], steps[i], stores[i + 1]);
      if steps[i].Publish? {
        PublishIsNormal(floats, stores[i], steps[i], stores[k]);
      }
    }
  }

  /** The journal after recovery has appended what it found missing. */
  ghost function Repaired(floats: Floats, snapshot: Snapshot, journal: seq<Value>): seq<Value>
  {
    match MissingTransition(floats, snapshot, journal)
    case Ok(Some(t)) => journal + [t]
    case _ => journal
  }

  lemma RepairCompletes(floats: Floats, snapshot: Snapshot, journal: seq<Value>, log: seq<Entry>)
    requires Agrees(snapshot, journal, log) && AllNormal(floats, log)
    ensures MissingTransition(floats, snapshot, journal).Ok?
    ensures Transitions(Repaired(floats, snapshot, journal)) == log
    ensures MissingTransition(floats, snapshot, Repaired(floats, snapshot, journal)) == Ok(None)
  {
    if Transitions(journal) == log {
      NothingMissing(floats, snapshot, journal, log);
    } else {
      LastMissing(floats, snapshot, journal, log);
      AppendCompletes(snapshot, journal, log);
      NothingMissing(floats, snapshot, journal + [log[|log| - 1].event], log);
    }
  }

  /** Over every run of commits, crashes between head and journal, other events and
      recoveries: recovery never fails, finds at most the one last transition, and after
      appending it finds nothing; the journal then holds exactly the committed history. */
  lemma RecoveryIsComplete(floats: Floats, stores: seq<Store>, steps: seq<Step>, k: nat)
    requires FloatRule(floats) && Run(floats, stores, steps) && k <= |steps|
    ensures FromValue(stores[k].head).Ok?
    ensures var snapshot := FromValue(stores[k].head).value;
            var journal := Repaired(floats, snapshot, stores[k].journal);
            && MissingTransition(floats, snapshot, stores[k].journal).Ok?
            && Transitions(journal) == History(stores, steps, k)
            && MissingTransition(floats, snapshot, journal) == Ok(None)
  {
    RunIsConsistent(floats, stores, steps, k);
    HistoryIsNormal(floats, stores, steps, k);
    RepairCompletes(floats, FromValue(stores[k].head).value, stores[k].journal, History(stores, steps, k));
  }

  // ----- When a head and a journal are read -----

  /** A head is read exactly when it is an object without commits, or when what it says of its last
      commit is whole: a revision, and a transition of that revision with a valid identity. */
  lemma SnapshotIff(raw: Value)
    ensures FromValue(raw).Ok? <==>
      raw.Obj? &&
      (Get(raw, "_durability").None? || Get(raw, "_durability") == Some(Null) ||
       var metadata := Get(raw, "_durability").value;
       && U64Field(metadata, "revision").Some? && U64Field(metadata, "revision").value > 0
       && Get(metadata, "last_transition").Some?
       && var t := Get(metadata, "last_transition").value;
          t.Obj? && U64Field(t, "revision") == U64Field(metadata, "revision") && TransitionId(t).Some?)
  {
  }

  /** What reading a head gives: the object without what it says of its last commit, and that. */
  lemma SnapshotIs(raw: Value)
    requires FromValue(raw).Ok?
    ensures var s := FromValue(raw).value;
      && s.value == Obj(Without(raw.members, "_durability"))
      && (s.revision == 0 <==> s.lastTransition.None?)
      && (s.revision > 0 ==>
            Get(raw, "_durability").Some? && U64Field(Get(raw, "_durability").value, "revision") == Some(s.revision)
            && Get(Get(raw, "_durability").value, "last_transition") == s.lastTransition
            && U64Field(s.lastTransition.value, "revision") == Some(s.revision)
            && TransitionId(s.lastTransition.value).Some?)
      && Told(s)
  {
  }

  /** What reading a head guarantees. */
  predicate Told(s: Snapshot)
  {
    if s.revision == 0 then s.lastTransition.None?
    else
      && s.lastTransition.Some? && U64Field(s.lastTransition.value, "revision") == Some(s.revision)
      && TransitionId(s.lastTransition.value).Some?
  }

  /** The journal holds all that the head says exactly when it is intact, of the head's revision, and
      ends in the head's transition, as one record. */
  lemma {:induction false} SettledIff(floats: Floats, s: Snapshot, events: seq<Value>)
    requires Told(s)
    ensures var log := Transitions(events);
      MissingTransition(floats, s, events) == Ok(None) <==>
      && Intact(events) && s.revision == |log|
      && (log != [] ==> TransitionId(s.lastTransition.value) == log[|log| - 1].id
                        && Equal(floats, s.lastTransition.value, log[|log| - 1].event))
  {
    var log := Transitions(events);
    if Intact(events) && log != [] {
      LastTransition(events);
    }
  }

  /** It lacks exactly the head's transition when it is intact, one revision behind, and has not used
      that transition's identity. */
  lemma {:induction false} BehindIff(floats: Floats, s: Snapshot, events: seq<Value>)
    requires Told(s)
    ensures var missing := MissingTransition(floats, s, events);
      && (missing.Ok? && missing.value.Some? <==>
            Intact(events) && s.revision == |Transitions(events)| + 1 <= U64_MAX
            && !UsesId(events, TransitionId(s.lastTransition.value).value))
      && (missing.Ok? && missing.value.Some? ==> missing.value == s.lastTransition)
  {
    var log := Transitions(events);
    if Intact(events) && log != [] {
      LastTransition(events);
    }
  }

  lemma {:induction false} LastTransition(events: seq<Value>)
    requires Transitions(events) != [] && Contiguous(Transitions(events))
    ensures var log := Transitions(events);
      log[|log| - 1].id.Some? && UsesId(events, log[|log| - 1].id.value)
  {
    var log := Transitions(events);
    IdsHold(log, |log| - 1);
    IdsUsed(events, log, log[|log| - 1].id.value);
  }

  // ----- When a publish is taken -----

  lemma MetadataForm(floats: Floats, revision: nat, t: Value)
    ensures Norm(floats, Metadata(revision, t)).Some? <==> Norm(floats, t).Some?
  {
    var rev := Member("revision", Json(revision));
    NumberIsNormal(floats, revision);
    assert [rev][1..] == [];
    NormOfAppended(floats, [rev], Member("last_transition", t));
  }

  lemma HeadForm(floats: Floats, payload: seq<Member>, event: seq<Member>, revision: nat, identity: string)
    ensures var t := Transition(event, revision, identity);
      && (Norm(floats, t).Some? <==> Text(floats, Obj(event)).Some?)
      && (Norm(floats, Head(payload, revision, t)).Some? <==>
            Text(floats, Obj(payload)).Some? && Text(floats, Obj(event)).Some?)
  {
    var t := Transition(event, revision, identity);
    TransitionForm(floats, event, revision, identity);
    MetadataForm(floats, revision, t);
    NormOfAppended(floats, payload, Member("_durability", Metadata(revision, t)));
  }

  /** A publish can be taken exactly when no commit is under way or missing from the journal, it may
      follow the log, and payload and event are written with distinct keys and have canonical forms. */
  lemma PublishIff(
      floats: Floats, before: Store, log: seq<Entry>, value: Value, event: Value, expected: Option<nat>, identity: string)
    requires Consistent(before, log) && AllNormal(floats, log)
    ensures (exists after :: Taken(floats, before, Publish(value, event, expected, identity), after)) <==>
            && before.appending.None? && Transitions(before.journal) == log
            && Follows(log, value, event, expected, identity)
            && Distinct(value) && Distinct(event) && Text(floats, value).Some? && Text(floats, event).Some?
  {
    var snapshot := FromValue(before.head).value;
    CommitIff(floats, snapshot, before.journal, log, value, event, expected, identity);
    var commit := MakeCommit(floats, snapshot, before.journal, value, event, expected, identity);
    if commit.Ok? {
      CommitChecked(floats, snapshot, before.journal, value, event, expected, identity);
      HeadForm(floats, value.members, event.members, snapshot.revision + 1, identity);
      var head, t := Norm(floats, commit.value.head), Norm(floats, commit.value.transition);
      if before.appending.None? && Distinct(value) && Distinct(event) && head.Some? && t.Some? {
        var after := Store(head.value, before.journal, Some(t.value));
        assert Taken(floats, before, Publish(value, event, expected, identity), after);
      }
    }
  }

  // ----- Why the writer encodes before it publishes -----

  lemma TransitionForm(floats: Floats, event: seq<Member>, revision: nat, identity: string)
    ensures Text(floats, Transition(event, revision, identity)).Some? <==> Text(floats, Obj(event)).Some?
  {
    var first := Member("revision", Json(revision));
    NumberIsNormal(floats, revision);
    NormOfAppended(floats, event, first);
    NormOfAppended(floats, event + [first], Member("transition_id", Str(identity)));
  }

  lemma {:induction false} TransitionsAreSound(events: seq<Value>)
    ensures Sound(Transitions(events))
  {
    if events != [] {
      TransitionsAreSound(events[..|events| - 1]);
    }
  }

  /** A journal with nothing missing holds the snapshot's whole history. */
  lemma SettledAgrees(floats: Floats, snapshot: Snapshot, events: seq<Value>)
    requires MissingTransition(floats, snapshot, events) == Ok(None)
    ensures Intact(events) && snapshot.revision == |Transitions(events)| && Sound(Transitions(events))
  {
    TransitionsAreSound(events);
  }

  /** The committed head agrees with the history and one commit more. */
  lemma CommitAgrees(floats: Floats, snapshot: Snapshot, events: seq<Value>, read: Snapshot, t: Value, id: string)
    requires MissingTransition(floats, snapshot, events) == Ok(None)
    requires snapshot.revision < U64_MAX && !UsesId(events, id) && IsTransition(t)
    requires EntryOf(t) == Entry(t, Some(id), Some(snapshot.revision + 1))
    requires read.revision == snapshot.revision + 1 && read.lastTransition == Some(t)
    ensures Agrees(read, events, Transitions(events) + [EntryOf(t)])
  {
    SettledAgrees(floats, snapshot, events);
    NextIsContiguous(events, Transitions(events), EntryOf(t));
  }

  /** What `commit` and `missing_transition` say of each other, for any values at all: with the
      committed transition in the journal, nothing is missing exactly when the event has a
      canonical form, and otherwise the journal is refused. So a writer must encode first. */
  lemma CommitSettlesIffCanonical(
      floats: Floats, snapshot: Snapshot, events: seq<Value>, value: Value, event: Value,
      expected: Option<nat>, identity: string)
    requires MakeCommit(floats, snapshot, events, value, event, expected, identity).Ok?
    ensures var c := MakeCommit(floats, snapshot, events, value, event, expected, identity).value;
            && FromValue(c.head).Ok?
            && MissingTransition(floats, FromValue(c.head).value, events + [c.transition]) ==
               if Text(floats, event).Some? then Ok(None) else Err(Invalid)
  {
    var c := MakeCommit(floats, snapshot, events, value, event, expected, identity).value;
    CommitChecked(floats, snapshot, events, value, event, expected, identity);
    TransitionFields(event.members, snapshot.revision + 1, identity);
    HeadReadsBack(value.members, event.members, snapshot.revision + 1, identity);
    CommitAgrees(floats, snapshot, events, FromValue(c.head).value, c.transition, identity);
    CommittedSettles(floats, FromValue(c.head).value, events, c.transition);
    TransitionForm(floats, event.members, snapshot.revision + 1, identity);
  }

  lemma CommittedSettles(floats: Floats, read: Snapshot, events: seq<Value>, t: Value)
    requires Agrees(read, events, Transitions(events) + [EntryOf(t)])
    ensures MissingTransition(floats, read, events + [t]) ==
            if Text(floats, t).Some? then Ok(None) else Err(Invalid)
  {
    var next := Transitions(events) + [EntryOf(t)];
    assert next[|next| - 1].event == t && Front(next) == Transitions(events);
    AppendCompletes(read, events, next);
    NothingMissing(floats, read, events + [t], next);
  }

  lemma FirstCommit(floats: Floats, event: seq<Member>, identity: string)
    requires Field(event, "revision").None? && Field(event, "transition_id").None? && ValidIdentity(identity)
    ensures var t := Transition(event, 1, identity);
            MakeCommit(floats, Snapshot(Obj([]), 0, None), [], Obj([]), Obj(event), None, identity) ==
            Ok(Commit(Head([], 1, t), t, 1))
  {
    NothingMissing(floats, Snapshot(Obj([]), 0, None), [], []);
  }

  lemma SingleField(floats: Floats, key: string, v: Value, other: string)
    requires key != other
    ensures Field([Member(key, v)], other).None?
    ensures Norm(floats, v).None? ==> Text(floats, Obj([Member(key, v)])).None?
  {
    var members := [Member(key, v)];
    assert members[1..] == [];
    assert Norm(floats, v).None? ==> NormMembers(floats, members).None?;
  }

  lemma OverflowIsNumber()
    ensures IsNumber("1e999") && HasMark("1e999")
  {
    var digits := "999";
    assert LeadingDigits(digits[1..]) == 2 && LeadingDigits(digits) == 3;
    assert "e999"[1..] == digits;
    assert IsExponent("e999");
    var s := "1e999";
    assert s[1..] == "e999" && s[..1] == "1";
    assert LeadingDigits(s) == 1;
  }

  /** For one, the event {"x": 1e999}: `commit` accepts it, `missing_transition` would refuse
      what it makes, and no step of the store publishes it. */
  lemma OverflowingEventIsNotPublished(floats: Floats, identity: string)
    requires ValidIdentity(identity)
    requires forall t: Number :: t == "1e999" ==> floats(t).None?
    ensures IsNumber("1e999")
    ensures var event := Obj([Member("x", Num("1e999"))]);
            var c := MakeCommit(floats, Snapshot(Obj([]), 0, None), [], Obj([]), event, None, identity);
            && c.Ok? && FromValue(c.value.head).Ok?
            && MissingTransition(floats, FromValue(c.value.head).value, [c.value.transition]) == Err(Invalid)
            && forall after :: !Taken(floats, Store(Obj([]), [], None), Publish(Obj([]), event, None, identity), after)
  {
    OverflowIsNumber();
    SingleField(floats, "x", Num("1e999"), "revision");
    SingleField(floats, "x", Num("1e999"), "transition_id");
    var members := [Member("x", Num("1e999"))];
    FirstCommit(floats, members, identity);
    CommitSettlesIffCanonical(floats, Snapshot(Obj([]), 0, None), [], Obj([]), Obj(members), None, identity);
    TransitionForm(floats, members, 1, identity);
    var t := Transition(members, 1, identity);
    assert [] + [t] == [t];
  }
}
