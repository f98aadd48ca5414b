/** Fair, bounded background observation. Time is a number the caller supplies. */
module Polling {
  import opened Basics

  datatype Policy = Policy(enabled: bool, interval: nat, timeout: nat) {
    predicate Valid() { 2 <= interval <= 300 && 1 <= timeout <= 30 }
  }

  datatype Phase = Scheduler | Worker | History {
    function Next(): Phase
    {
      match this
      case Scheduler => Worker
      case Worker => History
      case History => Scheduler
    }
  }

  datatype Entry = Entry(due: nat, failures: nat, phase: Phase)

  const NEW := Entry(0, 0, Scheduler)

  /** The candidate names in the order of a sorted set. */
  predicate Ascending(names: seq<string>)
  {
    forall i, j :: 0 <= i < j < |names| ==> Less(names[i], names[j])
  }

  function SaturatingAdd(a: nat, b: nat): nat { Min(a + b, U64_MAX) }

  function Pow2(n: nat): nat { if n == 0 then 1 else 2 * Pow2(n - 1) }

  function Delay(policy: Policy, failures: nat): nat
  {
    Min(Min(Doubled(policy.interval, failures), U64_MAX), 300)
  }

  /** The interval times a power of two. */
  function Doubled(interval: nat, times: nat): nat { if times == 0 then interval else 2 * Doubled(interval, times - 1) }

  lemma {:induction false} DoubledIsPower(interval: nat, times: nat)
    ensures Doubled(interval, times) == interval * Pow2(times)
  {
    if times > 0 {
      DoubledIsPower(interval, times - 1);
    }
  }

  // ----- What the operations decide -----

  /** Candidates keep their entry or get a new one; every other entry is forgotten. */
  function Refreshed(entries: map<string, Entry>, candidates: seq<string>): map<string, Entry>
  {
    map key | key in candidates :: if key in entries then entries[key] else NEW
  }

  predicate Ready(entries: map<string, Entry>, key: string, now: nat) { key in entries && entries[key].due <= now }

  /** Where `c` stands in the rotation that starts just past `after`. */
  predicate Sooner(after: string, a: string, b: string)
  {
    if Less(after, a) then !Less(after, b) || Less(a, b) else !Less(after, b) && Less(a, b)
  }

  /** The selected key is ready, and no other ready candidate comes sooner in the rotation. */
  ghost predicate IsSelection(
      entries: map<string, Entry>, candidates: seq<string>, after: string, now: nat, selected: Option<string>)
  {
    match selected
    case None => forall i :: 0 <= i < |candidates| ==> !Ready(entries, candidates[i], now)
    case Some(key) =>
      && key in candidates && Ready(entries, key, now)
      && forall i :: 0 <= i < |candidates| && Ready(entries, candidates[i], now) && candidates[i] != key ==>
           Sooner(after, key, candidates[i])
  }

  function Reported(e: Entry, now: nat, policy: Policy, success: bool, busy: bool): Entry
  {
    if busy then e.(due := SaturatingAdd(now, 1))
    else
      var failures := if success then 0 else Min(SaturatingAdd(e.failures, 1), 5);
      var phase := e.phase.Next();
      var wait := if success && phase != Scheduler then 1 else Delay(policy, failures);
      Entry(SaturatingAdd(now, wait), failures, phase)
  }

  function Passed(e: Entry, now: nat, policy: Policy): Entry
  {
    var phase := e.phase.Next();
    var wait := if phase == Scheduler && e.failures == 0 then policy.interval else 1;
    Entry(SaturatingAdd(now, wait), e.failures, phase)
  }

  // ----- The schedule -----

  class Schedule {
    var entries: map<string, Entry>
    var after: string

    constructor ()
      ensures entries == map[] && after == ""
    {
      entries, after := map[], "";
    }

    /** The next ready candidate in the rotation, which then moves on to it. */
    method Select(candidates: seq<string>, now: nat, policy: Policy) returns (r: Option<(string, Phase)>)
      requires Ascending(candidates)
      modifies this
      ensures !(policy.enabled && policy.Valid()) ==> r.None? && entries == old(entries) && after == old(after)
      ensures policy.enabled && policy.Valid() ==>
        && entries == Refreshed(old(entries), candidates)
        && IsSelection(entries, candidates, old(after), now, if r.Some? then Some(r.value.0) else None)
        && after == (if r.Some? then r.value.0 else old(after))
        && (r.Some? ==> r.value.1 == entries[r.value.0].phase)
    {
      if !policy.enabled || !policy.Valid() {
        return None;
      }
      entries := Refreshed(entries, candidates);
      var selected: Option<string> := None;
      var first: Option<string> := None;
      for i := 0 to |candidates|
        invariant selected.None?
        invariant forall j :: 0 <= j < i && Ready(entries, candidates[j], now) ==> !Less(after, candidates[j])
        invariant first.None? ==> forall j :: 0 <= j < i ==> !Ready(entries, candidates[j], now)
        invariant first.Some? ==>
          && first.value in candidates && Ready(entries, first.value, now)
          && !Less(after, first.value)
          && forall j :: 0 <= j < |candidates| && Ready(entries, candidates[j], now) && candidates[j] != first.value ==>
               Less(first.value, candidates[j])
      {
        if Ready(entries, candidates[i], now) {
          if Less(after, candidates[i]) {
            selected := Some(candidates[i]);
            break;
          }
          if first.None? {
            first := Some(candidates[i]);
          }
        }
      }
      if selected.None? {
        selected := first;
      }
      if selected.None? {
        return None;
      }
      after := selected.value;
      return Some((after, entries[after].phase));
    }

    method Outcome(key: string, now: nat, policy: Policy, success: bool, busy: bool)
      modifies this`entries
      ensures entries == if key in old(entries)
                         then old(entries)[key := Reported(old(entries)[key], now, policy, success, busy)]
                         else old(entries)
    {
      if key !in entries {
        return;
      }
      var entry := entries[key];
      if busy {
        entries := entries[key := entry.(due := SaturatingAdd(now, 1))];
        return;
      }
      entry := entry.(failures := if success then 0 else Min(SaturatingAdd(entry.failures, 1), 5));
      entry := entry.(phase := entry.phase.Next());
      var delay := Delay(policy, entry.failures);
      entry := entry.(due := SaturatingAdd(now, if success && entry.phase != Scheduler then 1 else delay));
      entries := entries[key := entry];
    }

    /** The caller paces this entry itself, and it is healthy. */
    method DueAt(key: string, due: nat)
      modifies this`entries
      ensures entries == if key in old(entries)
                         then old(entries)[key := old(entries)[key].(failures := 0, due := due)] else old(entries)
    {
      if key in entries {
        entries := entries[key := entries[key].(failures := 0)];
        entries := entries[key := entries[key].(due := due)];
      }
    }

    /** A phase with no work: the failure count stays, and its backoff is not waited again. */
    method Skipped(key: string, now: nat, policy: Policy)
      modifies this`entries
      ensures entries == if key in old(entries)
                         then old(entries)[key := Passed(old(entries)[key], now, policy)] else old(entries)
    {
      if key in entries {
        var entry := entries[key];
        entry := entry.(phase := entry.phase.Next());
        var wait := entry.phase == Scheduler && entry.failures == 0;
        entry := entry.(due := SaturatingAdd(now, if wait then policy.interval else 1));
        entries := entries[key := entry];
      }
    }
  }

  // ----- Bounded bypass -----

  datatype State = State(entries: map<string, Entry>, after: string)

  datatype Op =
    | SelectAt(now: nat, selected: Option<string>)
    | Report(key: string, now: nat, success: bool, busy: bool)
    | Pace(key: string, due: nat)
    | Skip(key: string, now: nat)

  /** One operation of a schedule with this candidate set and an enabled, valid policy. */
  ghost predicate Happens(candidates: seq<string>, policy: Policy, s: State, op: Op, s': State)
  {
    match op
    case SelectAt(now, selected) =>
      && s'.entries == Refreshed(s.entries, candidates)
      && IsSelection(s'.entries, candidates, s.after, now, selected)
      && s'.after == (if selected.Some? then selected.value else s.after)
    case Report(key, now, success, busy) =>
      s' == if key in s.entries
            then s.(entries := s.entries[key := Reported(s.entries[key], now, policy, success, busy)]) else s
    case Pace(key, due) =>
      s' == if key in s.entries then s.(entries := s.entries[key := s.entries[key].(failures := 0, due := due)]) else s
    case Skip(key, now) =>
      s' == if key in s.entries then s.(entries := s.entries[key := Passed(s.entries[key], now, policy)]) else s
  }

  ghost predicate Run(candidates: seq<string>, policy: Policy, states: seq<State>, ops: seq<Op>)
  {
    && |states| == |ops| + 1
    && forall i :: 0 <= i < |ops| ==> Happens(candidates, policy, states[i], ops[i], states[i + 1])
  }

  function Selects(ops: seq<Op>): nat
  {
    if ops == [] then 0 else (if ops[0].SelectAt? then 1 else 0) + Selects(ops[1..])
  }

  /** How many candidates come before `key` in the rotation that starts just past `after`. */
  ghost function Ahead(candidates: seq<string>, after: string, key: string): nat
  {
    if candidates == [] then 0
    else (if candidates[0] != key && Sooner(after, candidates[0], key) then 1 else 0) + Ahead(candidates[1..], after, key)
  }

  /** Selecting a key that comes sooner moves the rotation strictly closer to `key`. */
  lemma {:induction false} AheadShrinks(candidates: seq<string>, after: string, chosen: string, key: string)
    requires chosen != key && Sooner(after, chosen, key)
    ensures Ahead(candidates, chosen, key) <= Ahead(candidates, after, key)
    ensures chosen in candidates ==> Ahead(candidates, chosen, key) < Ahead(candidates, after, key)
  {
    if candidates != [] {
      AheadShrinks(candidates[1..], after, chosen, key);
      SoonerShrinks(candidates[0], after, chosen, key);
      assert candidates == [candidates[0]] + candidates[1..];
    }
  }

  lemma SoonerShrinks(c: string, after: string, chosen: string, key: string)
    requires chosen != key && Sooner(after, chosen, key)
    ensures c != key && Sooner(chosen, c, key) ==> Sooner(after, c, key) && c != chosen
    ensures !Sooner(chosen, chosen, key)
  {
    LessTotal(c, key);
    LessTotal(chosen, key);
    LessTotal(c, chosen);
    LessTotal(after, chosen);
    LessTotal(after, key);
    LessTotal(after, c);
    LessTransitiveAll(after, c, chosen, key);
  }

  lemma LessTransitiveAll(a: string, b: string, c: string, d: string)
    ensures forall x, y, z :: x in {a, b, c, d} && y in {a, b, c, d} && z in {a, b, c, d} && Less(x, y) && Less(y, z) ==> Less(x, z)
  {
    forall x, y, z | x in {a, b, c, d} && y in {a, b, c, d} && z in {a, b, c, d} && Less(x, y) && Less(y, z)
      ensures Less(x, z)
    {
      LessTransitive(x, y, z);
    }
  }

  lemma {:induction false} AheadIsFewer(candidates: seq<string>, after: string, key: string)
    ensures Ahead(candidates, after, key) <= |candidates|
    ensures key in candidates ==> Ahead(candidates, after, key) < |candidates|
  {
    if candidates != [] {
      AheadIsFewer(candidates[1..], after, key);
      assert candidates == [candidates[0]] + candidates[1..];
    }
  }

  /** Whether `key` is due at every select of the run and none of them returns it. */
  ghost predicate Passes(states: seq<State>, ops: seq<Op>, key: string)
    requires |states| == |ops| + 1
  {
    forall i :: 0 <= i < |ops| && ops[i].SelectAt? ==>
      Ready(states[i + 1].entries, key, ops[i].now) && ops[i].selected != Some(key)
  }

  lemma {:induction false} PassesAreBounded(
      candidates: seq<string>, policy: Policy, states: seq<State>, ops: seq<Op>, key: string)
    requires Run(candidates, policy, states, ops) && key in candidates && Passes(states, ops, key)
    ensures Selects(ops) <= Ahead(candidates, states[0].after, key)
    decreases |ops|
  {
    if ops != [] {
      assert Happens(candidates, policy, states[0], ops[0], states[0 + 1]);
      var later, rest := states[1..], ops[1..];
      assert Run(candidates, policy, later, rest) by {
        forall i | 0 <= i < |rest| ensures Happens(candidates, policy, later[i], rest[i], later[i + 1]) {
          assert Happens(candidates, policy, states[i + 1], ops[i + 1], states[i + 1 + 1]);
        }
      }
      assert Passes(later, rest, key) by {
        forall i | 0 <= i < |rest| && rest[i].SelectAt?
          ensures Ready(later[i + 1].entries, key, rest[i].now) && rest[i].selected != Some(key)
        {
          assert ops[i + 1].SelectAt?;
        }
      }
      PassesAreBounded(candidates, policy, later, rest, key);
      if ops[0].SelectAt? {
        assert Ready(states[0 + 1].entries, key, ops[0].now) && ops[0].selected != Some(key);
        var k :| 0 <= k < |candidates| && candidates[k] == key;
        assert ops[0].selected.Some? && Sooner(states[0].after, ops[0].selected.value, candidates[k]);
        AheadShrinks(candidates, states[0].after, ops[0].selected.value, key);
      }
    }
  }

  /** Bounded bypass: a candidate that is due at every select is returned within as many
      selects as there are candidates, whatever the others report and whoever is skipped. */
  lemma BoundedBypass(candidates: seq<string>, policy: Policy, states: seq<State>, ops: seq<Op>, key: string)
    requires Run(candidates, policy, states, ops) && key in candidates
    requires forall i :: 0 <= i < |ops| && ops[i].SelectAt? ==> Ready(states[i + 1].entries, key, ops[i].now)
    requires Selects(ops) >= |candidates|
    ensures exists i :: 0 <= i < |ops| && ops[i].SelectAt? && ops[i].selected == Some(key)
  {
    if !exists i :: 0 <= i < |ops| && ops[i].SelectAt? && ops[i].selected == Some(key) {
      assert Passes(states, ops, key);
      PassesAreBounded(candidates, policy, states, ops, key);
      AheadIsFewer(candidates, states[0].after, key);
    }
  }

  // ----- When one entry is polled, in closed form -----

  /** What becomes of one poll: a report, a report that something else was busy, or no work. */
  datatype Event = Held | NoWork | Done(success: bool)

  function Front(events: seq<Event>): seq<Event>
    requires events != []
  {
    events[..|events| - 1]
  }

  function Last(events: seq<Event>): Event
    requires events != []
  {
    events[|events| - 1]
  }

  /** How many of the last reports are failures in a row. Busy and skipped polls say nothing. */
  function Streak(events: seq<Event>): nat
  {
    if events == [] then 0
    else if Last(events).Done? then (if Last(events).success then 0 else 1 + Streak(Front(events)))
    else Streak(Front(events))
  }

  /** How many polls moved the phase on. */
  function Turns(events: seq<Event>): nat
  {
    if events == [] then 0 else Turns(Front(events)) + if Last(events).Held? then 0 else 1
  }

  function PhaseOf(turns: nat): Phase
  {
    if turns % 3 == 0 then Scheduler else if turns % 3 == 1 then Worker else History
  }

  /** The interval doubled for each failure in a row, five times at most, and never past five
      minutes. */
  function Backoff(interval: nat, streak: nat): nat { Min(interval * Pow2(Min(streak, 5)), 300) }

  /** How long after the last of these polls the next one is. */
  function Wait(interval: nat, events: seq<Event>): nat
    requires events != []
  {
    var rests := PhaseOf(Turns(events)) == Scheduler && Streak(events) == 0;
    match Last(events)
    case Held => 1
    case NoWork => if rests then interval else 1
    case Done(success) => if !success then Backoff(interval, Streak(events)) else if rests then interval else 1
  }

  /** When the poll after these is, the first being at zero. */
  function DueAfter(interval: nat, events: seq<Event>): nat
  {
    if events == [] then 0 else DueAfter(interval, Front(events)) + Wait(interval, events)
  }

  lemma {:induction false} DoubledGrows(interval: nat, times: nat)
    ensures Doubled(interval, times) >= interval
  {
    if times > 0 {
      DoubledGrows(interval, times - 1);
    }
  }

  lemma DoubledBound(interval: nat, times: nat)
    ensures times <= 5 && interval <= 300 ==> Doubled(interval, times) <= 9600
  {
    if times <= 5 && interval <= 300 {
      assert Doubled(interval, 0) <= 300 && Doubled(interval, 1) <= 600 && Doubled(interval, 2) <= 1200;
      assert Doubled(interval, 3) <= 2400 && Doubled(interval, 4) <= 4800 && Doubled(interval, 5) <= 9600;
    }
  }

  lemma DelayIs(policy: Policy, streak: nat)
    requires policy.Valid()
    ensures Delay(policy, Min(streak, 5)) == Backoff(policy.interval, streak)
    ensures 1 <= Backoff(policy.interval, streak) <= 300
    ensures streak == 0 ==> Backoff(policy.interval, streak) == policy.interval
  {
    DoubledGrows(policy.interval, Min(streak, 5));
    DoubledBound(policy.interval, Min(streak, 5));
    DoubledIsPower(policy.interval, Min(streak, 5));
  }

  function Applied(e: Entry, now: nat, policy: Policy, event: Event): Entry
  {
    match event
    case Held => Reported(e, now, policy, false, true)
    case NoWork => Passed(e, now, policy)
    case Done(success) => Reported(e, now, policy, success, false)
  }

  /** The entry these polls lead to. */
  function EntryAfter(interval: nat, events: seq<Event>): Entry
  {
    Entry(DueAfter(interval, events), Min(Streak(events), 5), PhaseOf(Turns(events)))
  }

  lemma EventCounts(events: seq<Event>, event: Event)
    ensures Streak(events + [event]) ==
            if event.Done? then (if event.success then 0 else 1 + Streak(events)) else Streak(events)
    ensures Turns(events + [event]) == Turns(events) + if event.Held? then 0 else 1
    ensures forall interval :: DueAfter(interval, events + [event]) == DueAfter(interval, events) + Wait(interval, events + [event])
  {
    assert Front(events + [event]) == events;
  }

  lemma PhaseMoves(turns: nat)
    ensures PhaseOf(turns + 1) == PhaseOf(turns).Next()
  {
  }

  /** One poll of an entry, at its due time, leads to the entry of one poll more: a busy one keeps
      phase and failures. */
  lemma PollLeads(policy: Policy, events: seq<Event>, event: Event)
    requires policy.Valid() && DueAfter(policy.interval, events) + 300 <= U64_MAX
    ensures var e := EntryAfter(policy.interval, events);
      Applied(e, e.due, policy, event) == EntryAfter(policy.interval, events + [event])
    ensures 1 <= Wait(policy.interval, events + [event]) <= 300
  {
    EventCounts(events, event);
    PhaseMoves(Turns(events));
    DelayIs(policy, Streak(events + [event]));
  }

  // ----- From one scheduler read to the next -----

  function Busies(n: nat): seq<Event> { if n == 0 then [] else Busies(n - 1) + [Held] }

  lemma {:induction false} BusyWaits(interval: nat, events: seq<Event>, n: nat)
    ensures DueAfter(interval, events + Busies(n)) == DueAfter(interval, events) + n
    ensures Streak(events + Busies(n)) == Streak(events) && Turns(events + Busies(n)) == Turns(events)
  {
    if n == 0 {
      assert events + [] == events;
    } else {
      BusyWaits(interval, events, n - 1);
      EventCounts(events + Busies(n - 1), Held);
      assert events + Busies(n) == events + Busies(n - 1) + [Held];
    }
  }

  /** The failures in a row after one more poll. */
  function Counted(streak: nat, event: Event): nat
  {
    if !event.Done? then streak else if event.success then 0 else 1 + streak
  }

  /** What a poll costs that does not end the round, and one that does. */
  function Cost(interval: nat, streak: nat, event: Event): nat
  {
    if event == Done(false) then Backoff(interval, streak) else 1
  }

  function LastCost(interval: nat, streak: nat, event: Event): nat
  {
    if event == Done(false) then Backoff(interval, streak) else if streak == 0 then interval else 1
  }

  /** A scheduler read, the worker and history polls that follow, and busy ones in between. */
  function Round(read: Event, busy: nat, worker: Event, busyAgain: nat, history: Event): seq<Event>
  {
    [read] + Busies(busy) + [worker] + Busies(busyAgain) + [history]
  }

  /** One poll more after some busy ones. */
  lemma BusyThen(interval: nat, events: seq<Event>, busy: nat, event: Event)
    requires !event.Held?
    ensures var next := events + Busies(busy) + [event];
      && Streak(next) == Counted(Streak(events), event) && Turns(next) == Turns(events) + 1
      && DueAfter(interval, next) == DueAfter(interval, events) + busy +
           if PhaseOf(Turns(events) + 1) == Scheduler then LastCost(interval, Streak(next), event)
           else Cost(interval, Streak(next), event)
  {
    BusyWaits(interval, events, busy);
    EventCounts(events + Busies(busy), event);
  }

  /** The time from a scheduler read to the next, whatever the worker and history polls bring and
      however often they are busy. */
  lemma RoundTakes(
      interval: nat, before: seq<Event>, read: Event, busy: nat, worker: Event, busyAgain: nat, history: Event)
    requires PhaseOf(Turns(before)) == Scheduler && !read.Held? && !worker.Held? && !history.Held?
    ensures var after := before + Round(read, busy, worker, busyAgain, history);
      var first := Counted(Streak(before), read);
      var second := Counted(first, worker);
      var third := Counted(second, history);
      && PhaseOf(Turns(after)) == Scheduler && Streak(after) == third
      && DueAfter(interval, after) == DueAfter(interval, before) + Cost(interval, first, read)
           + busy + Cost(interval, second, worker) + busyAgain + LastCost(interval, third, history)
  {
    var one := before + [read];
    var two := one + Busies(busy) + [worker];
    BusyThen(interval, before, 0, read);
    assert before + Busies(0) + [read] == one;
    BusyThen(interval, one, busy, worker);
    BusyThen(interval, two, busyAgain, history);
    RoundFollows(before, read, busy, worker, busyAgain, history);
    RoundTurns(Turns(before));
  }

  lemma RoundFollows(before: seq<Event>, read: Event, busy: nat, worker: Event, busyAgain: nat, history: Event)
    ensures before + Round(read, busy, worker, busyAgain, history) ==
            before + [read] + Busies(busy) + [worker] + Busies(busyAgain) + [history]
  {
  }

  lemma RoundTurns(turns: nat)
    requires PhaseOf(turns) == Scheduler
    ensures PhaseOf(turns + 1) == Worker && PhaseOf(turns + 1 + 1) == History && PhaseOf(turns + 1 + 1 + 1) == Scheduler
  {
  }

  /** With no other work, the gap is two seconds more than the interval after a success, and than
      the backoff after failures. */
  lemma IdleRoundTakes(interval: nat, before: seq<Event>, success: bool)
    requires PhaseOf(Turns(before)) == Scheduler
    ensures var after := before + Round(Done(success), 0, NoWork, 0, NoWork);
      DueAfter(interval, after) == DueAfter(interval, before) + 2
        + if success then interval else Min(interval * Pow2(Min(1 + Streak(before), 5)), 300)
  {
    RoundTakes(interval, before, Done(success), 0, NoWork, 0, NoWork);
  }

  // ----- The schedule keeps that time -----

  /** Selecting from one candidate: its phase, once it is due. */
  method PollOne(schedule: Schedule, key: string, now: nat, policy: Policy) returns (phase: Option<Phase>)
    requires policy.enabled && policy.Valid()
    modifies schedule
    ensures schedule.entries == map[key := if key in old(schedule.entries) then old(schedule.entries[key]) else NEW]
    ensures phase == if schedule.entries[key].due <= now then Some(schedule.entries[key].phase) else None
  {
    var selected := schedule.Select([key], now, policy);
    assert [key][0] == key;
    if selected.None? {
      assert !Ready(schedule.entries, [key][0], now);
      return None;
    }
    return Some(selected.value.1);
  }

  /** One second: asks the schedule, and tells it what came of the poll if it gave one. */
  method Tick(schedule: Schedule, key: string, now: nat, policy: Policy, event: Event, ghost entry: Entry)
    returns (polled: Option<Phase>)
    requires policy.enabled && policy.Valid()
    requires schedule.entries == map[key := entry] || (schedule.entries == map[] && entry == NEW)
    modifies schedule
    ensures polled == if entry.due <= now then Some(entry.phase) else None
    ensures schedule.entries == map[key := if entry.due <= now then Applied(entry, now, policy, event) else entry]
  {
    polled := PollOne(schedule, key, now, policy);
    assert schedule.entries == map[key := entry];
    if polled.Some? {
      match event
      case Held => schedule.Outcome(key, now, policy, false, true);
      case NoWork => schedule.Skipped(key, now, policy);
      case Done(success) => schedule.Outcome(key, now, policy, success, false);
      assert schedule.entries == map[key := Applied(entry, now, policy, event)];
    }
  }

  lemma PollSoon(policy: Policy, events: seq<Event>, i: nat)
    requires policy.Valid() && i < |events| && DueAfter(policy.interval, events[..i]) <= 300 * i
    requires 300 * (|events| + 1) <= U64_MAX
    ensures var e := EntryAfter(policy.interval, events[..i]);
      Applied(e, e.due, policy, events[i]) == EntryAfter(policy.interval, events[..i + 1])
    ensures DueAfter(policy.interval, events[..i]) < DueAfter(policy.interval, events[..i + 1]) <= 300 * (i + 1)
  {
    assert events[..i + 1] == events[..i] + [events[i]];
    EventCounts(events[..i], events[i]);
    PollLeads(policy, events[..i], events[i]);
  }

  /** One entry asked for every second, whatever each poll brings: every poll is at the second the
      closed form says, and in the phase that the polls before it lead to. */
  method PollEach(key: string, policy: Policy, events: seq<Event>) returns (times: seq<nat>, phases: seq<Phase>)
    requires policy.enabled && policy.Valid() && 300 * (|events| + 1) <= U64_MAX
    ensures |times| == |phases| == |events|
    ensures forall i :: 0 <= i < |events| ==>
      times[i] == DueAfter(policy.interval, events[..i]) && phases[i] == PhaseOf(Turns(events[..i]))
  {
    var schedule := new Schedule();
    var now := 0;
    times, phases := [], [];
    ghost var entry := NEW;
    while |times| < |events|
      invariant |times| == |phases| <= |events|
      invariant forall i :: 0 <= i < |times| ==>
        times[i] == DueAfter(policy.interval, events[..i]) && phases[i] == PhaseOf(Turns(events[..i]))
      invariant entry == EntryAfter(policy.interval, events[..|times|]) && now <= entry.due <= 300 * |times|
      invariant schedule.entries == map[key := entry] || (schedule.entries == map[] && entry == NEW)
      decreases |events| - |times|, entry.due - now
    {
      var event := events[|times|];
      PollSoon(policy, events, |times|);
      var polled := Tick(schedule, key, now, policy, event, entry);
      if polled.Some? {
        entry := Applied(entry, now, policy, event);
        times, phases := times + [now], phases + [polled.value];
      }
      now := now + 1;
    }
  }
}
