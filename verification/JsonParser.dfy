/** The strict parser of everything that arrives from outside: duplicate keys, depth and node
    count are refused while the text is read. */
module JsonParser {
  import opened Basics
  import opened JsonText
  import opened Canonical

  const MAX_DEPTH := 64
  const MAX_NODES := 600_000
  /** usize::MAX on the 64-bit targets: the records this service wrote itself have no budget. */
  const UNBOUNDED := U64_MAX

  datatype Error = Malformed | Complexity | MappingKey | NotFinite

  /** The node count that is decremented in place through every nested value. */
  class Budget {
    var remaining: nat

    constructor (nodes: nat)
      ensures remaining == nodes
    {
      remaining := nodes;
    }

    method Consume() returns (ok: bool)
      modifies this
      ensures ok == (old(remaining) > 0)
      ensures remaining == if ok then old(remaining) - 1 else old(remaining)
    {
      ok := remaining > 0;
      if ok {
        remaining := remaining - 1;
      }
    }
  }

  // ----- What the parser measures -----

  /** One for every value and one for every key. */
  function Nodes(v: Value): (n: nat)
    ensures n >= 1
    decreases v
  {
    match v
    case Arr(items) => 1 + NodesItems(items)
    case Obj(members) => 1 + NodesMembers(members)
    case _ => 1
  }

  function NodesItems(items: seq<Value>): nat
    decreases items
  {
    if items == [] then 0 else Nodes(items[0]) + NodesItems(items[1..])
  }

  function NodesMembers(members: seq<Member>): nat
    decreases members
  {
    if members == [] then 0 else 1 + Nodes(members[0].value) + NodesMembers(members[1..])
  }

  function Deeper(a: nat, b: nat): nat { if a <= b then b else a }

  /** How many containers stand around the deepest value. */
  function Height(v: Value): nat
    decreases v
  {
    match v
    case Arr(items) => HeightItems(items)
    case Obj(members) => HeightMembers(members)
    case _ => 0
  }

  function HeightItems(items: seq<Value>): nat
    decreases items
  {
    if items == [] then 0 else Deeper(1 + Height(items[0]), HeightItems(items[1..]))
  }

  function HeightMembers(members: seq<Member>): nat
    decreases members
  {
    if members == [] then 0 else Deeper(1 + Height(members[0].value), HeightMembers(members[1..]))
  }

  /** Every number that is spelled as a float is a finite one. */
  predicate Finite(floats: Floats, v: Value)
    decreases v
  {
    match v
    case Num(text) => HasMark(text) ==> floats(text).Some?
    case Arr(items) => FiniteItems(floats, items)
    case Obj(members) => FiniteMembers(floats, members)
    case _ => true
  }

  predicate FiniteItems(floats: Floats, items: seq<Value>)
    decreases items
  {
    items == [] || (Finite(floats, items[0]) && FiniteItems(floats, items[1..]))
  }

  predicate FiniteMembers(floats: Floats, members: seq<Member>)
    decreases members
  {
    members == [] || (Finite(floats, members[0].value) && FiniteMembers(floats, members[1..]))
  }

  /** The reference: the members of a text that is one object within every bound. */
  function Accepted(floats: Floats, text: string, nodes: nat): Option<seq<Member>>
  {
    var v :- Read(text);
    if v.Obj? && Height(v) <= MAX_DEPTH && Nodes(v) <= nodes && Distinct(v) && Finite(floats, v)
    then Some(v.members) else None
  }

  /** The per-value refusals at one depth, as the parser meets them. */
  predicate Clean(floats: Floats, v: Value, depth: nat)
    decreases v
  {
    && depth <= MAX_DEPTH
    && match v
       case Num(text) => HasMark(text) ==> floats(text).Some?
       case Arr(items) => CleanItems(floats, items, depth + 1)
       case Obj(members) => KeysDistinct(members) && CleanMembers(floats, members, depth + 1)
       case _ => true
  }

  predicate CleanItems(floats: Floats, items: seq<Value>, depth: nat)
    decreases items
  {
    items == [] || (Clean(floats, items[0], depth) && CleanItems(floats, items[1..], depth))
  }

  predicate CleanMembers(floats: Floats, members: seq<Member>, depth: nat)
    decreases members
  {
    members == [] || (Clean(floats, members[0].value, depth) && CleanMembers(floats, members[1..], depth))
  }

  lemma {:induction false} CleanIsBounded(floats: Floats, v: Value, depth: nat)
    requires depth <= MAX_DEPTH
    ensures Clean(floats, v, depth) <==> depth + Height(v) <= MAX_DEPTH && Distinct(v) && Finite(floats, v)
    decreases v, 1
  {
    match v
    case Arr(items) => CleanItemsBounded(floats, items, depth + 1);
    case Obj(members) => CleanMembersBounded(floats, members, depth + 1);
    case _ =>
  }

  lemma {:induction false} CleanItemsBounded(floats: Floats, items: seq<Value>, depth: nat)
    requires depth <= MAX_DEPTH + 1
    ensures CleanItems(floats, items, depth) <==>
              && depth - 1 + HeightItems(items) <= MAX_DEPTH
              && (forall i :: 0 <= i < |items| ==> Distinct(items[i]))
              && FiniteItems(floats, items)
    decreases items, 0
  {
    if items != [] {
      assert items == [items[0]] + items[1..];
      CleanItemsBounded(floats, items[1..], depth);
      if depth <= MAX_DEPTH {
        CleanIsBounded(floats, items[0], depth);
      }
    }
  }

  lemma {:induction false} CleanMembersBounded(floats: Floats, members: seq<Member>, depth: nat)
    requires depth <= MAX_DEPTH + 1
    ensures CleanMembers(floats, members, depth) <==>
              && depth - 1 + HeightMembers(members) <= MAX_DEPTH
              && (forall i :: 0 <= i < |members| ==> Distinct(members[i].value))
              && FiniteMembers(floats, members)
    decreases members, 0
  {
    if members != [] {
      assert members == [members[0]] + members[1..];
      CleanMembersBounded(floats, members[1..], depth);
      if depth <= MAX_DEPTH {
        CleanIsBounded(floats, members[0].value, depth);
      }
    }
  }

  // ----- Lists that grow while they are read -----

  lemma {:induction false} ItemsGrow(floats: Floats, a: seq<Value>, b: seq<Value>, depth: nat)
    ensures NodesItems(a + b) == NodesItems(a) + NodesItems(b)
    ensures CleanItems(floats, a + b, depth) <==> CleanItems(floats, a, depth) && CleanItems(floats, b, depth)
  {
    if a == [] {
      assert a + b == b;
    } else {
      ItemsGrow(floats, a[1..], b, depth);
      assert (a + b)[0] == a[0] && (a + b)[1..] == a[1..] + b;
    }
  }

  lemma {:induction false} MembersGrow(floats: Floats, a: seq<Member>, b: seq<Member>, depth: nat)
    ensures NodesMembers(a + b) == NodesMembers(a) + NodesMembers(b)
    ensures CleanMembers(floats, a + b, depth) <==> CleanMembers(floats, a, depth) && CleanMembers(floats, b, depth)
  {
    if a == [] {
      assert a + b == b;
    } else {
      MembersGrow(floats, a[1..], b, depth);
      assert (a + b)[0] == a[0] && (a + b)[1..] == a[1..] + b;
    }
  }

  /** Whatever was read stays at the front of the list. */
  lemma {:induction false} ReadItemsKeeps(s: string, read: seq<Value>) returns (more: seq<Value>)
    requires ReadItems(s, read).Some?
    ensures ReadItems(s, read).value.0 == read + more && more != []
    ensures more[0] == ReadValue(s).value.0
    decreases |s|
  {
    var (v, rest) := ReadValue(s).value;
    var t := SkipSpace(rest);
    more := [v];
    if t[0] == ',' {
      var others := ReadItemsKeeps(t[1..], read + [v]);
      more := [v] + others;
      assert read + [v] + others == read + more;
    }
  }

  lemma {:induction false} ReadMembersKeeps(s: string, read: seq<Member>) returns (more: seq<Member>)
    requires ReadMembers(s, read).Some?
    ensures ReadMembers(s, read).value.0 == read + more && more != []
    ensures more[0].key == ReadKey(s).value.0
    ensures more[0].value == ReadValue(ReadKey(s).value.1).value.0
    decreases |s|
  {
    var (key, after) := ReadKey(s).value;
    var (v, rest) := ReadValue(after).value;
    var t := SkipSpace(rest);
    var m := Member(key, v);
    more := [m];
    if t[0] == ',' {
      var others := ReadMembersKeeps(t[1..], read + [m]);
      more := [m] + others;
      Regroup(read, [m], others);
    }
  }

  // ----- The parser -----

  /** A value is accepted when the text has one, it is clean at its depth, and the budget
      covers it; the budget then pays for exactly its nodes. */
  ghost predicate Parsed(
      floats: Floats, read: Option<(Value, string)>, depth: nat, before: nat, after: nat,
      r: Result<(Value, string), Error>)
  {
    && (r.Ok? <==> read.Some? && Clean(floats, read.value.0, depth) && Nodes(read.value.0) <= before)
    && (r.Ok? ==> read == Some(r.value) && after == before - Nodes(r.value.0))
  }

  method ParseValue(floats: Floats, text: string, depth: nat, budget: Budget)
    returns (r: Result<(Value, string), Error>)
    modifies budget
    ensures Parsed(floats, ReadValue(text), depth, old(budget.remaining), budget.remaining, r)
    decreases |text|, 1
  {
    var enough := budget.Consume();
    if !enough || depth > MAX_DEPTH {
      return Err(Complexity);
    }
    var s := SkipSpace(text);
    if s == [] {
      return Err(Malformed);
    }
    if s[0] == '[' {
      r := ParseArray(floats, s, depth, budget);
    } else if s[0] == '{' {
      r := ParseObject(floats, s, depth, budget);
    } else {
      r := ParseScalar(floats, s, depth);
    }
  }

  /** What a text holds that starts with a bracket. */
  ghost function ArrayAt(s: string): Option<(Value, string)>
    requires s != []
  {
    var t := SkipSpace(s[1..]);
    if t != [] && t[0] == ']' then Some((Arr([]), t[1..]))
    else
      var (items, rest) :- ReadItems(s[1..], []);
      Some((Arr(items), rest))
  }

  ghost function ObjectAt(s: string): Option<(Value, string)>
    requires s != []
  {
    var t := SkipSpace(s[1..]);
    if t != [] && t[0] == '}' then Some((Obj([]), t[1..]))
    else
      var (members, rest) :- ReadMembers(s[1..], []);
      Some((Obj(members), rest))
  }

  method ParseArray(floats: Floats, s: string, depth: nat, budget: Budget) returns (r: Result<(Value, string), Error>)
    requires s != [] && depth <= MAX_DEPTH
    modifies budget
    ensures Parsed(floats, ArrayAt(s), depth, old(budget.remaining) + 1, budget.remaining, r)
    decreases |s|, 0
  {
    var t := SkipSpace(s[1..]);
    if t != [] && t[0] == ']' {
      return Ok((Arr([]), t[1..]));
    }
    var items := ParseItems(floats, s[1..], depth + 1, budget);
    return if items.Ok? then Ok((Arr(items.value.0), items.value.1)) else Err(items.error);
  }

  method ParseObject(floats: Floats, s: string, depth: nat, budget: Budget) returns (r: Result<(Value, string), Error>)
    requires s != [] && depth <= MAX_DEPTH
    modifies budget
    ensures Parsed(floats, ObjectAt(s), depth, old(budget.remaining) + 1, budget.remaining, r)
    decreases |s|, 0
  {
    var t := SkipSpace(s[1..]);
    if t != [] && t[0] == '}' {
      return Ok((Obj([]), t[1..]));
    }
    var members := ParseMembers(floats, s[1..], depth + 1, budget);
    return if members.Ok? then Ok((Obj(members.value.0), members.value.1)) else Err(members.error);
  }

  method ParseScalar(floats: Floats, s: string, depth: nat) returns (r: Result<(Value, string), Error>)
    requires s != [] && depth <= MAX_DEPTH
    ensures r.Ok? <==> ReadScalar(s).Some? && Clean(floats, ReadScalar(s).value.0, depth)
    ensures r.Ok? ==> ReadScalar(s) == Some(r.value) && Nodes(r.value.0) == 1
    ensures ReadScalar(s).Some? ==> Nodes(ReadScalar(s).value.0) == 1
  {
    var scalar := ReadScalar(s);
    if scalar.None? {
      return Err(Malformed);
    }
    if scalar.value.0.Num? && HasMark(scalar.value.0.text) && floats(scalar.value.0.text).None? {
      return Err(NotFinite);
    }
    return Ok(scalar.value);
  }

  method ParseItems(floats: Floats, text: string, depth: nat, budget: Budget)
    returns (r: Result<(seq<Value>, string), Error>)
    modifies budget
    ensures var read := ReadItems(text, []);
      && (r.Ok? <==> read.Some? && CleanItems(floats, read.value.0, depth)
                     && NodesItems(read.value.0) <= old(budget.remaining))
      && (r.Ok? ==> read == Some(r.value) && budget.remaining == old(budget.remaining) - NodesItems(r.value.0))
    decreases |text|, 2
  {
    var result: seq<Value> := [];
    var s := text;
    ghost var before := budget.remaining;
    while true
      invariant |s| <= |text|
      invariant ReadItems(text, []) == ReadItems(s, result)
      invariant CleanItems(floats, result, depth)
      invariant NodesItems(result) <= before && budget.remaining == before - NodesItems(result)
      decreases |s|
    {
      var item := ParseValue(floats, s, depth, budget);
      if item.Err? {
        if ReadItems(s, result).Some? {
          var more := ReadItemsKeeps(s, result);
          ItemsGrow(floats, result, more, depth);
        }
        return Err(item.error);
      }
      ItemsGrow(floats, result, [item.value.0], depth);
      var t := SkipSpace(item.value.1);
      result := result + [item.value.0];
      if t == [] || (t[0] != ',' && t[0] != ']') {
        return Err(Malformed);
      }
      if t[0] == ']' {
        return Ok((result, t[1..]));
      }
      s := t[1..];
    }
  }

  method ParseMembers(floats: Floats, text: string, depth: nat, budget: Budget)
    returns (r: Result<(seq<Member>, string), Error>)
    modifies budget
    ensures var read := ReadMembers(text, []);
      && (r.Ok? <==> read.Some? && CleanMembers(floats, read.value.0, depth) && KeysDistinct(read.value.0)
                     && NodesMembers(read.value.0) <= old(budget.remaining))
      && (r.Ok? ==> read == Some(r.value) && budget.remaining == old(budget.remaining) - NodesMembers(r.value.0))
    decreases |text|, 2
  {
    var result: seq<Member> := [];
    var s := text;
    ghost var before := budget.remaining;
    while true
      invariant |s| <= |text|
      invariant ReadMembers(text, []) == ReadMembers(s, result)
      invariant CleanMembers(floats, result, depth) && KeysDistinct(result)
      invariant NodesMembers(result) <= before && budget.remaining == before - NodesMembers(result)
      decreases |s|
    {
      ghost var more: seq<Member> := [];
      if ReadMembers(s, result).Some? {
        more := ReadMembersKeeps(s, result);
        MembersGrow(floats, result, more, depth);
        JoinedKeys(result, more);
      }
      var key := ReadKey(s);
      if key.None? {
        return Err(Malformed);
      }
      var enough := budget.Consume();
      if !enough {
        return Err(Complexity);
      }
      if key.value.0 in Keys(result) {
        return Err(MappingKey);
      }
      var item := ParseValue(floats, key.value.1, depth, budget);
      if item.Err? {
        return Err(item.error);
      }
      var m := Member(key.value.0, item.value.0);
      MembersGrow(floats, result, [m], depth);
      JoinedKeys(result, [m]);
      var t := SkipSpace(item.value.1);
      result := result + [m];
      if t == [] || (t[0] != ',' && t[0] != '}') {
        return Err(Malformed);
      }
      if t[0] == '}' {
        return Ok((result, t[1..]));
      }
      s := t[1..];
    }
  }

  /** One object within a node count. */
  method Parse(floats: Floats, text: string, nodes: nat) returns (r: Result<seq<Member>, Error>)
    ensures r.Ok? <==> Accepted(floats, text, nodes).Some?
    ensures r.Ok? ==> Accepted(floats, text, nodes) == Some(r.value)
  {
    var budget := new Budget(nodes);
    var root := ParseValue(floats, text, 0, budget);
    if ReadValue(text).Some? {
      CleanIsBounded(floats, ReadValue(text).value.0, 0);
    }
    if root.Err? {
      return Err(root.error);
    }
    if SkipSpace(root.value.1) != [] || !root.value.0.Obj? {
      return Err(Malformed);
    }
    return Ok(root.value.0.members);
  }

  /** A mapping from outside this service's own state. */
  method Mapping(floats: Floats, text: string) returns (r: Result<seq<Member>, Error>)
    ensures r.Ok? <==> Accepted(floats, text, MAX_NODES).Some?
    ensures r.Ok? ==> Accepted(floats, text, MAX_NODES) == Some(r.value)
  {
    r := Parse(floats, text, MAX_NODES);
  }

  /** A mapping from a file this service wrote, read whole. */
  method OwnMapping(floats: Floats, text: string) returns (r: Result<seq<Member>, Error>)
    ensures r.Ok? <==> Accepted(floats, text, UNBOUNDED).Some?
    ensures r.Ok? ==> Accepted(floats, text, UNBOUNDED) == Some(r.value)
  {
    r := Parse(floats, text, UNBOUNDED);
  }

  // ----- The parser undoes the printer -----

  lemma {:induction false} InsertNodes(m: Member, members: seq<Member>)
    ensures NodesMembers(Insert(m, members)) == 1 + Nodes(m.value) + NodesMembers(members)
  {
    var r := Insert(m, members);
    if members == [] || Less(m.key, members[0].key) {
      assert r[1..] == members;
    } else {
      InsertNodes(m, members[1..]);
      assert r[1..] == Insert(m, members[1..]);
    }
  }

  lemma {:induction false} SortNodes(members: seq<Member>)
    ensures NodesMembers(Sort(members)) == NodesMembers(members)
  {
    if members != [] {
      SortNodes(members[1..]);
      InsertNodes(members[0], Sort(members[1..]));
    }
  }

  lemma {:induction false} HeightBounds(members: seq<Member>, h: nat)
    ensures HeightMembers(members) <= h <==> forall i :: 0 <= i < |members| ==> 1 + Height(members[i].value) <= h
  {
    if members != [] {
      HeightBounds(members[1..], h);
      assert members == [members[0]] + members[1..];
    }
  }

  lemma NoHigher(a: seq<Member>, b: seq<Member>)
    requires multiset(a) == multiset(b)
    ensures HeightMembers(a) <= HeightMembers(b)
  {
    var h := HeightMembers(b);
    HeightBounds(a, h);
    HeightBounds(b, h);
    forall i | 0 <= i < |a| ensures 1 + Height(a[i].value) <= h {
      assert a[i] in multiset(b);
      var j :| 0 <= j < |b| && b[j] == a[i];
    }
  }

  lemma SortHeight(members: seq<Member>)
    ensures HeightMembers(Sort(members)) == HeightMembers(members)
  {
    NoHigher(Sort(members), members);
    NoHigher(members, Sort(members));
  }

  lemma {:induction false} InsertFinite(floats: Floats, m: Member, members: seq<Member>)
    ensures FiniteMembers(floats, Insert(m, members)) <==> Finite(floats, m.value) && FiniteMembers(floats, members)
  {
    var r := Insert(m, members);
    if members == [] || Less(m.key, members[0].key) {
      assert r[1..] == members;
    } else {
      InsertFinite(floats, m, members[1..]);
      assert r[1..] == Insert(m, members[1..]);
    }
  }

  lemma {:induction false} SortFinite(floats: Floats, members: seq<Member>)
    ensures FiniteMembers(floats, Sort(members)) <==> FiniteMembers(floats, members)
  {
    if members != [] {
      SortFinite(floats, members[1..]);
      InsertFinite(floats, members[0], Sort(members[1..]));
    }
  }

  lemma {:induction false} SortedKeysDistinct(members: seq<Member>)
    requires Sorted(members)
    ensures KeysDistinct(members)
  {
    if members != [] {
      LessIrreflexive(members[0].key);
      SortedKeysDistinct(members[1..]);
    }
  }

  lemma {:induction false} OrderedIsDistinct(v: Value)
    requires Ordered(v)
    ensures Distinct(v)
    decreases v
  {
    match v
    case Arr(items) =>
      forall i | 0 <= i < |items| ensures Distinct(items[i]) { OrderedIsDistinct(items[i]); }
    case Obj(members) =>
      SortedKeysDistinct(members);
      forall i | 0 <= i < |members| ensures Distinct(members[i].value) { OrderedIsDistinct(members[i].value); }
    case _ =>
  }

  /** Normalising changes neither the size nor the depth of a value, and leaves it finite. */
  lemma {:induction false} NormMeasures(floats: Floats, v: Value)
    requires FloatRule(floats) && Norm(floats, v).Some?
    ensures var n := Norm(floats, v).value;
            Nodes(n) == Nodes(v) && Height(n) == Height(v) && Finite(floats, n)
    decreases v, 1
  {
    match v
    case Arr(items) => NormItemsMeasures(floats, items);
    case Obj(members) =>
      NormMembersMeasures(floats, members);
      SortNodes(NormMembers(floats, members).value);
      SortHeight(NormMembers(floats, members).value);
      SortFinite(floats, NormMembers(floats, members).value);
    case _ =>
  }

  lemma {:induction false} NormItemsMeasures(floats: Floats, items: seq<Value>)
    requires FloatRule(floats) && NormItems(floats, items).Some?
    ensures var n := NormItems(floats, items).value;
            NodesItems(n) == NodesItems(items) && HeightItems(n) == HeightItems(items) && FiniteItems(floats, n)
    decreases items, 0
  {
    if items != [] {
      NormMeasures(floats, items[0]);
      NormItemsMeasures(floats, items[1..]);
      assert NormItems(floats, items).value[1..] == NormItems(floats, items[1..]).value;
    }
  }

  lemma {:induction false} NormMembersMeasures(floats: Floats, members: seq<Member>)
    requires FloatRule(floats) && NormMembers(floats, members).Some?
    ensures var n := NormMembers(floats, members).value;
            NodesMembers(n) == NodesMembers(members) && HeightMembers(n) == HeightMembers(members)
            && FiniteMembers(floats, n)
    decreases members, 0
  {
    if members != [] {
      NormMeasures(floats, members[0].value);
      NormMembersMeasures(floats, members[1..]);
      assert NormMembers(floats, members).value[1..] == NormMembers(floats, members[1..]).value;
    }
  }

  /** The strict parser undoes the canonical printer exactly within its two bounds: it gives
      back the normal form of what was printed, and refuses every deeper or larger object. */
  lemma ParserUndoesPrinter(floats: Floats, v: Value, nodes: nat)
    requires FloatRule(floats) && v.Obj? && Distinct(v) && Text(floats, v).Some?
    ensures Accepted(floats, Text(floats, v).value, nodes) ==
            if Height(v) <= MAX_DEPTH && Nodes(v) <= nodes
            then Some(Norm(floats, v).value.members) else None
  {
    var n := Norm(floats, v).value;
    RenderRoundTrip(n);
    NormMeasures(floats, v);
    NormIsOrdered(floats, v);
    OrderedIsDistinct(n);
  }
}
