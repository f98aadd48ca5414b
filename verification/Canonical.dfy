/** The one deterministic encoding behind every digest and identity: sorted keys, compact
    separators, normalised number text. */
module Canonical {
  import opened Basics
  import opened JsonText

  /** The shortest round-trip text of a finite float, and None for a number no finite float
      holds. Only what `FloatRule` says of it is used. */
  type Floats = Number -> Option<Number>

  ghost predicate FloatRule(floats: Floats)
  {
    forall t: Number :: floats(t).Some? ==> HasMark(floats(t).value) && floats(floats(t).value) == floats(t)
  }

  function NumberText(floats: Floats, raw: Number): Option<Number>
  {
    if HasMark(raw) then floats(raw) else Some(if raw == "-0" then "0" else raw)
  }

  // ----- What an integer says -----

  /** The number an integer literal writes: a sign and decimal digits. */
  function IntegerValue(raw: Number): int
    requires !HasMark(raw)
  {
    UnmarkedIsNumeral(raw);
    var n: int := NumeralValue(Magnitude(raw));
    if raw[0] == '-' then -n else n
  }

  /** The one decimal text of an integer. */
  function IntegerText(n: int): string { if n < 0 then "-" + Decimal(-n) else Decimal(n) }

  lemma NumeralText(digits: string)
    requires IsNumeral(digits)
    ensures IntegerText(NumeralValue(digits)) == digits
    ensures digits[0] != '0' ==> NumeralValue(digits) > 0
  {
    NumeralIsDecimal(digits);
    if digits[0] != '0' {
      PositiveValue(digits);
    }
  }

  lemma NegativeText(digits: string, n: nat)
    requires n > 0 && IntegerText(n) == digits
    ensures IntegerText(0 - n) == "-" + digits
  {
  }

  /** An integer keeps its exact decimal text, whatever its length; only `-0` is not its own. */
  lemma IntegerIsExact(floats: Floats, raw: Number)
    requires !HasMark(raw)
    ensures NumberText(floats, raw) == Some(IntegerText(IntegerValue(raw)))
    ensures NumberText(floats, raw) == Some(raw) <==> raw != "-0"
  {
    UnmarkedIsNumeral(raw);
    var digits := Magnitude(raw);
    NumeralText(digits);
    if raw[0] == '-' {
      assert raw == "-" + digits;
      if digits[0] == '0' {
        assert digits == "0";
        ZeroHasOneValue();
      } else {
        NegativeText(digits, NumeralValue(digits));
      }
    }
  }

  /** Two integers have one text exactly when they are one number. */
  lemma IntegersAgree(floats: Floats, a: Number, b: Number)
    requires !HasMark(a) && !HasMark(b)
    ensures NumberText(floats, a) == NumberText(floats, b) <==> IntegerValue(a) == IntegerValue(b)
  {
    IntegerIsExact(floats, a);
    IntegerIsExact(floats, b);
    ZeroHasOneValue();
  }

  lemma ZeroHasOneValue()
    ensures !HasMark("0") && !HasMark("-0") && IntegerValue("0") == IntegerValue("-0") == 0
  {
    assert Magnitude("-0") == "0" && NumeralValue("0") == 0;
  }

  /** A float keeps a float's text, so it is never taken for the integer it may equal. */
  lemma FloatIsNoInteger(floats: Floats, a: Number, b: Number)
    requires FloatRule(floats) && HasMark(a) && !HasMark(b)
    ensures NumberText(floats, a) != NumberText(floats, b)
  {
  }

  // ----- Sorting members by key -----

  function Keys(members: seq<Member>): set<string>
  {
    if members == [] then {} else {members[0].key} + Keys(members[1..])
  }

  predicate KeysDistinct(members: seq<Member>)
  {
    members == [] || (members[0].key !in Keys(members[1..]) && KeysDistinct(members[1..]))
  }

  lemma {:induction false} JoinedKeys(a: seq<Member>, b: seq<Member>)
    ensures Keys(a + b) == Keys(a) + Keys(b)
    ensures KeysDistinct(a + b) <==> KeysDistinct(a) && KeysDistinct(b) && Keys(a) !! Keys(b)
  {
    if a == [] {
      assert a + b == b;
    } else {
      JoinedKeys(a[1..], b);
      assert (a + b)[0] == a[0] && (a + b)[1..] == a[1..] + b;
    }
  }

  predicate Below(key: string, keys: set<string>)
  {
    forall k :: k in keys ==> Less(key, k)
  }

  predicate Sorted(members: seq<Member>)
  {
    members == [] || (Below(members[0].key, Keys(members[1..])) && Sorted(members[1..]))
  }

  function Insert(m: Member, members: seq<Member>): (r: seq<Member>)
    ensures |r| == |members| + 1
    ensures Keys(r) == {m.key} + Keys(members)
    ensures multiset(r) == multiset{m} + multiset(members)
  {
    if members == [] || Less(m.key, members[0].key) then
      assert ([m] + members)[1..] == members;
      [m] + members
    else
      var tail := Insert(m, members[1..]);
      assert ([members[0]] + tail)[1..] == tail;
      assert members == [members[0]] + members[1..];
      [members[0]] + tail
  }

  function Sort(members: seq<Member>): (r: seq<Member>)
    ensures |r| == |members|
    ensures Keys(r) == Keys(members)
    ensures multiset(r) == multiset(members)
  {
    if members == [] then []
    else
      assert members == [members[0]] + members[1..];
      Insert(members[0], Sort(members[1..]))
  }

  lemma {:induction false} InsertSorts(m: Member, members: seq<Member>)
    requires Sorted(members) && m.key !in Keys(members)
    ensures Sorted(Insert(m, members))
  {
    if members == [] {
      assert [m][1..] == [];
    } else {
      var head, tail := members[0], members[1..];
      LessTotal(m.key, head.key);
      if Less(m.key, head.key) {
        assert ([m] + members)[1..] == members;
        forall k | k in Keys(tail) ensures Less(m.key, k) {
          LessTransitive(m.key, head.key, k);
        }
      } else {
        InsertSorts(m, tail);
        assert Insert(m, members)[1..] == Insert(m, tail);
      }
    }
  }

  lemma {:induction false} SortSorts(members: seq<Member>)
    requires KeysDistinct(members)
    ensures Sorted(Sort(members))
  {
    if members != [] {
      SortSorts(members[1..]);
      InsertSorts(members[0], Sort(members[1..]));
    }
  }

  // ----- The normal form, and the canonical text -----

  function Norm(floats: Floats, v: Value): Option<Value>
    decreases v
  {
    match v
    case Num(raw) =>
      var text :- NumberText(floats, raw);
      Some(Num(text))
    case Arr(items) =>
      var normal :- NormItems(floats, items);
      Some(Arr(normal))
    case Obj(members) =>
      var normal :- NormMembers(floats, members);
      Some(Obj(Sort(normal)))
    case _ => Some(v)
  }

  function NormItems(floats: Floats, items: seq<Value>): (r: Option<seq<Value>>)
    ensures r.Some? ==> |r.value| == |items|
    decreases items
  {
    if items == [] then Some([])
    else
      var head :- Norm(floats, items[0]);
      var tail :- NormItems(floats, items[1..]);
      Some([head] + tail)
  }

  function NormMembers(floats: Floats, members: seq<Member>): (r: Option<seq<Member>>)
    ensures r.Some? ==> |r.value| == |members| && Keys(r.value) == Keys(members)
    ensures r.Some? ==> (KeysDistinct(r.value) <==> KeysDistinct(members))
    ensures r.Some? ==> forall i :: 0 <= i < |members| ==> r.value[i].key == members[i].key
    decreases members
  {
    if members == [] then Some([])
    else
      var head :- Norm(floats, members[0].value);
      var tail :- NormMembers(floats, members[1..]);
      var m := Member(members[0].key, head);
      assert ([m] + tail)[1..] == tail;
      Some([m] + tail)
  }

  /** The canonical text of a value, if it has one. */
  function Text(floats: Floats, v: Value): Option<string>
  {
    var normal :- Norm(floats, v);
    Some(Render(normal))
  }

  /** Whether two values are one record: a value with no canonical form equals nothing. */
  predicate Equal(floats: Floats, left: Value, right: Value)
  {
    Text(floats, left).Some? && Text(floats, left) == Text(floats, right)
  }

  // ----- What a value means -----

  /** A document with every trace of spelling gone: an integer is its value, a float is the
      shortest text of its nearest one, and a field map has no order. */
  datatype Doc =
    | DNull
    | DBool(b: bool)
    | DInt(n: int)
    | DFloat(text: Number)
    | DStr(s: string)
    | DArr(items: seq<Doc>)
    | DObj(fields: map<string, Doc>)

  /** Object keys are distinct at every level, as in every parsed value. */
  predicate Distinct(v: Value)
  {
    match v
    case Arr(items) => forall i :: 0 <= i < |items| ==> Distinct(items[i])
    case Obj(members) =>
      KeysDistinct(members) && forall i :: 0 <= i < |members| ==> Distinct(members[i].value)
    case _ => true
  }

  function Meaning(floats: Floats, v: Value): Option<Doc>
    decreases v
  {
    match v
    case Null => Some(DNull)
    case Bool(b) => Some(DBool(b))
    case Str(s) => Some(DStr(s))
    case Num(raw) =>
      if HasMark(raw) then
        var text :- floats(raw);
        Some(DFloat(text))
      else
        Some(DInt(IntegerValue(raw)))
    case Arr(items) =>
      var docs :- MeaningItems(floats, items);
      Some(DArr(docs))
    case Obj(members) =>
      var fields :- MeaningMembers(floats, members);
      Some(DObj(fields))
  }

  function MeaningItems(floats: Floats, items: seq<Value>): Option<seq<Doc>>
    decreases items
  {
    if items == [] then Some([])
    else
      var head :- Meaning(floats, items[0]);
      var tail :- MeaningItems(floats, items[1..]);
      Some([head] + tail)
  }

  function MeaningMembers(floats: Floats, members: seq<Member>): Option<map<string, Doc>>
    decreases members
  {
    if members == [] then Some(map[])
    else
      var head :- Meaning(floats, members[0].value);
      var tail :- MeaningMembers(floats, members[1..]);
      Some(tail[members[0].key := head])
  }

  /** The meaning of a value that is already in normal form. */
  function DocOf(v: Value): Doc
    decreases v
  {
    match v
    case Null => DNull
    case Bool(b) => DBool(b)
    case Str(s) => DStr(s)
    case Num(text) => if HasMark(text) then DFloat(text) else DInt(IntegerValue(text))
    case Arr(items) => DArr(DocItems(items))
    case Obj(members) => DObj(DocFields(members))
  }

  function DocItems(items: seq<Value>): seq<Doc>
    decreases items
  {
    if items == [] then [] else [DocOf(items[0])] + DocItems(items[1..])
  }

  function DocFields(members: seq<Member>): (r: map<string, Doc>)
    ensures r.Keys == Keys(members)
    decreases members
  {
    if members == [] then map[] else DocFields(members[1..])[members[0].key := DocOf(members[0].value)]
  }

  lemma {:induction false} DocFieldsInsert(m: Member, members: seq<Member>)
    requires m.key !in Keys(members)
    ensures DocFields(Insert(m, members)) == DocFields(members)[m.key := DocOf(m.value)]
  {
    var r := Insert(m, members);
    if members == [] || Less(m.key, members[0].key) {
      assert r[1..] == members;
    } else {
      var head, tail := members[0], members[1..];
      DocFieldsInsert(m, tail);
      assert r[0] == head && r[1..] == Insert(m, tail);
      SwapUpdates(DocFields(tail), m.key, DocOf(m.value), head.key, DocOf(head.value));
    }
  }

  lemma SwapUpdates(fields: map<string, Doc>, a: string, x: Doc, b: string, y: Doc)
    requires a != b
    ensures fields[a := x][b := y] == fields[b := y][a := x]
  {
  }

  lemma {:induction false} DocFieldsSort(members: seq<Member>)
    requires KeysDistinct(members)
    ensures DocFields(Sort(members)) == DocFields(members)
  {
    if members != [] {
      DocFieldsSort(members[1..]);
      DocFieldsInsert(members[0], Sort(members[1..]));
    }
  }

  lemma {:induction false} MeaningIsDoc(floats: Floats, v: Value)
    requires FloatRule(floats) && Distinct(v)
    ensures Norm(floats, v).None? ==> Meaning(floats, v).None?
    ensures Norm(floats, v).Some? ==> Meaning(floats, v) == Some(DocOf(Norm(floats, v).value))
    decreases v, 1
  {
    match v
    case Num(raw) =>
      if !HasMark(raw) {
        ZeroHasOneValue();
      }
    case Arr(items) => MeaningIsDocItems(floats, items);
    case Obj(members) =>
      MeaningIsDocMembers(floats, members);
      var normal := NormMembers(floats, members);
      if normal.Some? {
        DocFieldsSort(normal.value);
      }
    case _ =>
  }

  lemma {:induction false} MeaningIsDocItems(floats: Floats, items: seq<Value>)
    requires FloatRule(floats) && forall i :: 0 <= i < |items| ==> Distinct(items[i])
    ensures NormItems(floats, items).None? ==> MeaningItems(floats, items).None?
    ensures NormItems(floats, items).Some? ==>
              MeaningItems(floats, items) == Some(DocItems(NormItems(floats, items).value))
    decreases items, 0
  {
    if items != [] {
      MeaningIsDoc(floats, items[0]);
      MeaningIsDocItems(floats, items[1..]);
      if NormItems(floats, items).Some? {
        assert NormItems(floats, items).value[1..] == NormItems(floats, items[1..]).value;
      }
    }
  }

  lemma {:induction false} MeaningIsDocMembers(floats: Floats, members: seq<Member>)
    requires FloatRule(floats) && forall i :: 0 <= i < |members| ==> Distinct(members[i].value)
    ensures NormMembers(floats, members).None? ==> MeaningMembers(floats, members).None?
    ensures NormMembers(floats, members).Some? ==>
              MeaningMembers(floats, members) == Some(DocFields(NormMembers(floats, members).value))
    decreases members, 0
  {
    if members != [] {
      MeaningIsDoc(floats, members[0].value);
      MeaningIsDocMembers(floats, members[1..]);
      if NormMembers(floats, members).Some? {
        assert NormMembers(floats, members).value[1..] == NormMembers(floats, members[1..]).value;
      }
    }
  }

  /** Every object in it is sorted and no zero has a sign, at every level. */
  predicate Ordered(v: Value)
  {
    match v
    case Arr(items) => forall i :: 0 <= i < |items| ==> Ordered(items[i])
    case Obj(members) => Sorted(members) && forall i :: 0 <= i < |members| ==> Ordered(members[i].value)
    case Num(text) => text != "-0"
    case _ => true
  }

  lemma {:induction false} NormIsOrdered(floats: Floats, v: Value)
    requires FloatRule(floats) && Distinct(v) && Norm(floats, v).Some?
    ensures Ordered(Norm(floats, v).value)
    decreases v, 1
  {
    match v
    case Arr(items) => NormItemsOrdered(floats, items);
    case Obj(members) =>
      NormMembersOrdered(floats, members);
      var normal := NormMembers(floats, members).value;
      SortSorts(normal);
      var sorted := Sort(normal);
      forall i | 0 <= i < |sorted| ensures Ordered(sorted[i].value) {
        assert sorted[i] in multiset(sorted) && sorted[i] in normal;
      }
    case _ =>
  }

  lemma {:induction false} NormItemsOrdered(floats: Floats, items: seq<Value>)
    requires FloatRule(floats) && forall i :: 0 <= i < |items| ==> Distinct(items[i])
    requires NormItems(floats, items).Some?
    ensures forall i :: 0 <= i < |items| ==> Ordered(NormItems(floats, items).value[i])
    decreases items, 0
  {
    if items != [] {
      NormIsOrdered(floats, items[0]);
      NormItemsOrdered(floats, items[1..]);
    }
  }

  lemma {:induction false} NormMembersOrdered(floats: Floats, members: seq<Member>)
    requires FloatRule(floats) && forall i :: 0 <= i < |members| ==> Distinct(members[i].value)
    requires NormMembers(floats, members).Some?
    ensures forall i :: 0 <= i < |members| ==> Ordered(NormMembers(floats, members).value[i].value)
    decreases members, 0
  {
    if members != [] {
      NormIsOrdered(floats, members[0].value);
      NormMembersOrdered(floats, members[1..]);
    }
  }

  /** An integer with no sign on its zero is the decimal text of its value. */
  lemma NormalInteger(raw: Number)
    requires !HasMark(raw) && raw != "-0"
    ensures raw == IntegerText(IntegerValue(raw))
  {
    IntegerIsExact(t => None, raw);
  }

  lemma {:induction false} DocIsInjective(a: Value, b: Value)
    requires Ordered(a) && Ordered(b)
    requires DocOf(a) == DocOf(b)
    ensures a == b
    decreases a, 1
  {
    match a
    case Num(text) =>
      if !HasMark(text) {
        NormalInteger(text);
        NormalInteger(b.text);
      }
    case Arr(items) => DocItemsInjective(items, b.items);
    case Obj(members) => DocFieldsInjective(members, b.members);
    case _ =>
  }

  lemma {:induction false} DocItemsInjective(a: seq<Value>, b: seq<Value>)
    requires forall i :: 0 <= i < |a| ==> Ordered(a[i])
    requires forall i :: 0 <= i < |b| ==> Ordered(b[i])
    requires DocItems(a) == DocItems(b)
    ensures a == b
    decreases a, 0
  {
    if a != [] && b != [] {
      assert DocItems(a)[1..] == DocItems(a[1..]) && DocItems(b)[1..] == DocItems(b[1..]);
      assert DocItems(a)[0] == DocOf(a[0]) && DocItems(b)[0] == DocOf(b[0]);
      DocIsInjective(a[0], b[0]);
      DocItemsInjective(a[1..], b[1..]);
      assert a == [a[0]] + a[1..] && b == [b[0]] + b[1..];
    }
  }

  lemma HeadOfSorted(members: seq<Member>)
    requires members != [] && Sorted(members)
    ensures members[0].key !in Keys(members[1..])
    ensures DocFields(members[1..]) == DocFields(members) - {members[0].key}
    ensures DocFields(members)[members[0].key] == DocOf(members[0].value)
  {
    LessIrreflexive(members[0].key);
  }

  lemma FirstKeysAgree(a: seq<Member>, b: seq<Member>)
    requires a != [] && b != [] && Sorted(a) && Sorted(b) && Keys(a) == Keys(b)
    ensures a[0].key == b[0].key
  {
    assert a[0].key in Keys(b) && b[0].key in Keys(a);
    LessTotal(a[0].key, b[0].key);
  }

  lemma {:induction false} DocFieldsInjective(a: seq<Member>, b: seq<Member>)
    requires Sorted(a) && Sorted(b)
    requires forall i :: 0 <= i < |a| ==> Ordered(a[i].value)
    requires forall i :: 0 <= i < |b| ==> Ordered(b[i].value)
    requires DocFields(a) == DocFields(b)
    ensures a == b
    decreases a, 0
  {
    assert Keys(a) == Keys(b);
    assert a != [] ==> a[0].key in Keys(a);
    assert b != [] ==> b[0].key in Keys(b);
    if a != [] && b != [] {
      HeadOfSorted(a);
      HeadOfSorted(b);
      FirstKeysAgree(a, b);
      DocIsInjective(a[0].value, b[0].value);
      DocFieldsInjective(a[1..], b[1..]);
      assert a == [a[0]] + a[1..] && b == [b[0]] + b[1..];
    }
  }

  /** Values with a canonical form have the same text exactly when they mean the same
      document, whatever order their members are in at any level. */
  lemma CanonicalTextIsMeaning(floats: Floats, a: Value, b: Value)
    requires FloatRule(floats) && Distinct(a) && Distinct(b)
    ensures Text(floats, a).Some? <==> Meaning(floats, a).Some?
    ensures Text(floats, a).Some? && Text(floats, b).Some? ==>
              (Text(floats, a) == Text(floats, b) <==> Meaning(floats, a) == Meaning(floats, b))
  {
    MeaningIsDoc(floats, a);
    MeaningIsDoc(floats, b);
    if Norm(floats, a).Some? && Norm(floats, b).Some? {
      var x, y := Norm(floats, a).value, Norm(floats, b).value;
      RenderRoundTrip(x);
      RenderRoundTrip(y);
      NormIsOrdered(floats, a);
      NormIsOrdered(floats, b);
      if DocOf(x) == DocOf(y) {
        DocIsInjective(x, y);
      }
    }
  }

  // ----- A normal form is its own normal form -----

  lemma {:induction false} SortSorted(members: seq<Member>)
    requires Sorted(members)
    ensures Sort(members) == members
  {
    if members != [] {
      SortSorted(members[1..]);
      assert members == [members[0]] + members[1..];
      assert members[1..] != [] ==> members[1].key in Keys(members[1..]);
    }
  }

  lemma {:induction false} NormalNumber(floats: Floats, raw: Number)
    requires FloatRule(floats) && NumberText(floats, raw).Some?
    ensures NumberText(floats, NumberText(floats, raw).value) == NumberText(floats, raw)
  {
    if raw == "-0" {
      assert !HasMark("0");
    }
  }

  /** Normalising is done once for good: its result is its own normal form. */
  lemma {:induction false} NormIsStable(floats: Floats, v: Value)
    requires FloatRule(floats) && Distinct(v) && Norm(floats, v).Some?
    ensures Norm(floats, Norm(floats, v).value) == Norm(floats, v)
    decreases v, 1
  {
    match v
    case Num(raw) => NormalNumber(floats, raw);
    case Arr(items) => NormItemsStable(floats, items);
    case Obj(members) =>
      var normal := NormMembers(floats, members).value;
      NormMembersStable(floats, members);
      NormSort(floats, normal);
      SortSorts(normal);
      SortSorted(Sort(normal));
    case _ =>
  }

  lemma {:induction false} NormItemsStable(floats: Floats, items: seq<Value>)
    requires FloatRule(floats) && NormItems(floats, items).Some?
    requires forall i :: 0 <= i < |items| ==> Distinct(items[i])
    ensures NormItems(floats, NormItems(floats, items).value) == NormItems(floats, items)
    decreases items, 0
  {
    if items != [] {
      NormIsStable(floats, items[0]);
      NormItemsStable(floats, items[1..]);
      assert NormItems(floats, items).value[1..] == NormItems(floats, items[1..]).value;
    }
  }

  lemma {:induction false} NormMembersStable(floats: Floats, members: seq<Member>)
    requires FloatRule(floats) && NormMembers(floats, members).Some?
    requires forall i :: 0 <= i < |members| ==> Distinct(members[i].value)
    ensures NormMembers(floats, NormMembers(floats, members).value) == NormMembers(floats, members)
    decreases members, 0
  {
    if members != [] {
      NormIsStable(floats, members[0].value);
      NormMembersStable(floats, members[1..]);
      assert NormMembers(floats, members).value[1..] == NormMembers(floats, members[1..]).value;
    }
  }

  // ----- The writer -----

  /** The buffer the encoding is appended to. */
  class Output {
    var text: string

    constructor ()
      ensures text == []
    {
      text := [];
    }
  }

  lemma {:induction false} NormItemsAt(floats: Floats, items: seq<Value>)
    ensures NormItems(floats, items).Some? <==> forall i :: 0 <= i < |items| ==> Norm(floats, items[i]).Some?
    ensures NormItems(floats, items).Some? ==>
              forall i :: 0 <= i < |items| ==> Norm(floats, items[i]) == Some(NormItems(floats, items).value[i])
  {
    if items != [] {
      NormItemsAt(floats, items[1..]);
      assert items == [items[0]] + items[1..];
    }
  }

  lemma {:induction false} NormMembersAt(floats: Floats, members: seq<Member>)
    ensures NormMembers(floats, members).Some? <==>
              forall i :: 0 <= i < |members| ==> Norm(floats, members[i].value).Some?
    ensures NormMembers(floats, members).Some? ==>
              forall i :: 0 <= i < |members| ==>
                Norm(floats, members[i].value) == Some(NormMembers(floats, members).value[i].value)
  {
    if members != [] {
      NormMembersAt(floats, members[1..]);
      assert members == [members[0]] + members[1..];
    }
  }

  lemma {:induction false} NormInsert(floats: Floats, m: Member, members: seq<Member>)
    requires Norm(floats, m.value).Some? && NormMembers(floats, members).Some?
    ensures NormMembers(floats, Insert(m, members)) ==
            Some(Insert(Member(m.key, Norm(floats, m.value).value), NormMembers(floats, members).value))
  {
    if members == [] || Less(m.key, members[0].key) {
      assert ([m] + members)[1..] == members;
    } else {
      NormInsert(floats, m, members[1..]);
      var r := Insert(m, members);
      assert r[0] == members[0] && r[1..] == Insert(m, members[1..]);
      var normal := NormMembers(floats, members).value;
      assert normal[1..] == NormMembers(floats, members[1..]).value;
    }
  }

  /** Sorting before normalising, as the writer does, is sorting after it. */
  lemma {:induction false} NormSort(floats: Floats, members: seq<Member>)
    ensures NormMembers(floats, Sort(members)).Some? <==> NormMembers(floats, members).Some?
    ensures NormMembers(floats, members).Some? ==>
              NormMembers(floats, Sort(members)) == Some(Sort(NormMembers(floats, members).value))
  {
    NormMembersAt(floats, members);
    NormMembersAt(floats, Sort(members));
    if NormMembers(floats, members).Some? {
      if members != [] {
        NormSort(floats, members[1..]);
        NormInsert(floats, members[0], Sort(members[1..]));
        var normal := NormMembers(floats, members).value;
        assert normal[1..] == NormMembers(floats, members[1..]).value;
      }
    } else {
      var i :| 0 <= i < |members| && Norm(floats, members[i].value).None?;
      assert members[i] in multiset(members) && members[i] in multiset(Sort(members));
      assert members[i] in Sort(members);
    }
  }

  lemma RegroupJoined(head: string, tail: string, last: string)
    ensures head + "," + (tail + "," + last) == head + "," + tail + "," + last
  {
  }

  lemma {:induction false} RenderItemsAppend(done: seq<Value>, v: Value)
    ensures RenderItems(done + [v]) == if done == [] then Render(v) else RenderItems(done) + "," + Render(v)
  {
    if |done| > 0 {
      RenderItemsAppend(done[1..], v);
      assert (done + [v])[1..] == done[1..] + [v];
      if |done| > 1 {
        RegroupJoined(Render(done[0]), RenderItems(done[1..]), Render(v));
      }
    }
  }

  lemma {:induction false} RenderMembersAppend(done: seq<Member>, m: Member)
    ensures RenderMembers(done + [m]) ==
            if done == [] then RenderMember(m) else RenderMembers(done) + "," + RenderMember(m)
  {
    if |done| > 0 {
      RenderMembersAppend(done[1..], m);
      assert (done + [m])[1..] == done[1..] + [m];
      if |done| > 1 {
        RegroupJoined(RenderMember(done[0]), RenderMembers(done[1..]), RenderMember(m));
      }
    }
  }

  lemma {:induction false} NormItemsAppend(floats: Floats, items: seq<Value>, v: Value)
    requires NormItems(floats, items).Some? && Norm(floats, v).Some?
    ensures NormItems(floats, items + [v]) == Some(NormItems(floats, items).value + [Norm(floats, v).value])
  {
    NormItemsAt(floats, items);
    NormItemsAt(floats, items + [v]);
    assert NormItems(floats, items + [v]).value == NormItems(floats, items).value + [Norm(floats, v).value];
  }

  lemma {:induction false} NormMembersAppend(floats: Floats, members: seq<Member>, m: Member)
    requires NormMembers(floats, members).Some? && Norm(floats, m.value).Some?
    ensures NormMembers(floats, members + [m]) ==
            Some(NormMembers(floats, members).value + [Member(m.key, Norm(floats, m.value).value)])
  {
    NormMembersAt(floats, members);
    NormMembersAt(floats, members + [m]);
    assert NormMembers(floats, members + [m]).value ==
           NormMembers(floats, members).value + [Member(m.key, Norm(floats, m.value).value)];
  }

  lemma Enclosed(before: string, open: string, text: string, close: string)
    ensures before + (open + text) + close == before + (open + text + close)
  {
  }

  /** Appends the canonical text of `v`; what a failed write leaves behind is not used. */
  method WriteValue(floats: Floats, v: Value, output: Output) returns (ok: bool)
    modifies output
    ensures ok <==> Norm(floats, v).Some?
    ensures ok ==> output.text == old(output.text) + Render(Norm(floats, v).value)
    decreases v, 1
  {
    match v
    case Null =>
      output.text := output.text + "null";
      ok := true;
    case Bool(b) =>
      output.text := output.text + if b then "true" else "false";
      ok := true;
    case Num(raw) =>
      var text := NumberText(floats, raw);
      ok := text.Some?;
      if ok {
        output.text := output.text + text.value;
      }
    case Str(s) =>
      output.text := output.text + Quote(s);
      ok := true;
    case Arr(items) =>
      ghost var before := output.text;
      ok := WriteItems(floats, items, output);
      if ok {
        Enclosed(before, "[", RenderItems(NormItems(floats, items).value), "]");
      }
    case Obj(members) =>
      ghost var before := output.text;
      ok := WriteMembers(floats, members, output);
      if ok {
        Enclosed(before, "{", RenderMembers(Sort(NormMembers(floats, members).value)), "}");
      }
  }

  /** What stands in the buffer when the first items of an array are written. */
  ghost function ItemsOpened(before: string, done: seq<Value>): string { before + ("[" + RenderItems(done)) }

  ghost function MembersOpened(before: string, done: seq<Member>): string { before + ("{" + RenderMembers(done)) }

  function Comma(i: nat): string { if i > 0 then "," else "" }

  lemma RegroupOpened(before: string, open: string, text: string, comma: string, more: string)
    ensures before + (open + text) + comma + more == before + (open + (text + comma + more))
  {
  }

  lemma ItemsGrow(before: string, done: seq<Value>, v: Value)
    ensures ItemsOpened(before, done) + Comma(|done|) + Render(v) == ItemsOpened(before, done + [v])
  {
    RenderItemsAppend(done, v);
    RegroupOpened(before, "[", RenderItems(done), Comma(|done|), Render(v));
    if done == [] {
      assert RenderItems(done) + Comma(|done|) + Render(v) == Render(v);
    }
  }

  lemma MembersGrow(before: string, done: seq<Member>, m: Member)
    ensures MembersOpened(before, done) + Comma(|done|) + (Quote(m.key) + ":" + Render(m.value)) ==
            MembersOpened(before, done + [m])
  {
    RenderMembersAppend(done, m);
    RegroupOpened(before, "{", RenderMembers(done), Comma(|done|), RenderMember(m));
    if done == [] {
      assert RenderMembers(done) + Comma(|done|) + RenderMember(m) == RenderMember(m);
    }
  }

  /** The first items are in the buffer, normalised. */
  ghost predicate ItemsWritten(floats: Floats, items: seq<Value>, before: string, done: seq<Value>, text: string)
  {
    NormItems(floats, items) == Some(done) && text == ItemsOpened(before, done)
  }

  ghost predicate MembersWritten(
      floats: Floats, members: seq<Member>, before: string, done: seq<Member>, text: string)
  {
    NormMembers(floats, members) == Some(done) && text == MembersOpened(before, done)
  }

  lemma ItemsStep(floats: Floats, items: seq<Value>, i: nat, before: string, done: seq<Value>, text: string)
    requires i < |items| && ItemsWritten(floats, items[..i], before, done, text)
    requires Norm(floats, items[i]).Some?
    ensures var normal := Norm(floats, items[i]).value;
            ItemsWritten(floats, items[..i + 1], before, done + [normal], text + Comma(i) + Render(normal))
  {
    ItemsGrow(before, done, Norm(floats, items[i]).value);
    NormItemsAppend(floats, items[..i], items[i]);
    assert items[..i] + [items[i]] == items[..i + 1];
  }

  lemma MembersStep(
      floats: Floats, sorted: seq<Member>, i: nat, before: string, done: seq<Member>, text: string)
    requires i < |sorted| && MembersWritten(floats, sorted[..i], before, done, text)
    requires Norm(floats, sorted[i].value).Some?
    ensures var normal := Norm(floats, sorted[i].value).value;
            MembersWritten(
              floats, sorted[..i + 1], before, done + [Member(sorted[i].key, normal)],
              text + Comma(i) + (Quote(sorted[i].key) + ":" + Render(normal)))
  {
    MembersGrow(before, done, Member(sorted[i].key, Norm(floats, sorted[i].value).value));
    NormMembersAppend(floats, sorted[..i], sorted[i]);
    assert sorted[..i] + [sorted[i]] == sorted[..i + 1];
  }

  method WriteItems(floats: Floats, items: seq<Value>, output: Output) returns (ok: bool)
    modifies output
    ensures ok <==> NormItems(floats, items).Some?
    ensures ok ==> output.text == ItemsOpened(old(output.text), NormItems(floats, items).value) + "]"
    decreases items, 0
  {
    ghost var before := output.text;
    ghost var done: seq<Value> := [];
    output.text := output.text + "[";
    for i := 0 to |items|
      invariant ItemsWritten(floats, items[..i], before, done, output.text)
    {
      ghost var text := output.text;
      output.text := output.text + Comma(i);
      ok := WriteValue(floats, items[i], output);
      if !ok {
        NormItemsAt(floats, items);
        return;
      }
      ItemsStep(floats, items, i, before, done, text);
      done := done + [Norm(floats, items[i]).value];
    }
    output.text := output.text + "]";
    assert items[..|items|] == items;
    ok := true;
  }

  method WriteMember(floats: Floats, m: Member, output: Output) returns (ok: bool)
    modifies output
    ensures ok <==> Norm(floats, m.value).Some?
    ensures ok ==>
      output.text == old(output.text) + (Quote(m.key) + ":" + Render(Norm(floats, m.value).value))
    decreases m, 2
  {
    ghost var before := output.text;
    output.text := output.text + Quote(m.key);
    output.text := output.text + ":";
    ok := WriteValue(floats, m.value, output);
    if ok {
      RegroupPair(before, Quote(m.key), Render(Norm(floats, m.value).value));
    }
  }

  lemma RegroupPair(before: string, key: string, text: string)
    ensures before + key + ":" + text == before + (key + ":" + text)
  {
  }

  /** One member without a normal form leaves the whole object without one. */
  lemma MemberMissing(floats: Floats, members: seq<Member>, i: nat)
    requires i < |members| && Norm(floats, Sort(members)[i].value).None?
    ensures NormMembers(floats, members).None?
  {
    NormSort(floats, members);
    NormMembersAt(floats, Sort(members));
  }

  method WriteMembers(floats: Floats, members: seq<Member>, output: Output) returns (ok: bool)
    modifies output
    ensures ok <==> NormMembers(floats, members).Some?
    ensures ok ==>
      output.text == MembersOpened(old(output.text), Sort(NormMembers(floats, members).value)) + "}"
    decreases members, 0
  {
    var sorted := Sort(members);
    ghost var before := output.text;
    ghost var done: seq<Member> := [];
    output.text := output.text + "{";
    for i := 0 to |sorted|
      invariant MembersWritten(floats, sorted[..i], before, done, output.text)
    {
      ghost var text := output.text;
      output.text := output.text + Comma(i);
      SortedIsSmaller(members, i);
      ok := WriteMember(floats, sorted[i], output);
      if !ok {
        MemberMissing(floats, members, i);
        return;
      }
      MembersStep(floats, sorted, i, before, done, text);
      done := done + [Member(sorted[i].key, Norm(floats, sorted[i].value).value)];
    }
    output.text := output.text + "}";
    assert sorted[..|sorted|] == sorted;
    NormSort(floats, members);
    ok := true;
  }

  lemma SortedIsSmaller(members: seq<Member>, i: nat)
    requires i < |members|
    ensures members decreases to Sort(members)[i]
  {
    var m := Sort(members)[i];
    assert m in multiset(Sort(members)) && m in members;
    var j :| 0 <= j < |members| && members[j] == m;
  }

  /** The canonical bytes of a value: its one canonical text, or nothing when it has none. */
  method Bytes(floats: Floats, v: Value) returns (r: Option<string>)
    ensures r == Text(floats, v)
  {
    var output := new Output();
    var ok := WriteValue(floats, v, output);
    assert ok ==> output.text == Render(Norm(floats, v).value);
    r := if ok then Some(output.text) else None;
  }
}
