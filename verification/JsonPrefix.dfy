/** What has been read of a text does not change when more text follows. So an object that was
    written only in part can never be taken for a whole one. */
module JsonPrefix {
  import opened Basics
  import opened JsonText

  lemma {:induction false} SkipExtends(s: string, x: string)
    requires SkipSpace(s) != []
    ensures SkipSpace(s + x) == SkipSpace(s) + x
  {
    if IsSpace(s[0]) {
      SkipExtends(s[1..], x);
      assert (s + x)[1..] == s[1..] + x;
    }
  }

  lemma Hex4Extends(s: string, x: string)
    requires Hex4(s).Some?
    ensures Hex4(s + x) == Hex4(s)
  {
  }

  lemma TailExtends(s: string, x: string, k: nat)
    requires k <= |s|
    ensures (s + x)[k..] == s[k..] + x
  {
  }

  lemma UnicodeEscapeExtends(s: string, x: string)
    requires s != [] && s[0] == 'u' && ReadEscape(s).Some?
    ensures ReadEscape(s + x) == Some((ReadEscape(s).value.0, ReadEscape(s).value.1 + x))
  {
    TailExtends(s, x, 1);
    Hex4Extends(s[1..], x);
    TailExtends(s, x, 5);
    var first := Hex4(s[1..]).value;
    if !(first < 0xD800 || first >= 0xE000) {
      TailExtends(s, x, 7);
      Hex4Extends(s[7..], x);
      TailExtends(s, x, 11);
    }
  }

  lemma EscapeExtends(s: string, x: string)
    requires ReadEscape(s).Some?
    ensures ReadEscape(s + x) == Some((ReadEscape(s).value.0, ReadEscape(s).value.1 + x))
  {
    if s[0] == 'u' {
      UnicodeEscapeExtends(s, x);
    } else {
      TailExtends(s, x, 1);
    }
  }

  lemma {:induction false} CharsExtend(s: string, x: string, read: string)
    requires ReadChars(s, read).Some?
    ensures ReadChars(s + x, read) == Some((ReadChars(s, read).value.0, ReadChars(s, read).value.1 + x))
    decreases |s|
  {
    TailExtends(s, x, 1);
    if s[0] == '"' {
    } else if s[0] == '\\' {
      EscapeExtends(s[1..], x);
      var (c, rest) := ReadEscape(s[1..]).value;
      CharsExtend(rest, x, read + [c]);
    } else {
      CharsExtend(s[1..], x, read + [s[0]]);
    }
  }

  lemma {:induction false} RunExtends(s: string, x: string)
    requires NumberRun(s) < |s|
    ensures NumberRun(s + x) == NumberRun(s)
  {
    if NumberChar(s[0]) {
      RunExtends(s[1..], x);
      TailExtends(s, x, 1);
    }
  }

  /** What was read is whole: a number goes on as long as its characters do, so it is whole only
      when something follows. */
  predicate Whole(r: (Value, string)) { r.0.Num? ==> r.1 != [] }

  lemma WordExtends(s: string, word: string, v: Value, x: string)
    requires word != [] && ReadWord(s, word, v).Some?
    ensures ReadWord(s + x, word, v) == Some((v, ReadWord(s, word, v).value.1 + x))
  {
    TailExtends(s, x, |word|);
    assert (s + x)[..|word|] == s[..|word|];
  }

  lemma NumberExtends(s: string, x: string)
    requires s != [] && NumberRun(s) < |s|
    ensures (s + x)[..NumberRun(s + x)] == s[..NumberRun(s)]
    ensures (s + x)[NumberRun(s + x)..] == s[NumberRun(s)..] + x
  {
    RunExtends(s, x);
    TailExtends(s, x, NumberRun(s));
  }

  lemma ScalarExtends(s: string, x: string)
    requires s != [] && ReadScalar(s).Some? && Whole(ReadScalar(s).value)
    ensures ReadScalar(s + x) == Some((ReadScalar(s).value.0, ReadScalar(s).value.1 + x))
  {
    match s[0]
    case 'n' => WordExtends(s, "null", Null, x);
    case 't' => WordExtends(s, "true", Bool(true), x);
    case 'f' => WordExtends(s, "false", Bool(false), x);
    case '"' =>
      TailExtends(s, x, 1);
      CharsExtend(s[1..], x, []);
    case _ =>
      NumberExtends(s, x);
  }

  lemma {:induction false} ValueExtends(text: string, x: string)
    requires ReadValue(text).Some? && Whole(ReadValue(text).value)
    ensures ReadValue(text + x) == Some((ReadValue(text).value.0, ReadValue(text).value.1 + x))
    decreases |text|, 1
  {
    var s := SkipSpace(text);
    SkipExtends(text, x);
    TailExtends(s, x, 1);
    if s[0] == '[' {
      ArrayExtends(s, x);
    } else if s[0] == '{' {
      ObjectExtends(s, x);
    } else {
      ScalarExtends(s, x);
    }
  }

  lemma {:induction false} ArrayExtends(s: string, x: string)
    requires s != [] && s[0] == '[' && SkipSpace(s) == s && ReadValue(s).Some?
    ensures SkipSpace(s + x) == s + x
    ensures ReadValue(s + x) == Some((ReadValue(s).value.0, ReadValue(s).value.1 + x))
    decreases |s|, 0
  {
    var t := SkipSpace(s[1..]);
    TailExtends(s, x, 1);
    SkipExtends(s, x);
    if t != [] && t[0] == ']' {
      SkipExtends(s[1..], x);
      TailExtends(t, x, 1);
    } else {
      ItemsStartSomewhere(s[1..]);
      SkipExtends(s[1..], x);
      ItemsExtend(s[1..], x, []);
    }
  }

  lemma ItemsStartSomewhere(s: string)
    requires ReadItems(s, []).Some?
    ensures SkipSpace(s) != []
  {
  }

  lemma MembersStartSomewhere(s: string)
    requires ReadMembers(s, []).Some?
    ensures SkipSpace(s) != []
  {
  }

  lemma {:induction false} ObjectExtends(s: string, x: string)
    requires s != [] && s[0] == '{' && SkipSpace(s) == s && ReadValue(s).Some?
    ensures SkipSpace(s + x) == s + x
    ensures ReadValue(s + x) == Some((ReadValue(s).value.0, ReadValue(s).value.1 + x))
    decreases |s|, 0
  {
    var t := SkipSpace(s[1..]);
    TailExtends(s, x, 1);
    SkipExtends(s, x);
    if t != [] && t[0] == '}' {
      SkipExtends(s[1..], x);
      TailExtends(t, x, 1);
    } else {
      MembersStartSomewhere(s[1..]);
      SkipExtends(s[1..], x);
      MembersExtend(s[1..], x, []);
    }
  }

  lemma {:induction false} ItemsExtend(s: string, x: string, read: seq<Value>)
    requires ReadItems(s, read).Some?
    ensures ReadItems(s + x, read) == Some((ReadItems(s, read).value.0, ReadItems(s, read).value.1 + x))
    decreases |s|, 2
  {
    var (v, rest) := ReadValue(s).value;
    var t := SkipSpace(rest);
    ValueExtends(s, x);
    SkipExtends(rest, x);
    TailExtends(t, x, 1);
    if t[0] == ',' {
      ItemsExtend(t[1..], x, read + [v]);
    }
  }

  lemma KeyExtends(s: string, x: string)
    requires ReadKey(s).Some?
    ensures ReadKey(s + x) == Some((ReadKey(s).value.0, ReadKey(s).value.1 + x))
  {
    var t := SkipSpace(s);
    SkipExtends(s, x);
    TailExtends(t, x, 1);
    CharsExtend(t[1..], x, []);
    var rest := ReadChars(t[1..], []).value.1;
    SkipExtends(rest, x);
    TailExtends(SkipSpace(rest), x, 1);
  }

  lemma {:induction false} MembersExtend(s: string, x: string, read: seq<Member>)
    requires ReadMembers(s, read).Some?
    ensures ReadMembers(s + x, read) == Some((ReadMembers(s, read).value.0, ReadMembers(s, read).value.1 + x))
    decreases |s|, 2
  {
    var (key, after) := ReadKey(s).value;
    var (v, rest) := ReadValue(after).value;
    var t := SkipSpace(rest);
    KeyExtends(s, x);
    ValueExtends(after, x);
    SkipExtends(rest, x);
    TailExtends(t, x, 1);
    if t[0] == ',' {
      MembersExtend(t[1..], x, read + [Member(key, v)]);
    }
  }

  /** No proper part of an object's text, from its start, reads as a value at all. */
  lemma PartIsNoValue(whole: string, part: string, v: Value)
    requires part < whole && ReadValue(whole) == Some((v, [])) && v.Obj? && whole[0] == '{'
    ensures Read(part).None?
  {
    if Read(part).Some? {
      var rest := whole[|part|..];
      assert part + rest == whole;
      StartsAsObject(part);
      ValueExtends(part, rest);
    }
  }

  lemma StartsAsObject(part: string)
    requires Read(part).Some? && (part == [] || part[0] == '{')
    ensures ReadValue(part).Some? && ReadValue(part).value.0.Obj?
  {
    assert SkipSpace(part) == part;
  }
}
