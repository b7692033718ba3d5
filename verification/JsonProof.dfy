/** Reading back what is emitted: escaping is undone, and a document is read back
    exactly when every nested field is the last of its object. */
module JsonProof {
  import opened Bytes
  import opened CText
  import opened JsonText

  // ----- strings

  lemma HexBack(d: nat)
    requires d < 16
    ensures IsHex(HexDigit(d)) && HexValue(HexDigit(d)) == d
  {
  }

  lemma ReadsControl(c: char, e: string, rest: string)
    requires c < ' ' && e == "u00" + [HexDigit(c as int / 16), HexDigit(c as int % 16)] + rest
    ensures ReadEscape(e) == Done(c, rest)
  {
    var hi, lo := HexDigit(c as int / 16), HexDigit(c as int % 16);
    HexBack(c as int / 16);
    HexBack(c as int % 16);
    assert e[0] == 'u' && e[1] == '0' && e[2] == '0' && e[3] == hi && e[4] == lo && e[5..] == rest;
    assert 16 * (c as int / 16) + c as int % 16 == c as int;
  }

  /** One escaped character is read back as that character. */
  lemma ReadsChar(c: char, rest: string)
    ensures ReadChars(EscapeChar(c) + rest) == Prepend(c, ReadChars(rest))
  {
    var s := EscapeChar(c) + rest;
    if |EscapeChar(c)| == 1 {
      assert s[1..] == rest;
    } else {
      assert s[0] == '\\';
      EscapeBack(c, EscapeChar(c), s[1..], rest);
    }
  }

  lemma EscapeBack(c: char, esc: string, e: string, rest: string)
    requires esc == EscapeChar(c) && |esc| > 1 && e == (esc + rest)[1..]
    ensures ReadEscape(e) == Done(c, rest)
  {
    if |esc| == 2 {
      assert e == [esc[1]] + rest && e[1..] == rest;
    } else {
      assert e == "u00" + [HexDigit(c as int / 16), HexDigit(c as int % 16)] + rest;
      ReadsControl(c, e, rest);
    }
  }

  /** Unescaping undoes escaping, for every string. */
  lemma {:induction false} ReadsString(s: string, rest: string)
    ensures ReadChars(Escaped(s, "\"" + rest)) == Done(s, rest)
    decreases s
  {
    if s == "" {
      assert ("\"" + rest)[1..] == rest;
    } else {
      ReadsString(s[1..], rest);
      ReadsChar(s[0], Escaped(s[1..], "\"" + rest));
      assert s == [s[0]] + s[1..];
    }
  }

  predicate NoControl(s: string) {
    forall i :: 0 <= i < |s| ==> s[i] >= ' '
  }

  lemma {:induction false} EscapedHasNoControl(s: string, rest: string)
    requires NoControl(rest)
    ensures NoControl(Escaped(s, rest))
    decreases s
  {
    if s != "" {
      EscapedHasNoControl(s[1..], rest);
      assert NoControl(EscapeChar(s[0]));
    }
  }

  // ----- numbers

  predicate NumEnd(rest: string) {
    rest == "" || (!IsDigit(rest[0]) && rest[0] !in ".eE")
  }

  lemma {:induction false} NoLeadingZero(n: nat)
    ensures n > 0 ==> Dec(n)[0] != '0'
    ensures |Dec(n)| > 1 ==> n > 0
  {
    if n >= 10 {
      NoLeadingZero(n / 10);
    }
  }

  lemma ReadsInt(v: int, rest: string)
    requires NumEnd(rest)
    ensures ReadInt(PrintInt(v) + rest) == Done(Int(v), rest)
  {
    var s, d := PrintInt(v) + rest, Dec(Magnitude(v));
    var k := if v < 0 then 1 else 0;
    assert s[k..] == d + rest;
    LeadDigitsOf(d, rest);
    assert (d + rest)[|d|..] == rest;
    ValueDec(Magnitude(v));
    NoLeadingZero(Magnitude(v));
  }

  // ----- documents

  predicate Good(t: Json) {
    match t
    case Obj(fields) => GoodFields(fields)
    case Arr(elems) => GoodElems(elems)
    case _ => true
  }

  /** A nested value may only be the last field. */
  predicate GoodFields(fields: Fields) {
    match fields
    case NoField => true
    case Field(_, val, more) => Good(val) && (Nested(val) ==> more.NoField?) && GoodFields(more)
  }

  predicate GoodElems(elems: Elems) {
    match elems
    case NoElem => true
    case Elem(head, tail) => Good(head) && GoodElems(tail)
  }

  lemma Begins(t: Json, rest: string)
    ensures var s := ValueText(t, rest); s != "" && s[0] !in " \t\n\r" && s[0] != ']'
  {
  }

  lemma ReadsWord(word: string, t: Json, rest: string)
    requires word != ""
    ensures ReadWord(word + rest, word, t) == Done(t, rest)
  {
    assert (word + rest)[|word|..] == rest;
  }

  lemma ReadsLeaf(t: Json, rest: string)
    requires !Nested(t) && NumEnd(rest)
    ensures ReadValue(ValueText(t, rest)) == Done(t, rest)
  {
    var s := ValueText(t, rest);
    Begins(t, rest);
    assert Ws(s) == s;
    match t {
      case Null => ReadsWord("null", Null, rest);
      case Bool(b) => ReadsWord(if b then "true" else "false", Bool(b), rest);
      case Int(v) => ReadsInt(v, rest);
      case Str(x) =>
        ReadsString(x, rest);
        assert s[1..] == Escaped(x, "\"" + rest);
    }
  }

  /** Emitted text is read back as the tree it was emitted for if every nested
      field is the last of its object, and is not JSON at all otherwise. */
  lemma {:induction false} ReadsValue(t: Json, rest: string)
    requires NumEnd(rest)
    ensures ReadValue(ValueText(t, rest)) == if Good(t) then Done(t, rest) else Fail
    decreases t, 0
  {
    match t {
      case Obj(fields) => ReadsObject(fields, rest);
      case Arr(elems) => ReadsArray(elems, rest);
      case _ => ReadsLeaf(t, rest);
    }
  }

  lemma {:induction false} ReadsObject(fields: Fields, rest: string)
    ensures ReadValue(ValueText(Obj(fields), rest)) == if GoodFields(fields) then Done(Obj(fields), rest) else Fail
    decreases fields, 2
  {
    var inner := FieldText(fields, true, "}" + rest);
    var s := "{" + inner;
    assert Ws(s) == s && s[1..] == inner;
    AfterField(fields, true, rest);
    if fields.Field? {
      ReadsFields(fields, rest);
    }
  }

  lemma {:induction false} ReadsArray(elems: Elems, rest: string)
    ensures ReadValue(ValueText(Arr(elems), rest)) == if GoodElems(elems) then Done(Arr(elems), rest) else Fail
    decreases elems, 2
  {
    var inner := ElemText(elems, true, "]" + rest);
    var s := "[" + inner;
    assert Ws(s) == s && s[1..] == inner;
    if elems == NoElem {
      assert inner[1..] == rest && Ws(inner) == inner;
    } else {
      ReadsElems(elems, rest);
      Begins(elems.head, ElemText(elems.tail, false, "]" + rest));
      assert Ws(inner) == inner;
    }
  }

  /** Reading a member up to where its value ends. */
  lemma ReadsKey(key: string, tail: string)
    ensures var s := Quoted(key, ":" + tail);
            && s != "" && s[0] == '"' && Ws(s) == s
            && ReadChars(s[1..]) == Done(key, ":" + tail)
            && Ws(":" + tail) == ":" + tail && (":" + tail)[1..] == tail
  {
    var s := Quoted(key, ":" + tail);
    assert s[1..] == Escaped(key, "\"" + (":" + tail));
    ReadsString(key, ":" + tail);
  }

  lemma {:induction false} ReadsFields(fields: Fields, rest: string)
    requires fields.Field?
    ensures ReadFields(FieldText(fields, true, "}" + rest)) == if GoodFields(fields) then Done(fields, rest) else Fail
    decreases fields, 1
  {
    var Field(key, val, more) := fields;
    var after := FieldText(more, Nested(val), "}" + rest);
    var tail := ValueText(val, after);
    ReadsKey(key, tail);
    AfterField(more, Nested(val), rest);
    ReadsValue(val, after);
    if more.Field? && !Nested(val) {
      ReadsFields(more, rest);
    }
  }

  /** What stands after a field's value: the closing brace, a comma and the next
      field, or, after a nested value, the next field with no comma. */
  lemma AfterField(more: Fields, first: bool, rest: string)
    ensures var after := FieldText(more, first, "}" + rest);
            && NumEnd(after) && after != "" && Ws(after) == after
            && (more.NoField? ==> after[0] == '}' && after[1..] == rest)
            && (more.Field? && first ==> after[0] == '"')
            && (more.Field? && !first ==> after[0] == ',' && after[1..] == FieldText(more, true, "}" + rest))
  {
  }

  lemma {:induction false} ReadsElems(elems: Elems, rest: string)
    requires elems.Elem?
    ensures ReadElems(ElemText(elems, true, "]" + rest)) == if GoodElems(elems) then Done(elems, rest) else Fail
    decreases elems, 1
  {
    var Elem(head, tail) := elems;
    var after := ElemText(tail, false, "]" + rest);
    AfterElem(tail, rest);
    ReadsValue(head, after);
    if tail.Elem? {
      ReadsElems(tail, rest);
    }
  }

  lemma AfterElem(tail: Elems, rest: string)
    ensures var after := ElemText(tail, false, "]" + rest);
            && NumEnd(after) && after != "" && Ws(after) == after
            && (tail.NoElem? ==> after[0] == ']' && after[1..] == rest)
            && (tail.Elem? ==> after[0] == ',' && after[1..] == ElemText(tail, true, "]" + rest))
  {
  }

  // ----- the escapes as section 7 of RFC 8259 lists them

  lemma EscapeTable()
    ensures EscapeChar('"') == "\\\"" && EscapeChar('\\') == "\\\\"
    ensures EscapeChar(8 as char) == "\\b" && EscapeChar(12 as char) == "\\f"
    ensures EscapeChar('\n') == "\\n" && EscapeChar('\r') == "\\r" && EscapeChar('\t') == "\\t"
    ensures EscapeChar(1 as char) == "\\u0001" && EscapeChar(31 as char) == "\\u001f"
    ensures forall d :: 0 <= d < 16 ==> HexDigit(d) == "0123456789abcdef"[d]
  {
  }

  lemma PlainCharKept(c: char)
    requires c as int >= 32 && c != '"' && c != '\\'
    ensures EscapeChar(c) == [c]
  {
  }
}
