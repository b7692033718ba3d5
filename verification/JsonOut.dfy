/** The streaming emitter: calls append to the output and flip the `first` flag
    they are given. Contracts are stated against a ghost `rest`, the text the
    caller has still to emit: output so far plus `rest` never changes meaning. */
module JsonOut {
  import opened Bytes
  import opened CText
  import opened JsonText
  import opened JsonProof

  function MaybeString(s: Option<string>): Json {
    match s case None => Null case Some(x) => Str(x)
  }

  function FieldOf(key: string, val: Json, first: bool, rest: string): string {
    Comma(first, Quoted(key, ":" + ValueText(val, rest)))
  }

  class Out {
    var text: string

    constructor ()
      ensures text == ""
    {
      text := "";
    }

    method Put(s: string, ghost rest: string)
      modifies this
      ensures text == old(text) + s
      ensures text + rest == old(text) + (s + rest)
    {
      text := text + s;
    }

    /** A NULL pointer prints as null, a string byte by byte between quotes. */
    method Escape(s: Option<string>, ghost rest: string)
      modifies this
      ensures text + rest == old(text) + ValueText(MaybeString(s), rest)
    {
      if s.None? {
        Put("null", rest);
        return;
      }
      ghost var start, after := text, "\"" + rest;
      Put("\"", Escaped(s.value, after));
      var i := 0;
      assert s.value[0..] == s.value;
      while i < |s.value|
        invariant 0 <= i <= |s.value|
        invariant start + Quoted(s.value, rest) == text + Escaped(s.value[i..], after)
      {
        assert s.value[i..][0] == s.value[i] && s.value[i..][1..] == s.value[i + 1..];
        Put(EscapeChar(s.value[i]), Escaped(s.value[i + 1..], after));
        i := i + 1;
      }
      Put("\"", rest);
    }

    method EmitComma(first: bool, ghost rest: string) returns (next: bool)
      modifies this
      ensures text + rest == old(text) + Comma(first, rest) && !next
    {
      if !first {
        Put(",", rest);
      }
      next := false;
    }

    method Key(first: bool, key: string, ghost rest: string) returns (next: bool)
      modifies this
      ensures text + rest == old(text) + Comma(first, Quoted(key, rest)) && !next
    {
      next := EmitComma(first, Quoted(key, rest));
      Escape(Some(key), rest);
    }

    method FieldString(first: bool, key: string, val: Option<string>, ghost rest: string) returns (next: bool)
      modifies this
      ensures text + rest == old(text) + FieldOf(key, MaybeString(val), first, rest) && !next
    {
      ghost var v := ValueText(MaybeString(val), rest);
      next := Key(first, key, ":" + v);
      Put(":", v);
      Escape(val, rest);
    }

    method FieldInt(first: bool, key: string, val: int, ghost rest: string) returns (next: bool)
      modifies this
      ensures text + rest == old(text) + FieldOf(key, Int(val), first, rest) && !next
    {
      ghost var v := PrintInt(val) + rest;
      next := Key(first, key, ":" + v);
      Put(":", v);
      Put(PrintInt(val), rest);
    }

    method FieldBool(first: bool, key: string, val: bool, ghost rest: string) returns (next: bool)
      modifies this
      ensures text + rest == old(text) + FieldOf(key, Bool(val), first, rest) && !next
    {
      var word := if val then "true" else "false";
      ghost var v := word + rest;
      next := Key(first, key, ":" + v);
      Put(":", v);
      Put(word, rest);
    }

    /** Opens a nested object; the flag it was given is reset to true. */
    method ObjectBegin(first: bool, key: string, ghost rest: string) returns (next: bool)
      modifies this
      ensures text + rest == old(text) + Comma(first, Quoted(key, ":" + ("{" + rest))) && next
    {
      next := Key(first, key, ":" + ("{" + rest));
      Put(":", "{" + rest);
      Put("{", rest);
      next := true;
    }

    method ArrayBegin(first: bool, key: string, ghost rest: string) returns (next: bool)
      modifies this
      ensures text + rest == old(text) + Comma(first, Quoted(key, ":" + ("[" + rest))) && next
    {
      next := Key(first, key, ":" + ("[" + rest));
      Put(":", "[" + rest);
      Put("[", rest);
      next := true;
    }

    // ----- a whole object or array, by the calls a command makes

    method PutFields(fields: Fields, first: bool, ghost rest: string)
      modifies this
      ensures text + rest == old(text) + FieldText(fields, first, rest)
      decreases fields
    {
      if fields == NoField {
        return;
      }
      var Field(key, val, more) := fields;
      ghost var after := FieldText(more, Nested(val), rest);
      var next: bool;
      match val {
        case Null => next := FieldString(first, key, None, after);
        case Str(s) => next := FieldString(first, key, Some(s), after);
        case Bool(b) => next := FieldBool(first, key, b, after);
        case Int(v) => next := FieldInt(first, key, v, after);
        case Obj(inner) =>
          next := ObjectBegin(first, key, FieldText(inner, true, "}" + after));
          PutFields(inner, true, "}" + after);
          Put("}", after);
        case Arr(inner) =>
          next := ArrayBegin(first, key, ElemText(inner, true, "]" + after));
          PutElems(inner, true, "]" + after);
          Put("]", after);
      }
      PutFields(more, next, rest);
    }

    method PutElems(elems: Elems, first: bool, ghost rest: string)
      modifies this
      ensures text + rest == old(text) + ElemText(elems, first, rest)
      decreases elems
    {
      if elems == NoElem {
        return;
      }
      var Elem(head, tail) := elems;
      ghost var after := ElemText(tail, false, rest);
      var next := EmitComma(first, ValueText(head, after));
      PutValue(head, after);
      PutElems(tail, next, rest);
    }

    method PutValue(t: Json, ghost rest: string)
      modifies this
      ensures text + rest == old(text) + ValueText(t, rest)
      decreases t
    {
      match t {
        case Null => Escape(None, rest);
        case Str(s) => Escape(Some(s), rest);
        case Bool(b) => Put(if b then "true" else "false", rest);
        case Int(v) => Put(PrintInt(v), rest);
        case Obj(fields) =>
          Put("{", FieldText(fields, true, "}" + rest));
          PutFields(fields, true, "}" + rest);
          Put("}", rest);
        case Arr(elems) =>
          Put("[", ElemText(elems, true, "]" + rest));
          PutElems(elems, true, "]" + rest);
          Put("]", rest);
      }
    }

    /** The success envelope around one value. */
    method Document(data: Json)
      modifies this
      ensures text == old(text) + ValueText(Envelope(data), "\n")
    {
      ghost var after := "}\n";
      EnvelopeText(data);
      Put("{\"status\":\"ok\",\"data\":", ValueText(data, after));
      PutValue(data, after);
      Put("}\n", "");
      assert text + "" == text && "}\n" + "" == "}\n";
    }
  }

  function Envelope(data: Json): Json {
    Obj(Field("status", Str("ok"), Field("data", data, NoField)))
  }

  lemma EnvelopeText(data: Json)
    ensures ValueText(Envelope(data), "\n") == "{\"status\":\"ok\",\"data\":" + ValueText(data, "}\n")
  {
    var v := ValueText(data, "}\n");
    EnvelopeNested(data, v);
    EnvelopeFlat(v);
  }

  lemma EnvelopeNested(data: Json, v: string)
    requires v == ValueText(data, "}\n")
    ensures ValueText(Envelope(data), "\n")
            == "{" + Quoted("status", ":" + Quoted("ok", "," + Quoted("data", ":" + v)))
  {
    assert "}" + "\n" == "}\n";
    var more := Field("data", data, NoField);
    assert FieldText(NoField, Nested(data), "}\n") == "}\n";
    var inner := FieldText(more, false, "}\n");
    assert inner == "," + Quoted("data", ":" + v);
    assert ValueText(Str("ok"), inner) == Quoted("ok", inner);
    assert FieldText(Field("status", Str("ok"), more), true, "}\n") == Quoted("status", ":" + Quoted("ok", inner));
  }

  lemma EnvelopeFlat(v: string)
    ensures "{" + Quoted("status", ":" + Quoted("ok", "," + Quoted("data", ":" + v)))
            == "{\"status\":\"ok\",\"data\":" + v
  {
    FlatData(v);
    FlatStatus(",\"data\":" + v);
  }

  lemma FlatData(v: string)
    ensures "," + Quoted("data", ":" + v) == ",\"data\":" + v
  {
    PlainQuoted("data", ":" + v);
  }

  lemma FlatStatus(c: string)
    ensures "{" + Quoted("status", ":" + Quoted("ok", c)) == "{\"status\":\"ok\"" + c
  {
    PlainQuoted("ok", c);
    var b := ":" + Quoted("ok", c);
    assert b == ":\"ok\"" + c;
    PlainQuoted("status", b);
  }

  lemma PlainQuoted(s: string, rest: string)
    requires forall i :: 0 <= i < |s| ==> s[i] >= ' ' && s[i] != '"' && s[i] != '\\'
    ensures Quoted(s, rest) == "\"" + s + "\"" + rest
  {
    PlainEscape(s, "\"" + rest);
  }

  /** Strings without special characters are emitted as they are. */
  lemma {:induction false} PlainEscape(s: string, rest: string)
    requires forall i :: 0 <= i < |s| ==> s[i] >= ' ' && s[i] != '"' && s[i] != '\\'
    ensures Escaped(s, rest) == s + rest
    decreases s
  {
    if s == "" {
      assert "" + rest == rest;
    } else {
      PlainEscape(s[1..], rest);
      assert s == [s[0]] + s[1..] && s + rest == [s[0]] + (s[1..] + rest);
    }
  }

  // ----- what the emitted text is

  /** A document reads back as its envelope exactly when every nested field in
      the data is the last of its object; otherwise it is not JSON. */
  lemma DocumentReads(data: Json)
    ensures ReadValue(ValueText(Envelope(data), "\n")) == if Good(data) then Done(Envelope(data), "\n") else Fail
  {
    ReadsValue(Envelope(data), "\n");
    GoodLast("data", data);
    var more := Field("data", data, NoField);
    assert GoodFields(Field("status", Str("ok"), more)) <==> GoodFields(more);
  }

  lemma GoodLast(key: string, val: Json)
    ensures GoodFields(Field(key, val, NoField)) <==> Good(val)
  {
    assert GoodFields(NoField);
  }

  /** A field after a nested one gets no comma, so this object does not parse. */
  lemma SiblingAfterNestedFails()
    ensures var t := Obj(Field("a", Obj(NoField), Field("b", Int(1), NoField)));
            ReadValue(ValueText(t, "")) == Fail
  {
    var fields := Field("a", Obj(NoField), Field("b", Int(1), NoField));
    ReadsValue(Obj(fields), "");
    assert !GoodFields(fields);
  }

  lemma {:induction false} ValueHasNoControl(t: Json, rest: string)
    requires NoControl(rest)
    ensures NoControl(ValueText(t, rest))
    decreases t
  {
    match t {
      case Str(s) =>
        assert NoControl("\"" + rest);
        EscapedHasNoControl(s, "\"" + rest);
      case Obj(fields) => FieldsHaveNoControl(fields, true, "}" + rest);
      case Arr(elems) => ElemsHaveNoControl(elems, true, "]" + rest);
      case _ =>
    }
  }

  lemma {:induction false} FieldsHaveNoControl(fields: Fields, first: bool, rest: string)
    requires NoControl(rest)
    ensures NoControl(FieldText(fields, first, rest))
    decreases fields
  {
    if fields.Field? {
      var Field(key, val, more) := fields;
      FieldsHaveNoControl(more, Nested(val), rest);
      var after := FieldText(more, Nested(val), rest);
      ValueHasNoControl(val, after);
      var tail := "\"" + (":" + ValueText(val, after));
      assert NoControl(tail);
      EscapedHasNoControl(key, tail);
      assert NoControl(Quoted(key, ":" + ValueText(val, after)));
    }
  }

  lemma {:induction false} ElemsHaveNoControl(elems: Elems, first: bool, rest: string)
    requires NoControl(rest)
    ensures NoControl(ElemText(elems, first, rest))
    decreases elems
  {
    if elems.Elem? {
      ElemsHaveNoControl(elems.tail, false, rest);
      ValueHasNoControl(elems.head, ElemText(elems.tail, false, rest));
    }
  }

  // ----- one command: a CPU as an element of an array

  datatype CpuReadout = CpuReadout(
    index: int,
    governor: Option<string>,
    freqMin: Option<i64>,
    freqMax: Option<i64>,
    online: Option<bool>,
    cstates: seq<Option<bool>>)

  function WithStr(key: string, v: Option<string>, more: Fields): Fields {
    match v case None => more case Some(s) => Field(key, Str(s), more)
  }

  function WithInt(key: string, v: Option<i64>, more: Fields): Fields {
    match v case None => more case Some(x) => Field(key, Int(x), more)
  }

  function WithBool(key: string, v: Option<bool>, more: Fields): Fields {
    match v case None => more case Some(b) => Field(key, Bool(b), more)
  }

  /** Idle states that could be read, each with its number. */
  function States(cstates: seq<Option<bool>>, i: nat): Elems
    requires i <= |cstates|
    decreases |cstates| - i
  {
    if i == |cstates| then NoElem
    else if cstates[i] == None then States(cstates, i + 1)
    else Elem(StateTree(i, cstates[i].value), States(cstates, i + 1))
  }

  function StateTree(i: nat, disabled: bool): Json {
    Obj(Field("state", Int(i), Field("disabled", Bool(disabled), NoField)))
  }

  function CStates(c: CpuReadout): Fields {
    if c.cstates == [] then NoField else Field("cstates", Arr(States(c.cstates, 0)), NoField)
  }

  function CpuTree(c: CpuReadout): Json {
    Obj(Field("cpu", Int(c.index),
              WithStr("governor", c.governor,
                      WithInt("freq_min_hz", c.freqMin,
                              WithInt("freq_max_hz", c.freqMax,
                                      WithBool("online", c.online, CStates(c)))))))
  }

  lemma {:induction false} StatesAreGood(cstates: seq<Option<bool>>, i: nat)
    requires i <= |cstates|
    ensures GoodElems(States(cstates, i))
    decreases |cstates| - i
  {
    if i < |cstates| {
      StatesAreGood(cstates, i + 1);
      if cstates[i].Some? {
        GoodLast("disabled", Bool(cstates[i].value));
        assert Good(StateTree(i, cstates[i].value));
      }
    }
  }

  /** The idle states are the last field, so the readout always reads back. */
  lemma CpuReads(c: CpuReadout, rest: string)
    requires NumEnd(rest)
    ensures ReadValue(ValueText(CpuTree(c), rest)) == Done(CpuTree(c), rest)
  {
    StatesAreGood(c.cstates, 0);
    GoodLast("cstates", Arr(States(c.cstates, 0)));
    var f1 := WithBool("online", c.online, CStates(c));
    GoodBefore("online", Bool(c.online.Some? && c.online.value), CStates(c));
    var f2 := WithInt("freq_max_hz", c.freqMax, f1);
    GoodBefore("freq_max_hz", Int(if c.freqMax.Some? then c.freqMax.value else 0), f1);
    var f3 := WithInt("freq_min_hz", c.freqMin, f2);
    GoodBefore("freq_min_hz", Int(if c.freqMin.Some? then c.freqMin.value else 0), f2);
    var f4 := WithStr("governor", c.governor, f3);
    GoodBefore("governor", Str(if c.governor.Some? then c.governor.value else ""), f3);
    GoodBefore("cpu", Int(c.index), f4);
    ReadsValue(CpuTree(c), rest);
  }

  lemma GoodBefore(key: string, val: Json, more: Fields)
    requires !Nested(val) && GoodFields(more)
    ensures GoodFields(Field(key, val, more))
  {
  }

  method EmitState(out: Out, i: nat, disabled: bool, first: bool, ghost rest: string) returns (next: bool)
    modifies out
    ensures out.text + rest == old(out.text) + Comma(first, ValueText(StateTree(i, disabled), rest)) && !next
  {
    ghost var inner := Field("disabled", Bool(disabled), NoField);
    next := out.EmitComma(first, ValueText(StateTree(i, disabled), rest));
    assert FieldText(NoField, false, "}" + rest) == "}" + rest;
    assert FieldText(inner, false, "}" + rest) == FieldOf("disabled", Bool(disabled), false, "}" + rest);
    out.Put("{", FieldText(Field("state", Int(i), inner), true, "}" + rest));
    var f := out.FieldInt(true, "state", i, FieldText(inner, false, "}" + rest));
    f := out.FieldBool(f, "disabled", disabled, "}" + rest);
    out.Put("}", rest);
  }

  method OptString(out: Out, key: string, v: Option<string>, ghost more: Fields, ghost after: string)
    modifies out
    ensures out.text + FieldText(more, false, after) == old(out.text) + FieldText(WithStr(key, v, more), false, after)
  {
    if v.Some? {
      var f := out.FieldString(false, key, v, FieldText(more, false, after));
    }
  }

  method OptInt(out: Out, key: string, v: Option<i64>, ghost more: Fields, ghost after: string)
    modifies out
    ensures out.text + FieldText(more, false, after) == old(out.text) + FieldText(WithInt(key, v, more), false, after)
  {
    if v.Some? {
      var f := out.FieldInt(false, key, v.value, FieldText(more, false, after));
    }
  }

  method OptBool(out: Out, key: string, v: Option<bool>, ghost more: Fields, ghost after: string)
    modifies out
    ensures out.text + FieldText(more, false, after) == old(out.text) + FieldText(WithBool(key, v, more), false, after)
  {
    if v.Some? {
      var f := out.FieldBool(false, key, v.value, FieldText(more, false, after));
    }
  }

  method EmitCpuJson(out: Out, c: CpuReadout, first: bool, ghost rest: string) returns (next: bool)
    modifies out
    ensures out.text + rest == old(out.text) + Comma(first, ValueText(CpuTree(c), rest)) && !next
  {
    ghost var after := "}" + rest;
    ghost var f1 := CStates(c);
    ghost var f2 := WithBool("online", c.online, f1);
    ghost var f3 := WithInt("freq_max_hz", c.freqMax, f2);
    ghost var f4 := WithInt("freq_min_hz", c.freqMin, f3);
    ghost var f5 := WithStr("governor", c.governor, f4);
    next := out.EmitComma(first, ValueText(CpuTree(c), rest));
    out.Put("{", FieldText(Field("cpu", Int(c.index), f5), true, after));
    var f := out.FieldInt(true, "cpu", c.index, FieldText(f5, false, after));
    OptString(out, "governor", c.governor, f4, after);
    OptInt(out, "freq_min_hz", c.freqMin, f3, after);
    OptInt(out, "freq_max_hz", c.freqMax, f2, after);
    OptBool(out, "online", c.online, f1, after);
    if |c.cstates| > 0 {
      f := EmitStates(out, c.cstates, false, after);
    }
    out.Put("}", rest);
  }

  method EmitStates(out: Out, cstates: seq<Option<bool>>, first: bool, ghost after: string) returns (next: bool)
    requires !first
    modifies out
    ensures out.text + after == old(out.text)
            + FieldText(Field("cstates", Arr(States(cstates, 0)), NoField), false, after)
  {
    ghost var closing := "]" + after;
    assert FieldText(NoField, true, after) == after;
    next := out.ArrayBegin(first, "cstates", ElemText(States(cstates, 0), true, closing));
    var cf, s := true, 0;
    ghost var goal := out.text + ElemText(States(cstates, 0), true, closing);
    while s < |cstates|
      invariant 0 <= s <= |cstates|
      invariant goal == out.text + ElemText(States(cstates, s), cf, closing)
    {
      if cstates[s].Some? {
        cf := EmitState(out, s, cstates[s].value, cf, ElemText(States(cstates, s + 1), false, closing));
      }
      s := s + 1;
    }
    out.Put("]", after);
  }

  // ----- what a reader finds in the snapshot

  /** The value of the first member with a name. */
  function Member(fields: Fields, key: string): Option<Json> {
    match fields
    case NoField => None
    case Field(k, val, more) => if k == key then Some(val) else Member(more, key)
  }

  function Elements(elems: Elems): seq<Json> {
    match elems
    case NoElem => []
    case Elem(head, tail) => [head] + Elements(tail)
  }

  lemma MemberOfOptional(k: string, key: string, s: Option<string>, v: Option<i64>, b: Option<bool>, more: Fields)
    ensures Member(WithStr(k, s, more), key) == if k == key && s.Some? then Some(Str(s.value)) else Member(more, key)
    ensures Member(WithInt(k, v, more), key) == if k == key && v.Some? then Some(Int(v.value)) else Member(more, key)
    ensures Member(WithBool(k, b, more), key) == if k == key && b.Some? then Some(Bool(b.value)) else Member(more, key)
  {
  }

  /** What a member holds, by its name. */
  function Expected(c: CpuReadout, key: string): Option<Json> {
    match key
    case "cpu" => Some(Int(c.index))
    case "governor" => if c.governor == None then None else Some(Str(c.governor.value))
    case "freq_min_hz" => if c.freqMin == None then None else Some(Int(c.freqMin.value))
    case "freq_max_hz" => if c.freqMax == None then None else Some(Int(c.freqMax.value))
    case "online" => if c.online == None then None else Some(Bool(c.online.value))
    case "cstates" => if c.cstates == [] then None else Some(Arr(States(c.cstates, 0)))
    case _ => None
  }

  /** Every reading is found under its own name, a missing one and any other name
      not at all. */
  lemma MembersOfCpu(c: CpuReadout, key: string)
    ensures CpuTree(c).Obj? && Member(CpuTree(c).fields, key) == Expected(c, key)
  {
    var f1 := WithBool("online", c.online, CStates(c));
    var f2 := WithInt("freq_max_hz", c.freqMax, f1);
    var f3 := WithInt("freq_min_hz", c.freqMin, f2);
    MemberOfOptional("online", key, None, None, c.online, CStates(c));
    MemberOfOptional("freq_max_hz", key, None, c.freqMax, None, f1);
    MemberOfOptional("freq_min_hz", key, None, c.freqMin, None, f2);
    MemberOfOptional("governor", key, c.governor, None, None, f3);
    assert Member(NoField, key) == None;
    assert Member(CStates(c), key) == if key == "cstates" && c.cstates != [] then Some(Arr(States(c.cstates, 0))) else None;
  }

  /** Reading back what was emitted for a CPU finds each reading by name. */
  lemma CpuSays(c: CpuReadout, rest: string, key: string)
    requires NumEnd(rest)
    ensures var r := ReadValue(ValueText(CpuTree(c), rest));
            && r.Done? && r.rest == rest && r.value.Obj?
            && Member(r.value.fields, key) == Expected(c, key)
  {
    CpuReads(c, rest);
    MembersOfCpu(c, key);
  }

  /** Of the idle states, those that could be read are listed in order, each as an
      object of just its number and whether it is disabled. */
  lemma {:induction false} StatesAppend(cstates: seq<Option<bool>>, i: nat, s: Option<bool>)
    requires i <= |cstates|
    ensures |Elements(States(cstates + [s], i))| == |Elements(States(cstates, i))| + if s.Some? then 1 else 0
    ensures Elements(States(cstates, i)) <= Elements(States(cstates + [s], i))
    ensures s.Some? ==>
      Elements(States(cstates + [s], i))[|Elements(States(cstates, i))|]
      == Obj(Field("state", Int(|cstates|), Field("disabled", Bool(s.value), NoField)))
    decreases |cstates| - i
  {
    var all := cstates + [s];
    if i < |cstates| {
      assert all[i] == cstates[i];
      StatesAppend(cstates, i + 1, s);
    } else {
      assert all[i] == s && States(all, i + 1) == NoElem;
    }
  }

  lemma NoStates()
    ensures Elements(States([], 0)) == []
  {
  }

  /** The text is compact: braces, brackets, colons and commas stand alone. */
  lemma CompactText(k: string, l: string, x: Json, y: Json, rest: string)
    requires forall i :: 0 <= i < |k| ==> k[i] >= ' ' && k[i] != '"' && k[i] != '\\'
    requires forall i :: 0 <= i < |l| ==> l[i] >= ' ' && l[i] != '"' && l[i] != '\\'
    requires !Nested(x)
    ensures ValueText(Arr(Elem(x, Elem(y, NoElem))), rest) == "[" + ValueText(x, "," + ValueText(y, "]" + rest))
    ensures ValueText(Obj(Field(k, x, Field(l, y, NoField))), rest)
            == "{" + ("\"" + k + "\"" + (":" + ValueText(x, "," + ("\"" + l + "\"" + (":" + ValueText(y, "}" + rest))))))
  {
    assert ElemText(NoElem, false, "]" + rest) == "]" + rest;
    assert ElemText(Elem(y, NoElem), false, "]" + rest) == "," + ValueText(y, "]" + rest);
    var last := ":" + ValueText(y, "}" + rest);
    PlainQuoted(l, last);
    assert FieldText(NoField, Nested(y), "}" + rest) == "}" + rest;
    assert FieldText(Field(l, y, NoField), false, "}" + rest) == "," + Quoted(l, last);
    PlainQuoted(k, ":" + ValueText(x, "," + Quoted(l, last)));
  }
}
