/** JSON trees, the text the emitter calls produce for them, and a parser for the
    grammar of RFC 8259 that the text is held against. */
module JsonText {
  import opened Bytes
  import opened CText

  datatype Json =
    | Null
    | Bool(b: bool)
    | Int(v: int)
    | Str(s: string)
    | Obj(fields: Fields)
    | Arr(elems: Elems)

  datatype Fields = NoField | Field(key: string, val: Json, more: Fields)
  datatype Elems = NoElem | Elem(head: Json, tail: Elems)

  predicate Nested(t: Json) { t.Obj? || t.Arr? }

  // ----- what is emitted; each function is given the text that follows

  function HexDigit(d: nat): char
    requires d < 16
  {
    if d < 10 then '0' + d as char else 'a' + (d - 10) as char
  }

  function EscapeChar(c: char): string {
    if c == '"' then "\\\""
    else if c == '\\' then "\\\\"
    else if c as int == 8 then "\\b"
    else if c as int == 12 then "\\f"
    else if c == '\n' then "\\n"
    else if c == '\r' then "\\r"
    else if c == '\t' then "\\t"
    else if c < ' ' then "\\u00" + [HexDigit(c as int / 16), HexDigit(c as int % 16)]
    else [c]
  }

  function Escaped(s: string, rest: string): string {
    if s == "" then rest else EscapeChar(s[0]) + Escaped(s[1..], rest)
  }

  function Quoted(s: string, rest: string): string {
    "\"" + Escaped(s, "\"" + rest)
  }

  function ValueText(t: Json, rest: string): string {
    match t
    case Null => "null" + rest
    case Bool(b) => (if b then "true" else "false") + rest
    case Int(v) => PrintInt(v) + rest
    case Str(s) => Quoted(s, rest)
    case Obj(fields) => "{" + FieldText(fields, true, "}" + rest)
    case Arr(elems) => "[" + ElemText(elems, true, "]" + rest)
  }

  function Comma(first: bool, rest: string): string {
    if first then rest else "," + rest
  }

  /** The flag of the object is true again after a nested field: the helper that
      opens it resets the flag it was given. */
  function FieldText(fields: Fields, first: bool, rest: string): string {
    match fields
    case NoField => rest
    case Field(key, val, more) =>
      Comma(first, Quoted(key, ":" + ValueText(val, FieldText(more, Nested(val), rest))))
  }

  function ElemText(elems: Elems, first: bool, rest: string): string {
    match elems
    case NoElem => rest
    case Elem(head, tail) => Comma(first, ValueText(head, ElemText(tail, false, rest)))
  }

  // ----- RFC 8259, for integer numbers and escapes below 0x80

  datatype Read<T> = Fail | Done(value: T, rest: string)

  function Ws(s: string): (r: string)
    ensures |r| <= |s|
  {
    if s != "" && s[0] in " \t\n\r" then Ws(s[1..]) else s
  }

  function HexValue(c: char): nat
    requires IsHex(c)
    ensures HexValue(c) < 16
  {
    if IsDigit(c) then (c - '0') as nat
    else if 'a' <= c <= 'f' then (c - 'a') as nat + 10
    else (c - 'A') as nat + 10
  }

  /** The character an escape stands for, and what follows it. */
  function ReadEscape(s: string): (r: Read<char>)
    ensures r.Done? ==> |r.rest| < |s|
  {
    if s == "" then Fail
    else if s[0] == '"' || s[0] == '\\' || s[0] == '/' then Done(s[0], s[1..])
    else if s[0] == 'b' then Done(8 as char, s[1..])
    else if s[0] == 'f' then Done(12 as char, s[1..])
    else if s[0] == 'n' then Done('\n', s[1..])
    else if s[0] == 'r' then Done('\r', s[1..])
    else if s[0] == 't' then Done('\t', s[1..])
    else if s[0] == 'u' && |s| >= 5 && s[1] == '0' && s[2] == '0' && IsHex(s[3]) && IsHex(s[4])
            && HexValue(s[3]) < 8
    then Done((16 * HexValue(s[3]) + HexValue(s[4])) as char, s[5..])
    else Fail
  }

  /** The characters up to the closing quote. Raw control characters are refused. */
  function ReadChars(s: string): (r: Read<string>)
    ensures r.Done? ==> |r.rest| < |s|
  {
    if s == "" || s[0] < ' ' then Fail
    else if s[0] == '"' then Done("", s[1..])
    else if s[0] == '\\' then
      var e := ReadEscape(s[1..]);
      if e.Fail? then Fail else Prepend(e.value, ReadChars(e.rest))
    else Prepend(s[0], ReadChars(s[1..]))
  }

  function Prepend(c: char, r: Read<string>): Read<string> {
    match r case Fail => Fail case Done(t, rest) => Done([c] + t, rest)
  }

  /** An integer without superfluous zeros, not continued as a fraction. */
  function ReadInt(s: string): (r: Read<Json>)
    requires s != ""
    ensures r.Done? ==> |r.rest| < |s|
  {
    var k := if s[0] == '-' then 1 else 0;
    var n := LeadDigits(s[k..]);
    var digits, rest := s[k..][..n], s[k..][n..];
    if n == 0 || (n > 1 && digits[0] == '0') || (rest != "" && rest[0] in ".eE") then Fail
    else
      var magnitude: int := CText.Value(digits);
      Done(Int(if k == 1 then -magnitude else magnitude), rest)
  }

  function ReadWord(s: string, word: string, t: Json): (r: Read<Json>)
    requires word != ""
    ensures r.Done? ==> |r.rest| < |s|
  {
    if word <= s then Done(t, s[|word|..]) else Fail
  }

  function ReadValue(text: string): (r: Read<Json>)
    ensures r.Done? ==> |r.rest| < |text|
    decreases |text|, 2
  {
    var s := Ws(text);
    if s == "" then Fail
    else if s[0] == '"' then
      var r := ReadChars(s[1..]);
      if r.Fail? then Fail else Done(Str(r.value), r.rest)
    else if s[0] == '{' then
      var t := Ws(s[1..]);
      if t != "" && t[0] == '}' then Done(Obj(NoField), t[1..])
      else
        var r := ReadFields(s[1..]);
        if r.Fail? then Fail else Done(Obj(r.value), r.rest)
    else if s[0] == '[' then
      var t := Ws(s[1..]);
      if t != "" && t[0] == ']' then Done(Arr(NoElem), t[1..])
      else
        var r := ReadElems(s[1..]);
        if r.Fail? then Fail else Done(Arr(r.value), r.rest)
    else if s[0] == 'n' then ReadWord(s, "null", Null)
    else if s[0] == 't' then ReadWord(s, "true", Bool(true))
    else if s[0] == 'f' then ReadWord(s, "false", Bool(false))
    else ReadInt(s)
  }

  /** One or more members, through the closing brace. */
  function ReadFields(text: string): (r: Read<Fields>)
    ensures r.Done? ==> |r.rest| < |text|
    decreases |text|, 1
  {
    var s := Ws(text);
    if s == "" || s[0] != '"' then Fail
    else
      var key := ReadChars(s[1..]);
      if key.Fail? then Fail
      else
        var colon := Ws(key.rest);
        if colon == "" || colon[0] != ':' then Fail
        else
          var val := ReadValue(colon[1..]);
          if val.Fail? then Fail
          else
            var after := Ws(val.rest);
            if after != "" && after[0] == '}' then Done(Field(key.value, val.value, NoField), after[1..])
            else if after != "" && after[0] == ',' then
              var more := ReadFields(after[1..]);
              if more.Fail? then Fail else Done(Field(key.value, val.value, more.value), more.rest)
            else Fail
  }

  /** One or more elements, through the closing bracket. */
  function ReadElems(text: string): (r: Read<Elems>)
    ensures r.Done? ==> |r.rest| < |text|
    decreases |text|, 3
  {
    var val := ReadValue(text);
    if val.Fail? then Fail
    else
      var after := Ws(val.rest);
      if after != "" && after[0] == ']' then Done(Elem(val.value, NoElem), after[1..])
      else if after != "" && after[0] == ',' then
        var more := ReadElems(after[1..]);
        if more.Fail? then Fail else Done(Elem(val.value, more.value), more.rest)
      else Fail
  }
}
