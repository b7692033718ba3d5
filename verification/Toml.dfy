/** The profile text format: a line-based parser and the printer it must undo. */
module Toml {
  import opened Bytes
  import opened CText

  datatype Kv = Kv(section: string, key: string, value: string, isString: bool)

  const SECTION_SIZE := 128
  const KEY_SIZE := 128
  const VALUE_SIZE := 512
  const LINE_SIZE := 1024

  // ----- trimming

  predicate IsTrailing(c: char) { IsBlank(c) || IsEol(c) }

  function RStrip(s: string): (r: string)
    ensures r <= s && (r == "" || !IsTrailing(r[|r| - 1]))
    ensures forall i :: |r| <= i < |s| ==> IsTrailing(s[i])
  {
    if s == "" || !IsTrailing(s[|s| - 1]) then s else RStrip(s[..|s| - 1])
  }

  /** Number of leading blanks. */
  function LeadBlanks(s: string): (n: nat)
    ensures n <= |s| && (n < |s| ==> !IsBlank(s[n])) && forall i :: 0 <= i < n ==> IsBlank(s[i])
  {
    if s == "" || !IsBlank(s[0]) then 0 else 1 + LeadBlanks(s[1..])
  }

  function LTrim(s: string): string {
    s[LeadBlanks(s)..]
  }

  function TrimBlanksEnd(s: string): (r: string)
    ensures r <= s && (r == "" || !IsBlank(r[|r| - 1]))
    ensures forall i :: |r| <= i < |s| ==> IsBlank(s[i])
  {
    if s == "" || !IsBlank(s[|s| - 1]) then s else TrimBlanksEnd(s[..|s| - 1])
  }

  // ----- one line

  datatype Line = Nothing | Header(name: string) | Entry(key: string, value: string, isString: bool)

  /** The text between an opening quote and the last closing one. */
  function Unquote(s: string, q: char): string {
    s[..LastIndexOf(s, q)]
  }

  function ParseValue(s: string): (string, bool) {
    if s != "" && s[0] == '"' then (Unquote(s[1..], '"'), true)
    else if s != "" && s[0] == '\'' then (Unquote(s[1..], '\''), true)
    else (s, false)
  }

  /** A header accepts one or two opening brackets and ends at the first `]`. */
  function ParseHeader(p: string): Line
    requires p != "" && p[0] == '['
  {
    var start := if |p| > 1 && p[1] == '[' then p[2..] else p[1..];
    var e := IndexOf(start, ']');
    if e == |start| then Nothing else Header(Slot(start[..e], SECTION_SIZE))
  }

  function ParseEntry(p: string): Line {
    var e := IndexOf(p, '=');
    if e == |p| then Nothing
    else
      var v := ParseValue(LTrim(p[e + 1..]));
      Entry(Slot(TrimBlanksEnd(LTrim(p[..e])), KEY_SIZE), Slot(v.0, VALUE_SIZE), v.1)
  }

  function ParseLine(line: string): Line {
    var p := RStrip(LTrim(line));
    if p == "" || p[0] == '#' then Nothing
    else if p[0] == '[' then ParseHeader(p)
    else ParseEntry(p)
  }

  method RStripInPlace(s: string) returns (r: string)
    ensures r == RStrip(s)
  {
    r := s;
    while r != "" && IsTrailing(r[|r| - 1])
      invariant RStrip(r) == RStrip(s)
      decreases |r|
    {
      r := r[..|r| - 1];
    }
  }

  method SkipBlanks(s: string) returns (r: string)
    ensures r == LTrim(s)
  {
    r := s;
    while r != "" && IsBlank(r[0])
      invariant LTrim(r) == LTrim(s)
      decreases |r|
    {
      r := r[1..];
    }
  }

  method CutBlanksEnd(s: string) returns (r: string)
    ensures r == TrimBlanksEnd(s)
  {
    r := s;
    while r != "" && IsBlank(r[|r| - 1])
      invariant TrimBlanksEnd(r) == TrimBlanksEnd(s)
      decreases |r|
    {
      r := r[..|r| - 1];
    }
  }

  /** Cuts the line buffer step by step: each terminator the parser stores is
      taken here as keeping the text before it. */
  method ReadLine(line: string) returns (r: Line)
    ensures r == ParseLine(line)
  {
    var p := SkipBlanks(line);
    p := RStripInPlace(p);
    if p == "" || p[0] == '#' {
      return Nothing;
    }
    if p[0] == '[' {
      var start := if |p| > 1 && p[1] == '[' then p[2..] else p[1..];
      var end := IndexOf(start, ']');
      if end == |start| {
        return Nothing;
      }
      return Header(Slot(start[..end], SECTION_SIZE));
    }
    var eq := IndexOf(p, '=');
    if eq == |p| {
      return Nothing;
    }
    var key := SkipBlanks(p[..eq]);
    key := CutBlanksEnd(key);
    var val := SkipBlanks(p[eq + 1..]);
    var value, isString := ReadValue(val);
    return Entry(Slot(key, KEY_SIZE), Slot(value, VALUE_SIZE), isString);
  }

  method ReadValue(val: string) returns (value: string, isString: bool)
    ensures (value, isString) == ParseValue(val)
  {
    value, isString := val, false;
    if value != "" && value[0] == '"' {
      isString := true;
      value := value[1..];
      value := value[..LastIndexOf(value, '"')];
    } else if value != "" && value[0] == '\'' {
      isString := true;
      value := value[1..];
      value := value[..LastIndexOf(value, '\'')];
    }
  }

  // ----- a whole file

  /** How much one fgets call takes: a line with its end, or a full buffer. */
  function ChunkLen(text: string): (n: nat)
    requires text != ""
    ensures 0 < n <= |text| && n < LINE_SIZE
    ensures forall i :: 0 <= i < n - 1 ==> text[i] != '\n'
  {
    var i := IndexOf(text, '\n');
    MinNat(LINE_SIZE - 1, if i < |text| then i + 1 else i)
  }

  function ParseText(section: string, text: string): seq<Kv>
    decreases |text|, 0
  {
    if text == "" then []
    else
      var n := ChunkLen(text);
      Resume(section, ParseLine(CStr(text[..n])), text[n..])
  }

  /** Goes on with `rest` after a line, under the section now current. */
  function Resume(section: string, line: Line, rest: string): seq<Kv>
    decreases |rest|, 1
  {
    match line
    case Nothing => ParseText(section, rest)
    case Header(name) => ParseText(name, rest)
    case Entry(k, v, q) => [Kv(section, k, v, q)] + ParseText(section, rest)
  }

  method TomlParse(text: string) returns (list: seq<Kv>)
    ensures list == ParseText("", text)
  {
    list := [];
    var section, rest := "", text;
    ghost var left := ParseText("", text);
    while rest != ""
      invariant left == ParseText(section, rest) && ParseText("", text) == list + left
      decreases |rest|
    {
      var n := ChunkLen(rest);
      var line := ReadLine(CStr(rest[..n]));
      rest := rest[n..];
      assert left == Resume(section, line, rest);
      match line {
        case Nothing =>
        case Header(name) =>
          section := name;
        case Entry(key, value, isString) =>
          ghost var tail := ParseText(section, rest);
          TakeOne(list, Kv(section, key, value, isString), tail, left);
          list, left := list + [Kv(section, key, value, isString)], tail;
      }
    }
    assert list + left == list;
  }

  lemma TakeOne(list: seq<Kv>, kv: Kv, tail: seq<Kv>, left: seq<Kv>)
    requires left == [kv] + tail
    ensures list + left == list + [kv] + tail
  {
  }

  // ----- what every parse yields

  /** Nothing that would end a line or a C string. */
  predicate Plain(s: string) {
    Lacks(s, '\n') && Lacks(s, NUL)
  }

  predicate CleanText(s: string, size: nat) {
    |s| < size && Plain(s)
  }

  predicate CleanSection(s: string) {
    CleanText(s, SECTION_SIZE) && Lacks(s, ']')
  }

  predicate CleanKv(kv: Kv) {
    CleanSection(kv.section) && CleanText(kv.value, VALUE_SIZE)
  }

  predicate LineChunk(line: string) {
    Lacks(line, NUL) && forall i :: 0 <= i < |line| - 1 ==> line[i] != '\n'
  }

  lemma InLine(line: string)
    requires LineChunk(line)
    ensures Plain(RStrip(LTrim(line)))
  {
    var q := LTrim(line);
    var p := RStrip(q);
    assert forall i :: 0 <= i < |p| ==> p[i] == q[i] == line[LeadBlanks(line) + i];
  }

  lemma PlainValue(s: string)
    requires Plain(s)
    ensures Plain(ParseValue(s).0)
  {
  }

  lemma PlainFrom(s: string, k: nat, t: string)
    requires Plain(s) && k <= |s| && t == s[k..]
    ensures Plain(t)
  {
    assert forall i :: 0 <= i < |t| ==> t[i] == s[k + i];
  }

  predicate CleanLine(line: Line) {
    match line
    case Nothing => true
    case Header(name) => CleanSection(name)
    case Entry(_, v, _) => CleanText(v, VALUE_SIZE)
  }

  lemma SlotIsClean(s: string, size: nat)
    requires Plain(s) && size > 0
    ensures CleanText(Slot(s, size), size)
  {
  }

  /** The value of an entry is cut from the text after the equals sign. */
  lemma EntryValue(p: string) returns (t: string)
    requires ParseEntry(p).Entry?
    ensures IndexOf(p, '=') < |p| && t == p[IndexOf(p, '=') + 1..]
    ensures ParseEntry(p).value == Slot(ParseValue(LTrim(t)).0, VALUE_SIZE)
  {
    t := p[IndexOf(p, '=') + 1..];
  }

  lemma ValueIsClean(t: string, v: string)
    requires Plain(t) && v == Slot(ParseValue(LTrim(t)).0, VALUE_SIZE)
    ensures CleanText(v, VALUE_SIZE)
  {
    PlainFrom(t, LeadBlanks(t), LTrim(t));
    PlainValue(LTrim(t));
    SlotIsClean(ParseValue(LTrim(t)).0, VALUE_SIZE);
  }

  lemma HeaderIsClean(p: string)
    requires Plain(p) && p != "" && p[0] == '['
    ensures CleanLine(ParseHeader(p))
  {
    var start := if |p| > 1 && p[1] == '[' then p[2..] else p[1..];
    assert Plain(start);
    var name := start[..IndexOf(start, ']')];
    assert Plain(name) && Lacks(name, ']');
    SlotIsClean(name, SECTION_SIZE);
  }

  lemma ParsedLineIsClean(line: string)
    requires LineChunk(line)
    ensures CleanLine(ParseLine(line))
  {
    InLine(line);
    var p := RStrip(LTrim(line));
    if p != "" && p[0] == '[' {
      HeaderIsClean(p);
    } else if p != "" && p[0] != '#' {
      EntryIsClean(p, ParseEntry(p));
    }
  }

  lemma EntryIsClean(p: string, line: Line)
    requires Plain(p) && line == ParseEntry(p)
    ensures CleanLine(line)
  {
    if line.Entry? {
      var t := EntryValue(p);
      PlainFrom(p, IndexOf(p, '=') + 1, t);
      ValueIsClean(t, line.value);
    }
  }

  /** Whatever the file contains, parsed sections and values are clean. */
  lemma {:induction false} ParsedIsClean(section: string, text: string)
    requires CleanSection(section)
    ensures CleanKvs(ParseText(section, text))
    decreases |text|
  {
    if text != "" {
      var n := ChunkLen(text);
      var line := CStr(text[..n]);
      ParsedLineIsClean(line);
      assert ParseText(section, text) == Resume(section, ParseLine(line), text[n..]);
      match ParseLine(line) {
        case Nothing => ParsedIsClean(section, text[n..]);
        case Header(name) => ParsedIsClean(name, text[n..]);
        case Entry(_, _, _) => ParsedIsClean(section, text[n..]);
      }
    }
  }

  // ----- the printer

  datatype Item =
    | Comment
    | Section(name: string)
    | Str(key: string, text: string)
    | Int(key: string, value: i64)

  function PrintItem(item: Item): string {
    match item
    case Comment => "# zenctl profile\n"
    case Section(name) => "\n[" + name + "]\n"
    case Str(key, text) => key + " = \"" + text + "\"\n"
    case Int(key, value) => key + " = " + PrintInt(value) + "\n"
  }

  function Print(items: seq<Item>): string {
    if items == [] then "" else PrintItem(items[0]) + Print(items[1..])
  }

  /** The entries a list of items stands for. */
  function Entries(section: string, items: seq<Item>): seq<Kv>
    decreases items
  {
    if items == [] then []
    else match items[0]
      case Comment => Entries(section, items[1..])
      case Section(name) => Entries(name, items[1..])
      case Str(key, text) => [Kv(section, key, text, true)] + Entries(section, items[1..])
      case Int(key, value) => [Kv(section, key, PrintInt(value), false)] + Entries(section, items[1..])
  }

  // ----- reading printed lines

  lemma FirstLine(section: string, body: string, rest: string)
    requires Plain(body) && |body| + 1 < LINE_SIZE
    ensures ParseText(section, body + "\n" + rest) == Resume(section, ParseLine(body + "\n"), rest)
  {
    var text := body + "\n" + rest;
    var n := |body| + 1;
    assert text[|body|] == '\n' && forall i :: 0 <= i < |body| ==> text[i] == body[i];
    assert IndexOf(text, '\n') == |body|;
    assert text[..n] == body + "\n" && text[n..] == rest;
    assert Lacks(text[..n], NUL);
  }

  lemma TrimmedLine(body: string)
    requires body != "" && !IsBlank(body[0]) && !IsTrailing(body[|body| - 1])
    ensures RStrip(LTrim(body + "\n")) == body
  {
    var s := body + "\n";
    assert LeadBlanks(s) == 0 && s[0..] == s;
    assert s[..|s| - 1] == body;
  }

  predicate IsKeyChar(c: char) { IsAlpha(c) || IsDigit(c) || c == '_' }

  predicate GoodKey(key: string) {
    0 < |key| < KEY_SIZE && forall i :: 0 <= i < |key| ==> IsKeyChar(key[i])
  }

  lemma HeaderOf(name: string)
    requires CleanSection(name) && (name == "" || name[0] != '[')
    ensures ParseHeader("[" + name + "]") == Header(name)
  {
    var start := ("[" + name + "]")[1..];
    assert start == name + "]";
    assert start[|name|] == ']' && forall i :: 0 <= i < |name| ==> start[i] == name[i];
    assert start[..|name|] == name;
  }

  lemma KeyOf(key: string, v: string)
    requires GoodKey(key)
    ensures var p := key + " = " + v;
            && IndexOf(p, '=') == |key| + 1
            && TrimBlanksEnd(LTrim(p[..|key| + 1])) == key
            && p[|key| + 2..] == " " + v
  {
    var p := key + " = " + v;
    assert p[|key| + 1] == '=' && p[|key|] == ' ' && forall i :: 0 <= i < |key| ==> p[i] == key[i];
    var k := p[..|key| + 1];
    assert k == key + " " && LeadBlanks(k) == 0 && k[0..] == k;
    assert k[..|k| - 1] == key;
  }

  lemma EntryOf(key: string, v: string)
    requires GoodKey(key) && v != "" && !IsBlank(v[0])
    ensures ParseEntry(key + " = " + v) == Entry(key, Slot(ParseValue(v).0, VALUE_SIZE), ParseValue(v).1)
  {
    KeyOf(key, v);
    assert LeadBlanks(" " + v) == 1 by {
      assert (" " + v)[1..] == v;
    }
    assert LTrim(" " + v) == v;
  }

  lemma QuotedValue(text: string)
    ensures ParseValue("\"" + text + "\"") == (text, true)
  {
    var s := ("\"" + text + "\"")[1..];
    assert s == text + "\"";
    assert s[..|text|] == text;
  }

  lemma PlainConcat(s: string, t: string)
    requires Plain(s) && Plain(t)
    ensures Plain(s + t)
  {
  }

  /** A line `key = v` reads as one entry with that key. */
  lemma EntryLine(body: string, key: string, v: string)
    requires GoodKey(key) && v != "" && !IsBlank(v[0]) && !IsTrailing(v[|v| - 1])
    requires body == key + " = " + v && Plain(v)
    ensures ParseLine(body + "\n") == Entry(key, Slot(ParseValue(v).0, VALUE_SIZE), ParseValue(v).1)
    ensures Plain(body) && |body| == |key| + 3 + |v|
  {
    assert body[0] == key[0] && body[|body| - 1] == v[|v| - 1];
    PlainConcat(key, " = ");
    PlainConcat(key + " = ", v);
    TrimmedLine(body);
    EntryOf(key, v);
  }

  function ItemBody(item: Item): string
    requires item.Str? || item.Int?
  {
    match item
    case Str(key, text) => key + " = " + ("\"" + text + "\"")
    case Int(key, value) => key + " = " + PrintInt(value)
  }

  predicate CleanItem(item: Item) {
    match item
    case Comment => true
    case Section(name) => CleanSection(name)
    case Str(_, text) => CleanText(text, VALUE_SIZE)
    case Int(_, _) => true
  }

  /** What the program guarantees of the items it prints: fixed keys, and
      section names that begin with a letter. */
  predicate GoodItem(item: Item) {
    match item
    case Comment => true
    case Section(name) => name != "" && IsAlpha(name[0])
    case Str(key, _) => GoodKey(key)
    case Int(key, _) => GoodKey(key)
  }

  lemma PrintedNumber(v: i64)
    ensures var s := PrintInt(v);
            && Plain(s) && CleanText(s, VALUE_SIZE) && !IsBlank(s[0]) && !IsTrailing(s[|s| - 1])
            && ParseValue(s) == (s, false)
  {
    PrintIntLength(v);
  }

  lemma QuotedEnds(text: string)
    requires Plain(text)
    ensures var v := "\"" + text + "\""; Plain(v) && v[0] == '"' && v[|v| - 1] == '"' && |v| == |text| + 2
  {
  }

  /** Reading a line `key = v` whose value fits its slot, and what follows it. */
  lemma ReadEntry(section: string, body: string, key: string, v: string, value: string, isString: bool, rest: string)
    requires GoodKey(key) && v != "" && !IsBlank(v[0]) && !IsTrailing(v[|v| - 1])
    requires body == key + " = " + v && Plain(v)
    requires ParseValue(v) == (value, isString) && |value| < VALUE_SIZE && |v| <= |value| + 2
    ensures ParseText(section, body + "\n" + rest) == [Kv(section, key, value, isString)] + ParseText(section, rest)
  {
    EntryLine(body, key, v);
    FirstLine(section, body, rest);
  }

  lemma ReadStr(section: string, key: string, text: string, rest: string)
    requires GoodKey(key) && CleanText(text, VALUE_SIZE)
    ensures ParseText(section, PrintItem(Str(key, text)) + rest) == [Kv(section, key, text, true)] + ParseText(section, rest)
  {
    var v := "\"" + text + "\"";
    QuotedEnds(text);
    QuotedValue(text);
    var body := key + " = " + v;
    assert PrintItem(Str(key, text)) == body + "\n";
    ReadEntry(section, body, key, v, text, true, rest);
  }

  lemma ReadInt(section: string, key: string, value: i64, rest: string)
    requires GoodKey(key)
    ensures ParseText(section, PrintItem(Int(key, value)) + rest)
         == [Kv(section, key, PrintInt(value), false)] + ParseText(section, rest)
  {
    var v := PrintInt(value);
    PrintedNumber(value);
    var body := key + " = " + v;
    assert PrintItem(Int(key, value)) == body + "\n";
    ReadEntry(section, body, key, v, v, false, rest);
  }

  lemma ReadComment(section: string, rest: string)
    ensures ParseText(section, PrintItem(Comment) + rest) == ParseText(section, rest)
  {
    var body := "# zenctl profile";
    assert PrintItem(Comment) == body + "\n";
    TrimmedLine(body);
    FirstLine(section, body, rest);
  }

  lemma EntriesOfOne(section: string, item: Item)
    ensures Entries(section, [item]) ==
            (if item.Str? then [Kv(section, item.key, item.text, true)]
             else if item.Int? then [Kv(section, item.key, PrintInt(item.value), false)]
             else [])
  {
    assert [item][1..] == [];
  }

  /** Reading one printed item and what follows it. */
  lemma ReadItem(section: string, item: Item, rest: string)
    requires GoodItem(item) && CleanItem(item)
    ensures ParseText(section, PrintItem(item) + rest) ==
            if item.Section? then ParseText(item.name, rest)
            else Entries(section, [item]) + ParseText(section, rest)
  {
    EntriesOfOne(section, item);
    match item {
      case Comment => ReadComment(section, rest);
      case Section(name) => ReadSection(section, name, rest);
      case Str(key, text) => ReadStr(section, key, text, rest);
      case Int(key, value) => ReadInt(section, key, value, rest);
    }
  }

  lemma ReadSection(section: string, name: string, rest: string)
    requires CleanSection(name) && name != "" && IsAlpha(name[0])
    ensures ParseText(section, "\n[" + name + "]\n" + rest) == ParseText(name, rest)
  {
    var body := "[" + name + "]";
    var after := body + "\n" + rest;
    assert "\n[" + name + "]\n" + rest == "" + "\n" + after;
    FirstLine(section, "", after);
    assert ParseLine("" + "\n") == Nothing;
    HeaderLine(body, name);
    FirstLine(section, body, rest);
  }

  lemma HeaderLine(body: string, name: string)
    requires CleanSection(name) && name != "" && IsAlpha(name[0]) && body == "[" + name + "]"
    ensures ParseLine(body + "\n") == Header(name) && Plain(body) && |body| == |name| + 2
  {
    PlainConcat("[", name);
    PlainConcat("[" + name, "]");
    TrimmedLine(body);
    HeaderOf(name);
  }

  // ----- printing and parsing undo each other

  predicate GoodItems(items: seq<Item>) {
    forall i :: 0 <= i < |items| ==> GoodItem(items[i])
  }

  predicate CleanItems(items: seq<Item>) {
    forall i :: 0 <= i < |items| ==> CleanItem(items[i])
  }

  predicate CleanKvs(kvs: seq<Kv>) {
    forall i :: 0 <= i < |kvs| ==> CleanKv(kvs[i])
  }

  /** Every section that is opened holds an entry. */
  predicate Populated(items: seq<Item>) {
    forall i :: 0 <= i < |items| && items[i].Section? ==>
      i + 1 < |items| && (items[i + 1].Str? || items[i + 1].Int?)
  }

  lemma {:induction false} ReadItems(section: string, items: seq<Item>)
    requires GoodItems(items) && CleanItems(items)
    ensures ParseText(section, Print(items)) == Entries(section, items)
    decreases items
  {
    if items != [] {
      var item, rest := items[0], items[1..];
      var text := Print(rest);
      assert Print(items) == PrintItem(item) + text;
      assert GoodItem(item) && CleanItem(item);
      ReadItem(section, item, text);
      EntriesStep(section, items, item, rest);
      ReadItems(if item.Section? then item.name else section, rest);
    }
  }

  lemma EntriesStep(section: string, items: seq<Item>, item: Item, rest: seq<Item>)
    requires items != [] && item == items[0] && rest == items[1..]
    ensures Entries(section, items) ==
            if item.Section? then Entries(item.name, rest) else Entries(section, [item]) + Entries(section, rest)
  {
    assert Entries(section, [item][1..]) == [];
  }

  lemma CleanTail(kvs: seq<Kv>, tail: seq<Kv>)
    requires CleanKvs(kvs) && |tail| <= |kvs| && kvs[|kvs| - |tail|..] == tail
    ensures CleanKvs(tail)
  {
    assert forall i :: 0 <= i < |tail| ==> tail[i] == kvs[|kvs| - |tail| + i];
  }

  lemma {:induction false} ItemsAreExposed(section: string, items: seq<Item>)
    requires Populated(items) && CleanKvs(Entries(section, items))
    ensures CleanItems(items)
    decreases items
  {
    if items != [] {
      var item, rest := items[0], items[1..];
      var next := if item.Section? then item.name else section;
      var tail := Entries(next, rest);
      CleanTail(Entries(section, items), tail);
      assert Populated(rest) by {
        assert forall i :: 0 <= i < |rest| ==> rest[i] == items[i + 1];
      }
      if item.Section? {
        assert rest[0] == items[1] && CleanKv(tail[0]) && tail[0].section == item.name;
      } else if item.Str? {
        assert CleanKv(Entries(section, items)[0]);
      }
      ItemsAreExposed(next, rest);
      assert forall i :: 0 < i < |items| ==> items[i] == rest[i - 1];
    }
  }

  /** Parsing a printed document returns its entries exactly when every string
      value and section name is free of line ends and NULs and fits its slot,
      and no section name holds a closing bracket. */
  lemma PrintParse(items: seq<Item>)
    requires GoodItems(items) && Populated(items)
    ensures ParseText("", Print(items)) == Entries("", items) <==> CleanItems(items)
  {
    if CleanItems(items) {
      ReadItems("", items);
    }
    if ParseText("", Print(items)) == Entries("", items) {
      ParsedIsClean("", Print(items));
      ItemsAreExposed("", items);
    }
  }

  // ----- the line grammar, apart from what the printer writes

  /** Quotes of either kind enclose a string, whatever is inside; without a
      closing one the rest of the line is the string; other text is bare. */
  lemma ValueForms(text: string, s: string)
    ensures ParseValue("'" + text + "'") == (text, true) == ParseValue("\"" + text + "\"")
    ensures Lacks(text, '\'') ==> ParseValue("'" + text) == (text, true)
    ensures Lacks(text, '"') ==> ParseValue("\"" + text) == (text, true)
    ensures s == "" || (s[0] != '"' && s[0] != '\'') ==> ParseValue(s) == (s, false)
  {
    QuotedValue(text);
    var t := text + "'";
    assert ("'" + text + "'")[1..] == t && t[..|text|] == text;
    assert ("'" + text)[1..] == text && ("\"" + text)[1..] == text && text[..|text|] == text;
  }

  predicate Blanks(s: string) {
    forall i :: 0 <= i < |s| ==> s[i] == ' ' || s[i] == '\t'
  }

  predicate Trailing(s: string) {
    forall i :: 0 <= i < |s| ==> s[i] == ' ' || s[i] == '\t' || s[i] == '\n' || s[i] == '\r'
  }

  lemma {:induction false} TrailingCut(s: string, tail: string)
    requires Trailing(tail) && (s == "" || !IsTrailing(s[|s| - 1]))
    ensures RStrip(s + tail) == s
    decreases |tail|
  {
    if tail == "" {
      assert s + tail == s;
    } else {
      assert (s + tail)[..|s + tail| - 1] == s + tail[..|tail| - 1];
      TrailingCut(s, tail[..|tail| - 1]);
    }
  }

  lemma {:induction false} LeadCut(lead: string, s: string)
    requires Blanks(lead) && (s == "" || !IsBlank(s[0]))
    ensures LTrim(lead + s) == s
    decreases |lead|
  {
    if lead == "" {
      assert lead + s == s && s[0..] == s;
    } else {
      TailOfConcat(lead, s);
      LeadCut(lead[1..], s);
      assert LeadBlanks(lead + s) == 1 + LeadBlanks(lead[1..] + s);
    }
  }

  lemma {:induction false} BlanksCut(s: string, gap: string)
    requires Blanks(gap) && (s == "" || !IsBlank(s[|s| - 1]))
    ensures TrimBlanksEnd(s + gap) == s
    decreases |gap|
  {
    if gap == "" {
      assert s + gap == s;
    } else {
      assert (s + gap)[..|s + gap| - 1] == s + gap[..|gap| - 1];
      BlanksCut(s, gap[..|gap| - 1]);
    }
  }

  /** Blanks before the line and trailing white space do not matter. */
  lemma LineBody(lead: string, body: string, tail: string)
    requires Blanks(lead) && Trailing(tail)
    requires body != "" && !IsBlank(body[0]) && !IsTrailing(body[|body| - 1])
    ensures RStrip(LTrim(lead + (body + tail))) == body
  {
    LeadCut(lead, body + tail);
    TrailingCut(body, tail);
  }

  /** A comment, or a line of white space alone, says nothing. */
  lemma SkippedLine(lead: string, body: string, tail: string)
    requires Blanks(lead) && Trailing(tail)
    requires body != "" && body[0] == '#' && !IsTrailing(body[|body| - 1])
    ensures ParseLine(lead + (body + tail)) == Nothing && ParseLine(tail) == Nothing
  {
    LineBody(lead, body, tail);
    AllTrailing(tail);
  }

  lemma AllTrailing(tail: string)
    requires Trailing(tail)
    ensures RStrip(LTrim(tail)) == ""
  {
    var q := LTrim(tail);
    assert forall i :: 0 <= i < |q| ==> q[i] == tail[LeadBlanks(tail) + i];
    TrailingCut("", q);
    assert "" + q == q;
  }

  /** One or two brackets open a section; its name goes up to the first closing
      one and what follows is ignored. */
  lemma SectionForms(name: string, junk: string, start: string)
    requires Lacks(name, ']') && (name == "" || name[0] != '[') && |name| < 128
    requires start == name + ("]" + junk)
    ensures ParseHeader("[" + start) == ParseHeader("[[" + start) == Header(name)
  {
    SectionEnd(start, name, junk);
    assert start[0] != '[';
    OneBracket("[" + start, start);
    TwoBrackets("[[" + start, start);
  }

  lemma OneBracket(p: string, start: string)
    requires p == "[" + start && start != "" && start[0] != '['
    ensures var e := IndexOf(start, ']');
            ParseHeader(p) == if e == |start| then Nothing else Header(Slot(start[..e], 128))
  {
    assert p[1..] == start;
  }

  lemma TwoBrackets(p: string, start: string)
    requires p == "[[" + start
    ensures var e := IndexOf(start, ']');
            ParseHeader(p) == if e == |start| then Nothing else Header(Slot(start[..e], 128))
  {
    assert p[2..] == start;
  }

  lemma SectionEnd(start: string, name: string, junk: string)
    requires start == name + ("]" + junk) && Lacks(name, ']')
    ensures IndexOf(start, ']') == |name| < |start| && start[..|name|] == name
  {
    assert start == name + [']'] + junk;
    IndexOfSplit(name, ']', junk);
  }

  /** An entry is split at the first equals sign; blanks around key and value do
      not matter, and a bare value keeps everything else. */
  lemma EntryForms(key: string, gap1: string, gap2: string, v: string)
    requires key != "" && Lacks(key, '=') && !IsBlank(key[0]) && !IsBlank(key[|key| - 1]) && |key| < 128
    requires Blanks(gap1) && Blanks(gap2) && v != "" && !IsBlank(v[0])
    ensures ParseEntry(key + gap1 + "=" + (gap2 + v)) == Entry(key, Slot(ParseValue(v).0, 512), ParseValue(v).1)
  {
    var head := key + gap1;
    var p := head + "=" + (gap2 + v);
    assert Lacks(head, '=') && p == head + ['='] + (gap2 + v);
    IndexOfSplit(head, '=', gap2 + v);
    assert p[..|head|] == head && p[|head| + 1..] == gap2 + v;
    LeadCut("", head);
    assert "" + head == head;
    BlanksCut(key, gap1);
    LeadCut(gap2, v);
  }

  /** A line longer than the buffer is taken in pieces of 1023 bytes. */
  lemma LongLine(text: string)
    requires |text| >= 1023 && forall i :: 0 <= i < 1023 ==> text[i] != '\n'
    ensures ChunkLen(text) == 1023
  {
  }

  /** Strings of at most 511 bytes and section names of at most 127 are clean, if
      they hold no line feed, NUL or, for a section, closing bracket. */
  lemma CleanMeans(key: string, s: string)
    ensures CleanItem(Str(key, s)) <==> |s| <= 511 && forall i :: 0 <= i < |s| ==> s[i] != '\n' && s[i] != '\0'
    ensures CleanItem(Section(s)) <==>
            |s| <= 127 && forall i :: 0 <= i < |s| ==> s[i] != '\n' && s[i] != '\0' && s[i] != ']'
  {
  }

  /** The printed form of each kind of item. */
  lemma PrintedText()
    ensures Print([Comment, Int("version", 1), Section("cpu"), Str("governor", "x")])
            == "# zenctl profile\n" + ("version = 1\n" + ("\n[cpu]\n" + "governor = \"x\"\n"))
  {
    var d := [Str("governor", "x")];
    var c := [Section("cpu")] + d;
    var b := [Int("version", 1)] + c;
    var a := [Comment] + b;
    assert d[1..] == [] && c[1..] == d && b[1..] == c && a[1..] == b;
    assert PrintInt(1) == "1";
    assert Print([]) == "";
    assert Print(d) == PrintItem(d[0]) + "";
    assert Print(c) == PrintItem(c[0]) + Print(d);
    assert Print(b) == PrintItem(b[0]) + Print(c);
    assert a == [Comment, Int("version", 1), Section("cpu"), Str("governor", "x")];
  }
}
