/** ACPI wake sources: an absolute setter over a kernel file that can only
    toggle, deciding from the text of the wake table. */
module Wakeup {
  import opened Bytes
  import opened CText
  import opened FileIo

  // ----- tokens of concatenated text

  // ----- the wake table

  const HEADER := "Device" + ("\t" + ("S-state" + ("\t  " + ("Status" + "   Sysfs node"))))
  const TABLE_SIZE := 16384
  const BLANKS: set<char> := {' ', '\t'}
  const NEWLINE: set<char> := {'\n'}
  const PATH_CHARS: set<char> := {'/', '\n', '\r', '\t', ' '}
  const WORD_ENDS: set<char> := {' ', '\t', '\n', '\r', NUL}
  const LINE_ENDS: set<char> := {'\n', '\r', NUL}

  /** One row: name, S-state and status set apart by blanks, then the rest. */
  datatype Row = Row(name: string, gap1: string, sstate: string, gap2: string, enabled: bool, tail: string)

  function Status(enabled: bool): string {
    if enabled then "*enabled" else "*disabled"
  }

  function Render(r: Row): string {
    r.name + (r.gap1 + (r.sstate + (r.gap2 + (Status(r.enabled) + r.tail))))
  }

  predicate Word(s: string) {
    s != "" && NoneIn(s, WORD_ENDS)
  }

  predicate Gap(s: string) {
    s != "" && AllIn(s, BLANKS)
  }

  predicate RowOk(r: Row) {
    && Word(r.name) && IsAlpha(r.name[0]) && Gap(r.gap1) && Word(r.sstate) && Gap(r.gap2)
    && NoneIn(r.tail, LINE_ENDS) && (r.tail == "" || r.tail[0] in BLANKS)
  }

  function Lines(rows: seq<Row>): string {
    if rows == [] then "" else "\n" + (Render(rows[0]) + Lines(rows[1..]))
  }

  function TableText(rows: seq<Row>): string {
    HEADER + Lines(rows) + "\n"
  }

  function AllDisabled(rows: seq<Row>): (r: seq<Row>)
    ensures |r| == |rows| && forall i :: 0 <= i < |rows| ==> r[i] == rows[i].(enabled := false)
  {
    if rows == [] then [] else [rows[0].(enabled := false)] + AllDisabled(rows[1..])
  }

  /** A table in the documented form that fits the reader's buffer, and would
      also with every device disabled: that word is the longer one. */
  predicate TableOk(rows: seq<Row>) {
    && (forall i :: 0 <= i < |rows| ==> RowOk(rows[i]))
    && (forall i, j :: 0 <= i < j < |rows| ==> rows[i].name != rows[j].name)
    && |TableText(AllDisabled(rows))| < TABLE_SIZE
  }

  lemma {:induction false} DisabledIsLonger(rows: seq<Row>)
    ensures |Lines(rows)| <= |Lines(AllDisabled(rows))|
    decreases rows
  {
    if rows != [] {
      DisabledIsLonger(rows[1..]);
      assert AllDisabled(rows)[1..] == AllDisabled(rows[1..]);
      assert |Render(rows[0])| <= |Render(rows[0].(enabled := false))|;
    }
  }

  // ----- deciding from the text

  predicate NameOk(device: string) {
    device != "" && NoneIn(device, PATH_CHARS)
  }

  /** The state a line gives for a device, if it is that device's row. */
  function StateIn(line: string, device: string): Option<bool> {
    var toks := Tokens(line, BLANKS);
    if toks == [] || toks[0] == "" || !IsAlpha(toks[0][0]) || toks[0] != device || |toks| < 3 then None
    else Some(toks[2] == "*enabled")
  }

  function Scan(lines: seq<string>, device: string): Option<bool> {
    if lines == [] then None
    else if StateIn(lines[0], device).Some? then StateIn(lines[0], device)
    else Scan(lines[1..], device)
  }

  method ReadRow(line: string, device: string) returns (state: Option<bool>)
    ensures state == StateIn(line, device)
  {
    var dev, rest := NextToken(line, BLANKS);
    if dev.None? {
      return None;
    }
    if dev.value[0] == '-' || !IsAlpha(dev.value[0]) {
      return None;
    }
    if dev.value != device {
      return None;
    }
    var sstate, rest2 := NextToken(rest, BLANKS);
    if sstate.None? {
      assert |Tokens(line, BLANKS)| == 1;
      return None;
    }
    var status, rest3 := NextToken(rest2, BLANKS);
    if status.None? {
      assert |Tokens(line, BLANKS)| == 2;
      return None;
    }
    ThirdToken(line, dev.value, sstate.value, status.value, Tokens(rest3, BLANKS), device);
    return Some(status.value == "*enabled");
  }

  /** Row by row until one answers. */
  method FindState(text: string, device: string) returns (state: Option<bool>)
    ensures state == Scan(Tokens(text, NEWLINE), device)
  {
    ghost var left := Tokens(text, NEWLINE);
    var line, rest := NextToken(text, NEWLINE);
    while line.Some?
      invariant Scan(Tokens(text, NEWLINE), device) == Scan(left, device)
      invariant left == if line.Some? then [line.value] + Tokens(rest, NEWLINE) else []
      decreases line.Some?, |rest|
    {
      ghost var next := Tokens(rest, NEWLINE);
      assert left[0] == line.value && left[1..] == next;
      state := ReadRow(line.value, device);
      if state.Some? {
        return;
      }
      left := next;
      line, rest := NextToken(rest, NEWLINE);
    }
    return None;
  }

  // ----- what the text of a well-formed table says

  /** A line of three words and a rest answers for the first with the third. */
  lemma ThreeWords(line: string, a: string, g1: string, b: string, g2: string, c: string, tail: string, device: string)
    requires line == a + (g1 + (b + (g2 + (c + tail))))
    requires a != "" && b != "" && c != "" && NoneIn(a, BLANKS) && NoneIn(b, BLANKS) && NoneIn(c, BLANKS)
    requires Gap(g1) && Gap(g2) && (tail == "" || tail[0] in BLANKS)
    ensures StateIn(line, device) == if IsAlpha(a[0]) && a == device then Some(c == "*enabled") else None
  {
    var s4 := c + tail;
    var s3 := g2 + s4;
    var s2 := b + s3;
    TokenHead(a, g1 + s2, BLANKS);
    SkipGap(g1, s2, BLANKS);
    TokenHead(b, s3, BLANKS);
    SkipGap(g2, s4, BLANKS);
    TokenHead(c, tail, BLANKS);
    ThirdToken(line, a, b, c, Tokens(tail, BLANKS), device);
  }

  lemma ThirdToken(line: string, a: string, b: string, c: string, rest: seq<string>, device: string)
    requires a != "" && Tokens(line, BLANKS) == [a] + ([b] + ([c] + rest))
    ensures StateIn(line, device) == if IsAlpha(a[0]) && a == device then Some(c == "*enabled") else None
  {
  }

  lemma RowState(r: Row, device: string)
    requires RowOk(r)
    ensures StateIn(Render(r), device) == if r.name == device then Some(r.enabled) else None
  {
    var status := Status(r.enabled);
    assert status[0] == '*' && (status == "*enabled" <==> r.enabled) by {
      assert |"*enabled"| != |"*disabled"|;
    }
    assert NoneIn(status, BLANKS);
    ThreeWords(Render(r), r.name, r.gap1, r.sstate, r.gap2, status, r.tail, device);
  }

  /** The heading is itself read as the row of a disabled device "Device". */
  lemma HeaderState(device: string)
    ensures StateIn(HEADER, device) == if device == "Device" then Some(false) else None
  {
    HeaderWords();
    ThreeWords(HEADER, "Device", "\t", "S-state", "\t  ", "Status", "   Sysfs node", device);
  }

  lemma HeaderWords()
    ensures NoneIn("Device", BLANKS) && NoneIn("S-state", BLANKS) && NoneIn("Status", BLANKS)
    ensures Gap("\t") && Gap("\t  ") && "Status" != "*enabled" && "   Sysfs node"[0] in BLANKS
    ensures IsAlpha("Device"[0])
  {
    assert "Status"[0] != "*enabled"[0];
  }

  lemma RowIsLine(r: Row)
    requires RowOk(r)
    ensures NoneIn(Render(r), LINE_ENDS) && Render(r) != ""
  {
    var s4 := Status(r.enabled) + r.tail;
    assert NoneIn(s4, LINE_ENDS);
    var s3 := r.gap2 + s4;
    assert NoneIn(s3, LINE_ENDS);
    var s2 := r.sstate + s3;
    assert NoneIn(s2, LINE_ENDS);
    var s1 := r.gap1 + s2;
    assert NoneIn(s1, LINE_ENDS);
  }

  function Rendered(rows: seq<Row>): seq<string> {
    if rows == [] then [] else [Render(rows[0])] + Rendered(rows[1..])
  }

  lemma {:induction false} LinesForm(rows: seq<Row>)
    requires forall i :: 0 <= i < |rows| ==> RowOk(rows[i])
    ensures Lacks(Lines(rows), NUL)
    ensures rows != [] ==> Lines(rows)[0] == '\n' && !IsEol(Lines(rows)[|Lines(rows)| - 1])
    decreases rows
  {
    if rows != [] {
      var r, rest := Render(rows[0]), Lines(rows[1..]);
      LinesForm(rows[1..]);
      RowIsLine(rows[0]);
      OneLine(r, rest);
    }
  }

  lemma OneLine(r: string, rest: string)
    requires r != "" && NoneIn(r, LINE_ENDS) && Lacks(rest, NUL)
    requires rest != "" ==> !IsEol(rest[|rest| - 1])
    ensures var s := "\n" + (r + rest); Lacks(s, NUL) && s[0] == '\n' && !IsEol(s[|s| - 1])
  {
    assert Lacks(r, NUL);
    LacksConcat(r, rest, NUL);
    LacksConcat("\n", r + rest, NUL);
    assert !IsEol(r[|r| - 1]);
  }

  lemma {:induction false} LineTokens(rows: seq<Row>)
    requires forall i :: 0 <= i < |rows| ==> RowOk(rows[i])
    ensures Tokens(Lines(rows), NEWLINE) == Rendered(rows)
    decreases rows
  {
    if rows != [] {
      var r, rest := Render(rows[0]), Lines(rows[1..]);
      LineTokens(rows[1..]);
      LinesForm(rows[1..]);
      RowIsLine(rows[0]);
      SkipGap("\n", r + rest, NEWLINE);
      TokenHead(r, rest, NEWLINE);
    }
  }

  lemma HeaderForm(header: string)
    requires header == HEADER
    ensures NoneIn(header, NEWLINE) && Lacks(header, NUL) && header != "" && !IsEol(header[|header| - 1])
  {
  }

  lemma TableLines(rows: seq<Row>)
    requires TableOk(rows)
    ensures Tokens(FileText(TableText(rows), TABLE_SIZE), NEWLINE) == [HEADER] + Rendered(rows)
  {
    LineTokens(rows);
    LinesForm(rows);
    DisabledIsLonger(rows);
    HeaderForm(HEADER);
    TableBuffer(HEADER, Lines(rows), TableText(rows));
    TokenHead(HEADER, Lines(rows), NEWLINE);
  }

  lemma TableBuffer(header: string, lines: string, text: string)
    requires text == header + lines + "\n" && |text| < TABLE_SIZE
    requires Lacks(header, NUL) && Lacks(lines, NUL) && header != "" && !IsEol(header[|header| - 1])
    requires lines != "" ==> !IsEol(lines[|lines| - 1])
    ensures FileText(text, TABLE_SIZE) == header + lines
  {
    var body := header + lines;
    LacksConcat(header, lines, NUL);
    StripEolAppend(body, "\n");
    assert text[..|text|] == text;
  }

  lemma {:induction false} ScanRows(rows: seq<Row>, device: string)
    requires forall i :: 0 <= i < |rows| ==> RowOk(rows[i])
    ensures Scan(Rendered(rows), device) ==
            if Find(rows, device) < |rows| then Some(rows[Find(rows, device)].enabled) else None
    decreases rows
  {
    if rows != [] {
      RowState(rows[0], device);
      ScanRows(rows[1..], device);
    }
  }

  /** Index of the device's row, or the number of rows. */
  function Find(rows: seq<Row>, device: string): (k: nat)
    ensures k <= |rows| && (k < |rows| ==> rows[k].name == device)
    ensures forall i :: 0 <= i < k ==> rows[i].name != device
  {
    if rows == [] || rows[0].name == device then 0 else 1 + Find(rows[1..], device)
  }

  predicate Listed(rows: seq<Row>, device: string) {
    Find(rows, device) < |rows|
  }

  function StateOf(rows: seq<Row>, device: string): Option<bool> {
    if Listed(rows, device) then Some(rows[Find(rows, device)].enabled) else None
  }

  /** The state read for a device is that of its row, and none if it has no row;
      only the name in the heading is always found, and found disabled. */
  lemma TableState(rows: seq<Row>, device: string)
    requires TableOk(rows)
    ensures Scan(Tokens(FileText(TableText(rows), TABLE_SIZE), NEWLINE), device) ==
            if device == "Device" then Some(false) else StateOf(rows, device)
  {
    TableLines(rows);
    HeaderState(device);
    ScanRows(rows, device);
    var lines := [HEADER] + Rendered(rows);
    assert lines[0] == HEADER && lines[1..] == Rendered(rows);
  }

  // ----- what the kernel does

  /** What the kernel does with a name written to the file. */
  function Toggled(rows: seq<Row>, device: string): (r: seq<Row>)
    ensures |r| == |rows|
  {
    if rows == [] then []
    else [if rows[0].name == device then rows[0].(enabled := !rows[0].enabled) else rows[0]]
         + Toggled(rows[1..], device)
  }

  /** The table with one device's state given. */
  function WithState(rows: seq<Row>, device: string, enabled: bool): seq<Row> {
    var k := Find(rows, device);
    if k < |rows| then rows[k := rows[k].(enabled := enabled)] else rows
  }

  lemma {:induction false} ToggledNone(rows: seq<Row>, device: string)
    requires forall i :: 0 <= i < |rows| ==> rows[i].name != device
    ensures Toggled(rows, device) == rows
    decreases rows
  {
    if rows != [] {
      ToggledNone(rows[1..], device);
    }
  }

  lemma WithStateTail(rows: seq<Row>, tail: seq<Row>, device: string)
    requires rows != [] && tail == rows[1..] && rows[0].name != device
    ensures Listed(rows, device) == Listed(tail, device)
    ensures Listed(tail, device) ==> rows[Find(rows, device)] == tail[Find(tail, device)]
    ensures forall e :: WithState(rows, device, e) == [rows[0]] + WithState(tail, device, e)
  {
    assert Find(rows, device) == 1 + Find(tail, device);
  }

  lemma {:induction false} ToggleIsSet(rows: seq<Row>, device: string)
    requires forall i, j :: 0 <= i < j < |rows| ==> rows[i].name != rows[j].name
    ensures Listed(rows, device) ==>
      Toggled(rows, device) == WithState(rows, device, !rows[Find(rows, device)].enabled)
    ensures !Listed(rows, device) ==> Toggled(rows, device) == rows
    decreases rows
  {
    if rows != [] {
      if rows[0].name == device {
        ToggledNone(rows[1..], device);
      } else {
        ToggleIsSet(rows[1..], device);
        WithStateTail(rows, rows[1..], device);
      }
    }
  }

  // ----- the setter

  /** What the reader finds out about a device from the file as it is. */
  function Shown(rows: seq<Row>, device: string): Option<bool> {
    Scan(Tokens(FileText(TableText(rows), TABLE_SIZE), NEWLINE), device)
  }

  class Acpi {
    /** The kernel's wake sources, and how often the file has been written. */
    var rows: seq<Row>
    var writes: nat

    constructor (rows: seq<Row>)
      ensures this.rows == rows && writes == 0
    {
      this.rows, writes := rows, 0;
    }

    method WriteName(device: string)
      modifies this
      ensures rows == Toggled(old(rows), device) && writes == old(writes) + 1
    {
      rows := Toggled(rows, device);
      writes := writes + 1;
    }

    /** Makes an absolute setter of a file that only toggles. `readable` and
        `writable` say whether the file can be read and written. */
    method SetWakeup(device: string, enabled: bool, readable: bool, writable: bool) returns (ok: bool)
      modifies this
      ensures var shown := if NameOk(device) && readable then Shown(old(rows), device) else None;
              var toggle := shown == Some(!enabled) && writable;
              && (ok <==> shown == Some(enabled) || toggle)
              && rows == (if toggle then Toggled(old(rows), device) else old(rows))
              && writes == old(writes) + (if toggle then 1 else 0)
    {
      if device == "" {
        return false;
      }
      var c := 0;
      while c < |device|
        invariant 0 <= c <= |device|
        invariant forall i :: 0 <= i < c ==> device[i] !in PATH_CHARS
      {
        if device[c] in PATH_CHARS {
          return false;
        }
        c := c + 1;
      }
      if !readable {
        return false;
      }
      var text := ReadFileString(Some(TableText(rows)), TABLE_SIZE);
      var state := FindState(text.value, device);
      if state.None? {
        return false;
      }
      if state.value == enabled {
        return true;
      }
      if !writable {
        return false;
      }
      WriteName(device);
      return true;
    }
  }

  // ----- what it amounts to on a well-formed table

  /** The table after a call, and whether the file was written. */
  function Step(rows: seq<Row>, device: string, enabled: bool): seq<Row> {
    if NameOk(device) && Shown(rows, device) == Some(!enabled) then Toggled(rows, device) else rows
  }

  /** A listed device ends in the state asked for and every other row is as it
      was; the file is written exactly when that is a change. An unlisted device
      is an error without a write, if and only if it is not called like the
      first word of the heading. */
  lemma StepSetsState(rows: seq<Row>, device: string, enabled: bool)
    requires TableOk(rows)
    ensures device != "Device" ==> (Shown(rows, device) != None <==> Listed(rows, device))
    ensures device == "Device" ==> Shown(rows, device) == Some(false)
    ensures NameOk(device) && device != "Device" ==>
      && Step(rows, device, enabled) == WithState(rows, device, enabled)
      && (Shown(rows, device) == Some(!enabled) <==> WithState(rows, device, enabled) != rows)
    ensures !NameOk(device) || !Listed(rows, device) ==> Step(rows, device, enabled) == rows
  {
    TableState(rows, device);
    StepWhenShown(rows, device, enabled, Shown(rows, device));
  }

  lemma StepWhenShown(rows: seq<Row>, device: string, enabled: bool, shown: Option<bool>)
    requires TableOk(rows)
    ensures !Listed(rows, device) ==> Toggled(rows, device) == rows
    ensures shown == StateOf(rows, device) ==>
      && (if shown == Some(!enabled) then Toggled(rows, device) else rows) == WithState(rows, device, enabled)
      && (shown == Some(!enabled) <==> WithState(rows, device, enabled) != rows)
  {
    ToggleIsSet(rows, device);
    if Listed(rows, device) {
      var k := Find(rows, device);
      assert WithState(rows, device, enabled)[k] == rows[k].(enabled := enabled);
    }
  }

  predicate SameButState(rows: seq<Row>, now: seq<Row>) {
    |rows| == |now| && forall i :: 0 <= i < |rows| ==> now[i] == rows[i].(enabled := now[i].enabled)
  }

  lemma StillOk(rows: seq<Row>, now: seq<Row>)
    requires TableOk(rows) && SameButState(rows, now)
    ensures TableOk(now)
  {
    assert AllDisabled(now) == AllDisabled(rows);
  }

  lemma {:induction false} TogglingKeepsRows(rows: seq<Row>, device: string)
    ensures SameButState(rows, Toggled(rows, device))
    ensures forall i :: 0 <= i < |rows| && rows[i].name != device ==> Toggled(rows, device)[i] == rows[i]
    decreases rows
  {
    if rows != [] {
      TogglingKeepsRows(rows[1..], device);
    }
  }

  // ----- whole runs

  datatype Call = Call(device: string, enabled: bool)

  function Run(rows: seq<Row>, calls: seq<Call>): seq<Row>
    decreases calls
  {
    if calls == [] then rows else Run(Step(rows, calls[0].device, calls[0].enabled), calls[1..])
  }

  /** The state last asked for, or the one at the start. */
  function LastAsked(calls: seq<Call>, device: string, start: bool): bool
    decreases calls
  {
    if calls == [] then start
    else LastAsked(calls[1..], device, if calls[0].device == device then calls[0].enabled else start)
  }

  lemma SameFind(rows: seq<Row>, now: seq<Row>, device: string)
    requires SameButState(rows, now)
    ensures Find(now, device) == Find(rows, device)
  {
    var k, n := Find(rows, device), Find(now, device);
    assert k < |rows| ==> now[k].name == device;
    assert n < |now| ==> rows[n].name == device;
  }

  lemma OthersKeep(rows: seq<Row>, toggled: string, device: string)
    requires toggled != device
    ensures StateOf(Toggled(rows, toggled), device) == StateOf(rows, device)
  {
    TogglingKeepsRows(rows, toggled);
    SameFind(rows, Toggled(rows, toggled), device);
  }

  lemma StateOfSet(rows: seq<Row>, now: seq<Row>, device: string, enabled: bool)
    requires Listed(rows, device) && now == WithState(rows, device, enabled)
    ensures StateOf(now, device) == Some(enabled)
  {
    SameFind(rows, now, device);
  }

  predicate Settable(device: string) {
    NameOk(device) && device != "Device"
  }

  /** The state of a listed device after one call. */
  lemma StateAfterStep(rows: seq<Row>, call: Call, device: string)
    requires TableOk(rows) && Listed(rows, device) && Settable(device)
    ensures StateOf(Step(rows, call.device, call.enabled), device) ==
            if call.device == device then Some(call.enabled) else StateOf(rows, device)
  {
    if call.device == device {
      StepSetsState(rows, device, call.enabled);
      StateOfSet(rows, Step(rows, device, call.enabled), device, call.enabled);
    } else {
      OthersKeep(rows, call.device, device);
    }
  }

  lemma StepKeepsTable(rows: seq<Row>, call: Call)
    requires TableOk(rows)
    ensures TableOk(Step(rows, call.device, call.enabled))
  {
    TogglingKeepsRows(rows, call.device);
    StillOk(rows, Step(rows, call.device, call.enabled));
  }

  /** Over every run of calls, with whatever names and states: the table stays
      well formed and a listed device is in the state last asked for. */
  lemma {:induction false} LastCallDecides(rows: seq<Row>, calls: seq<Call>, device: string)
    requires TableOk(rows) && Listed(rows, device) && Settable(device)
    ensures TableOk(Run(rows, calls))
    ensures StateOf(Run(rows, calls), device) == Some(LastAsked(calls, device, StateOf(rows, device).value))
    decreases calls
  {
    if calls != [] {
      StepKeepsTable(rows, calls[0]);
      StateAfterStep(rows, calls[0], device);
      LastCallDecides(Step(rows, calls[0].device, calls[0].enabled), calls[1..], device);
    }
  }

  /** A second identical call finds nothing to write. */
  lemma SecondCallIsIdle(rows: seq<Row>, device: string, enabled: bool)
    requires TableOk(rows) && Listed(rows, device) && Settable(device)
    ensures Shown(Step(rows, device, enabled), device) == Some(enabled)
  {
    StepKeepsTable(rows, Call(device, enabled));
    StateAfterStep(rows, Call(device, enabled), device);
    TableState(Step(rows, device, enabled), device);
  }

  // ----- names and rows as text

  /** Names of letters, digits and the like are settable; a blank, a line end or a
      slash anywhere is refused, as is the empty name. */
  lemma NamesTaken(device: string, i: nat)
    ensures device != "" && (forall k :: 0 <= k < |device| ==> device[k] > ' ' && device[k] != '/') ==> NameOk(device)
    ensures i < |device| && device[i] in " /\t\n\r" ==> !NameOk(device)
    ensures !NameOk("")
  {
  }

  lemma RowText(r: Row)
    requires r.name == "LID" && r.gap1 == "\t  " && r.sstate == "S4" && r.gap2 == "\t" && r.tail == "   "
    ensures r.enabled ==> Render(r) == "LID\t  S4\t*enabled   "
    ensures !r.enabled ==> Render(r) == "LID\t  S4\t*disabled   "
  {
  }

  /** Only a name that begins with a letter is ever found, in whatever line. */
  lemma LettersFirst(line: string, device: string)
    requires device == "" || !('a' <= device[0] <= 'z' || 'A' <= device[0] <= 'Z')
    ensures StateIn(line, device) == None
  {
  }

  /** A row without a status is no row, whatever device is asked for. */
  lemma TwoWords(line: string, a: string, gap: string, b: string, device: string)
    requires line == a + (gap + b) && a != "" && b != "" && NoneIn(a, BLANKS) && NoneIn(b, BLANKS) && Gap(gap)
    ensures StateIn(line, device) == None
  {
    TokenHead(a, gap + b, BLANKS);
    SkipGap(gap, b, BLANKS);
    assert b + "" == b;
    TokenHead(b, "", BLANKS);
    assert Tokens("", BLANKS) == [];
  }
}
