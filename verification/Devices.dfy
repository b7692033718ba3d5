/** The memory tunables and block devices a profile covers: what their kernel
    files show, and the getters and setters over them. */
module Devices {
  import opened Bytes
  import opened CText
  import opened FileIo

  // ----- the bracketed word of a choice file

  /** The text between the first `[` and the first `]` after it. */
  function Bracketed(s: string): Option<string> {
    var b := IndexOf(s, '[');
    if b == |s| then None
    else
      var t := s[b + 1..];
      var e := IndexOf(t, ']');
      if e == |t| then None else Some(t[..e])
  }

  predicate Word(s: string) {
    s != "" && forall i :: 0 <= i < |s| ==> s[i] !in "[]/ \n\r\0"
  }

  lemma BracketedPast(text: string, k: nat, rest: string)
    requires k <= |text| && text[k..] == rest
    requires forall i :: 0 <= i < k ==> text[i] != '['
    ensures Bracketed(text) == Bracketed(rest)
  {
    IndexOfPast(text, '[', k);
    var b := IndexOf(rest, '[');
    if b < |rest| {
      assert text[k + b + 1..] == rest[b + 1..];
    }
  }

  lemma BracketedSkips(s: string, rest: string)
    requires Word(s)
    ensures Bracketed(s + " " + rest) == Bracketed(rest)
  {
    var text := s + " " + rest;
    var k := |s| + 1;
    assert forall i :: 0 <= i < |s| ==> text[i] == s[i] != '[';
    assert text[k..] == rest;
    BracketedPast(text, k, rest);
  }

  lemma {:induction false} IndexOfPast(s: string, c: char, k: nat)
    requires k <= |s| && forall i :: 0 <= i < k ==> s[i] != c
    decreases k
    ensures IndexOf(s, c) == k + IndexOf(s[k..], c)
  {
    if k == 0 {
      assert s[0..] == s;
    } else {
      assert s[1..][k - 1..] == s[k..];
      IndexOfPast(s[1..], c, k - 1);
    }
  }

  lemma BracketedHits(s: string, rest: string)
    requires Word(s)
    ensures Bracketed("[" + s + "] " + rest) == Some(s)
  {
    var text := "[" + s + "] " + rest;
    assert IndexOf(text, '[') == 0;
    var t := text[1..];
    assert t == s + "] " + rest;
    assert t[|s|] == ']' && forall i :: 0 <= i < |s| ==> t[i] == s[i];
    assert IndexOf(t, ']') == |s| && t[..|s|] == s;
  }

  // ----- transparent huge pages

  datatype Thp = Always | Madvise | Never

  function ThpName(m: Thp): string {
    match m case Always => "always" case Madvise => "madvise" case Never => "never"
  }

  function ThpOf(s: string): Option<Thp> {
    if s == "always" then Some(Always)
    else if s == "madvise" then Some(Madvise)
    else if s == "never" then Some(Never)
    else None
  }

  /** What the kernel shows for a mode: all three, the active one in brackets. */
  function ThpFile(m: Thp): string {
    var (before, after) := ThpAround(m);
    before + "[" + ThpName(m) + "]" + after + "\n"
  }

  function ThpAround(m: Thp): (string, string) {
    match m
    case Always => ("", " madvise never")
    case Madvise => ("always ", " never")
    case Never => ("always madvise ", "")
  }

  /** Both brackets are searched from the start of the text. */
  function ReadThp(content: string): Option<Thp> {
    var buf := FileText(content, 128);
    var b, e := IndexOf(buf, '['), IndexOf(buf, ']');
    if b == |buf| || e == |buf| || e < b then None else ThpOf(buf[b + 1..e])
  }

  predicate Bare(s: string) {
    Lacks(s, '[') && Lacks(s, ']') && Lacks(s, NUL)
  }

  lemma BothBrackets(buf: string, before: string, name: string, after: string)
    requires buf == before + "[" + name + "]" + after
    requires Bare(before) && Bare(name) && Bare(after)
    ensures IndexOf(buf, '[') == |before| && IndexOf(buf, ']') == |before| + 1 + |name|
    ensures buf[|before| + 1..|before| + 1 + |name|] == name
    ensures Lacks(buf, NUL)
  {
    assert buf == before + ['['] + (name + "]" + after);
    IndexOfSplit(before, '[', name + "]" + after);
    var head := before + "[" + name;
    assert buf == head + [']'] + after;
    forall c | c == ']' || c == NUL ensures Lacks(head, c) {
      LacksConcat(before, "[", c);
      LacksConcat(before + "[", name, c);
    }
    IndexOfSplit(head, ']', after);
    LacksConcat(head, "]", NUL);
    LacksConcat(head + "]", after, NUL);
  }

  lemma ReadThpFile(m: Thp)
    ensures ReadThp(ThpFile(m)) == Some(m)
  {
    var (before, after) := ThpAround(m);
    var buf := before + "[" + ThpName(m) + "]" + after;
    assert |buf| == 22 && !IsEol(buf[21]);
    ReadThpText(m, buf, before, ThpName(m), after);
  }

  lemma ReadThpText(m: Thp, buf: string, before: string, name: string, after: string)
    requires buf == before + "[" + name + "]" + after && ThpOf(name) == Some(m)
    requires Bare(before) && Bare(name) && Bare(after)
    requires 0 < |buf| < 127 && !IsEol(buf[|buf| - 1])
    ensures ReadThp(buf + "\n") == Some(m)
  {
    BothBrackets(buf, before, name, after);
    ThpBuffer(buf);
  }

  lemma ThpBuffer(buf: string)
    requires 0 < |buf| < 127 && Lacks(buf, NUL) && !IsEol(buf[|buf| - 1])
    ensures FileText(buf + "\n", 128) == buf
  {
    StripEolAppend(buf, "\n");
    assert (buf + "\n")[..|buf| + 1] == buf + "\n";
  }

  // ----- memory tunables

  /** The numbers in the vm tunables; None where the file cannot be read. */
  datatype Mem = Mem(swappiness: Option<i64>, overcommit: Option<i64>, vfs: Option<i64>, thp: Option<Thp>)

  /** Getters cast what they read to a C int. */
  function AsCInt(v: Option<i64>): Option<i64> {
    match v case None => None case Some(x) => Some(TruncS32(x))
  }

  predicate KernelMem(m: Mem) {
    && (m.swappiness.Some? ==> 0 <= m.swappiness.value <= 200)
    && (m.overcommit.Some? ==> 0 <= m.overcommit.value <= 2)
    && (m.vfs.Some? ==> 0 <= m.vfs.value < 0x8000_0000)
  }

  predicate SameMemFiles(m: Mem, n: Mem) {
    && m.swappiness.Some? == n.swappiness.Some? && m.overcommit.Some? == n.overcommit.Some?
    && m.vfs.Some? == n.vfs.Some? && m.thp.Some? == n.thp.Some?
  }

  // ----- block devices

  /** The schedulers a device offers with the one in use (none offered: no
      scheduler file), and its read-ahead in kB. */
  datatype Disk = Disk(schedulers: seq<string>, active: nat, readAhead: Option<i64>)

  function SchedulerWords(names: seq<string>, active: int): string {
    if names == [] then ""
    else if active == 0 then "[" + names[0] + "] " + SchedulerWords(names[1..], active - 1)
    else names[0] + " " + SchedulerWords(names[1..], active - 1)
  }

  function SchedulerFile(names: seq<string>, active: int): string {
    SchedulerWords(names, active) + "\n"
  }

  predicate KernelDisk(d: Disk) {
    && (forall i :: 0 <= i < |d.schedulers| ==> Word(d.schedulers[i]) && |d.schedulers[i]| < 128)
    && (forall i, j :: 0 <= i < j < |d.schedulers| ==> d.schedulers[i] != d.schedulers[j])
    && (if d.schedulers == [] then d.active == 0 else d.active < |d.schedulers|)
    && |SchedulerFile(d.schedulers, d.active)| < 256
    && (d.readAhead.Some? ==> 0 <= d.readAhead.value)
  }

  predicate SameDiskFiles(d: Disk, e: Disk) {
    d.schedulers == e.schedulers && d.readAhead.Some? == e.readAhead.Some?
  }

  function SchedulerOf(d: Disk): Option<string> {
    if d.schedulers == [] then None
    else Bracketed(FileText(SchedulerFile(d.schedulers, d.active), 256))
  }

  lemma {:induction false} SchedulerWordsRead(names: seq<string>, active: int)
    requires forall i :: 0 <= i < |names| ==> Word(names[i])
    requires 0 <= active < |names|
    ensures Bracketed(SchedulerWords(names, active)) == Some(names[active])
    decreases names
  {
    var rest := SchedulerWords(names[1..], active - 1);
    if active == 0 {
      BracketedHits(names[0], rest);
    } else {
      SchedulerWordsRead(names[1..], active - 1);
      assert names[1..][active - 1] == names[active];
      BracketedSkips(names[0], rest);
    }
  }

  lemma {:induction false} SchedulerWordsForm(names: seq<string>, active: int)
    requires forall i :: 0 <= i < |names| ==> Word(names[i])
    ensures var s := SchedulerWords(names, active);
            Lacks(s, NUL) && (names != [] ==> s != "" && s[|s| - 1] == ' ')
    decreases names
  {
    if names != [] {
      var rest := SchedulerWords(names[1..], active - 1);
      SchedulerWordsForm(names[1..], active - 1);
      assert Word(names[0]) && Lacks(names[0], NUL);
      LacksConcat("[", names[0], NUL);
      LacksConcat("[" + names[0], "] ", NUL);
      LacksConcat("[" + names[0] + "] ", rest, NUL);
      LacksConcat(names[0], " ", NUL);
      LacksConcat(names[0] + " ", rest, NUL);
    }
  }

  lemma SchedulerRead(d: Disk)
    requires KernelDisk(d) && d.schedulers != []
    ensures SchedulerOf(d) == Some(d.schedulers[d.active])
  {
    var s := SchedulerWords(d.schedulers, d.active);
    SchedulerWordsRead(d.schedulers, d.active);
    SchedulerWordsForm(d.schedulers, d.active);
    SchedulerBuffer(s);
  }

  lemma SchedulerBuffer(s: string)
    requires 0 < |s| < 255 && Lacks(s, NUL) && s[|s| - 1] == ' '
    ensures FileText(s + "\n", 256) == s
  {
    StripEolAppend(s, "\n");
    assert (s + "\n")[..|s| + 1] == s + "\n";
  }

  /** What the setter passes on to the kernel. */
  predicate SchedulerAllowed(name: string) {
    && name != "" && |name| < 128
    && Lacks(name, '/') && Lacks(name, '\n') && Lacks(name, ' ')
  }

  /** Index of a name in a list, or its length. */
  function Position(names: seq<string>, name: string): (i: nat)
    ensures i <= |names| && (i < |names| ==> names[i] == name)
    ensures forall j :: 0 <= j < i ==> names[j] != name
  {
    if names == [] || names[0] == name then 0 else 1 + Position(names[1..], name)
  }

  /** The kernel takes a scheduler it offers and refuses any other. */
  predicate AcceptsScheduler(d: Disk, name: string) {
    SchedulerAllowed(name) && Position(d.schedulers, name) < |d.schedulers|
  }

  function SetScheduler(d: Disk, name: string): Disk {
    if AcceptsScheduler(d, name) then d.(active := Position(d.schedulers, name)) else d
  }

  predicate AcceptsReadAhead(d: Disk, kb: i64) {
    kb >= 0 && d.readAhead.Some?
  }

  function SetReadAhead(d: Disk, kb: i64): Disk {
    if AcceptsReadAhead(d, kb) then d.(readAhead := Some(kb)) else d
  }

  /** Setting the scheduler that was read makes it the one in use again. */
  lemma SchedulerRestored(was: Disk, now: Disk)
    requires KernelDisk(was) && was.schedulers != [] && now.schedulers == was.schedulers
    ensures AcceptsScheduler(now, was.schedulers[was.active])
    ensures SetScheduler(now, was.schedulers[was.active]) == now.(active := was.active)
  {
    var name := was.schedulers[was.active];
    assert Word(name);
    var i := Position(now.schedulers, name);
    assert i <= was.active;
  }

  // ----- device names

  predicate Starts(s: string, prefix: string) {
    prefix <= s
  }

  /** Leaves out loop, ram, zram and md devices. */
  predicate IsRealBlock(name: string) {
    && name != ""
    && !Starts(name, "loop") && !Starts(name, "ram") && !Starts(name, "zram")
    && !(Starts(name, "md") && |name| > 2 && IsDigit(name[2]))
  }

  predicate StorageNameValid(name: string) {
    && 0 < |name| < 256 && Lacks(name, '/') && Lacks(name, '\n')
    && !(exists i :: 0 <= i < |name| - 1 && name[i] == '.' && name[i + 1] == '.')
  }

  // ----- the same in terms of the texts

  /** The kernel's three texts for the three modes. */
  lemma ThpTexts()
    ensures ThpFile(Always) == "[always] madvise never\n"
    ensures ThpFile(Madvise) == "always [madvise] never\n"
    ensures ThpFile(Never) == "always madvise [never]\n"
  {
  }

  /** On a device as the kernel shows it, exactly the offered names are accepted,
      and the accepted one is in use afterwards; nothing else changes. */
  lemma SchedulerAcceptedIff(d: Disk, name: string)
    requires KernelDisk(d)
    ensures AcceptsScheduler(d, name) <==> exists i :: 0 <= i < |d.schedulers| && d.schedulers[i] == name
    ensures var e := SetScheduler(d, name);
            && e.schedulers == d.schedulers && e.readAhead == d.readAhead
            && (AcceptsScheduler(d, name) ==> e.active < |e.schedulers| && e.schedulers[e.active] == name)
            && (!AcceptsScheduler(d, name) ==> e == d)
  {
    var k := Position(d.schedulers, name);
    if k < |d.schedulers| {
      assert Word(d.schedulers[k]);
      assert SchedulerAllowed(name);
    }
  }

  /** Names the setter refuses whatever the kernel offers. */
  lemma SchedulerRefused(d: Disk, name: string, i: nat)
    requires |name| == 0 || |name| >= 128 || (i < |name| && (name[i] == '/' || name[i] == '\n' || name[i] == ' '))
    ensures !AcceptsScheduler(d, name)
  {
  }

  /** What a block device that belongs to no real disk is called. */
  predicate Pseudo(name: string) {
    || (|name| >= 4 && name[..4] == "loop")
    || (|name| >= 3 && name[..3] == "ram")
    || (|name| >= 4 && name[..4] == "zram")
    || (|name| >= 3 && name[..2] == "md" && '0' <= name[2] <= '9')
  }

  /** A name that is one step of a path and at most 255 bytes long. */
  predicate PlainName(name: string) {
    && 1 <= |name| <= 255
    && (forall i :: 0 <= i < |name| ==> name[i] != '/' && name[i] != '\n')
    && (forall i, j :: 0 <= i && j == i + 2 <= |name| ==> name[i..j] != "..")
  }

  lemma BlockNames(name: string)
    ensures IsRealBlock(name) <==> name != "" && !Pseudo(name)
    ensures StorageNameValid(name) <==> PlainName(name)
  {
    TwoDots(name);
  }

  lemma TwoDots(name: string)
    ensures (exists i :: 0 <= i < |name| - 1 && name[i] == '.' && name[i + 1] == '.')
            <==> exists i, j :: 0 <= i && j == i + 2 <= |name| && name[i..j] == ".."
  {
    if i :| 0 <= i < |name| - 1 && name[i] == '.' && name[i + 1] == '.' {
      assert name[i..i + 2] == "..";
    }
    if i, j :| 0 <= i && j == i + 2 <= |name| && name[i..j] == ".." {
      assert name[i] == name[i..j][0] && name[i + 1] == name[i..j][1];
    }
  }

  /** A negative read-ahead is refused; any other is stored where there is a file. */
  lemma ReadAheadStored(d: Disk, kb: i64)
    ensures kb < 0 || d.readAhead == None ==> !AcceptsReadAhead(d, kb) && SetReadAhead(d, kb) == d
    ensures kb >= 0 && d.readAhead.Some? ==>
      AcceptsReadAhead(d, kb) && SetReadAhead(d, kb) == Disk(d.schedulers, d.active, Some(kb))
  {
  }
}
