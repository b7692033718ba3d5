/** EFI variables: file names, the attribute prefix, and the clear, write and
    restore protocol on the immutable flag. */
module Efi {
  import opened Bytes
  import opened CText
  import opened FileIo

  // ----- names

  const GUID_LEN := 36

  predicate GuidCharOk(g: string, i: nat)
    requires i < |g|
  {
    if i == 8 || i == 13 || i == 18 || i == 23 then g[i] == '-' else IsHex(g[i])
  }

  predicate GuidOk(g: string) {
    |g| == GUID_LEN && forall i :: 0 <= i < GUID_LEN ==> GuidCharOk(g, i)
  }

  predicate NameOk(name: string) {
    0 < |name| <= 200 && Lacks(name, '/') && Lacks(name, '-')
  }

  method GuidValid(g: string) returns (ok: bool)
    ensures ok <==> GuidOk(g)
  {
    if |g| != GUID_LEN {
      return false;
    }
    var i := 0;
    while i < GUID_LEN
      invariant 0 <= i <= GUID_LEN
      invariant forall k :: 0 <= k < i ==> GuidCharOk(g, k)
    {
      if i == 8 || i == 13 || i == 18 || i == 23 {
        if g[i] != '-' {
          assert !GuidCharOk(g, i);
          return false;
        }
      } else if !IsHex(g[i]) {
        assert !GuidCharOk(g, i);
        return false;
      }
      i := i + 1;
    }
    return true;
  }

  method NameValid(name: string) returns (ok: bool)
    ensures ok <==> NameOk(name)
  {
    if name == "" || |name| > 200 {
      return false;
    }
    var i := 0;
    while i < |name|
      invariant 0 <= i <= |name|
      invariant Lacks(name[..i], '/') && Lacks(name[..i], '-')
    {
      if name[i] == '/' || name[i] == '-' {
        return false;
      }
      i := i + 1;
    }
    assert name[..|name|] == name;
    return true;
  }

  function FileName(name: string, guid: string): string {
    name + "-" + guid
  }

  method ParseEntry(entry: string) returns (r: Option<(string, string)>)
    ensures r == EntryParts(entry)
  {
    var len := |entry|;
    if len < GUID_LEN + 1 || entry[len - 37] != '-' {
      return None;
    }
    var ok := GuidValid(entry[len - GUID_LEN..]);
    if !ok {
      return None;
    }
    return Some((entry[..len - 37], entry[len - GUID_LEN..]));
  }

  function EntryParts(entry: string): Option<(string, string)> {
    var len := |entry|;
    if len >= GUID_LEN + 1 && entry[len - 37] == '-' && GuidOk(entry[len - GUID_LEN..])
    then Some((entry[..len - 37], entry[len - GUID_LEN..]))
    else None
  }

  /** An entry is accepted as a name and a GUID exactly when it is the file name
      of that pair and the GUID is valid; so the split is unique, and building
      and splitting undo each other. The name may be empty. */
  lemma EntryIffFileName(entry: string, name: string, guid: string)
    ensures EntryParts(entry) == Some((name, guid)) <==> GuidOk(guid) && entry == FileName(name, guid)
  {
    if GuidOk(guid) && entry == FileName(name, guid) {
      assert entry[..|entry| - 37] == name && entry[|entry| - GUID_LEN..] == guid;
    }
    if EntryParts(entry) == Some((name, guid)) {
      assert entry == name + [entry[|entry| - 37]] + guid;
    }
  }

  // ----- files

  /** The inode flag word: FS_IMMUTABLE_FL and all the other bits. */
  datatype Flags = Flags(immutable: bool, others: nat)

  datatype VarFile = VarFile(data: seq<byte>, flags: Flags)

  predicate Immutable(f: VarFile) { f.flags.immutable }

  function Marked(f: VarFile, immutable: bool): VarFile {
    f.(flags := f.flags.(immutable := immutable))
  }

  // ----- what the system calls of one operation return

  datatype Ioctl = Works | Unsupported | Fails
  datatype Step = Wrote(n: nat) | Interrupted | Failed
  datatype Env = Env(
    getFlags: Ioctl,
    setFlags: bool,
    opens: bool,
    steps: seq<Step>,
    closes: bool,
    getAgain: Ioctl,
    setAgain: bool)

  /** How far a write loop gets, and whether it finishes; past the given steps
      the rest goes out in one call. */
  function Progress(steps: seq<Step>, off: nat, len: nat): (r: (nat, bool))
    requires off <= len
    ensures off <= r.0 <= len && (r.1 ==> r.0 == len)
    decreases steps
  {
    if off == len then (off, true)
    else if steps == [] then (len, true)
    else match steps[0]
      case Wrote(n) => Progress(steps[1..], off + MinNat(n, len - off), len)
      case Interrupted => Progress(steps[1..], off, len)
      case Failed => (off, false)
  }

  /** Every schedule without an error completes the write. */
  lemma {:induction false} ProgressCompletes(steps: seq<Step>, off: nat, len: nat)
    requires off <= len && forall i :: 0 <= i < |steps| ==> steps[i] != Failed
    ensures Progress(steps, off, len) == (len, true)
    decreases steps
  {
    if off < len && steps != [] {
      ProgressCompletes(steps[1..], if steps[0].Wrote? then off + MinNat(steps[0].n, len - off) else off, len);
    }
  }

  /** The first step of an operation succeeds: the file is there, and its flag
      is clear, could be cleared, or is out of reach. */
  predicate Clears(f: VarFile, env: Env) {
    env.getFlags != Fails && (env.getFlags == Works && Immutable(f) ==> env.setFlags)
  }

  predicate WasCleared(f: VarFile, env: Env) {
    env.getFlags == Works && Immutable(f) && env.setFlags
  }

  /** The file opens for writing once the flag has been dealt with. */
  predicate OpensForWrite(f: VarFile, env: Env) {
    Clears(f, env) && env.opens && (Immutable(f) ==> WasCleared(f, env))
  }

  predicate WriteCompletes(f: VarFile, env: Env, len: nat) {
    OpensForWrite(f, env) && Progress(env.steps, 0, len).1 && env.closes
  }

  /** The flag word after a failed or completed write: lost only if it had been
      cleared and could not be put back. */
  function FlagsAfter(f: VarFile, env: Env): Flags {
    if WasCleared(f, env) && !(env.getAgain == Works && env.setAgain) then f.flags.(immutable := false)
    else f.flags
  }

  function BytesAfter(f: VarFile, env: Env, bytes: seq<byte>): seq<byte> {
    if OpensForWrite(f, env) then bytes[..Progress(env.steps, 0, |bytes|).0] else f.data
  }

  /** A completed write leaves exactly the given bytes; a failed one leaves a
      prefix of them or, if the file never opened, what was there. */
  lemma WrittenBytes(f: VarFile, env: Env, bytes: seq<byte>)
    ensures WriteCompletes(f, env, |bytes|) ==> BytesAfter(f, env, bytes) == bytes
    ensures OpensForWrite(f, env) ==> BytesAfter(f, env, bytes) <= bytes
    ensures !OpensForWrite(f, env) ==> BytesAfter(f, env, bytes) == f.data
  {
    assert bytes[..|bytes|] == bytes;
  }

  function Prefixed(attributes: u32, data: seq<byte>): seq<byte> {
    Le32(attributes) + data
  }

  // ----- enumeration

  datatype EfiVar = EfiVar(name: string, guid: string, attributes: u32, size: nat)

  function Attributes(raw: seq<byte>): u32 {
    if |raw| >= 4 then Get32(raw, 0) else 0
  }

  function PayloadSize(raw: seq<byte>): nat {
    if |raw| >= 4 then |raw| - 4 else 0
  }

  /** What is known of one directory entry, if it is a variable and readable. */
  function Described(entry: string, raw: Option<seq<byte>>): seq<EfiVar> {
    match EntryParts(entry)
    case None => []
    case Some((name, guid)) =>
      if raw == None then []
      else [EfiVar(Slot(name, 256), Slot(guid, 37), Attributes(raw.value), PayloadSize(raw.value))]
  }

  /** How the reads of one file go. */
  datatype ReadEnv = ReadEnv(readable: nat, chunks: seq<nat>, heapLimit: nat, shrinkFails: bool)

  predicate ReadsAll(env: ReadEnv, n: nat) {
    n <= env.readable && GrowTo(n, 256) <= env.heapLimit
  }

  // ----- the calls

  class EfiVars {
    const mounted: bool
    var files: map<string, VarFile>

    constructor (mounted: bool, files: map<string, VarFile>)
      ensures this.mounted == mounted && this.files == files
    {
      this.mounted, this.files := mounted, files;
    }

    function Raw(entry: string, env: ReadEnv): Option<seq<byte>> reads this {
      if entry in files && ReadsAll(env, |files[entry].data|) then Some(files[entry].data) else None
    }

    function AllDescribed(entries: seq<string>, env: ReadEnv): seq<EfiVar> reads this {
      if entries == [] then []
      else Described(entries[0], Raw(entries[0], env)) + AllDescribed(entries[1..], env)
    }

    method ReadRaw(entry: string, env: ReadEnv) returns (raw: Option<seq<byte>>)
      ensures raw == Raw(entry, env)
    {
      if entry !in files {
        return None;
      }
      var buf, len := ReadFileBinary(files[entry].data, env.readable, env.chunks, env.heapLimit, env.shrinkFails);
      if buf == null {
        return None;
      }
      return Some(buf[..len]);
    }

    method Describe(entry: string, env: ReadEnv) returns (vars: seq<EfiVar>)
      ensures vars == Described(entry, Raw(entry, env))
    {
      var parts := ParseEntry(entry);
      if parts.None? {
        return [];
      }
      var raw := ReadRaw(entry, env);
      if raw.None? {
        return [];
      }
      var attributes := if |raw.value| >= 4 then Get32(raw.value, 0) else 0;
      var size := if |raw.value| >= 4 then |raw.value| - 4 else 0;
      return [EfiVar(Slot(parts.value.0, 256), Slot(parts.value.1, 37), attributes, size)];
    }

    lemma DescribeStep(entries: seq<string>, i: nat, env: ReadEnv, left: seq<EfiVar>) returns (rest: seq<EfiVar>)
      requires i < |entries| && left == AllDescribed(entries[i..], env)
      ensures left == Described(entries[i], Raw(entries[i], env)) + rest
      ensures rest == AllDescribed(entries[i + 1..], env)
    {
      rest := AllDescribed(entries[i + 1..], env);
      assert entries[i..][0] == entries[i] && entries[i..][1..] == entries[i + 1..];
    }

    /** One record per directory entry that names a variable and can be read. */
    method Enumerate(entries: seq<string>, env: ReadEnv) returns (list: Option<seq<EfiVar>>)
      ensures list == if mounted then Some(AllDescribed(entries, env)) else None
    {
      if !mounted {
        return None;
      }
      var arr: seq<EfiVar> := [];
      var i := 0;
      ghost var all, left := AllDescribed(entries, env), AllDescribed(entries, env);
      assert entries[0..] == entries && [] + left == left;
      while i < |entries|
        invariant 0 <= i <= |entries|
        invariant left == AllDescribed(entries[i..], env) && all == arr + left
      {
        ghost var rest := DescribeStep(entries, i, env, left);
        var vars := Describe(entries[i], env);
        assert arr + (vars + rest) == arr + vars + rest;
        arr, left := arr + vars, rest;
        i := i + 1;
      }
      assert left == [] && arr + [] == arr;
      return Some(arr);
    }

    lemma {:induction false} DescribedIsListed(entries: seq<string>, env: ReadEnv, entry: string)
      requires entry in entries
      ensures forall v :: v in Described(entry, Raw(entry, env)) ==> v in AllDescribed(entries, env)
      decreases entries
    {
      if entry != entries[0] {
        assert entries == [entries[0]] + entries[1..];
        DescribedIsListed(entries[1..], env, entry);
      }
    }

    /** A readable variable file gives one record, with the attributes in its first
        four bytes and the size of the rest. */
    lemma OneListed(name: string, guid: string, attributes: u32, data: seq<byte>, env: ReadEnv)
      requires GuidOk(guid) && |name| < 256
      requires Raw(name + "-" + guid, env) == Some(Le32(attributes) + data)
      ensures AllDescribed([name + "-" + guid], env) == [EfiVar(name, guid, attributes, |data|)]
    {
      var entry := name + "-" + guid;
      EntryIffFileName(entry, name, guid);
      PrefixedReads(attributes, data);
      assert [entry][1..] == [] && AllDescribed([], env) == [];
      assert Described(entry, Raw(entry, env)) + [] == Described(entry, Raw(entry, env));
    }

    /** A file too short for the prefix is listed with attributes 0 and size 0; one
        that cannot be read, or is too short a name for a variable, is not listed. */
    lemma OddListed(name: string, guid: string, entry: string, env: ReadEnv)
      requires GuidOk(guid) && |name| < 256 && entry == name + "-" + guid
      ensures Raw(entry, env).Some? && |Raw(entry, env).value| < 4 ==>
        AllDescribed([entry], env) == [EfiVar(name, guid, 0, 0)]
      ensures Raw(entry, env) == None ==> AllDescribed([entry], env) == []
      ensures |name| > 0 ==> AllDescribed([guid], env) == []
    {
      EntryIffFileName(entry, name, guid);
      assert [entry][1..] == [] && [guid][1..] == [] && AllDescribed([], env) == [];
      assert Described(entry, Raw(entry, env)) + [] == Described(entry, Raw(entry, env));
    }

    /** Records come in directory order, each entry on its own. */
    lemma {:induction false} ListedInOrder(a: seq<string>, b: seq<string>, env: ReadEnv)
      ensures AllDescribed(a + b, env) == AllDescribed(a, env) + AllDescribed(b, env)
      decreases a
    {
      if a == [] {
        assert a + b == b;
      } else {
        TailOfConcat(a, b);
        ListedInOrder(a[1..], b, env);
      }
    }

    /** Strips the attribute prefix; too short a file is an error. */
    method Get(name: string, guid: string, env: ReadEnv) returns (data: Option<seq<byte>>)
      ensures var raw := Raw(FileName(name, guid), env);
              data == if NameOk(name) && GuidOk(guid) && mounted && raw.Some? && |raw.value| >= 4
                      then Some(raw.value[4..]) else None
    {
      var nameOk := NameValid(name);
      var guidOk := GuidValid(guid);
      if !nameOk || !guidOk || !mounted {
        return None;
      }
      var raw := ReadRaw(FileName(name, guid), env);
      if raw.None? || |raw.value| < 4 {
        return None;
      }
      return Some(raw.value[4..]);
    }

    method ClearImmutable(path: string, env: Env) returns (ok: bool, cleared: bool)
      modifies this
      ensures path !in old(files) ==> !ok && !cleared && files == old(files)
      ensures path in old(files) ==> (ok <==> Clears(old(files)[path], env))
      ensures path in old(files) ==> (cleared <==> WasCleared(old(files)[path], env))
      ensures path in old(files) ==>
        var f := old(files)[path];
        files == old(files)[path := if cleared then Marked(f, false) else f]
    {
      if path !in files || env.getFlags == Fails {
        return false, false;
      }
      if env.getFlags == Unsupported {
        return true, false;
      }
      var f := files[path];
      if !f.flags.immutable {
        return true, false;
      }
      if !env.setFlags {
        return false, false;
      }
      files := files[path := Marked(f, false)];
      return true, true;
    }

    method RestoreImmutable(path: string, env: Env)
      requires path in files
      modifies this
      ensures var f := old(files)[path];
              files == old(files)[path := if env.getAgain == Works && env.setAgain
                                          then Marked(f, true) else f]
    {
      if env.getAgain != Works {
        return;
      }
      var f := files[path];
      if Marked(f, true) == f {
        return;
      }
      if env.setAgain {
        files := files[path := Marked(f, true)];
      }
    }

    /** Truncates, then writes on through short and interrupted writes. */
    method WriteBinary(path: string, bytes: seq<byte>, env: Env) returns (ok: bool)
      requires path in files
      modifies this
      ensures var f := old(files)[path];
              var canOpen := env.opens && !Immutable(f);
              var (far, done) := Progress(env.steps, 0, |bytes|);
              && (ok <==> canOpen && done && env.closes)
              && files == old(files)[path := if canOpen then f.(data := bytes[..far]) else f]
    {
      var f := files[path];
      if !env.opens || Immutable(f) {
        return false;
      }
      files := files[path := f.(data := [])];
      var off, calls := 0, 0;
      ghost var goal := Progress(env.steps, 0, |bytes|);
      assert env.steps[0..] == env.steps;
      while off < |bytes|
        invariant 0 <= off <= |bytes| && 0 <= calls <= |env.steps|
        invariant files == old(files)[path := f.(data := bytes[..off])]
        invariant goal == Progress(env.steps[calls..], off, |bytes|)
        decreases |env.steps| - calls, |bytes| - off
      {
        assert calls < |env.steps| ==> env.steps[calls..][0] == env.steps[calls]
                                       && env.steps[calls..][1..] == env.steps[calls + 1..];
        var w := |bytes| - off;
        if calls < |env.steps| {
          match env.steps[calls] {
            case Failed =>
              return false;
            case Interrupted =>
              calls := calls + 1;
              continue;
            case Wrote(n) =>
              w := MinNat(n, w);
              calls := calls + 1;
          }
        }
        files := files[path := f.(data := bytes[..off + w])];
        off := off + w;
      }
      return env.closes;
    }

    /** Only an existing variable can be set. The new bytes are the prefixed
        payload on success; the flag word ends as it began unless clearing it
        could not be undone. */
    method Set(name: string, guid: string, attributes: u32, data: seq<byte>, env: Env) returns (ok: bool)
      modifies this
      ensures var path := FileName(name, guid);
              if !NameOk(name) || !GuidOk(guid) || !mounted || path !in old(files)
              then !ok && files == old(files)
              else
                var f, bytes := old(files)[path], Prefixed(attributes, data);
                && (ok <==> WriteCompletes(f, env, |bytes|))
                && files == old(files)[path := VarFile(BytesAfter(f, env, bytes), FlagsAfter(f, env))]
    {
      var nameOk := NameValid(name);
      var guidOk := GuidValid(guid);
      if !nameOk || !guidOk || !mounted {
        return false;
      }
      var path := FileName(name, guid);
      var bytes := Le32(attributes) + data;
      var cleared: bool;
      ok, cleared := ClearImmutable(path, env);
      if !ok {
        return;
      }
      ok := WriteBinary(path, bytes, env);
      if cleared {
        RestoreImmutable(path, env);
      }
    }

    /** `vanishes` says whether the firmware removes the file on the zero write,
        `unlinks` whether the fallback removal works. */
    method Delete(name: string, guid: string, env: Env, vanishes: bool, unlinks: bool) returns (ok: bool)
      modifies this
      ensures var path := FileName(name, guid);
              if !NameOk(name) || !GuidOk(guid) || !mounted || path !in old(files)
              then !ok && files == old(files)
              else
                var f := old(files)[path];
                && (ok <==> WriteCompletes(f, env, 4) && (vanishes || unlinks))
                && files == if ok then old(files) - {path}
                            else old(files)[path := VarFile(BytesAfter(f, env, Zeros(4)), FlagsAfter(f, env))]
    {
      var nameOk := NameValid(name);
      var guidOk := GuidValid(guid);
      if !nameOk || !guidOk || !mounted {
        return false;
      }
      var path := FileName(name, guid);
      var cleared: bool;
      ok, cleared := ClearImmutable(path, env);
      if !ok {
        return;
      }
      ok := WriteBinary(path, Zeros(4), env);
      if ok && vanishes {
        files := files - {path};
      }
      if ok && path in files {
        if unlinks {
          files := files - {path};
        } else {
          ok := false;
        }
      }
      if !ok && cleared {
        RestoreImmutable(path, env);
      }
    }
  }

  lemma PrefixedReads(attributes: u32, data: seq<byte>)
    ensures var raw := Prefixed(attributes, data);
            raw[4..] == data && Attributes(raw) == attributes && PayloadSize(raw) == |data|
  {
    var raw := Prefixed(attributes, data);
    assert Get32(raw, 0) == Get32(Le32(attributes), 0);
  }

  /** An accepted set is what a later get returns and an enumeration reports, for
      every payload, every way the write was cut up, and every way the file is
      then read; and the flag survives when its two calls work. */
  method SetThenRead(vars: EfiVars, name: string, guid: string, attributes: u32, data: seq<byte>,
                     env: Env, renv: ReadEnv, entries: seq<string>)
    returns (ok: bool, got: Option<seq<byte>>, list: Option<seq<EfiVar>>)
    modifies vars
    ensures ok && ReadsAll(renv, 4 + |data|) ==> got == Some(data)
    ensures ok && ReadsAll(renv, 4 + |data|) && FileName(name, guid) in entries ==>
      list.Some? && EfiVar(name, guid, attributes, |data|) in list.value
    ensures FileName(name, guid) in old(vars.files) && env.getAgain == Works && env.setAgain ==>
      FileName(name, guid) in vars.files
      && vars.files[FileName(name, guid)].flags == old(vars.files)[FileName(name, guid)].flags
  {
    if FileName(name, guid) in vars.files {
      WrittenBytes(vars.files[FileName(name, guid)], env, Prefixed(attributes, data));
    }
    ok := vars.Set(name, guid, attributes, data, env);
    got := vars.Get(name, guid, renv);
    list := vars.Enumerate(entries, renv);
    PrefixedReads(attributes, data);
    EntryIffFileName(FileName(name, guid), name, guid);
    if ok && FileName(name, guid) in entries {
      vars.DescribedIsListed(entries, renv, FileName(name, guid));
    }
  }

  // ----- ordinary names and calls that work

  predicate HexRun(s: string, n: nat) {
    |s| == n && forall i :: 0 <= i < n ==>
      ('0' <= s[i] <= '9' || 'a' <= s[i] <= 'f' || 'A' <= s[i] <= 'F')
  }

  /** Five runs of hex digits, of 8, 4, 4, 4 and 12, joined by dashes. */
  predicate Joined(g: string, a: string, b: string, c: string, d: string, e: string) {
    && HexRun(a, 8) && HexRun(b, 4) && HexRun(c, 4) && HexRun(d, 4) && HexRun(e, 12)
    && g == a + "-" + b + "-" + c + "-" + d + "-" + e
  }

  lemma GuidOfRuns(g: string, a: string, b: string, c: string, d: string, e: string)
    requires Joined(g, a, b, c, d, e)
    ensures GuidOk(g)
  {
    forall i | 0 <= i < GUID_LEN
      ensures GuidCharOk(g, i)
    {
      if i < 8 {
        assert g[i] == a[i];
      } else if 8 < i < 13 {
        assert g[i] == b[i - 9];
      } else if 13 < i < 18 {
        assert g[i] == c[i - 14];
      } else if 18 < i < 23 {
        assert g[i] == d[i - 19];
      } else if 23 < i {
        assert g[i] == e[i - 24];
      }
    }
  }

  lemma RunsOfGuid(g: string) returns (a: string, b: string, c: string, d: string, e: string)
    requires GuidOk(g)
    ensures Joined(g, a, b, c, d, e)
  {
    a, b, c, d, e := g[..8], g[9..13], g[14..18], g[19..23], g[24..];
    assert GuidCharOk(g, 8) && GuidCharOk(g, 13) && GuidCharOk(g, 18) && GuidCharOk(g, 23);
    RunIn(g, 0, 8, a);
    RunIn(g, 9, 13, b);
    RunIn(g, 14, 18, c);
    RunIn(g, 19, 23, d);
    RunIn(g, 24, 36, e);
    assert g == a + "-" + b + "-" + c + "-" + d + "-" + e;
  }

  lemma RunIn(g: string, lo: nat, hi: nat, s: string)
    requires GuidOk(g) && lo <= hi <= 36 && s == g[lo..hi]
    requires (hi <= 8 || 8 < lo) && (hi <= 13 || 13 < lo) && (hi <= 18 || 18 < lo) && (hi <= 23 || 23 < lo)
    ensures HexRun(s, hi - lo)
  {
    forall i | 0 <= i < hi - lo
      ensures '0' <= s[i] <= '9' || 'a' <= s[i] <= 'f' || 'A' <= s[i] <= 'F'
    {
      assert GuidCharOk(g, lo + i) && s[i] == g[lo + i];
    }
  }

  /** A GUID is accepted exactly when it is five such runs. */
  lemma GuidGrammar(g: string)
    ensures GuidOk(g) <==> exists a, b, c, d, e :: Joined(g, a, b, c, d, e)
  {
    if GuidOk(g) {
      var a, b, c, d, e := RunsOfGuid(g);
    }
    if a, b, c, d, e :| Joined(g, a, b, c, d, e) {
      GuidOfRuns(g, a, b, c, d, e);
    }
  }

  /** Every call on the way of a write does what it is for: the flag can be read,
      cleared and set again, or the file system has no flags and the file none. */
  predicate CallsWork(f: VarFile, env: Env) {
    && ((env.getFlags == Works && env.setFlags) || (env.getFlags == Unsupported && !f.flags.immutable))
    && env.opens && env.closes
    && (forall i :: 0 <= i < |env.steps| ==> env.steps[i] != Failed)
    && env.getAgain == Works && env.setAgain
  }

  predicate PlainVarName(name: string) {
    1 <= |name| <= 200 && forall i :: 0 <= i < |name| ==> name[i] != '-' && name[i] != '/'
  }

  lemma PlainVarNames(name: string)
    ensures NameOk(name) <==> PlainVarName(name)
  {
  }

  /** A call that does not work makes the write fail; when the flag stays in the
      way or the file does not open, what was in the file is still there. */
  lemma FailedCallFails(f: VarFile, env: Env, bytes: seq<byte>)
    ensures env.getFlags == Fails || !env.opens || (f.flags.immutable && (env.getFlags != Works || !env.setFlags)) ==>
      !WriteCompletes(f, env, |bytes|) && BytesAfter(f, env, bytes) == f.data
    ensures !env.closes || (bytes != [] && env.steps != [] && env.steps[0] == Failed) ==> !WriteCompletes(f, env, |bytes|)
  {
  }

  /** Setting an ordinary variable succeeds when the calls work, and it then holds
      what was set, with its flags as before. */
  method WorkingSet(vars: EfiVars, name: string, a: string, b: string, c: string, d: string, e: string, guid: string,
                    attributes: u32, data: seq<byte>, env: Env, renv: ReadEnv)
    returns (ok: bool, got: Option<seq<byte>>)
    requires vars.mounted && PlainVarName(name) && Joined(guid, a, b, c, d, e)
    requires name + "-" + guid in vars.files && CallsWork(vars.files[name + "-" + guid], env)
    requires ReadsAll(renv, 4 + |data|)
    modifies vars
    ensures ok && got == Some(data)
    ensures vars.files == old(vars.files)[name + "-" + guid :=
              VarFile(Le32(attributes) + data, old(vars.files)[name + "-" + guid].flags)]
  {
    var path := name + "-" + guid;
    var bytes := Prefixed(attributes, data);
    GuidOfRuns(guid, a, b, c, d, e);
    ProgressCompletes(env.steps, 0, |bytes|);
    WrittenBytes(vars.files[path], env, bytes);
    PrefixedReads(attributes, data);
    ok := vars.Set(name, guid, attributes, data, env);
    got := vars.Get(name, guid, renv);
  }

  /** A successful delete leaves no file; a failed one leaves the flags as they
      were when the calls that restore them work. When all calls work and the
      firmware or the fallback removes the file, it is successful. */
  method DeleteThenGet(vars: EfiVars, name: string, guid: string, env: Env, vanishes: bool, unlinks: bool, renv: ReadEnv)
    returns (ok: bool, got: Option<seq<byte>>)
    requires name + "-" + guid in vars.files
    modifies vars
    ensures ok ==> name + "-" + guid !in vars.files && got == None
    ensures !ok ==> name + "-" + guid in vars.files
    ensures !ok && env.getAgain == Works && env.setAgain ==>
      vars.files[name + "-" + guid].flags == old(vars.files)[name + "-" + guid].flags
    ensures vars.mounted && PlainVarName(name) && GuidOk(guid) ==>
      ((vanishes || unlinks) && CallsWork(old(vars.files)[name + "-" + guid], env) ==> ok)
    ensures forall p :: p in old(vars.files) && p != name + "-" + guid ==>
      p in vars.files && vars.files[p] == old(vars.files)[p]
  {
    if CallsWork(vars.files[name + "-" + guid], env) {
      ProgressCompletes(env.steps, 0, 4);
    }
    ok := vars.Delete(name, guid, env, vanishes, unlinks);
    got := vars.Get(name, guid, renv);
  }
}
