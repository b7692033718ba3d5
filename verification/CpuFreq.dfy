/** The cpufreq controls: governor selection, and limits in Hz at the API and in
    kHz in the files. A file that cannot be opened or read is None. */
module CpuFreq {
  import opened Bytes
  import opened CText
  import opened FileIo

  /** The files of one CPU; frequencies are unsigned 32-bit kHz. */
  datatype Cpu = Cpu(
    governor: Option<string>,
    available: Option<string>,
    hwMin: Option<u32>,
    hwMax: Option<u32>,
    curMin: Option<u32>,
    curMax: Option<u32>)

  const KHZ := 1000
  const BLANKS: set<char> := {' ', '\t', '\n'}

  // ----- limits

  /** All four limit files are readable and in order. */
  predicate Limited(c: Cpu) {
    && c.hwMin.Some? && c.hwMax.Some? && c.curMin.Some? && c.curMax.Some?
    && c.hwMin.value <= c.curMin.value <= c.curMax.value <= c.hwMax.value
  }

  predicate WithinHardware(c: Cpu, khz: int) {
    c.hwMin.Some? && c.hwMax.Some? && c.hwMin.value <= khz <= c.hwMax.value
  }

  predicate AcceptsMin(c: Cpu, hz: i64) {
    hz >= 0 && WithinHardware(c, hz / KHZ) && c.curMin.Some? && c.curMax.Some? && hz / KHZ <= c.curMax.value
  }

  predicate AcceptsMax(c: Cpu, hz: i64) {
    hz >= 0 && WithinHardware(c, hz / KHZ) && c.curMin.Some? && c.curMax.Some? && c.curMin.value <= hz / KHZ
  }

  function SetMin(c: Cpu, hz: i64): Cpu {
    if AcceptsMin(c, hz) then c.(curMin := Some(hz / KHZ)) else c
  }

  function SetMax(c: Cpu, hz: i64): Cpu {
    if AcceptsMax(c, hz) then c.(curMax := Some(hz / KHZ)) else c
  }

  function MinHz(c: Cpu): Option<i64> {
    match c.curMin case None => None case Some(v) => Some(v * KHZ)
  }

  function MaxHz(c: Cpu): Option<i64> {
    match c.curMax case None => None case Some(v) => Some(v * KHZ)
  }

  /** After an accepted call the getter reports the request, rounded down to a
      multiple of 1000; the other limit and the hardware range are untouched. */
  lemma GetAfterSet(c: Cpu, hz: i64)
    ensures AcceptsMin(c, hz) ==>
      MinHz(SetMin(c, hz)) == Some(hz - hz % 1000) && MaxHz(SetMin(c, hz)) == MaxHz(c)
    ensures AcceptsMax(c, hz) ==>
      MaxHz(SetMax(c, hz)) == Some(hz - hz % 1000) && MinHz(SetMax(c, hz)) == MinHz(c)
    ensures !AcceptsMin(c, hz) ==> SetMin(c, hz) == c
    ensures !AcceptsMax(c, hz) ==> SetMax(c, hz) == c
  {
    assert hz / KHZ * KHZ == hz - hz % KHZ;
  }

  /** From valid limits a request is accepted exactly when the limits it asks for,
      in whole kHz, would be in order; and then the file holds that many kHz. */
  lemma AcceptedIffInOrder(c: Cpu, hz: i64)
    requires c.hwMin.Some? && c.hwMax.Some? && c.curMin.Some? && c.curMax.Some?
    requires c.hwMin.value <= c.curMin.value <= c.curMax.value <= c.hwMax.value
    ensures AcceptsMin(c, hz) <==> hz >= 0 && c.hwMin.value * 1000 <= hz < (c.curMax.value + 1) * 1000
    ensures AcceptsMax(c, hz) <==> hz >= 0 && c.curMin.value * 1000 <= hz < (c.hwMax.value + 1) * 1000
    ensures AcceptsMin(c, hz) ==> SetMin(c, hz).curMin == Some(hz / 1000)
    ensures AcceptsMax(c, hz) ==> SetMax(c, hz).curMax == Some(hz / 1000)
  {
  }

  datatype Call = CallMin(hz: i64) | CallMax(hz: i64)

  function Apply(c: Cpu, call: Call): Cpu {
    match call case CallMin(hz) => SetMin(c, hz) case CallMax(hz) => SetMax(c, hz)
  }

  function Run(c: Cpu, calls: seq<Call>): Cpu
    decreases calls
  {
    if calls == [] then c else Run(Apply(c, calls[0]), calls[1..])
  }

  /** Whatever is asked, in whatever order: hw_min <= min <= max <= hw_max, with
      the hardware range, the governor and its choices as they were. */
  lemma {:induction false} RunKeepsLimits(c: Cpu, calls: seq<Call>)
    requires Limited(c)
    ensures var d := Run(c, calls);
            Limited(d) && d == c.(curMin := d.curMin, curMax := d.curMax)
    decreases calls
  {
    if calls != [] {
      RunKeepsLimits(Apply(c, calls[0]), calls[1..]);
    }
  }

  // ----- replaying a saved pair of limits, minimum first

  function Replay(c: Cpu, lo: i64, hi: i64): Cpu {
    SetMax(SetMin(c, lo), hi)
  }

  /** Whether both writes of a replay were accepted. */
  predicate ReplayOk(c: Cpu, lo: i64, hi: i64) {
    AcceptsMin(c, lo) && AcceptsMax(SetMin(c, lo), hi)
  }

  /** One replay suffices exactly when the saved minimum is not above the live
      maximum; otherwise it reports failure yet raises the maximum, so that a
      second replay succeeds. Two replays always reach the saved limits. */
  lemma ReplayReachesSaved(c: Cpu, lo: i64, hi: i64)
    requires Limited(c) && 0 <= lo && WithinHardware(c, lo / KHZ)
    requires 0 <= hi && WithinHardware(c, hi / KHZ) && lo / KHZ <= hi / KHZ
    ensures var target := c.(curMin := Some(lo / KHZ), curMax := Some(hi / KHZ));
            && (ReplayOk(c, lo, hi) <==> lo / KHZ <= c.curMax.value)
            && (ReplayOk(c, lo, hi) ==> Replay(c, lo, hi) == target)
            && (!ReplayOk(c, lo, hi) ==> Replay(c, lo, hi) == c.(curMax := Some(hi / KHZ)))
            && ReplayOk(Replay(c, lo, hi), lo, hi)
            && Replay(Replay(c, lo, hi), lo, hi) == target
  {
  }

  // ----- governor

  predicate Lists(c: Cpu, gov: string) {
    c.available.Some? && AnyCaseEq(GovernorTokens(c), gov)
  }

  predicate AnyCaseEq(toks: seq<string>, name: string) {
    exists i :: 0 <= i < |toks| && CaseEq(toks[i], name)
  }

  function GovernorTokens(c: Cpu): seq<string>
    requires c.available.Some?
  {
    Tokens(FileText(c.available.value, 1024), BLANKS)
  }

  predicate AcceptsGovernor(c: Cpu, gov: string) {
    gov != "" && Lists(c, gov) && c.governor.Some?
  }

  function SetGov(c: Cpu, gov: string): Cpu {
    if AcceptsGovernor(c, gov) then c.(governor := Some(gov)) else c
  }

  /** Tokenises `text` until a token matches `name` but for case. */
  method FindToken(text: string, delims: set<char>, name: string) returns (found: bool)
    ensures found <==> AnyCaseEq(Tokens(text, delims), name)
  {
    ghost var left := Tokens(text, delims);
    var tok, rest := NextToken(text, delims);
    while tok.Some?
      invariant AnyCaseEq(Tokens(text, delims), name) <==> AnyCaseEq(left, name)
      invariant left == if tok.Some? then [tok.value] + Tokens(rest, delims) else []
      decreases tok.Some?, |rest|
    {
      ghost var next := Tokens(rest, delims);
      if CaseEq(tok.value, name) {
        assert CaseEq(left[0], name);
        return true;
      }
      SkipToken(tok.value, next, name);
      left := next;
      tok, rest := NextToken(rest, delims);
    }
    return false;
  }

  lemma SkipToken(tok: string, rest: seq<string>, name: string)
    requires !CaseEq(tok, name)
    ensures AnyCaseEq([tok] + rest, name) <==> AnyCaseEq(rest, name)
  {
    assert forall i :: 0 < i < |[tok] + rest| ==> ([tok] + rest)[i] == rest[i - 1];
    assert forall i :: 0 <= i < |rest| ==> ([tok] + rest)[i + 1] == rest[i];
  }

  /** The kernel's list: each name followed by a space. */
  function Listing(names: seq<string>): string {
    if names == [] then "" else names[0] + (" " + Listing(names[1..]))
  }

  predicate GovernorName(name: string) {
    name != "" && Lacks(name, ' ') && Lacks(name, '\t') && Lacks(name, '\n') && Lacks(name, '\r') && Lacks(name, '\0')
  }

  lemma {:induction false} ListingTokens(names: seq<string>)
    requires forall i :: 0 <= i < |names| ==> GovernorName(names[i])
    ensures Tokens(Listing(names), BLANKS) == names
    ensures Lacks(Listing(names), NUL)
    ensures names != [] ==> Listing(names) != "" && Listing(names)[|Listing(names)| - 1] == ' '
    decreases names
  {
    if names != [] {
      ListingTokens(names[1..]);
      ListingHead(names[0], Listing(names[1..]));
      assert names == [names[0]] + names[1..];
    }
  }

  lemma ListingHead(name: string, rest: string)
    requires GovernorName(name) && Lacks(rest, NUL) && (rest == "" || rest[|rest| - 1] == ' ')
    ensures var s := name + (" " + rest);
            && Tokens(s, BLANKS) == [name] + Tokens(rest, BLANKS)
            && Lacks(s, NUL) && s != "" && s[|s| - 1] == ' '
  {
    var tail := " " + rest;
    HeadToken(name, tail, rest);
    SpaceTail(tail, rest);
    LacksConcat(name, tail, NUL);
  }

  lemma SpaceTail(tail: string, rest: string)
    requires tail == " " + rest && Lacks(rest, NUL) && (rest == "" || rest[|rest| - 1] == ' ')
    ensures Lacks(tail, NUL) && tail != "" && tail[|tail| - 1] == ' '
  {
  }

  lemma HeadToken(name: string, tail: string, rest: string)
    requires GovernorName(name) && tail == " " + rest
    ensures Tokens(name + tail, BLANKS) == [name] + Tokens(rest, BLANKS)
  {
    assert NoneIn(name, BLANKS) && tail[0] in BLANKS && AllIn(" ", BLANKS);
    TokenHead(name, tail, BLANKS);
    SkipGap(" ", rest, BLANKS);
  }

  /** From the kernel's list exactly the names in it are accepted, whatever their
      case, and the governor then is the name as it was given. */
  lemma GovernorAccepted(c: Cpu, names: seq<string>, gov: string)
    requires forall i :: 0 <= i < |names| ==> GovernorName(names[i])
    requires c.governor.Some? && c.available == Some(Listing(names) + "\n") && |Listing(names)| < 1023
    ensures (exists i :: 0 <= i < |names| && CaseEq(names[i], gov)) <==> AcceptsGovernor(c, gov)
    ensures AcceptsGovernor(c, gov) ==> SetGov(c, gov) == c.(governor := Some(gov))
  {
    TokensOfListing(c, names, Listing(names));
  }

  lemma TokensOfListing(c: Cpu, names: seq<string>, text: string)
    requires forall i :: 0 <= i < |names| ==> GovernorName(names[i])
    requires text == Listing(names) && |text| < 1023 && c.available == Some(text + "\n")
    ensures GovernorTokens(c) == names
  {
    ListingTokens(names);
    FileTextIs(text, "\n", 1024);
  }

  /** A governor's name in its file reads as that name. */
  lemma GovernorShown(c: Cpu, name: string)
    requires GovernorName(name) && |name| < 255 && c.governor == Some(name + "\n")
    ensures GovernorOf(c) == Some(name)
  {
    FileTextIs(name, "\n", 256);
  }

  /** What reading the governor file through its 256-byte buffer gives. */
  function GovernorOf(c: Cpu): Option<string> {
    match c.governor case None => None case Some(g) => Some(FileText(g, 256))
  }

  // ----- the calls, over the table of CPU directories

  class CpuSysfs {
    /** None where the directory of a CPU does not exist. */
    var cpus: seq<Option<Cpu>>

    predicate Has(i: int) reads this { 0 <= i < |cpus| && cpus[i].Some? }

    function Get(i: int): Cpu reads this requires Has(i) { cpus[i].value }

    method GetGovernor(i: int) returns (gov: Option<string>)
      requires Has(i)
      ensures gov == GovernorOf(Get(i))
    {
      gov := ReadFileString(Get(i).governor, 256);
    }

    method GetFreqMin(i: int) returns (hz: Option<i64>)
      requires Has(i)
      ensures hz == MinHz(Get(i))
    {
      var khz := Get(i).curMin;
      if khz.None? {
        return None;
      }
      return Some(khz.value * KHZ);
    }

    method GetFreqMax(i: int) returns (hz: Option<i64>)
      requires Has(i)
      ensures hz == MaxHz(Get(i))
    {
      var khz := Get(i).curMax;
      if khz.None? {
        return None;
      }
      return Some(khz.value * KHZ);
    }

    method SetFreqMin(i: int, hz: i64) returns (ok: bool)
      requires Has(i)
      modifies this
      ensures cpus == old(cpus)[i := Some(SetMin(old(Get(i)), hz))]
      ensures ok <==> AcceptsMin(old(Get(i)), hz)
    {
      var c := Get(i);
      if hz < 0 {
        return false;
      }
      var khz := hz / KHZ;
      if c.hwMin.None? || c.hwMax.None? {
        return false;
      }
      if khz < c.hwMin.value {
        return false;
      }
      if khz > c.hwMax.value {
        return false;
      }
      if c.curMax.None? {
        return false;
      }
      if khz > c.curMax.value {
        return false;
      }
      if c.curMin.None? {
        return false;
      }
      cpus := cpus[i := Some(c.(curMin := Some(khz)))];
      return true;
    }

    method SetFreqMax(i: int, hz: i64) returns (ok: bool)
      requires Has(i)
      modifies this
      ensures cpus == old(cpus)[i := Some(SetMax(old(Get(i)), hz))]
      ensures ok <==> AcceptsMax(old(Get(i)), hz)
    {
      var c := Get(i);
      if hz < 0 {
        return false;
      }
      var khz := hz / KHZ;
      if c.hwMin.None? || c.hwMax.None? {
        return false;
      }
      if khz < c.hwMin.value {
        return false;
      }
      if khz > c.hwMax.value {
        return false;
      }
      if c.curMin.None? {
        return false;
      }
      if khz < c.curMin.value {
        return false;
      }
      if c.curMax.None? {
        return false;
      }
      cpus := cpus[i := Some(c.(curMax := Some(khz)))];
      return true;
    }

    method SetGovernor(i: int, gov: string) returns (ok: bool)
      requires Has(i)
      modifies this
      ensures cpus == old(cpus)[i := Some(SetGov(old(Get(i)), gov))]
      ensures ok <==> AcceptsGovernor(old(Get(i)), gov)
    {
      var c := Get(i);
      if gov == "" {
        return false;
      }
      var avail := ReadFileString(c.available, 1024);
      if avail.None? {
        return false;
      }
      var matched := FindToken(avail.value, BLANKS, gov);
      if !matched {
        return false;
      }
      if c.governor.None? {
        return false;
      }
      cpus := cpus[i := Some(c.(governor := Some(gov)))];
      return true;
    }
  }
}
