/** Profiles: capturing the live state as text, and replaying parsed entries
    through the setters. */
module Profile {
  import opened Bytes
  import opened CText
  import opened FileIo
  import opened CpuFreq
  import opened Devices
  import opened Toml

  type Cpus = seq<Option<Cpu>>

  datatype Machine = Machine(cpus: Cpus, mem: Mem, disks: map<string, Disk>)

  // ----- what is captured

  function StrItem(key: string, v: Option<string>): seq<Item> {
    match v case None => [] case Some(s) => [Str(key, s)]
  }

  function IntItem(key: string, v: Option<i64>): seq<Item> {
    match v case None => [] case Some(x) => [Int(key, x)]
  }

  function Titled(name: string, items: seq<Item>): seq<Item> {
    if items == [] then [] else [Section(name)] + items
  }

  /** CPU 0 stands for all; the minimum comes before the maximum. */
  function CpuItems(cpus: Cpus): seq<Item> {
    if cpus == [] || cpus[0] == None then []
    else
      var c := cpus[0].value;
      Titled("cpu", StrItem("governor", GovernorOf(c))
                    + IntItem("freq_min_hz", MinHz(c)) + IntItem("freq_max_hz", MaxHz(c)))
  }

  /** The name written for the mode that the kernel file shows. */
  function ThpText(m: Option<Thp>): Option<string> {
    if m == None || ReadThp(ThpFile(m.value)) == None then None
    else Some(ThpName(ReadThp(ThpFile(m.value)).value))
  }

  function MemItems(m: Mem): seq<Item> {
    Titled("memory", IntItem("swappiness", AsCInt(m.swappiness)) + StrItem("thp", ThpText(m.thp))
                     + IntItem("overcommit", AsCInt(m.overcommit)) + IntItem("vfs_cache_pressure", AsCInt(m.vfs)))
  }

  predicate Captured(name: string, disks: map<string, Disk>) {
    IsRealBlock(name) && name[0] != '.' && StorageNameValid(name) && name in disks
  }

  function DiskItems(name: string, d: Disk): seq<Item> {
    Titled("storage." + name, StrItem("scheduler", SchedulerOf(d)) + IntItem("read_ahead_kb", d.readAhead))
  }

  /** One section per captured device, in directory order. */
  function StorageItems(order: seq<string>, disks: map<string, Disk>): seq<Item> {
    if order == [] then []
    else (if Captured(order[0], disks) then DiskItems(order[0], disks[order[0]]) else [])
         + StorageItems(order[1..], disks)
  }

  function HeadItems(name: string, time: i64): seq<Item> {
    [Comment, Int("schema_version", 1), Str("name", name), Int("created_at", time)]
  }

  function Saved(m: Machine, name: string, time: i64, order: seq<string>): seq<Item> {
    HeadItems(name, time) + CpuItems(m.cpus) + MemItems(m.mem) + StorageItems(order, m.disks)
  }

  // ----- what one entry asks for

  datatype Write =
    | WGovernor(gov: string)
    | WFreqMin(hz: i64)
    | WFreqMax(hz: i64)
    | WSwappiness(v: s32)
    | WOvercommit(v: s32)
    | WVfs(v: s32)
    | WThp(mode: Thp)
    | WScheduler(dev: string, name: string)
    | WReadAhead(dev: string, kb: i64)

  /** The number an unquoted value spells, if it does. */
  function NumberIn(kv: Kv): Option<i64> {
    if kv.isString then None else CliParseInt(kv.value)
  }

  /** Unknown keys, misplaced quotes and unparsable numbers ask for nothing. */
  function CpuWrite(kv: Kv): seq<Write> {
    if kv.key == "governor" then (if kv.isString then [WGovernor(kv.value)] else [])
    else if kv.key == "freq_min_hz" || kv.key == "freq_max_hz" then
      match NumberIn(kv)
      case None => []
      case Some(hz) => if hz < 0 then [] else if kv.key == "freq_min_hz" then [WFreqMin(hz)] else [WFreqMax(hz)]
    else []
  }

  /** Numbers are cast to a C int on the way to the setters. */
  function MemWrite(kv: Kv): seq<Write> {
    if kv.key == "thp" then
      match ThpOf(kv.value)
      case None => []
      case Some(m) => if kv.isString then [WThp(m)] else []
    else
      match NumberIn(kv)
      case None => []
      case Some(v) =>
        if kv.key == "swappiness" then [WSwappiness(TruncS32(v))]
        else if kv.key == "overcommit" then [WOvercommit(TruncS32(v))]
        else if kv.key == "vfs_cache_pressure" then [WVfs(TruncS32(v))]
        else []
  }

  function DiskWrite(dev: string, kv: Kv): seq<Write> {
    if kv.key == "scheduler" then (if kv.isString then [WScheduler(dev, kv.value)] else [])
    else if kv.key == "read_ahead_kb" then
      match NumberIn(kv) case None => [] case Some(v) => [WReadAhead(dev, v)]
    else []
  }

  function Decode(kv: Kv): seq<Write> {
    if kv.section == "cpu" then CpuWrite(kv)
    else if kv.section == "memory" then MemWrite(kv)
    else if "storage." <= kv.section then DiskWrite(kv.section[8..], kv)
    else []
  }

  // ----- what one write does

  function CpuAfter(c: Cpu, w: Write): Cpu {
    match w
    case WGovernor(g) => SetGov(c, g)
    case WFreqMin(hz) => SetMin(c, hz)
    case WFreqMax(hz) => SetMax(c, hz)
    case _ => c
  }

  predicate CpuAccepts(c: Cpu, w: Write) {
    match w
    case WGovernor(g) => AcceptsGovernor(c, g)
    case WFreqMin(hz) => AcceptsMin(c, hz)
    case WFreqMax(hz) => AcceptsMax(c, hz)
    case _ => true
  }

  function CpusAfter(cpus: Cpus, w: Write): (r: Cpus)
    ensures |r| == |cpus|
    ensures forall i :: 0 <= i < |cpus| ==> r[i] == CpuSlotAfter(cpus[i], w)
  {
    seq(|cpus|, i requires 0 <= i < |cpus| => CpuSlotAfter(cpus[i], w))
  }

  function CpuSlotAfter(c: Option<Cpu>, w: Write): Option<Cpu> {
    match c case None => None case Some(x) => Some(CpuAfter(x, w))
  }

  function MemAfter(m: Mem, w: Write): Mem {
    match w
    case WSwappiness(v) => if MemAccepts(m, w) then m.(swappiness := Some(v)) else m
    case WOvercommit(v) => if MemAccepts(m, w) then m.(overcommit := Some(v)) else m
    case WVfs(v) => if MemAccepts(m, w) then m.(vfs := Some(v)) else m
    case WThp(t) => if MemAccepts(m, w) then m.(thp := Some(t)) else m
    case _ => m
  }

  predicate MemAccepts(m: Mem, w: Write) {
    match w
    case WSwappiness(v) => 0 <= v <= 200 && m.swappiness.Some?
    case WOvercommit(v) => 0 <= v <= 2 && m.overcommit.Some?
    case WVfs(v) => 0 <= v && m.vfs.Some?
    case WThp(_) => m.thp.Some?
    case _ => true
  }

  /** A device that cannot be opened is skipped without complaint. */
  predicate Opens(disks: map<string, Disk>, dev: string) {
    StorageNameValid(dev) && dev in disks
  }

  function DisksAfter(disks: map<string, Disk>, w: Write): map<string, Disk> {
    match w
    case WScheduler(dev, name) => if Opens(disks, dev) then disks[dev := SetScheduler(disks[dev], name)] else disks
    case WReadAhead(dev, kb) => if Opens(disks, dev) then disks[dev := SetReadAhead(disks[dev], kb)] else disks
    case _ => disks
  }

  predicate DisksAccept(disks: map<string, Disk>, w: Write) {
    match w
    case WScheduler(dev, name) => Opens(disks, dev) ==> AcceptsScheduler(disks[dev], name)
    case WReadAhead(dev, kb) => Opens(disks, dev) ==> AcceptsReadAhead(disks[dev], kb)
    case _ => true
  }

  function After(m: Machine, w: Write): Machine {
    Machine(CpusAfter(m.cpus, w), MemAfter(m.mem, w), DisksAfter(m.disks, w))
  }

  predicate Accepted(m: Machine, w: Write) {
    && (forall i :: 0 <= i < |m.cpus| && m.cpus[i].Some? ==> CpuAccepts(m.cpus[i].value, w))
    && MemAccepts(m.mem, w)
    && DisksAccept(m.disks, w)
  }

  function AfterAll(m: Machine, ws: seq<Write>): Machine
    decreases ws
  {
    if ws == [] then m else AfterAll(After(m, ws[0]), ws[1..])
  }

  predicate AllAccepted(m: Machine, ws: seq<Write>)
    decreases ws
  {
    ws != [] ==> Accepted(m, ws[0]) && AllAccepted(After(m, ws[0]), ws[1..])
  }

  function Writes(kvs: seq<Kv>): seq<Write> {
    if kvs == [] then [] else Decode(kvs[0]) + Writes(kvs[1..])
  }
}
