/** Saving and later loading: what a load of a saved profile does to a host that
    has been disturbed in between, however it was disturbed. */
module ProfileRestore {
  import opened Bytes
  import opened CText
  import opened CpuFreq
  import opened Devices
  import opened Toml
  import opened Profile
  import opened ProfileHost

  // ----- a saved profile is well formed

  predicate Led(items: seq<Item>) {
    items == [] || items[0].Section?
  }

  predicate Sound(items: seq<Item>) {
    GoodItems(items) && Populated(items)
  }

  lemma SoundConcat(a: seq<Item>, b: seq<Item>)
    requires Sound(a) && Sound(b)
    ensures Sound(a + b)
  {
    var c := a + b;
    assert forall i :: 0 <= i < |a| ==> c[i] == a[i];
    assert forall i :: |a| <= i < |c| ==> c[i] == b[i - |a|];
    forall i | 0 <= i < |c| && c[i].Section?
      ensures i + 1 < |c| && (c[i + 1].Str? || c[i + 1].Int?)
    {
      if i >= |a| {
        assert b[i - |a|].Section?;
      }
    }
  }

  predicate Fields(items: seq<Item>) {
    forall i :: 0 <= i < |items| ==> GoodItem(items[i]) && (items[i].Str? || items[i].Int?)
  }

  lemma TitledSound(name: string, a: seq<Item>, b: seq<Item>, c: seq<Item>, d: seq<Item>)
    requires Fields(a) && Fields(b) && Fields(c) && Fields(d) && name != "" && IsAlpha(name[0])
    ensures var t := Titled(name, a + b + c + d); Sound(t) && Led(t)
  {
    var items := a + b + c + d;
    assert Fields(items);
    if items != [] {
      var t := [Section(name)] + items;
      assert forall i :: 0 < i < |t| ==> t[i] == items[i - 1];
    }
  }

  lemma FieldItems(key: string, s: Option<string>, n: Option<i64>)
    requires GoodKey(key)
    ensures Fields(StrItem(key, s)) && Fields(IntItem(key, n))
  {
  }

  lemma CpuSound(cpus: Cpus)
    ensures Sound(CpuItems(cpus)) && Led(CpuItems(cpus))
  {
    if cpus != [] && cpus[0].Some? {
      var c := cpus[0].value;
      FieldItems("governor", GovernorOf(c), None);
      FieldItems("freq_min_hz", None, MinHz(c));
      FieldItems("freq_max_hz", None, MaxHz(c));
      TitledSound("cpu", StrItem("governor", GovernorOf(c)), IntItem("freq_min_hz", MinHz(c)),
                  IntItem("freq_max_hz", MaxHz(c)), []);
      NoMore(StrItem("governor", GovernorOf(c)) + IntItem("freq_min_hz", MinHz(c)) + IntItem("freq_max_hz", MaxHz(c)));
    }
  }

  lemma NoMore(items: seq<Item>)
    ensures items + [] == items
  {
  }

  lemma MemSound(m: Mem)
    ensures Sound(MemItems(m)) && Led(MemItems(m))
  {
    MemFieldsSound(AsCInt(m.swappiness), ThpText(m.thp), AsCInt(m.overcommit), AsCInt(m.vfs));
  }

  lemma MemFieldsSound(swap: Option<i64>, thp: Option<string>, oc: Option<i64>, vfs: Option<i64>)
    ensures var t := Titled("memory", IntItem("swappiness", swap) + StrItem("thp", thp)
                                      + IntItem("overcommit", oc) + IntItem("vfs_cache_pressure", vfs));
            Sound(t) && Led(t)
  {
    FieldItems("swappiness", None, swap);
    FieldItems("thp", thp, None);
    FieldItems("overcommit", None, oc);
    FieldItems("vfs_cache_pressure", None, vfs);
    TitledSound("memory", IntItem("swappiness", swap), StrItem("thp", thp),
                IntItem("overcommit", oc), IntItem("vfs_cache_pressure", vfs));
  }

  lemma DiskSound(name: string, d: Disk)
    ensures Sound(DiskItems(name, d)) && Led(DiskItems(name, d))
  {
    var sched, ra := SchedulerOf(d), d.readAhead;
    var title := "storage." + name;
    FieldItems("scheduler", sched, None);
    FieldItems("read_ahead_kb", None, ra);
    assert title[0] == 's';
    TitledSound(title, StrItem("scheduler", sched), IntItem("read_ahead_kb", ra), [], []);
    NoMore(StrItem("scheduler", sched) + IntItem("read_ahead_kb", ra));
  }

  lemma {:induction false} StorageSound(order: seq<string>, disks: map<string, Disk>)
    ensures Sound(StorageItems(order, disks)) && Led(StorageItems(order, disks))
    decreases order
  {
    if order != [] {
      StorageSound(order[1..], disks);
      if Captured(order[0], disks) {
        DiskSound(order[0], disks[order[0]]);
        SoundConcat(DiskItems(order[0], disks[order[0]]), StorageItems(order[1..], disks));
      } else {
        assert [] + StorageItems(order[1..], disks) == StorageItems(order[1..], disks);
      }
    }
  }

  lemma HeadSound(name: string, time: i64)
    ensures Sound(HeadItems(name, time))
  {
  }

  lemma SavedSound(m: Machine, name: string, time: i64, order: seq<string>)
    ensures Sound(Saved(m, name, time, order))
  {
    var h, c, k, s := HeadItems(name, time), CpuItems(m.cpus), MemItems(m.mem), StorageItems(order, m.disks);
    HeadSound(name, time);
    CpuSound(m.cpus);
    MemSound(m.mem);
    StorageSound(order, m.disks);
    SoundConcat(h, c);
    SoundConcat(h + c, k);
    SoundConcat(h + c + k, s);
  }

  /** Printing a saved profile and parsing it gives back exactly what was saved
      if and only if its name, governor and device names are clean. */
  lemma SavedRoundTrip(m: Machine, name: string, time: i64, order: seq<string>)
    ensures var items := Saved(m, name, time, order);
            ParseText("", Print(items)) == Entries("", items) <==> CleanItems(items)
  {
    SavedSound(m, name, time, order);
    PrintParse(Saved(m, name, time, order));
  }

  // ----- the writes a saved profile asks for

  function Asked(section: string, items: seq<Item>): seq<Write> {
    Writes(Entries(section, items))
  }

  lemma {:induction false} WritesConcat(a: seq<Kv>, b: seq<Kv>)
    ensures Writes(a + b) == Writes(a) + Writes(b)
    decreases a
  {
    if a == [] {
      assert a + b == b;
    } else {
      TailOfConcat(a, b);
      WritesConcat(a[1..], b);
    }
  }

  function SectionAfter(section: string, items: seq<Item>): string
    decreases items
  {
    if items == [] then section
    else SectionAfter(if items[0].Section? then items[0].name else section, items[1..])
  }

  lemma {:induction false} EntriesConcat(section: string, a: seq<Item>, b: seq<Item>)
    ensures Entries(section, a + b) == Entries(section, a) + Entries(SectionAfter(section, a), b)
    decreases a
  {
    if a == [] {
      assert a + b == b;
    } else {
      var next := if a[0].Section? then a[0].name else section;
      TailOfConcat(a, b);
      EntriesConcat(next, a[1..], b);
      EntriesStep(section, a, a[0], a[1..]);
      EntriesStep(section, a + b, a[0], a[1..] + b);
    }
  }

  lemma {:induction false} FieldsStay(section: string, items: seq<Item>)
    requires Fields(items)
    ensures SectionAfter(section, items) == section
    decreases items
  {
    if items != [] {
      FieldsStay(section, items[1..]);
    }
  }

  lemma AskedFields(section: string, a: seq<Item>, b: seq<Item>)
    requires Fields(a)
    ensures Asked(section, a + b) == Asked(section, a) + Asked(section, b)
  {
    EntriesConcat(section, a, b);
    FieldsStay(section, a);
    WritesConcat(Entries(section, a), Entries(section, b));
  }

  lemma AskedLed(a: seq<Item>, b: seq<Item>)
    requires Led(b)
    ensures Asked("", a + b) == Asked("", a) + Asked("", b)
  {
    var s := SectionAfter("", a);
    EntriesConcat("", a, b);
    assert Entries(s, b) == Entries("", b);
    WritesConcat(Entries("", a), Entries("", b));
  }

  lemma AskedTitled(name: string, a: seq<Item>, b: seq<Item>, c: seq<Item>, d: seq<Item>)
    requires Fields(a) && Fields(b) && Fields(c) && Fields(d)
    ensures Asked("", Titled(name, a + b + c + d)) == Asked(name, a) + Asked(name, b) + Asked(name, c) + Asked(name, d)
  {
    var items := a + b + c + d;
    assert Fields(a + b) && Fields(a + b + c);
    AskedFields(name, a + b + c, d);
    AskedFields(name, a + b, c);
    AskedFields(name, a, b);
    if items != [] {
      EntriesStep("", [Section(name)] + items, Section(name), items);
    }
  }

  function OnStr(kvs: Option<string>, section: string, key: string): seq<Write> {
    match kvs case None => [] case Some(s) => Decode(Kv(section, key, s, true))
  }

  function OnInt(v: Option<i64>, section: string, key: string): seq<Write> {
    match v case None => [] case Some(x) => Decode(Kv(section, key, PrintInt(x), false))
  }

  lemma AskedField(section: string, key: string, s: Option<string>, v: Option<i64>)
    ensures Asked(section, StrItem(key, s)) == OnStr(s, section, key)
    ensures Asked(section, IntItem(key, v)) == OnInt(v, section, key)
  {
    if s.Some? {
      OneEntry(section, Str(key, s.value), Kv(section, key, s.value, true));
    }
    if v.Some? {
      OneEntry(section, Int(key, v.value), Kv(section, key, PrintInt(v.value), false));
    }
  }

  lemma OneEntry(section: string, item: Item, kv: Kv)
    requires match item
             case Str(k, s) => kv == Kv(section, k, s, true)
             case Int(k, v) => kv == Kv(section, k, PrintInt(v), false)
             case _ => false
    ensures Asked(section, [item]) == Decode(kv)
  {
    assert [item][1..] == [] && [kv] + [] == [kv];
    assert Entries(section, [item]) == [kv];
    assert [kv][1..] == [] && Writes([]) == [] && Decode(kv) + [] == Decode(kv);
  }

  function CpuWrites(cpus: Cpus): seq<Write> {
    if cpus == [] || cpus[0] == None then []
    else
      var c := cpus[0].value;
      GovWrites(GovernorOf(c)) + MinWrites(MinHz(c)) + MaxWrites(MaxHz(c))
  }

  function GovWrites(g: Option<string>): seq<Write> {
    match g case None => [] case Some(s) => [WGovernor(s)]
  }

  function MinWrites(v: Option<i64>): seq<Write> {
    match v case None => [] case Some(hz) => [WFreqMin(hz)]
  }

  function MaxWrites(v: Option<i64>): seq<Write> {
    match v case None => [] case Some(hz) => [WFreqMax(hz)]
  }

  lemma AskedCpu(cpus: Cpus)
    ensures Asked("", CpuItems(cpus)) == CpuWrites(cpus)
  {
    if cpus != [] && cpus[0].Some? {
      var c := cpus[0].value;
      CpuFieldsAsk(GovernorOf(c), MinHz(c), MaxHz(c));
    }
  }

  lemma CpuFieldsAsk(g: Option<string>, lo: Option<i64>, hi: Option<i64>)
    requires (lo.Some? ==> lo.value >= 0) && (hi.Some? ==> hi.value >= 0)
    ensures Asked("", Titled("cpu", StrItem("governor", g) + IntItem("freq_min_hz", lo) + IntItem("freq_max_hz", hi)))
            == GovWrites(g) + MinWrites(lo) + MaxWrites(hi)
  {
    var a, b, c := StrItem("governor", g), IntItem("freq_min_hz", lo), IntItem("freq_max_hz", hi);
    FieldItems("governor", g, None);
    FieldItems("freq_min_hz", None, lo);
    FieldItems("freq_max_hz", None, hi);
    AskedTitled("cpu", a, b, c, []);
    NoMore(a + b + c);
    AskedField("cpu", "governor", g, None);
    AskedField("cpu", "freq_min_hz", None, lo);
    AskedField("cpu", "freq_max_hz", None, hi);
    CpuDecodes(g, lo, hi);
    NoneLeft(GovWrites(g) + MinWrites(lo) + MaxWrites(hi));
  }

  lemma NoneLeft(ws: seq<Write>)
    ensures ws + Asked("cpu", []) == ws
  {
  }

  lemma CpuDecodes(g: Option<string>, lo: Option<i64>, hi: Option<i64>)
    requires (lo.Some? ==> lo.value >= 0) && (hi.Some? ==> hi.value >= 0)
    ensures OnStr(g, "cpu", "governor") == GovWrites(g)
    ensures OnInt(lo, "cpu", "freq_min_hz") == MinWrites(lo)
    ensures OnInt(hi, "cpu", "freq_max_hz") == MaxWrites(hi)
  {
    MinDecodes(lo);
    MaxDecodes(hi);
  }

  lemma MinDecodes(lo: Option<i64>)
    requires lo.Some? ==> lo.value >= 0
    ensures OnInt(lo, "cpu", "freq_min_hz") == MinWrites(lo)
  {
    if lo.Some? {
      CliParsePrint(lo.value);
    }
  }

  lemma MaxDecodes(hi: Option<i64>)
    requires hi.Some? ==> hi.value >= 0
    ensures OnInt(hi, "cpu", "freq_max_hz") == MaxWrites(hi)
  {
    if hi.Some? {
      CliParsePrint(hi.value);
    }
  }

  function ThpWrites(m: Option<Thp>): seq<Write> {
    match m case None => [] case Some(t) => [WThp(t)]
  }

  function SwapWrites(v: Option<i64>): seq<Write> {
    match v case None => [] case Some(x) => [WSwappiness(TruncS32(x))]
  }

  function OcWrites(v: Option<i64>): seq<Write> {
    match v case None => [] case Some(x) => [WOvercommit(TruncS32(x))]
  }

  function VfsWrites(v: Option<i64>): seq<Write> {
    match v case None => [] case Some(x) => [WVfs(TruncS32(x))]
  }

  function MemWrites(m: Mem): seq<Write> {
    SwapWrites(m.swappiness) + ThpWrites(m.thp) + OcWrites(m.overcommit) + VfsWrites(m.vfs)
  }

  lemma AskedMem(m: Mem)
    ensures Asked("", MemItems(m)) == MemWrites(m)
  {
    var thp := ThpShown(m.thp);
    AskedMemAs(m, MemItems(m), thp);
  }

  lemma AskedMemAs(m: Mem, items: seq<Item>, thp: Option<string>)
    requires if m.thp == None then thp == None else thp.Some? && ThpOf(thp.value) == m.thp
    requires items == Titled("memory", IntItem("swappiness", AsCInt(m.swappiness)) + StrItem("thp", thp)
                                       + IntItem("overcommit", AsCInt(m.overcommit))
                                       + IntItem("vfs_cache_pressure", AsCInt(m.vfs)))
    ensures Asked("", items) == MemWrites(m)
  {
    MemFieldsAsk(AsCInt(m.swappiness), thp, AsCInt(m.overcommit), AsCInt(m.vfs));
    NumbersDecode(m.swappiness, m.overcommit, m.vfs);
    ThpDecodes(m.thp, thp);
  }

  lemma MemFieldsAsk(swap: Option<i64>, thp: Option<string>, oc: Option<i64>, vfs: Option<i64>)
    ensures Asked("", Titled("memory", IntItem("swappiness", swap) + StrItem("thp", thp)
                                       + IntItem("overcommit", oc) + IntItem("vfs_cache_pressure", vfs)))
            == OnInt(swap, "memory", "swappiness") + OnStr(thp, "memory", "thp")
               + OnInt(oc, "memory", "overcommit") + OnInt(vfs, "memory", "vfs_cache_pressure")
  {
    var a, b := IntItem("swappiness", swap), StrItem("thp", thp);
    var c, d := IntItem("overcommit", oc), IntItem("vfs_cache_pressure", vfs);
    FieldItems("swappiness", None, swap);
    FieldItems("thp", thp, None);
    FieldItems("overcommit", None, oc);
    FieldItems("vfs_cache_pressure", None, vfs);
    AskedTitled("memory", a, b, c, d);
    AskedField("memory", "swappiness", None, swap);
    AskedField("memory", "thp", thp, None);
    AskedField("memory", "overcommit", None, oc);
    AskedField("memory", "vfs_cache_pressure", None, vfs);
  }

  lemma NumbersDecode(swap: Option<i64>, oc: Option<i64>, vfs: Option<i64>)
    ensures OnInt(AsCInt(swap), "memory", "swappiness") == SwapWrites(swap)
    ensures OnInt(AsCInt(oc), "memory", "overcommit") == OcWrites(oc)
    ensures OnInt(AsCInt(vfs), "memory", "vfs_cache_pressure") == VfsWrites(vfs)
  {
    if swap.Some? {
      CliParsePrint(TruncS32(swap.value));
      TruncS32Identity(TruncS32(swap.value));
    }
    if oc.Some? {
      CliParsePrint(TruncS32(oc.value));
      TruncS32Identity(TruncS32(oc.value));
    }
    if vfs.Some? {
      CliParsePrint(TruncS32(vfs.value));
      TruncS32Identity(TruncS32(vfs.value));
    }
  }

  /** A number in a profile is applied as written exactly when it fits 32 bits:
      4294967296 asks for a swappiness of 0. */
  lemma NumberWraps(v: i64)
    ensures Decode(Kv("memory", "swappiness", PrintInt(v), false)) == [WSwappiness(TruncS32(v))]
    ensures TruncS32(v) == v <==> -0x8000_0000 <= v < 0x8000_0000
    ensures v == 0x1_0000_0000 ==> TruncS32(v) == 0
  {
    CliParsePrint(v);
    SwappinessAsked(PrintInt(v), v);
    TruncS32Fits(v);
  }

  lemma SwappinessAsked(text: string, v: i64)
    requires CliParseInt(text) == Some(v)
    ensures Decode(Kv("memory", "swappiness", text, false)) == [WSwappiness(TruncS32(v))]
  {
  }

  /** The name saved for a mode stands for that mode. */
  lemma ThpShown(m: Option<Thp>) returns (thp: Option<string>)
    ensures thp == ThpText(m)
    ensures if m == None then thp == None else thp.Some? && ThpOf(thp.value) == m
  {
    thp := ThpText(m);
    if m.Some? {
      ReadThpFile(m.value);
    }
  }

  lemma ThpWritten(name: string, t: Thp)
    requires ThpOf(name) == Some(t)
    ensures Decode(Kv("memory", "thp", name, true)) == [WThp(t)]
  {
  }

  lemma ThpDecodes(m: Option<Thp>, shown: Option<string>)
    requires if m == None then shown == None else shown.Some? && ThpOf(shown.value) == m
    ensures OnStr(shown, "memory", "thp") == ThpWrites(m)
  {
    if m.Some? {
      ThpWritten(shown.value, m.value);
    }
  }

  function SchedWrites(dev: string, s: Option<string>): seq<Write> {
    match s case None => [] case Some(x) => [WScheduler(dev, x)]
  }

  function RaWrites(dev: string, v: Option<i64>): seq<Write> {
    match v case None => [] case Some(x) => [WReadAhead(dev, x)]
  }

  function DiskWrites(dev: string, d: Disk): seq<Write> {
    SchedWrites(dev, SchedulerOf(d)) + RaWrites(dev, d.readAhead)
  }

  lemma AskedDisk(dev: string, d: Disk)
    ensures Asked("", DiskItems(dev, d)) == DiskWrites(dev, d)
  {
    DiskFieldsAsk(dev, SchedulerOf(d), d.readAhead);
  }

  lemma DiskFieldsAsk(dev: string, s: Option<string>, ra: Option<i64>)
    ensures Asked("", Titled("storage." + dev, StrItem("scheduler", s) + IntItem("read_ahead_kb", ra)))
            == SchedWrites(dev, s) + RaWrites(dev, ra)
  {
    var title := "storage." + dev;
    var a, b := StrItem("scheduler", s), IntItem("read_ahead_kb", ra);
    FieldItems("scheduler", s, None);
    FieldItems("read_ahead_kb", None, ra);
    AskedTitled(title, a, b, [], []);
    NoMore(a + b);
    AskedField(title, "scheduler", s, None);
    AskedField(title, "read_ahead_kb", None, ra);
    DiskDecodes(title, dev, s, ra);
    assert Asked(title, []) == [];
  }

  lemma DiskDecodes(title: string, dev: string, s: Option<string>, ra: Option<i64>)
    requires title == "storage." + dev
    ensures OnStr(s, title, "scheduler") == SchedWrites(dev, s)
    ensures OnInt(ra, title, "read_ahead_kb") == RaWrites(dev, ra)
  {
    assert title[0] == 's' && title[8..] == dev && "storage." <= title;
    if ra.Some? {
      CliParsePrint(ra.value);
    }
  }

  function StorageWrites(order: seq<string>, disks: map<string, Disk>): seq<Write> {
    if order == [] then []
    else (if Captured(order[0], disks) then DiskWrites(order[0], disks[order[0]]) else [])
         + StorageWrites(order[1..], disks)
  }

  lemma {:induction false} AskedStorage(order: seq<string>, disks: map<string, Disk>)
    ensures Asked("", StorageItems(order, disks)) == StorageWrites(order, disks)
    decreases order
  {
    if order != [] {
      var rest := StorageItems(order[1..], disks);
      AskedStorage(order[1..], disks);
      StorageSound(order[1..], disks);
      if Captured(order[0], disks) {
        AskedDisk(order[0], disks[order[0]]);
        AskedLed(DiskItems(order[0], disks[order[0]]), rest);
      } else {
        assert [] + rest == rest && [] + StorageWrites(order[1..], disks) == StorageWrites(order[1..], disks);
      }
    }
  }

  lemma AskedHead(name: string, time: i64)
    ensures Asked("", HeadItems(name, time)) == []
  {
    TopLevel(HeadItems(name, time));
  }

  lemma {:induction false} TopLevel(items: seq<Item>)
    requires forall i :: 0 <= i < |items| ==> !items[i].Section?
    ensures Asked("", items) == []
    decreases items
  {
    if items != [] {
      TopLevel(items[1..]);
    }
  }

  /** Reading a saved profile asks for these writes, in this order. */
  lemma AskedSaved(m: Machine, name: string, time: i64, order: seq<string>)
    ensures Asked("", Saved(m, name, time, order))
            == CpuWrites(m.cpus) + MemWrites(m.mem) + StorageWrites(order, m.disks)
  {
    var h, c, k, s := HeadItems(name, time), CpuItems(m.cpus), MemItems(m.mem), StorageItems(order, m.disks);
    CpuSound(m.cpus);
    MemSound(m.mem);
    StorageSound(order, m.disks);
    AskedLed(h + c + k, s);
    AskedLed(h + c, k);
    AskedLed(h, c);
    AskedHead(name, time);
    AskedCpu(m.cpus);
    AskedMem(m.mem);
    AskedStorage(order, m.disks);
    assert [] + CpuWrites(m.cpus) == CpuWrites(m.cpus);
  }

  // ----- their effect

  predicate ForCpu(w: Write) { w.WGovernor? || w.WFreqMin? || w.WFreqMax? }
  predicate ForDisk(w: Write) { w.WScheduler? || w.WReadAhead? }
  predicate ForMem(w: Write) { !ForCpu(w) && !ForDisk(w) }

  function SlotAfterAll(c: Option<Cpu>, ws: seq<Write>): Option<Cpu>
    decreases ws
  {
    if ws == [] then c else SlotAfterAll(CpuSlotAfter(c, ws[0]), ws[1..])
  }

  lemma {:induction false} CpuPart(m: Machine, ws: seq<Write>)
    requires forall i :: 0 <= i < |ws| ==> ForCpu(ws[i])
    ensures var n := AfterAll(m, ws);
            && n.mem == m.mem && n.disks == m.disks && |n.cpus| == |m.cpus|
            && forall i :: 0 <= i < |m.cpus| ==> n.cpus[i] == SlotAfterAll(m.cpus[i], ws)
    decreases ws
  {
    if ws != [] {
      CpuPart(After(m, ws[0]), ws[1..]);
    }
  }

  lemma {:induction false} OtherPart(m: Machine, ws: seq<Write>)
    requires forall i :: 0 <= i < |ws| ==> !ForCpu(ws[i])
    ensures var n := AfterAll(m, ws);
            && n.cpus == m.cpus
            && ((forall i :: 0 <= i < |ws| ==> ForMem(ws[i])) ==> n.disks == m.disks)
            && ((forall i :: 0 <= i < |ws| ==> ForDisk(ws[i])) ==> n.mem == m.mem)
    decreases ws
  {
    if ws != [] {
      OthersKeepCpus(m.cpus, ws[0]);
      OtherPart(After(m, ws[0]), ws[1..]);
    }
  }

  /** What loading does to one CPU: the governor if it is offered, then the two
      limits, minimum first. */
  function Reloaded(saved: Cpu, c: Cpu): Cpu {
    var c1 := match GovernorOf(saved) case None => c case Some(g) => SetGov(c, g);
    var c2 := match MinHz(saved) case None => c1 case Some(lo) => SetMin(c1, lo);
    match MaxHz(saved) case None => c2 case Some(hi) => SetMax(c2, hi)
  }

  lemma {:induction false} SlotConcat(c: Option<Cpu>, a: seq<Write>, b: seq<Write>)
    ensures SlotAfterAll(c, a + b) == SlotAfterAll(SlotAfterAll(c, a), b)
    decreases a
  {
    if a == [] {
      assert a + b == b;
    } else {
      TailOfConcat(a, b);
      SlotConcat(CpuSlotAfter(c, a[0]), a[1..], b);
    }
  }

  lemma SlotOne(c: Option<Cpu>, w: Write)
    ensures SlotAfterAll(c, [w]) == CpuSlotAfter(c, w)
  {
    assert [w][1..] == [];
    assert SlotAfterAll(CpuSlotAfter(c, w), []) == CpuSlotAfter(c, w);
  }

  lemma SlotReloaded(g: Option<string>, lo: Option<i64>, hi: Option<i64>, c: Cpu)
    ensures var c1 := if g == None then c else SetGov(c, g.value);
            var c2 := if lo == None then c1 else SetMin(c1, lo.value);
            var c3 := if hi == None then c2 else SetMax(c2, hi.value);
            SlotAfterAll(Some(c), GovWrites(g) + MinWrites(lo) + MaxWrites(hi)) == Some(c3)
  {
    var c1 := if g == None then c else SetGov(c, g.value);
    var c2 := if lo == None then c1 else SetMin(c1, lo.value);
    SlotConcat(Some(c), GovWrites(g) + MinWrites(lo), MaxWrites(hi));
    SlotConcat(Some(c), GovWrites(g), MinWrites(lo));
    if g.Some? {
      SlotOne(Some(c), WGovernor(g.value));
    }
    if lo.Some? {
      SlotOne(Some(c1), WFreqMin(lo.value));
    }
    if hi.Some? {
      SlotOne(Some(c2), WFreqMax(hi.value));
    }
  }

  lemma {:induction false} NoSlot(ws: seq<Write>)
    ensures SlotAfterAll(None, ws) == None
    decreases ws
  {
    if ws != [] {
      NoSlot(ws[1..]);
    }
  }

  predicate CpusReloaded(saved: Cpus, was: Cpus, now: Cpus) {
    && |now| == |was|
    && forall i :: 0 <= i < |was| ==>
      now[i] == if was[i] == None || saved == [] || saved[0] == None then was[i]
                else Some(Reloaded(saved[0].value, was[i].value))
  }

  lemma CpusRestored(m: Machine, saved: Cpus)
    ensures var n := AfterAll(m, CpuWrites(saved));
            n.mem == m.mem && n.disks == m.disks && CpusReloaded(saved, m.cpus, n.cpus)
  {
    var ws := CpuWrites(saved);
    CpuPart(m, ws);
    forall i | 0 <= i < |m.cpus|
      ensures SlotAfterAll(m.cpus[i], ws) ==
              if m.cpus[i] == None || saved == [] || saved[0] == None then m.cpus[i]
              else Some(Reloaded(saved[0].value, m.cpus[i].value))
    {
      if m.cpus[i] == None {
        NoSlot(ws);
      } else if saved != [] && saved[0].Some? {
        var c := saved[0].value;
        SlotReloaded(GovernorOf(c), MinHz(c), MaxHz(c), m.cpus[i].value);
      }
    }
  }

  lemma MemOne(m: Machine, ws: seq<Write>, w: Write)
    requires ws == [w] && ForMem(w)
    ensures AfterAll(m, ws) == m.(mem := MemAfter(m.mem, w))
  {
    MemStep(m, w);
  }

  lemma NumberRestored(m: Machine, v: Option<i64>)
    requires v.Some? ==> 0 <= v.value < 0x8000_0000
    ensures v.Some? == m.mem.swappiness.Some? && (v.Some? ==> v.value <= 200)
            ==> AfterAll(m, SwapWrites(v)) == m.(mem := m.mem.(swappiness := v))
    ensures v.Some? == m.mem.overcommit.Some? && (v.Some? ==> v.value <= 2)
            ==> AfterAll(m, OcWrites(v)) == m.(mem := m.mem.(overcommit := v))
    ensures v.Some? == m.mem.vfs.Some? ==> AfterAll(m, VfsWrites(v)) == m.(mem := m.mem.(vfs := v))
  {
    if v.Some? {
      TruncS32Identity(v.value);
      MemOne(m, SwapWrites(v), WSwappiness(v.value));
      MemOne(m, OcWrites(v), WOvercommit(v.value));
      MemOne(m, VfsWrites(v), WVfs(v.value));
    }
  }

  lemma ThpRestored(m: Machine, v: Option<Thp>)
    requires v.Some? == m.mem.thp.Some?
    ensures AfterAll(m, ThpWrites(v)) == m.(mem := m.mem.(thp := v))
  {
    if v.Some? {
      MemOne(m, ThpWrites(v), WThp(v.value));
    }
  }

  lemma MemRestored(m: Machine, saved: Mem)
    requires KernelMem(saved) && SameMemFiles(saved, m.mem)
    ensures AfterAll(m, MemWrites(saved)) == m.(mem := saved)
  {
    var a, b, c, d := SwapWrites(saved.swappiness), ThpWrites(saved.thp), OcWrites(saved.overcommit), VfsWrites(saved.vfs);
    AfterConcat(m, a + b + c, d);
    AfterConcat(m, a + b, c);
    AfterConcat(m, a, b);
    NumberRestored(m, saved.swappiness);
    var m1 := AfterAll(m, a);
    ThpRestored(m1, saved.thp);
    var m2 := AfterAll(m1, b);
    NumberRestored(m2, saved.overcommit);
    var m3 := AfterAll(m2, c);
    NumberRestored(m3, saved.vfs);
  }

  lemma DiskOne(m: Machine, ws: seq<Write>, w: Write)
    requires ws == [w] && ForDisk(w)
    ensures AfterAll(m, ws) == m.(disks := DisksAfter(m.disks, w))
  {
    DiskStep(m, w);
  }

  lemma SchedulerReloaded(m: Machine, dev: string, saved: Disk)
    requires dev in m.disks && StorageNameValid(dev)
    requires KernelDisk(saved) && saved.schedulers == m.disks[dev].schedulers
    requires saved.schedulers == [] ==> m.disks[dev].active == saved.active
    ensures AfterAll(m, SchedWrites(dev, SchedulerOf(saved)))
            == m.(disks := m.disks[dev := m.disks[dev].(active := saved.active)])
  {
    if saved.schedulers == [] {
      assert m.disks[dev := m.disks[dev]] == m.disks;
    } else {
      var name := saved.schedulers[saved.active];
      SchedulerRead(saved);
      SchedulerRestored(saved, m.disks[dev]);
      DiskOne(m, SchedWrites(dev, SchedulerOf(saved)), WScheduler(dev, name));
    }
  }

  lemma ReadAheadReloaded(m: Machine, dev: string, v: Option<i64>)
    requires dev in m.disks && StorageNameValid(dev)
    requires m.disks[dev].readAhead.Some? == v.Some? && (v.Some? ==> v.value >= 0)
    ensures AfterAll(m, RaWrites(dev, v)) == m.(disks := m.disks[dev := m.disks[dev].(readAhead := v)])
  {
    if v.Some? {
      DiskOne(m, RaWrites(dev, v), WReadAhead(dev, v.value));
    } else {
      assert m.disks[dev := m.disks[dev]] == m.disks;
    }
  }

  /** One captured device gets back its scheduler and read-ahead. */
  lemma DiskRestored(m: Machine, dev: string, saved: Disk)
    requires dev in m.disks && StorageNameValid(dev)
    requires KernelDisk(saved) && SameDiskFiles(saved, m.disks[dev])
    requires saved.schedulers == [] ==> m.disks[dev].active == saved.active
    ensures AfterAll(m, DiskWrites(dev, saved)) == m.(disks := m.disks[dev := saved])
  {
    var a, b := SchedWrites(dev, SchedulerOf(saved)), RaWrites(dev, saved.readAhead);
    AfterConcat(m, a, b);
    SchedulerReloaded(m, dev, saved);
    var m1 := AfterAll(m, a);
    ReadAheadReloaded(m1, dev, saved.readAhead);
    assert m1.disks[dev := saved] == m.disks[dev := saved];
  }

  /** The block devices of two moments: the same ones, with the same files. */
  predicate SameDevices(was: map<string, Disk>, now: map<string, Disk>) {
    && was.Keys == now.Keys
    && (forall d :: d in was ==> SameDevice(was[d], now[d]))
  }

  predicate SameDevice(was: Disk, now: Disk) {
    KernelDisk(was) && KernelDisk(now) && SameDiskFiles(was, now)
  }

  predicate DisksReloaded(order: seq<string>, saved: map<string, Disk>, was: map<string, Disk>, now: map<string, Disk>) {
    && now.Keys == was.Keys && was.Keys == saved.Keys
    && forall d :: d in was ==> now[d] == if d in order && Captured(d, saved) then saved[d] else was[d]
  }

  lemma {:induction false} DisksRestored(m: Machine, order: seq<string>, saved: map<string, Disk>)
    requires SameDevices(saved, m.disks)
    ensures var n := AfterAll(m, StorageWrites(order, saved));
            n.cpus == m.cpus && n.mem == m.mem && DisksReloaded(order, saved, m.disks, n.disks)
    decreases order
  {
    if order != [] {
      var dev, rest := order[0], StorageWrites(order[1..], saved);
      var head := if Captured(dev, saved) then DiskWrites(dev, saved[dev]) else [];
      var mid := if Captured(dev, saved) then m.disks[dev := saved[dev]] else m.disks;
      var m1 := m.(disks := mid);
      HeadRestored(m, dev, saved, head, mid);
      AfterConcat(m, head, rest);
      DisksRestored(m1, order[1..], saved);
      ReloadOne(order, saved, m.disks, mid, AfterAll(m1, rest).disks);
    }
  }

  lemma HeadRestored(m: Machine, dev: string, saved: map<string, Disk>, head: seq<Write>, mid: map<string, Disk>)
    requires SameDevices(saved, m.disks)
    requires head == if Captured(dev, saved) then DiskWrites(dev, saved[dev]) else []
    requires mid == if Captured(dev, saved) then m.disks[dev := saved[dev]] else m.disks
    ensures AfterAll(m, head) == m.(disks := mid) && SameDevices(saved, mid)
  {
    if Captured(dev, saved) {
      OneDeviceSame(saved, m.disks, dev);
      DiskRestored(m, dev, saved[dev]);
    }
  }

  lemma OneDeviceSame(saved: map<string, Disk>, was: map<string, Disk>, dev: string)
    requires SameDevices(saved, was) && dev in was
    ensures SameDevices(saved, was[dev := saved[dev]])
    ensures KernelDisk(saved[dev]) && SameDiskFiles(saved[dev], was[dev])
    ensures saved[dev].schedulers == [] ==> was[dev].active == saved[dev].active
  {
    assert KernelDisk(was[dev]);
  }

  lemma ReloadOne(order: seq<string>, saved: map<string, Disk>,
                  was: map<string, Disk>, mid: map<string, Disk>, now: map<string, Disk>)
    requires order != [] && was.Keys == saved.Keys
    requires mid == if Captured(order[0], saved) then was[order[0] := saved[order[0]]] else was
    requires DisksReloaded(order[1..], saved, mid, now)
    ensures DisksReloaded(order, saved, was, now)
  {
    assert order == [order[0]] + order[1..];
  }

  // ----- the whole run

  /** Loading a profile text that is not a dry run. */
  function Loaded(m: Machine, text: string): Machine {
    AfterAll(m, Writes(ParseText("", text)))
  }

  /** Save, disturb, load: memory tunables and captured devices are as saved,
      every CPU has had the saved governor and limits replayed on it, and
      nothing else has moved. */
  lemma SaveDisturbLoad(was: Machine, now: Machine, name: string, time: i64, order: seq<string>)
    requires CleanItems(Saved(was, name, time, order))
    requires KernelMem(was.mem) && SameMemFiles(was.mem, now.mem)
    requires SameDevices(was.disks, now.disks)
    ensures var n := Loaded(now, Print(Saved(was, name, time, order)));
            && n.mem == was.mem
            && DisksReloaded(order, was.disks, now.disks, n.disks)
            && CpusReloaded(was.cpus, now.cpus, n.cpus)
  {
    SavedRoundTrip(was, name, time, order);
    AskedSaved(was, name, time, order);
    var c, k, s := CpuWrites(was.cpus), MemWrites(was.mem), StorageWrites(order, was.disks);
    AfterConcat(now, c + k, s);
    AfterConcat(now, c, k);
    CpusRestored(now, was.cpus);
    var m1 := AfterAll(now, c);
    MemRestored(m1, was.mem);
    var m2 := AfterAll(m1, k);
    DisksRestored(m2, order, was.disks);
  }

  /** Every CPU that offers the saved governor ends with it; the others keep
      theirs. */
  lemma GovernorReloaded(saved: Cpu, c: Cpu)
    ensures Reloaded(saved, c).governor ==
            if GovernorOf(saved).Some? && AcceptsGovernor(c, GovernorOf(saved).value) then GovernorOf(saved)
            else c.governor
  {
  }

  /** Loading twice always ends at the saved limits, and once is enough exactly
      when the saved minimum is not above the live maximum. */
  lemma LimitsReloaded(saved: Cpu, c: Cpu)
    requires Limited(saved) && Limited(c)
    requires WithinHardware(c, saved.curMin.value) && WithinHardware(c, saved.curMax.value)
    ensures var once := Reloaded(saved, c);
            var twice := Reloaded(saved, once);
            && twice.curMin == saved.curMin && twice.curMax == saved.curMax
            && once.curMax == saved.curMax
            && (once.curMin == saved.curMin <==> saved.curMin.value <= c.curMax.value || c.curMin == saved.curMin)
            && once.hwMin == c.hwMin && once.hwMax == c.hwMax
  {
    var g := GovernorOf(saved);
    var c1 := if g == None then c else SetGov(c, g.value);
    var lo, hi := saved.curMin.value * KHZ, saved.curMax.value * KHZ;
    ReplayReachesSaved(c1, lo, hi);
    var once := Reloaded(saved, c);
    var c2 := if g == None then once else SetGov(once, g.value);
    ReplayReachesSaved(c2, lo, hi);
  }

  /** Every live CPU has valid limits and a range that holds the saved ones. */
  predicate CanTakeLimits(saved: Cpu, cpus: Cpus)
    requires Limited(saved)
  {
    forall i :: 0 <= i < |cpus| && cpus[i].Some? ==>
      && Limited(cpus[i].value)
      && WithinHardware(cpus[i].value, saved.curMin.value) && WithinHardware(cpus[i].value, saved.curMax.value)
  }

  predicate AtLimits(saved: Cpu, cpus: Cpus) {
    forall i :: 0 <= i < |cpus| && cpus[i].Some? ==>
      cpus[i].value.curMin == saved.curMin && cpus[i].value.curMax == saved.curMax
  }

  lemma CpusReloadedTwice(saved: Cpus, now: Cpus, once: Cpus, twice: Cpus)
    requires saved != [] && saved[0].Some? && Limited(saved[0].value) && CanTakeLimits(saved[0].value, now)
    requires CpusReloaded(saved, now, once) && CpusReloaded(saved, once, twice)
    ensures |twice| == |now| && AtLimits(saved[0].value, twice)
    ensures forall i :: 0 <= i < |now| ==> now[i].Some? == twice[i].Some?
  {
    forall i | 0 <= i < |now| && now[i].Some?
      ensures once[i].Some? && twice[i].Some?
      ensures twice[i].value.curMin == saved[0].value.curMin && twice[i].value.curMax == saved[0].value.curMax
    {
      LimitsReloaded(saved[0].value, now[i].value);
    }
  }

  lemma DevicesStaySame(order: seq<string>, saved: map<string, Disk>, was: map<string, Disk>, now: map<string, Disk>)
    requires SameDevices(saved, was) && DisksReloaded(order, saved, was, now)
    ensures SameDevices(saved, now)
  {
    forall d | d in saved
      ensures SameDevice(saved[d], now[d])
    {
      assert SameDevice(saved[d], was[d]);
      ReloadedIsSame(saved[d], was[d], now[d]);
    }
  }

  lemma ReloadedIsSame(saved: Disk, was: Disk, now: Disk)
    requires SameDevice(saved, was) && (now == saved || now == was)
    ensures SameDevice(saved, now)
  {
  }

  /** Save, disturb, and load the saved profile twice: from any valid live limits
      every CPU ends at exactly the limits saved from CPU 0, and memory and
      devices are as the first load left them. */
  lemma SaveLoadTwice(was: Machine, now: Machine, name: string, time: i64, order: seq<string>, text: string)
    requires text == Print(Saved(was, name, time, order)) && CleanItems(Saved(was, name, time, order))
    requires KernelMem(was.mem) && SameMemFiles(was.mem, now.mem) && SameDevices(was.disks, now.disks)
    requires was.cpus != [] && was.cpus[0].Some? && Limited(was.cpus[0].value)
    requires CanTakeLimits(was.cpus[0].value, now.cpus)
    ensures var twice := Loaded(Loaded(now, text), text);
            && |twice.cpus| == |now.cpus| && AtLimits(was.cpus[0].value, twice.cpus)
            && (forall i :: 0 <= i < |now.cpus| ==> now.cpus[i].Some? == twice.cpus[i].Some?)
            && twice.mem == was.mem
  {
    var once := Loaded(now, text);
    SaveDisturbLoad(was, now, name, time, order);
    DevicesStaySame(order, was.disks, now.disks, once.disks);
    SaveDisturbLoad(was, once, name, time, order);
    CpusReloadedTwice(was.cpus, now.cpus, once.cpus, Loaded(once, text).cpus);
  }

  // ----- a profile of limits alone

  function LimitsProfile(lo: i64, hi: i64): seq<Item> {
    [Section("cpu"), Int("freq_min_hz", lo), Int("freq_max_hz", hi)]
  }

  predicate CanHold(c: Cpu, lo: i64, hi: i64) {
    Limited(c) && WithinHardware(c, lo / KHZ) && WithinHardware(c, hi / KHZ)
  }

  lemma LimitsAsked(lo: i64, hi: i64, text: string)
    requires lo >= 0 && hi >= 0 && text == Print(LimitsProfile(lo, hi))
    ensures Writes(ParseText("", text)) == [WFreqMin(lo), WFreqMax(hi)]
  {
    var items := LimitsProfile(lo, hi);
    LimitsAreSound(items, lo, hi);
    ReadItems("", items);
    CpuFieldsAsk(None, Some(lo), Some(hi));
  }

  lemma LimitsAreSound(items: seq<Item>, lo: i64, hi: i64)
    requires items == LimitsProfile(lo, hi)
    ensures GoodItems(items) && CleanItems(items)
    ensures items == Titled("cpu", StrItem("governor", None) + IntItem("freq_min_hz", Some(lo))
                                   + IntItem("freq_max_hz", Some(hi)))
  {
    var fields := StrItem("governor", None) + IntItem("freq_min_hz", Some(lo)) + IntItem("freq_max_hz", Some(hi));
    assert fields == [items[1], items[2]];
    assert items == [items[0]] + fields;
  }

  lemma TwoWrites(m: Machine, v: Write, w: Write)
    ensures AfterAll(m, [v, w]) == After(After(m, v), w)
    ensures AllAccepted(m, [v, w]) <==> Accepted(m, v) && Accepted(After(m, v), w)
  {
    assert [v, w] == [v] + [w];
    AfterConcat(m, [v], [w]);
    AfterOne(m, v);
    AfterOne(After(m, v), w);
  }

  predicate AllCanHold(cpus: Cpus, lo: i64, hi: i64) {
    forall i :: 0 <= i < |cpus| ==> (cpus[i] == None || CanHold(cpus[i].value, lo, hi))
  }

  predicate MinimumFits(c: Option<Cpu>, lo: i64) {
    c.Some? && c.value.curMax.Some? ==> lo / KHZ <= c.value.curMax.value
  }

  predicate AllMinimumFit(cpus: Cpus, lo: i64) {
    forall i :: 0 <= i < |cpus| ==> MinimumFits(cpus[i], lo)
  }

  /** The saved limits on one CPU, everything else as it was. */
  predicate Holds(c: Option<Cpu>, now: Option<Cpu>, lo: i64, hi: i64) {
    match c
    case None => now == None
    case Some(x) => now.Some? && now.value == x.(curMin := now.value.curMin, curMax := now.value.curMax)
                    && now.value.curMin == Some(lo / KHZ) && now.value.curMax == Some(hi / KHZ)
  }

  function Replayed(cpus: Cpus, lo: i64, hi: i64): Cpus {
    CpusAfter(CpusAfter(cpus, WFreqMin(lo)), WFreqMax(hi))
  }

  predicate ReplayAccepted(m: Machine, lo: i64, hi: i64) {
    Accepted(m, WFreqMin(lo)) && Accepted(After(m, WFreqMin(lo)), WFreqMax(hi))
  }

  lemma ReplayAcceptedIff(m: Machine, lo: i64, hi: i64)
    ensures ReplayAccepted(m, lo, hi) <==>
            forall i :: 0 <= i < |m.cpus| && m.cpus[i].Some? ==> ReplayOk(m.cpus[i].value, lo, hi)
  {
    CpuOnly(m, WFreqMin(lo));
    var m1 := After(m, WFreqMin(lo));
    CpuOnly(m1, WFreqMax(hi));
    assert forall i :: 0 <= i < |m.cpus| && m.cpus[i].Some? ==> m1.cpus[i] == Some(SetMin(m.cpus[i].value, lo));
    assert forall i :: 0 <= i < |m.cpus| && m1.cpus[i].Some? ==> m.cpus[i].Some?;
  }

  lemma ReplayTwice(cpus: Cpus, lo: i64, hi: i64)
    requires 0 <= lo && 0 <= hi && lo / KHZ <= hi / KHZ && AllCanHold(cpus, lo, hi)
    ensures var once := Replayed(cpus, lo, hi);
            && (AllMinimumFit(cpus, lo) <==>
                forall i :: 0 <= i < |cpus| && cpus[i].Some? ==> ReplayOk(cpus[i].value, lo, hi))
            && (forall i :: 0 <= i < |once| && once[i].Some? ==> ReplayOk(once[i].value, lo, hi))
            && |Replayed(once, lo, hi)| == |cpus|
            && forall i :: 0 <= i < |cpus| ==> Holds(cpus[i], Replayed(once, lo, hi)[i], lo, hi)
  {
    forall i | 0 <= i < |cpus| && cpus[i].Some?
      ensures MinimumFits(cpus[i], lo) <==> ReplayOk(cpus[i].value, lo, hi)
      ensures ReplayOk(Replay(cpus[i].value, lo, hi), lo, hi)
      ensures Holds(cpus[i], Some(Replay(Replay(cpus[i].value, lo, hi), lo, hi)), lo, hi)
    {
      ReplayReachesSaved(cpus[i].value, lo, hi);
    }
    var once := Replayed(cpus, lo, hi);
    ReplayedAt(cpus, lo, hi);
    ReplayedAt(once, lo, hi);
  }

  lemma ReplayedAt(cpus: Cpus, lo: i64, hi: i64)
    ensures var r := Replayed(cpus, lo, hi);
            |r| == |cpus| && forall i :: 0 <= i < |cpus| ==>
              r[i] == if cpus[i] == None then None else Some(Replay(cpus[i].value, lo, hi))
  {
  }

  /** For every valid live limits and every CPU: two loads of a limits profile
      end exactly at its limits, with the second reported a success. The first
      is a success exactly when its minimum is not above any live maximum. */
  lemma LoadLimitsTwice(m: Machine, lo: i64, hi: i64, text: string)
    requires 0 <= lo && 0 <= hi && lo / KHZ <= hi / KHZ && text == Print(LimitsProfile(lo, hi))
    requires AllCanHold(m.cpus, lo, hi)
    ensures var ws, once, twice := Writes(ParseText("", text)), Loaded(m, text), Loaded(Loaded(m, text), text);
            && (AllAccepted(m, ws) <==> AllMinimumFit(m.cpus, lo))
            && AllAccepted(once, ws)
            && |twice.cpus| == |m.cpus|
            && forall i :: 0 <= i < |m.cpus| ==> Holds(m.cpus[i], twice.cpus[i], lo, hi)
  {
    LimitsAsked(lo, hi, text);
    var once := Loaded(m, text);
    TwoWrites(m, WFreqMin(lo), WFreqMax(hi));
    TwoWrites(once, WFreqMin(lo), WFreqMax(hi));
    ReplayAcceptedIff(m, lo, hi);
    ReplayAcceptedIff(once, lo, hi);
    ReplayTwice(m.cpus, lo, hi);
  }

  // ----- what the entries of a profile mean

  lemma CpuKeys(g: string, text: string, v: i64, quoted: bool)
    requires CliParseInt(text) == Some(v)
    ensures Decode(Kv("cpu", "governor", g, quoted)) == if quoted then [WGovernor(g)] else []
    ensures Decode(Kv("cpu", "freq_min_hz", text, quoted)) == if quoted || v < 0 then [] else [WFreqMin(v)]
    ensures Decode(Kv("cpu", "freq_max_hz", text, quoted)) == if quoted || v < 0 then [] else [WFreqMax(v)]
  {
  }

  lemma MemoryKeys(text: string, v: s32, quoted: bool)
    requires CliParseInt(text) == Some(v)
    ensures Decode(Kv("memory", "swappiness", text, quoted)) == if quoted then [] else [WSwappiness(v)]
    ensures Decode(Kv("memory", "overcommit", text, quoted)) == if quoted then [] else [WOvercommit(v)]
    ensures Decode(Kv("memory", "vfs_cache_pressure", text, quoted)) == if quoted then [] else [WVfs(v)]
  {
    TruncS32Identity(v);
  }

  lemma ThpKeys(quoted: bool)
    ensures Decode(Kv("memory", "thp", "always", quoted)) == if quoted then [WThp(Always)] else []
    ensures Decode(Kv("memory", "thp", "madvise", quoted)) == if quoted then [WThp(Madvise)] else []
    ensures Decode(Kv("memory", "thp", "never", quoted)) == if quoted then [WThp(Never)] else []
  {
  }

  lemma StorageKeys(dev: string, name: string, text: string, v: i64, quoted: bool, section: string)
    requires CliParseInt(text) == Some(v) && section == "storage." + dev
    ensures Decode(Kv(section, "scheduler", name, quoted)) == if quoted then [WScheduler(dev, name)] else []
    ensures Decode(Kv(section, "read_ahead_kb", text, quoted)) == if quoted then [] else [WReadAhead(dev, v)]
  {
    assert section[0] == 's' && section[8..] == dev && "storage." <= section;
  }

  // ----- what writes can do to the memory tunables

  /** The ranges the kernel documents. */
  predicate InRange(m: Mem) {
    && (m.swappiness.Some? ==> 0 <= m.swappiness.value <= 200)
    && (m.overcommit.Some? ==> 0 <= m.overcommit.value <= 2)
    && (m.vfs.Some? ==> 0 <= m.vfs.value < 0x8000_0000)
  }

  /** A write to a tunable that can be written is accepted exactly when it leaves
      every tunable in range, and then that one holds the value. */
  lemma AcceptedIfInRange(m: Mem, v: s32)
    requires InRange(m) && m.swappiness.Some? && m.overcommit.Some? && m.vfs.Some?
    ensures MemAccepts(m, WSwappiness(v)) <==> InRange(m.(swappiness := Some(v)))
    ensures MemAccepts(m, WOvercommit(v)) <==> InRange(m.(overcommit := Some(v)))
    ensures MemAccepts(m, WVfs(v)) <==> InRange(m.(vfs := Some(v)))
    ensures MemAfter(m, WSwappiness(v)) == if 0 <= v <= 200 then m.(swappiness := Some(v)) else m
    ensures MemAfter(m, WOvercommit(v)) == if 0 <= v <= 2 then m.(overcommit := Some(v)) else m
    ensures MemAfter(m, WVfs(v)) == if 0 <= v then m.(vfs := Some(v)) else m
  {
  }

  /** Over every run of writes the tunables stay in range. */
  lemma {:induction false} RunKeepsTunables(m: Machine, ws: seq<Write>)
    requires InRange(m.mem)
    ensures InRange(AfterAll(m, ws).mem) && SameMemFiles(m.mem, AfterAll(m, ws).mem)
    decreases ws
  {
    if ws != [] {
      RunKeepsTunables(After(m, ws[0]), ws[1..]);
    }
  }

  // ----- what a load does to one block device

  /** Save, disturb, load: a device that the directory lists under a plain name
      and that is not a loop, ram, zram or md device ends with the scheduler and
      read-ahead it had; every other device stays as the disturbance left it. */
  lemma DeviceAfterLoad(was: Machine, now: Machine, name: string, time: i64, order: seq<string>, dev: string)
    requires CleanItems(Saved(was, name, time, order))
    requires KernelMem(was.mem) && SameMemFiles(was.mem, now.mem)
    requires SameDevices(was.disks, now.disks) && dev in was.disks
    ensures var n := Loaded(now, Print(Saved(was, name, time, order)));
            && dev in n.disks
            && if dev in order && PlainName(dev) && dev[0] != '.' && !Pseudo(dev)
               then n.disks[dev].active == was.disks[dev].active && n.disks[dev].readAhead == was.disks[dev].readAhead
               else n.disks[dev] == now.disks[dev]
  {
    SaveDisturbLoad(was, now, name, time, order);
    BlockNames(dev);
  }

  /** A saved profile starts with its version, name and time. */
  lemma HeadSaid(m: Machine, name: string, time: i64, order: seq<string>)
    ensures [Kv("", "schema_version", "1", false), Kv("", "name", name, true), Kv("", "created_at", PrintInt(time), false)]
            <= Entries("", Saved(m, name, time, order))
  {
    var h := HeadItems(name, time);
    var rest := CpuItems(m.cpus) + MemItems(m.mem) + StorageItems(order, m.disks);
    SavedSplit(h, CpuItems(m.cpus), MemItems(m.mem), StorageItems(order, m.disks));
    HeadOf(h, rest, Entries("", h));
    HeadEntries(h, name, time);
  }

  lemma SavedSplit(h: seq<Item>, c: seq<Item>, k: seq<Item>, s: seq<Item>)
    ensures h + c + k + s == h + (c + k + s)
  {
  }

  lemma HeadOf(h: seq<Item>, rest: seq<Item>, first: seq<Kv>)
    requires first == Entries("", h)
    ensures first <= Entries("", h + rest)
  {
    EntriesConcat("", h, rest);
  }

  lemma HeadEntries(h: seq<Item>, name: string, time: i64)
    requires h == HeadItems(name, time)
    ensures Entries("", h) ==
            [Kv("", "schema_version", "1", false), Kv("", "name", name, true), Kv("", "created_at", PrintInt(time), false)]
  {
    var h1, h2, h3 := h[1..], h[2..], h[3..];
    assert h1[1..] == h2 && h2[1..] == h3 && h3[1..] == [];
    assert PrintInt(1) == "1";
    assert Entries("", []) == [];
    assert Entries("", h3) == [Kv("", "created_at", PrintInt(time), false)];
    assert Entries("", h2) == [Kv("", "name", name, true)] + Entries("", h3);
    assert Entries("", h1) == [Kv("", "schema_version", "1", false)] + Entries("", h2);
  }
}
