/** The save and load commands as they run on a host: printing section by
    section, and applying parsed entries one setter call at a time. */
module ProfileHost {
  import opened Bytes
  import opened CText
  import opened CpuFreq
  import opened Devices
  import opened Toml
  import opened Profile

  lemma AfterOne(m: Machine, w: Write)
    ensures AfterAll(m, [w]) == After(m, w) && (AllAccepted(m, [w]) <==> Accepted(m, w))
  {
    assert [w][1..] == [];
    assert AfterAll(After(m, w), []) == After(m, w);
  }

  lemma {:induction false} AfterConcat(m: Machine, a: seq<Write>, b: seq<Write>)
    ensures AfterAll(m, a + b) == AfterAll(AfterAll(m, a), b)
    ensures AllAccepted(m, a + b) <==> AllAccepted(m, a) && AllAccepted(AfterAll(m, a), b)
    decreases a
  {
    if a == [] {
      assert a + b == b;
    } else {
      TailOfConcat(a, b);
      AfterConcat(After(m, a[0]), a[1..], b);
    }
  }

  lemma CpuOnly(m: Machine, w: Write)
    requires w.WGovernor? || w.WFreqMin? || w.WFreqMax?
    ensures After(m, w) == m.(cpus := CpusAfter(m.cpus, w))
    ensures Accepted(m, w) <==> forall i :: 0 <= i < |m.cpus| && m.cpus[i].Some? ==> CpuAccepts(m.cpus[i].value, w)
  {
  }

  lemma OthersKeepCpus(cpus: Cpus, w: Write)
    requires !w.WGovernor? && !w.WFreqMin? && !w.WFreqMax?
    ensures CpusAfter(cpus, w) == cpus
  {
  }

  // ----- the output file

  lemma {:induction false} PrintAppend(items: seq<Item>, item: Item)
    ensures Print(items + [item]) == Print(items) + PrintItem(item)
    decreases items
  {
    if items == [] {
      assert [] + [item] == [item] && [item][1..] == [];
      assert PrintItem(item) + "" == "" + PrintItem(item);
    } else {
      TailOfConcat(items, [item]);
      PrintAppend(items[1..], item);
    }
  }

  /** A profile being written: its text is always what its items print as. */
  class Document {
    var text: string
    ghost var items: seq<Item>

    ghost predicate Valid() reads this {
      text == Print(items)
    }

    constructor ()
      ensures Valid() && items == []
    {
      text, items := "", [];
    }

    method Put(item: Item)
      requires Valid()
      modifies this
      ensures Valid() && items == old(items) + [item]
    {
      PrintAppend(items, item);
      text := text + PrintItem(item);
      items := items + [item];
    }

    method PutStr(key: string, v: Option<string>)
      requires Valid()
      modifies this
      ensures Valid() && items == old(items) + StrItem(key, v)
    {
      if v.Some? {
        Put(Str(key, v.value));
      }
    }

    method PutInt(key: string, v: Option<i64>)
      requires Valid()
      modifies this
      ensures Valid() && items == old(items) + IntItem(key, v)
    {
      if v.Some? {
        Put(Int(key, v.value));
      }
    }
  }

  lemma Regroup(x: seq<Item>, s: Item, a: seq<Item>, b: seq<Item>, c: seq<Item>, d: seq<Item>)
    ensures x + [s] + a + b + c + d == x + ([s] + (a + b + c + d))
    ensures x + [s] + a + b + c == x + ([s] + (a + b + c))
    ensures x + [s] + a + b == x + ([s] + (a + b))
  {
  }

  lemma StorageStep(order: seq<string>, i: nat, disks: map<string, Disk>, x: seq<Item>, left: seq<Item>)
    returns (rest: seq<Item>)
    requires i < |order| && left == StorageItems(order[i..], disks)
    ensures rest == StorageItems(order[i + 1..], disks)
    ensures x + left == x + (if Captured(order[i], disks) then DiskItems(order[i], disks[order[i]]) else []) + rest
    ensures !Captured(order[i], disks) ==> left == rest
  {
    rest := StorageItems(order[i + 1..], disks);
    assert order[i..][0] == order[i] && order[i..][1..] == order[i + 1..];
  }

  class Host {
    const cpu: CpuSysfs
    var mem: Mem
    var disks: map<string, Disk>

    constructor (cpu: CpuSysfs, mem: Mem, disks: map<string, Disk>)
      ensures this.cpu == cpu && this.mem == mem && this.disks == disks
    {
      this.cpu, this.mem, this.disks := cpu, mem, disks;
    }

    ghost function State(): Machine reads this, cpu {
      Machine(cpu.cpus, mem, disks)
    }

    // ----- save

    method SaveCpu(f: Document)
      requires f.Valid()
      modifies f
      ensures f.Valid() && f.items == old(f.items) + CpuItems(cpu.cpus)
    {
      if |cpu.cpus| == 0 || cpu.cpus[0].None? {
        return;
      }
      var gov := cpu.GetGovernor(0);
      var lo := cpu.GetFreqMin(0);
      var hi := cpu.GetFreqMax(0);
      if gov.Some? || lo.Some? || hi.Some? {
        Regroup(f.items, Section("cpu"), StrItem("governor", gov),
                IntItem("freq_min_hz", lo), IntItem("freq_max_hz", hi), []);
        f.Put(Section("cpu"));
        f.PutStr("governor", gov);
        f.PutInt("freq_min_hz", lo);
        f.PutInt("freq_max_hz", hi);
      }
    }

    method SaveMemory(f: Document)
      requires f.Valid()
      modifies f
      ensures f.Valid() && f.items == old(f.items) + MemItems(mem)
    {
      var swap, oc, vfs, thp := AsCInt(mem.swappiness), AsCInt(mem.overcommit), AsCInt(mem.vfs), ThpText(mem.thp);
      if swap.None? && thp.None? && oc.None? && vfs.None? {
        return;
      }
      Regroup(f.items, Section("memory"), IntItem("swappiness", swap), StrItem("thp", thp),
              IntItem("overcommit", oc), IntItem("vfs_cache_pressure", vfs));
      f.Put(Section("memory"));
      f.PutInt("swappiness", swap);
      f.PutStr("thp", thp);
      f.PutInt("overcommit", oc);
      f.PutInt("vfs_cache_pressure", vfs);
    }

    method SaveDisk(f: Document, name: string)
      requires f.Valid() && name in disks
      modifies f
      ensures f.Valid() && f.items == old(f.items) + DiskItems(name, disks[name])
    {
      var sched := SchedulerOf(disks[name]);
      var ra := disks[name].readAhead;
      if sched.Some? || ra.Some? {
        Regroup(f.items, Section("storage." + name), StrItem("scheduler", sched), IntItem("read_ahead_kb", ra), [], []);
        f.Put(Section("storage." + name));
        f.PutStr("scheduler", sched);
        f.PutInt("read_ahead_kb", ra);
      }
    }

    /** `order` is how the directory lists the block devices. */
    method SaveStorage(f: Document, order: seq<string>)
      requires f.Valid()
      modifies f
      ensures f.Valid() && f.items == old(f.items) + StorageItems(order, disks)
    {
      var i := 0;
      ghost var left := StorageItems(order, disks);
      ghost var goal := f.items + left;
      assert order[0..] == order;
      while i < |order|
        invariant 0 <= i <= |order| && f.Valid()
        invariant left == StorageItems(order[i..], disks) && goal == f.items + left
      {
        left := StorageStep(order, i, disks, f.items, left);
        if Captured(order[i], disks) {
          SaveDisk(f, order[i]);
        }
        i := i + 1;
      }
      assert left == [] && f.items + left == f.items;
    }

    /** The whole document, or nothing at all on a dry run. */
    method ProfileWrite(name: string, time: i64, order: seq<string>, dryRun: bool) returns (file: Option<string>)
      ensures file == if dryRun then None else Some(Print(Saved(State(), name, time, order)))
    {
      if dryRun {
        return None;
      }
      var f := new Document();
      f.Put(Comment);
      f.Put(Int("schema_version", 1));
      f.Put(Str("name", name));
      f.Put(Int("created_at", time));
      assert f.items == HeadItems(name, time);
      SaveCpu(f);
      SaveMemory(f);
      SaveStorage(f, order);
      return Some(f.text);
    }

    // ----- load

    /** Calls the setter on every CPU that opens, failing if any call does. */
    method WriteEachCpu(w: Write) returns (ok: bool)
      requires w.WGovernor? || w.WFreqMin? || w.WFreqMax?
      modifies cpu
      ensures State() == After(old(State()), w)
      ensures ok <==> Accepted(old(State()), w)
    {
      ghost var before := cpu.cpus;
      CpuOnly(State(), w);
      ok := true;
      var i := 0;
      while i < |cpu.cpus|
        invariant 0 <= i <= |before| == |cpu.cpus|
        invariant forall k :: 0 <= k < i ==> cpu.cpus[k] == CpuSlotAfter(before[k], w)
        invariant forall k :: i <= k < |before| ==> cpu.cpus[k] == before[k]
        invariant ok <==> forall k :: 0 <= k < i && before[k].Some? ==> CpuAccepts(before[k].value, w)
      {
        if cpu.cpus[i].Some? {
          var r: bool;
          match w {
            case WGovernor(g) => r := cpu.SetGovernor(i, g);
            case WFreqMin(hz) => r := cpu.SetFreqMin(i, hz);
            case WFreqMax(hz) => r := cpu.SetFreqMax(i, hz);
          }
          ok := ok && r;
        }
        i := i + 1;
      }
      assert cpu.cpus == CpusAfter(before, w);
    }

    method LoadCpuKv(kv: Kv, dryRun: bool) returns (ok: bool)
      modifies cpu
      ensures dryRun ==> ok && State() == old(State())
      ensures !dryRun ==> State() == AfterAll(old(State()), CpuWrite(kv))
      ensures !dryRun ==> (ok <==> AllAccepted(old(State()), CpuWrite(kv)))
    {
      var w: Write;
      if kv.key == "governor" {
        if !kv.isString {
          return true;
        }
        w := WGovernor(kv.value);
      } else if kv.key == "freq_min_hz" || kv.key == "freq_max_hz" {
        if kv.isString {
          return true;
        }
        var hz := CliParseInt(kv.value);
        if hz.None? || hz.value < 0 {
          return true;
        }
        w := if kv.key == "freq_min_hz" then WFreqMin(hz.value) else WFreqMax(hz.value);
      } else {
        return true;
      }
      if dryRun {
        return true;
      }
      AfterOne(State(), w);
      ok := WriteEachCpu(w);
    }

    method SetSwappiness(v: s32) returns (ok: bool)
      modifies this`mem
      ensures mem == MemAfter(old(mem), WSwappiness(v)) && (ok <==> MemAccepts(old(mem), WSwappiness(v)))
    {
      if v < 0 || v > 200 || mem.swappiness.None? {
        return false;
      }
      mem := mem.(swappiness := Some(v));
      return true;
    }

    method SetOvercommit(v: s32) returns (ok: bool)
      modifies this`mem
      ensures mem == MemAfter(old(mem), WOvercommit(v)) && (ok <==> MemAccepts(old(mem), WOvercommit(v)))
    {
      if v < 0 || v > 2 || mem.overcommit.None? {
        return false;
      }
      mem := mem.(overcommit := Some(v));
      return true;
    }

    method SetVfs(v: s32) returns (ok: bool)
      modifies this`mem
      ensures mem == MemAfter(old(mem), WVfs(v)) && (ok <==> MemAccepts(old(mem), WVfs(v)))
    {
      if v < 0 || mem.vfs.None? {
        return false;
      }
      mem := mem.(vfs := Some(v));
      return true;
    }

    method SetThp(t: Thp) returns (ok: bool)
      modifies this`mem
      ensures mem == MemAfter(old(mem), WThp(t)) && (ok <==> MemAccepts(old(mem), WThp(t)))
    {
      if mem.thp.None? {
        return false;
      }
      mem := mem.(thp := Some(t));
      return true;
    }

    method LoadMemoryKv(kv: Kv, dryRun: bool) returns (ok: bool)
      modifies this`mem
      ensures dryRun ==> ok && State() == old(State())
      ensures !dryRun ==> State() == AfterAll(old(State()), MemWrite(kv))
      ensures !dryRun ==> (ok <==> AllAccepted(old(State()), MemWrite(kv)))
    {
      if kv.key == "thp" {
        if !kv.isString {
          return true;
        }
        var mode := ThpOf(kv.value);
        if mode.None? || dryRun {
          return true;
        }
        MemStep(State(), WThp(mode.value));
        ok := SetThp(mode.value);
        return;
      }
      if kv.key != "swappiness" && kv.key != "overcommit" && kv.key != "vfs_cache_pressure" {
        return true;
      }
      if kv.isString {
        return true;
      }
      var v := CliParseInt(kv.value);
      if v.None? || dryRun {
        return true;
      }
      var n := TruncS32(v.value);
      if kv.key == "swappiness" {
        MemStep(State(), WSwappiness(n));
        ok := SetSwappiness(n);
      } else if kv.key == "overcommit" {
        MemStep(State(), WOvercommit(n));
        ok := SetOvercommit(n);
      } else {
        MemStep(State(), WVfs(n));
        ok := SetVfs(n);
      }
    }

    method LoadStorageKv(dev: string, kv: Kv, dryRun: bool) returns (ok: bool)
      modifies this`disks
      ensures dryRun ==> ok && State() == old(State())
      ensures !dryRun ==> State() == AfterAll(old(State()), DiskWrite(dev, kv))
      ensures !dryRun ==> (ok <==> AllAccepted(old(State()), DiskWrite(dev, kv)))
    {
      if !StorageNameValid(dev) || dev !in disks {
        DeviceGone(State(), dev, kv);
        return true;
      }
      var w: Write;
      if kv.key == "scheduler" {
        if !kv.isString {
          return true;
        }
        w := WScheduler(dev, kv.value);
      } else if kv.key == "read_ahead_kb" {
        if kv.isString {
          return true;
        }
        var kb := CliParseInt(kv.value);
        if kb.None? {
          return true;
        }
        w := WReadAhead(dev, kb.value);
      } else {
        return true;
      }
      if dryRun {
        return true;
      }
      DiskStep(State(), w);
      match w {
        case WScheduler(_, name) => ok := SetScheduler(dev, name);
        case WReadAhead(_, kb) => ok := SetReadAhead(dev, kb);
      }
    }

    method SetScheduler(dev: string, name: string) returns (ok: bool)
      requires dev in disks
      modifies this`disks
      ensures disks == old(disks)[dev := Devices.SetScheduler(old(disks)[dev], name)]
      ensures ok <==> AcceptsScheduler(old(disks)[dev], name)
    {
      if name == "" || !Lacks(name, '/') || !Lacks(name, '\n') || !Lacks(name, ' ') || |name| >= 128 {
        return false;
      }
      var k := Position(disks[dev].schedulers, name);
      if k == |disks[dev].schedulers| {
        return false;
      }
      disks := disks[dev := disks[dev].(active := k)];
      return true;
    }

    method SetReadAhead(dev: string, kb: i64) returns (ok: bool)
      requires dev in disks
      modifies this`disks
      ensures disks == old(disks)[dev := Devices.SetReadAhead(old(disks)[dev], kb)]
      ensures ok <==> AcceptsReadAhead(old(disks)[dev], kb)
    {
      if kb < 0 || disks[dev].readAhead.None? {
        return false;
      }
      disks := disks[dev := disks[dev].(readAhead := Some(kb))];
      return true;
    }

    /** Applies every entry in order, counting the ones that fail. A dry run
        changes nothing and reports success. */
    method ProfileApply(kvs: seq<Kv>, dryRun: bool) returns (ok: bool)
      modifies this, cpu
      ensures dryRun ==> ok && State() == old(State())
      ensures !dryRun ==> State() == AfterAll(old(State()), Writes(kvs))
      ensures !dryRun ==> (ok <==> AllAccepted(old(State()), Writes(kvs)))
    {
      var failures := 0;
      var i := 0;
      ghost var start := State();
      assert kvs[0..] == kvs;
      while i < |kvs|
        invariant 0 <= i <= |kvs| && failures >= 0
        invariant dryRun ==> State() == start && failures == 0
        invariant !dryRun ==> AfterAll(start, Writes(kvs)) == AfterAll(State(), Writes(kvs[i..]))
        invariant !dryRun ==>
          (AllAccepted(start, Writes(kvs)) <==> failures == 0 && AllAccepted(State(), Writes(kvs[i..])))
      {
        var kv := kvs[i];
        assert kvs[i..][0] == kv && kvs[i..][1..] == kvs[i + 1..];
        AfterConcat(State(), Decode(kv), Writes(kvs[i + 1..]));
        var rc := true;
        if kv.section == "cpu" {
          rc := LoadCpuKv(kv, dryRun);
        } else if kv.section == "memory" {
          rc := LoadMemoryKv(kv, dryRun);
        } else if "storage." <= kv.section {
          rc := LoadStorageKv(kv.section[8..], kv, dryRun);
        }
        if !rc {
          failures := failures + 1;
        }
        i := i + 1;
      }
      return failures == 0;
    }

    method ProfileLoad(text: string, dryRun: bool) returns (ok: bool)
      modifies this, cpu
      ensures dryRun ==> ok && State() == old(State())
      ensures !dryRun ==> State() == AfterAll(old(State()), Writes(ParseText("", text)))
      ensures !dryRun ==> (ok <==> AllAccepted(old(State()), Writes(ParseText("", text))))
    {
      var kvs := TomlParse(text);
      ok := ProfileApply(kvs, dryRun);
    }
  }

  lemma MemStep(m: Machine, w: Write)
    requires w.WSwappiness? || w.WOvercommit? || w.WVfs? || w.WThp?
    ensures AfterAll(m, [w]) == m.(mem := MemAfter(m.mem, w))
    ensures AllAccepted(m, [w]) <==> MemAccepts(m.mem, w)
  {
    AfterOne(m, w);
    OthersKeepCpus(m.cpus, w);
  }

  lemma DiskStep(m: Machine, w: Write)
    requires w.WScheduler? || w.WReadAhead?
    ensures AfterAll(m, [w]) == m.(disks := DisksAfter(m.disks, w))
    ensures AllAccepted(m, [w]) <==> DisksAccept(m.disks, w)
  {
    AfterOne(m, w);
    OthersKeepCpus(m.cpus, w);
  }

  lemma DeviceGone(m: Machine, dev: string, kv: Kv)
    requires !Opens(m.disks, dev)
    ensures AfterAll(m, DiskWrite(dev, kv)) == m && AllAccepted(m, DiskWrite(dev, kv))
  {
    var ws := DiskWrite(dev, kv);
    if ws != [] {
      assert ws == [ws[0]];
      DiskStep(m, ws[0]);
    }
  }
}
