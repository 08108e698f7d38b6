/**
 * What a snapshot holds, stated over the specification functions of
 * EnvironmentGetter: which keys, in which order, and how each Linux value
 * follows from the lines of /proc/cpuinfo and /proc/meminfo.
 */
module EnvironmentFacts {
  import opened Wrappers
  import opened JavaStrings
  import opened TreeMaps
  import opened Multisets
  import opened Multimaps
  import opened PropertiesFiles
  import opened EnvironmentGetter

  /** The values a pseudo-file gives for `key`, none when it could not be read. */
  function FileValues(contents: Option<seq<string>>, key: string): seq<string>
  {
    if contents.Some? then ValuesFor(contents.value, key) else []
  }

  /** Off Linux the snapshot holds exactly the four base entries. */
  lemma BaseKeysOffLinux(sysProps: map<string, string>, availableProcessors: int,
                         cpuInfo: Option<seq<string>>, memInfo: Option<seq<string>>)
    requires "os.name" in sysProps && sysProps["os.name"] != "Linux"
    ensures ExpectedProperties(sysProps, availableProcessors, cpuInfo, memInfo).Keys == BaseKeys
  {
  }

  /** No Linux key is a base key. */
  lemma BaseAndLinuxKeysDisjoint()
    ensures BaseKeys !! LinuxKeys
  {
    forall k | k in LinuxKeys ensures k !in BaseKeys {
      assert k[..6] == "host.c" || k[..6] == "host.m";
    }
  }

  /** A union of maps with disjoint keys keeps every entry of the left-hand map. */
  lemma DisjointUnion<K, V>(m: map<K, V>, n: map<K, V>)
    requires m.Keys !! n.Keys
    ensures (m + n).Keys == m.Keys + n.Keys
    ensures forall k :: k in m ==> (m + n)[k] == m[k]
  {
  }

  /** On Linux six keys are added and the four base entries keep their values. */
  lemma LinuxAddsSixKeys(sysProps: map<string, string>, availableProcessors: int,
                         cpuInfo: Option<seq<string>>, memInfo: Option<seq<string>>)
    requires "os.name" in sysProps && sysProps["os.name"] == "Linux"
    ensures var e := ExpectedProperties(sysProps, availableProcessors, cpuInfo, memInfo);
      && e.Keys == BaseKeys + LinuxKeys
      && BaseKeys !! LinuxKeys
      && forall k :: k in BaseKeys ==> e[k] == BaseProperties(sysProps, availableProcessors)[k]
  {
    var base := BaseProperties(sysProps, availableProcessors);
    var linux := LinuxProperties(Parsed(cpuInfo), Parsed(memInfo));
    assert base.Keys == BaseKeys;
    assert linux.Keys == LinuxKeys;
    BaseAndLinuxKeysDisjoint();
    DisjointUnion(base, linux);
  }

  /** Sorted entries holding these keys list them in this order. */
  lemma KeyOrder(entries: seq<(string, PropertyValue)>, order: seq<string>)
    requires Sorted(entries)
    requires forall i :: 0 < i < |order| ==> Less(order[i - 1], order[i])
    requires ToMap(entries).Keys == set k | k in order
    ensures Keys(entries) == order
  {
    var listing := seq(|order|, i requires 0 <= i < |order| => (order[i], NullValue));
    assert Keys(listing) == order;
    ToMapKeys(entries);
    SortedKeysUnique(entries, listing);
  }

  /** The base keys in ascending `compareTo` order. */
  const BaseOrder: seq<string> := ["host.availableProcessors", "os.arch", "os.name", "os.version"]

  /** Off Linux the snapshot iterates in this order. */
  lemma IterationOrderOffLinux(sysProps: map<string, string>, availableProcessors: int,
                               cpuInfo: Option<seq<string>>, memInfo: Option<seq<string>>,
                               properties: seq<(string, PropertyValue)>)
    requires "os.name" in sysProps && sysProps["os.name"] != "Linux"
    requires Sorted(properties)
    requires ToMap(properties) == ExpectedProperties(sysProps, availableProcessors, cpuInfo, memInfo)
    ensures Keys(properties) == BaseOrder
  {
    LessAt(BaseOrder[0], BaseOrder[1], 0);
    LessAt(BaseOrder[1], BaseOrder[2], 3);
    LessAt(BaseOrder[2], BaseOrder[3], 3);
    KeyOrder(properties, BaseOrder);
  }

  /** On Linux every entry of LinuxProperties is the snapshot's entry. */
  lemma LinuxPart(sysProps: map<string, string>, availableProcessors: int,
                  cpuInfo: Option<seq<string>>, memInfo: Option<seq<string>>)
    requires "os.name" in sysProps && sysProps["os.name"] == "Linux"
    ensures var e, linux := ExpectedProperties(sysProps, availableProcessors, cpuInfo, memInfo),
                            LinuxProperties(Parsed(cpuInfo), Parsed(memInfo));
      forall k :: k in linux ==> k in e && e[k] == linux[k]
  {
  }

  /** The four cpu entries, looked up in the snapshot's map. */
  lemma CpuEntries(sysProps: map<string, string>, availableProcessors: int,
                   cpuInfo: Option<seq<string>>, memInfo: Option<seq<string>>)
    requires "os.name" in sysProps && sysProps["os.name"] == "Linux"
    ensures var e, cpu := ExpectedProperties(sysProps, availableProcessors, cpuInfo, memInfo), Parsed(cpuInfo);
      && e["host.cpus"] == Text(IntToString(|Get(cpu, "processor")|))
      && e["host.cpu.cores"] == Describe(cpu, "cpu cores")
      && e["host.cpu.names"] == Describe(cpu, "model name")
      && e["host.cpu.cachesize"] == Describe(cpu, "cache size")
  {
    var cpu := Parsed(cpuInfo);
    var linux := LinuxProperties(cpu, Parsed(memInfo));
    assert linux["host.cpus"] == Text(IntToString(|Get(cpu, "processor")|));
    assert linux["host.cpu.cores"] == Describe(cpu, "cpu cores");
    assert linux["host.cpu.names"] == Describe(cpu, "model name");
    assert linux["host.cpu.cachesize"] == Describe(cpu, "cache size");
    LinuxPart(sysProps, availableProcessors, cpuInfo, memInfo);
  }

  /** The two memory entries, looked up in the snapshot's map. */
  lemma MemoryEntries(sysProps: map<string, string>, availableProcessors: int,
                      cpuInfo: Option<seq<string>>, memInfo: Option<seq<string>>)
    requires "os.name" in sysProps && sysProps["os.name"] == "Linux"
    ensures var e, mem := ExpectedProperties(sysProps, availableProcessors, cpuInfo, memInfo), Parsed(memInfo);
      && e["host.memory.physical"] == ListText(Get(mem, "MemTotal"))
      && e["host.memory.swap"] == ListText(Get(mem, "SwapTotal"))
  {
    var mem := Parsed(memInfo);
    var linux := LinuxProperties(Parsed(cpuInfo), mem);
    assert linux["host.memory.physical"] == ListText(Get(mem, "MemTotal"));
    assert linux["host.memory.swap"] == ListText(Get(mem, "SwapTotal"));
    LinuxPart(sysProps, availableProcessors, cpuInfo, memInfo);
  }

  /** The Linux keys in ascending `compareTo` order. */
  const LinuxOrder: seq<string> := [
    "host.availableProcessors", "host.cpu.cachesize", "host.cpu.cores", "host.cpu.names", "host.cpus",
    "host.memory.physical", "host.memory.swap", "os.arch", "os.name", "os.version"]

  lemma LinuxOrderAscendsHost()
    ensures forall i :: 0 < i < 5 ==> Less(LinuxOrder[i - 1], LinuxOrder[i])
  {
    forall i | 0 < i < 5 ensures Less(LinuxOrder[i - 1], LinuxOrder[i]) {
      var a, b := LinuxOrder[i - 1], LinuxOrder[i];
      if i == 1 { LessAt(a, b, 5); }
      else if i == 2 { LessAt(a, b, 10); }
      else if i == 3 { LessAt(a, b, 9); }
      else { LessAt(a, b, 8); }
    }
  }

  lemma LinuxOrderAscendsRest()
    ensures forall i :: 5 <= i < |LinuxOrder| ==> Less(LinuxOrder[i - 1], LinuxOrder[i])
  {
    forall i | 5 <= i < |LinuxOrder| ensures Less(LinuxOrder[i - 1], LinuxOrder[i]) {
      var a, b := LinuxOrder[i - 1], LinuxOrder[i];
      if i == 5 { LessAt(a, b, 5); }
      else if i == 6 { LessAt(a, b, 12); }
      else if i == 7 { LessAt(a, b, 0); }
      else if i == 8 { LessAt(a, b, 3); }
      else { LessAt(a, b, 3); }
    }
  }

  lemma LinuxOrderAscends()
    ensures forall i :: 0 < i < |LinuxOrder| ==> Less(LinuxOrder[i - 1], LinuxOrder[i])
  {
    LinuxOrderAscendsHost();
    LinuxOrderAscendsRest();
  }

  lemma LinuxOrderKeys()
    ensures (set k | k in LinuxOrder) == BaseKeys + LinuxKeys
  {
  }

  /** On Linux the snapshot iterates in this order. */
  lemma IterationOrderOnLinux(sysProps: map<string, string>, availableProcessors: int,
                              cpuInfo: Option<seq<string>>, memInfo: Option<seq<string>>,
                              properties: seq<(string, PropertyValue)>)
    requires "os.name" in sysProps && sysProps["os.name"] == "Linux"
    requires Sorted(properties)
    requires ToMap(properties) == ExpectedProperties(sysProps, availableProcessors, cpuInfo, memInfo)
    ensures Keys(properties) == LinuxOrder
  {
    LinuxOrderAscends();
    LinuxOrderKeys();
    LinuxAddsSixKeys(sysProps, availableProcessors, cpuInfo, memInfo);
    KeyOrder(properties, LinuxOrder);
  }

  /** host.cpus is the decimal rendering of the number of "processor" lines. */
  lemma CpuCountIsDecimal(sysProps: map<string, string>, availableProcessors: int,
                          cpuInfo: Option<seq<string>>, memInfo: Option<seq<string>>)
    requires "os.name" in sysProps && sysProps["os.name"] == "Linux"
    ensures var cpus := ExpectedProperties(sysProps, availableProcessors, cpuInfo, memInfo)["host.cpus"];
      && cpus.Text? && cpus.text != []
      && (forall i :: 0 <= i < |cpus.text| ==> '0' <= cpus.text[i] <= '9')
      && ParseInt(cpus.text) == |FileValues(cpuInfo, "processor")|
  {
    var n := |FileValues(cpuInfo, "processor")|;
    assert |Get(Parsed(cpuInfo), "processor")| == n;
    IntToStringRoundTrip(n);
    CpuEntries(sysProps, availableProcessors, cpuInfo, memInfo);
  }

  /** The parsed pseudo-file gives each key the values of its matching lines. */
  lemma ParsedValues(contents: Option<seq<string>>, key: string)
    ensures Get(Parsed(contents), key) == FileValues(contents, key)
  {
  }

  /** The memory values, traced back to the lines of /proc/meminfo: always the list rendering. */
  lemma MemoryValuesFromFile(sysProps: map<string, string>, availableProcessors: int,
                             cpuInfo: Option<seq<string>>, memInfo: Option<seq<string>>)
    requires "os.name" in sysProps && sysProps["os.name"] == "Linux"
    ensures var e := ExpectedProperties(sysProps, availableProcessors, cpuInfo, memInfo);
      && e["host.memory.physical"] == ListText(FileValues(memInfo, "MemTotal"))
      && e["host.memory.swap"] == ListText(FileValues(memInfo, "SwapTotal"))
  {
    ParsedValues(memInfo, "MemTotal");
    ParsedValues(memInfo, "SwapTotal");
    MemoryEntries(sysProps, availableProcessors, cpuInfo, memInfo);
  }

  /** The cpu descriptions, traced back to the lines of /proc/cpuinfo: verbatim exactly when single. */
  lemma CpuValuesFromFile(sysProps: map<string, string>, availableProcessors: int,
                          cpuInfo: Option<seq<string>>, memInfo: Option<seq<string>>)
    requires "os.name" in sysProps && sysProps["os.name"] == "Linux"
    ensures var e := ExpectedProperties(sysProps, availableProcessors, cpuInfo, memInfo);
      && (e["host.cpu.names"].Text? <==> |FileValues(cpuInfo, "model name")| == 1)
      && (e["host.cpu.names"].Text? ==> e["host.cpu.names"].text == FileValues(cpuInfo, "model name")[0])
      && (!e["host.cpu.names"].Text? ==>
            e["host.cpu.names"].MultisetText? && Tallies(e["host.cpu.names"].entries, FileValues(cpuInfo, "model name")))
      && (e["host.cpu.cores"].Text? <==> |FileValues(cpuInfo, "cpu cores")| == 1)
      && (e["host.cpu.cores"].Text? ==> e["host.cpu.cores"].text == FileValues(cpuInfo, "cpu cores")[0])
      && (!e["host.cpu.cores"].Text? ==>
            e["host.cpu.cores"].MultisetText? && Tallies(e["host.cpu.cores"].entries, FileValues(cpuInfo, "cpu cores")))
      && (e["host.cpu.cachesize"].Text? <==> |FileValues(cpuInfo, "cache size")| == 1)
      && (e["host.cpu.cachesize"].Text? ==> e["host.cpu.cachesize"].text == FileValues(cpuInfo, "cache size")[0])
      && (!e["host.cpu.cachesize"].Text? ==>
            e["host.cpu.cachesize"].MultisetText? && Tallies(e["host.cpu.cachesize"].entries, FileValues(cpuInfo, "cache size")))
  {
    ParsedValues(cpuInfo, "model name");
    ParsedValues(cpuInfo, "cpu cores");
    ParsedValues(cpuInfo, "cache size");
    CpuEntries(sysProps, availableProcessors, cpuInfo, memInfo);
  }

  /** When neither pseudo-file can be read the Linux keys are still present, with empty renderings. */
  lemma UnreadableFiles(sysProps: map<string, string>, availableProcessors: int)
    requires "os.name" in sysProps && sysProps["os.name"] == "Linux"
    ensures var e := ExpectedProperties(sysProps, availableProcessors, None, None);
      && e["host.cpus"] == Text("0")
      && e["host.cpu.cores"] == MultisetText([])
      && e["host.cpu.names"] == MultisetText([])
      && e["host.cpu.cachesize"] == MultisetText([])
      && e["host.memory.physical"] == ListText([])
      && e["host.memory.swap"] == ListText([])
  {
    assert Get(map[], "cpu cores") == [];
    assert Get(map[], "model name") == [];
    assert Get(map[], "cache size") == [];
    CpuEntries(sysProps, availableProcessors, None, None);
    MemoryEntries(sysProps, availableProcessors, None, None);
  }

  /** The /proc/cpuinfo line that opens the block of processor `n`. */
  function ProcessorLine(n: nat): string
  {
    "processor\t: " + NatToString(n)
  }

  /** The "processor" lines of a machine with `n` processors, numbered from 0. */
  function ProcessorLines(n: nat): seq<string>
  {
    if n == 0 then [] else ProcessorLines(n - 1) + [ProcessorLine(n - 1)]
  }

  /** A "processor" line records the processor's number under the key "processor". */
  lemma ProcessorLineSplits(n: nat)
    ensures LineValues(ProcessorLine(n), "processor") == [NatToString(n)]
  {
    var line, digits := ProcessorLine(n), NatToString(n);
    assert line == "processor" + "\t" + [':'] + " " + digits;
    ColonSplitOfParts(line, "processor", "\t", " ", digits);
    ColonSplitIsUnique(line, "processor", digits);
  }

  /** `n` "processor" lines record `n` values. */
  lemma {:induction false} ProcessorLinesCount(n: nat)
    ensures |ValuesFor(ProcessorLines(n), "processor")| == n
  {
    if n > 0 {
      ProcessorLinesCount(n - 1);
      ValuesForSnoc(ProcessorLines(n - 1), ProcessorLine(n - 1));
      ProcessorLineSplits(n - 1);
    }
  }

  /** A cpuinfo listing `n` processors gives host.cpus the decimal rendering of `n`. */
  lemma ProcessorsCounted(sysProps: map<string, string>, availableProcessors: int, n: nat,
                          memInfo: Option<seq<string>>)
    requires "os.name" in sysProps && sysProps["os.name"] == "Linux"
    ensures ExpectedProperties(sysProps, availableProcessors, Some(ProcessorLines(n)), memInfo)["host.cpus"]
         == Text(IntToString(n))
  {
    ProcessorLinesCount(n);
    ParsedValues(Some(ProcessorLines(n)), "processor");
    CpuEntries(sysProps, availableProcessors, Some(ProcessorLines(n)), memInfo);
  }

  /** Processors 0 to 3 give host.cpus "4". */
  lemma FourProcessors(sysProps: map<string, string>, availableProcessors: int, memInfo: Option<seq<string>>)
    requires "os.name" in sysProps && sysProps["os.name"] == "Linux"
    ensures ExpectedProperties(sysProps, availableProcessors, Some(ProcessorLines(4)), memInfo)["host.cpus"] == Text("4")
  {
    assert IntToString(4) == "4" by {
      assert NatToString(4) == [DigitChar(4)];
    }
    ProcessorsCounted(sysProps, availableProcessors, 4, memInfo);
  }
}
