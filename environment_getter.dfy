/**
 * EnvironmentGetter: builds the sorted property map that describes the host.
 * The process-wide inputs (system properties, processor count, the text of
 * /proc/cpuinfo and /proc/meminfo, the local host name) are parameters.
 */
module EnvironmentGetter {
  import opened Wrappers
  import opened JavaStrings
  import opened TreeMaps
  import opened Multisets
  import opened Multimaps
  import opened PropertiesFiles

  /**
   * A value of the property map: Java's null, a plain string, or the
   * `toString` of a multiset (given by its entry list) or of a list.
   */
  datatype PropertyValue =
    | NullValue
    | Text(text: string)
    | MultisetText(entries: seq<Entry>)
    | ListText(items: seq<string>)

  /** The unchecked exceptions that abort a snapshot. */
  datatype Fatal =
    | NullJavaVersion  // `version.length()` with java.version missing
    | NullOsName       // `osName.equals("Linux")` with os.name missing

  /** The `Environment` record: the property map in iteration order, and the host name if one resolved. */
  datatype Environment = Environment(properties: seq<(string, PropertyValue)>, localName: Option<string>)

  /** `sysProps.get(name)`. */
  function SystemProperty(sysProps: map<string, string>, name: string): Option<string>
  {
    if name in sysProps then Some(sysProps[name]) else None
  }

  /** What `put` stores for a string that may be null. */
  function Stored(s: Option<string>): PropertyValue
  {
    if s.Some? then Text(s.value) else NullValue
  }

  /**
   * `describe(cpuInfo, s)`: the single value itself when the key occurs
   * exactly once, otherwise the multiset of its values.
   */
  function Describe(info: Multimap, key: string): (r: PropertyValue)
    ensures var values := Get(info, key);
      && (r.Text? <==> |values| == 1)
      && (r.Text? ==> r.text == values[0])
      && (!r.Text? ==> r.MultisetText? && Tallies(r.entries, values) && TotalCount(r.entries) == |values|)
      && (values == [] ==> r == MultisetText([]))
  {
    var strings := Get(info, key);
    if |strings| == 1 then Text(strings[0])
    else
      MultisetEntriesTally(strings);
      MultisetEntriesTotal(strings);
      MultisetText(MultisetEntries(strings))
  }

  /**
   * The version choice: java.runtime.version replaces java.version only when
   * it is present and strictly longer; dereferencing a missing java.version
   * is fatal, which happens only when java.runtime.version is present.
   */
  method ChooseVersion(sysProps: map<string, string>) returns (r: Result<Option<string>, Fatal>)
    ensures var java, runtime := SystemProperty(sysProps, "java.version"), SystemProperty(sysProps, "java.runtime.version");
      && (r.Failure? <==> runtime.Some? && java.None?)
      && (r.Failure? ==> r.error == NullJavaVersion)
      && (r.Success? && runtime.Some? && |runtime.value| > |java.value| ==> r.value == runtime)
      && (r.Success? && (runtime.None? || |runtime.value| <= |java.value|) ==> r.value == java)
  {
    var version := SystemProperty(sysProps, "java.version");
    var alternateVersion := SystemProperty(sysProps, "java.runtime.version");
    if alternateVersion.Some? {
      if version.None? {
        return Failure(NullJavaVersion);
      }
      if |alternateVersion.value| > |version.value| {
        version := alternateVersion;
      }
    }
    return Success(version);
  }

  /** The pseudo-file's multimap, or the empty one when the read failed. */
  function Parsed(contents: Option<seq<string>>): Multimap
  {
    if contents.Some? then ParseLines(contents.value) else map[]
  }

  const BaseKeys: set<string> := {"host.availableProcessors", "os.name", "os.version", "os.arch"}

  const LinuxKeys: set<string> :=
    {"host.cpus", "host.cpu.cores", "host.cpu.names", "host.cpu.cachesize", "host.memory.physical", "host.memory.swap"}

  /** The four entries every snapshot holds. */
  function BaseProperties(sysProps: map<string, string>, availableProcessors: int): map<string, PropertyValue>
    requires "os.name" in sysProps
  {
    map[
      "host.availableProcessors" := Text(IntToString(availableProcessors)),
      "os.name" := Text(sysProps["os.name"]),
      "os.version" := Stored(SystemProperty(sysProps, "os.version")),
      "os.arch" := Stored(SystemProperty(sysProps, "os.arch"))
    ]
  }

  /** The six entries added on Linux, from the cpuinfo and meminfo multimaps. */
  function LinuxProperties(cpuInfo: Multimap, memInfo: Multimap): map<string, PropertyValue>
  {
    map[
      "host.cpus" := Text(IntToString(|Get(cpuInfo, "processor")|)),
      "host.cpu.cores" := Describe(cpuInfo, "cpu cores"),
      "host.cpu.names" := Describe(cpuInfo, "model name"),
      "host.cpu.cachesize" := Describe(cpuInfo, "cache size"),
      "host.memory.physical" := ListText(Get(memInfo, "MemTotal")),
      "host.memory.swap" := ListText(Get(memInfo, "SwapTotal"))
    ]
  }

  /** The property map of a snapshot that did not abort. */
  function ExpectedProperties(sysProps: map<string, string>, availableProcessors: int,
                              cpuInfo: Option<seq<string>>, memInfo: Option<seq<string>>): map<string, PropertyValue>
    requires "os.name" in sysProps
  {
    var base := BaseProperties(sysProps, availableProcessors);
    if sysProps["os.name"] == "Linux" then base + LinuxProperties(Parsed(cpuInfo), Parsed(memInfo)) else base
  }

  /** Why a snapshot aborts, checked in the order the code dereferences. */
  function SnapshotFailure(sysProps: map<string, string>): Option<Fatal>
  {
    if "java.runtime.version" in sysProps && "java.version" !in sysProps then Some(NullJavaVersion)
    else if "os.name" !in sysProps then Some(NullOsName)
    else None
  }

  /** `getLinuxEnvironment`: reads both pseudo-files and puts the six Linux entries. */
  method GetLinuxEnvironment(propertyMap: TreeMap<PropertyValue>, cpuInfoContents: Option<seq<string>>,
                             memInfoContents: Option<seq<string>>)
    requires propertyMap.Valid()
    modifies propertyMap
    ensures propertyMap.Valid()
    ensures propertyMap.Contents() ==
      old(propertyMap.Contents()) + LinuxProperties(Parsed(cpuInfoContents), Parsed(memInfoContents))
  {
    ghost var before := propertyMap.Contents();
    var cpuInfo := PropertiesFromLinuxFile(cpuInfoContents);
    var cpus := Text(IntToString(|Get(cpuInfo, "processor")|));
    var cores := Describe(cpuInfo, "cpu cores");
    var names := Describe(cpuInfo, "model name");
    var cacheSize := Describe(cpuInfo, "cache size");
    propertyMap.Put("host.cpus", cpus);
    propertyMap.Put("host.cpu.cores", cores);
    propertyMap.Put("host.cpu.names", names);
    propertyMap.Put("host.cpu.cachesize", cacheSize);

    var memInfo := PropertiesFromLinuxFile(memInfoContents);
    var physical := ListText(Get(memInfo, "MemTotal"));
    var swap := ListText(Get(memInfo, "SwapTotal"));
    propertyMap.Put("host.memory.physical", physical);
    propertyMap.Put("host.memory.swap", swap);
    UpdatesAsUnion(before, "host.cpus", cpus, "host.cpu.cores", cores, "host.cpu.names", names,
                   "host.cpu.cachesize", cacheSize, "host.memory.physical", physical, "host.memory.swap", swap);
  }

  /** Six successive puts add the map of those six entries. */
  lemma UpdatesAsUnion<K, V>(m: map<K, V>, k1: K, v1: V, k2: K, v2: V, k3: K, v3: V,
                             k4: K, v4: V, k5: K, v5: V, k6: K, v6: V)
    ensures m[k1 := v1][k2 := v2][k3 := v3][k4 := v4][k5 := v5][k6 := v6]
         == m + map[k1 := v1, k2 := v2, k3 := v3, k4 := v4, k5 := v5, k6 := v6]
  {
  }

  /**
   * `getEnvironmentSnapshot`: the base entries, the Linux entries when
   * os.name is exactly "Linux", and the host name when it resolved.
   */
  method GetEnvironmentSnapshot(sysProps: map<string, string>, availableProcessors: int,
                                cpuInfoContents: Option<seq<string>>, memInfoContents: Option<seq<string>>,
                                localHostName: Option<string>) returns (r: Result<Environment, Fatal>)
    ensures r.Failure? <==> SnapshotFailure(sysProps).Some?
    ensures r.Failure? ==> r.error == SnapshotFailure(sysProps).value
    ensures r.Success? ==>
      && "os.name" in sysProps
      && Sorted(r.value.properties)
      && ToMap(r.value.properties) == ExpectedProperties(sysProps, availableProcessors, cpuInfoContents, memInfoContents)
      && r.value.localName == localHostName
  {
    var propertyMap := new TreeMap<PropertyValue>();
    var version := ChooseVersion(sysProps);
    if version.Failure? {
      return Failure(version.error);
    }
    propertyMap.Put("host.availableProcessors", Text(IntToString(availableProcessors)));

    var osName := SystemProperty(sysProps, "os.name");
    propertyMap.Put("os.name", Stored(osName));
    propertyMap.Put("os.version", Stored(SystemProperty(sysProps, "os.version")));
    propertyMap.Put("os.arch", Stored(SystemProperty(sysProps, "os.arch")));

    if osName.None? {
      return Failure(NullOsName);
    }
    if osName.value == "Linux" {
      GetLinuxEnvironment(propertyMap, cpuInfoContents, memInfoContents);
    }
    return Success(Environment(propertyMap.entries, localHostName));
  }
}
