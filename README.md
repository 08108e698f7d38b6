# Caliper environment snapshot, in Dafny

A model of caliper's `EnvironmentGetter`, the runner component that describes the
host a benchmark ran on. It has four parts:

- **The properties-file parser** (`propertiesFileToMultimap`). It splits each line of
  `/proc/cpuinfo` or `/proc/meminfo` at its first colon, together with the
  whitespace around it. Every resulting (key, value) pair goes into a multimap that
  keeps each occurrence, in line order.
- **`describe`**. It reduces the values of one key to a single property value: the
  value itself when there is exactly one, otherwise the multiset of the values.
- **The version choice.** `java.runtime.version` replaces `java.version` when it is
  strictly longer.
- **The assembly of the sorted property map** (`getEnvironmentSnapshot` and
  `getLinuxEnvironment`). Four base keys are always written. Six Linux keys are
  added when `os.name` is exactly `"Linux"`.

Modules, one file each:

| file | module | what it holds |
|---|---|---|
| `wrappers.dfy` | `Wrappers` | `Option` (Java's null) and `Result` (an unchecked exception) |
| `java_strings.dfy` | `JavaStrings` | the regex class `\s`, `String.compareTo` as `Less`, `Integer.toString` with its decimal read-back |
| `tree_maps.dfy` | `TreeMaps` | `TreeMap<String, V>` as a class over its sorted entry sequence |
| `multimaps.dfy` | `Multimaps` | the `ImmutableMultimap` the parser builds, as `map<string, seq<string>>` |
| `multisets.dfy` | `Multisets` | `ImmutableMultiset.copyOf`, as its entry list in first-occurrence order |
| `properties_files.dfy` | `PropertiesFiles` | the colon split, the parser loop, and reading a pseudo-file that may fail |
| `environment_getter.dfy` | `EnvironmentGetter` | `describe`, the version choice, `getLinuxEnvironment`, `getEnvironmentSnapshot`, and the functions that specify them |
| `environment_facts.dfy` | `EnvironmentFacts` | what a snapshot holds: key sets, iteration order, and each Linux value traced back to the file lines |

The process-wide inputs are parameters:
- the system properties, as a `map<string, string>` (a missing key is Java's null);
- `availableProcessors`, as an `int`;
- the text of each pseudo-file, as `Option<seq<string>>` (`None` when the read threw);
- the resolved host name, as an `Option<string>`.

A null dereference that the code can raise becomes a `Failure` carrying a
`Fatal` value.

## Model

| member | source | states |
|---|---|---|
| JavaStrings.LessAt | caliper/src/main/java/com/google/caliper/runner/EnvironmentGetter.java:42 | the TreeMap's key order is `compareTo`: the first differing character decides, and a proper prefix comes first |
| JavaStrings.LessTransitive | caliper/src/main/java/com/google/caliper/runner/EnvironmentGetter.java:42 | the key order is transitive |
| JavaStrings.LessTotal | caliper/src/main/java/com/google/caliper/runner/EnvironmentGetter.java:42 | any two distinct keys are ordered one way or the other |
| JavaStrings.LessAsymmetric | caliper/src/main/java/com/google/caliper/runner/EnvironmentGetter.java:42 | no two keys are each below the other |
| JavaStrings.NatToString | caliper/src/main/java/com/google/caliper/runner/EnvironmentGetter.java:77 | `Integer.toString` of a count is a non-empty run of decimal digits without a leading zero |
| JavaStrings.IntToStringRoundTrip | caliper/src/main/java/com/google/caliper/runner/EnvironmentGetter.java:53-54 | `Integer.toString(i)` is a well-formed decimal numeral that reads back as `i`, negative numbers included |
| TreeMaps.Insert | caliper/src/main/java/com/google/caliper/runner/EnvironmentGetter.java:57 | `put` on the in-order entry sequence keeps it sorted, maps the key to the new value, and leaves every other key as it was |
| TreeMaps.SortedKeysUnique | caliper/src/main/java/com/google/caliper/runner/EnvironmentGetter.java:42 | the iteration order of a TreeMap depends only on its key set: two sorted entry sequences with the same keys list them in the same order |
| TreeMaps.ToMapKeys | caliper/src/main/java/com/google/caliper/runner/EnvironmentGetter.java:42 | the keys of the map are exactly the keys listed in the entry sequence |
| TreeMaps.TreeMap.constructor | caliper/src/main/java/com/google/caliper/runner/EnvironmentGetter.java:42 | `Maps.newTreeMap()` is empty and sorted |
| TreeMaps.TreeMap.Put | caliper/src/main/java/com/google/caliper/runner/EnvironmentGetter.java:57 | after `put(key, value)` the map is sorted and equals the old map with `key` mapped to `value` |
| Multimaps.Get | caliper/src/main/java/com/google/caliper/runner/EnvironmentGetter.java:90 | `get` of a key never recorded is empty; a recorded key has at least one value |
| Multimaps.Put | caliper/src/main/java/com/google/caliper/runner/EnvironmentGetter.java:123 | `Builder.put` appends the value to the key's values and changes no other key |
| Multisets.FirstIndex | caliper/src/main/java/com/google/caliper/runner/EnvironmentGetter.java:94 | the position of the first occurrence of a value, or the length when it does not occur |
| Multisets.MultisetEntriesTally | caliper/src/main/java/com/google/caliper/runner/EnvironmentGetter.java:94 | `ImmutableMultiset.copyOf` lists each distinct value once, with its number of occurrences, in order of first occurrence, and covers every value |
| Multisets.MultisetEntriesTotal | caliper/src/main/java/com/google/caliper/runner/EnvironmentGetter.java:94 | the counts of the multiset add up to the number of values copied |
| PropertiesFiles.SplitAtFirstColon | caliper/src/main/java/com/google/caliper/runner/EnvironmentGetter.java:121-122 | `split("\\s*\\:\\s*", 2)` gives one part, the whole line, exactly when the line has no colon, and otherwise two parts |
| PropertiesFiles.SplitIsColonSplit | caliper/src/main/java/com/google/caliper/runner/EnvironmentGetter.java:121 | the two parts are the key before the first colon without its trailing whitespace, then the value after it without its leading whitespace, with only whitespace and that one colon between them |
| PropertiesFiles.ColonSplitIsUnique | caliper/src/main/java/com/google/caliper/runner/EnvironmentGetter.java:121 | conversely, any such key and value are exactly the two parts the split returns |
| PropertiesFiles.SplitKeyColonValue | caliper/src/main/java/com/google/caliper/runner/EnvironmentGetter.java:121-124 | `key:value` splits back into `key` and `value` even when either is empty and whatever colons the value holds |
| PropertiesFiles.ValuesForConcat | caliper/src/main/java/com/google/caliper/runner/EnvironmentGetter.java:119-125 | the values recorded from two runs of lines are those of the first run followed by those of the second |
| PropertiesFiles.ParseLines | caliper/src/main/java/com/google/caliper/runner/EnvironmentGetter.java:115-128 | the multimap gives each key exactly the values of the lines with that key, in line order, duplicates kept |
| PropertiesFiles.LineWithoutColonIsIgnored | caliper/src/main/java/com/google/caliper/runner/EnvironmentGetter.java:121-122 | a line without a colon changes no key's values |
| PropertiesFiles.LineWithColonAddsOnePair | caliper/src/main/java/com/google/caliper/runner/EnvironmentGetter.java:121-124 | a line with a colon always splits in two and appends exactly one value to exactly one key |
| PropertiesFiles.PropertiesFileToMultimap | caliper/src/main/java/com/google/caliper/runner/EnvironmentGetter.java:113-129 | the `readLine` loop builds the multimap of ParseLines, so each key holds the values of its lines in order |
| PropertiesFiles.PropertiesFromLinuxFile | caliper/src/main/java/com/google/caliper/runner/EnvironmentGetter.java:97-106 | a read that threw gives the empty multimap; a read that succeeded gives the parsed multimap |
| EnvironmentGetter.Describe | caliper/src/main/java/com/google/caliper/runner/EnvironmentGetter.java:89-95 | exactly one value is returned verbatim; zero or several values give the multiset of the values, with counts summing to their number; a missing key gives the empty multiset |
| EnvironmentGetter.ChooseVersion | caliper/src/main/java/com/google/caliper/runner/EnvironmentGetter.java:48-52 | the choice is `java.runtime.version` exactly when it is present and strictly longer, otherwise `java.version`, so a tie keeps `java.version`; a missing `java.version` is fatal exactly when `java.runtime.version` is present |
| EnvironmentGetter.GetLinuxEnvironment | caliper/src/main/java/com/google/caliper/runner/EnvironmentGetter.java:74-87 | the map afterwards is the old map plus the six Linux entries computed from the two pseudo-files |
| EnvironmentGetter.GetEnvironmentSnapshot | caliper/src/main/java/com/google/caliper/runner/EnvironmentGetter.java:41-72 | the snapshot fails exactly on a missing `java.version` beside a present `java.runtime.version`, or else a missing `os.name`; otherwise its properties are sorted, equal the base entries plus the Linux entries on Linux, and its name is the resolved host name |
| EnvironmentFacts.BaseKeysOffLinux | caliper/src/main/java/com/google/caliper/runner/EnvironmentGetter.java:53-63 | off Linux the map holds exactly the four base keys; the chosen version is not among them |
| EnvironmentFacts.LinuxAddsSixKeys | caliper/src/main/java/com/google/caliper/runner/EnvironmentGetter.java:74-87 | on Linux exactly six keys, distinct from the base keys, are added, and the four base entries keep their values |
| EnvironmentFacts.IterationOrderOffLinux | caliper/src/main/java/com/google/caliper/runner/EnvironmentGetter.java:53-59 | off Linux the snapshot iterates `host.availableProcessors`, `os.arch`, `os.name`, `os.version` |
| EnvironmentFacts.IterationOrderOnLinux | caliper/src/main/java/com/google/caliper/runner/EnvironmentGetter.java:74-87 | on Linux the snapshot iterates its ten keys in `compareTo` order, `host.cpu.*` before `host.cpus` |
| EnvironmentFacts.CpuCountIsDecimal | caliper/src/main/java/com/google/caliper/runner/EnvironmentGetter.java:77 | `host.cpus` is a decimal numeral whose value is the number of `processor` lines in `/proc/cpuinfo` |
| EnvironmentFacts.ProcessorLinesCount | caliper/src/main/java/com/google/caliper/runner/EnvironmentGetter.java:121-124 | `n` lines `processor\t: 0` to `processor\t: n-1` record `n` values under `processor` |
| EnvironmentFacts.ProcessorsCounted | caliper/src/main/java/com/google/caliper/runner/EnvironmentGetter.java:77 | a cpuinfo listing processors `0` to `n-1` gives `host.cpus` the decimal rendering of `n` |
| EnvironmentFacts.FourProcessors | caliper/src/main/java/com/google/caliper/runner/EnvironmentGetter.java:77 | processors `0` to `3` give `host.cpus` = `"4"` |
| EnvironmentFacts.CpuValuesFromFile | caliper/src/main/java/com/google/caliper/runner/EnvironmentGetter.java:78-81 | each cpu description is verbatim exactly when its key has one line in `/proc/cpuinfo`, and otherwise the multiset of those lines' values |
| EnvironmentFacts.MemoryValuesFromFile | caliper/src/main/java/com/google/caliper/runner/EnvironmentGetter.java:83-86 | the memory entries are always the list rendering of the `MemTotal` and `SwapTotal` values, even for a single value |
| EnvironmentFacts.UnreadableFiles | caliper/src/main/java/com/google/caliper/runner/EnvironmentGetter.java:103-105 | when neither pseudo-file can be read, the six Linux keys are still present: `host.cpus` is `"0"`, the descriptions the empty multiset, the memory entries the empty list |

## Left out

- Running `/bin/cat`, the `InputStreamReader` charset and closing the stream are not
  modelled. Each pseudo-file is its sequence of lines, or `None` when the read threw.
  An `IOException` part-way through is also `None`, because the exception leaves the
  parser and the caller returns the empty multimap.
- `System.getProperties()` and `Runtime.availableProcessors()` are global
  introspection. They are taken as parameters. Properties whose value is not a
  string are not modelled.
- `InetAddress.getLocalHost().getHostName()` is network resolution. It is an optional
  parameter copied into the snapshot; `UnknownHostException` is `None`.
- The `toString` formats of Guava's `ImmutableMultiset` and `ImmutableList` are
  library code. `MultisetText` and `ListText` carry the entry list and the value
  list that those strings render. So the model does not capture that a single
  value could print the same as a multiset rendering.
- Less: `String.compareTo` compares UTF-16 code units, and the model compares Dafny
  characters. The two orders differ only for characters outside the Basic
  Multilingual Plane; every key the map holds is ASCII.
- The Java regex engine is not modelled. The split is stated directly as "first
  colon plus the whitespace runs around it", with whitespace the `\s` class
  (tab, newline, vertical tab, form feed, carriage return, space).
- The `Environment` class is not part of this model. It is a record of the sorted
  entry sequence and the optional host name.
- TreeMaps.TreeMap: the red-black tree is abstracted to its in-order entry sequence.
  Balancing and the cost of operations are not modelled.
- ChooseVersion: lengths are counted in characters, while `String.length()` counts
  UTF-16 code units, so for versions outside the Basic Multilingual Plane the
  choice can differ. This cannot be observed in a snapshot: the chosen version is
  discarded.
- Six behaviours of the code that one might not expect, which the model follows:
  - A line whose key or value is empty is still recorded; the code only checks
    that the split gave two parts.
  - A read that fails part-way gives the empty multimap, because the exception
    discards the pairs parsed so far.
  - On Linux the six `host.cpu*` and `host.memory.*` keys are written even when a
    pseudo-file cannot be read, holding `"0"` and empty renderings.
  - The chosen version string is computed but never stored in the map.
  - A missing `java.version` is fatal only when `java.runtime.version` is present.
    A missing `os.name` is fatal, but only after the base entries were written.
    A missing `os.version` or `os.arch` is stored as null.
  - A key missing from a pseudo-file is described by the empty multiset.
