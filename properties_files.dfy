/**
 * Parsing of `/proc`-style "key: value" text into a multimap, and the
 * tolerant read around it (EnvironmentGetter.propertiesFileToMultimap and
 * propertiesFromLinuxFile). A line is split with the regular expression
 * `\s*\:\s*` and a limit of two; the split is modelled directly as a scan
 * for the first colon and the greedy whitespace runs on either side of it.
 */
module PropertiesFiles {
  import opened Wrappers
  import opened JavaStrings
  import opened Multimaps

  /** The first index at or after `from` that holds a colon, or `|s|` when none does. */
  function ColonFrom(s: string, from: nat): (i: nat)
    requires from <= |s|
    ensures from <= i <= |s|
    ensures forall k :: from <= k < i ==> s[k] != ':'
    ensures i < |s| ==> s[i] == ':'
    decreases |s| - from
  {
    if from == |s| || s[from] == ':' then from else ColonFrom(s, from + 1)
  }

  /** Where the whitespace run that ends at `end` begins. */
  function SpaceRunStart(s: string, end: nat): (i: nat)
    requires end <= |s|
    ensures i <= end
    ensures forall k :: i <= k < end ==> IsSpace(s[k])
    ensures i == 0 || !IsSpace(s[i - 1])
  {
    if end > 0 && IsSpace(s[end - 1]) then SpaceRunStart(s, end - 1) else end
  }

  /** Where the whitespace run that starts at `start` ends. */
  function SpaceRunEnd(s: string, start: nat): (i: nat)
    requires start <= |s|
    ensures start <= i <= |s|
    ensures forall k :: start <= k < i ==> IsSpace(s[k])
    ensures i == |s| || !IsSpace(s[i])
    decreases |s| - start
  {
    if start < |s| && IsSpace(s[start]) then SpaceRunEnd(s, start + 1) else start
  }

  /** A text matched by `\s*\:\s*`: exactly one colon, everything else whitespace. */
  predicate IsSeparator(sep: string)
  {
    multiset(sep)[':'] == 1 && forall i :: 0 <= i < |sep| ==> sep[i] == ':' || IsSpace(sep[i])
  }

  /**
   * `line` is `key`, then the FIRST match of `\s*\:\s*` taken greedily, then
   * `value`: the key holds no colon and does not end in whitespace, the value
   * does not start with whitespace (it may hold further colons).
   */
  predicate IsColonSplit(line: string, key: string, value: string)
  {
    && |key| + |value| <= |line|
    && line[..|key|] == key
    && line[|line| - |value|..] == value
    && IsSeparator(line[|key|..|line| - |value|])
    && ':' !in key
    && (key == [] || !IsSpace(key[|key| - 1]))
    && (value == [] || !IsSpace(value[0]))
  }

  /**
   * `line.split("\\s*\\:\\s*", 2)`: the whole line when there is no colon,
   * otherwise exactly two parts around the first separator, either of which
   * may be empty (SplitIsColonSplit and ColonSplitIsUnique say which two).
   */
  function SplitAtFirstColon(line: string): (parts: seq<string>)
    ensures |parts| == 1 || |parts| == 2
    ensures |parts| == 1 <==> ':' !in line
    ensures |parts| == 1 ==> parts[0] == line
  {
    var c := ColonFrom(line, 0);
    if c == |line| then [line]
    else [line[..SpaceRunStart(line, c)], line[SpaceRunEnd(line, c + 1)..]]
  }

  lemma NoColonInSpace(s: string)
    requires AllSpace(s)
    ensures ':' !in s && multiset(s)[':'] == 0
  {
    forall i | 0 <= i < |s| ensures s[i] != ':' {
      assert IsSpace(s[i]);
    }
  }

  lemma SpaceAroundColonIsSeparator(before: string, after: string)
    requires AllSpace(before) && AllSpace(after)
    ensures IsSeparator(before + [':'] + after)
  {
    NoColonInSpace(before);
    NoColonInSpace(after);
    assert multiset(before + [':'] + after) == multiset(before) + multiset{':'} + multiset(after);
  }

  lemma ColonSplitOfParts(line: string, key: string, before: string, after: string, value: string)
    requires line == key + before + [':'] + after + value
    requires AllSpace(before) && AllSpace(after) && ':' !in key
    requires key == [] || !IsSpace(key[|key| - 1])
    requires value == [] || !IsSpace(value[0])
    ensures IsColonSplit(line, key, value)
  {
    assert line[..|key|] == key;
    assert line[|line| - |value|..] == value;
    assert line[|key|..|line| - |value|] == before + [':'] + after;
    SpaceAroundColonIsSeparator(before, after);
  }

  lemma SliceAround(s: string, i: nat, c: nat, j: nat)
    requires i <= c < j <= |s|
    ensures s == s[..i] + s[i..c] + [s[c]] + s[c + 1..j] + s[j..]
  {
  }

  /** The two parts of a split line are a colon split of it. */
  lemma SplitIsColonSplit(line: string)
    requires ':' in line
    ensures var parts := SplitAtFirstColon(line); IsColonSplit(line, parts[0], parts[1])
  {
    var c := ColonFrom(line, 0);
    var ks, ve := SpaceRunStart(line, c), SpaceRunEnd(line, c + 1);
    var key, before, after, value := line[..ks], line[ks..c], line[c + 1..ve], line[ve..];
    SliceAround(line, ks, c, ve);
    forall k | 0 <= k < |key| ensures key[k] == line[k] && key[k] != ':' { }
    forall k | 0 <= k < |before| ensures IsSpace(before[k]) { assert before[k] == line[ks + k]; }
    forall k | 0 <= k < |after| ensures IsSpace(after[k]) { assert after[k] == line[c + 1 + k]; }
    ColonSplitOfParts(line, key, before, after, value);
  }

  /** A separator is a whitespace run, the colon, and another whitespace run. */
  lemma SeparatorParts(sep: string) returns (before: string, after: string)
    requires IsSeparator(sep)
    ensures sep == before + [':'] + after && AllSpace(before) && AllSpace(after)
  {
    assert ':' in multiset(sep);
    var j := ColonFrom(sep, 0);
    before, after := sep[..j], sep[j + 1..];
    assert sep == before + [':'] + after;
    assert multiset(sep) == multiset(before) + multiset{':'} + multiset(after);
    forall i | 0 <= i < |before| ensures IsSpace(before[i]) {
      assert before[i] == sep[i] && sep[i] != ':';
    }
    assert ':' !in multiset(after);
    forall i | 0 <= i < |after| ensures IsSpace(after[i]) {
      assert after[i] == sep[j + 1 + i] && after[i] in multiset(after);
    }
  }

  lemma ColonFromAt(s: string, c: nat)
    requires c < |s| && s[c] == ':' && forall k :: 0 <= k < c ==> s[k] != ':'
    ensures ColonFrom(s, 0) == c
  {
  }

  lemma SpaceRunStartAt(s: string, end: nat, i: nat)
    requires i <= end <= |s|
    requires forall k :: i <= k < end ==> IsSpace(s[k])
    requires i == 0 || !IsSpace(s[i - 1])
    ensures SpaceRunStart(s, end) == i
  {
  }

  lemma SpaceRunEndAt(s: string, start: nat, i: nat)
    requires start <= i <= |s|
    requires forall k :: start <= k < i ==> IsSpace(s[k])
    requires i == |s| || !IsSpace(s[i])
    ensures SpaceRunEnd(s, start) == i
  {
  }

  /** A colon split lays the line out as key, whitespace, colon, whitespace, value. */
  lemma ColonSplitLayout(line: string, key: string, value: string) returns (before: string, after: string)
    requires IsColonSplit(line, key, value)
    ensures line == key + before + [':'] + after + value && AllSpace(before) && AllSpace(after)
  {
    var ve := |line| - |value|;
    var sep := line[|key|..ve];
    before, after := SeparatorParts(sep);
    ThreeSlices(line, |key|, ve);
    Regroup(key, before, [':'], after, value);
  }

  lemma ThreeSlices(s: string, i: nat, j: nat)
    requires i <= j <= |s|
    ensures s == s[..i] + s[i..j] + s[j..]
  {
  }

  lemma Regroup(a: string, b: string, c: string, d: string, e: string)
    ensures a + (b + c + d) + e == a + b + c + d + e
  {
  }

  /** Where the scanning functions stop on a colon split: the key's end, the colon, the value's start. */
  lemma ColonSplitPositions(line: string, key: string, value: string) returns (c: nat)
    requires IsColonSplit(line, key, value)
    ensures c < |line| && ColonFrom(line, 0) == c
    ensures SpaceRunStart(line, c) == |key| && SpaceRunEnd(line, c + 1) == |line| - |value|
  {
    var before, after := ColonSplitLayout(line, key, value);
    var ve := |line| - |value|;
    c := |key| + |before|;
    NoColonInSpace(before);
    forall k | 0 <= k < c ensures line[k] != ':' {
      if k < |key| {
        assert line[k] == key[k];
      } else {
        assert line[k] == before[k - |key|];
      }
    }
    ColonFromAt(line, c);
    forall k | |key| <= k < c ensures IsSpace(line[k]) {
      assert line[k] == before[k - |key|];
    }
    SpaceRunStartAt(line, c, |key|);
    forall k | c + 1 <= k < ve ensures IsSpace(line[k]) {
      assert line[k] == after[k - c - 1];
    }
    SpaceRunEndAt(line, c + 1, ve);
  }

  /** The converse of SplitIsColonSplit: a colon split of the line is the one `split` produces. */
  lemma ColonSplitIsUnique(line: string, key: string, value: string)
    requires IsColonSplit(line, key, value)
    ensures SplitAtFirstColon(line) == [key, value]
  {
    var c := ColonSplitPositions(line, key, value);
  }

  /**
   * A key without colons or trailing whitespace, a colon, and a value without
   * leading whitespace split back into that key and value, whether either is
   * empty and whatever colons the value holds.
   */
  lemma SplitKeyColonValue(key: string, value: string)
    requires ':' !in key && (key == [] || !IsSpace(key[|key| - 1]))
    requires value == [] || !IsSpace(value[0])
    ensures SplitAtFirstColon(key + ":" + value) == [key, value]
  {
    var line := key + ":" + value;
    assert line == key + [] + [':'] + [] + value;
    ColonSplitOfParts(line, key, [], [], value);
    ColonSplitIsUnique(line, key, value);
  }

  /** What one line contributes to the values of `key`: its value when it splits in two with that key. */
  function LineValues(line: string, key: string): seq<string>
  {
    var parts := SplitAtFirstColon(line);
    if |parts| == 2 && parts[0] == key then [parts[1]] else []
  }

  /** Reference definition: the values recorded for `key`, one per matching line, in line order. */
  function ValuesFor(lines: seq<string>, key: string): seq<string>
  {
    if lines == [] then [] else LineValues(lines[0], key) + ValuesFor(lines[1..], key)
  }

  /** Values of a concatenation are the values of the first part followed by those of the second. */
  lemma {:induction false} ValuesForConcat(a: seq<string>, b: seq<string>, key: string)
    ensures ValuesFor(a + b, key) == ValuesFor(a, key) + ValuesFor(b, key)
  {
    if a == [] {
      assert a + b == b;
    } else {
      assert (a + b)[0] == a[0] && (a + b)[1..] == a[1..] + b;
      ValuesForConcat(a[1..], b, key);
    }
  }

  lemma ValuesForSnoc(lines: seq<string>, line: string)
    ensures forall key :: ValuesFor(lines + [line], key) == ValuesFor(lines, key) + LineValues(line, key)
  {
    forall key
      ensures ValuesFor(lines + [line], key) == ValuesFor(lines, key) + LineValues(line, key)
    {
      ValuesForConcat(lines, [line], key);
      assert ValuesFor([line], key) == LineValues(line, key) + ValuesFor([], key);
    }
  }

  /** The multimap the builder holds after the loop has consumed `lines`. */
  function ParseLines(lines: seq<string>): (m: Multimap)
    ensures Valid(m)
    ensures forall key :: Get(m, key) == ValuesFor(lines, key)
  {
    if lines == [] then map[]
    else
      var prefix, line := lines[..|lines| - 1], lines[|lines| - 1];
      assert lines == prefix + [line];
      ValuesForSnoc(prefix, line);
      var parts := SplitAtFirstColon(line);
      if |parts| == 2 then Put(ParseLines(prefix), parts[0], parts[1]) else ParseLines(prefix)
  }

  /** A line without a colon leaves every key's values as they were. */
  lemma LineWithoutColonIsIgnored(lines: seq<string>, line: string)
    requires ':' !in line
    ensures forall k :: Get(ParseLines(lines + [line]), k) == Get(ParseLines(lines), k)
  {
    ValuesForSnoc(lines, line);
  }

  /**
   * A line with a colon adds exactly one pair, even when its key or value is
   * empty: its value is appended to its key, and every other key is unchanged.
   */
  lemma LineWithColonAddsOnePair(lines: seq<string>, line: string)
    requires ':' in line
    ensures var parts := SplitAtFirstColon(line);
      && |parts| == 2
      && Get(ParseLines(lines + [line]), parts[0]) == Get(ParseLines(lines), parts[0]) + [parts[1]]
      && forall k :: k != parts[0] ==> Get(ParseLines(lines + [line]), k) == Get(ParseLines(lines), k)
  {
    ValuesForSnoc(lines, line);
  }

  lemma SnocSlice(lines: seq<string>, i: nat)
    requires i < |lines|
    ensures lines[..i + 1] == lines[..i] + [lines[i]]
  {
  }

  /** `propertiesFileToMultimap`: read line after line, recording every line that splits in two. */
  method PropertiesFileToMultimap(lines: seq<string>) returns (m: Multimap)
    ensures m == ParseLines(lines)
    ensures Valid(m) && forall key :: Get(m, key) == ValuesFor(lines, key)
  {
    var result: Multimap := map[];
    var i := 0;
    while i < |lines|
      invariant 0 <= i <= |lines|
      invariant result == ParseLines(lines[..i])
    {
      var parts := SplitAtFirstColon(lines[i]);
      if |parts| == 2 {
        result := Put(result, parts[0], parts[1]);
      }
      SnocSlice(lines, i);
      i := i + 1;
    }
    assert lines[..i] == lines;
    m := result;
  }

  /**
   * `propertiesFromLinuxFile`: `contents` is what reading the pseudo-file
   * produced, or None when the read threw; a failed read gives the empty multimap.
   */
  method PropertiesFromLinuxFile(contents: Option<seq<string>>) returns (m: Multimap)
    ensures Valid(m)
    ensures contents.None? ==> m == map[]
    ensures contents.Some? ==> m == ParseLines(contents.value)
    ensures contents.Some? ==> forall key :: Get(m, key) == ValuesFor(contents.value, key)
  {
    match contents
    case None =>
      m := map[];
    case Some(lines) =>
      m := PropertiesFileToMultimap(lines);
  }
}
