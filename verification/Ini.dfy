// The configuration file, as text: what loading reads from it and what dumping writes.
// src/cxx/config.cpp:20-101, 120-124, 181-302.
module Ini {
  import opened CStrings

  const MAX_SECTION_NAME: nat := 32
  const MAX_KEY: nat := 64
  const MAX_VAL: nat := 256
  const MAX_ENTRIES: nat := 64
  const MAX_SECTIONS: nat := 8
  const MAX_LINE: nat := 512

  datatype Entry = Entry(key: string, val: string)

  datatype Section = Section(name: string, entries: seq<Entry>)

  // ---- strings ----

  function TrimRight(s: string): (r: string)
    ensures |r| <= |s| && (r != [] ==> !IsBlank(r[|r| - 1]))
  {
    if s != [] && IsBlank(s[|s| - 1]) then TrimRight(s[..|s| - 1]) else s
  }

  function Trim(s: string): string {
    TrimRight(SkipBlanks(s))
  }

  // ---- reading ----

  // How much fgets takes.
  function ChunkLen(text: string): (r: nat)
    requires text != []
    ensures 0 < r <= |text| && r < MAX_LINE
  {
    ReadLen(text, MAX_LINE)
  }

  predicate IsTruncated(line: string) {
    |line| + 1 == MAX_LINE && line[|line| - 1] != '\n'
  }

  datatype Line = Skip | Header(name: string) | Pair(key: string, val: string) | Malformed

  // A trimmed line.
  function Classify(line: string): Line {
    if line == "" || line[0] == '#' || line[0] == ';' then Skip
    else if line[0] == '[' then
      var end := IndexOf(line, ']');
      if end == |line| || end == 1 then Malformed else Header(line[1..end])
    else
      var eq := IndexOf(line, '=');
      if eq == |line| then Malformed else Pair(Trim(line[..eq]), Trim(line[eq + 1..]))
  }

  predicate IsKnown(name: string) {
    name == "prompt" || name == "aliases" || name == "env" || name == "history" || name == "general"
  }

  predicate HasSection(secs: seq<Section>, name: string) {
    exists i :: 0 <= i < |secs| && secs[i].name == name
  }

  predicate HasKey(entries: seq<Entry>, key: string) {
    exists i :: 0 <= i < |entries| && entries[i].key == key
  }

  function AddSection(secs: seq<Section>, name: string): Option<seq<Section>> {
    if name == "" || |secs| >= MAX_SECTIONS || |name| + 1 > MAX_SECTION_NAME then None
    else Some(secs + [Section(name, [])])
  }

  function AddEntry(sec: Section, key: string, val: string): Option<Section> {
    if key == "" || HasKey(sec.entries, key) || |sec.entries| >= MAX_ENTRIES
       || |key| + 1 > MAX_KEY || |val| + 1 > MAX_VAL then None
    else Some(sec.(entries := sec.entries + [Entry(key, val)]))
  }

  // One line; keys go to the section begun last.
  function Step(secs: seq<Section>, line: Line): Option<seq<Section>> {
    match line
    case Skip => Some(secs)
    case Malformed => None
    case Header(name) => if !IsKnown(name) || HasSection(secs, name) then None else AddSection(secs, name)
    case Pair(key, val) =>
      if secs == [] then None
      else
        var s := AddEntry(secs[|secs| - 1], key, val);
        if s.None? then None else Some(secs[..|secs| - 1] + [s.value])
  }

  // From `secs` on, the sections after the rest of the text; None when it is rejected.
  function Load(secs: seq<Section>, text: string): Option<seq<Section>>
    decreases |text|
  {
    if text == [] then Some(secs)
    else
      var line := BufferText(text[..ChunkLen(text)]);
      if IsTruncated(line) then None
      else
        var r := Step(secs, Classify(Trim(line)));
        if r.None? then None else Load(r.value, text[ChunkLen(text)..])
  }

  // ---- writing ----

  function DumpEntries(entries: seq<Entry>): string {
    if entries == [] then ""
    else entries[0].key + "=" + entries[0].val + "\n" + DumpEntries(entries[1..])
  }

  function DumpSection(sec: Section): string {
    "[" + sec.name + "]\n" + DumpEntries(sec.entries)
  }

  // An empty line between sections.
  function Dump(secs: seq<Section>): string {
    if secs == [] then ""
    else DumpSection(secs[0]) + (if |secs| > 1 then "\n" else "") + Dump(secs[1..])
  }
}
