// What single lines of the configuration file do wherever they stand: comments are as if they were not
// there, and lines that are neither header, pair nor comment reject the file.
module IniLines {
  import opened CStrings
  import opened Ini
  import opened IniLaws

  // A text that ends where a line does.
  predicate WholeLines(text: string) {
    text != "" ==> text[|text| - 1] == '\n'
  }

  // What comes first is loaded first, and the rest from where it has led to.
  lemma {:induction false} LoadSplit(secs: seq<Section>, a: string, b: string)
    requires WholeLines(a)
    ensures Load(secs, a + b) == if Load(secs, a).None? then None else Load(Load(secs, a).value, b)
    decreases |a|
  {
    hide Step, Classify, Trim, BufferText, IsTruncated;
    if a == "" {
      assert a + b == b;
    } else {
      SameChunk(a, b);
      var n := ChunkLen(a);
      var line := BufferText(a[..n]);
      if !IsTruncated(line) {
        var r := Step(secs, Classify(Trim(line)));
        if r.Some? {
          LoadSplit(r.value, a[n..], b);
        }
      }
    }
  }

  lemma SameChunk(a: string, b: string)
    requires WholeLines(a) && a != ""
    ensures ChunkLen(a + b) == ChunkLen(a) && (a + b)[..ChunkLen(a)] == a[..ChunkLen(a)]
    ensures (a + b)[ChunkLen(a)..] == a[ChunkLen(a)..] + b && WholeLines(a[ChunkLen(a)..])
  {
    var k := IndexOf(a, '\n');
    assert a[|a| - 1] == '\n';
    assert k < |a|;
    assert (a + b)[k] == '\n' && forall i :: 0 <= i < k ==> (a + b)[i] == a[i];
    IndexOfIs(a + b, '\n', k);
  }

  // A line between others.
  function Between(a: string, line: string, b: string): string {
    a + (line + "\n" + b)
  }

  lemma LineBetween(secs: seq<Section>, a: string, line: string, b: string)
    requires WholeLines(a) && NoBreak(line) && |line| <= 510
    ensures var first := Load(secs, a);
            Load(secs, Between(a, line, b)) ==
            if first.None? then None
            else
              var r := Step(first.value, Classify(Trim(line)));
              if r.None? then None else Load(r.value, b)
  {
    hide Load, Step, Classify, Trim;
    LoadSplit(secs, a, line + "\n" + b);
    if Load(secs, a).Some? {
      LoadLine(Load(secs, a).value, line, b);
    }
  }

  predicate AllBlank(s: string) {
    forall k :: 0 <= k < |s| ==> IsBlank(s[k])
  }

  lemma {:induction false} TrimFront(w: string, s: string)
    requires AllBlank(w) && (s == "" || !IsBlank(s[0]))
    ensures s == "" ==> Trim(w + s) == ""
    ensures s != "" ==> Trim(w + s) != "" && Trim(w + s)[0] == s[0] && Trim(w + s) <= s
    decreases |w|
  {
    if w == "" {
      assert w + s == s;
      if s != "" {
        TrimRightFirst(s);
      }
    } else {
      assert (w + s)[1..] == w[1..] + s;
      TrimFront(w[1..], s);
    }
  }

  lemma {:induction false} TrimRightFirst(s: string)
    requires s != "" && !IsBlank(s[0])
    ensures TrimRight(s) != "" && TrimRight(s) <= s
    decreases |s|
  {
    if IsBlank(s[|s| - 1]) {
      TrimRightFirst(s[..|s| - 1]);
    }
  }

  // Lines that begin with # or ;, after blanks or not, and blank lines change nothing.
  lemma CommentsIgnored(secs: seq<Section>, a: string, w: string, text: string, b: string)
    requires WholeLines(a) && NoBreak(w + text) && |w + text| <= 510 && AllBlank(w)
    requires text == "" || text[0] == '#' || text[0] == ';'
    ensures Load(secs, Between(a, w + text, b)) == Load(secs, a + b)
  {
    hide Load, Trim;
    TrimFront(w, text);
    LineBetween(secs, a, w + text, b);
    LoadSplit(secs, a, b);
  }

  // A line without = that is no header and no comment, and a header that is not closed or has no name,
  // reject the file wherever they stand.
  lemma BadLinesReject(secs: seq<Section>, a: string, line: string, b: string)
    requires WholeLines(a) && NoBreak(line) && |line| <= 510 && line != "" && !IsBlank(line[0])
    requires if line[0] == '[' then ']' !in line || line[1] == ']'
             else line[0] != '#' && line[0] != ';' && '=' !in line
    ensures Load(secs, Between(a, line, b)).None?
  {
    hide Load, Trim;
    TrimFront("", line);
    assert "" + line == line;
    LineBetween(secs, a, line, b);
    var t := Trim(line);
    assert forall k :: 0 <= k < |t| ==> t[k] == line[k];
    if line[0] == '[' && ']' !in line {
      assert IndexOf(t, ']') == |t|;
    } else if line[0] == '[' {
      assert |t| > 1 ==> IndexOf(t, ']') == 1;
      assert |t| == 1 ==> IndexOf(t, ']') == |t|;
    } else {
      assert IndexOf(t, '=') == |t|;
    }
  }

  // So does a line of more than 510 characters.
  lemma LongLinesReject(secs: seq<Section>, a: string, line: string, b: string)
    requires WholeLines(a) && NoBreak(line) && |line| > 510
    ensures Load(secs, Between(a, line, b)).None?
  {
    var rest := line + "\n" + b;
    LoadSplit(secs, a, rest);
    assert forall k :: 0 <= k < 511 ==> rest[k] == line[k];
    assert IndexOf(rest, '\n') >= 511;
    var chunk := rest[..511];
    assert ChunkLen(rest) == 511;
    IndexOfIs(chunk, NUL, 511);
    assert BufferText(chunk) == chunk;
  }

  // ---- headers and pairs ----

  // A header begins a section at the end; a name that is unknown or was there before rejects the file.
  lemma HeaderBegins(secs: seq<Section>, name: string, rest: string)
    requires Wf(secs) && NoBreak(name) && ']' !in name && |name| <= 500
    ensures Load(secs, "[" + name + "]" + "\n" + rest) ==
            if name in ["prompt", "aliases", "env", "history", "general"] && (forall s :: s in secs ==> s.name != name)
            then Load(secs + [Section(name, [])], rest) else None
  {
    hide Load, Trim, Classify, Wf;
    var line := "[" + name + "]";
    LoadLine(secs, line, rest);
    HeaderIs(name);
    if HasSection(secs, name) {
      var i :| 0 <= i < |secs| && secs[i].name == name;
      assert secs[i] in secs;
    } else if name in ["prompt", "aliases", "env", "history", "general"] {
      NewSectionFits(secs, name);
      assert forall s :: s in secs ==> s.name != name;
    }
  }

  lemma HeaderIs(name: string)
    requires ']' !in name
    ensures Classify(Trim("[" + name + "]")) == if name == "" then Malformed else Header(name)
  {
    hide SkipBlanks, TrimRight;
    var line := "[" + name + "]";
    SkipBlanksStays(line);
    TrimRightStays(line);
    IndexOfIs(line, ']', |name| + 1);
    assert line[1..|name| + 1] == name;
  }

  // A text without blanks at its ends.
  predicate Bare(s: string) {
    s != "" ==> !IsBlank(s[0]) && !IsBlank(s[|s| - 1])
  }

  lemma {:induction false} TrimAround(w: string, s: string, x: string)
    requires AllBlank(w) && AllBlank(x) && Bare(s)
    ensures Trim(w + s + x) == s
    decreases |w|, |x|
  {
    var t := w + s + x;
    if w != "" {
      assert t[1..] == w[1..] + s + x;
      TrimAround(w[1..], s, x);
    } else if x != "" {
      var y := x[..|x| - 1];
      assert t == (w + s + y) + [x[|x| - 1]];
      TrimAround(w, s, y);
      TrimBlankEnd(w + s + y, x[|x| - 1]);
    } else {
      assert t == s;
      if s != "" {
        SkipBlanksStays(s);
        TrimRightStays(s);
      }
    }
  }

  // A line of a key, =, and a value, blanks around the = or not.
  function PairText(key: string, w: string, x: string, val: string): string {
    key + w + "=" + (x + val)
  }

  predicate PairParts(key: string, w: string, x: string, val: string) {
    && Bare(key) && Bare(val) && AllBlank(w) && AllBlank(x) && key != ""
    && '=' !in key && key[0] !in "[#;" && NoBreak(PairText(key, w, x, val)) && |PairText(key, w, x, val)| <= 510
  }

  lemma PairIs(key: string, w: string, x: string, val: string)
    requires PairParts(key, w, x, val)
    ensures Classify(Trim(PairText(key, w, x, val))) == Pair(key, val)
  {
    hide Trim, Classify;
    var v := if val == "" then "" else x + val;
    PairTrimmed(key, w, x, val);
    EqualsAt(key, w, v);
    TrimAround("", key, w);
    assert "" + key + w == key + w;
    TrimAround(if val == "" then "" else x, val, "");
    assert v == (if val == "" then "" else x) + val + "";
    PairSplit(key + w, v);
  }

  // The blanks between = and an empty value are at the end of the line.
  lemma PairTrimmed(key: string, w: string, x: string, val: string)
    requires PairParts(key, w, x, val)
    ensures Trim(PairText(key, w, x, val)) == key + w + "=" + (if val == "" then "" else x + val)
  {
    hide Trim;
    var line := PairText(key, w, x, val);
    var body := key + w + "=" + (if val == "" then "" else x + val);
    var tail := if val == "" then x else "";
    assert line == "" + body + tail;
    assert body[0] == key[0] && body[|body| - 1] == if val == "" then '=' else val[|val| - 1];
    TrimAround("", body, tail);
  }

  lemma EqualsAt(key: string, w: string, v: string)
    requires '=' !in key && AllBlank(w)
    ensures IndexOf(key + w + "=" + v, '=') == |key + w|
  {
    var s := key + w + "=" + v;
    assert forall k :: 0 <= k < |key| ==> s[k] == key[k];
    assert forall k :: |key| <= k < |key + w| ==> s[k] == w[k - |key|];
    IndexOfIs(s, '=', |key + w|);
  }

  lemma PairSplit(front: string, v: string)
    requires front != [] && front[0] !in "[#;" && IndexOf(front + "=" + v, '=') == |front|
    ensures Classify(front + "=" + v) == Pair(Trim(front), Trim(v))
  {
    hide Trim, IndexOf;
    var s := front + "=" + v;
    assert s[0] == front[0] && "[#;" == ['[', '#', ';'];
    assert s[..|front|] == front && s[|front| + 1..] == v;
  }

  // A pair goes to the section begun last, with its value trimmed; it rejects the file before the first
  // section, for a key that is there already, and beyond the bounds.
  lemma PairAdded(secs: seq<Section>, key: string, w: string, x: string, val: string, rest: string)
    requires PairParts(key, w, x, val)
    ensures var r := Load(secs, PairText(key, w, x, val) + "\n" + rest);
            if secs == [] then r.None?
            else
              var last := secs[|secs| - 1];
              var before := last.entries;
              if (exists e :: e in before && e.key == key)
                 || |before| >= MAX_ENTRIES || |key| >= MAX_KEY || |val| >= MAX_VAL
              then r.None?
              else r == Load(secs[..|secs| - 1] + [Section(last.name, before + [Entry(key, val)])], rest)
  {
    hide Load, Trim, Classify, PairText;
    PairIs(key, w, x, val);
    LoadLine(secs, PairText(key, w, x, val), rest);
    if secs != [] {
      var before := secs[|secs| - 1].entries;
      if e :| e in before && e.key == key {
        var i :| 0 <= i < |before| && before[i] == e;
      }
    }
  }

  // ---- writing ----

  // A section at the end is an empty line, if it is not the first, and its header.
  lemma {:induction false} SectionShown(secs: seq<Section>, name: string)
    ensures Dump(secs + [Section(name, [])]) == (if secs == [] then "" else Dump(secs) + "\n") + ("[" + name + "]\n")
  {
    hide Dump, DumpSection;
    var all, empty := secs + [Section(name, [])], Section(name, []);
    EmptyShown(name);
    DumpFirst(all);
    if secs == [] {
      assert all[0] == empty;
    } else {
      assert all[0] == secs[0] && all[1..] == secs[1..] + [empty];
      DumpFirst(secs);
      SectionShown(secs[1..], name);
      Further(DumpSection(secs[0]), Dump(secs[1..]), "[" + name + "]\n");
    }
  }

  lemma Further(x: string, y: string, head: string)
    ensures x + "\n" + (y + "\n" + head) == (x + "\n" + y) + "\n" + head
    ensures x + "\n" + ("" + head) == x + "\n" + head
  {
  }

  lemma EmptyShown(name: string)
    ensures DumpSection(Section(name, [])) == "[" + name + "]\n"
  {
    assert "[" + name + "]\n" + DumpEntries([]) == "[" + name + "]\n";
  }

  lemma DumpFirst(secs: seq<Section>)
    requires secs != []
    ensures Dump(secs) == if |secs| == 1 then DumpSection(secs[0]) else DumpSection(secs[0]) + "\n" + Dump(secs[1..])
  {
    hide DumpSection;
    if |secs| == 1 {
      assert secs[1..] == [];
    }
  }

  // An entry at the end is a line of its key, = and its value.
  lemma {:induction false} EntryShown(secs: seq<Section>, name: string, entries: seq<Entry>, e: Entry)
    ensures Dump(secs + [Section(name, entries + [e])]) ==
            Dump(secs + [Section(name, entries)]) + (e.key + "=" + e.val + "\n")
  {
    hide DumpSection;
    var all, less := secs + [Section(name, entries + [e])], secs + [Section(name, entries)];
    if secs == [] {
      assert all[1..] == [] && less[1..] == [];
      EntriesShown(name, entries, e);
    } else {
      assert all[0] == secs[0] == less[0];
      assert all[1..] == secs[1..] + [Section(name, entries + [e])];
      assert less[1..] == secs[1..] + [Section(name, entries)];
      EntryShown(secs[1..], name, entries, e);
    }
  }

  lemma EntriesShown(name: string, entries: seq<Entry>, e: Entry)
    ensures DumpSection(Section(name, entries + [e])) ==
            DumpSection(Section(name, entries)) + (e.key + "=" + e.val + "\n")
  {
    EntriesGrow(entries, e);
    hide DumpEntries;
    var head, x, line := "[" + name + "]\n", DumpEntries(entries), e.key + "=" + e.val + "\n";
    assert head + (x + line) == (head + x) + line;
  }

  lemma {:induction false} EntriesGrow(entries: seq<Entry>, e: Entry)
    ensures DumpEntries(entries + [e]) == DumpEntries(entries) + (e.key + "=" + e.val + "\n")
  {
    var all := entries + [e];
    if entries == [] {
      assert all[1..] == [] && all[0] == e;
    } else {
      assert all[0] == entries[0] && all[1..] == entries[1..] + [e];
      EntriesGrow(entries[1..], e);
    }
  }
}
