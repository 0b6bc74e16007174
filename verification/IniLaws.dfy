// What every configuration that loads looks like, and that dumping it loses nothing.
module IniLaws {
  import opened CStrings
  import opened Ini

  // ---- well-formed configurations ----

  predicate NoBreak(s: string) {
    NUL !in s && '\n' !in s
  }

  predicate GoodKey(key: string) {
    && key != "" && |key| < MAX_KEY && NoBreak(key) && '=' !in key
    && !IsBlank(key[0]) && !IsBlank(key[|key| - 1])
    && key[0] != '#' && key[0] != ';' && key[0] != '['
  }

  predicate GoodVal(val: string) {
    |val| < MAX_VAL && NoBreak(val)
  }

  predicate WfEntries(entries: seq<Entry>) {
    && |entries| <= MAX_ENTRIES
    && (forall i :: 0 <= i < |entries| ==> GoodKey(entries[i].key) && GoodVal(entries[i].val))
    && (forall i, j :: 0 <= i < j < |entries| ==> entries[i].key != entries[j].key)
  }

  // Known, distinct names; good, distinct keys; values of one line; everything within its bounds.
  predicate Wf(secs: seq<Section>) {
    && (forall i :: 0 <= i < |secs| ==> IsKnown(secs[i].name) && WfEntries(secs[i].entries))
    && (forall i, j :: 0 <= i < j < |secs| ==> secs[i].name != secs[j].name)
  }

  predicate TrimmedEntries(entries: seq<Entry>) {
    forall i :: 0 <= i < |entries| ==> Trim(entries[i].val) == entries[i].val
  }

  // No value has blanks at its ends.
  predicate Trimmed(secs: seq<Section>) {
    forall i :: 0 <= i < |secs| ==> TrimmedEntries(secs[i].entries)
  }

  // ---- trimming ----

  lemma {:induction false} SkipBlanksIsPart(s: string)
    ensures SkipBlanks(s) == s[|s| - |SkipBlanks(s)|..]
  {
    if s != [] && IsBlank(s[0]) {
      SkipBlanksIsPart(s[1..]);
    }
  }

  lemma {:induction false} TrimRightIsPart(s: string)
    ensures TrimRight(s) == s[..|TrimRight(s)|]
  {
    if s != [] && IsBlank(s[|s| - 1]) {
      TrimRightIsPart(s[..|s| - 1]);
    }
  }

  lemma TrimIsPart(s: string) returns (a: nat, b: nat)
    ensures a <= b <= |s| && Trim(s) == s[a..b]
    ensures Trim(s) != [] ==> !IsBlank(Trim(s)[0]) && !IsBlank(Trim(s)[|Trim(s)| - 1])
  {
    var l := SkipBlanks(s);
    SkipBlanksIsPart(s);
    TrimRightIsPart(l);
    if TrimRight(l) != [] {
      assert TrimRight(l)[0] == l[0];
    }
    a, b := |s| - |l|, |s| - |l| + |TrimRight(l)|;
  }

  lemma SkipBlanksStays(s: string)
    requires s != [] ==> !IsBlank(s[0])
    ensures SkipBlanks(s) == s
  {
  }

  lemma TrimRightStays(s: string)
    requires s != [] ==> !IsBlank(s[|s| - 1])
    ensures TrimRight(s) == s
  {
  }

  // Trimming twice is trimming once.
  lemma TrimTwice(s: string)
    ensures Trim(Trim(s)) == Trim(s)
  {
    var a, b := TrimIsPart(s);
    SkipBlanksStays(Trim(s));
    TrimRightStays(Trim(s));
  }

  lemma {:induction false} TrimRightAfter(a: string, s: string)
    requires a != [] && !IsBlank(a[|a| - 1])
    ensures TrimRight(a + s) == a + TrimRight(s)
    decreases |s|
  {
    if s != [] && IsBlank(s[|s| - 1]) {
      assert (a + s)[..|a + s| - 1] == a + s[..|s| - 1];
      TrimRightAfter(a, s[..|s| - 1]);
    } else if s == [] {
      assert a + s == a;
    } else {
      TrimRightStays(a + s);
    }
  }

  lemma {:induction false} SkipBlanksBlankEnd(s: string, c: char)
    requires IsBlank(c)
    ensures TrimRight(SkipBlanks(s + [c])) == Trim(s)
    decreases |s|
  {
    if s == [] {
      assert (s + [c])[1..] == [];
    } else if IsBlank(s[0]) {
      assert (s + [c])[1..] == s[1..] + [c];
      SkipBlanksBlankEnd(s[1..], c);
    } else {
      assert (s + [c])[..|s|] == s;
    }
  }

  // Trimming on the right alone first makes no difference.
  lemma {:induction false} TrimOfTrimRight(s: string)
    ensures Trim(TrimRight(s)) == Trim(s)
    decreases |s|
  {
    hide Trim, SkipBlanks;
    if s != [] && IsBlank(s[|s| - 1]) {
      var init := s[..|s| - 1];
      assert TrimRight(s) == TrimRight(init);
      TrimOfTrimRight(init);
      TrimBlankEnd(init, s[|s| - 1]);
      assert s == init + [s[|s| - 1]];
    } else {
      TrimRightStays(s);
    }
  }

  lemma TrimBlankEnd(s: string, c: char)
    requires IsBlank(c)
    ensures Trim(s + [c]) == Trim(s)
  {
    hide SkipBlanks, TrimRight;
    SkipBlanksBlankEnd(s, c);
  }

  lemma IndexOfIs(s: string, c: char, n: nat)
    requires n <= |s| && (forall k :: 0 <= k < n ==> s[k] != c) && (n < |s| ==> s[n] == c)
    ensures IndexOf(s, c) == n
  {
  }

  // ---- what is read is well formed ----

  lemma ReadLineNoBreak(text: string)
    requires text != []
    ensures NoBreak(Trim(BufferText(text[..ChunkLen(text)])))
  {
    hide Trim;
    var chunk := text[..ChunkLen(text)];
    var line := BufferText(chunk);
    var a, b := TrimIsPart(line);
    var t := Trim(line);
    assert forall k :: 0 <= k < |line| ==> line[k] == text[k] && line[k] != NUL;
    assert forall k :: 0 <= k < |line| - 1 ==> line[k] != '\n';
    forall k | 0 <= k < |t| ensures t[k] != NUL && t[k] != '\n' {
      assert t[k] == line[a + k];
      assert a + k == |line| - 1 ==> k == |t| - 1;
    }
  }

  lemma PairIsGood(line: string)
    requires NoBreak(line) && (line != [] ==> !IsBlank(line[0])) && Classify(line).Pair?
    ensures var p := Classify(line); NoBreak(p.val) && Trim(p.val) == p.val
    ensures var p := Classify(line); p.key != "" && |p.key| < MAX_KEY ==> GoodKey(p.key)
  {
    hide Trim;
    var eq := IndexOf(line, '=');
    var a, b := TrimIsPart(line[..eq]);
    var c, d := TrimIsPart(line[eq + 1..]);
    var key, val := Trim(line[..eq]), Trim(line[eq + 1..]);
    TrimTwice(line[eq + 1..]);
    assert forall k :: 0 <= k < |key| ==> key[k] == line[a + k] && a + k < eq;
    assert forall k :: 0 <= k < |val| ==> val[k] == line[eq + 1 + c + k];
    if key != "" {
      KeyStart(line[..eq]);
    }
  }

  lemma KeyStart(s: string)
    requires s != [] && !IsBlank(s[0])
    ensures Trim(s) != [] && Trim(s)[0] == s[0]
  {
    SkipBlanksStays(s);
    var one := [s[0]];
    assert s == one + s[1..];
    TrimRightAfter(one, s[1..]);
  }

  lemma StepKeeps(secs: seq<Section>, line: string)
    requires Wf(secs) && Trimmed(secs) && NoBreak(line) && (line != [] ==> !IsBlank(line[0]))
    ensures var r := Step(secs, Classify(line)); r.Some? ==> Wf(r.value) && Trimmed(r.value)
  {
    hide Trim, Classify, GoodKey, IsKnown;
    var p, r := Classify(line), Step(secs, Classify(line));
    if r.Some? && p.Pair? {
      PairIsGood(line);
      var last := secs[|secs| - 1];
      var entries := last.entries + [Entry(p.key, p.val)];
      assert r.value == secs[|secs| - 1 := last.(entries := entries)];
      assert GoodVal(p.val);
    }
  }

  // Every text that loads gives a well-formed configuration with trimmed values.
  lemma {:induction false} LoadedIsWf(secs: seq<Section>, text: string)
    requires Wf(secs) && Trimmed(secs)
    ensures var r := Load(secs, text); r.Some? ==> Wf(r.value) && Trimmed(r.value)
    decreases |text|
  {
    hide Wf, Trimmed, Trim, Classify, Step, NoBreak, BufferText, IsTruncated;
    if text != [] && Load(secs, text).Some? {
      var line := Trim(BufferText(text[..ChunkLen(text)]));
      ReadLineNoBreak(text);
      var a, b := TrimIsPart(BufferText(text[..ChunkLen(text)]));
      StepKeeps(secs, line);
      LoadedIsWf(Step(secs, Classify(line)).value, text[ChunkLen(text)..]);
    }
  }

  // ---- the bound on sections is never the reason for a rejection ----

  const KNOWN: set<string> := {"prompt", "aliases", "env", "history", "general"}

  function Names(secs: seq<Section>): set<string> {
    set i | 0 <= i < |secs| :: secs[i].name
  }

  lemma {:induction false} DistinctNames(secs: seq<Section>)
    requires Wf(secs)
    ensures |Names(secs)| == |secs| && Names(secs) <= KNOWN
  {
    hide WfEntries, IsKnown;
    if secs != [] {
      var n := |secs| - 1;
      var rest := secs[..n];
      assert Wf(rest);
      DistinctNames(rest);
      KnownIs(secs[n].name);
      NamesStep(secs);
      assert secs[n].name !in Names(rest);
    }
  }

  lemma KnownIs(name: string)
    ensures IsKnown(name) <==> name in KNOWN
  {
  }

  lemma NamesStep(secs: seq<Section>)
    requires secs != []
    ensures Names(secs) == Names(secs[..|secs| - 1]) + {secs[|secs| - 1].name}
  {
    var n := |secs| - 1;
    forall x | x in Names(secs) ensures x in Names(secs[..n]) + {secs[n].name} {
      var i :| 0 <= i < |secs| && secs[i].name == x;
      assert i < n ==> secs[..n][i].name == x;
    }
    forall x | x in Names(secs[..n]) ensures x in Names(secs) {
      var i :| 0 <= i < n && secs[..n][i].name == x;
      assert secs[i].name == x;
    }
  }

  lemma NewSectionFits(secs: seq<Section>, name: string)
    requires Wf(secs) && IsKnown(name) && !HasSection(secs, name)
    ensures |secs| < 5 && AddSection(secs, name).Some?
  {
    hide Wf;
    DistinctNames(secs);
    assert name in KNOWN && name !in Names(secs);
    Smaller(Names(secs), KNOWN - {name});
    assert |KNOWN - {name}| == 4;
  }

  lemma {:induction false} Smaller(a: set<string>, b: set<string>)
    requires a <= b
    ensures |a| <= |b|
  {
    if a != {} {
      var x :| x in a;
      Smaller(a - {x}, b - {x});
    }
  }

  // ---- dumping and loading again ----

  // A line of its own, short enough and without NUL, is read as it stands.
  lemma LoadLine(secs: seq<Section>, line: string, rest: string)
    requires NoBreak(line) && |line| + 1 < MAX_LINE
    ensures var r := Step(secs, Classify(Trim(line)));
            Load(secs, line + "\n" + rest) == if r.None? then None else Load(r.value, rest)
  {
    hide Step, Classify, Trim;
    var text := line + "\n" + rest;
    IndexOfIs(text, '\n', |line|);
    var chunk := text[..ChunkLen(text)];
    assert chunk == line + "\n" && text[ChunkLen(text)..] == rest;
    IndexOfIs(chunk, NUL, |chunk|);
    assert BufferText(chunk) == chunk;
    TrimBlankEnd(line, '\n');
  }

  lemma LoadBlank(secs: seq<Section>, rest: string)
    ensures Load(secs, "\n" + rest) == Load(secs, rest)
  {
    hide Load;
    LoadLine(secs, "", rest);
    assert "" + "\n" + rest == "\n" + rest;
  }

  lemma LoadHeader(secs: seq<Section>, name: string, rest: string)
    requires Wf(secs) && IsKnown(name) && !HasSection(secs, name)
    ensures Load(secs, "[" + name + "]\n" + rest) == Load(secs + [Section(name, [])], rest)
  {
    hide Load, Wf;
    var line := "[" + name + "]";
    HeaderLine(name);
    LoadLine(secs, line, rest);
    NewSectionFits(secs, name);
    assert line + "\n" + rest == "[" + name + "]\n" + rest;
  }

  lemma KnownIsPlain(name: string)
    requires IsKnown(name)
    ensures 0 < |name| < 8 && NoBreak(name) && ']' !in name
  {
  }

  lemma HeaderLine(name: string)
    requires IsKnown(name)
    ensures var line := "[" + name + "]"; NoBreak(line) && |line| < 16 && Classify(Trim(line)) == Header(name)
  {
    hide SkipBlanks, TrimRight, IsKnown;
    var line := "[" + name + "]";
    KnownIsPlain(name);
    SkipBlanksStays(line);
    TrimRightStays(line);
    IndexOfIs(line, ']', |name| + 1);
    assert line[1..|name| + 1] == name;
  }

  lemma LoadPair(secs: seq<Section>, sec: Section, key: string, val: string, rest: string)
    requires GoodKey(key) && GoodVal(val) && !HasKey(sec.entries, key) && |sec.entries| < MAX_ENTRIES
    ensures Load(secs + [sec], key + "=" + val + "\n" + rest)
         == Load(secs + [sec.(entries := sec.entries + [Entry(key, Trim(val))])], rest)
  {
    hide Load, GoodKey, Trim, Classify;
    var line := key + "=" + val;
    PairLine(key, val);
    LoadLine(secs + [sec], line, rest);
    var all := secs + [sec];
    assert all[|all| - 1] == sec && all[..|all| - 1] == secs;
    ShortVal(val);
  }

  lemma ShortVal(val: string)
    requires GoodVal(val)
    ensures |Trim(val)| + 1 <= MAX_VAL
  {
  }

  lemma PairLine(key: string, val: string)
    requires GoodKey(key) && GoodVal(val)
    ensures var line := key + "=" + val;
            && NoBreak(line) && |line| + 1 < MAX_LINE - 1
            && Classify(Trim(line)) == Pair(key, Trim(val))
            && key != "" && |key| + 1 <= MAX_KEY
  {
    hide SkipBlanks, TrimRight;
    var line := key + "=" + val;
    var t := key + "=" + TrimRight(val);
    SkipBlanksStays(line);
    TrimRightAfter(key + "=", val);
    assert Trim(line) == t;
    IndexOfIs(t, '=', |key|);
    assert t[..|key|] == key && t[|key| + 1..] == TrimRight(val);
    SkipBlanksStays(key);
    TrimRightStays(key);
    TrimOfTrimRight(val);
  }

  function TrimVals(entries: seq<Entry>): (r: seq<Entry>)
    ensures |r| == |entries|
    ensures forall i :: 0 <= i < |r| ==> r[i] == Entry(entries[i].key, Trim(entries[i].val))
  {
    if entries == [] then [] else [Entry(entries[0].key, Trim(entries[0].val))] + TrimVals(entries[1..])
  }

  function TrimAll(secs: seq<Section>): (r: seq<Section>)
    ensures |r| == |secs|
    ensures forall i :: 0 <= i < |r| ==> r[i] == Section(secs[i].name, TrimVals(secs[i].entries))
  {
    if secs == [] then [] else [Section(secs[0].name, TrimVals(secs[0].entries))] + TrimAll(secs[1..])
  }

  lemma {:induction false} LoadEntries(secs: seq<Section>, sec: Section, entries: seq<Entry>, rest: string)
    requires WfEntries(sec.entries + entries)
    ensures Load(secs + [sec], DumpEntries(entries) + rest)
         == Load(secs + [sec.(entries := sec.entries + TrimVals(entries))], rest)
    decreases |entries|
  {
    hide Load, GoodKey, GoodVal, Trim, WfEntries, HasKey, TrimVals;
    if entries == [] {
      NoEntries(sec.entries, rest);
    } else {
      var e := entries[0];
      var next := sec.(entries := sec.entries + [Entry(e.key, Trim(e.val))]);
      var tail := DumpEntries(entries[1..]) + rest;
      RegroupLine(e.key + "=" + e.val + "\n", DumpEntries(entries[1..]), rest);
      EntryFits(sec.entries, entries);
      LoadPair(secs, sec, e.key, e.val, tail);
      LoadEntries(secs, next, entries[1..], rest);
      TrimValsStep(sec.entries, entries);
    }
  }

  lemma NoEntries(before: seq<Entry>, rest: string)
    ensures DumpEntries([]) + rest == rest && before + TrimVals([]) == before
  {
  }

  lemma TrimValsStep(before: seq<Entry>, entries: seq<Entry>)
    requires entries != []
    ensures before + TrimVals(entries)
         == before + [Entry(entries[0].key, Trim(entries[0].val))] + TrimVals(entries[1..])
  {
    hide Trim;
  }

  lemma RegroupLine(a: string, b: string, c: string)
    ensures (a + b) + c == a + (b + c)
  {
  }

  lemma EntryFits(before: seq<Entry>, entries: seq<Entry>)
    requires entries != [] && WfEntries(before + entries)
    ensures var e := entries[0];
            && GoodKey(e.key) && GoodVal(e.val) && !HasKey(before, e.key) && |before| < MAX_ENTRIES
            && WfEntries(before + [Entry(e.key, Trim(e.val))] + entries[1..])
  {
    hide GoodKey;
    var all, e := before + entries, entries[0];
    assert all[|before|] == e;
    assert forall i :: 0 <= i < |before| ==> all[i] == before[i];
    var v := Trim(e.val);
    var a, b := TrimIsPart(e.val);
    assert forall k :: 0 <= k < |v| ==> v[k] == e.val[a + k];
    assert GoodVal(v);
    assert before + [Entry(e.key, v)] + entries[1..] == all[|before| := Entry(e.key, v)];
  }

  // Sections, dumped after what has been read already.
  lemma {:induction false} LoadDump(secs: seq<Section>, more: seq<Section>)
    requires Wf(secs + more)
    ensures Load(secs, Dump(more)) == Some(secs + TrimAll(more))
    decreases |more|
  {
    hide Load, Wf, WfEntries, IsKnown, Trim, TrimVals, TrimAll, Dump, HasSection;
    if more == [] {
      LoadNothing(secs);
    } else {
      var s, after := more[0], more[1..];
      var done := secs + [Section(s.name, TrimVals(s.entries))];
      var gap := if |more| > 1 then "\n" else "";
      var tail := gap + Dump(after);
      SectionFits(secs, more);
      TrimAllStep(secs, more);
      DumpStep(more);
      Empties(s.entries, TrimVals(s.entries), Dump(after));
      LoadHeader(secs, s.name, DumpEntries(s.entries) + tail);
      LoadEntries(secs, Section(s.name, []), s.entries, tail);
      if |more| > 1 {
        LoadBlank(done, Dump(after));
      }
      LoadDump(done, after);
    }
  }

  lemma Empties(a: seq<Entry>, b: seq<Entry>, s: string)
    ensures [] + a == a && [] + b == b && "" + s == s
  {
  }

  lemma TrimAllStep(secs: seq<Section>, more: seq<Section>)
    requires more != []
    ensures secs + TrimAll(more) == secs + [Section(more[0].name, TrimVals(more[0].entries))] + TrimAll(more[1..])
  {
    hide TrimVals;
    RegroupSections(secs, [Section(more[0].name, TrimVals(more[0].entries))], TrimAll(more[1..]));
  }

  lemma RegroupSections(a: seq<Section>, b: seq<Section>, c: seq<Section>)
    ensures a + (b + c) == a + b + c
  {
  }

  lemma DumpStep(more: seq<Section>)
    requires more != []
    ensures var gap := if |more| > 1 then "\n" else "";
            Dump(more) == "[" + more[0].name + "]\n" + (DumpEntries(more[0].entries) + (gap + Dump(more[1..])))
  {
    hide DumpEntries;
    var gap := if |more| > 1 then "\n" else "";
    Regroup("[" + more[0].name + "]\n", DumpEntries(more[0].entries), gap, Dump(more[1..]));
  }

  lemma Regroup(a: string, b: string, c: string, d: string)
    ensures a + b + c + d == a + (b + (c + d))
  {
  }

  lemma LoadNothing(secs: seq<Section>)
    ensures Load(secs, Dump([])) == Some(secs + TrimAll([]))
  {
    assert secs + TrimAll([]) == secs;
  }

  lemma SectionFits(secs: seq<Section>, more: seq<Section>)
    requires more != [] && Wf(secs + more)
    ensures var s := more[0];
            && Wf(secs) && IsKnown(s.name) && !HasSection(secs, s.name) && WfEntries(s.entries)
            && Wf(secs + [Section(s.name, TrimVals(s.entries))] + more[1..])
  {
    hide IsKnown, WfEntries;
    var all, s := secs + more, more[0];
    var t := Section(s.name, TrimVals(s.entries));
    assert all[|secs|] == s && forall i :: 0 <= i < |secs| ==> all[i] == secs[i];
    TrimKeepsWf(s.entries);
    assert secs + [t] + more[1..] == all[|secs| := t];
  }

  lemma TrimKeepsWf(entries: seq<Entry>)
    requires WfEntries(entries)
    ensures WfEntries(TrimVals(entries))
  {
    hide GoodKey, Trim;
    forall i | 0 <= i < |entries| ensures GoodVal(Trim(entries[i].val)) {
      var v := entries[i].val;
      var a, b := TrimIsPart(v);
      assert forall k :: 0 <= k < |Trim(v)| ==> Trim(v)[k] == v[a + k];
    }
  }

  // Dumping a well-formed configuration and loading it again trims its values, and that is all.
  lemma ReloadTrims(secs: seq<Section>)
    requires Wf(secs)
    ensures Load([], Dump(secs)) == Some(TrimAll(secs))
  {
    assert [] + secs == secs;
    LoadDump([], secs);
    assert [] + TrimAll(secs) == TrimAll(secs);
  }

  // So it comes back as it was exactly when no value has blanks at its ends.
  lemma ReloadExactly(secs: seq<Section>)
    requires Wf(secs)
    ensures Load([], Dump(secs)) == Some(secs) <==> Trimmed(secs)
  {
    hide Trim;
    ReloadTrims(secs);
    var t := TrimAll(secs);
    if Trimmed(secs) {
      forall i | 0 <= i < |secs| ensures t[i] == secs[i] {
        assert TrimVals(secs[i].entries) == secs[i].entries;
      }
      assert t == secs;
    }
    if t == secs {
      forall i, k | 0 <= i < |secs| && 0 <= k < |secs[i].entries|
        ensures Trim(secs[i].entries[k].val) == secs[i].entries[k].val
      {
        assert t[i].entries[k] == secs[i].entries[k];
      }
    }
  }

  // Whatever loads is kept by dumping and loading again: sections, keys, values and their order.
  lemma RoundTrip(text: string, secs: seq<Section>)
    requires Load([], text) == Some(secs)
    ensures Load([], Dump(secs)) == Some(secs) && |secs| <= 5
  {
    hide Load;
    LoadedIsWf([], text);
    ReloadExactly(secs);
    DistinctNames(secs);
    Smaller(Names(secs), KNOWN);
    assert |KNOWN| == 5;
  }

  // The default configuration, src/cxx/config.cpp:165-179.
  const DEFAULTS: seq<Section> :=
    [Section("prompt", [Entry("ps1", "petrush> ")]), Section("history", [Entry("max", "1000")])]

  lemma DefaultsTrimmed()
    ensures Trim("petrush> ") == "petrush>" && Trim("1000") == "1000"
  {
    var prompt := "petrush> ";
    assert prompt[..8] == "petrush>" && TrimRight(prompt[..8]) == prompt[..8];
  }

  lemma DefaultsWf()
    ensures Wf(DEFAULTS)
  {
    assert GoodKey("ps1") && GoodKey("max") && GoodVal("petrush> ") && GoodVal("1000");
    assert forall i :: 0 <= i < |DEFAULTS| ==> WfEntries(DEFAULTS[i].entries);
  }

  // It is a configuration like any other but is not kept: the blank at the end of the prompt is lost.
  lemma DefaultsLoseTheBlank()
    ensures Wf(DEFAULTS) && Load([], Dump(DEFAULTS)) != Some(DEFAULTS)
    ensures Load([], Dump(DEFAULTS)) == Some([Section("prompt", [Entry("ps1", "petrush>")]), DEFAULTS[1]])
  {
    hide Load, Dump, Trim, Wf;
    DefaultsWf();
    DefaultsTrimmed();
    ReloadTrims(DEFAULTS);
    var t := TrimAll(DEFAULTS);
    assert t[0].entries == [Entry("ps1", "petrush>")] && t[1].entries == DEFAULTS[1].entries;
    assert t == [Section("prompt", [Entry("ps1", "petrush>")]), DEFAULTS[1]];
    assert DEFAULTS[0].entries[0].val != t[0].entries[0].val;
  }
}
