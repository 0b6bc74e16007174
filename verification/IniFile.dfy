// The loader and the dumper as the code runs them: one line buffer that is trimmed and cut in
// place, and an array of sections that is filled from the front.
module IniFile {
  import opened CStrings
  import opened Ini
  import opened IniLaws

  // The buffer holds the string s from `at` on.
  ghost predicate Holds(line: array<char>, at: nat, s: string)
    reads line
  {
    at + |s| < line.Length && line[at..at + |s|] == s && NUL !in s && line[at + |s|] == NUL
  }

  // Each character of the string in the buffer.
  lemma CharAt(line: array<char>, at: nat, s: string)
    requires Holds(line, at, s)
    ensures forall k :: 0 <= k < |s| ==> line[at + k] == s[k] && line[at + k] != NUL
  {
    assert forall k :: 0 <= k < |s| ==> line[at..at + |s|][k] == s[k];
  }

  // strlen
  method StrLen(line: array<char>, at: nat, ghost s: string) returns (n: nat)
    requires Holds(line, at, s)
    ensures n == |s|
  {
    CharAt(line, at, s);
    n := 0;
    while line[at + n] != NUL
      invariant n <= |s|
      decreases |s| - n
    {
      n := n + 1;
    }
  }

  // strchr; the length of the string when there is none.
  method StrChr(line: array<char>, at: nat, c: char, ghost s: string) returns (n: nat)
    requires Holds(line, at, s) && c != NUL
    ensures n == IndexOf(s, c)
  {
    CharAt(line, at, s);
    n := 0;
    while line[at + n] != NUL && line[at + n] != c
      invariant n <= |s| && c !in s[..n]
      decreases |s| - n
    {
      n := n + 1;
    }
    IndexOfIs(s, c, n);
  }

  // memmove of a string and its NUL to a lower place.
  method MoveDown(line: array<char>, from: nat, to: nat, ghost s: string)
    requires to < from && Holds(line, from, s)
    modifies line
    ensures Holds(line, to, s)
    ensures forall j :: 0 <= j < to || from + |s| < j < line.Length ==> line[j] == old(line[j])
  {
    CharAt(line, from, s);
    var n := StrLen(line, from, s);
    ghost var t := s + [NUL];
    assert forall j :: 0 <= j <= |s| ==> line[from + j] == t[j];
    for k := 0 to n + 1
      invariant forall j :: 0 <= j < to || from + k <= j < line.Length ==> line[j] == old(line[j])
      invariant line[to..to + k] == t[..k]
    {
      assert line[from + k] == t[k];
      line[to + k] := line[from + k];
      assert t[..k + 1] == t[..k] + [t[k]];
    }
    assert line[to..to + |s|] == s by {
      assert line[to..to + |s|] == line[to..to + n + 1][..n];
    }
    assert line[to + |s|] == line[to..to + n + 1][n];
  }

  // The second half of trim_inplace.
  method CutBlanks(line: array<char>, at: nat, ghost s: string)
    requires Holds(line, at, s)
    modifies line
    ensures Holds(line, at, TrimRight(s))
    ensures forall j :: 0 <= j < at || at + |s| < j < line.Length ==> line[j] == old(line[j])
  {
    var n: nat := StrLen(line, at, s);
    assert s[..n] == s;
    while n > 0 && IsBlank(line[at + n - 1])
      invariant n <= |s| && Holds(line, at, s[..n]) && TrimRight(s[..n]) == TrimRight(s)
      invariant forall j :: 0 <= j < at || at + |s| < j < line.Length ==> line[j] == old(line[j])
    {
      CharAt(line, at, s[..n]);
      assert s[..n][..n - 1] == s[..n - 1];
      n := n - 1;
      line[at + n] := NUL;
      assert line[at..at + n] == s[..n];
    }
    CharAt(line, at, s[..n]);
    TrimRightStays(s[..n]);
  }

  // src/cxx/config.cpp:20
  method TrimInPlace(line: array<char>, at: nat, ghost s: string)
    requires Holds(line, at, s)
    modifies line
    ensures Holds(line, at, Trim(s))
    ensures forall j :: 0 <= j < at || at + |s| < j < line.Length ==> line[j] == old(line[j])
  {
    hide TrimRight;
    var start := at;
    CharAt(line, at, s);
    while line[start] != NUL && IsBlank(line[start])
      invariant at <= start <= at + |s| && SkipBlanks(s[start - at..]) == SkipBlanks(s)
      decreases at + |s| - start
    {
      assert s[start - at..][1..] == s[start + 1 - at..];
      start := start + 1;
    }
    ghost var left := s[start - at..];
    SkipBlanksStays(left);
    assert line[start..start + |left|] == left;
    if start != at {
      MoveDown(line, start, at, left);
    }
    CutBlanks(line, at, left);
  }

  // The string in the buffer, taken out.
  method CString(line: array<char>, at: nat, ghost s: string) returns (r: string)
    requires Holds(line, at, s)
    ensures r == s
  {
    var n := StrLen(line, at, s);
    r := line[at..at + n];
  }

  // A string is cut in two where a character of it is overwritten by NUL.
  method Cut(line: array<char>, at: nat, k: nat, ghost s: string)
    requires Holds(line, at, s) && k < |s|
    modifies line
    ensures Holds(line, at, s[..k]) && Holds(line, at + k + 1, s[k + 1..])
  {
    CharAt(line, at, s);
    line[at + k] := NUL;
    assert line[at..at + k] == s[..k];
    assert line[at + k + 1..at + |s|] == s[k + 1..];
  }

  // fgets: up to a newline, the end, or a full buffer. The buffer then holds what C takes it to hold.
  method FGets(text: string, pos: nat, line: array<char>) returns (len: nat)
    requires pos < |text| && line.Length == MAX_LINE
    modifies line
    ensures len == ChunkLen(text[pos..]) && Holds(line, 0, BufferText(text[pos..][..len]))
  {
    ghost var rest := text[pos..];
    len := 0;
    var more := true;
    while more && len < MAX_LINE - 1 && pos + len < |text|
      invariant len <= MAX_LINE - 1 && pos + len <= |text|
      invariant line[..len] == rest[..len]
      invariant more ==> '\n' !in rest[..len]
      invariant !more ==> len > 0 && rest[len - 1] == '\n' && '\n' !in rest[..len - 1]
      decreases |text| - pos - len, more
    {
      var c := text[pos + len];
      assert c == rest[len];
      line[len] := c;
      assert rest[..len + 1] == rest[..len] + [c];
      if c == '\n' {
        more := false;
        assert rest[..len + 1 - 1] == rest[..len];
      }
      len := len + 1;
    }
    line[len] := NUL;
    ChunkIs(rest, len, more);
    ghost var k := IndexOf(rest[..len], NUL);
    assert line[..len] == rest[..len];
    assert line[0..0 + k] == rest[..len][..k];
  }

  lemma ChunkIs(rest: string, len: nat, more: bool)
    requires rest != [] && len <= |rest| && len <= MAX_LINE - 1
    requires more ==> '\n' !in rest[..len] && (len == MAX_LINE - 1 || len == |rest|)
    requires !more ==> len > 0 && rest[len - 1] == '\n' && '\n' !in rest[..len - 1]
    ensures ChunkLen(rest) == len
  {
    if !more {
      IndexOfIs(rest, '\n', len - 1);
    } else {
      assert forall j :: 0 <= j < len ==> rest[..len][j] == rest[j];
    }
  }

  // The name in a section header, cut out at the first ]; None for a bad header.
  method HeaderName(line: array<char>, ghost t: string) returns (name: Option<string>)
    requires Holds(line, 0, t) && t != [] && t[0] == '['
    modifies line
    ensures Classify(t) == if name.Some? then Header(name.value) else Malformed
  {
    CharAt(line, 0, t);
    var end := StrChr(line, 0, ']', t);
    if line[end] == NUL || end == 1 {
      return None;
    }
    Cut(line, 0, end, t);
    assert line[1..end] == line[0..end][1..];
    assert line[1..1 + |t[1..end]|] == t[1..end];
    var n := CString(line, 1, t[1..end]);
    return Some(n);
  }

  // The key and the value of a line, cut at the first = and trimmed where they stand.
  method KeyAndValue(line: array<char>, eq: nat, ghost t: string) returns (key: string, val: string)
    requires Holds(line, 0, t) && eq == IndexOf(t, '=') < |t|
    modifies line
    ensures key == Trim(t[..eq]) && val == Trim(t[eq + 1..])
  {
    hide Trim;
    Cut(line, 0, eq, t);
    label L:
    TrimInPlace(line, 0, t[..eq]);
    StillHolds@L(line, eq + 1, t[eq + 1..]);
    key := CString(line, 0, Trim(t[..eq]));
    TrimInPlace(line, eq + 1, t[eq + 1..]);
    val := CString(line, eq + 1, Trim(t[eq + 1..]));
  }

  twostate lemma StillHolds(line: array<char>, new at: nat, new s: string)
    requires old(Holds(line, at, s)) && forall j :: at <= j <= at + |s| ==> line[j] == old(line[j])
    ensures Holds(line, at, s)
  {
    assert old(line[at..at + |s|]) == line[at..at + |s|];
  }

  class Config {
    const sections: array<Section>
    var n: nat

    constructor ()
      ensures Valid() && fresh(sections) && Content() == []
    {
      sections := new Section[MAX_SECTIONS](_ => Section("", []));
      n := 0;
    }

    ghost predicate Valid()
      reads this
    {
      sections.Length == MAX_SECTIONS && n <= MAX_SECTIONS
    }

    ghost function Content(): seq<Section>
      requires Valid()
      reads this, sections
    {
      sections[..n]
    }

    // src/cxx/config.cpp:126
    method FindSection(name: string) returns (r: Option<nat>)
      requires Valid()
      ensures r.Some? <==> HasSection(Content(), name)
      ensures r.Some? ==> r.value < n && sections[r.value].name == name
    {
      for i := 0 to n
        invariant !HasSection(sections[..i], name)
      {
        if sections[i].name == name {
          assert Content()[i].name == name;
          return Some(i);
        }
      }
      return None;
    }

    // src/cxx/config.cpp:56
    method AddSection(name: string) returns (r: Option<nat>)
      requires Valid()
      modifies this, sections
      ensures Valid()
      ensures r == if Ini.AddSection(old(Content()), name).Some? then Some(old(n)) else None
      ensures r.Some? ==> Content() == Ini.AddSection(old(Content()), name).value
      ensures r.None? ==> Content() == old(Content())
    {
      if name == "" {
        return None;
      }
      if n >= MAX_SECTIONS {
        return None;
      }
      n := n + 1;
      sections[n - 1] := Section("", []);
      if |name| + 1 > MAX_SECTION_NAME {
        n := n - 1;
        return None;
      }
      sections[n - 1] := Section(name, []);
      return Some(n - 1);
    }

    // src/cxx/config.cpp:75
    method AddEntry(i: nat, key: string, val: string) returns (rc: int)
      requires Valid() && i < n
      modifies sections
      ensures rc == if Ini.AddEntry(old(sections[i]), key, val).Some? then 0 else -1
      ensures sections[..] == old(sections[..])[i := if rc == 0 then Ini.AddEntry(old(sections[i]), key, val).value
                                                     else old(sections[i])]
    {
      if key == "" {
        return -1;
      }
      var sec := sections[i];
      for k := 0 to |sec.entries|
        modifies {}
        invariant !HasKey(sec.entries[..k], key)
      {
        if sec.entries[k].key == key {
          return -1;
        }
      }
      assert sec.entries[..|sec.entries|] == sec.entries;
      if |sec.entries| >= MAX_ENTRIES || |key| + 1 > MAX_KEY || |val| + 1 > MAX_VAL {
        return -1;
      }
      sections[i] := sec.(entries := sec.entries + [Entry(key, val)]);
      return 0;
    }

    // src/cxx/config.cpp:212-266: one line in the buffer; `cur` is the section begun last, -1 for none.
    method TakeLine(line: array<char>, cur: int, ghost s: string) returns (ok: bool, next: int)
      requires Valid() && Holds(line, 0, s) && cur == n - 1
      modifies this, sections, line
      ensures Valid() && next == n - 1
      ensures var r := Step(old(Content()), Classify(Trim(s)));
              ok == r.Some? && (ok ==> Content() == r.value)
    {
      hide Trim;
      ghost var was := Content();
      next := cur;
      TrimInPlace(line, 0, s);
      ghost var t := Trim(s);
      CharAt(line, 0, t);
      if line[0] == NUL || line[0] == '#' || line[0] == ';' {
        return true, next;
      }
      if line[0] == '[' {
        var name := HeaderName(line, t);
        if name.None? || !IsKnown(name.value) {
          return false, next;
        }
        var found := FindSection(name.value);
        if found.Some? {
          return false, next;
        }
        var added := AddSection(name.value);
        if added.None? {
          return false, next;
        }
        return true, added.value;
      }
      if cur < 0 {
        return false, next;
      }
      var eq := StrChr(line, 0, '=', t);
      if line[eq] == NUL {
        return false, next;
      }
      var key, val := KeyAndValue(line, eq, t);
      if key == "" {
        return false, next;
      }
      var rc := AddEntry(cur, key, val);
      return rc == 0, next;
    }

    // src/cxx/config.cpp:181, for a file that could be opened, with this text.
    method LoadText(text: string) returns (rc: int)
      requires Valid() && Content() == []
      modifies this, sections
      ensures Valid() && rc == (if Load([], text).Some? then 0 else -1)
      ensures rc == 0 ==> Load([], text) == Some(Content()) && Wf(Content()) && Trimmed(Content())
    {
      hide Load, Step, Classify, Trim, Wf, Trimmed, BufferText;
      var cur := -1;
      var line := new char[MAX_LINE](_ => NUL);
      var pos := 0;
      assert text[0..] == text;
      while pos < |text|
        invariant Valid() && cur == n - 1 && pos <= |text|
        invariant Load(Content(), text[pos..]) == Load([], text)
      {
        ghost var s := BufferText(text[pos..][..ChunkLen(text[pos..])]);
        LoadStep(Content(), text[pos..]);
        var len := FGets(text, pos, line);
        var strlen := StrLen(line, 0, s);
        CharAt(line, 0, s);
        if strlen + 1 == MAX_LINE && line[strlen - 1] != '\n' {
          return -1;
        }
        var ok;
        ok, cur := TakeLine(line, cur, s);
        if !ok {
          return -1;
        }
        assert text[pos..][len..] == text[pos + len..];
        pos := pos + len;
      }
      LoadEnd(Content(), text[pos..]);
      NothingIsWf();
      LoadedIsWf([], text);
      return 0;
    }

    // src/cxx/config.cpp:273-302; `section` None for all of them.
    method DumpConfig(section: Option<string>) returns (rc: int, out: string)
      requires Valid()
      ensures section.None? || section.value == "" ==> rc == 0 && out == Dump(Content())
      ensures section.Some? && section.value != "" ==>
                && rc == (if HasSection(Content(), section.value) then 0 else 1)
                && (rc == 0 ==>
                  exists i :: 0 <= i < n && sections[i].name == section.value && out == DumpSection(sections[i]))
    {
      if section.Some? && section.value != "" {
        var i := FindSection(section.value);
        if i.None? {
          return 1, "";
        }
        return 0, DumpSection(sections[i.value]);
      }
      out := "";
      for i := 0 to n
        invariant out == Dump(sections[..i])
      {
        if i > 0 {
          out := out + "\n";
        }
        DumpMore(sections[..i], sections[i]);
        assert sections[..i + 1] == sections[..i] + [sections[i]];
        out := out + DumpSection(sections[i]);
      }
      rc := 0;
    }
  }

  lemma NothingIsWf()
    ensures Wf([]) && Trimmed([])
  {
  }

  lemma LoadStep(secs: seq<Section>, text: string)
    requires text != []
    ensures var n := ChunkLen(text); var s := BufferText(text[..n]); var r := Step(secs, Classify(Trim(s)));
            Load(secs, text) == if IsTruncated(s) || r.None? then None else Load(r.value, text[n..])
  {
  }

  lemma LoadEnd(secs: seq<Section>, text: string)
    requires text == []
    ensures Load(secs, text) == Some(secs)
  {
  }

  // One section more, at the end.
  lemma {:induction false} DumpMore(secs: seq<Section>, sec: Section)
    ensures Dump(secs + [sec]) == (if secs == [] then "" else Dump(secs) + "\n") + DumpSection(sec)
  {
    hide DumpSection;
    if secs == [] {
      assert secs + [sec] == [sec];
      assert Dump([sec][1..]) == "";
    } else {
      var rest := secs[1..];
      assert (secs + [sec])[0] == secs[0] && (secs + [sec])[1..] == rest + [sec];
      DumpMore(rest, sec);
      var a, gap := DumpSection(secs[0]), if |secs| > 1 then "\n" else "";
      if rest == [] {
        assert Dump(rest) == "";
        assert a + "" + "" == a;
      } else {
        RegroupDump(a, Dump(rest), DumpSection(sec));
      }
    }
  }

  lemma RegroupDump(a: string, b: string, c: string)
    ensures a + "\n" + (b + "\n" + c) == a + "\n" + b + "\n" + c
  {
  }
}
