// The here-document feeder of src/mid/parser.c:2104-2357: a walk over the tree of command objects
// that hands each line to the first command still waiting for one.
module HereDocFeed {
  import opened Ast
  import opened CStrings
  import opened Clone
  import opened HereDocs

  // The first command, in document order, that waits for lines.
  ghost function FirstOf(cells: seq<CmdCell>): (r: Option<CmdCell>)
    reads CellSet(cells)`cmd
    ensures r.Some? ==> r.value in CellSet(cells) && Pending(r.value.cmd)
    ensures r.None? ==> forall c :: c in CellSet(cells) ==> !Pending(c.cmd)
  {
    if cells == [] then None
    else
      assert cells[0] in CellSet(cells) && CellSet(cells) == {cells[0]} + CellSet(cells[1..]);
      if Pending(cells[0].cmd) then Some(cells[0])
      else FirstOf(cells[1..])
  }

  lemma {:induction false} FirstOfBoth(a: seq<CmdCell>, b: seq<CmdCell>)
    ensures FirstOf(a + b) == if FirstOf(a).Some? then FirstOf(a) else FirstOf(b)
  {
    if a == [] {
      assert a + b == b;
    } else {
      assert (a + b)[1..] == a[1..] + b;
      FirstOfBoth(a[1..], b);
    }
  }

  // The part of a tree that has been passed over decides alone when it holds the first command.
  lemma {:induction false} FirstOfPrefix(list: seq<HItem>, i: nat)
    requires i < |list| && FirstOf(Refs(list[..i])).None?
    ensures FirstOf(ItemRefs(list[i])).Some? ==> FirstOf(Refs(list)) == FirstOf(ItemRefs(list[i]))
    ensures FirstOf(ItemRefs(list[i])).None? ==> FirstOf(Refs(list[..i + 1])).None?
  {
    var n := |list| - 1;
    FirstOfBoth(Refs(list[..n]), ItemRefs(list[n]));
    if i == n {
      assert list[..n + 1] == list;
    } else {
      assert list[..n][..i] == list[..i] && list[..n][..i + 1] == list[..i + 1];
      FirstOfPrefix(list[..n], i);
    }
  }

  lemma {:induction false} FirstOfArms(arms: seq<HArm>, i: nat)
    requires i < |arms| && FirstOf(ArmRefs(arms[..i])).None?
    ensures FirstOf(OneArmRefs(arms[i])).Some? ==> FirstOf(ArmRefs(arms)) == FirstOf(OneArmRefs(arms[i]))
    ensures FirstOf(OneArmRefs(arms[i])).None? ==> FirstOf(ArmRefs(arms[..i + 1])).None?
  {
    var n := |arms| - 1;
    FirstOfBoth(ArmRefs(arms[..n]), OneArmRefs(arms[n]));
    if i == n {
      assert arms[..n + 1] == arms;
    } else {
      assert arms[..n][..i] == arms[..i] && arms[..n][..i + 1] == arms[..i + 1];
      FirstOfArms(arms[..n], i);
    }
  }

  lemma {:induction false} FirstOfBranches(branches: seq<HBranch>, i: nat)
    requires i < |branches| && FirstOf(BranchRefs(branches[..i])).None?
    ensures FirstOf(Refs(branches[i].body)).Some? ==> FirstOf(BranchRefs(branches)) == FirstOf(Refs(branches[i].body))
    ensures FirstOf(Refs(branches[i].body)).None? ==> FirstOf(BranchRefs(branches[..i + 1])).None?
  {
    var n := |branches| - 1;
    FirstOfBoth(BranchRefs(branches[..n]), Refs(branches[n].body));
    if i == n {
      assert branches[..n + 1] == branches;
    } else {
      assert branches[..n][..i] == branches[..i] && branches[..n][..i + 1] == branches[..i + 1];
      FirstOfBranches(branches[..n], i);
    }
  }

  // ---- is anything pending ----

  // src/mid/parser.c:2161
  method ListPending(list: seq<HItem>) returns (b: bool)
    ensures b == FirstOf(Refs(list)).Some?
    decreases list
  {
    hide Refs, ItemRefs, FirstOf;
    NothingYet();
    for i := 0 to |list|
      invariant FirstOf(Refs(list[..i])).None?
    {
      assert allocated(CellSet(Refs(list))) && allocated(CellSet(Refs(list[..i])));
      var p := ItemPending(list[i]);
      FirstOfPrefix(list, i);
      if p {
        return true;
      }
    }
    assert list[..|list|] == list;
    return false;
  }

  lemma NothingYet()
    ensures FirstOf([]).None? && Refs([]) == [] && ArmRefs([]) == [] && BranchRefs([]) == []
  {
  }

  // src/mid/parser.c:2117
  method ItemPending(item: HItem) returns (b: bool)
    ensures b == FirstOf(ItemRefs(item)).Some?
    decreases item
  {
    hide Refs, FirstOf, ArmRefs, BranchRefs;
    NothingYet();
    match item.kind
    case HPipeline(cmds) =>
      for i := 0 to |cmds|
        invariant FirstOf(cmds[..i]).None?
      {
        StepCells(cmds, i);
        if Pending(cmds[i].cmd) {
          return true;
        }
      }
      assert cmds[..|cmds|] == cmds;
      return false;
    case HIf(arms) =>
      for a := 0 to |arms|
        invariant FirstOf(ArmRefs(arms[..a])).None?
      {
        assert allocated(CellSet(ArmRefs(arms))) && allocated(CellSet(ArmRefs(arms[..a])));
        var p := ArmPending(arms[a]);
        FirstOfArms(arms, a);
        if p {
          return true;
        }
      }
      assert arms[..|arms|] == arms;
      return false;
    case HWhile(test, loop) =>
      assert allocated(CellSet(Refs(test) + Refs(loop))) && allocated(CellSet(Refs(test)));
      b := ListPending(test);
      FirstOfBoth(Refs(test), Refs(loop));
      if !b {
        b := ListPending(loop);
      }
    case HFor(_, _, each) => b := ListPending(each);
    case HFn(_, body) => b := ListPending(body);
    case HCase(_, branches) =>
      for a := 0 to |branches|
        invariant FirstOf(BranchRefs(branches[..a])).None?
      {
        assert allocated(CellSet(BranchRefs(branches))) && allocated(CellSet(BranchRefs(branches[..a])));
        var p := ListPending(branches[a].body);
        FirstOfBranches(branches, a);
        if p {
          return true;
        }
      }
      assert branches[..|branches|] == branches;
      return false;
    case HDBracket(_, _) => return false;
  }

  method ArmPending(arm: HArm) returns (b: bool)
    ensures b == FirstOf(OneArmRefs(arm)).Some?
    decreases arm
  {
    hide Refs, FirstOf;
    assert allocated(CellSet(OneArmRefs(arm))) && allocated(CellSet(Refs(arm.cond)));
    b := ListPending(arm.cond);
    FirstOfBoth(Refs(arm.cond), Refs(arm.body));
    if !b {
      b := ListPending(arm.body);
    }
  }

  lemma StepCells(cells: seq<CmdCell>, i: nat)
    requires i < |cells| && FirstOf(cells[..i]).None?
    ensures Pending(cells[i].cmd) ==> FirstOf(cells) == Some(cells[i])
    ensures !Pending(cells[i].cmd) ==> FirstOf(cells[..i + 1]).None?
  {
    assert cells == cells[..i] + cells[i..] && cells[..i + 1] == cells[..i] + [cells[i]];
    FirstOfBoth(cells[..i], cells[i..]);
    FirstOfBoth(cells[..i], [cells[i]]);
  }

  // ---- feeding a line ----

  // src/mid/parser.c:2194
  method BodyAppend(cell: CmdCell, line: string) returns (rc: int)
    modifies cell
    ensures rc == if |Body(old(cell.cmd))| + |line| + 1 > MAX_BODY then -1 else 0
    ensures cell.cmd == if rc != 0 then old(cell.cmd)
                        else old(cell.cmd).(hereBody := Some(Body(old(cell.cmd)) + line + "\n"))
  {
    var oldLen := if cell.cmd.hereBody.Some? then |cell.cmd.hereBody.value| else 0;
    if oldLen > MAX_BODY || |line| > MAX_BODY - oldLen || 1 > MAX_BODY - oldLen - |line| {
      return -1;
    }
    var body := if cell.cmd.hereBody.Some? then cell.cmd.hereBody.value else "";
    cell.cmd := cell.cmd.(hereBody := Some(body + line + "\n"));
    return 0;
  }

  // src/mid/parser.c:2218
  method CmdFeed(cell: CmdCell, line: Option<string>) returns (rc: int, ate: bool)
    modifies cell
    ensures !old(Pending(cell.cmd)) ==> rc == 0 && !ate && cell.cmd == old(cell.cmd)
    ensures old(Pending(cell.cmd)) ==> Feed(rc, cell.cmd) == FeedCmd(old(cell.cmd), line) && ate == line.Some?
  {
    ate := false;
    if !Pending(cell.cmd) {
      return 0, false;
    }
    if line.None? {
      return -1, false;
    }
    var c := cell.cmd;
    var delim := if c.hereFeed < |c.hereSkips| then c.hereSkips[c.hereFeed] else c.hereDelim.value;
    ate := true;
    var cmp := line.value;
    if c.hereStrip {
      while cmp != [] && cmp[0] == '\t'
        invariant WithoutTabs(cmp) == WithoutTabs(line.value)
        decreases |cmp|
      {
        cmp := cmp[1..];
      }
    }
    if cmp == delim {
      var fillingMain := c.hereFeed == |c.hereSkips|;
      if !fillingMain {
        cell.cmd := cell.cmd.(hereBody := None);
      }
      if fillingMain && cell.cmd.hereBody.None? {
        cell.cmd := cell.cmd.(hereBody := Some(""));
      }
      cell.cmd := cell.cmd.(hereFeed := cell.cmd.hereFeed + 1);
      rc := if Pending(cell.cmd) then 1 else 0;
      return;
    }
    var failed := BodyAppend(cell, cmp);
    rc := if failed != 0 then -1 else 1;
  }

  // Each method says which command was hit: the first that waited. Nothing else changes.

  // src/mid/parser.c:2322
  method ListFeed(list: seq<HItem>, line: Option<string>)
      returns (rc: int, ate: bool, ghost hit: Option<CmdCell>)
    modifies CellSet(Refs(list))
    ensures hit == old(FirstOf(Refs(list)))
    ensures hit.None? ==> rc == 0 && !ate
    ensures hit.Some? ==> Feed(rc, hit.value.cmd) == FeedCmd(old(hit.value.cmd), line) && ate == line.Some?
    ensures forall c :: c in CellSet(Refs(list)) && hit != Some(c) ==> c.cmd == old(c.cmd)
    decreases list
  {
    hide Refs, ItemRefs, FirstOf;
    NothingYet();
    assert allocated(CellSet(Refs(list)));
    for i := 0 to |list|
      invariant forall c :: c in CellSet(Refs(list)) ==> c.cmd == old(c.cmd)
      invariant FirstOf(Refs(list[..i])).None? && FirstOf(Refs(list)) == old(FirstOf(Refs(list)))
    {
      assert allocated(CellSet(Refs(list))) && allocated(CellSet(Refs(list[..i])));
      var p := ItemPending(list[i]);
      FirstOfPrefix(list, i);
      if p {
        RefsOf(list, i);
        rc, ate, hit := ItemFeed(list[i], line);
        return;
      }
    }
    assert list[..|list|] == list;
    return 0, false, None;
  }

  lemma {:induction false} RefsOf(list: seq<HItem>, i: nat)
    requires i < |list|
    ensures CellSet(ItemRefs(list[i])) <= CellSet(Refs(list))
  {
    var n := |list| - 1;
    if i < n {
      RefsOf(list[..n], i);
    }
    assert CellSet(Refs(list)) == CellSet(Refs(list[..n])) + CellSet(ItemRefs(list[n]));
  }

  // src/mid/parser.c:2267
  method ItemFeed(item: HItem, line: Option<string>)
      returns (rc: int, ate: bool, ghost hit: Option<CmdCell>)
    modifies CellSet(ItemRefs(item))
    ensures hit == old(FirstOf(ItemRefs(item)))
    ensures hit.None? ==> rc == 0 && !ate
    ensures hit.Some? ==> Feed(rc, hit.value.cmd) == FeedCmd(old(hit.value.cmd), line) && ate == line.Some?
    ensures forall c :: c in CellSet(ItemRefs(item)) && hit != Some(c) ==> c.cmd == old(c.cmd)
    decreases item
  {
    hide Refs, ArmRefs, BranchRefs, FirstOf, FeedCmd;
    NothingYet();
    assert allocated(CellSet(ItemRefs(item)));
    match item.kind
    case HPipeline(cmds) => rc, ate, hit := PipelineFeed(cmds, line);
    case HIf(arms) => rc, ate, hit := ArmsFeed(arms, line);
    case HWhile(test, loop) =>
      SetOfBoth(Refs(test), Refs(loop));
      FirstOfBoth(Refs(test), Refs(loop));
      assert allocated(CellSet(Refs(loop)));
      rc, ate, hit := ListFeed(test, line);
      if !(ate || rc < 0) {
        FeedNeverIdle(line);
        rc, ate, hit := ListFeed(loop, line);
      }
    case HFor(_, _, each) => rc, ate, hit := ListFeed(each, line);
    case HFn(_, body) => rc, ate, hit := ListFeed(body, line);
    case HCase(_, branches) => rc, ate, hit := BranchesFeed(branches, line);
    case HDBracket(_, _) => return 0, false, None;
  }

  method PipelineFeed(cmds: seq<CmdCell>, line: Option<string>)
      returns (rc: int, ate: bool, ghost hit: Option<CmdCell>)
    modifies CellSet(cmds)
    ensures hit == old(FirstOf(cmds))
    ensures hit.None? ==> rc == 0 && !ate
    ensures hit.Some? ==> Feed(rc, hit.value.cmd) == FeedCmd(old(hit.value.cmd), line) && ate == line.Some?
    ensures forall c :: c in CellSet(cmds) && hit != Some(c) ==> c.cmd == old(c.cmd)
  {
    hide FirstOf;
    NothingYet();
    for i := 0 to |cmds|
      invariant forall c :: c in CellSet(cmds) ==> c.cmd == old(c.cmd)
      invariant FirstOf(cmds[..i]).None? && FirstOf(cmds) == old(FirstOf(cmds))
    {
      StepCells(cmds, i);
      if Pending(cmds[i].cmd) {
        assert cmds[i] in CellSet(cmds);
        rc, ate := CmdFeed(cmds[i], line);
        return rc, ate, Some(cmds[i]);
      }
    }
    assert cmds[..|cmds|] == cmds;
    return 0, false, None;
  }

  lemma SetOfBoth(a: seq<CmdCell>, b: seq<CmdCell>)
    ensures CellSet(a + b) == CellSet(a) + CellSet(b)
  {
  }

  // Feeding a waiting command shows: it fails or the line is eaten.
  lemma FeedNeverIdle(line: Option<string>)
    ensures forall c: Cmd :: Pending(c) && line.None? ==> FeedCmd(c, line).rc < 0
  {
  }

  method ArmsFeed(arms: seq<HArm>, line: Option<string>)
      returns (rc: int, ate: bool, ghost hit: Option<CmdCell>)
    modifies CellSet(ArmRefs(arms))
    ensures hit == old(FirstOf(ArmRefs(arms)))
    ensures hit.None? ==> rc == 0 && !ate
    ensures hit.Some? ==> Feed(rc, hit.value.cmd) == FeedCmd(old(hit.value.cmd), line) && ate == line.Some?
    ensures forall c :: c in CellSet(ArmRefs(arms)) && hit != Some(c) ==> c.cmd == old(c.cmd)
    decreases arms
  {
    hide FirstOf, FeedCmd, OneArmRefs, ArmRefs;
    NothingYet();
    FeedNeverIdle(line);
    assert allocated(CellSet(ArmRefs(arms)));
    for a := 0 to |arms|
      invariant FirstOf(ArmRefs(arms[..a])).None? && FirstOf(ArmRefs(arms)) == old(FirstOf(ArmRefs(arms)))
      invariant forall c :: c in CellSet(ArmRefs(arms)) ==> c.cmd == old(c.cmd)
    {
      ArmRefsOf(arms, a);
      FirstOfArms(arms, a);
      assert allocated(CellSet(ArmRefs(arms))) && allocated(CellSet(ArmRefs(arms[..a + 1])));
      rc, ate, hit := ArmFeed(arms[a], line);
      if ate || rc < 0 {
        return;
      }
    }
    assert arms[..|arms|] == arms;
    return 0, false, None;
  }

  lemma {:induction false} ArmRefsOf(arms: seq<HArm>, i: nat)
    requires i < |arms|
    ensures CellSet(OneArmRefs(arms[i])) <= CellSet(ArmRefs(arms))
    ensures CellSet(ArmRefs(arms[..i + 1])) <= CellSet(ArmRefs(arms))
  {
    var n := |arms| - 1;
    if i < n {
      ArmRefsOf(arms[..n], i);
      assert arms[..n][..i + 1] == arms[..i + 1];
    } else {
      assert arms[..i + 1] == arms;
    }
    SetOfBoth(ArmRefs(arms[..n]), OneArmRefs(arms[n]));
  }

  method ArmFeed(arm: HArm, line: Option<string>)
      returns (rc: int, ate: bool, ghost hit: Option<CmdCell>)
    modifies CellSet(OneArmRefs(arm))
    ensures hit == old(FirstOf(OneArmRefs(arm)))
    ensures hit.None? ==> rc == 0 && !ate
    ensures hit.Some? ==> Feed(rc, hit.value.cmd) == FeedCmd(old(hit.value.cmd), line) && ate == line.Some?
    ensures forall c :: c in CellSet(OneArmRefs(arm)) && hit != Some(c) ==> c.cmd == old(c.cmd)
    decreases arm
  {
    hide FirstOf, FeedCmd, Refs;
    SetOfBoth(Refs(arm.cond), Refs(arm.body));
    FirstOfBoth(Refs(arm.cond), Refs(arm.body));
    FeedNeverIdle(line);
    assert allocated(CellSet(Refs(arm.body))) && allocated(CellSet(OneArmRefs(arm)));
    rc, ate, hit := ListFeed(arm.cond, line);
    if ate || rc < 0 {
      return;
    }
    rc, ate, hit := ListFeed(arm.body, line);
  }

  method BranchesFeed(branches: seq<HBranch>, line: Option<string>)
      returns (rc: int, ate: bool, ghost hit: Option<CmdCell>)
    modifies CellSet(BranchRefs(branches))
    ensures hit == old(FirstOf(BranchRefs(branches)))
    ensures hit.None? ==> rc == 0 && !ate
    ensures hit.Some? ==> Feed(rc, hit.value.cmd) == FeedCmd(old(hit.value.cmd), line) && ate == line.Some?
    ensures forall c :: c in CellSet(BranchRefs(branches)) && hit != Some(c) ==> c.cmd == old(c.cmd)
    decreases branches
  {
    hide FirstOf, FeedCmd, Refs, BranchRefs;
    NothingYet();
    FeedNeverIdle(line);
    assert allocated(CellSet(BranchRefs(branches)));
    for a := 0 to |branches|
      invariant FirstOf(BranchRefs(branches[..a])).None?
      invariant FirstOf(BranchRefs(branches)) == old(FirstOf(BranchRefs(branches)))
      invariant forall c :: c in CellSet(BranchRefs(branches)) ==> c.cmd == old(c.cmd)
    {
      BranchRefsOf(branches, a);
      FirstOfBranches(branches, a);
      assert allocated(CellSet(BranchRefs(branches))) && allocated(CellSet(BranchRefs(branches[..a + 1])));
      rc, ate, hit := ListFeed(branches[a].body, line);
      if ate || rc < 0 {
        return;
      }
    }
    assert branches[..|branches|] == branches;
    return 0, false, None;
  }

  lemma {:induction false} BranchRefsOf(branches: seq<HBranch>, i: nat)
    requires i < |branches|
    ensures CellSet(Refs(branches[i].body)) <= CellSet(BranchRefs(branches))
    ensures CellSet(BranchRefs(branches[..i + 1])) <= CellSet(BranchRefs(branches))
  {
    var n := |branches| - 1;
    if i < n {
      BranchRefsOf(branches[..n], i);
      assert branches[..n][..i + 1] == branches[..i + 1];
    } else {
      assert branches[..i + 1] == branches;
    }
    SetOfBoth(BranchRefs(branches[..n]), Refs(branches[n].body));
  }

  // ---- the whole list ----

  // Cells and the commands in them.
  lemma {:induction false} FirstOfIsFirst(cells: seq<CmdCell>)
    ensures FirstOf(cells).Some? == AnyPending(ViewCmds(cells))
    ensures FirstOf(cells).Some? ==> FirstOf(cells).value == cells[First(ViewCmds(cells))]
  {
    if cells != [] {
      var v := ViewCmds(cells);
      assert v[0] == cells[0].cmd && ViewCmds(cells[1..]) == v[1..];
      if !Pending(v[0]) {
        FirstOfIsFirst(cells[1..]);
        TailPending(v);
      }
    }
  }

  // src/mid/parser.c:2337
  method FeedOneLine(list: seq<HItem>, line: Option<string>) returns (rc: int)
    requires NoDup(Refs(list))
    modifies CellSet(Refs(list))
    ensures Fed(rc, ViewCmds(Refs(list))) == FeedLine(old(ViewCmds(Refs(list))), line)
  {
    hide Refs, FirstOf, FeedCmd, AnyPending, NoDup, First;
    ghost var cells := Refs(list);
    ghost var was := ViewCmds(cells);
    FirstOfIsFirst(cells);
    assert allocated(CellSet(cells));
    var pending := ListPending(list);
    if !pending {
      return 0;
    }
    ghost var k := First(was);
    var ate;
    ghost var hit;
    rc, ate, hit := ListFeed(list, line);
    assert hit == Some(cells[k]);
    OnlyOnce(cells, k);
    assert ViewCmds(cells) == was[k := FeedCmd(was[k], line).cmd];
    if rc < 0 {
      return -1;
    }
    FirstOfIsFirst(cells);
    assert allocated(CellSet(cells));
    pending := ListPending(list);
    NoLineFails(was[k]);
    if line.None? && pending {
      return -1;
    }
    return if pending then 1 else 0;
  }

  lemma NoLineFails(c: Cmd)
    requires Pending(c)
    ensures FeedCmd(c, None).rc < 0
  {
  }

  lemma EndOfInputFails(cmds: seq<Cmd>)
    requires AnyPending(cmds)
    ensures FeedLine(cmds, None) == Fed(-1, cmds)
  {
  }

  const LINE_SIZE: nat := 4096

  // The line handed on for what fgets read: up to a NUL, without its newline.
  function LineOf(chunk: string): string {
    var line := BufferText(chunk);
    if line != [] && line[|line| - 1] == '\n' then line[..|line| - 1] else line
  }

  // The lines of a text as they are read; one that is too long for the buffer comes in pieces.
  function Lines(text: string): seq<string>
    decreases |text|
  {
    if text == [] then []
    else [LineOf(text[..ReadLen(text, LINE_SIZE)])] + Lines(text[ReadLen(text, LINE_SIZE)..])
  }

  // One turn of the loop below: a line is read and fed, or the end of the input is.
  method FeedNext(list: seq<HItem>, text: string, from: nat) returns (rc: int, pos: nat)
    requires NoDup(Refs(list)) && from <= |text| && AnyPending(ViewCmds(Refs(list)))
    modifies CellSet(Refs(list))
    ensures from <= pos <= |text| && (rc >= 0 ==> from < pos)
    ensures var r := SplitLines(old(ViewCmds(Refs(list))), Lines(text[from..]));
            if rc < 0 then r.rc != 0 && r.cmds == ViewCmds(Refs(list))
            else r == SplitLines(ViewCmds(Refs(list)), Lines(text[pos..]))
  {
    hide Refs, NoDup, AnyPending, FeedLine, SplitLines, LineOf, ReadLen, ViewCmds;
    ghost var now := ViewCmds(Refs(list));
    pos := from;
    if pos == |text| {
      Starved(now);
      EndOfInputFails(now);
      rc := FeedOneLine(list, None);
      return;
    }
    var len := ReadLen(text[pos..], LINE_SIZE);
    var line := LineOf(text[pos..][..len]);
    NextLine(text, pos);
    hide Lines;
    LineStep(now, Lines(text[pos..]));
    LineCodes(now, Some(line));
    rc := FeedOneLine(list, Some(line));
    pos := pos + len;
  }

  // src/mid/source.c:24: after a line has been parsed, the text that follows it fills its bodies.
  // The bodies are those the rule assigns; 1 is returned when lines run out or a body is too long.
  method FillHereDocs(list: seq<HItem>, text: string, from: nat) returns (status: int, pos: nat)
    requires NoDup(Refs(list)) && from <= |text|
    modifies CellSet(Refs(list))
    ensures var r := SplitLines(old(ViewCmds(Refs(list))), Lines(text[from..]));
            && ViewCmds(Refs(list)) == r.cmds
            && status == (if r.rc == 0 then 0 else 1)
            && from <= pos <= |text| && (r.rc == 0 ==> r.rest == Lines(text[pos..]))
  {
    hide Refs, NoDup, AnyPending, SplitLines, Lines, ViewCmds, FirstOf;
    pos := from;
    var pending := ListPending(list);
    FirstOfIsFirst(Refs(list));
    while pending
      invariant from <= pos <= |text| && pending == AnyPending(ViewCmds(Refs(list)))
      invariant SplitLines(old(ViewCmds(Refs(list))), Lines(text[from..])) ==
                SplitLines(ViewCmds(Refs(list)), Lines(text[pos..]))
      decreases |text| - pos, pending
    {
      var rc, next := FeedNext(list, text, pos);
      pos := next;
      if rc < 0 {
        return 1, pos;
      }
      FirstOfIsFirst(Refs(list));
      pending := ListPending(list);
    }
    Idle(ViewCmds(Refs(list)), Lines(text[pos..]));
    return 0, pos;
  }

  lemma NextLine(text: string, pos: nat)
    requires pos < |text|
    ensures var len := ReadLen(text[pos..], LINE_SIZE);
            && pos + len <= |text|
            && Lines(text[pos..]) == [LineOf(text[pos..][..len])] + Lines(text[pos + len..])
  {
    var len := ReadLen(text[pos..], LINE_SIZE);
    assert text[pos..][len..] == text[pos + len..];
  }
}
