// Here-documents, the rule: which lines end up in which body. Section 2.7.4 of the Shell Command
// Language (POSIX.1-2017 XCU), as src/mid/parser.c:2104-2357 carries it out over the commands of
// a tree in document order.
module HereDocs {
  import opened Ast
  import opened CStrings

  const MAX_BODY: nat := 1024 * 1024

  function WithoutTabs(line: string): string {
    if line != [] && line[0] == '\t' then WithoutTabs(line[1..]) else line
  }

  // A line as << or <<- compares and keeps it.
  function Cut(c: Cmd, line: string): string {
    if c.hereStrip then WithoutTabs(line) else line
  }

  // The number of documents of a command: those to be dropped, then its own.
  function DocCount(c: Cmd): nat {
    if c.hereDelim.None? then 0 else |c.hereSkips| + 1
  }

  predicate Pending(c: Cmd) {
    c.hereFeed < DocCount(c)
  }

  predicate AnyPending(cmds: seq<Cmd>) {
    exists i :: 0 <= i < |cmds| && Pending(cmds[i])
  }

  function Delim(c: Cmd): string
    requires Pending(c)
  {
    if c.hereFeed < |c.hereSkips| then c.hereSkips[c.hereFeed] else c.hereDelim.value
  }

  // The text gathered so far.
  function Body(c: Cmd): string {
    if c.hereBody.None? then "" else c.hereBody.value
  }

  // ---- the rule: split the lines at the delimiters, one document after another ----

  function CloseAt(c: Cmd, delim: string, lines: seq<string>): (r: nat)
    ensures r <= |lines| && (r < |lines| ==> Cut(c, lines[r]) == delim)
    ensures forall i :: 0 <= i < r ==> Cut(c, lines[i]) != delim
  {
    if lines == [] || Cut(c, lines[0]) == delim then 0 else 1 + CloseAt(c, delim, lines[1..])
  }

  // Lines as body text, a newline after each.
  function Text(c: Cmd, lines: seq<string>): string {
    if lines == [] then "" else Cut(c, lines[0]) + "\n" + Text(c, lines[1..])
  }

  // How many lines still fit into a body that has `used` characters.
  function Fitting(c: Cmd, used: nat, lines: seq<string>): (r: nat)
    ensures r <= |lines|
    decreases |lines|
  {
    if lines == [] then 0
    else
      var more := used + |Cut(c, lines[0])| + 1;
      if more > MAX_BODY then 0 else 1 + Fitting(c, more, lines[1..])
  }

  // rc: 0 everything is filled, 1 lines are missing, -1 a body would become too long.
  datatype CmdSplit = CmdSplit(rc: int, cmd: Cmd, rest: seq<string>)

  datatype Split = Split(rc: int, cmds: seq<Cmd>, rest: seq<string>)

  function Gathered(c: Cmd, lines: seq<string>): Cmd {
    if lines == [] then c else c.(hereBody := Some(Body(c) + Text(c, lines)))
  }

  // The next document of a command: the lines up to the delimiter. What is dropped leaves no trace.
  function OneDoc(c: Cmd, lines: seq<string>): CmdSplit
    requires Pending(c)
  {
    var end := CloseAt(c, Delim(c), lines);
    var fit := Fitting(c, |Body(c)|, lines[..end]);
    if fit < end then CmdSplit(-1, Gathered(c, lines[..fit]), [])
    else if end == |lines| then CmdSplit(1, Gathered(c, lines), [])
    else
      var kept := if c.hereFeed < |c.hereSkips| then None else Some(Body(c) + Text(c, lines[..end]));
      CmdSplit(0, c.(hereBody := kept, hereFeed := c.hereFeed + 1), lines[end + 1..])
  }

  function SplitCmd(c: Cmd, lines: seq<string>): CmdSplit
    decreases DocCount(c) - c.hereFeed
  {
    if !Pending(c) then CmdSplit(0, c, lines)
    else
      var r := OneDoc(c, lines);
      if r.rc != 0 then r else SplitCmd(r.cmd, r.rest)
  }

  function SplitLines(cmds: seq<Cmd>, lines: seq<string>): Split {
    if cmds == [] then Split(0, [], lines)
    else
      var r := SplitCmd(cmds[0], lines);
      if r.rc != 0 then Split(r.rc, [r.cmd] + cmds[1..], r.rest)
      else
        var q := SplitLines(cmds[1..], r.rest);
        Split(q.rc, [r.cmd] + q.cmds, q.rest)
  }

  // ---- the machine: one line at a time ----

  datatype Feed = Feed(rc: int, cmd: Cmd)

  datatype Fed = Fed(rc: int, cmds: seq<Cmd>)

  // src/mid/parser.c:2218, cmd_heredoc_feed on a command that is pending; no line at end of input.
  function FeedCmd(c: Cmd, line: Option<string>): Feed
    requires Pending(c)
  {
    if line.None? then Feed(-1, c)
    else if Cut(c, line.value) == Delim(c) then
      var body := if c.hereFeed < |c.hereSkips| then None else Some(Body(c));
      var d := c.(hereBody := body, hereFeed := c.hereFeed + 1);
      Feed(if Pending(d) then 1 else 0, d)
    else if |Body(c)| + |Cut(c, line.value)| + 1 > MAX_BODY then Feed(-1, c)
    else Feed(1, c.(hereBody := Some(Body(c) + Cut(c, line.value) + "\n")))
  }

  function First(cmds: seq<Cmd>): (k: nat)
    requires AnyPending(cmds)
    ensures k < |cmds| && Pending(cmds[k]) && forall i :: 0 <= i < k ==> !Pending(cmds[i])
  {
    if Pending(cmds[0]) then 0
    else
      assert AnyPending(cmds[1..]) by {
        var i :| 0 <= i < |cmds| && Pending(cmds[i]);
        assert cmds[1..][i - 1] == cmds[i];
      }
      1 + First(cmds[1..])
  }

  // src/mid/parser.c:2337, petrush_heredoc_feed_line.
  function FeedLine(cmds: seq<Cmd>, line: Option<string>): (r: Fed)
    ensures |r.cmds| == |cmds|
  {
    if !AnyPending(cmds) then Fed(0, cmds)
    else
      var k := First(cmds);
      var f := FeedCmd(cmds[k], line);
      var after := cmds[k := f.cmd];
      Fed(if f.rc < 0 then -1 else if AnyPending(after) then 1 else 0, after)
  }

  // src/mid/source.c:24: lines are fed while something is pending.
  function FeedLines(cmds: seq<Cmd>, lines: seq<string>): Fed
    decreases |lines|
  {
    if !AnyPending(cmds) then Fed(0, cmds)
    else if lines == [] then Fed(1, cmds)
    else
      var r := FeedLine(cmds, Some(lines[0]));
      if r.rc < 0 then r else FeedLines(r.cmds, lines[1..])
  }

  // ---- the machine follows the rule ----

  lemma {:induction false} DocStep(c: Cmd, lines: seq<string>)
    requires Pending(c) && lines != []
    ensures var f := FeedCmd(c, Some(lines[0]));
            SplitCmd(c, lines) == if f.rc < 0 then CmdSplit(-1, f.cmd, []) else SplitCmd(f.cmd, lines[1..])
  {
    var f := FeedCmd(c, Some(lines[0]));
    var line := Cut(c, lines[0]);
    var end := CloseAt(c, Delim(c), lines);
    if line == Delim(c) {
      assert lines[..0] == [] && Text(c, []) == "";
      assert Body(c) + "" == Body(c);
    } else if |Body(c)| + |line| + 1 > MAX_BODY {
      assert lines[..end][0] == lines[0];
      assert lines[..0] == [];
    } else {
      KeepStep(c, f.cmd, lines);
    }
  }

  // A line that is kept: the document goes on from the longer body.
  lemma KeepStep(c: Cmd, d: Cmd, lines: seq<string>)
    requires Pending(c) && lines != [] && Cut(c, lines[0]) != Delim(c)
    requires |Body(c)| + |Cut(c, lines[0])| + 1 <= MAX_BODY
    requires d == c.(hereBody := Some(Body(c) + Cut(c, lines[0]) + "\n"))
    ensures OneDoc(c, lines) == OneDoc(d, lines[1..])
  {
    hide Cut, Text, Gathered;
    var rest := lines[1..];
    var end := CloseAt(c, Delim(c), lines);
    SameCut(c, d, rest);
    assert CloseAt(d, Delim(d), rest) == end - 1;
    assert lines[..end][1..] == rest[..end - 1] && lines[..end][0] == lines[0];
    SameCut(c, d, rest[..end - 1]);
    var fit := Fitting(c, |Body(c)|, lines[..end]);
    assert fit == 1 + Fitting(d, |Body(d)|, rest[..end - 1]);
    GatherStep(c, d, lines, fit);
    GatherStep(c, d, lines, end);
    assert end == |lines| ==> lines[..end] == lines && rest[..end - 1] == rest;
    assert end < |lines| ==> lines[end + 1..] == rest[end..];
  }

  // Reading a line changes neither what is cut off nor what fits.
  lemma {:induction lines} SameCut(c: Cmd, d: Cmd, lines: seq<string>)
    requires c.hereStrip == d.hereStrip
    ensures Text(c, lines) == Text(d, lines)
    ensures forall delim :: CloseAt(c, delim, lines) == CloseAt(d, delim, lines)
    ensures forall used :: Fitting(c, used, lines) == Fitting(d, used, lines)
  {
  }

  lemma GatherStep(c: Cmd, d: Cmd, lines: seq<string>, n: nat)
    requires 1 <= n <= |lines|
    requires d == c.(hereBody := Some(Body(c) + Cut(c, lines[0]) + "\n"))
    ensures Body(c) + Text(c, lines[..n]) == Body(d) + Text(d, lines[1..][..n - 1])
    ensures Gathered(c, lines[..n]) == Gathered(d, lines[1..][..n - 1])
  {
    var first, more := Cut(c, lines[0]), lines[1..][..n - 1];
    assert lines[..n][0] == lines[0] && lines[..n][1..] == more;
    SameCut(c, d, more);
    assert Text(c, lines[..n]) == first + "\n" + Text(d, more);
    Regroup(Body(c), first, "\n", Text(d, more));
    if n == 1 {
      assert Text(d, more) == "";
      assert Body(d) + "" == Body(d);
    }
  }

  lemma Regroup(a: string, b: string, c: string, d: string)
    ensures a + (b + c + d) == (a + b + c) + d
  {
  }

  lemma {:induction false} LineStep(cmds: seq<Cmd>, lines: seq<string>)
    requires AnyPending(cmds) && lines != []
    ensures var r := FeedLine(cmds, Some(lines[0]));
            SplitLines(cmds, lines) == if r.rc < 0 then Split(-1, r.cmds, []) else SplitLines(r.cmds, lines[1..])
  {
    hide SplitCmd, FeedCmd, AnyPending;
    var r := FeedLine(cmds, Some(lines[0]));
    if Pending(cmds[0]) {
      DocStep(cmds[0], lines);
      assert cmds == [cmds[0]] + cmds[1..];
      assert r.cmds[0] == FeedCmd(cmds[0], Some(lines[0])).cmd && r.cmds[1..] == cmds[1..];
      FeedCodes(cmds[0], Some(lines[0]));
    } else {
      assert cmds == [cmds[0]] + cmds[1..];
      TailPending(cmds);
      IdleCmd(cmds[0], lines);
      IdleCmd(cmds[0], lines[1..]);
      LineStep(cmds[1..], lines);
      var q := FeedLine(cmds[1..], Some(lines[0]));
      assert r.cmds == [cmds[0]] + q.cmds;
    }
  }

  lemma FeedCodes(c: Cmd, line: Option<string>)
    requires Pending(c)
    ensures -1 <= FeedCmd(c, line).rc <= 1
  {
  }

  lemma TailPending(cmds: seq<Cmd>)
    requires cmds != [] && !Pending(cmds[0])
    ensures AnyPending(cmds) == AnyPending(cmds[1..])
  {
    if AnyPending(cmds) {
      var i :| 0 <= i < |cmds| && Pending(cmds[i]);
      assert cmds[1..][i - 1] == cmds[i];
    }
  }

  lemma IdleCmd(c: Cmd, lines: seq<string>)
    requires !Pending(c)
    ensures SplitCmd(c, lines) == CmdSplit(0, c, lines)
  {
  }

  lemma {:induction false} Idle(cmds: seq<Cmd>, lines: seq<string>)
    requires !AnyPending(cmds)
    ensures SplitLines(cmds, lines) == Split(0, cmds, lines)
  {
    if cmds != [] {
      TailPending(cmds);
      Idle(cmds[1..], lines);
      assert cmds == [cmds[0]] + cmds[1..];
    }
  }

  lemma {:induction false} Starved(cmds: seq<Cmd>)
    requires AnyPending(cmds)
    ensures SplitLines(cmds, []) == Split(1, cmds, [])
  {
    assert cmds == [cmds[0]] + cmds[1..];
    if Pending(cmds[0]) {
      var none: seq<string> := [];
      assert none[..0] == none;
    } else {
      TailPending(cmds);
      Starved(cmds[1..]);
    }
  }

  // Feeding line by line fills the bodies the rule assigns, for every tree, state and line stream.
  lemma {:induction false} FeedIsSplit(cmds: seq<Cmd>, lines: seq<string>)
    ensures var r := SplitLines(cmds, lines); FeedLines(cmds, lines) == Fed(r.rc, r.cmds)
    decreases |lines|
  {
    hide SplitLines, FeedLine;
    if !AnyPending(cmds) {
      Idle(cmds, lines);
    } else if lines == [] {
      Starved(cmds);
    } else {
      LineStep(cmds, lines);
      LineCodes(cmds, Some(lines[0]));
      var r := FeedLine(cmds, Some(lines[0]));
      if r.rc >= 0 {
        FeedIsSplit(r.cmds, lines[1..]);
      }
    }
  }

  lemma LineCodes(cmds: seq<Cmd>, line: Option<string>)
    ensures var r := FeedLine(cmds, line);
            -1 <= r.rc <= 1 && (r.rc == 0 ==> !AnyPending(r.cmds)) && (r.rc == 1 ==> AnyPending(r.cmds))
  {
  }

  // 0 is returned exactly from the last delimiter on; before it every prefix of the lines gives 1.
  lemma {:induction false} ZeroAtLastDelimiter(cmds: seq<Cmd>, lines: seq<string>, n: nat)
    requires SplitLines(cmds, lines).rc == 0 && n <= |lines|
    ensures var r := SplitLines(cmds, lines); var used := |lines| - |r.rest|;
            && 0 <= used && r.rest == lines[used..]
            && (n < used ==> FeedLines(cmds, lines[..n]).rc == 1)
            && (n >= used ==> FeedLines(cmds, lines[..n]) == Fed(0, r.cmds))
    decreases |lines|
  {
    hide SplitLines, FeedLine;
    if !AnyPending(cmds) {
      Idle(cmds, lines);
    } else if lines == [] {
      Starved(cmds);
    } else {
      LineStep(cmds, lines);
      LineCodes(cmds, Some(lines[0]));
      var r := FeedLine(cmds, Some(lines[0]));
      ZeroAtLastDelimiter(r.cmds, lines[1..], if n == 0 then 0 else n - 1);
      if n > 0 {
        assert lines[..n][1..] == lines[1..][..n - 1];
      }
    }
  }

  // Feeding touches bodies and progress only, and only where something was pending.
  lemma {:induction false} OnlyBodies(cmds: seq<Cmd>, lines: seq<string>, i: nat)
    requires i < |cmds|
    ensures var r := SplitLines(cmds, lines).cmds;
            && |r| == |cmds|
            && r[i] == cmds[i].(hereBody := r[i].hereBody, hereFeed := r[i].hereFeed)
            && (!Pending(cmds[i]) ==> r[i] == cmds[i])
  {
    hide SplitCmd;
    var r := SplitCmd(cmds[0], lines);
    if i == 0 {
      OnlyBody(cmds[0], lines);
    }
    if r.rc == 0 {
      LengthKept(cmds[1..], r.rest);
      if i > 0 {
        OnlyBodies(cmds[1..], r.rest, i - 1);
      }
    }
  }

  lemma LengthKept(cmds: seq<Cmd>, lines: seq<string>)
    ensures |SplitLines(cmds, lines).cmds| == |cmds|
  {
  }

  lemma {:induction false} OnlyBody(c: Cmd, lines: seq<string>)
    ensures var d := SplitCmd(c, lines).cmd;
            d == c.(hereBody := d.hereBody, hereFeed := d.hereFeed) && (!Pending(c) ==> d == c)
    decreases DocCount(c) - c.hereFeed
  {
    hide OneDoc;
    if Pending(c) {
      var r := OneDoc(c, lines);
      OnlyDoc(c, lines);
      if r.rc == 0 {
        OnlyBody(r.cmd, r.rest);
      }
    }
  }

  lemma OnlyDoc(c: Cmd, lines: seq<string>)
    requires Pending(c)
    ensures var r := OneDoc(c, lines);
            && r.cmd == c.(hereBody := r.cmd.hereBody, hereFeed := r.cmd.hereFeed)
            && (r.rc == 0 ==> r.cmd.hereFeed == c.hereFeed + 1)
  {
  }

  // ---- writing documents and reading them back ----

  // The text of the documents of a command that are still to come, each with its delimiter line.
  function Written(c: Cmd, docs: seq<seq<string>>): seq<string>
    requires |docs| == DocCount(c) - c.hereFeed
    decreases |docs|
  {
    if docs == [] then []
    else docs[0] + [Delim(c)] + Written(c.(hereBody := None, hereFeed := c.hereFeed + 1), docs[1..])
  }

  // Documents that can be written so: no line of one is taken for its delimiter, <<- does not cut
  // the delimiter itself, and none exceeds the cap.
  predicate Writable(c: Cmd, docs: seq<seq<string>>)
    requires |docs| == DocCount(c) - c.hereFeed
    decreases |docs|
  {
    docs != [] ==>
      && Cut(c, Delim(c)) == Delim(c)
      && (forall i :: 0 <= i < |docs[0]| ==> Cut(c, docs[0][i]) != Delim(c))
      && |Text(c, docs[0])| <= MAX_BODY
      && Writable(c.(hereBody := None, hereFeed := c.hereFeed + 1), docs[1..])
  }

  // The next document, written with its delimiter, is read back.
  lemma OneDocBack(c: Cmd, doc: seq<string>, tail: seq<string>)
    requires Pending(c) && c.hereBody.None? && Cut(c, Delim(c)) == Delim(c)
    requires forall i :: 0 <= i < |doc| ==> Cut(c, doc[i]) != Delim(c)
    requires |Text(c, doc)| <= MAX_BODY
    ensures OneDoc(c, doc + [Delim(c)] + tail)
         == CmdSplit(0, c.(hereBody := if c.hereFeed < |c.hereSkips| then None else Some(Text(c, doc)),
                           hereFeed := c.hereFeed + 1), tail)
  {
    hide Text, Fitting, Cut, Delim;
    var lines := doc + [Delim(c)] + tail;
    var end := CloseAt(c, Delim(c), lines);
    assert lines[|doc|] == Delim(c) && forall i :: 0 <= i < |doc| ==> lines[i] == doc[i];
    assert end == |doc|;
    assert lines[..end] == doc && lines[end + 1..] == tail;
    AllFit(c, 0, doc);
    assert Body(c) + Text(c, doc) == Text(c, doc);
  }

  lemma {:induction false} AllFit(c: Cmd, used: nat, lines: seq<string>)
    requires used <= MAX_BODY
    ensures used + |Text(c, lines)| <= MAX_BODY <==> Fitting(c, used, lines) == |lines|
    decreases |lines|
  {
    if lines != [] {
      var more := used + |Cut(c, lines[0])| + 1;
      if more <= MAX_BODY {
        AllFit(c, more, lines[1..]);
      }
    }
  }

  // A command with all its documents, filled from them: the text of the last one stays.
  function Filled(c: Cmd, docs: seq<seq<string>>): Cmd {
    if docs == [] then c
    else c.(hereBody := Some(Text(c, docs[|docs| - 1])), hereFeed := DocCount(c))
  }

  // A command whose documents are all to come gets the text of the last one and takes no line more.
  lemma {:induction false} WriteThenFeed(c: Cmd, docs: seq<seq<string>>, more: seq<string>)
    requires (docs != [] ==> c.hereBody.None?) && |docs| == DocCount(c) - c.hereFeed && Writable(c, docs)
    ensures SplitCmd(c, Written(c, docs) + more) == CmdSplit(0, Filled(c, docs), more)
    decreases |docs|
  {
    hide Cut, Text, OneDoc;
    if docs == [] {
      assert Written(c, docs) + more == more;
    } else {
      var next := c.(hereBody := None, hereFeed := c.hereFeed + 1);
      var tail := Written(next, docs[1..]) + more;
      OneDocBack(c, docs[0], tail);
      assert Written(c, docs) + more == docs[0] + [Delim(c)] + tail;
      if c.hereFeed < |c.hereSkips| {
        WriteThenFeed(next, docs[1..], more);
        SameCut(c, next, docs[|docs| - 1]);
      } else {
        assert tail == more;
        assert docs == [docs[0]];
      }
    }
  }

  // Every command of a tree with its documents, one command after another.
  function WrittenAll(cmds: seq<Cmd>, docs: seq<seq<seq<string>>>): seq<string>
    requires AllWritable(cmds, docs)
  {
    if cmds == [] then [] else Written(cmds[0], docs[0]) + WrittenAll(cmds[1..], docs[1..])
  }

  predicate AllWritable(cmds: seq<Cmd>, docs: seq<seq<seq<string>>>) {
    && |docs| == |cmds|
    && (cmds != [] ==>
        && |docs[0]| == DocCount(cmds[0]) - cmds[0].hereFeed
        && (docs[0] != [] ==> cmds[0].hereBody.None?)
        && Writable(cmds[0], docs[0])
        && AllWritable(cmds[1..], docs[1..]))
  }

  function FilledAll(cmds: seq<Cmd>, docs: seq<seq<seq<string>>>): seq<Cmd>
    requires |docs| == |cmds|
  {
    if cmds == [] then [] else [Filled(cmds[0], docs[0])] + FilledAll(cmds[1..], docs[1..])
  }

  lemma {:induction false} WriteThenSplit(cmds: seq<Cmd>, docs: seq<seq<seq<string>>>, more: seq<string>)
    requires AllWritable(cmds, docs)
    ensures SplitLines(cmds, WrittenAll(cmds, docs) + more) == Split(0, FilledAll(cmds, docs), more)
  {
    hide Filled, Written, Writable, SplitCmd;
    if cmds == [] {
      assert WrittenAll(cmds, docs) + more == more;
    } else {
      var tail := WrittenAll(cmds[1..], docs[1..]) + more;
      assert WrittenAll(cmds, docs) + more == Written(cmds[0], docs[0]) + tail;
      WriteThenFeed(cmds[0], docs[0], tail);
      WriteThenSplit(cmds[1..], docs[1..], more);
    }
  }

  // Written documents, fed line by line, come back as the bodies of their commands.
  lemma WriteThenFeedAll(cmds: seq<Cmd>, docs: seq<seq<seq<string>>>)
    requires AllWritable(cmds, docs)
    ensures FeedLines(cmds, WrittenAll(cmds, docs)) == Fed(0, FilledAll(cmds, docs))
  {
    hide WrittenAll, FilledAll, AllWritable, SplitLines, FeedLines;
    WriteThenSplit(cmds, docs, []);
    FeedIsSplit(cmds, WrittenAll(cmds, docs));
    assert WrittenAll(cmds, docs) + [] == WrittenAll(cmds, docs);
  }
}
