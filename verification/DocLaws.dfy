// Here-documents as a script has them: which text a command gets from the lines that follow it, said
// without the functions that cut the lines.
module DocLaws {
  import opened Ast
  import opened CStrings
  import opened HereDocs

  // The lines as they stand, a newline after each.
  function Joined(lines: seq<string>): string {
    if lines == [] then "" else lines[0] + "\n" + Joined(lines[1..])
  }

  function Tabs(n: nat): string {
    seq(n, _ => '\t')
  }

  // Each line with its own number of tabs in front.
  function Indented(lines: seq<string>, tabs: seq<nat>): (r: seq<string>)
    requires |tabs| >= |lines|
    ensures |r| == |lines|
  {
    if lines == [] then [] else [Tabs(tabs[0]) + lines[0]] + Indented(lines[1..], tabs[1..])
  }

  predicate NoTab(line: string) {
    line != [] ==> line[0] != '\t'
  }

  // << takes lines as they are; <<- takes them whatever tabs are in front of each.
  predicate Fits(strip: bool, lines: seq<string>, tabs: seq<nat>) {
    && |tabs| == |lines|
    && forall k :: 0 <= k < |lines| ==> if strip then NoTab(lines[k]) else tabs[k] == 0
  }

  // The document that the first waiting command waits for ends with this line.
  ghost predicate WaitsFor(cmds: seq<Cmd>, k: nat, delim: string) {
    && k < |cmds| && Pending(cmds[k]) && (forall i :: 0 <= i < k ==> !Pending(cmds[i]))
    && delim == if cmds[k].hereFeed < |cmds[k].hereSkips| then cmds[k].hereSkips[cmds[k].hereFeed]
                else cmds[k].hereDelim.value
  }

  lemma {:induction false} TabsGo(n: nat, line: string)
    requires NoTab(line)
    ensures WithoutTabs(Tabs(n) + line) == line
    decreases n
  {
    if n == 0 {
      assert Tabs(0) + line == line;
    } else {
      assert (Tabs(n) + line)[1..] == Tabs(n - 1) + line;
      TabsGo(n - 1, line);
    }
  }

  lemma CutBack(c: Cmd, n: nat, line: string)
    requires if c.hereStrip then NoTab(line) else n == 0
    ensures Cut(c, Tabs(n) + line) == line
  {
    if c.hereStrip {
      TabsGo(n, line);
    } else {
      assert Tabs(0) + line == line;
    }
  }

  lemma {:induction false} FirstIs(cmds: seq<Cmd>, k: nat)
    requires k < |cmds| && Pending(cmds[k]) && (forall i :: 0 <= i < k ==> !Pending(cmds[i]))
    ensures AnyPending(cmds) && First(cmds) == k
  {
    assert AnyPending(cmds);
  }

  function WithText(c: Cmd, text: string): Cmd {
    c.(hereBody := Some(Body(c) + text))
  }

  // One line that is not the delimiter: kept with its newline, or too long.
  lemma LineKept(cmds: seq<Cmd>, k: nat, delim: string, n: nat, line: string, rest: seq<string>)
    requires WaitsFor(cmds, k, delim) && line != delim
    requires if cmds[k].hereStrip then NoTab(line) else n == 0
    ensures var lines := [Tabs(n) + line] + rest;
            if |Body(cmds[k])| + |line| + 1 <= 0x10_0000 then
              var after := cmds[k := WithText(cmds[k], line + "\n")];
              WaitsFor(after, k, delim) && FeedLines(cmds, lines) == FeedLines(after, rest)
            else FeedLines(cmds, lines).rc == -1
  {
    FirstIs(cmds, k);
    CutBack(cmds[k], n, line);
    hide Cut, First;
    var lines := [Tabs(n) + line] + rest;
    assert lines[0] == Tabs(n) + line && lines[1..] == rest;
    var after := cmds[k := WithText(cmds[k], line + "\n")];
    assert Body(cmds[k]) + (line + "\n") == Body(cmds[k]) + line + "\n";
    assert Pending(after[k]) && AnyPending(after);
  }

  lemma DelimiterEnds(cmds: seq<Cmd>, k: nat, delim: string, n: nat, rest: seq<string>)
    requires WaitsFor(cmds, k, delim) && if cmds[k].hereStrip then NoTab(delim) else n == 0
    ensures var c := cmds[k];
            var body := if c.hereFeed < |c.hereSkips| then None else Some(Body(c));
            FeedLines(cmds, [Tabs(n) + delim] + rest) ==
            FeedLines(cmds[k := c.(hereBody := body, hereFeed := c.hereFeed + 1)], rest)
  {
    FirstIs(cmds, k);
    CutBack(cmds[k], n, delim);
    hide Cut, First, AnyPending;
    var lines := [Tabs(n) + delim] + rest;
    assert lines[0] == Tabs(n) + delim && lines[1..] == rest;
  }

  lemma {:induction false} LinesKept(cmds: seq<Cmd>, k: nat, delim: string, doc: seq<string>, tabs: seq<nat>,
                                     rest: seq<string>)
    requires WaitsFor(cmds, k, delim) && delim !in doc && Fits(cmds[k].hereStrip, doc, tabs)
    requires |Body(cmds[k])| <= 0x10_0000
    ensures var lines := Indented(doc, tabs) + rest;
            if |Body(cmds[k])| + |Joined(doc)| <= 0x10_0000 then
              var after := if doc == [] then cmds else cmds[k := WithText(cmds[k], Joined(doc))];
              WaitsFor(after, k, delim) && FeedLines(cmds, lines) == FeedLines(after, rest)
            else FeedLines(cmds, lines).rc == -1
    decreases |doc|
  {
    hide FeedLines;
    if doc == [] {
      assert Indented(doc, tabs) + rest == rest;
    } else {
      var line := doc[0];
      var more := Indented(doc[1..], tabs[1..]) + rest;
      assert Indented(doc, tabs) + rest == [Tabs(tabs[0]) + line] + more;
      LineKept(cmds, k, delim, tabs[0], line, more);
      if |Body(cmds[k])| + |line| + 1 <= 0x10_0000 {
        var next := cmds[k := WithText(cmds[k], line + "\n")];
        LinesKept(next, k, delim, doc[1..], tabs[1..], rest);
        assert |Body(next[k])| == |Body(cmds[k])| + |line| + 1;
        Longer(cmds[k], line, doc);
        assert doc[1..] == [] ==> Joined(doc[1..]) == "";
        assert next[k := WithText(next[k], Joined(doc[1..]))] == cmds[k := WithText(next[k], Joined(doc[1..]))];
        assert Joined(doc) == line + "\n" + Joined(doc[1..]);
      }
    }
  }

  lemma Longer(c: Cmd, line: string, doc: seq<string>)
    requires doc != [] && line == doc[0]
    ensures WithText(WithText(c, line + "\n"), Joined(doc[1..])) == WithText(c, Joined(doc))
    ensures doc[1..] == [] ==> WithText(c, line + "\n") == WithText(c, Joined(doc))
  {
    var rest := Joined(doc[1..]);
    assert (Body(c) + (line + "\n")) + rest == Body(c) + (line + "\n" + rest);
    if doc[1..] == [] {
      assert line + "\n" + "" == line + "\n";
    }
  }

  // The lines of a document followed by its delimiter are the body of the first waiting command: the
  // lines as they stand for <<, without the tabs in front of each, the delimiter included, for <<-. A
  // document that a later << has replaced is read over. Feeding goes on after the delimiter.
  lemma DocumentRead(cmds: seq<Cmd>, k: nat, delim: string, doc: seq<string>, tabs: seq<nat>, rest: seq<string>)
    requires WaitsFor(cmds, k, delim) && cmds[k].hereBody.None?
    requires delim !in doc && Fits(cmds[k].hereStrip, doc + [delim], tabs) && |Joined(doc)| <= 0x10_0000
    ensures var c := cmds[k];
            var body := if c.hereFeed < |c.hereSkips| then None else Some(Joined(doc));
            FeedLines(cmds, Indented(doc + [delim], tabs) + rest) ==
            FeedLines(cmds[k := c.(hereBody := body, hereFeed := c.hereFeed + 1)], rest)
  {
    hide FeedLines, WithText;
    var n := |doc|;
    IndentedEnd(doc, delim, tabs);
    var last := [Tabs(tabs[n]) + delim] + rest;
    assert Indented(doc + [delim], tabs) + rest == Indented(doc, tabs[..n]) + last;
    FitsFront(cmds[k].hereStrip, doc, delim, tabs);
    LinesKept(cmds, k, delim, doc, tabs[..n], last);
    var after := if doc == [] then cmds else cmds[k := WithText(cmds[k], Joined(doc))];
    TextOf(cmds[k], Joined(doc));
    assert doc == [] ==> Joined(doc) == "";
    DelimiterEnds(after, k, delim, tabs[n], rest);
    var body := if cmds[k].hereFeed < |cmds[k].hereSkips| then None else Some(Joined(doc));
    var c := cmds[k].(hereBody := body, hereFeed := cmds[k].hereFeed + 1);
    assert after[k := c] == cmds[k := c];
  }

  lemma TextOf(c: Cmd, text: string)
    requires c.hereBody.None?
    ensures WithText(c, text) == c.(hereBody := Some(text)) && Body(WithText(c, text)) == text && Body(c) == ""
  {
    assert "" + text == text;
  }

  lemma FitsFront(strip: bool, doc: seq<string>, delim: string, tabs: seq<nat>)
    requires Fits(strip, doc + [delim], tabs)
    ensures Fits(strip, doc, tabs[..|doc|]) && if strip then NoTab(delim) else tabs[|doc|] == 0
  {
    assert (doc + [delim])[|doc|] == delim;
    assert forall k :: 0 <= k < |doc| ==> (doc + [delim])[k] == doc[k];
  }

  lemma {:induction false} IndentedEnd(doc: seq<string>, delim: string, tabs: seq<nat>)
    requires |tabs| == |doc| + 1
    ensures Indented(doc + [delim], tabs) == Indented(doc, tabs[..|doc|]) + [Tabs(tabs[|doc|]) + delim]
    decreases |doc|
  {
    if doc != [] {
      assert (doc + [delim])[1..] == doc[1..] + [delim];
      assert tabs[..|doc|][1..] == tabs[1..][..|doc| - 1];
      IndentedEnd(doc[1..], delim, tabs[1..]);
    }
  }

  // A document of more than 1 MiB fails.
  lemma TooLongFails(cmds: seq<Cmd>, k: nat, delim: string, doc: seq<string>, tabs: seq<nat>, rest: seq<string>)
    requires WaitsFor(cmds, k, delim) && cmds[k].hereBody.None?
    requires delim !in doc && Fits(cmds[k].hereStrip, doc, tabs) && |Joined(doc)| > 0x10_0000
    ensures FeedLines(cmds, Indented(doc, tabs) + rest).rc == -1
  {
    LinesKept(cmds, k, delim, doc, tabs, rest);
  }
}
