// The parser as src/mid/parser.c runs it: a cursor moved by loops, arrays that grow, a stage whose
// fields are overwritten. Each method is proved to compute its function of Lexer or Grammar.
module Parser {
  import opened CStrings
  import opened Ast
  import opened Lexer
  import opened Grammar

  function Prepend<T>(acc: seq<T>, r: Parsed<seq<T>>): Parsed<seq<T>> {
    match r
    case Fail => Fail
    case Got(v, p) => Got(acc + v, p)
  }

  lemma PrependTwice<T>(acc: seq<T>, x: T, r: Parsed<seq<T>>)
    ensures Prepend(acc + [x], r) == Prepend(acc, Prepend([x], r))
  {
    if r.Got? {
      assert acc + [x] + r.value == acc + ([x] + r.value);
    }
  }

  lemma PrependNone<T>(r: Parsed<seq<T>>)
    ensures Prepend([], r) == r
  {
    if r.Got? {
      assert [] + r.value == r.value;
    }
  }

  function PrependSome<T>(acc: seq<T>, r: Option<seq<T>>): Option<seq<T>> {
    if r.None? then None else Some(acc + r.value)
  }

  lemma PrependSomeTwice<T>(acc: seq<T>, x: T, r: Option<seq<T>>)
    ensures PrependSome(acc + [x], r) == PrependSome(acc, PrependSome([x], r))
    ensures PrependSome([], r) == r && PrependSome(acc, Some([])) == Some(acc)
  {
    if r.Some? {
      assert acc + [x] + r.value == acc + ([x] + r.value);
      assert [] + r.value == r.value;
    }
    assert acc + [] == acc;
  }

  // ---- scanning ----

  // src/mid/parser.c:827
  method SkipWsPos(s: string, pos: nat) returns (p: nat)
    requires pos <= |s|
    ensures p == SkipWs(s, pos)
  {
    p := pos;
    while p < |s| && IsSpace(s[p])
      invariant p <= |s| && SkipWs(s, p) == SkipWs(s, pos)
    {
      p := p + 1;
    }
  }

  // The loop of petrush_cmdsubst_span and petrush_arith_span.
  method CloseSpan(s: string, start: nat, nesting: nat) returns (r: nat)
    requires start <= |s| && nesting > 0
    ensures r == Close(s, start, nesting, NUL)
  {
    var i, depth, quote := start, nesting, NUL;
    while i < |s| && depth > 0
      invariant start <= i <= |s| && Close(s, start, nesting, NUL) == Close(s, i, depth, quote)
    {
      if quote != NUL {
        if s[i] == quote {
          quote := NUL;
        }
      } else if s[i] == '\'' || s[i] == '"' {
        quote := s[i];
      } else if s[i] == '(' {
        depth := depth + 1;
      } else if s[i] == ')' {
        depth := depth - 1;
      }
      i := i + 1;
    }
    return if depth != 0 then 0 else i;
  }

  // src/mid/parser.c:105
  method DollarGroupSpan(s: string, i: nat) returns (r: nat)
    requires i <= |s|
    ensures r == DollarSpan(s, i)
  {
    if At(s, i) != '$' || At(s, i + 1) != '(' { return 0; }
    var e;
    if At(s, i + 2) == '(' {
      e := CloseSpan(s, i + 3, 2);
    } else {
      e := CloseSpan(s, i + 2, 1);
    }
    return if e == 0 then 0 else e - i;
  }

  // scan_word, scan_for_word and scan_case_pattern: quotes, or up to a breaking character.
  method ScanOne(kind: WordKind, s: string, i: nat) returns (r: Scan)
    requires i <= |s|
    ensures r == ScanWord(kind, s, i)
  {
    hide Breaks, DollarSpan, IsSpace;
    var p, quote, mark := i, NUL, 0;
    if i < |s| && IsQuote(s[i]) {
      quote := s[i];
      mark := if quote == '\'' then 1 else 2;
      p := p + 1;
    }
    var start := p;
    if quote != NUL {
      while p < |s| && s[p] != quote
        invariant start <= p <= |s| && QuoteEnd(s, p, quote) == QuoteEnd(s, start, quote)
      {
        p := p + 1;
      }
      return Scan(s[start..p], mark, if p < |s| then p + 1 else p);
    }
    while p < |s| && !Breaks(kind, s, p)
      invariant start <= p <= |s| && WordEnd(kind, s, p) == WordEnd(kind, s, start)
    {
      var sp := DollarGroupSpan(s, p);
      if sp > 0 {
        p := p + sp;
      } else {
        p := p + 1;
      }
    }
    return Scan(s[start..p], 0, p);
  }

  // The token at p in tokenize's loop.
  method NextToken(s: string, p: nat) returns (op: OpResult)
    requires p < |s| && !IsSpace(s[p])
    ensures op == TokenAt(s, p)
  {
    op := NoOp;
    if !IsQuote(s[p]) {
      op := SimpleOp(s, p);
      if op.NoOp? {
        op := ErrOp(s, p);
      }
    }
    if op.NoOp? {
      var w := ScanOne(Argument, s, p);
      op := Op(Word(w.text, w.mark), w.end - p);
    }
  }

  // src/mid/parser.c:349; None for the refused 2>&x.
  method TokenizeAll(s: string) returns (r: Option<seq<Token>>)
    ensures r == Tokenize(s, 0)
  {
    hide TokenAt;
    var toks: seq<Token>, p := [], 0;
    PrependSomeTwice(toks, Pipe, Tokenize(s, 0));
    while p < |s|
      invariant p <= |s|
      invariant Tokenize(s, 0) == PrependSome(toks, Tokenize(s, p))
      decreases |s| - p
    {
      ghost var p0 := p;
      p := SkipWsPos(s, p);
      if p == |s| {
        assert Tokenize(s, p0) == Tokenize(s, p);
        break;
      }
      var op := NextToken(s, p);
      if op.BadOp? { return None; }
      PrependSomeTwice(toks, op.token, Tokenize(s, p + op.len));
      toks, p := toks + [op.token], p + op.len;
    }
    PrependSomeTwice(toks, Pipe, Some([]));
    return Some(toks);
  }

  // src/mid/parser.c:443: the stage of tokens begin..end, its fields overwritten as they come.
  method BuildStage(toks: seq<Token>, begin: nat, end: nat) returns (r: Option<Cmd>)
    requires begin <= end <= |toks|
    ensures r == Stage(toks[begin..end], 0, EMPTY_CMD)
  {
    hide Redirect;
    var part := toks[begin..end];
    var cmd := EMPTY_CMD;
    var i := begin;
    while i < end
      invariant begin <= i <= end
      invariant Stage(part, i - begin, cmd) == Stage(part, 0, EMPTY_CMD)
      decreases end - i
    {
      var tok := toks[i];
      assert tok == part[i - begin];
      if tok.Word? {
        cmd := cmd.(argv := cmd.argv + [tok.text], quoted := cmd.quoted + [tok.mark]);
        i := i + 1;
        continue;
      }
      if tok.Pipe? { return None; }
      if tok.ErrToOut? {
        cmd := cmd.(redirErr := None, redirErrAppend := false, redirErrToOut := true);
        i := i + 1;
        continue;
      }
      if i + 1 >= end || !toks[i + 1].Word? { return None; }
      assert toks[i + 1] == part[i + 1 - begin];
      var next := Redirect(cmd, tok, toks[i + 1].text, toks[i + 1].mark);
      if next.None? { return None; }
      cmd := next.value;
      i := i + 2;
    }
    return if cmd.argv == [] then None else Some(cmd);
  }

  // src/mid/parser.c:558
  method ParsePipelineText(s: string) returns (r: Option<seq<Cmd>>)
    ensures r == ParsePipeline(s)
  {
    var all := TokenizeAll(s);
    if all.None? { return None; }
    var toks := all.value;
    if toks == [] { return Some([]); }
    hide Stage;
    var cmds: seq<Cmd> := [];
    var begin, i := 0, 0;
    PrependSomeTwice(cmds, EMPTY_CMD, Stages(toks, 0));
    while i <= |toks|
      invariant begin <= i <= |toks| && begin < |toks|
      invariant NextPipe(toks, i) == NextPipe(toks, begin)
      invariant Stages(toks, 0) == PrependSome(cmds, Stages(toks, begin))
      decreases |toks| - i
    {
      if i < |toks| && !toks[i].Pipe? {
        i := i + 1;
        continue;
      }
      var cmd := BuildStage(toks, begin, i);
      if cmd.None? { return None; }
      if i == |toks| {
        return Some(cmds + [cmd.value]);
      }
      if i + 1 == |toks| { return None; }
      PrependSomeTwice(cmds, cmd.value, Stages(toks, i + 1));
      cmds := cmds + [cmd.value];
      begin, i := i + 1, i + 1;
    }
    return None;
  }

  // src/mid/parser.c:740
  method FindListConnector(s: string, from: nat) returns (r: Option<Conn>)
    requires from <= |s|
    ensures r == FindConn(s, from, NUL)
  {
    var quote, i := NUL, from;
    while i < |s|
      invariant from <= i <= |s| && FindConn(s, i, quote) == FindConn(s, from, NUL)
      decreases |s| - i
    {
      var c := s[i];
      if quote != NUL {
        if c == quote {
          quote := NUL;
        }
        i := i + 1;
        continue;
      }
      if c == '\'' || c == '"' {
        quote := c;
        i := i + 1;
        continue;
      }
      if c == '$' {
        var sp := DollarGroupSpan(s, i);
        if sp > 0 {
          i := i + sp;
          continue;
        }
      }
      if c == '&' && At(s, i + 1) == '&' { return Some(Conn(i, And, 2, false)); }
      if c == '|' && At(s, i + 1) == '|' { return Some(Conn(i, Or, 2, false)); }
      if c == ';' {
        if At(s, i + 1) == ';' { return Some(Conn(i, Always, 0, false)); }
        return Some(Conn(i, Always, 1, false));
      }
      if c == '&' && At(s, i + 1) != '>' {
        if !(i >= 2 && s[i - 2] == '2' && s[i - 1] == '>' && At(s, i + 1) == '1') {
          return Some(Conn(i, Always, 1, true));
        }
      }
      i := i + 1;
    }
    return None;
  }

  // src/mid/parser.c:902
  method PeekKwMask(s: string, pos: nat, stops: set<Kw>) returns (r: bool)
    requires pos <= |s|
    ensures r == Peek(s, pos, stops)
  {
    if KwElif in stops && PeekOne(s, pos, KwElif) { return true; }
    if KwElse in stops && PeekOne(s, pos, KwElse) { return true; }
    if KwThen in stops && PeekOne(s, pos, KwThen) { return true; }
    if KwFi in stops && PeekOne(s, pos, KwFi) { return true; }
    if KwDone in stops && PeekOne(s, pos, KwDone) { return true; }
    if KwDo in stops && PeekOne(s, pos, KwDo) { return true; }
    if KwRbrace in stops && PeekOne(s, pos, KwRbrace) { return true; }
    if KwEsac in stops && PeekOne(s, pos, KwEsac) { return true; }
    if KwDsemi in stops && PeekOne(s, pos, KwDsemi) { return true; }
    return false;
  }

  // ---- items ----

  // src/mid/parser.c:1004
  method PipelineItem(s: string, pos: nat) returns (r: ItemResult)
    requires pos <= |s|
    ensures r == ParsePipelineItem(s, pos)
  {
    hide WfKind, FindConn, ParsePipeline, IsSpace;
    var c := FindListConnector(s, pos);
    var end := if c.Some? then c.value.pos else |s|;
    var start := pos;
    while start < end && IsSpace(s[start])
      invariant pos <= start <= end && SkipWsTo(s, start, end) == SkipWsTo(s, pos, end)
    {
      start := start + 1;
    }
    var e := end;
    while e > start && IsSpace(s[e - 1])
      invariant start <= e <= end && TrimEnd(s, start, e) == TrimEnd(s, start, end)
    {
      e := e - 1;
    }
    var next := if c.Some? then end + c.value.len else end;
    if e == start { return ItemEmpty(c.Some?, next); }
    var cmds := ParsePipelineText(s[start..e]);
    if cmds.None? { return ItemFail; }
    if c.Some? { return ItemGot(Pipeline(cmds.value), c.value.background, c.value.cond, true, next); }
    return ItemGot(Pipeline(cmds.value), false, Always, false, next);
  }

  // src/mid/parser.c:1070
  method TakeConnAfter(s: string, pos: nat, kind: Kind) returns (r: ItemResult)
    requires pos <= |s|
    ensures r == TakeConn(s, pos, kind)
  {
    var p := SkipWsPos(s, pos);
    var c := FindListConnector(s, p);
    if c.None? || c.value.pos != p { return ItemGot(kind, false, Always, false, p); }
    return ItemGot(kind, c.value.background, c.value.cond, true, p + c.value.len);
  }

  // The keyword dispatch in parse_list_until.
  method ParseItemAt(s: string, pos: nat) returns (r: ItemResult)
    requires pos < |s| && !IsSpace(s[pos])
    ensures r == ParseItem(s, pos)
    decreases |s| - pos, 2
  {
    hide WfKind, ParseIf, ParseWhile, ParseFor, ParseCase, ParseTest, ParseFn, TakeConn, ParsePipelineItem, HasAt;
    hide SkipWs, IsDelim, LooksLikeFnDef;
    var k: Parsed<Kind>;
    if MatchKw(s, pos, "if") {
      k := ParseIfAt(s, After(s, pos, "if"));
    } else if MatchKw(s, pos, "while") {
      k := ParseWhileAt(s, After(s, pos, "while"));
    } else if MatchKw(s, pos, "for") {
      k := ParseForAt(s, After(s, pos, "for"));
    } else if MatchKw(s, pos, "case") {
      k := ParseCaseAt(s, After(s, pos, "case"));
    } else if MatchKw(s, pos, "[[") {
      k := DBracketTest(s, After(s, pos, "[["));
    } else if MatchKw(s, pos, "function") {
      k := ParseFnAt(s, After(s, pos, "function"), true);
    } else if LooksLikeFnDef(s, pos) {
      k := ParseFnAt(s, pos, false);
    } else {
      r := PipelineItem(s, pos);
      return;
    }
    if k.Fail? { return ItemFail; }
    r := TakeConnAfter(s, k.pos, k.value);
  }

  // src/mid/parser.c:1095
  method ListUntil(s: string, start: nat, stops: set<Kw>, needStop: bool) returns (r: Parsed<seq<Item>>)
    requires start <= |s|
    ensures r == ParseItems(s, start, stops, needStop, Always)
    decreases |s| - start, 3
  {
    hide WfFrom, Peek, ParseItem;
    var items: seq<Item> := [];
    var next: RunCond := Always;
    var pos := start;
    PrependNone(ParseItems(s, pos, stops, needStop, next));
    while true
      invariant start <= pos <= |s|
      invariant Prepend(items, ParseItems(s, pos, stops, needStop, next)) ==
                ParseItems(s, start, stops, needStop, Always)
      decreases |s| - pos
    {
      var p := SkipWsPos(s, pos);
      if p == |s| {
        if needStop || !next.Always? { return Fail; }
        assert items + [] == items;
        return Got(items, p);
      }
      var stop := PeekKwMask(s, p, stops);
      if stop {
        if !next.Always? { return Fail; }
        assert items + [] == items;
        return Got(items, p);
      }
      var it := ParseItemAt(s, p);
      if it.ItemFail? { return Fail; }
      // An empty segment at a non-blank character has a connector there: `; ;` or `&& ;`.
      if it.ItemEmpty? { return Fail; }
      var item := Item(it.kind, next, it.background);
      PrependTwice(items, item, ParseItems(s, it.pos, stops, needStop, it.next));
      items := items + [item];
      next := it.next;
      pos := it.pos;
      if !it.conn {
        pos := SkipWsPos(s, pos);
        if pos == |s| {
          if needStop { return Fail; }
          return Got(items, pos);
        }
        stop := PeekKwMask(s, pos, stops);
        if stop { return Got(items, pos); }
        return Fail;
      }
    }
  }

  // ---- compound commands ----

  // src/mid/parser.c:1301
  method ParseWhileAt(s: string, pos: nat) returns (r: Parsed<Kind>)
    requires pos <= |s|
    ensures r == ParseWhile(s, pos)
    decreases |s| - pos, 6
  {
    hide WfItems, WfKind, HasAt, SkipWs, IsDelim, ParseItems;
    var test := ListUntil(s, pos, {KwDo}, true);
    if test.Fail? || test.value == [] || !MatchKw(s, test.pos, "do") { return Fail; }
    var loop := ListUntil(s, After(s, test.pos, "do"), {KwDone}, true);
    if loop.Fail? || !MatchKw(s, loop.pos, "done") { return Fail; }
    return Got(While(test.value, loop.value), After(s, loop.pos, "done"));
  }

  // One condition and body of parse_if.
  method OneArm(s: string, pos: nat) returns (r: Parsed<Arm>)
    requires pos <= |s|
    ensures r == ParseArm(s, pos)
    decreases |s| - pos, 5
  {
    hide WfItems, HasAt, SkipWs, IsDelim, ParseItems;
    var cond := ListUntil(s, pos, {KwThen}, true);
    if cond.Fail? || cond.value == [] || !MatchKw(s, cond.pos, "then") { return Fail; }
    var body := ListUntil(s, After(s, cond.pos, "then"), {KwElif, KwElse, KwFi}, true);
    if body.Fail? { return Fail; }
    return Got(Arm(cond.value, body.value, false), body.pos);
  }

  // src/mid/parser.c:1989
  method ParseIfAt(s: string, pos: nat) returns (r: Parsed<Kind>)
    requires pos <= |s|
    ensures r == ParseIf(s, pos)
    decreases |s| - pos, 6
  {
    hide WfItems, WfKind, HasAt, SkipWs, IsDelim, ParseArm, ParseItems;
    var first := OneArm(s, pos);
    if first.Fail? { return Fail; }
    var arms, p := [first.value], first.pos;
    ghost var rest := ParseArms(s, p);
    assert Prepend([], rest) == rest by { PrependNone(rest); }
    while MatchKw(s, p, "elif")
      invariant pos < p <= |s| && arms != []
      invariant Prepend(arms, ParseArms(s, p)) == Prepend([first.value], rest)
      decreases |s| - p
    {
      var arm := OneArm(s, After(s, p, "elif"));
      if arm.Fail? { return Fail; }
      PrependTwice(arms, arm.value, ParseArms(s, arm.pos));
      arms, p := arms + [arm.value], arm.pos;
    }
    if MatchKw(s, p, "else") {
      var body := ListUntil(s, After(s, p, "else"), {KwFi}, true);
      if body.Fail? || !MatchKw(s, body.pos, "fi") { return Fail; }
      return Got(If(arms + [Arm([], body.value, true)]), After(s, body.pos, "fi"));
    }
    if !MatchKw(s, p, "fi") { return Fail; }
    assert arms + [] == arms;
    return Got(If(arms), After(s, p, "fi"));
  }

  // src/mid/parser.c:1412
  method ParseForAt(s: string, pos: nat) returns (r: Parsed<Kind>)
    requires pos <= |s|
    ensures r == ParseFor(s, pos)
    decreases |s| - pos, 6
  {
    hide WfItems, WfKind, HasAt, SkipWs, IsDelim, ParseItems, ScanWord;
    var p := SkipWsPos(s, pos);
    if At(s, p) == '(' { return Fail; }
    var name := ScanOne(ListWord, s, p);
    if name.text == [] || !MatchKw(s, name.end, "in") { return Fail; }
    var start := After(s, name.end, "in");
    var words: seq<string>, q := [], start;
    PrependNone(ForWords(s, start));
    while true
      invariant start <= q <= |s|
      invariant Prepend(words, ForWords(s, q)) == ForWords(s, start)
      decreases |s| - q
    {
      var q0 := q;
      q := SkipWsPos(s, q);
      if q == |s| { return Fail; }
      if s[q] == ';' {
        assert words + [] == words;
        q := q + 1;
        assert ForWords(s, start) == Got(words, q);
        break;
      }
      if MatchKw(s, q, "do") {
        assert words + [] == words;
        assert ForWords(s, start) == Got(words, q);
        break;
      }
      var w := ScanOne(ListWord, s, q);
      if w.text == [] { return Fail; }
      PrependTwice(words, w.text, ForWords(s, w.end));
      words, q := words + [w.text], w.end;
    }
    if !MatchKw(s, q, "do") { return Fail; }
    var each := ListUntil(s, After(s, q, "do"), {KwDone}, true);
    if each.Fail? || !MatchKw(s, each.pos, "done") { return Fail; }
    return Got(For(name.text, words, each.value), After(s, each.pos, "done"));
  }

  // The inner loop of parse_case.
  method PatternList(s: string, start: nat) returns (r: Parsed<seq<string>>)
    requires start <= |s|
    ensures r == Patterns(s, start)
  {
    hide ScanWord, SkipWs, IsSpace;
    var pats: seq<string>, pos := [], start;
    PrependNone(Patterns(s, start));
    while true
      invariant start <= pos <= |s| && Prepend(pats, Patterns(s, pos)) == Patterns(s, start)
      decreases |s| - pos
    {
      var p := SkipWsPos(s, pos);
      if p == |s| { return Fail; }
      var w := ScanOne(Pattern, s, p);
      if w.text == [] { return Fail; }
      var q := SkipWsPos(s, w.end);
      if At(s, q) == '|' {
        PrependTwice(pats, w.text, Patterns(s, q + 1));
        pats, pos := pats + [w.text], q + 1;
        continue;
      }
      if At(s, q) == ')' { return Got(pats + [w.text], q + 1); }
      return Fail;
    }
  }

  // One branch of parse_case.
  method OneBranch(s: string, a: nat) returns (r: Parsed<Branch>)
    requires a <= |s|
    ensures r == ParseBranch(s, a)
    decreases |s| - a, 5
  {
    hide WfItems, WfBranch, HasAt, SkipWs, IsDelim, ParseItems, Patterns;
    var from := if At(s, a) == '(' then a + 1 else a;
    var pats := PatternList(s, from);
    if pats.Fail? { return Fail; }
    var body := ListUntil(s, pats.pos, {KwDsemi, KwEsac}, true);
    if body.Fail? { return Fail; }
    if MatchMark(s, body.pos, ";;") {
      return Got(Branch(pats.value, body.value), After(s, body.pos, ";;"));
    }
    if !MatchKw(s, body.pos, "esac") { return Fail; }
    return Got(Branch(pats.value, body.value), body.pos);
  }

  // src/mid/parser.c:1602
  method ParseCaseAt(s: string, pos: nat) returns (r: Parsed<Kind>)
    requires pos <= |s|
    ensures r == ParseCase(s, pos)
    decreases |s| - pos, 7
  {
    hide WfItems, WfKind, WfBranch, HasAt, SkipWs, IsDelim, ParseBranch, ScanWord;
    var p := SkipWsPos(s, pos);
    var word := ScanOne(ListWord, s, p);
    if word.text == [] || !MatchKw(s, word.end, "in") { return Fail; }
    var start := After(s, word.end, "in");
    var arms: seq<Branch>, q := [], start;
    PrependNone(Branches(s, start));
    while !MatchKw(s, q, "esac")
      invariant start <= q <= |s|
      invariant Prepend(arms, Branches(s, q)) == Branches(s, start)
      decreases |s| - q
    {
      var a := SkipWsPos(s, q);
      if a == |s| { return Fail; }
      var branch := OneBranch(s, a);
      if branch.Fail? { return Fail; }
      PrependTwice(arms, branch.value, Branches(s, branch.pos));
      arms, q := arms + [branch.value], branch.pos;
    }
    assert arms + [] == arms;
    return Got(Case(word.text, arms), After(s, q, "esac"));
  }

  function PrependPairs(a: seq<string>, b: seq<int>, r: Parsed<(seq<string>, seq<int>)>)
    : Parsed<(seq<string>, seq<int>)>
  {
    match r
    case Fail => Fail
    case Got(t, q) => Got((a + t.0, b + t.1), q)
  }

  lemma PrependPairsTwice(a: seq<string>, b: seq<int>, x: string, y: int, r: Parsed<(seq<string>, seq<int>)>)
    ensures PrependPairs(a + [x], b + [y], r) == PrependPairs(a, b, PrependPairs([x], [y], r))
    ensures PrependPairs([], [], r) == r
  {
    if r.Got? {
      assert a + [x] + r.value.0 == a + ([x] + r.value.0) && b + [y] + r.value.1 == b + ([y] + r.value.1);
      assert [] + r.value.0 == r.value.0 && [] + r.value.1 == r.value.1;
    }
  }

  // The token cases of parse_dbracket.
  method TestToken(s: string, p: nat) returns (t: Scan)
    requires p < |s|
    ensures t == DBracketToken(s, p)
  {
    hide ScanWord;
    if s[p] == '&' && At(s, p + 1) == '&' { return Scan("&&", 0, p + 2); }
    if s[p] == '|' && At(s, p + 1) == '|' { return Scan("||", 0, p + 2); }
    if s[p] == '!' &&
       (At(s, p + 1) == NUL || IsSpace(At(s, p + 1)) || At(s, p + 1) == '&' || At(s, p + 1) == '|') {
      return Scan("!", 0, p + 1);
    }
    t := ScanOne(ListWord, s, p);
  }

  // src/mid/parser.c:1793
  method DBracketTest(s: string, start: nat) returns (r: Parsed<Kind>)
    requires start <= |s|
    ensures r == ParseTest(s, start)
    decreases |s| - start, 6
  {
    hide HasAt, SkipWs, IsDelim, DBracketToken, WfKind;
    var tokens: seq<string>, marks: seq<int>, pos := [], [], start;
    PrependPairsTwice(tokens, marks, "", 0, ParseDBracket(s, start));
    while true
      invariant start <= pos <= |s|
      invariant ParseDBracket(s, start) == PrependPairs(tokens, marks, ParseDBracket(s, pos))
      decreases |s| - pos
    {
      var p := SkipWsPos(s, pos);
      if p == |s| { return Fail; }
      if MatchKw(s, p, "]]") {
        assert tokens + [] == tokens && marks + [] == marks;
        return Got(DBracket(tokens, marks), After(s, p, "]]"));
      }
      var t := TestToken(s, p);
      if t.text == [] { return Fail; }
      PrependPairsTwice(tokens, marks, t.text, t.mark, ParseDBracket(s, t.end));
      tokens, marks, pos := tokens + [t.text], marks + [t.mark], t.end;
    }
  }

  // src/mid/parser.c:1937
  method ParseFnAt(s: string, pos: nat, keyword: bool) returns (r: Parsed<Kind>)
    requires pos <= |s|
    ensures r == ParseFn(s, pos, keyword)
    decreases |s| - pos, 0
  {
    hide WfItems, WfKind, HasAt, EmptyParens, ParseItems;
    var p := SkipWsPos(s, pos);
    if p == |s| || !IsNameStart(s[p]) { return Fail; }
    var e := p;
    while e < |s| && IsNameChar(s[e])
      invariant p <= e <= |s| && NameEnd(s, e) == NameEnd(s, p)
    {
      e := e + 1;
    }
    var q := SkipWsPos(s, e);
    var after := e;
    if At(s, q) == '(' {
      var parens := EmptyParens(s, e);
      if parens.None? { return Fail; }
      after := parens.value;
    } else if !keyword { return Fail; }
    if !MatchMark(s, after, "{") { return Fail; }
    var body := ListUntil(s, After(s, after, "{"), {KwRbrace}, true);
    if body.Fail? || !MatchMark(s, body.pos, "}") { return Fail; }
    return Got(Fn(s[p..e], body.value), After(s, body.pos, "}"));
  }

  // src/mid/parser.c:2087
  method ParseListText(s: string) returns (r: Option<seq<Item>>)
    ensures r == ParseList(s)
  {
    var pos := SkipWsPos(s, 0);
    if pos == |s| { return Some([]); }
    SkipTwice(s);
    var items := ListUntil(s, pos, {}, false);
    return if items.Fail? then None else Some(items.value);
  }

  lemma SkipTwice(s: string)
    ensures ParseItems(s, SkipWs(s, 0), {}, false, Always) == ParseItems(s, 0, {}, false, Always)
  {
    hide ParseItem, WfFrom, Peek;
    var p := SkipWs(s, 0);
    assert SkipWs(s, p) == p;
  }
}
