// The list grammar of src/mid/parser.c: recursive descent over text and position, with exactly the
// keywords, connectors and stop words that the C parser looks for.
module Grammar {
  import opened CStrings
  import opened Ast
  import opened Lexer

  // ---- keywords ----

  datatype Kw = KwThen | KwElse | KwElif | KwFi | KwDo | KwDone | KwRbrace | KwEsac | KwDsemi

  predicate IsDelim(c: char) {
    c == NUL || IsSpace(c) || c == ';' || c == '&' || c == '|' || c == '<' || c == '>'
  }

  // The keyword stands after blanks at i, as a whole word.
  predicate MatchKw(s: string, i: nat, kw: string)
    requires i <= |s|
  {
    var p := SkipWs(s, i);
    HasAt(s, p, kw) && IsDelim(At(s, p + |kw|))
  }

  // Where the text after blanks and t ends.
  function After(s: string, i: nat, t: string): (r: nat)
    requires i <= |s| && HasAt(s, SkipWs(s, i), t)
    ensures i + |t| <= r <= |s|
  {
    SkipWs(s, i) + |t|
  }

  // A brace or `;;` needs no delimiter.
  predicate MatchMark(s: string, i: nat, mark: string)
    requires i <= |s|
  {
    HasAt(s, SkipWs(s, i), mark)
  }

  predicate PeekOne(s: string, i: nat, kw: Kw)
    requires i <= |s|
  {
    match kw
    case KwThen => MatchKw(s, i, "then")
    case KwElse => MatchKw(s, i, "else")
    case KwElif => MatchKw(s, i, "elif")
    case KwFi => MatchKw(s, i, "fi")
    case KwDo => MatchKw(s, i, "do")
    case KwDone => MatchKw(s, i, "done")
    case KwRbrace => MatchMark(s, i, "}")
    case KwEsac => MatchKw(s, i, "esac")
    case KwDsemi => MatchMark(s, i, ";;")
  }

  predicate Peek(s: string, i: nat, stops: set<Kw>)
    requires i <= |s|
  {
    exists kw :: kw in stops && PeekOne(s, i, kw)
  }

  // ---- connectors ----

  datatype Conn = Conn(pos: nat, cond: RunCond, len: nat, background: bool)

  // The connector at i, if there is one there.
  function ConnAt(s: string, i: nat): (r: Option<Conn>)
    requires i < |s|
    ensures r.Some? ==> r.value.pos == i && i + r.value.len <= |s|
  {
    if s[i] == '&' && At(s, i + 1) == '&' then Some(Conn(i, And, 2, false))
    else if s[i] == '|' && At(s, i + 1) == '|' then Some(Conn(i, Or, 2, false))
    else if s[i] == ';' then Some(Conn(i, Always, if At(s, i + 1) == ';' then 0 else 1, false))
    else if s[i] == '&' && At(s, i + 1) == '>' then None
    else if s[i] == '&' then
      if i >= 2 && s[i - 2] == '2' && s[i - 1] == '>' && At(s, i + 1) == '1' then None
      else Some(Conn(i, Always, 1, true))
    else None
  }

  // The next connector outside quotes and $(...), from i on.
  function FindConn(s: string, i: nat, quote: char): (r: Option<Conn>)
    requires i <= |s|
    ensures r.Some? ==> i <= r.value.pos < |s| && r.value.pos + r.value.len <= |s|
    decreases |s| - i
  {
    if i == |s| then None
    else if quote != NUL then FindConn(s, i + 1, if s[i] == quote then NUL else quote)
    else if IsQuote(s[i]) then FindConn(s, i + 1, s[i])
    else if DollarSpan(s, i) > 0 then FindConn(s, i + DollarSpan(s, i), NUL)
    else if ConnAt(s, i).Some? then ConnAt(s, i)
    else FindConn(s, i + 1, NUL)
  }

  // ---- results ----

  datatype Parsed<+T> = Fail | Got(value: T, pos: nat)

  // An item without its condition, and the connector after it.
  datatype ItemResult =
    | ItemFail
    | ItemEmpty(conn: bool, pos: nat)
    | ItemGot(kind: Kind, background: bool, next: RunCond, conn: bool, pos: nat)

  // One past the last character of s[i..e] that is not white space.
  function TrimEnd(s: string, i: nat, e: nat): (r: nat)
    requires i <= e <= |s|
    ensures i <= r <= e && (i < r ==> !IsSpace(s[r - 1]))
    ensures forall k :: r <= k < e ==> IsSpace(s[k])
    decreases e - i
  {
    if i < e && IsSpace(s[e - 1]) then TrimEnd(s, i, e - 1) else e
  }

  function SkipWsTo(s: string, i: nat, e: nat): (r: nat)
    requires i <= e <= |s|
    ensures i <= r <= e && (r < e ==> !IsSpace(s[r]))
    decreases e - i
  {
    if i < e && IsSpace(s[i]) then SkipWsTo(s, i + 1, e) else i
  }

  // A pipeline up to the next connector.
  function ParsePipelineItem(s: string, i: nat): (r: ItemResult)
    requires i <= |s|
    ensures r.ItemGot? ==> i < r.pos <= |s| && r.kind.Pipeline? && WfKind(r.kind)
    ensures r.ItemGot? && r.background ==> r.next.Always?
    ensures r.ItemGot? && !r.conn ==> r.next.Always?
    ensures r.ItemEmpty? ==> r.pos <= |s| && (i < |s| && !IsSpace(s[i]) ==> r.conn)
  {
    var c := FindConn(s, i, NUL);
    var end := if c.Some? then c.value.pos else |s|;
    var start := SkipWsTo(s, i, end);
    var stop := TrimEnd(s, start, end);
    var pos := if c.Some? then end + c.value.len else end;
    if start == stop then ItemEmpty(c.Some?, pos)
    else
      PipelineWf(s[start..stop]);
      ConnBackground(s, i, NUL);
      var cmds := ParsePipeline(s[start..stop]);
      if cmds.None? then ItemFail
      else if c.Some? then ItemGot(Pipeline(cmds.value), c.value.background, c.value.cond, true, pos)
      else ItemGot(Pipeline(cmds.value), false, Always, false, pos)
  }

  lemma {:induction false} ConnBackground(s: string, i: nat, quote: char)
    requires i <= |s|
    ensures var c := FindConn(s, i, quote); c.Some? && c.value.background ==> c.value.cond.Always?
    decreases |s| - i
  {
    if i < |s| {
      if quote != NUL {
        ConnBackground(s, i + 1, if s[i] == quote then NUL else quote);
      } else if IsQuote(s[i]) {
        ConnBackground(s, i + 1, s[i]);
      } else if DollarSpan(s, i) > 0 {
        ConnBackground(s, i + DollarSpan(s, i), NUL);
      } else if ConnAt(s, i).None? {
        ConnBackground(s, i + 1, NUL);
      }
    }
  }

  // After a compound item: a connector right there, or none.
  function TakeConn(s: string, i: nat, kind: Kind): (r: ItemResult)
    requires i <= |s|
    ensures r.ItemGot? && r.kind == kind && i <= r.pos <= |s|
    ensures r.background ==> r.next.Always?
    ensures !r.conn ==> r.next.Always? && !r.background
  {
    var p := SkipWs(s, i);
    ConnBackground(s, p, NUL);
    var c := FindConn(s, p, NUL);
    if c.None? || c.value.pos != p then ItemGot(kind, false, Always, false, p)
    else ItemGot(kind, c.value.background, c.value.cond, true, p + c.value.len)
  }

  // ---- what an accepted list looks like ----

  predicate WfKind(kind: Kind)
    decreases kind
  {
    match kind
    case Pipeline(cmds) => cmds != [] && forall k :: 0 <= k < |cmds| ==> WfCmd(cmds[k])
    case If(arms) =>
      && arms != [] && !arms[0].isElse
      && (forall k :: 0 <= k < |arms| ==>
            && WfItems(arms[k].cond) && WfItems(arms[k].body)
            && (arms[k].isElse ==> k == |arms| - 1 && arms[k].cond == [])
            && (!arms[k].isElse ==> arms[k].cond != []))
    case While(test, loop) => test != [] && WfItems(test) && WfItems(loop)
    case For(name, words, each) => name != [] && [] !in words && WfItems(each)
    case Fn(name, body) => IsFnName(name) && WfItems(body)
    case Case(word, branches) =>
      && word != []
      && (forall k :: 0 <= k < |branches| ==> WfBranch(branches[k]))
    case DBracket(tokens, marks) => [] !in tokens && |marks| == |tokens|
  }

  // The first item runs always, and so does an item after `&`.
  predicate WfItems(items: seq<Item>)
    decreases items
  {
    WfFrom(items, Always)
  }

  // A list whose first item stands after a connector of condition `cond`.
  predicate WfFrom(items: seq<Item>, cond: RunCond)
    decreases items, 0
  {
    items != [] ==>
      && items[0].cond == cond
      && WfItem(items[0])
      && (items[0].background && |items| > 1 ==> items[1].cond.Always?)
      && (|items| > 1 ==> WfFrom(items[1..], items[1].cond))
  }

  predicate WfItem(item: Item)
    decreases item
  {
    WfKind(item.kind)
  }

  predicate IsFnName(name: string) {
    name != [] && IsNameStart(name[0]) && forall k :: 0 <= k < |name| ==> IsNameChar(name[k])
  }

  predicate IsNameStart(c: char) {
    IsAlpha(c) || c == '_'
  }

  // ---- the parser ----

  function NameEnd(s: string, i: nat): (r: nat)
    requires i <= |s|
    ensures i <= r <= |s| && forall k :: i <= k < r ==> IsNameChar(s[k])
    decreases |s| - i
  {
    if i < |s| && IsNameChar(s[i]) then NameEnd(s, i + 1) else i
  }

  // `( )` after blanks: where it ends, or None.
  function EmptyParens(s: string, i: nat): (r: Option<nat>)
    requires i <= |s|
    ensures r.Some? ==> i < r.value <= |s|
  {
    var p := SkipWs(s, i);
    if At(s, p) != '(' then None
    else
      var q := SkipWs(s, p + 1);
      if At(s, q) != ')' then None else Some(q + 1)
  }

  predicate LooksLikeFnDef(s: string, i: nat)
    requires i <= |s|
  {
    var p := SkipWs(s, i);
    p < |s| && IsNameStart(s[p]) &&
    var q := EmptyParens(s, NameEnd(s, p));
    q.Some? && MatchMark(s, q.value, "{")
  }

  // A compound command or function definition at i; None when none begins there.
  function ParseCompound(s: string, i: nat): (r: Option<Parsed<Kind>>)
    requires i <= |s|
    ensures r.Some? && r.value.Got? ==> i < r.value.pos <= |s| && WfKind(r.value.value)
    decreases |s| - i, 1
  {
    if MatchKw(s, i, "if") then Some(ParseIf(s, After(s, i, "if")))
    else if MatchKw(s, i, "while") then Some(ParseWhile(s, After(s, i, "while")))
    else if MatchKw(s, i, "for") then Some(ParseFor(s, After(s, i, "for")))
    else if MatchKw(s, i, "case") then Some(ParseCase(s, After(s, i, "case")))
    else if MatchKw(s, i, "[[") then Some(ParseTest(s, After(s, i, "[[")))
    else if MatchKw(s, i, "function") then Some(ParseFn(s, After(s, i, "function"), true))
    else if LooksLikeFnDef(s, i) then Some(ParseFn(s, i, false))
    else None
  }

  function ParseItem(s: string, i: nat): (r: ItemResult)
    requires i < |s| && !IsSpace(s[i])
    ensures r.ItemGot? ==> i < r.pos <= |s| && WfKind(r.kind) && (r.background ==> r.next.Always?) &&
                           (!r.conn ==> r.next.Always?)
    ensures r.ItemEmpty? ==> r.conn && r.pos <= |s|
    decreases |s| - i, 2
  {
    match ParseCompound(s, i)
    case None => ParsePipelineItem(s, i)
    case Some(Fail) => ItemFail
    case Some(Got(kind, p)) => TakeConn(s, p, kind)
  }

  // Items up to a stop word or the end; `cond` is the condition of the next item.
  function ParseItems(s: string, i: nat, stops: set<Kw>, needStop: bool, cond: RunCond): (r: Parsed<seq<Item>>)
    requires i <= |s|
    ensures r.Got? ==> i <= r.pos <= |s| && WfFrom(r.value, cond)
    ensures r.Got? && needStop ==> Peek(s, r.pos, stops)
    decreases |s| - i, 3
  {
    var p := SkipWs(s, i);
    if p == |s| then (if needStop || !cond.Always? then Fail else Got([], p))
    else if Peek(s, p, stops) then (if !cond.Always? then Fail else Got([], p))
    else
      match ParseItem(s, p)
      case ItemFail => Fail
      case ItemEmpty(_, _) => Fail
      case ItemGot(kind, background, next, conn, q) =>
        var item := Item(kind, cond, background);
        if conn then
          match ParseItems(s, q, stops, needStop, next)
          case Fail => Fail
          case Got(rest, e) => Got([item] + rest, e)
        else
          var e := SkipWs(s, q);
          if e == |s| then (if needStop then Fail else Got([item], e))
          else if Peek(s, e, stops) then Got([item], e)
          else Fail
  }

  function ParseBody(s: string, i: nat, stops: set<Kw>): (r: Parsed<seq<Item>>)
    requires i <= |s|
    ensures r.Got? ==> i <= r.pos <= |s| && WfItems(r.value) && Peek(s, r.pos, stops)
    decreases |s| - i, 4
  {
    ParseItems(s, i, stops, true, Always)
  }

  // condition then body: an arm of if or elif
  function ParseArm(s: string, i: nat): (r: Parsed<Arm>)
    requires i <= |s|
    ensures r.Got? ==> i < r.pos <= |s| && WfItems(r.value.cond) && WfItems(r.value.body) &&
                       r.value.cond != [] && !r.value.isElse
    decreases |s| - i, 5
  {
    match ParseBody(s, i, {KwThen})
    case Fail => Fail
    case Got(cond, p) =>
      if cond == [] || !MatchKw(s, p, "then") then Fail
      else
        match ParseBody(s, After(s, p, "then"), {KwElif, KwElse, KwFi})
        case Fail => Fail
        case Got(body, q) => Got(Arm(cond, body, false), q)
  }

  // The arms after the first one, and fi.
  function ParseArms(s: string, i: nat): (r: Parsed<seq<Arm>>)
    requires i <= |s|
    ensures r.Got? ==> i < r.pos <= |s| && forall k :: 0 <= k < |r.value| ==>
              && WfItems(r.value[k].cond) && WfItems(r.value[k].body)
              && (r.value[k].isElse ==> k == |r.value| - 1 && r.value[k].cond == [])
              && (!r.value[k].isElse ==> r.value[k].cond != [])
    decreases |s| - i, 6
  {
    if MatchKw(s, i, "elif") then
      match ParseArm(s, After(s, i, "elif"))
      case Fail => Fail
      case Got(arm, p) =>
        match ParseArms(s, p)
        case Fail => Fail
        case Got(arms, q) => Got([arm] + arms, q)
    else if MatchKw(s, i, "else") then
      match ParseBody(s, After(s, i, "else"), {KwFi})
      case Fail => Fail
      case Got(body, p) =>
        if MatchKw(s, p, "fi") then Got([Arm([], body, true)], After(s, p, "fi")) else Fail
    else if MatchKw(s, i, "fi") then Got([], After(s, i, "fi"))
    else Fail
  }

  function ParseIf(s: string, i: nat): (r: Parsed<Kind>)
    requires i <= |s|
    ensures r.Got? ==> i < r.pos <= |s| && WfKind(r.value)
    decreases |s| - i, 6
  {
    match ParseArm(s, i)
    case Fail => Fail
    case Got(arm, p) =>
      match ParseArms(s, p)
      case Fail => Fail
      case Got(arms, q) => Got(If([arm] + arms), q)
  }

  function ParseWhile(s: string, i: nat): (r: Parsed<Kind>)
    requires i <= |s|
    ensures r.Got? ==> i < r.pos <= |s| && WfKind(r.value)
    decreases |s| - i, 6
  {
    match ParseBody(s, i, {KwDo})
    case Fail => Fail
    case Got(test, p) =>
      if test == [] || !MatchKw(s, p, "do") then Fail
      else
        match ParseBody(s, After(s, p, "do"), {KwDone})
        case Fail => Fail
        case Got(loop, q) => if MatchKw(s, q, "done") then Got(While(test, loop), After(s, q, "done")) else Fail
  }

  // The words of a for list, up to `;` (taken) or `do` (left).
  function ForWords(s: string, i: nat): (r: Parsed<seq<string>>)
    requires i <= |s|
    ensures r.Got? ==> i <= r.pos <= |s| && [] !in r.value
    decreases |s| - i
  {
    var p := SkipWs(s, i);
    if p == |s| then Fail
    else if s[p] == ';' then Got([], p + 1)
    else if MatchKw(s, p, "do") then Got([], p)
    else
      var w := ScanWord(ListWord, s, p);
      if w.text == [] then Fail
      else
        match ForWords(s, w.end)
        case Fail => Fail
        case Got(rest, q) => Got([w.text] + rest, q)
  }

  function ParseFor(s: string, i: nat): (r: Parsed<Kind>)
    requires i <= |s|
    ensures r.Got? ==> i < r.pos <= |s| && WfKind(r.value)
    decreases |s| - i, 6
  {
    var p := SkipWs(s, i);
    if At(s, p) == '(' then Fail
    else
      var name := ScanWord(ListWord, s, p);
      if name.text == [] || !MatchKw(s, name.end, "in") then Fail
      else
        match ForWords(s, After(s, name.end, "in"))
        case Fail => Fail
        case Got(words, q) =>
          if !MatchKw(s, q, "do") then Fail
          else
            match ParseBody(s, After(s, q, "do"), {KwDone})
            case Fail => Fail
            case Got(each, e) =>
              if MatchKw(s, e, "done") then Got(For(name.text, words, each), After(s, e, "done")) else Fail
  }

  // The patterns of a branch, through `)`.
  function Patterns(s: string, i: nat): (r: Parsed<seq<string>>)
    requires i <= |s|
    ensures r.Got? ==> i < r.pos <= |s| && r.value != [] && [] !in r.value
    decreases |s| - i
  {
    var p := SkipWs(s, i);
    if p == |s| then Fail
    else
      var w := ScanWord(Pattern, s, p);
      if w.text == [] then Fail
      else
        var q := SkipWs(s, w.end);
        if At(s, q) == '|' then
          match Patterns(s, q + 1)
          case Fail => Fail
          case Got(rest, e) => Got([w.text] + rest, e)
        else if At(s, q) == ')' then Got([w.text], q + 1)
        else Fail
  }

  predicate WfBranch(branch: Branch)
    decreases branch
  {
    branch.patterns != [] && [] !in branch.patterns && WfItems(branch.body)
  }

  // One branch of a case, through `;;`, or up to esac.
  function ParseBranch(s: string, i: nat): (r: Parsed<Branch>)
    requires i <= |s|
    ensures r.Got? ==> i < r.pos <= |s| && WfBranch(r.value)
    decreases |s| - i, 5
  {
    match Patterns(s, if At(s, i) == '(' then i + 1 else i)
    case Fail => Fail
    case Got(pats, q) =>
      match ParseBody(s, q, {KwDsemi, KwEsac})
      case Fail => Fail
      case Got(body, e) =>
        if MatchMark(s, e, ";;") then Got(Branch(pats, body), After(s, e, ";;"))
        else if MatchKw(s, e, "esac") then Got(Branch(pats, body), e)
        else Fail
  }

  // The branches of a case, through esac.
  function Branches(s: string, i: nat): (r: Parsed<seq<Branch>>)
    requires i <= |s|
    ensures r.Got? ==> i < r.pos <= |s| && forall k :: 0 <= k < |r.value| ==> WfBranch(r.value[k])
    decreases |s| - i, 6
  {
    if MatchKw(s, i, "esac") then Got([], After(s, i, "esac"))
    else
      var p := SkipWs(s, i);
      if p == |s| then Fail
      else
        match ParseBranch(s, p)
        case Fail => Fail
        case Got(branch, e) =>
          match Branches(s, e)
          case Fail => Fail
          case Got(rest, f) => Got([branch] + rest, f)
  }

  function ParseCase(s: string, i: nat): (r: Parsed<Kind>)
    requires i <= |s|
    ensures r.Got? ==> i < r.pos <= |s| && WfKind(r.value)
    decreases |s| - i, 7
  {
    var word := ScanWord(ListWord, s, SkipWs(s, i));
    if word.text == [] || !MatchKw(s, word.end, "in") then Fail
    else
      match Branches(s, After(s, word.end, "in"))
      case Fail => Fail
      case Got(branches, p) => Got(Case(word.text, branches), p)
  }

  // The tokens of [[ ]], through ]].
  function ParseDBracket(s: string, i: nat): (r: Parsed<(seq<string>, seq<int>)>)
    requires i <= |s|
    ensures r.Got? ==> i < r.pos <= |s| && [] !in r.value.0 && |r.value.1| == |r.value.0|
    decreases |s| - i
  {
    var p := SkipWs(s, i);
    if p == |s| then Fail
    else if MatchKw(s, p, "]]") then Got(([], []), After(s, p, "]]"))
    else
      var t := DBracketToken(s, p);
      if t.text == [] then Fail
      else
        match ParseDBracket(s, t.end)
        case Fail => Fail
        case Got(rest, q) => Got(([t.text] + rest.0, [t.mark] + rest.1), q)
  }

  function DBracketToken(s: string, p: nat): (r: Scan)
    requires p < |s|
    ensures r.end <= |s| && (r.text != [] ==> p < r.end)
  {
    if s[p] == '&' && At(s, p + 1) == '&' then Scan("&&", 0, p + 2)
    else if s[p] == '|' && At(s, p + 1) == '|' then Scan("||", 0, p + 2)
    else if s[p] == '!' && (At(s, p + 1) == NUL || IsSpace(At(s, p + 1)) || At(s, p + 1) == '&' || At(s, p + 1) == '|')
    then Scan("!", 0, p + 1)
    else ScanWord(ListWord, s, p)
  }

  function ParseTest(s: string, i: nat): (r: Parsed<Kind>)
    requires i <= |s|
    ensures r.Got? ==> i < r.pos <= |s| && WfKind(r.value)
    decreases |s| - i, 6
  {
    match ParseDBracket(s, i)
    case Fail => Fail
    case Got(t, p) => Got(DBracket(t.0, t.1), p)
  }

  function ParseFn(s: string, i: nat, keyword: bool): (r: Parsed<Kind>)
    requires i <= |s|
    ensures r.Got? ==> i < r.pos <= |s| && WfKind(r.value)
    decreases |s| - i, 0
  {
    var p := SkipWs(s, i);
    if p == |s| || !IsNameStart(s[p]) then Fail
    else
      var e := NameEnd(s, p);
      var parens := EmptyParens(s, e);
      var opens := At(s, SkipWs(s, e)) == '(';
      if (opens && parens.None?) || (!opens && !keyword) then Fail
      else
        var q := if opens then parens.value else e;
        if !MatchMark(s, q, "{") then Fail
        else
          match ParseBody(s, After(s, q, "{"), {KwRbrace})
          case Fail => Fail
          case Got(body, f) => if MatchMark(s, f, "}") then Got(Fn(s[p..e], body), After(s, f, "}")) else Fail
  }

  function ParseList(s: string): (r: Option<seq<Item>>)
    ensures r.Some? ==> WfItems(r.value)
  {
    match ParseItems(s, 0, {}, false, Always)
    case Fail => None
    case Got(items, _) => Some(items)
  }
}
