// What quotes, $(...), the redirection operators and the two forms of a definition mean to the parser,
// on the text of a script.
module ParserLaws {
  import opened CStrings
  import opened Ast
  import opened Lexer
  import opened Grammar
  import opened Printer
  import opened RoundTrip

  // A command of plain words.
  function OfWords(argv: seq<string>, quoted: seq<int>): Cmd {
    EMPTY_CMD.(argv := argv, quoted := quoted)
  }

  lemma OneCommand(c: Cmd)
    requires PrintableCmd(c) && CommandStart(c)
    ensures ParseList(PrintPipeline([c]) + " ; ") == Some([Item(Pipeline([c]), Always, false)])
  {
    hide ParseList, PrintPipeline, PrintableCmd, CommandStart;
    var items := [Item(Pipeline([c]), Always, false)];
    assert PrintableKind(Pipeline([c]));
    assert items[1..] == [] && PrintItems([]) == "";
    assert PrintItem(items[0]) == PrintPipeline([c]);
    assert ConnText(false, Always) == " ; " by { assert ConnMark(false, Always) == ";"; }
    assert PrintItems(items) == PrintPipeline([c]) + (" ; " + "");
    assert " ; " + "" == " ; ";
    assert PrintableFrom([], Always);
    PrintThenParse(items);
  }

  // A word after a command.
  lemma WordAfter(w: string, mark: int)
    requires PrintableWord(w, mark)
    ensures ParseList(("c " + WordText(w, mark)) + " ; ") ==
            Some([Item(Pipeline([OfWords(["c", w], [0, mark])]), Always, false)])
  {
    hide ParseList, PrintableWord, WordText;
    var c := OfWords(["c", w], [0, mark]);
    assert PlainWord("c") && CommandWord("c");
    PlainIsUnquoted("c");
    BareText("c");
    assert PrintableCmd(c);
    var toks := [Word("c", 0), Word(w, mark)];
    assert CmdTokens(c) == toks by { assert RedirTokens(c) == []; }
    assert PipelineTokens([c]) == toks;
    assert toks[1..] == [Word(w, mark)] && PrintTokens(toks[1..]) == WordText(w, mark);
    assert PrintTokens(toks) == "c" + " " + WordText(w, mark);
    assert "c" + " " == "c ";
    OneCommand(c);
  }

  // Between single quotes any text without them is one literal word, between double quotes any text
  // without those one word to be expanded: blanks, ; | & < > ( ) and $( in it mean nothing.
  lemma QuotesProtect(text: string)
    ensures '\'' !in text ==>
              ParseList("c '" + text + "' ; ") ==
              Some([Item(Pipeline([OfWords(["c", text], [0, 1])]), Always, false)])
    ensures '"' !in text ==>
              ParseList("c \"" + text + "\" ; ") ==
              Some([Item(Pipeline([OfWords(["c", text], [0, 2])]), Always, false)])
  {
    hide ParseList;
    if '\'' !in text {
      WordAfter(text, 1);
      Around("c ", "'", text, " ; ");
      assert "c " + "'" == "c '" && "'" + " ; " == "' ; ";
    }
    if '"' !in text {
      WordAfter(text, 2);
      Around("c ", "\"", text, " ; ");
      assert "c " + "\"" == "c \"" && "\"" + " ; " == "\" ; ";
    }
  }

  lemma Around(a: string, q: string, text: string, b: string)
    ensures (a + (q + (text + q))) + b == (a + q) + text + (q + b)
  {
  }

  // $(...) is part of a bare word with all it holds, quotes and parentheses in pairs.
  lemma GroupsProtect(g: Group)
    requires WfGroup(g)
    ensures ParseList(("c " + ("$(" + (GroupText(g) + ")"))) + " ; ") ==
            Some([Item(Pipeline([OfWords(["c", "$(" + (GroupText(g) + ")")], [0, 0])]), Always, false)])
  {
    hide ParseList;
    var w := "$(" + (GroupText(g) + ")");
    var ps := [Sub(g)];
    assert WfPiece(ps[0]) && WfPieces(ps);
    assert ps[1..] == [] && PiecesText([]) == "" && PiecesText(ps) == w + "" == w;
    WordAfter(w, 0);
  }

  // ---- redirections ----

  lemma TokensOf(toks: seq<Token>)
    requires toks != [] && forall k :: 0 <= k < |toks| ==> PrintableToken(toks[k])
    ensures ParsePipeline(PrintTokens(toks)) == Stages(toks, 0)
  {
    hide Stages, PrintTokens, PrintableToken;
    TokenizeBack(PrintTokens(toks), 0, toks);
  }

  // A printable pipeline of tokens in a list is that pipeline, or the list is refused as it is.
  lemma TokensInList(toks: seq<Token>)
    requires toks != [] && (forall k :: 0 <= k < |toks| ==> PrintableToken(toks[k]))
    requires toks[0].Word? && toks[0].mark == 0 && CommandWord(toks[0].text)
    ensures ParseList(PrintTokens(toks) + " ; ") ==
            match ParsePipeline(PrintTokens(toks))
            case None => None
            case Some(cmds) => Some([Item(Pipeline(cmds), Always, false)])
  {
    hide ParsePipeline, PrintTokens, PrintableToken, HasAt, FindConn, ParseCompound, ParseList, IsSpace, CommandWord;
    hide ParsePipelineItem;
    var t := PrintTokens(toks);
    var s, e := t + " ; ", |t|;
    FrontHere(t, " ; ");
    SpacedConn(s, e);
    TokensSkip(s, 0, toks);
    TokensAlone(s, toks);
    assert s[0..e] == t;
    var cmds := ParsePipeline(t);
    if cmds.Some? {
      PipelineItemStep(s, 0, e, cmds.value, false, Always, 1);
      GotList(s, cmds.value);
    } else {
      NoPipeline(s, e);
      NoList(s);
    }
  }

  lemma FrontHere(a: string, b: string)
    ensures HasAt(a + b, 0, a) && HasAt(a + b, |a|, b)
  {
    assert (a + b)[0..|a|] == a && (a + b)[|a|..|a| + |b|] == b;
  }

  lemma SpacedConn(s: string, e: nat)
    requires HasAt(s, e, " ; ") && e + 3 == |s|
    ensures BlankAt(s, e) && BlankAt(s, e + 2) && FindConn(s, e + 1, NUL) == Some(Conn(e + 1, Always, 1, false))
    ensures s[e + 1] == ';'
  {
    assert ConnText(false, Always) == " ; " && |ConnMark(false, Always)| == 1;
    ConnBack(s, e, false, Always);
    CharAt(s, e, " ; ", 1);
  }

  // Such a text is no compound command.
  lemma TokensAlone(s: string, toks: seq<Token>)
    requires toks != [] && (forall k :: 0 <= k < |toks| ==> PrintableToken(toks[k]))
    requires toks[0].Word? && toks[0].mark == 0 && CommandWord(toks[0].text)
    requires HasAt(s, 0, PrintTokens(toks))
    requires var e := |PrintTokens(toks)|; BlankAt(s, e) && e + 1 < |s| && s[e + 1] == ';'
    ensures s != [] && !IsSpace(s[0]) && ParseCompound(s, 0).None?
  {
    hide PrintTokens, PrintableToken, HasAt, FindConn, MatchKw, LooksLikeFnDef, SkipWs;
    hide ParseIf, ParseWhile, ParseFor, ParseCase, ParseTest, ParseFn, WfKind, BareWord, PlainWord;
    var w := toks[0].text;
    TokensSkip(s, 0, toks);
    BareText(w);
    PlainNoKw(s, 0, w);
    NotFnWord(s, 0, w);
  }

  lemma NoPipeline(s: string, e: nat)
    requires 0 < e < |s| && !IsSpace(s[0]) && !IsSpace(s[e - 1]) && s[e] == ' '
    requires FindConn(s, 0, NUL) == Some(Conn(e + 1, Always, 1, false)) && ParsePipeline(s[0..e]) == None
    ensures ParsePipelineItem(s, 0) == ItemFail
  {
    hide FindConn, ParsePipeline, WfKind;
    assert SkipWsTo(s, 0, e + 1) == 0;
    assert TrimEnd(s, 0, e) == e;
    assert TrimEnd(s, 0, e + 1) == e;
  }

  lemma GotList(s: string, cmds: seq<Cmd>)
    requires |s| > 3 && !IsSpace(s[0]) && ParseCompound(s, 0).None? && BlankAt(s, |s| - 1)
    requires ParsePipelineItem(s, 0) == ItemGot(Pipeline(cmds), false, Always, true, |s| - 1)
    ensures ParseList(s) == Some([Item(Pipeline(cmds), Always, false)])
  {
    hide ParseCompound, ParsePipelineItem, WfKind, WfFrom;
    var e := |s| - 1;
    SkipWsHere(s, 0);
    SkipBlank(s, e);
    ItemsEnd(s, e, |s|, {}, false);
    ItemsStep(s, 0, 0, {}, false, Always, Item(Pipeline(cmds), Always, false), Always, e, [], |s|);
    assert [Item(Pipeline(cmds), Always, false)] + [] == [Item(Pipeline(cmds), Always, false)];
  }

  lemma NoList(s: string)
    requires s != [] && !IsSpace(s[0]) && ParseCompound(s, 0).None? && ParsePipelineItem(s, 0) == ItemFail
    ensures ParseList(s) == None
  {
    hide ParseCompound, ParsePipelineItem, WfKind, WfFrom;
    SkipWsHere(s, 0);
    assert !Peek(s, 0, {});
    assert ParseItem(s, 0) == ItemFail;
    assert ParseItems(s, 0, {}, false, Always) == Fail;
  }

  lemma OneStage(toks: seq<Token>)
    requires toks != [] && forall k :: 0 <= k < |toks| ==> !toks[k].Pipe?
    ensures Stages(toks, 0) == (match Stage(toks, 0, EMPTY_CMD) case None => None case Some(c) => Some([c]))
  {
    hide Stage;
    NextPipeAt(toks, 0, |toks|);
    assert toks[0..|toks|] == toks;
  }

  // &> f is > f 2>&1; the & is no connector.
  lemma BothOutputs(f: string)
    requires PlainWord(f)
    ensures var c := OfWords(["c"], [0]).(redirOut := Some(f), redirErrToOut := true);
            && ParseList("c &> " + f + " ; ") == Some([Item(Pipeline([c]), Always, false)])
            && ParseList("c > " + f + " 2>&1" + " ; ") == Some([Item(Pipeline([c]), Always, false)])
  {
    hide ParsePipeline, ParseList, Stages, Stage, PrintTokens, PrintableWord, TokenText;
    assert CommandWord("c");
    var a := [Word("c", 0), AmpGt, Word(f, 0)];
    var b := [Word("c", 0), Gt, Word(f, 0), ErrToOut];
    Printables(f);
    TokensOf(a);
    TokensOf(b);
    TokensInList(a);
    TokensInList(b);
    OneStage(a);
    OneStage(b);
    SameStage(f);
    Three("c", AmpGt, f);
    Four("c", Gt, f, ErrToOut);
    Spellings();
    assert "c &> " == "c" + " " + ("&>" + " ") && "c > " == "c" + " " + (">" + " ") && " 2>&1" == " " + "2>&1";
  }

  lemma SameStage(f: string)
    ensures var c := OfWords(["c"], [0]).(redirOut := Some(f), redirErrToOut := true);
            && Stage([Word("c", 0), AmpGt, Word(f, 0)], 0, EMPTY_CMD) == Some(c)
            && Stage([Word("c", 0), Gt, Word(f, 0), ErrToOut], 0, EMPTY_CMD) == Some(c)
  {
    var a := [Word("c", 0), AmpGt, Word(f, 0)];
    var b := [Word("c", 0), Gt, Word(f, 0), ErrToOut];
    var d := OfWords(["c"], [0]);
    assert EMPTY_CMD.argv + ["c"] == ["c"] && EMPTY_CMD.quoted + [0] == [0];
    assert Stage(a, 0, EMPTY_CMD) == Stage(a, 1, d) && Stage(b, 0, EMPTY_CMD) == Stage(b, 1, d);
    assert Stage(b, 1, d) == Stage(b, 3, d.(redirOut := Some(f)));
  }

  // Of two redirections of one kind the second counts.
  lemma SecondCounts(f: string, g: string)
    ensures var d := OfWords(["c"], [0]);
            && Stage([Word("c", 0), Gt, Word(f, 0), GtGt, Word(g, 0)], 0, EMPTY_CMD) ==
               Some(d.(redirOut := Some(g), redirAppend := true))
            && Stage([Word("c", 0), Lt, Word(f, 0), Lt, Word(g, 0)], 0, EMPTY_CMD) == Some(d.(redirIn := Some(g)))
            && Stage([Word("c", 0), ErrToOut, ErrGt, Word(g, 0)], 0, EMPTY_CMD) == Some(d.(redirErr := Some(g)))
            && Stage([Word("c", 0), DLess, Word(f, 0), Lt, Word(g, 0)], 0, EMPTY_CMD) == Some(d.(redirIn := Some(g)))
  {
    var d := OfWords(["c"], [0]);
    assert EMPTY_CMD.argv + ["c"] == ["c"] && EMPTY_CMD.quoted + [0] == [0];
    TwoOps(Gt, f, GtGt, g);
    TwoOps(Lt, f, Lt, g);
    TwoOps(DLess, f, Lt, g);
    var e := [Word("c", 0), ErrToOut, ErrGt, Word(g, 0)];
    assert Stage(e, 0, EMPTY_CMD) == Stage(e, 1, d);
    assert Stage(e, 1, d) == Stage(e, 2, d.(redirErrToOut := true));
    assert Stage(e, 2, d.(redirErrToOut := true)) == Stage(e, 4, d.(redirErr := Some(g)));
  }

  lemma TwoOps(x: Token, f: string, y: Token, g: string)
    requires x in [Gt, Lt, DLess] && y in [GtGt, Lt]
    ensures var d := OfWords(["c"], [0]);
            var r := Redirect(d, x, f, 0);
            r.Some? && Stage([Word("c", 0), x, Word(f, 0), y, Word(g, 0)], 0, EMPTY_CMD) == Redirect(r.value, y, g, 0)
    ensures Redirect(OfWords(["c"], [0]), x, f, 0).value.argv == ["c"]
  {
    var toks := [Word("c", 0), x, Word(f, 0), y, Word(g, 0)];
    var d := OfWords(["c"], [0]);
    assert EMPTY_CMD.argv + ["c"] == ["c"] && EMPTY_CMD.quoted + [0] == [0];
    assert Stage(toks, 0, EMPTY_CMD) == Stage(toks, 1, d);
    var r := Redirect(d, x, f, 0).value;
    assert Stage(toks, 1, d) == Stage(toks, 3, r);
    assert Stage(toks, 3, r) == Stage(toks, 5, Redirect(r, y, g, 0).value);
  }

  lemma Spellings()
    ensures TokenText(AmpGt) == "&>" && TokenText(Gt) == ">" && TokenText(ErrToOut) == "2>&1"
  {
  }

  lemma Printables(f: string)
    requires PlainWord(f)
    ensures PrintableToken(Word(f, 0)) && PrintableToken(Word("c", 0))
  {
    PlainIsUnquoted(f);
    assert PlainWord("c");
    PlainIsUnquoted("c");
  }

  lemma Three(c: string, op: Token, f: string)
    ensures PrintTokens([Word(c, 0), op, Word(f, 0)]) == (c + " " + (TokenText(op) + " ")) + f
  {
    hide TokenText;
    var toks := [Word(c, 0), op, Word(f, 0)];
    assert toks[1..] == [op, Word(f, 0)] && toks[1..][1..] == [Word(f, 0)];
    assert TokenText(Word(c, 0)) == c && TokenText(Word(f, 0)) == f by { TextOfWord(c); TextOfWord(f); }
    assert PrintTokens(toks[1..]) == TokenText(op) + " " + f;
    assert PrintTokens(toks) == c + " " + (TokenText(op) + " " + f);
    assert c + " " + (TokenText(op) + " " + f) == (c + " " + (TokenText(op) + " ")) + f;
  }

  lemma TextOfWord(w: string)
    ensures TokenText(Word(w, 0)) == w
  {
  }

  lemma Four(c: string, op: Token, f: string, last: Token)
    ensures PrintTokens([Word(c, 0), op, Word(f, 0), last]) ==
            (c + " " + (TokenText(op) + " ")) + f + (" " + TokenText(last))
  {
    hide TokenText;
    var toks := [Word(c, 0), op, Word(f, 0), last];
    assert toks[1..] == [op, Word(f, 0), last] && toks[1..][1..] == [Word(f, 0), last];
    assert toks[1..][1..][1..] == [last];
    assert TokenText(Word(c, 0)) == c && TokenText(Word(f, 0)) == f by { TextOfWord(c); TextOfWord(f); }
    var x, y := TokenText(op), TokenText(last);
    assert PrintTokens(toks[1..][1..]) == f + " " + y;
    assert PrintTokens(toks[1..]) == x + " " + (f + " " + y);
    assert PrintTokens(toks) == c + " " + (x + " " + (f + " " + y));
    assert c + " " + (x + " " + (f + " " + y)) == (c + " " + (x + " ")) + f + (" " + y);
  }

  // ---- the other form of a definition ----

  lemma NameParts(s: string, name: string, rest: string)
    requires IsFnName(name) && s == name + ("() { " + rest)
    ensures HasAt(s, 0, name) && HasAt(s, |name| + 5, rest) && |s| == |name| + 5 + |rest|
    ensures s[|name|] == '(' && s[|name| + 1] == ')' && BlankAt(s, |name| + 2) && s[|name| + 3] == '{'
    ensures BlankAt(s, |name| + 4) && SkipWs(s, |name| + 2) == |name| + 3 && HasAt(s, |name| + 3, "{")
  {
    var n := |name|;
    assert HasAt(s, 0, name + ("() { " + rest));
    hide HasAt;
    HasSplit(s, 0, name, "() { " + rest);
    HasSplit(s, n, "() { ", rest);
    CharAt(s, n, "() { ", 0);
    CharAt(s, n, "() { ", 1);
    CharAt(s, n, "() { ", 2);
    CharAt(s, n, "() { ", 3);
    CharAt(s, n, "() { ", 4);
    SkipBlank(s, n + 2);
    BraceAt(s, n + 3);
  }

  lemma BraceAt(s: string, p: nat)
    requires p < |s| && s[p] == '{'
    ensures HasAt(s, p, "{")
  {
    assert s[p..p + 1] == "{";
  }

  // A keyword does not stand where a name is followed by a parenthesis.
  lemma NoKwAtName(s: string, name: string, kw: string)
    requires IsFnName(name) && HasAt(s, 0, name) && |s| > |name| && s[|name|] == '(' && SkipWs(s, 0) == 0
    requires BareWord(kw) && '(' !in kw
    ensures !MatchKw(s, 0, kw)
  {
    if MatchKw(s, 0, kw) {
      NameAt(s, 0, name);
    }
  }

  lemma {:induction false} NameEndAtParen(s: string, p: nat, e: nat)
    requires p <= e < |s| && s[e] == '(' && forall k :: p <= k < e ==> IsNameChar(s[k])
    ensures NameEnd(s, p) == e
    decreases e - p
  {
    if p < e {
      NameEndAtParen(s, p + 1, e);
    }
  }

  lemma ParensAt(s: string, e: nat)
    requires e + 1 < |s| && s[e] == '(' && s[e + 1] == ')'
    ensures SkipWs(s, e) == e && EmptyParens(s, e) == Some(e + 2)
  {
    SkipWsHere(s, e);
    SkipWsHere(s, e + 1);
  }

  // name() { body; } defines what function name { body; } defines, whatever the name.
  lemma NameThenParens(name: string, body: seq<Item>)
    requires IsFnName(name) && PrintableFrom(body, Always)
    ensures ParseList(name + ("() { " + (PrintItems(body) + "} ; "))) == Some([Item(Fn(name, body), Always, false)])
  {
    hide PrintItems, PrintableFrom, HasAt, ParseBody, ParseCompound, ParseList, IsFnName, WfItems, SkipWs, MatchMark;
    var b := PrintItems(body);
    var rest := b + "} ; ";
    var s := name + ("() { " + rest);
    var n := |name|;
    NameParts(s, name, rest);
    NameAt(s, 0, name);
    var f := n + 5 + |b|;
    HasSplit(s, n + 5, b, "} ; ");
    HasSplit(s, f, "}", " ; ");
    RbraceAt(s, f);
    BodyBack(s, n + 4, body, {KwRbrace}, KwRbrace);
    NameParses(s, name, body, f);
    ListOf(s, Fn(name, body), f + 1);
  }

  lemma NameParses(s: string, name: string, body: seq<Item>, f: nat)
    requires IsFnName(name) && HasAt(s, 0, name) && |s| > |name| + 4
    requires var n := |name|;
             && s[n] == '(' && s[n + 1] == ')' && SkipWs(s, n + 2) == n + 3 && HasAt(s, n + 3, "{")
             && ParseBody(s, n + 4, {KwRbrace}) == Got(body, f)
    requires MatchMark(s, f, "}") && SkipWs(s, f) == f
    ensures ParseCompound(s, 0) == Some(Got(Fn(name, body), f + 1))
  {
    hide ParseBody, WfItems, HasAt, ParseIf, ParseWhile, ParseFor, ParseCase, ParseTest, MatchKw, BareWord;
    var n := |name|;
    NameAt(s, 0, name);
    SkipWsHere(s, 0);
    KeywordsBare();
    NoKwAtName(s, name, "if");
    NoKwAtName(s, name, "while");
    NoKwAtName(s, name, "for");
    NoKwAtName(s, name, "case");
    NoKwAtName(s, name, "[[");
    NoKwAtName(s, name, "function");
    NameEndAtParen(s, 0, n);
    ParensAt(s, n);
    hide IsFnName, SkipWs;
    assert s[0..n] == name;
  }

  lemma ListOf(s: string, kind: Kind, e: nat)
    requires s != [] && !IsSpace(s[0]) && ParseCompound(s, 0) == Some(Got(kind, e))
    requires e + 3 == |s| && HasAt(s, e, " ; ")
    ensures ParseList(s) == Some([Item(kind, Always, false)])
  {
    hide ParseCompound, HasAt, WfKind, FindConn, WfFrom;
    assert ConnText(false, Always) == " ; " && |ConnMark(false, Always)| == 1;
    TakeConnBack(s, e, kind, false, Always);
    SkipWsHere(s, 0);
    CharAt(s, e, " ; ", 2);
    SkipWsHere(s, |s|);
    SkipBlank(s, e + 2);
    assert ParseItem(s, 0) == ItemGot(kind, false, Always, true, e + 2);
    ItemsEnd(s, e + 2, |s|, {}, false);
    ItemsStep(s, 0, 0, {}, false, Always, Item(kind, Always, false), Always, e + 2, [], |s|);
    assert [Item(kind, Always, false)] + [] == [Item(kind, Always, false)];
  }

  // ---- the last branch of a case ----

  lemma PatternsSame(s: string, i: nat)
    requires BlankAt(s, i) && i + 1 < |s| && !IsSpace(s[i + 1])
    ensures Patterns(s, i) == Patterns(s, i + 1)
  {
    SkipBlank(s, i);
    SkipWsHere(s, i + 1);
    hide SkipWs, ScanWord;
  }

  // A pattern that is not the bare word esac is none of what ends a case.
  lemma NoEsac(s: string, i: nat, w: string)
    requires BlankAt(s, i) && Showable(w) && w != "esac"
    requires HasAt(s, i + 1, ShowWord(w)) && BlankAt(s, i + 1 + |ShowWord(w)|)
    ensures i + 1 < |s| && !IsSpace(s[i + 1]) && s[i + 1] != '(' && SkipWs(s, i) == i + 1 && !MatchKw(s, i, "esac")
  {
    hide HasAt, ShowWord, Showable, PlainWord, ScanWord;
    ShowBack(Pattern, s, i + 1, w);
    SkipBlank(s, i);
    KeywordsBare();
    if Mark(w) == 0 {
      PlainIsBare(w);
      KwIsWord(s, i, i + 1, w, "esac");
    } else {
      NotHas(s, i + 1, "esac");
    }
  }

  lemma PatternsFront(s: string, p: nat, pats: seq<string>)
    requires pats != [] && HasAt(s, p, PrintPatterns(pats))
    ensures HasAt(s, p, ShowWord(pats[0])) && BlankAt(s, p + |ShowWord(pats[0])|)
  {
    hide HasAt, ShowWord;
    var w := ShowWord(pats[0]);
    if |pats| == 1 {
      HasSplit(s, p, w, " )");
      CharAt(s, p + |w|, " )", 0);
    } else {
      HasSplit(s, p, w, " | " + PrintPatterns(pats[1..]));
      HasSplit(s, p + |w|, " | ", PrintPatterns(pats[1..]));
      CharAt(s, p + |w|, " | ", 0);
    }
  }

  // The parenthesis in front of the patterns and the ;; of the last branch may be left out.
  lemma LastBranch(word: string, pats: seq<string>, body: seq<Item>)
    requires Showable(word) && Showables(pats) && pats != [] && pats[0] != "esac" && PrintableFrom(body, Always)
    ensures ParseList("case " + (ShowWord(word) + (" in " + (PrintPatterns(pats) +
                      (" " + (PrintItems(body) + ("esac" + " ; "))))))) ==
            Some([Item(Case(word, [Branch(pats, body)]), Always, false)])
  {
    hide PrintItems, PrintableFrom, PrintPatterns, HasAt, ParseBody, ParseList, ParseCompound, Showable, Showables;
    hide ShowWord, MatchKw, SkipWs, IsSpace, Patterns, ParseCase, Branches;
    var w, a, b := ShowWord(word), PrintPatterns(pats), PrintItems(body);
    var s := "case " + (w + (" in " + (a + (" " + (b + ("esac" + " ; "))))));
    var n := 5 + |w|;
    var q := n + 4 + |a|;
    var e := q + 1 + |b|;
    CaseParts(s, w, a, b);
    InAt(s, n);
    PatternsFront(s, n + 4, pats);
    assert Showable(pats[0]) by { FirstShowable(pats); }
    NoEsac(s, n + 3, pats[0]);
    PatternsBack(s, n + 3, pats);
    PatternsSame(s, n + 3);
    BodyBack(s, q, body, {KwDsemi, KwEsac}, KwEsac);
    LastStep(s, n + 3, pats, q, body, e);
    CaseStep(s, 4, word, [Branch(pats, body)], e + 4);
    CompoundStep(s, 0, "case");
    ListOf(s, Case(word, [Branch(pats, body)]), e + 4);
  }

  lemma FirstShowable(pats: seq<string>)
    requires pats != [] && Showables(pats)
    ensures Showable(pats[0])
  {
  }

  lemma CaseParts(s: string, w: string, a: string, b: string)
    requires s == "case " + (w + (" in " + (a + (" " + (b + ("esac" + " ; "))))))
    ensures var n := 5 + |w|;
            var q := n + 4 + |a|;
            var e := q + 1 + |b|;
            && HasAt(s, 0, "case") && BlankAt(s, 4) && HasAt(s, 5, w) && HasAt(s, n, " in ") && HasAt(s, n + 4, a)
            && BlankAt(s, q) && HasAt(s, q + 1, b) && HasAt(s, e + 4, " ; ") && e + 7 == |s|
            && SkipWs(s, e) == e && MatchKw(s, e, "esac") && PeekOne(s, e, KwEsac) && !IsSpace(s[e]) && s[e] == 'e'
            && s != [] && !IsSpace(s[0])
  {
    hide HasAt, MatchKw, SkipWs, IsSpace, PeekOne, BareWord, BlankAt;
    var c := "esac" + " ; ";
    var rest := w + (" in " + (a + (" " + (b + c))));
    Whole(s);
    KeywordsBare();
    KwBlank(s, 0, "case", "case ", rest);
    WordsOfCase(s, 5, w, a, b, c);
    EsacEnd(s, 5 + |w| + 4 + |a| + 1 + |b|);
  }

  lemma WordsOfCase(s: string, p: nat, w: string, a: string, b: string, c: string)
    requires HasAt(s, p, w + (" in " + (a + (" " + (b + c)))))
    ensures var n := p + |w|;
            var q := n + 4 + |a|;
            && HasAt(s, p, w) && HasAt(s, n, " in ") && HasAt(s, n + 4, a) && BlankAt(s, q) && HasAt(s, q + 1, b)
            && HasAt(s, q + 1 + |b|, c)
  {
    hide HasAt;
    var n := p + |w|;
    var q := n + 4 + |a|;
    HasSplit(s, p, w, " in " + (a + (" " + (b + c))));
    HasSplit(s, n, " in ", a + (" " + (b + c)));
    HasSplit(s, n + 4, a, " " + (b + c));
    HasSplit(s, q, " ", b + c);
    CharAt(s, q, " ", 0);
    HasSplit(s, q + 1, b, c);
  }

  lemma EsacEnd(s: string, e: nat)
    requires HasAt(s, e, "esac" + " ; ")
    ensures SkipWs(s, e) == e && MatchKw(s, e, "esac") && PeekOne(s, e, KwEsac) && !IsSpace(s[e]) && s[e] == 'e'
    ensures HasAt(s, e + 4, " ; ")
  {
    hide HasAt, MatchKw, SkipWs;
    KeywordsBare();
    HasSplit(s, e, "esac", " ; ");
    CharAt(s, e + 4, " ; ", 0);
    CharAt(s, e, "esac", 0);
    KwLast(s, e, "esac");
  }

  lemma Whole(s: string)
    ensures HasAt(s, 0, s)
  {
  }

  lemma LastStep(s: string, i: nat, pats: seq<string>, q: nat, body: seq<Item>, e: nat)
    requires BlankAt(s, i) && i + 1 < |s| && SkipWs(s, i) == i + 1 && s[i + 1] != '(' && !MatchKw(s, i, "esac")
    requires Patterns(s, i + 1) == Got(pats, q) && ParseBody(s, q, {KwDsemi, KwEsac}) == Got(body, e)
    requires e < |s| && SkipWs(s, e) == e && MatchKw(s, e, "esac") && s[e] == 'e'
    ensures Branches(s, i) == Got([Branch(pats, body)], e + 4)
  {
    hide Patterns, ParseBody, WfItems, SkipWs;
    NotHas(s, e, ";;");
    assert ParseBranch(s, i + 1) == Got(Branch(pats, body), e);
    assert Branches(s, e) == Got([], e + 4);
    assert [Branch(pats, body)] + [] == [Branch(pats, body)];
  }
}
