// Which texts the parser refuses: what each stage of a pipeline needs, connectors with nothing to join,
// and compound commands that are not finished.
module Refusals {
  import opened CStrings
  import opened Ast
  import opened Lexer
  import opened Grammar
  import opened Printer
  import opened RoundTrip
  import opened ParserLaws

  // ---- pipelines ----

  // A redirection that takes the word after it.
  predicate TakesWord(t: Token) {
    t != Pipe && t != ErrToOut && !t.Word?
  }

  // A word that is an argument, not the path of a redirection.
  predicate IsArgument(toks: seq<Token>, k: int) {
    0 <= k < |toks| && toks[k].Word? && (k > 0 ==> !TakesWord(toks[k - 1]))
  }

  predicate HasArgument(toks: seq<Token>, a: nat, b: nat) {
    exists k :: a <= k < b && IsArgument(toks, k)
  }

  // Each redirection from a on has its word.
  predicate PathsGiven(toks: seq<Token>, a: nat) {
    forall k :: a <= k < |toks| && TakesWord(toks[k]) ==> k + 1 < |toks| && toks[k + 1].Word?
  }

  lemma PathsStep(toks: seq<Token>, i: nat)
    requires i < |toks|
    ensures PathsGiven(toks, i) <==>
            PathsGiven(toks, i + 1) && (TakesWord(toks[i]) ==> i + 1 < |toks| && toks[i + 1].Word?)
  {
  }

  lemma ArgumentStep(toks: seq<Token>, i: nat, n: nat)
    requires i < n
    ensures HasArgument(toks, i, n) <==> IsArgument(toks, i) || HasArgument(toks, i + 1, n)
  {
  }

  lemma RedirectKeeps(c: Cmd, op: Token, path: string, mark: int)
    requires TakesWord(op)
    ensures var r := Redirect(c, op, path, mark); r.Some? && r.value.argv == c.argv
  {
  }

  lemma {:induction false} StageExactly(toks: seq<Token>, i: nat, c: Cmd)
    requires i <= |toks| && (forall k :: 0 <= k < |toks| ==> !toks[k].Pipe?)
    requires i > 0 ==> !TakesWord(toks[i - 1])
    ensures Stage(toks, i, c).Some? <==> PathsGiven(toks, i) && (c.argv != [] || HasArgument(toks, i, |toks|))
    decreases |toks| - i
  {
    hide PathsGiven, HasArgument, Redirect;
    if i == |toks| {
      Nothing(toks);
    } else {
      PathsStep(toks, i);
      ArgumentStep(toks, i, |toks|);
      var t := toks[i];
      if t.Word? {
        StageExactly(toks, i + 1, c.(argv := c.argv + [t.text], quoted := c.quoted + [t.mark]));
      } else if t.ErrToOut? {
        StageExactly(toks, i + 1, c.(redirErr := None, redirErrAppend := false, redirErrToOut := true));
      } else if i + 1 < |toks| && toks[i + 1].Word? {
        RedirectKeeps(c, t, toks[i + 1].text, toks[i + 1].mark);
        PathsStep(toks, i + 1);
        ArgumentStep(toks, i + 1, |toks|);
        StageExactly(toks, i + 2, Redirect(c, t, toks[i + 1].text, toks[i + 1].mark).value);
      }
    }
  }

  lemma Nothing(toks: seq<Token>)
    ensures PathsGiven(toks, |toks|) && !HasArgument(toks, |toks|, |toks|)
  {
  }

  // A bar, or the end.
  predicate StageEnd(toks: seq<Token>, e: nat) {
    e == |toks| || (e < |toks| && toks[e].Pipe?)
  }

  // Between a and e there is an argument after the last bar.
  predicate ArgumentBefore(toks: seq<Token>, a: nat, e: nat)
    requires e <= |toks|
  {
    exists k :: a <= k < e && IsArgument(toks, k) && forall j :: k <= j < e ==> !toks[j].Pipe?
  }

  predicate StagesGiven(toks: seq<Token>, a: nat) {
    forall e :: a <= e <= |toks| && StageEnd(toks, e) ==> ArgumentBefore(toks, a, e)
  }

  // A pipeline is accepted exactly when each redirection has its word and each stage an argument.
  lemma {:induction false} StagesExactly(toks: seq<Token>, begin: nat)
    requires begin < |toks| && (begin > 0 ==> toks[begin - 1].Pipe?)
    ensures Stages(toks, begin).Some? <==> PathsGiven(toks, begin) && StagesGiven(toks, begin)
    decreases |toks| - begin
  {
    hide PathsGiven, StagesGiven, Stage;
    var e := NextPipe(toks, begin);
    var stage := toks[begin..e];
    StageExactly(stage, 0, EMPTY_CMD);
    StageHere(toks, begin, e);
    if e + 1 < |toks| {
      StagesExactly(toks, e + 1);
    }
    GivenHere(toks, begin, e);
  }

  lemma StageHere(toks: seq<Token>, a: nat, e: nat)
    requires a <= e <= |toks| && (a > 0 ==> toks[a - 1].Pipe?) && (e < |toks| ==> toks[e].Pipe?)
    requires forall k :: a <= k < e ==> !toks[k].Pipe?
    ensures HasArgument(toks[a..e], 0, e - a) <==> HasArgument(toks, a, e)
    ensures PathsGiven(toks, a) <==> PathsGiven(toks[a..e], 0) && (e < |toks| ==> PathsGiven(toks, e + 1))
  {
    var stage := toks[a..e];
    forall k | a <= k < e
      ensures IsArgument(toks, k) <==> IsArgument(stage, k - a)
    {
      assert stage[k - a] == toks[k];
      assert k > a ==> stage[k - a - 1] == toks[k - 1];
    }
    if HasArgument(toks, a, e) {
      var k :| a <= k < e && IsArgument(toks, k);
      assert IsArgument(stage, k - a);
    }
    if HasArgument(stage, 0, e - a) {
      var k :| 0 <= k < e - a && IsArgument(stage, k);
      assert IsArgument(toks, k + a);
    }
    PathsHere(toks, a, e);
  }

  lemma PathsHere(toks: seq<Token>, a: nat, e: nat)
    requires a <= e <= |toks| && (e < |toks| ==> toks[e].Pipe?)
    requires forall k :: a <= k < e ==> !toks[k].Pipe?
    ensures PathsGiven(toks, a) <==> PathsGiven(toks[a..e], 0) && (e < |toks| ==> PathsGiven(toks, e + 1))
  {
    var stage := toks[a..e];
    if PathsGiven(toks, a) {
      forall k | 0 <= k < |stage| && TakesWord(stage[k])
        ensures k + 1 < |stage| && stage[k + 1].Word?
      {
        assert TakesWord(toks[a + k]);
      }
    }
    if PathsGiven(stage, 0) && (e < |toks| ==> PathsGiven(toks, e + 1)) {
      forall k | a <= k < |toks| && TakesWord(toks[k])
        ensures k + 1 < |toks| && toks[k + 1].Word?
      {
        if k < e {
          assert TakesWord(stage[k - a]) && stage[k - a + 1] == toks[k + 1];
        }
      }
    }
  }

  lemma GivenHere(toks: seq<Token>, a: nat, e: nat)
    requires a <= e <= |toks| && (e < |toks| ==> toks[e].Pipe?)
    requires forall k :: a <= k < e ==> !toks[k].Pipe?
    ensures StagesGiven(toks, a) <==> HasArgument(toks, a, e) && (e < |toks| ==> StagesGiven(toks, e + 1))
    ensures e + 1 == |toks| ==> !StagesGiven(toks, e + 1)
  {
    hide IsArgument;
    var n := |toks|;
    assert StageEnd(toks, n) && StageEnd(toks, e);
    assert ArgumentBefore(toks, a, e) <==> HasArgument(toks, a, e);
    if e < n {
      forall f | e < f <= n
        ensures ArgumentBefore(toks, a, f) <==> ArgumentBefore(toks, e + 1, f)
      {
        LaterArgument(toks, a, e, f);
      }
      hide ArgumentBefore;
      assert forall f :: a <= f < e ==> !StageEnd(toks, f);
    }
  }

  lemma LaterArgument(toks: seq<Token>, a: nat, e: nat, f: nat)
    requires a <= e < f <= |toks| && toks[e].Pipe?
    ensures ArgumentBefore(toks, a, f) <==> ArgumentBefore(toks, e + 1, f)
  {
    hide IsArgument;
    if ArgumentBefore(toks, a, f) {
      var k :| a <= k < f && IsArgument(toks, k) && forall j :: k <= j < f ==> !toks[j].Pipe?;
      assert k > e;
    }
  }

  // A text of tokens is a pipeline exactly when it is blank or all is given.
  lemma PipelineExactly(s: string)
    ensures ParsePipeline(s).Some? <==>
            var toks := Tokenize(s, 0);
            toks.Some? && (toks.value == [] || (PathsGiven(toks.value, 0) && StagesGiven(toks.value, 0)))
  {
    hide Stages, Tokenize, PathsGiven, StagesGiven;
    var toks := Tokenize(s, 0);
    if toks.Some? && toks.value != [] {
      StagesExactly(toks.value, 0);
    }
  }

  // So it is for a pipeline in a list, on the tokens as they are written.
  lemma ListedExactly(toks: seq<Token>)
    requires toks != [] && (forall k :: 0 <= k < |toks| ==> PrintableToken(toks[k]))
    requires toks[0].Word? && toks[0].mark == 0 && CommandWord(toks[0].text)
    ensures ParseList(PrintTokens(toks) + " ; ").Some? <==> PathsGiven(toks, 0) && StagesGiven(toks, 0)
  {
    hide ParseList, ParsePipeline, PrintTokens, PathsGiven, StagesGiven, Stages, PrintableToken;
    TokensInList(toks);
    TokensOf(toks);
    StagesExactly(toks, 0);
  }

  // ---- lists ----

  // Reading items fails at e, when a new item is due there.
  predicate GoesWrong(s: string, e: nat, stops: set<Kw>, needStop: bool) {
    && e <= |s| && (e < |s| ==> !IsSpace(s[e]))
    && forall j :: 0 <= j <= e && SkipWs(s, j) == e ==> ParseItems(s, j, stops, needStop, Always) == Fail
  }

  // Nothing is due where printed items begin but what can begin an item.
  lemma ItemsBegin(s: string, p: nat, items: seq<Item>, cond: RunCond)
    requires PrintableFrom(items, cond) && HasAt(s, p, PrintItems(items))
    requires var e := p + |PrintItems(items)|; e <= |s| && (e < |s| ==> !IsSpace(s[e]))
    ensures p < |s| ==> !IsSpace(s[p])
  {
    hide HasAt, PrintItems, PrintKind, PrintableFrom, PrintableKind, ConnText, ConnMark, NextCond, BareWord;
    hide IsSpace, PeekOne;
    if items == [] {
      EmptyText();
    } else {
      ItemsParts(s, p, items, cond);
      KindHead(s, p, items[0].kind);
    }
  }

  lemma StepFails(s: string, i: nat, p: nat, stops: set<Kw>, needStop: bool, cond: RunCond, item: Item, next: RunCond,
                  q: nat)
    requires i <= p < |s| && SkipWs(s, i) == p && !IsSpace(s[p]) && !Peek(s, p, stops) && q <= |s|
    requires ParseItem(s, p) == ItemGot(item.kind, item.background, next, true, q)
    requires ParseItems(s, q, stops, needStop, next) == Fail
    ensures ParseItems(s, i, stops, needStop, cond) == Fail
  {
    hide Peek, ParseItem, WfFrom, WfKind, SkipWs;
  }

  // Whatever printed items stand in front of it.
  lemma {:induction false} ItemsFail(s: string, i: nat, p: nat, items: seq<Item>, stops: set<Kw>, needStop: bool,
                                     cond: RunCond)
    requires i <= p <= |s| && SkipWs(s, i) == p
    requires PrintableFrom(items, cond) && (items == [] ==> cond.Always?)
    requires HasAt(s, p, PrintItems(items)) && GoesWrong(s, p + |PrintItems(items)|, stops, needStop)
    ensures ParseItems(s, i, stops, needStop, cond) == Fail
    decreases items
  {
    hide ParseItems, ParseItem, SkipWs, Peek, HasAt, PrintItem, ConnText, IsSpace;
    hide PrintItems, PrintableFrom, PrintableItem, ConnMark, NextCond;
    if items == [] {
      EmptyText();
    } else {
      var next := NextCond(items);
      var q := p + |PrintItem(items[0])| + 1 + |ConnMark(items[0].background, next)|;
      ItemsParts(s, p, items, cond);
      ItemBack(s, p, items[0], next);
      HeadNoStop(s, p, items[0], stops);
      ItemsBegin(s, q + 1, items[1..], next);
      SkipBlank(s, q);
      ItemsFail(s, q, q + 1, items[1..], stops, needStop, next);
      StepFails(s, i, p, stops, needStop, cond, items[0], next, q);
    }
  }

  lemma ListFails(s: string, items: seq<Item>)
    requires PrintableFrom(items, Always) && HasAt(s, 0, PrintItems(items))
    requires GoesWrong(s, |PrintItems(items)|, {}, false)
    ensures ParseList(s) == None
  {
    hide PrintItems, HasAt, PrintableFrom, ParseItems, IsSpace;
    ItemsBegin(s, 0, items, Always);
    SkipWsHere(s, 0);
    ItemsFail(s, 0, 0, items, {}, false, Always);
  }

  // ---- connectors ----

  lemma ConnectorItem(s: string, e: nat)
    requires e < |s| && (s[e] == ';' || (s[e] in "&|" && At(s, e + 1) == s[e]))
    ensures !IsSpace(s[e]) && ParseItem(s, e).ItemEmpty?
  {
    hide ParseCompound, WfKind, ParsePipeline, DollarSpan, MatchKw, FindConn;
    assert "&|" == ['&', '|'];
    NoCommand(s, e);
    ConnectorFound(s, e);
  }

  lemma ConnectorFound(s: string, e: nat)
    requires e < |s| && (s[e] == ';' || (s[e] in "&|" && At(s, e + 1) == s[e]))
    ensures ConnAt(s, e).Some? && FindConn(s, e, NUL) == ConnAt(s, e)
  {
    assert "&|" == ['&', '|'];
  }

  lemma NoCommand(s: string, e: nat)
    requires e < |s| && s[e] in ";&|"
    ensures ParseCompound(s, e).None?
  {
    hide ParseIf, ParseWhile, ParseFor, ParseCase, ParseTest, ParseFn, WfKind, MatchKw;
    assert ";&|" == [';', '&', '|'];
    SkipWsHere(s, e);
    NoKeyword(s, e, "if");
    NoKeyword(s, e, "while");
    NoKeyword(s, e, "for");
    NoKeyword(s, e, "case");
    NoKeyword(s, e, "[[");
    NoKeyword(s, e, "function");
  }

  lemma NoKeyword(s: string, e: nat, kw: string)
    requires e < |s| && SkipWs(s, e) == e && kw != [] && s[e] != kw[0]
    ensures !MatchKw(s, e, kw)
  {
    NotHas(s, e, kw);
  }

  lemma ItemRefused(s: string, e: nat)
    requires e < |s| && !IsSpace(s[e]) && !ParseItem(s, e).ItemGot?
    ensures GoesWrong(s, e, {}, false)
  {
    hide ParseItem, SkipWs, WfFrom;
    forall j | 0 <= j <= e && SkipWs(s, j) == e
      ensures ParseItems(s, j, {}, false, Always) == Fail
    {
      assert !Peek(s, e, {});
    }
  }

  // A connector where an item is due is refused, whatever follows.
  lemma ConnectorRefused(items: seq<Item>, conn: string, rest: string)
    requires PrintableFrom(items, Always) && conn in [";", "&&", "||"]
    ensures ParseList(PrintItems(items) + (conn + rest)) == None
  {
    hide ParseList, PrintItems, PrintableFrom, HasAt, ParseItem, GoesWrong, ParseItems;
    var a, b := PrintItems(items), conn + rest;
    var s := a + b;
    FrontHere(a, b);
    assert s[|a|] == conn[0] && (|conn| == 2 ==> s[|a| + 1] == conn[1]);
    ConnectorItem(s, |a|);
    ItemRefused(s, |a|);
    ListFails(s, items);
  }

  // So is && or || at the end.
  lemma EndRefused(items: seq<Item>, x: Item, next: RunCond)
    requires PrintableFrom(items, Always) && PrintableItem(x) && !x.background && !next.Always?
    ensures ParseList(PrintItems(items) + (PrintItem(x) + ConnText(false, next))) == None
  {
    hide ParseList, PrintItems, PrintableFrom, HasAt, ParseItem, PrintItem, PrintableItem, ConnText, ConnMark;
    var a, b, c := PrintItems(items), PrintItem(x), ConnText(false, next);
    var s := a + (b + c);
    FrontHere(a, b + c);
    HasSplit(s, |a|, b, c);
    ItemBack(s, |a|, x, next);
    ConnBack(s, |a| + |b|, false, next);
    ConnLength(next);
    var q := |a| + |b| + 1 + |ConnMark(false, next)|;
    assert q + 1 == |s|;
    EndFails(s, q, next);
    LastFails(s, |a|, x, next, q);
    ListFails(s, items);
  }

  lemma ConnLength(next: RunCond)
    ensures |ConnText(false, next)| == |ConnMark(false, next)| + 2
  {
  }

  lemma EndFails(s: string, q: nat, next: RunCond)
    requires q + 1 == |s| && BlankAt(s, q) && !next.Always?
    ensures ParseItems(s, q, {}, false, next) == Fail
  {
    SkipBlank(s, q);
  }

  lemma LastFails(s: string, e: nat, x: Item, next: RunCond, q: nat)
    requires e < |s| && !IsSpace(s[e]) && q <= |s|
    requires ParseItem(s, e) == ItemGot(x.kind, x.background, next, true, q)
    requires ParseItems(s, q, {}, false, next) == Fail
    ensures GoesWrong(s, e, {}, false)
  {
    hide ParseItem, SkipWs, WfFrom, ParseItems, IsSpace;
    forall j | 0 <= j <= e && SkipWs(s, j) == e
      ensures ParseItems(s, j, {}, false, Always) == Fail
    {
      assert !Peek(s, e, {});
      StepFails(s, j, e, {}, false, Always, x, next, q);
    }
  }

  // ---- unfinished lists ----

  // Where the text breaks off after complete items: at once, or inside a compound command.
  datatype Cut =
    | AtEnd
    | InWhile(items: seq<Item>, rest: Cut)
    | InDo(test: seq<Item>, items: seq<Item>, rest: Cut)
    | InIf(items: seq<Item>, rest: Cut)
    | InThen(test: seq<Item>, items: seq<Item>, rest: Cut)
    | InFor(name: string, words: seq<string>, items: seq<Item>, rest: Cut)
    | InFn(name: string, items: seq<Item>, rest: Cut)

  function CutText(cut: Cut): string {
    match cut
    case AtEnd => ""
    case InWhile(items, rest) => "while " + (PrintItems(items) + CutText(rest))
    case InDo(test, items, rest) => "while " + (PrintItems(test) + ("do " + (PrintItems(items) + CutText(rest))))
    case InIf(items, rest) => "if " + (PrintItems(items) + CutText(rest))
    case InThen(test, items, rest) => "if " + (PrintItems(test) + ("then " + (PrintItems(items) + CutText(rest))))
    case InFor(name, words, items, rest) =>
      var body := "do " + (PrintItems(items) + CutText(rest));
      "for " + (ShowWord(name) + (" in " + (PrintWords(words) + ("; " + body))))
    case InFn(name, items, rest) => "function " + (name + (" { " + (PrintItems(items) + CutText(rest))))
  }

  ghost predicate WfCut(cut: Cut) {
    cut.AtEnd? ||
    (&& PrintableFrom(cut.items, Always) && WfCut(cut.rest)
     && (cut.InDo? || cut.InThen? ==> cut.test != [] && PrintableFrom(cut.test, Always))
     && (cut.InFor? ==> Showable(cut.name) && Showables(cut.words))
     && (cut.InFn? ==> IsFnName(cut.name)))
  }

  // The text of a cut stands at e, and there the whole text ends.
  predicate Ends(s: string, e: nat, text: string) {
    HasAt(s, e, text) && e + |text| == |s|
  }

  lemma EndsSplit(s: string, e: nat, a: string, b: string)
    requires Ends(s, e, a + b)
    ensures HasAt(s, e, a) && Ends(s, e + |a|, b)
  {
    HasSplit(s, e, a, b);
  }

  lemma {:induction false} TailFails(s: string, i: nat, items: seq<Item>, rest: Cut, stops: set<Kw>)
    requires BlankAt(s, i) && PrintableFrom(items, Always) && WfCut(rest)
    requires Ends(s, i + 1, PrintItems(items) + CutText(rest))
    ensures ParseBody(s, i, stops) == Fail
    decreases rest, 2
  {
    hide Ends, PrintItems, CutText, ParseItems, HasAt, PrintableFrom, IsSpace, WfCut;
    EndsSplit(s, i + 1, PrintItems(items), CutText(rest));
    CutFails(s, i + 1 + |PrintItems(items)|, rest, stops, true);
    ItemsBegin(s, i + 1, items, Always);
    SkipBlank(s, i);
    ItemsFail(s, i, i + 1, items, stops, true, Always);
  }

  lemma {:induction false} CutFails(s: string, e: nat, cut: Cut, stops: set<Kw>, needStop: bool)
    requires WfCut(cut) && Ends(s, e, CutText(cut)) && (cut.AtEnd? ==> needStop)
    ensures GoesWrong(s, e, stops, needStop)
    decreases cut, 1
  {
    hide CutText, WfCut, Ends, Unfinished, GoesWrong;
    if cut.AtEnd? {
      NothingLeft(s, e, stops);
    } else {
      match cut {
        case InWhile(_, _) => WhileCut(s, e, cut);
        case InDo(_, _, _) => DoCut(s, e, cut);
        case InIf(_, _) => IfCut(s, e, cut);
        case InThen(_, _, _) => ThenCut(s, e, cut);
        case InFor(_, _, _, _) => ForCut(s, e, cut);
        case InFn(_, _, _) => FnCut(s, e, cut);
      }
      CompoundWrong(s, e, stops, needStop);
    }
  }

  lemma NothingLeft(s: string, e: nat, stops: set<Kw>)
    requires Ends(s, e, CutText(AtEnd))
    ensures GoesWrong(s, e, stops, true)
  {
    hide SkipWs, ParseItem, Peek;
    assert e == |s|;
  }

  // An unfinished command begins at e.
  ghost predicate Unfinished(s: string, e: nat) {
    Starts(s, e) && ParseCompound(s, e) == Some(Fail)
  }

  lemma CompoundWrong(s: string, e: nat, stops: set<Kw>, needStop: bool)
    requires Unfinished(s, e)
    ensures GoesWrong(s, e, stops, needStop)
  {
    hide ParseCompound, PeekOne, SkipWs, IsSpace, ParsePipelineItem, TakeConn, WfFrom;
    assert !Peek(s, e, stops);
    assert ParseItem(s, e) == ItemFail;
  }

  lemma KeywordStarts(s: string, e: nat, kw: string)
    requires kw in ["if", "while", "for", "function"] && HasAt(s, e, kw) && BlankAt(s, e + |kw|)
    ensures Starts(s, e)
  {
    hide HasAt;
    KeywordsBare();
    KwLast(s, e, kw);
    CharAt(s, e, kw, 0);
    NoStop(s, e, kw);
  }

  // What follows a keyword and a blank.
  lemma AfterKeyword(s: string, e: nat, kw: string, text: string)
    requires kw in ["if", "while", "for", "function", "do", "then"] && Ends(s, e, (kw + " ") + text)
    ensures HasAt(s, e, kw) && BlankAt(s, e + |kw|) && Ends(s, e + |kw| + 1, text)
    ensures SkipWs(s, e) == e && MatchKw(s, e, kw) && e < |s| && !IsSpace(s[e])
  {
    hide SkipWs, MatchKw, HasAt;
    KeywordsBare();
    KwBlank(s, e, kw, kw + " ", text);
    assert e + |(kw + " ") + text| == e + |kw| + 1 + |text|;
  }

  lemma WhileCut(s: string, e: nat, cut: Cut)
    requires WfCut(cut) && cut.InWhile? && Ends(s, e, CutText(cut))
    ensures Unfinished(s, e)
    decreases cut, 0
  {
    hide Ends, PrintItems, HasAt, PrintableFrom, IsSpace, MatchKw, SkipWs, ParseBody, ParseCompound, Starts;
    var text := PrintItems(cut.items) + CutText(cut.rest);
    assert "while" + " " == "while ";
    AfterKeyword(s, e, "while", text);
    KeywordStarts(s, e, "while");
    TailFails(s, e + 5, cut.items, cut.rest, {KwDo});
    CompoundStep(s, e, "while");
  }

  lemma IfCut(s: string, e: nat, cut: Cut)
    requires WfCut(cut) && cut.InIf? && Ends(s, e, CutText(cut))
    ensures Unfinished(s, e)
    decreases cut, 0
  {
    hide Ends, PrintItems, HasAt, PrintableFrom, IsSpace, MatchKw, SkipWs, ParseBody, ParseCompound, Starts;
    var text := PrintItems(cut.items) + CutText(cut.rest);
    assert "if" + " " == "if ";
    AfterKeyword(s, e, "if", text);
    KeywordStarts(s, e, "if");
    TailFails(s, e + 2, cut.items, cut.rest, {KwThen});
    CompoundStep(s, e, "if");
  }

  lemma DoCut(s: string, e: nat, cut: Cut)
    requires WfCut(cut) && cut.InDo? && Ends(s, e, CutText(cut))
    ensures Unfinished(s, e)
    decreases cut, 0
  {
    hide Ends, PrintItems, HasAt, PrintableFrom, IsSpace, MatchKw, SkipWs, ParseBody, ParseCompound, Starts;
    var test, tail := PrintItems(cut.test), PrintItems(cut.items) + CutText(cut.rest);
    assert "while" + " " == "while " && "do" + " " == "do ";
    AfterKeyword(s, e, "while", test + ("do " + tail));
    KeywordStarts(s, e, "while");
    EndsSplit(s, e + 6, test, "do " + tail);
    var q := e + 6 + |test|;
    AfterKeyword(s, q, "do", tail);
    PeekDo(s, q);
    BodyBack(s, e + 5, cut.test, {KwDo}, KwDo);
    TailFails(s, q + 2, cut.items, cut.rest, {KwDone});
    CompoundStep(s, e, "while");
  }

  lemma ThenCut(s: string, e: nat, cut: Cut)
    requires WfCut(cut) && cut.InThen? && Ends(s, e, CutText(cut))
    ensures Unfinished(s, e)
    decreases cut, 0
  {
    hide Ends, PrintItems, HasAt, PrintableFrom, IsSpace, MatchKw, SkipWs, ParseBody, ParseCompound, Starts;
    var test, tail := PrintItems(cut.test), PrintItems(cut.items) + CutText(cut.rest);
    assert "if" + " " == "if " && "then" + " " == "then ";
    AfterKeyword(s, e, "if", test + ("then " + tail));
    KeywordStarts(s, e, "if");
    EndsSplit(s, e + 3, test, "then " + tail);
    var q := e + 3 + |test|;
    AfterKeyword(s, q, "then", tail);
    BodyBack(s, e + 2, cut.test, {KwThen}, KwThen);
    TailFails(s, q + 4, cut.items, cut.rest, {KwElif, KwElse, KwFi});
    CompoundStep(s, e, "if");
  }

  lemma ForCut(s: string, e: nat, cut: Cut)
    requires WfCut(cut) && cut.InFor? && Ends(s, e, CutText(cut))
    ensures Unfinished(s, e)
    decreases cut, 0
  {
    hide Ends, PrintItems, HasAt, PrintableFrom, IsSpace, MatchKw, SkipWs, ParseBody, ParseCompound, Starts;
    hide PrintWords, ShowWord, Showable, Showables, ForWords, ParseFor;
    var name, words := ShowWord(cut.name), PrintWords(cut.words);
    var tail := PrintItems(cut.items) + CutText(cut.rest);
    assert "for" + " " == "for " && "do" + " " == "do ";
    var text := name + (" in " + (words + ("; " + ("do " + tail))));
    AfterKeyword(s, e, "for", text);
    KeywordStarts(s, e, "for");
    ForText(s, e + 4, name, words, "do " + tail);
    var n := e + 4 + |name|;
    var q := n + 4 + |words|;
    InAt(s, n);
    WordsBack(s, n + 3, cut.words);
    AfterKeyword(s, q + 2, "do", tail);
    KwDoAfter(s, q + 1);
    TailFails(s, q + 4, cut.items, cut.rest, {KwDone});
    ForFails(s, e + 3, cut.name, cut.words, q + 1);
    CompoundStep(s, e, "for");
  }

  lemma ForText(s: string, p: nat, name: string, a: string, b: string)
    requires Ends(s, p, name + (" in " + (a + ("; " + b))))
    ensures var n := p + |name|;
            var q := n + 4 + |a|;
            && HasAt(s, p, name) && HasAt(s, n, " in ") && HasAt(s, n + 4, a) && Ends(s, q + 2, b)
            && q < |s| && s[q] == ';' && BlankAt(s, q + 1)
  {
    hide HasAt;
    ForParts(s, p, name, a, b);
  }

  lemma ForFails(s: string, i: nat, name: string, words: seq<string>, q: nat)
    requires BlankAt(s, i) && Showable(name) && HasAt(s, i + 1, ShowWord(name)) && BlankAt(s, i + 1 + |ShowWord(name)|)
    requires var n := i + 1 + |ShowWord(name)|;
             MatchKw(s, n, "in") && SkipWs(s, n) == n + 1 && ForWords(s, n + 3) == Got(words, q)
    requires q <= |s| && MatchKw(s, q, "do") && SkipWs(s, q) == q + 1 && ParseBody(s, q + 3, {KwDone}) == Fail
    ensures ParseFor(s, i) == Fail
  {
    hide ParseBody, WfItems, ForWords, ScanWord, HasAt, SkipWs, MatchKw, IsSpace, ShowWord, Quotable;
    ShowBack(ListWord, s, i + 1, name);
    SkipBlank(s, i);
  }

  lemma FnCut(s: string, e: nat, cut: Cut)
    requires WfCut(cut) && cut.InFn? && Ends(s, e, CutText(cut))
    ensures Unfinished(s, e)
    decreases cut, 0
  {
    hide Ends, PrintItems, HasAt, PrintableFrom, IsSpace, MatchKw, SkipWs, ParseBody, ParseCompound, Starts;
    hide IsFnName, ParseFn;
    var name, tail := cut.name, PrintItems(cut.items) + CutText(cut.rest);
    assert "function" + " " == "function ";
    AfterKeyword(s, e, "function", name + (" { " + tail));
    KeywordStarts(s, e, "function");
    EndsSplit(s, e + 9, name, " { " + tail);
    var n := e + 9 + |name|;
    EndsSplit(s, n, " { ", tail);
    LbraceAt(s, n);
    TailFails(s, n + 2, cut.items, cut.rest, {KwRbrace});
    FnFails(s, e + 8, name);
    CompoundStep(s, e, "function");
  }

  lemma FnFails(s: string, i: nat, name: string)
    requires BlankAt(s, i) && IsFnName(name) && HasAt(s, i + 1, name)
    requires var e := i + 1 + |name|; HasAt(s, e, " { ") && ParseBody(s, e + 2, {KwRbrace}) == Fail
    ensures ParseFn(s, i, true) == Fail
  {
    hide ParseBody, WfItems, HasAt, SkipWs, IsSpace;
    var e := i + 1 + |name|;
    NameAt(s, i + 1, name);
    LbraceAt(s, e);
    NameEndAt(s, i + 1, e);
    SkipBlank(s, i);
    SkipBlank(s, e);
  }

  // A list that breaks off inside compound commands, however deep, is refused.
  lemma CutRefused(items: seq<Item>, cut: Cut)
    requires PrintableFrom(items, Always) && WfCut(cut) && !cut.AtEnd?
    ensures ParseList(PrintItems(items) + CutText(cut)) == None
  {
    hide ParseList, PrintItems, PrintableFrom, HasAt, GoesWrong, CutText, WfCut;
    var a, b := PrintItems(items), CutText(cut);
    var s := a + b;
    FrontHere(a, b);
    CutFails(s, |a|, cut, {}, false);
    ListFails(s, items);
  }

  // while and if need a condition.
  lemma ConditionNeeded(items: seq<Item>, rest: string)
    requires PrintableFrom(items, Always)
    ensures ParseList(PrintItems(items) + ("while " + ("do " + rest))) == None
    ensures ParseList(PrintItems(items) + ("if " + ("then " + rest))) == None
  {
    hide ParseList, PrintItems, Unfinished;
    NoCondition(items, "while", KwDo, "do", rest);
    NoCondition(items, "if", KwThen, "then", rest);
    assert "while" + " " == "while " && "do" + " " == "do " && "if" + " " == "if " && "then" + " " == "then ";
  }

  lemma NoCondition(items: seq<Item>, kw: string, stop: Kw, next: string, rest: string)
    requires PrintableFrom(items, Always)
    requires (kw == "while" && stop == KwDo && next == "do") || (kw == "if" && stop == KwThen && next == "then")
    ensures ParseList(PrintItems(items) + ((kw + " ") + ((next + " ") + rest))) == None
  {
    hide ParseList, PrintItems, PrintableFrom, HasAt, GoesWrong, MatchKw, SkipWs, ParseBody, ParseCompound, Starts;
    hide IsSpace;
    var a, b := PrintItems(items), (kw + " ") + ((next + " ") + rest);
    var s, e := a + b, |a|;
    FrontHere(a, b);
    AfterKeyword(s, e, kw, (next + " ") + rest);
    KeywordStarts(s, e, kw);
    var q := e + |kw| + 1;
    AfterKeyword(s, q, next, rest);
    PeekStop(s, q, stop, next);
    NothingHere(s, q);
    assert PrintableFrom([], Always) by { NothingPrints(); }
    BodyBack(s, q - 1, [], {stop}, stop);
    CompoundStep(s, e, kw);
    CompoundWrong(s, e, {}, false);
    ListFails(s, items);
  }

  lemma PeekStop(s: string, q: nat, stop: Kw, next: string)
    requires (stop == KwDo && next == "do") || (stop == KwThen && next == "then")
    requires q <= |s| && MatchKw(s, q, next)
    ensures PeekOne(s, q, stop)
  {
  }

  lemma NothingHere(s: string, q: nat)
    requires q <= |s|
    ensures PrintItems([]) == "" && HasAt(s, q, PrintItems([]))
  {
  }

  lemma NothingPrints()
    ensures PrintableFrom([], Always)
  {
  }
}
