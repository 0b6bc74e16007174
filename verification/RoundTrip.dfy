// Printing whole lists with every kind of compound command and every kind of quoting, and the proof
// that parsing the text gives back exactly the list.
module RoundTrip {
  import opened CStrings
  import opened Ast
  import opened Lexer
  import opened Grammar
  import opened Printer

  // ---- what can be printed ----

  // Words that would be read as keywords at the start of a command.
  predicate Reserved(w: string) {
    w in ["if", "while", "for", "case", "[[", "function", "then", "else", "elif", "fi", "do", "done", "esac"]
  }

  predicate CommandWord(w: string) {
    PlainWord(w) && !Reserved(w) && w[0] != '}'
  }

  // What a command is called: a quoted word, or a plain one that is no keyword.
  predicate CommandStart(c: Cmd) {
    c.argv != [] && c.quoted != [] && (c.quoted[0] == 0 ==> CommandWord(c.argv[0]))
  }

  // Words whose marks are not kept; each is printed with the quotes it needs.
  predicate Showable(w: string) {
    w != [] && Quotable(w)
  }

  function ShowWord(w: string): string {
    WordText(w, Mark(w))
  }

  ghost predicate PrintableKind(kind: Kind)
    decreases kind
  {
    match kind
    case Pipeline(cmds) =>
      cmds != [] && (forall k :: 0 <= k < |cmds| ==> PrintableCmd(cmds[k])) && CommandStart(cmds[0])
    case If(arms) => arms != [] && !arms[0].isElse && PrintableArms(arms)
    case While(test, loop) => test != [] && PrintableFrom(test, Always) && PrintableFrom(loop, Always)
    case For(name, words, each) => Showable(name) && Showables(words) && PrintableFrom(each, Always)
    case Fn(name, body) => IsFnName(name) && PrintableFrom(body, Always)
    case Case(word, branches) => Showable(word) && PrintableBranches(branches)
    case DBracket(tokens, marks) =>
      |marks| == |tokens| && forall k :: 0 <= k < |tokens| ==> TestToken(tokens[k], marks[k])
  }

  // A word of [[ ]]: a connective, a plain word, or one in quotes.
  predicate TestToken(t: string, mark: int) {
    || (mark == 0 && (t == "&&" || t == "||" || (PlainWord(t) && t != "]]")))
    || (mark == 1 && t != [] && '\'' !in t)
    || (mark == 2 && t != [] && '"' !in t)
  }

  predicate Showables(words: seq<string>) {
    forall k :: 0 <= k < |words| ==> Showable(words[k])
  }

  ghost predicate PrintableArms(arms: seq<Arm>)
    decreases arms, 0
  {
    arms != [] ==>
      && PrintableArm(arms[0])
      && (arms[0].isElse ==> |arms| == 1)
      && PrintableArms(arms[1..])
  }

  ghost predicate PrintableArm(arm: Arm)
    decreases arm
  {
    PrintableFrom(arm.cond, Always) && PrintableFrom(arm.body, Always) && (arm.isElse <==> arm.cond == [])
  }

  ghost predicate PrintableBranches(branches: seq<Branch>)
    decreases branches, 0
  {
    branches != [] ==> PrintableBranch(branches[0]) && PrintableBranches(branches[1..])
  }

  ghost predicate PrintableBranch(branch: Branch)
    decreases branch
  {
    branch.patterns != [] && Showables(branch.patterns) && PrintableFrom(branch.body, Always)
  }

  // The first item has condition `cond`, and an item after `&` runs always.
  ghost predicate PrintableFrom(items: seq<Item>, cond: RunCond)
    decreases items
  {
    items != [] ==>
      && items[0].cond == cond
      && PrintableItem(items[0])
      && (items[0].background && |items| > 1 ==> items[1].cond.Always?)
      && PrintableFrom(items[1..], if |items| > 1 then items[1].cond else Always)
  }

  ghost predicate PrintableItem(item: Item)
    decreases item
  {
    PrintableKind(item.kind)
  }

  // ---- printing ----

  function ConnMark(background: bool, next: RunCond): string {
    if background then "&"
    else match next
      case Always => ";"
      case And => "&&"
      case Or => "||"
  }

  function ConnText(background: bool, next: RunCond): string {
    " " + (ConnMark(background, next) + " ")
  }

  // Every item is followed by its connector; the last one by `;` or `&`.
  function PrintItems(items: seq<Item>): string
    decreases items, 1
  {
    if items == [] then ""
    else PrintItem(items[0]) + (ConnText(items[0].background, NextCond(items)) + PrintItems(items[1..]))
  }

  function NextCond(items: seq<Item>): RunCond {
    if |items| > 1 then items[1].cond else Always
  }

  function PrintItem(item: Item): string
    decreases item
  {
    PrintKind(item.kind)
  }

  function PrintKind(kind: Kind): string
    decreases kind
  {
    match kind
    case Pipeline(cmds) => PrintPipeline(cmds)
    case If(arms) => if arms == [] then "if fi" else "if " + (PrintArm(arms[0]) + PrintArms(arms[1..]))
    case While(test, loop) => "while " + (PrintItems(test) + PrintDo(loop))
    case For(name, words, each) => "for " + (ShowWord(name) + (" in " + (PrintWords(words) + ("; " + PrintDo(each)))))
    case Fn(name, body) => "function " + (name + (" { " + (PrintItems(body) + "}")))
    case Case(word, branches) => "case " + (ShowWord(word) + (" in " + PrintBranches(branches)))
    case DBracket(tokens, marks) => "[[ " + (PrintMarked(tokens, marks) + "]]")
  }

  function PrintDo(body: seq<Item>): string
    decreases body, 2
  {
    "do " + (PrintItems(body) + "done")
  }

  function PrintWords(words: seq<string>): string {
    if words == [] then "" else ShowWord(words[0]) + (" " + PrintWords(words[1..]))
  }

  function PrintMarked(words: seq<string>, marks: seq<int>): string {
    if words == [] || marks == [] then ""
    else WordText(words[0], marks[0]) + (" " + PrintMarked(words[1..], marks[1..]))
  }

  // The arms after the first one, through fi.
  function PrintArms(arms: seq<Arm>): string
    decreases arms, 0
  {
    if arms == [] then "fi" else ArmKw(arms[0]) + (PrintArm(arms[0]) + PrintArms(arms[1..]))
  }

  function ArmKw(arm: Arm): string {
    if arm.isElse then "else " else "elif "
  }

  function PrintArm(arm: Arm): string
    decreases arm
  {
    if arm.isElse then PrintItems(arm.body) else PrintItems(arm.cond) + ("then " + PrintItems(arm.body))
  }

  function PrintPatterns(pats: seq<string>): string {
    if pats == [] then ")"
    else ShowWord(pats[0]) + (if |pats| == 1 then " )" else " | " + PrintPatterns(pats[1..]))
  }

  function PrintBranch(branch: Branch): string
    decreases branch
  {
    "( " + (PrintPatterns(branch.patterns) + (" " + (PrintItems(branch.body) + ";; ")))
  }

  function PrintBranches(branches: seq<Branch>): string
    decreases branches, 0
  {
    if branches == [] then "esac" else PrintBranch(branches[0]) + PrintBranches(branches[1..])
  }

  // ---- keywords in printed text ----

  predicate BareWord(w: string) {
    w != [] && forall k :: 0 <= k < |w| ==> !IsDelim(w[k])
  }

  predicate BlankAt(s: string, p: nat) {
    p < |s| && s[p] == ' '
  }

  lemma PlainIsBare(w: string)
    requires PlainWord(w)
    ensures BareWord(w)
  {
    forall k | 0 <= k < |w|
      ensures !IsDelim(w[k])
    {
      assert PlainChar(w[k]);
    }
  }

  // Where a bare word stands, a keyword matches only if it is that word.
  lemma KwIsWord(s: string, i: nat, p: nat, w: string, kw: string)
    requires i <= |s| && SkipWs(s, i) == p && HasAt(s, p, w) && BlankAt(s, p + |w|)
    requires BareWord(w) && BareWord(kw)
    ensures MatchKw(s, i, kw) <==> w == kw
  {
    var inWord := if |kw| < |w| then |kw| else 0;
    var inKw := if |w| < |kw| then |w| else 0;
    CharAt(s, p, w, inWord);
    assert !IsDelim(w[inWord]) && !IsDelim(kw[inKw]);
    if MatchKw(s, i, kw) {
      CharAt(s, p, kw, inKw);
      assert |kw| == |w|;
      assert s[p..p + |w|] == w && s[p..p + |kw|] == kw;
    }
  }

  // Text beginning with another character does not stand at p.
  lemma NotHas(s: string, p: nat, t: string)
    requires p < |s| && t != [] && s[p] != t[0]
    ensures !HasAt(s, p, t)
  {
  }

  // Something begins at p, and it is no stop word.
  ghost predicate Starts(s: string, p: nat) {
    p < |s| && !IsSpace(s[p]) && forall kw: Kw :: !PeekOne(s, p, kw)
  }

  // No stop word stands where a command begins.
  lemma NoStop(s: string, p: nat, w: string)
    requires p <= |s| && SkipWs(s, p) == p && HasAt(s, p, w) && BlankAt(s, p + |w|)
    requires BareWord(w) && w[0] != '}' && w !in ["then", "else", "elif", "fi", "do", "done", "esac"]
    ensures forall kw: Kw :: !PeekOne(s, p, kw)
  {
    CharAt(s, p, w, 0);
    assert !IsDelim(w[0]);
    NotHas(s, p, "}");
    NotHas(s, p, ";;");
    hide HasAt, MatchKw, SkipWs;
    KeywordsBare();
    KwIsWord(s, p, p, w, "then");
    KwIsWord(s, p, p, w, "else");
    KwIsWord(s, p, p, w, "elif");
    KwIsWord(s, p, p, w, "fi");
    KwIsWord(s, p, p, w, "do");
    KwIsWord(s, p, p, w, "done");
    KwIsWord(s, p, p, w, "esac");
  }

  // At a quote no keyword stands.
  lemma QuoteNoKw(s: string, p: nat, kw: string)
    requires p < |s| && IsQuote(s[p]) && kw != [] && !IsQuote(kw[0])
    ensures SkipWs(s, p) == p && !MatchKw(s, p, kw)
  {
    SkipWsHere(s, p);
    NotHas(s, p, kw);
  }

  lemma QuoteNoStop(s: string, p: nat)
    requires p < |s| && IsQuote(s[p])
    ensures Starts(s, p)
  {
    NotHas(s, p, "}");
    NotHas(s, p, ";;");
    QuoteNoKw(s, p, "then");
    QuoteNoKw(s, p, "else");
    QuoteNoKw(s, p, "elif");
    QuoteNoKw(s, p, "fi");
    QuoteNoKw(s, p, "do");
    QuoteNoKw(s, p, "done");
    QuoteNoKw(s, p, "esac");
  }

  // ---- connectors in printed text ----

  predicate Calm(s: string, k: nat)
    requires k < |s|
  {
    !IsQuote(s[k]) && DollarSpan(s, k) == 0 && ConnAt(s, k).None?
  }

  lemma {:induction false} FindConnSkips(s: string, a: nat, b: nat)
    requires a <= b <= |s| && forall k :: a <= k < b ==> Calm(s, k)
    ensures FindConn(s, a, NUL) == FindConn(s, b, NUL)
    decreases b - a
  {
    if a < b {
      assert Calm(s, a);
      FindConnSkips(s, a + 1, b);
    }
  }

  // The connector text at p, just after an item, is found as that connector.
  lemma ConnBack(s: string, p: nat, background: bool, next: RunCond)
    requires HasAt(s, p, ConnText(background, next)) && (background ==> next.Always?)
    ensures BlankAt(s, p) && BlankAt(s, p + 1 + |ConnMark(background, next)|)
    ensures ConnAt(s, p + 1) == Some(Conn(p + 1, next, |ConnMark(background, next)|, background))
    ensures FindConn(s, p + 1, NUL) == ConnAt(s, p + 1)
    ensures s[p + 1] in ";&|"
  {
    var t := ConnText(background, next);
    hide HasAt;
    CharAt(s, p, t, 0);
    CharAt(s, p, t, 1);
    CharAt(s, p, t, 2);
    if |t| > 3 { CharAt(s, p, t, 3); }
  }

  // Inside quotes nothing is a connector.
  lemma {:induction false} QuoteSkips(s: string, i: nat, quote: char, text: string)
    requires IsQuote(quote) && quote !in text && HasAt(s, i, text)
    requires i + |text| < |s| && s[i + |text|] == quote
    ensures FindConn(s, i, quote) == FindConn(s, i + |text| + 1, NUL)
    decreases |text|
  {
    hide HasAt;
    if text != [] {
      assert text == [text[0]] + text[1..] && text[0] != quote;
      HasSplit(s, i, [text[0]], text[1..]);
      CharAt(s, i, [text[0]], 0);
      QuoteSkips(s, i + 1, quote, text[1..]);
    }
  }

  // Nor is anything in a bare word, the groups in it passed over.
  lemma {:induction false} PiecesSkip(s: string, p: nat, ps: seq<Piece>)
    requires WfPieces(ps) && HasAt(s, p, PiecesText(ps)) && p <= |s| && BlankOrEnd(s, p + |PiecesText(ps)|)
    ensures FindConn(s, p, NUL) == FindConn(s, p + |PiecesText(ps)|, NUL)
    decreases |ps|
  {
    hide HasAt, DollarSpan, FindConn, WfPieces, PieceText, PiecesText;
    if ps == [] {
      NoPieces();
    } else {
      FirstPiece(s, p, ps);
      if ps[0].Plain? {
        NoGroupAfter(s, p, ps);
      } else {
        SubSpan(s, p, ps[0].group) by { PieceIsWf(ps); }
      }
      PlainGoesOn(s, p);
      PiecesSkip(s, p + |PieceText(ps[0])|, ps[1..]);
    }
  }

  lemma NoPieces()
    ensures PiecesText([]) == ""
  {
  }

  lemma PlainGoesOn(s: string, p: nat)
    requires p < |s| && PlainChar(s[p])
    ensures FindConn(s, p, NUL) == FindConn(s, if DollarSpan(s, p) > 0 then p + DollarSpan(s, p) else p + 1, NUL)
  {
    hide DollarSpan;
    assert ConnAt(s, p).None?;
  }

  lemma WordSkips(s: string, p: nat, w: string, mark: int)
    requires PrintableWord(w, mark) && HasAt(s, p, WordText(w, mark)) && BlankOrEnd(s, p + |WordText(w, mark)|)
    ensures p <= |s| && FindConn(s, p, NUL) == FindConn(s, p + |WordText(w, mark)|, NUL)
  {
    hide HasAt, FindConn, PiecesText, WfPieces;
    if mark == 0 {
      var ps: seq<Piece> :| ps != [] && WfPieces(ps) && PiecesText(ps) == w;
      FirstPiece(s, p, ps);
      PiecesSkip(s, p, ps);
    } else {
      QuotedParts(s, p, w, mark);
      QuoteBegins(s, p);
      QuoteSkips(s, p + 1, QuoteOf(mark), w);
    }
  }

  lemma QuoteBegins(s: string, p: nat)
    requires p < |s| && IsQuote(s[p])
    ensures FindConn(s, p, NUL) == FindConn(s, p + 1, s[p])
  {
  }

  // A printed word ends with no blank.
  lemma {:induction false} PiecesLast(s: string, p: nat, ps: seq<Piece>)
    requires ps != [] && WfPieces(ps) && HasAt(s, p, PiecesText(ps))
    ensures var e := p + |PiecesText(ps)|; p < e <= |s| && !IsSpace(s[e - 1])
    decreases |ps|
  {
    hide HasAt, WfPieces, PiecesText, GroupText;
    FirstPiece(s, p, ps);
    NoPieces();
    if ps[1..] == [] {
      if ps[0].Sub? {
        var t := PieceText(ps[0]);
        LastOfSub(ps[0].group);
        CharAt(s, p, t, |t| - 1);
      }
    } else {
      PiecesLast(s, p + |PieceText(ps[0])|, ps[1..]);
    }
  }

  lemma LastOfSub(g: Group)
    ensures var t := PieceText(Sub(g)); t != [] && t[|t| - 1] == ')'
  {
    hide GroupText;
  }

  lemma WordLast(s: string, p: nat, w: string, mark: int)
    requires PrintableWord(w, mark) && HasAt(s, p, WordText(w, mark))
    ensures var e := p + |WordText(w, mark)|; p < e <= |s| && !IsSpace(s[e - 1])
  {
    hide HasAt;
    if mark == 0 {
      var ps: seq<Piece> :| ps != [] && WfPieces(ps) && PiecesText(ps) == w;
      PiecesLast(s, p, ps);
    } else {
      QuotedParts(s, p, w, mark);
    }
  }

  lemma OperatorCalm(s: string, p: nat, t: Token)
    requires !t.Word? && HasAt(s, p, TokenText(t)) && BlankAt(s, p + |TokenText(t)|)
    ensures forall k :: p <= k < p + |TokenText(t)| ==> Calm(s, k)
    ensures TokenText(t) != []
    ensures p < |s| && !IsSpace(s[p]) && s[p] != '(' && !IsSpace(s[p + |TokenText(t)| - 1])
  {
    hide HasAt;
    var x := TokenText(t);
    CharAt(s, p, x, 0);
    CharAt(s, p, x, |x| - 1);
    if |x| > 1 { CharAt(s, p, x, 1); }
    if |x| > 2 { CharAt(s, p, x, 2); }
  }

  // A printed token hides no connector, and neither begins nor ends with a blank.
  lemma TokenSkips(s: string, p: nat, t: Token)
    requires PrintableToken(t) && HasAt(s, p, TokenText(t)) && BlankAt(s, p + |TokenText(t)|)
    ensures TokenText(t) != []
    ensures p < |s| && !IsSpace(s[p]) && s[p] != '(' && !IsSpace(s[p + |TokenText(t)| - 1])
    ensures FindConn(s, p, NUL) == FindConn(s, p + |TokenText(t)| + 1, NUL)
  {
    hide HasAt, FindConn, PrintableWord, WordText;
    var e := p + |TokenText(t)|;
    if t.Word? {
      WordStart(s, p, t.text, t.mark);
      WordSkips(s, p, t.text, t.mark);
      WordLast(s, p, t.text, t.mark);
    } else {
      OperatorCalm(s, p, t);
      FindConnSkips(s, p, e);
    }
    BlankSkips(s, e);
  }

  lemma BlankSkips(s: string, e: nat)
    requires BlankAt(s, e)
    ensures FindConn(s, e, NUL) == FindConn(s, e + 1, NUL)
  {
  }

  // Printed tokens hide no connector, and neither begin nor end with a blank.
  lemma {:induction false} TokensSkip(s: string, p: nat, toks: seq<Token>)
    requires toks != [] && (forall k :: 0 <= k < |toks| ==> PrintableToken(toks[k]))
    requires HasAt(s, p, PrintTokens(toks)) && BlankAt(s, p + |PrintTokens(toks)|)
    ensures PrintTokens(toks) != []
    ensures p < |s| && FindConn(s, p, NUL) == FindConn(s, p + |PrintTokens(toks)| + 1, NUL)
    ensures !IsSpace(s[p]) && s[p] != '(' && !IsSpace(s[p + |PrintTokens(toks)| - 1])
    ensures HasAt(s, p, TokenText(toks[0])) && BlankAt(s, p + |TokenText(toks[0])|)
    ensures |toks| > 1 ==>
              var q := p + |TokenText(toks[0])| + 1; q < |s| && !IsSpace(s[q]) && s[q] != '('
    ensures |toks| == 1 ==> |PrintTokens(toks)| == |TokenText(toks[0])|
    decreases |toks|
  {
    hide PrintableToken, HasAt, IsSpace, TokenText, FindConn;
    var t := TokenText(toks[0]);
    if |toks| == 1 {
      TokenSkips(s, p, toks[0]);
    } else {
      var rest := PrintTokens(toks[1..]);
      HasSplit(s, p, t + " ", rest);
      HasSplit(s, p, t, " ");
      CharAt(s, p + |t|, " ", 0);
      TokenSkips(s, p, toks[0]);
      TokensSkip(s, p + |t| + 1, toks[1..]);
    }
  }

  // ---- pipelines in a list ----

  lemma {:induction false} SkipWsHere(s: string, p: nat)
    requires p <= |s| && (p < |s| ==> !IsSpace(s[p]))
    ensures SkipWs(s, p) == p
  {
  }

  lemma SkipBlank(s: string, p: nat)
    requires BlankAt(s, p) && (p + 1 < |s| ==> !IsSpace(s[p + 1]))
    ensures SkipWs(s, p) == p + 1
  {
    SkipWsHere(s, p + 1);
  }

  // What the text of a pipeline looks like from outside.
  lemma PipelineShape(s: string, p: nat, cmds: seq<Cmd>)
    requires PrintableKind(Pipeline(cmds))
    requires HasAt(s, p, PrintPipeline(cmds)) && BlankAt(s, p + |PrintPipeline(cmds)|)
    ensures PrintPipeline(cmds) != []
    ensures p < |s| && FindConn(s, p, NUL) == FindConn(s, p + |PrintPipeline(cmds)| + 1, NUL)
    ensures !IsSpace(s[p]) && !IsSpace(s[p + |PrintPipeline(cmds)| - 1])
    ensures cmds != [] && CommandStart(cmds[0])
    ensures var w := WordText(cmds[0].argv[0], cmds[0].quoted[0]);
            && HasAt(s, p, w) && BlankAt(s, p + |w|)
            && (cmds[0].quoted[0] != 0 ==> IsQuote(s[p]))
            && (|w| == |PrintPipeline(cmds)| ||
                (p + |w| + 1 < |s| && !IsSpace(s[p + |w| + 1]) && s[p + |w| + 1] != '('))
  {
    hide HasAt, IsSpace, PrintTokens, PrintableWord, PlainWord, PipelineTokens, WordText, PrintableDocs, FindConn;
    var toks := PipelineTokens(cmds);
    PipelineNonEmpty(cmds);
    PipelinePrintable(cmds);
    TokensSkip(s, p, toks);
    WordStart(s, p, cmds[0].argv[0], cmds[0].quoted[0]) by { FirstPrintable(cmds[0]); }
    FirstPrintable(cmds[0]);
  }

  lemma FirstPrintable(c: Cmd)
    requires PrintableCmd(c)
    ensures c.argv != [] && c.quoted != [] && PrintableWord(c.argv[0], c.quoted[0])
  {
  }

  // A pipeline at p, with its connector, is read as an item.
  lemma PipelineItemBack(s: string, p: nat, cmds: seq<Cmd>, background: bool, next: RunCond)
    requires PrintableKind(Pipeline(cmds)) && (background ==> next.Always?)
    requires HasAt(s, p, PrintPipeline(cmds)) && HasAt(s, p + |PrintPipeline(cmds)|, ConnText(background, next))
    ensures ParsePipelineItem(s, p) ==
            ItemGot(Pipeline(cmds), background, next, true,
                    p + |PrintPipeline(cmds)| + 1 + |ConnMark(background, next)|)
  {
    hide PrintPipeline, ParsePipeline, PrintableKind, ConnText, ConnMark, WfKind, HasAt, ConnAt, FindConn;
    hide ParsePipelineItem, WordText, CommandStart;
    var t := PrintPipeline(cmds);
    var e := p + |t|;
    PipelineOk(cmds);
    ConnBack(s, e, background, next);
    PipelineShape(s, p, cmds);
    PipelineBack(cmds);
    TextHere(s, p, t);
    PipelineItemStep(s, p, e, cmds, background, next, |ConnMark(background, next)|);
  }

  lemma PipelineOk(cmds: seq<Cmd>)
    requires PrintableKind(Pipeline(cmds))
    ensures cmds != [] && forall k :: 0 <= k < |cmds| ==> PrintableCmd(cmds[k])
  {
  }

  lemma TextHere(s: string, p: nat, t: string)
    requires HasAt(s, p, t)
    ensures p + |t| <= |s| && s[p..p + |t|] == t
  {
  }

  lemma PipelineItemStep(s: string, p: nat, e: nat, cmds: seq<Cmd>, background: bool, next: RunCond, len: nat)
    requires p < e < |s| && !IsSpace(s[p]) && !IsSpace(s[e - 1]) && s[e] == ' '
    requires FindConn(s, p, NUL) == Some(Conn(e + 1, next, len, background)) && ParsePipeline(s[p..e]) == Some(cmds)
    ensures ParsePipelineItem(s, p) == ItemGot(Pipeline(cmds), background, next, true, e + 1 + len)
  {
    hide FindConn, ParsePipeline, WfKind;
    assert SkipWsTo(s, p, e + 1) == p;
    assert TrimEnd(s, p, e) == e;
    assert TrimEnd(s, p, e + 1) == e;
  }

  lemma {:induction false} NameEndBound(s: string, p: nat, e: nat)
    requires p <= e < |s| && s[e] == ' '
    ensures NameEnd(s, p) <= e
    decreases e - p
  {
    if p < e && IsNameChar(s[p]) {
      NameEndBound(s, p + 1, e);
    }
  }

  // A plain word not followed by a parenthesis does not begin a function definition.
  lemma NotFnWord(s: string, p: nat, w: string)
    requires PlainWord(w) && HasAt(s, p, w) && BlankAt(s, p + |w|)
    requires p + |w| + 1 < |s| && !IsSpace(s[p + |w| + 1]) && s[p + |w| + 1] != '('
    ensures !LooksLikeFnDef(s, p)
  {
    CharAt(s, p, w, 0);
    assert PlainChar(w[0]);
    SkipWsHere(s, p);
    NameEndBound(s, p, p + |w|);
    var e := NameEnd(s, p);
    if e < p + |w| {
      assert PlainChar(w[e - p]) && s[p + (e - p)] == w[e - p];
      SkipWsHere(s, e);
    } else {
      SkipBlank(s, e);
    }
    assert EmptyParens(s, e).None?;
  }

  lemma NotFnQuote(s: string, p: nat)
    requires p < |s| && IsQuote(s[p])
    ensures !LooksLikeFnDef(s, p)
  {
    SkipWsHere(s, p);
  }

  lemma AtConn(s: string, q: nat)
    requires q < |s| && s[q] in ";&|"
    ensures !IsSpace(s[q]) && s[q] != '('
  {
  }

  // A pipeline does not look like a function definition.
  lemma NotFnDef(s: string, p: nat, cmds: seq<Cmd>, background: bool, next: RunCond)
    requires PrintableKind(Pipeline(cmds)) && (background ==> next.Always?)
    requires HasAt(s, p, PrintPipeline(cmds)) && HasAt(s, p + |PrintPipeline(cmds)|, ConnText(background, next))
    ensures p < |s| && !IsSpace(s[p]) && !LooksLikeFnDef(s, p)
  {
    hide PrintPipeline, PrintableKind, ConnText, ConnMark, HasAt, ConnAt, FindConn, LooksLikeFnDef, WordText, IsSpace;
    ConnBack(s, p + |PrintPipeline(cmds)|, background, next);
    AtConn(s, p + |PrintPipeline(cmds)| + 1);
    PipelineShape(s, p, cmds);
    if cmds[0].quoted[0] == 0 {
      BareText(cmds[0].argv[0]);
      NotFnWord(s, p, cmds[0].argv[0]);
    } else {
      NotFnQuote(s, p);
    }
  }

  // ---- heads ----

  // The word a compound command begins with.
  function HeadWord(kind: Kind): string {
    match kind
    case Pipeline(_) => ""
    case If(_) => "if"
    case While(_, _) => "while"
    case For(_, _, _) => "for"
    case Fn(_, _) => "function"
    case Case(_, _) => "case"
    case DBracket(_, _) => "[["
  }

  lemma KeywordsBare()
    ensures BareWord("if") && BareWord("while") && BareWord("for") && BareWord("case") && BareWord("[[")
    ensures BareWord("function") && BareWord("then") && BareWord("else") && BareWord("elif") && BareWord("fi")
    ensures BareWord("do") && BareWord("done") && BareWord("esac") && BareWord("in") && BareWord("]]")
  {
  }

  // An item begins with no stop word.
  lemma KindHead(s: string, p: nat, kind: Kind)
    requires PrintableKind(kind) && HasAt(s, p, PrintKind(kind)) && BlankAt(s, p + |PrintKind(kind)|)
    ensures Starts(s, p)
  {
    hide HasAt, IsSpace, PrintItems, MatchKw, SkipWs, Peek, PeekOne, BareWord, PrintableKind;
    if kind.Pipeline? {
      PipelineStarts(s, p, kind.cmds);
    } else {
      CompoundHead(s, p, kind);
      SkipWsHere(s, p);
      NoStop(s, p, HeadWord(kind));
    }
  }

  lemma PipelineStarts(s: string, p: nat, cmds: seq<Cmd>)
    requires PrintableKind(Pipeline(cmds))
    requires HasAt(s, p, PrintPipeline(cmds)) && BlankAt(s, p + |PrintPipeline(cmds)|)
    ensures Starts(s, p)
  {
    hide HasAt, IsSpace, MatchKw, SkipWs, PrintPipeline, PrintableKind, FindConn, PeekOne;
    PipelineShape(s, p, cmds);
    if cmds[0].quoted[0] == 0 {
      var w := cmds[0].argv[0];
      PlainIsBare(w);
      SkipWsHere(s, p);
      NoStop(s, p, w);
    } else {
      QuoteNoStop(s, p);
    }
  }

  lemma CompoundHead(s: string, p: nat, kind: Kind)
    requires !kind.Pipeline? && HasAt(s, p, PrintKind(kind))
    ensures var w := HeadWord(kind);
            && HasAt(s, p, w) && BlankAt(s, p + |w|) && BareWord(w) && w[0] != '}'
            && w !in ["then", "else", "elif", "fi", "do", "done", "esac"]
            && p < |s| && !IsSpace(s[p])
  {
    var w := HeadWord(kind);
    KeywordsBare();
    KindText(kind);
    var rest := PrintKind(kind)[|w| + 1..];
    hide PrintKind, PrintItems, BareWord, HasAt;
    HasSplit(s, p, w, " " + rest);
    CharAt(s, p, w, 0);
    CharAt(s, p + |w|, " " + rest, 0);
  }

  lemma Front(a: string, b: string)
    ensures (a + b)[..|a|] == a && (a + b)[|a|..] == b
  {
  }

  lemma KindStarts(kind: Kind)
    requires !kind.Pipeline?
    ensures HeadWord(kind) + " " <= PrintKind(kind)
  {
    hide PrintItems, PrintDo, PrintBranches, PrintWords, PrintMarked, ShowWord, PrintArm, PrintArms;
    match kind
    case If(arms) => if arms != [] { Front("if ", PrintArm(arms[0]) + PrintArms(arms[1..])); }
    case While(test, loop) => Front("while ", PrintItems(test) + PrintDo(loop));
    case For(name, words, each) =>
      Front("for ", ShowWord(name) + (" in " + (PrintWords(words) + ("; " + PrintDo(each)))));
    case Fn(name, body) => Front("function ", name + (" { " + (PrintItems(body) + "}")));
    case Case(word, branches) => Front("case ", ShowWord(word) + (" in " + PrintBranches(branches)));
    case DBracket(tokens, marks) => Front("[[ ", PrintMarked(tokens, marks) + "]]");
  }

  lemma KindText(kind: Kind)
    requires !kind.Pipeline?
    ensures var w := HeadWord(kind);
            |w| < |PrintKind(kind)| && PrintKind(kind) == w + (" " + PrintKind(kind)[|w| + 1..])
  {
    hide PrintKind, HeadWord;
    KindStarts(kind);
    var w, t := HeadWord(kind), PrintKind(kind);
    assert t[..|w| + 1] == w + " ";
    assert t == t[..|w| + 1] + t[|w| + 1..];
  }

  // At a compound command, its keyword is the one that matches.
  lemma Dispatch(s: string, p: nat, kw: string)
    requires kw in ["if", "while", "for", "case", "[[", "function"]
    requires HasAt(s, p, kw) && BlankAt(s, p + |kw|)
    ensures p < |s| && !IsSpace(s[p]) && SkipWs(s, p) == p
    ensures MatchKw(s, p, "if") <==> kw == "if"
    ensures MatchKw(s, p, "while") <==> kw == "while"
    ensures MatchKw(s, p, "for") <==> kw == "for"
    ensures MatchKw(s, p, "case") <==> kw == "case"
    ensures MatchKw(s, p, "[[") <==> kw == "[["
    ensures MatchKw(s, p, "function") <==> kw == "function"
  {
    KeywordsBare();
    CharAt(s, p, kw, 0);
    KwIsWord(s, p, p, kw, "if");
    KwIsWord(s, p, p, kw, "while");
    KwIsWord(s, p, p, kw, "for");
    KwIsWord(s, p, p, kw, "case");
    KwIsWord(s, p, p, kw, "[[");
    KwIsWord(s, p, p, kw, "function");
  }

  // A pipeline begins none of the compound commands.
  lemma NotCompound(s: string, p: nat, cmds: seq<Cmd>, background: bool, next: RunCond)
    requires PrintableKind(Pipeline(cmds)) && (background ==> next.Always?)
    requires HasAt(s, p, PrintPipeline(cmds)) && HasAt(s, p + |PrintPipeline(cmds)|, ConnText(background, next))
    ensures ParseCompound(s, p).None?
  {
    hide PrintPipeline, PrintableKind, ConnText, ConnMark, HasAt, ConnAt, FindConn, LooksLikeFnDef, MatchKw;
    hide SkipWs, IsSpace, CommandWord, WordText;
    hide ParseIf, ParseWhile, ParseFor, ParseCase, ParseTest, ParseFn, WfKind, BareWord;
    ConnBack(s, p + |PrintPipeline(cmds)|, background, next);
    PipelineShape(s, p, cmds);
    NotFnDef(s, p, cmds, background, next);
    if cmds[0].quoted[0] == 0 {
      PlainNoKw(s, p, cmds[0].argv[0]);
    } else {
      QuoteNoKw(s, p, "if");
      QuoteNoKw(s, p, "while");
      QuoteNoKw(s, p, "for");
      QuoteNoKw(s, p, "case");
      QuoteNoKw(s, p, "[[");
      QuoteNoKw(s, p, "function");
    }
  }

  lemma PlainNoKw(s: string, p: nat, w: string)
    requires CommandWord(w) && HasAt(s, p, WordText(w, 0)) && BlankAt(s, p + |WordText(w, 0)|)
    requires p < |s| && !IsSpace(s[p])
    ensures !MatchKw(s, p, "if") && !MatchKw(s, p, "while") && !MatchKw(s, p, "for")
    ensures !MatchKw(s, p, "case") && !MatchKw(s, p, "[[") && !MatchKw(s, p, "function")
  {
    hide HasAt, MatchKw, SkipWs, IsSpace, BareWord;
    KeywordsBare();
    PlainIsBare(w);
    SkipWsHere(s, p);
    KwIsWord(s, p, p, w, "if");
    KwIsWord(s, p, p, w, "while");
    KwIsWord(s, p, p, w, "for");
    KwIsWord(s, p, p, w, "case");
    KwIsWord(s, p, p, w, "[[");
    KwIsWord(s, p, p, w, "function");
  }

  // A keyword, a blank, and then some text.
  lemma KwBlank(s: string, q: nat, kw: string, text: string, rest: string)
    requires text == kw + " " && HasAt(s, q, text + rest) && BareWord(kw)
    ensures HasAt(s, q, kw) && BlankAt(s, q + |kw|) && HasAt(s, q + |text|, rest)
    ensures q < |s| && !IsSpace(s[q]) && s[q] == kw[0]
    ensures SkipWs(s, q) == q && MatchKw(s, q, kw)
  {
    HasSplit(s, q, text, rest);
    HasSplit(s, q, kw, " ");
    CharAt(s, q, kw, 0);
    CharAt(s, q + |kw|, " ", 0);
    assert !IsDelim(kw[0]);
    SkipWsHere(s, q);
  }

  // A keyword with a blank after it.
  lemma KwLast(s: string, q: nat, kw: string)
    requires HasAt(s, q, kw) && BlankAt(s, q + |kw|) && BareWord(kw)
    ensures q < |s| && !IsSpace(s[q]) && SkipWs(s, q) == q && MatchKw(s, q, kw)
  {
    CharAt(s, q, kw, 0);
    SkipWsHere(s, q);
  }

  // ---- lists ----

  // Parsing can stop at e: a stop word, or the end where no stop word is needed.
  predicate Stop(s: string, e: nat, stops: set<Kw>, needStop: bool) {
    e <= |s| && (e < |s| ==> !IsSpace(s[e]) && Peek(s, e, stops)) && (e == |s| ==> !needStop)
  }

  // After a compound command with its connector.
  lemma TakeConnBack(s: string, q: nat, kind: Kind, background: bool, next: RunCond)
    requires HasAt(s, q, ConnText(background, next)) && (background ==> next.Always?)
    ensures TakeConn(s, q, kind) == ItemGot(kind, background, next, true, q + 1 + |ConnMark(background, next)|)
  {
    ConnBack(s, q, background, next);
    SkipBlank(s, q);
  }

  lemma {:induction false} ItemBack(s: string, p: nat, item: Item, next: RunCond)
    requires PrintableItem(item) && (item.background ==> next.Always?)
    requires HasAt(s, p, PrintItem(item)) && HasAt(s, p + |PrintItem(item)|, ConnText(item.background, next))
    ensures p < |s| && !IsSpace(s[p])
    ensures var e := p + |PrintItem(item)| + 1 + |ConnMark(item.background, next)|;
            ParseItem(s, p) == ItemGot(item.kind, item.background, next, true, e)
    decreases item, 1
  {
    hide PrintKind, ConnText, ConnMark, PrintableKind, ParseCompound, WfKind, ConnAt, TakeConn, SkipWs, HasAt;
    hide ParsePipelineItem;
    hide HeadWord, BareWord, IsSpace, PrintPipeline;
    ConnBack(s, p + |PrintItem(item)|, item.background, next);
    KindHead(s, p, item.kind);
    if item.kind.Pipeline? {
      assert PrintKind(item.kind) == PrintPipeline(item.kind.cmds) by { PipelineText(item.kind); }
      NotCompound(s, p, item.kind.cmds, item.background, next);
      PipelineItemBack(s, p, item.kind.cmds, item.background, next);
    } else {
      KindBack(s, p, item.kind);
      TakeConnBack(s, p + |PrintItem(item)|, item.kind, item.background, next);
    }
  }

  lemma PipelineText(kind: Kind)
    requires kind.Pipeline?
    ensures PrintKind(kind) == PrintPipeline(kind.cmds)
  {
  }

  lemma ItemsStep(s: string, i: nat, p: nat, stops: set<Kw>, needStop: bool, cond: RunCond, item: Item, next: RunCond,
                  q: nat, rest: seq<Item>, e: nat)
    requires i <= p < |s| && SkipWs(s, i) == p && !IsSpace(s[p]) && !Peek(s, p, stops) && q <= |s| && item.cond == cond
    requires ParseItem(s, p) == ItemGot(item.kind, item.background, next, true, q)
    requires ParseItems(s, q, stops, needStop, next) == Got(rest, e)
    ensures ParseItems(s, i, stops, needStop, cond) == Got([item] + rest, e)
  {
    hide Peek, ParseItem, WfFrom, WfKind, SkipWs;
  }

  lemma ItemsEnd(s: string, i: nat, p: nat, stops: set<Kw>, needStop: bool)
    requires i <= p <= |s| && SkipWs(s, i) == p && Stop(s, p, stops, needStop)
    ensures ParseItems(s, i, stops, needStop, Always) == Got([], p)
  {
    hide Peek, ParseItem, WfFrom, SkipWs;
  }

  lemma {:induction false} ItemsBack(s: string, i: nat, p: nat, items: seq<Item>, stops: set<Kw>, needStop: bool,
                                     cond: RunCond)
    requires i <= p <= |s| && SkipWs(s, i) == p
    requires PrintableFrom(items, cond) && (items == [] ==> cond.Always?)
    requires HasAt(s, p, PrintItems(items)) && Stop(s, p + |PrintItems(items)|, stops, needStop)
    ensures ParseItems(s, i, stops, needStop, cond) == Got(items, p + |PrintItems(items)|)
    decreases items, 0
  {
    hide ParseItems, ParseItem, SkipWs, Peek, Stop, HasAt, PrintItem, ConnText, IsSpace;
    hide PrintItems, PrintableFrom, PrintableItem, ConnMark, NextCond;
    if items == [] {
      EmptyText();
      ItemsEnd(s, i, p, stops, needStop);
    } else {
      var next := NextCond(items);
      var q := p + |PrintItem(items[0])| + 1 + |ConnMark(items[0].background, next)|;
      var e := p + |PrintItems(items)|;
      ItemsParts(s, p, items, cond);
      ItemBack(s, p, items[0], next);
      HeadNoStop(s, p, items[0], stops);
      ItemsStart(s, q + 1, items[1..], next, stops, needStop);
      SkipBlank(s, q);
      ItemsBack(s, q, q + 1, items[1..], stops, needStop, next);
      ItemsStep(s, i, p, stops, needStop, cond, items[0], next, q, items[1..], e);
      assert items == [items[0]] + items[1..];
    }
  }

  lemma EmptyText()
    ensures PrintItems([]) == "" && PrintArms([]) == "fi"
  {
  }

  // Where the parts of a printed list stand.
  lemma ItemsParts(s: string, p: nat, items: seq<Item>, cond: RunCond)
    requires items != [] && PrintableFrom(items, cond) && HasAt(s, p, PrintItems(items))
    ensures var next := NextCond(items);
            var conn := p + |PrintItem(items[0])|;
            var q := conn + 1 + |ConnMark(items[0].background, next)|;
            && HasAt(s, p, PrintItem(items[0])) && HasAt(s, conn, ConnText(items[0].background, next))
            && BlankAt(s, conn) && BlankAt(s, q) && HasAt(s, q + 1, PrintItems(items[1..]))
            && p + |PrintItems(items)| == q + 1 + |PrintItems(items[1..])|
            && items[0].cond == cond && PrintableItem(items[0]) && (items[0].background ==> next.Always?)
            && PrintableFrom(items[1..], next) && (items[1..] == [] ==> next.Always?)
  {
    hide HasAt, PrintItems, PrintItem, PrintableFrom, PrintableItem, ConnText, ConnMark, NextCond, ConnAt, IsSpace;
    var next := NextCond(items);
    var a, b, c := PrintItem(items[0]), ConnText(items[0].background, next), PrintItems(items[1..]);
    ItemsText(items, cond);
    HasSplit(s, p, a, b + c);
    HasSplit(s, p + |a|, b, c);
    ConnBack(s, p + |a|, items[0].background, next);
  }

  lemma ItemsText(items: seq<Item>, cond: RunCond)
    requires items != [] && PrintableFrom(items, cond)
    ensures var next := NextCond(items);
            && PrintItems(items) == PrintItem(items[0]) + (ConnText(items[0].background, next) + PrintItems(items[1..]))
            && |ConnText(items[0].background, next)| == |ConnMark(items[0].background, next)| + 2
            && items[0].cond == cond && PrintableItem(items[0]) && (items[0].background ==> next.Always?)
            && PrintableFrom(items[1..], next) && (items[1..] == [] ==> next.Always?)
  {
  }

  lemma HeadNoStop(s: string, p: nat, item: Item, stops: set<Kw>)
    requires PrintableItem(item) && HasAt(s, p, PrintItem(item)) && BlankAt(s, p + |PrintItem(item)|)
    ensures p <= |s| && !Peek(s, p, stops)
  {
    hide HasAt, BlankAt, PrintKind, PrintableKind, PeekOne;
    KindHead(s, p, item.kind);
  }

  lemma ItemsStart(s: string, p: nat, items: seq<Item>, cond: RunCond, stops: set<Kw>, needStop: bool)
    requires PrintableFrom(items, cond) && HasAt(s, p, PrintItems(items))
    requires Stop(s, p + |PrintItems(items)|, stops, needStop)
    ensures p < |s| ==> !IsSpace(s[p])
  {
    hide HasAt, PrintItems, PrintKind, PrintableFrom, PrintableKind, ConnText, ConnMark, NextCond, BareWord;
    hide IsSpace, PeekOne;
    if items == [] {
      EmptyText();
    } else {
      ItemsParts(s, p, items, cond);
      KindHead(s, p, items[0].kind);
    }
  }

  // A body between a blank at i and a stop word at its end.
  lemma {:induction false} BodyBack(s: string, i: nat, items: seq<Item>, stops: set<Kw>, kw: Kw)
    requires BlankAt(s, i) && PrintableFrom(items, Always) && HasAt(s, i + 1, PrintItems(items))
    requires var e := i + 1 + |PrintItems(items)|; e < |s| && !IsSpace(s[e]) && kw in stops && PeekOne(s, e, kw)
    ensures ParseBody(s, i, stops) == Got(items, i + 1 + |PrintItems(items)|)
    decreases items, 1
  {
    ItemsStart(s, i + 1, items, Always, stops, true);
    SkipBlank(s, i);
    ItemsBack(s, i, i + 1, items, stops, true, Always);
  }

  // ---- compound commands ----

  lemma WhileStep(s: string, i: nat, test: seq<Item>, q: nat, loop: seq<Item>, e: nat)
    requires i <= |s| && ParseBody(s, i, {KwDo}) == Got(test, q) && test != []
    requires MatchKw(s, q, "do") && SkipWs(s, q) == q
    requires ParseBody(s, q + 2, {KwDone}) == Got(loop, e) && MatchKw(s, e, "done") && SkipWs(s, e) == e
    ensures ParseWhile(s, i) == Got(While(test, loop), e + 4)
  {
    hide ParseBody, WfItems, SkipWs;
  }

  // do BODY done, at q
  lemma {:induction false} DoBack(s: string, q: nat, body: seq<Item>)
    requires PrintableFrom(body, Always) && HasAt(s, q, PrintDo(body)) && BlankAt(s, q + |PrintDo(body)|)
    ensures q < |s| && !IsSpace(s[q]) && MatchKw(s, q, "do") && SkipWs(s, q) == q && BlankAt(s, q + 2)
    ensures HasAt(s, q, "do")
    ensures var e := q + |PrintDo(body)| - 4;
            q + 3 <= e && ParseBody(s, q + 2, {KwDone}) == Got(body, e) && MatchKw(s, e, "done") && SkipWs(s, e) == e
    decreases body, 2
  {
    hide ParseBody, WfItems, PrintableFrom, PrintItems, SkipWs, MatchKw, HasAt, BareWord, IsSpace;
    var b := PrintItems(body);
    KeywordsBare();
    KwBlank(s, q, "do", "do ", b + "done");
    HasSplit(s, q + 3, b, "done");
    KwLast(s, q + 3 + |b|, "done");
    BodyBack(s, q + 2, body, {KwDone}, KwDone);
  }

  lemma {:induction false} WhileBack(s: string, i: nat, test: seq<Item>, loop: seq<Item>)
    requires BlankAt(s, i) && test != [] && PrintableFrom(test, Always) && PrintableFrom(loop, Always)
    requires var t := PrintItems(test) + PrintDo(loop); HasAt(s, i + 1, t) && BlankAt(s, i + 1 + |t|)
    ensures ParseWhile(s, i) == Got(While(test, loop), i + 1 + |PrintItems(test) + PrintDo(loop)|)
    decreases While(test, loop), 2
  {
    hide ParseWhile, ParseBody, WfItems, PrintableFrom, PrintItems, PrintDo, SkipWs, MatchKw, HasAt, BareWord, IsSpace;
    var a, b := PrintItems(test), PrintDo(loop);
    HasSplit(s, i + 1, a, b);
    var q := i + 1 + |a|;
    DoBack(s, q, loop);
    PeekDo(s, q);
    BodyBack(s, i, test, {KwDo}, KwDo);
    WhileStep(s, i, test, q, loop, q + |b| - 4);
  }

  lemma PeekDo(s: string, q: nat)
    requires q <= |s| && MatchKw(s, q, "do")
    ensures PeekOne(s, q, KwDo)
  {
  }

  lemma ArmStep(s: string, i: nat, cond: seq<Item>, q: nat, body: seq<Item>, e: nat)
    requires i <= |s| && ParseBody(s, i, {KwThen}) == Got(cond, q) && cond != []
    requires MatchKw(s, q, "then") && SkipWs(s, q) == q
    requires ParseBody(s, q + 4, {KwElif, KwElse, KwFi}) == Got(body, e)
    ensures ParseArm(s, i) == Got(Arm(cond, body, false), e)
  {
    hide ParseBody, WfItems, SkipWs;
  }

  lemma {:induction false} ArmBack(s: string, i: nat, arm: Arm, stop: Kw)
    requires BlankAt(s, i) && PrintableArm(arm) && !arm.isElse && HasAt(s, i + 1, PrintArm(arm))
    requires var e := i + 1 + |PrintArm(arm)|;
             e < |s| && !IsSpace(s[e]) && stop in {KwElif, KwElse, KwFi} && PeekOne(s, e, stop)
    ensures ParseArm(s, i) == Got(arm, i + 1 + |PrintArm(arm)|)
    decreases arm, 2
  {
    hide ParseArm, ParseBody, WfItems, PrintableFrom, PrintItems, SkipWs, MatchKw, HasAt, BareWord, IsSpace;
    var a, b := PrintItems(arm.cond), PrintItems(arm.body);
    KeywordsBare();
    HasSplit(s, i + 1, a, "then " + b);
    var q := i + 1 + |a|;
    KwBlank(s, q, "then", "then ", b);
    BodyBack(s, i, arm.cond, {KwThen}, KwThen);
    BodyBack(s, q + 4, arm.body, {KwElif, KwElse, KwFi}, stop);
    ArmStep(s, i, arm.cond, q, arm.body, q + 5 + |b|);
  }

  // Which stop word the text of the remaining arms begins with.
  function ArmStop(arms: seq<Arm>): Kw {
    if arms == [] then KwFi else if arms[0].isElse then KwElse else KwElif
  }

  lemma ArmsStart(s: string, q: nat, arms: seq<Arm>)
    requires HasAt(s, q, PrintArms(arms)) && BlankAt(s, q + |PrintArms(arms)|)
    ensures q < |s| && !IsSpace(s[q]) && PeekOne(s, q, ArmStop(arms)) && SkipWs(s, q) == q
    ensures arms == [] ==> MatchKw(s, q, "fi") && !MatchKw(s, q, "elif") && !MatchKw(s, q, "else")
    ensures arms != [] ==>
              && BlankAt(s, q + 4) && HasAt(s, q + 5, PrintArm(arms[0]) + PrintArms(arms[1..]))
              && MatchKw(s, q, if arms[0].isElse then "else" else "elif")
              && (arms[0].isElse ==> !MatchKw(s, q, "elif"))
  {
    KeywordsBare();
    if arms == [] {
      KwLast(s, q, "fi");
      KwIsWord(s, q, q, "fi", "elif");
      KwIsWord(s, q, q, "fi", "else");
    } else {
      var rest := PrintArm(arms[0]) + PrintArms(arms[1..]);
      if arms[0].isElse {
        KwBlank(s, q, "else", "else ", rest);
        KwIsWord(s, q, q, "else", "elif");
      } else {
        KwBlank(s, q, "elif", "elif ", rest);
      }
    }
  }

  lemma ArmsStep(s: string, q: nat, arm: Arm, p: nat, rest: seq<Arm>, e: nat)
    requires q <= |s| && SkipWs(s, q) == q && MatchKw(s, q, "elif")
    requires ParseArm(s, q + 4) == Got(arm, p) && ParseArms(s, p) == Got(rest, e)
    ensures ParseArms(s, q) == Got([arm] + rest, e)
  {
    hide ParseArm, WfItems, SkipWs;
  }

  lemma ElseStep(s: string, q: nat, body: seq<Item>, p: nat)
    requires q <= |s| && SkipWs(s, q) == q && !MatchKw(s, q, "elif") && MatchKw(s, q, "else")
    requires ParseBody(s, q + 4, {KwFi}) == Got(body, p) && MatchKw(s, p, "fi") && SkipWs(s, p) == p
    ensures ParseArms(s, q) == Got([Arm([], body, true)], p + 2)
  {
    hide ParseBody, WfItems, SkipWs;
  }

  lemma FiStep(s: string, q: nat)
    requires q <= |s| && SkipWs(s, q) == q && !MatchKw(s, q, "elif") && !MatchKw(s, q, "else") && MatchKw(s, q, "fi")
    ensures ParseArms(s, q) == Got([], q + 2)
  {
    hide ParseBody, WfItems, SkipWs;
  }

  lemma ArmsText(arms: seq<Arm>)
    requires arms != [] && PrintableArms(arms)
    ensures |PrintArms(arms)| == 5 + |PrintArm(arms[0])| + |PrintArms(arms[1..])|
    ensures PrintableArm(arms[0]) && PrintableArms(arms[1..])
    ensures arms[0].isElse ==>
              arms[1..] == [] && PrintArm(arms[0]) == PrintItems(arms[0].body) && PrintArms(arms[1..]) == "fi"
  {
  }

  lemma {:induction false} ElseBack(s: string, q: nat, arm: Arm)
    requires PrintableArm(arm) && arm.isElse && q + 4 <= |s| && SkipWs(s, q) == q && BlankAt(s, q + 4)
    requires !MatchKw(s, q, "elif") && MatchKw(s, q, "else")
    requires HasAt(s, q + 5, PrintArm(arm))
    requires var e := q + 5 + |PrintArm(arm)|; e < |s| && !IsSpace(s[e]) && SkipWs(s, e) == e && PeekOne(s, e, KwFi)
    ensures ParseArms(s, q) == Got([arm], q + 7 + |PrintArm(arm)|)
    decreases arm, 2
  {
    hide WfItems, ParseArms, ParseBody, SkipWs, MatchKw, HasAt, PrintableFrom, PrintItems, IsSpace;
    BodyBack(s, q + 4, arm.body, {KwFi}, KwFi);
    ElseStep(s, q, arm.body, q + 5 + |PrintArm(arm)|);
    assert [arm] == [Arm([], arm.body, true)];
  }

  lemma {:induction false} ArmsBack(s: string, q: nat, arms: seq<Arm>)
    requires PrintableArms(arms) && HasAt(s, q, PrintArms(arms)) && BlankAt(s, q + |PrintArms(arms)|)
    ensures ParseArms(s, q) == Got(arms, q + |PrintArms(arms)|)
    decreases arms, 3
  {
    hide WfItems, ParseArms, ParseArm, ParseBody, SkipWs, MatchKw, PeekOne, HasAt, IsSpace;
    hide PrintArm, PrintArms, ArmKw, PrintableArms, PrintableArm;
    ArmsStart(s, q, arms);
    if arms == [] {
      EmptyText();
      FiStep(s, q);
    } else {
      var a, rest := PrintArm(arms[0]), PrintArms(arms[1..]);
      var e := q + |PrintArms(arms)|;
      ArmsText(arms);
      HasSplit(s, q + 5, a, rest);
      ArmsStart(s, q + 5 + |a|, arms[1..]);
      if arms[0].isElse {
        ElseBack(s, q, arms[0]);
        assert arms == [arms[0]];
      } else {
        ArmBack(s, q + 4, arms[0], ArmStop(arms[1..]));
        ArmsBack(s, q + 5 + |a|, arms[1..]);
        ArmsStep(s, q, arms[0], q + 5 + |a|, arms[1..], e);
        assert arms == [arms[0]] + arms[1..];
      }
    }
  }

  lemma {:induction false} IfBack(s: string, i: nat, arms: seq<Arm>)
    requires BlankAt(s, i) && arms != [] && !arms[0].isElse && PrintableArms(arms)
    requires var t := PrintArm(arms[0]) + PrintArms(arms[1..]); HasAt(s, i + 1, t) && BlankAt(s, i + 1 + |t|)
    ensures ParseIf(s, i) == Got(If(arms), i + 1 + |PrintArm(arms[0]) + PrintArms(arms[1..])|)
    decreases arms, 3
  {
    hide WfItems, ParseIf, ParseArm, ParseArms, SkipWs, MatchKw, PeekOne, HasAt, IsSpace, PrintArm, PrintArms;
    hide PrintableArm;
    var a, rest := PrintArm(arms[0]), PrintArms(arms[1..]);
    HasSplit(s, i + 1, a, rest);
    var q := i + 1 + |a|;
    ArmsStart(s, q, arms[1..]);
    ArmBack(s, i, arms[0], ArmStop(arms[1..]));
    ArmsBack(s, q, arms[1..]);
    IfStep(s, i, arms[0], q, arms[1..], q + |rest|);
    assert arms == [arms[0]] + arms[1..];
  }

  lemma IfStep(s: string, i: nat, arm: Arm, q: nat, rest: seq<Arm>, e: nat)
    requires i <= |s| && ParseArm(s, i) == Got(arm, q) && ParseArms(s, q) == Got(rest, e)
    ensures ParseIf(s, i) == Got(If([arm] + rest), e)
  {
    hide ParseArm, ParseArms, WfItems, WfKind;
  }

  // ---- for ----

  // A shown word is read back, by each of the three scanners.
  lemma ShowBack(kind: WordKind, s: string, p: nat, w: string)
    requires Showable(w) && HasAt(s, p, ShowWord(w)) && BlankAt(s, p + |ShowWord(w)|)
    ensures p < |s| && ScanWord(kind, s, p) == Scan(w, Mark(w), p + |ShowWord(w)|) && ShowWord(w) != []
    ensures !IsSpace(s[p]) && s[p] != '(' && s[p] != ';'
    ensures if Mark(w) == 0 then PlainWord(w) && w != "do" && ShowWord(w) == w else IsQuote(s[p])
  {
    hide HasAt, ScanWord, WordText, PrintableWord;
    MarkPrints(w);
    WordBack(kind, s, p, w, Mark(w));
    WordStart(s, p, w, Mark(w));
    BareText(w);
  }

  lemma BareText(w: string)
    ensures WordText(w, 0) == w
    ensures Mark(w) == 0 ==> PlainWord(w) && w != "do"
  {
  }

  lemma WordsStep(s: string, i: nat, w: string, rest: seq<string>, e: nat)
    requires BlankAt(s, i) && Showable(w) && HasAt(s, i + 1, ShowWord(w)) && BlankAt(s, i + 1 + |ShowWord(w)|)
    requires ForWords(s, i + 1 + |ShowWord(w)|) == Got(rest, e)
    ensures ForWords(s, i) == Got([w] + rest, e)
  {
    hide ScanWord, MatchKw, ShowWord, HasAt, PlainWord, Quotable;
    ShowBack(ListWord, s, i + 1, w);
    SkipBlank(s, i);
    SkipWsHere(s, i + 1);
    NoDoHere(s, i + 1, w);
  }

  // A shown word is not the keyword do.
  lemma NoDoHere(s: string, p: nat, w: string)
    requires Showable(w) && HasAt(s, p, ShowWord(w)) && BlankAt(s, p + |ShowWord(w)|)
    ensures p < |s| && !MatchKw(s, p, "do")
  {
    hide HasAt, MatchKw, SkipWs, ShowWord;
    ShowBack(ListWord, s, p, w);
    if Mark(w) == 0 {
      PlainIsBare(w);
      KeywordsBare();
      SkipWsHere(s, p);
      KwIsWord(s, p, p, w, "do");
    } else {
      QuoteNoKw(s, p, "do");
    }
  }

  lemma WordsEnd(s: string, i: nat)
    requires BlankAt(s, i) && i + 1 < |s| && s[i + 1] == ';'
    ensures ForWords(s, i) == Got([], i + 2)
  {
    hide ScanWord, MatchKw;
    SkipBlank(s, i);
  }

  lemma {:induction false} WordsBack(s: string, i: nat, words: seq<string>)
    requires BlankAt(s, i) && Showables(words) && HasAt(s, i + 1, PrintWords(words))
    requires var e := i + 1 + |PrintWords(words)|; e < |s| && s[e] == ';'
    ensures ForWords(s, i) == Got(words, i + 2 + |PrintWords(words)|)
    decreases |words|
  {
    hide HasAt, ShowWord, Showable, ScanWord, ForWords, IsSpace, SkipWs, MatchKw;
    if words == [] {
      WordsEnd(s, i);
    } else {
      var w, rest := ShowWord(words[0]), PrintWords(words[1..]);
      HasSplit(s, i + 1, w, " " + rest);
      HasSplit(s, i + 1 + |w|, " ", rest);
      CharAt(s, i + 1 + |w|, " ", 0);
      WordsBack(s, i + 1 + |w|, words[1..]);
      WordsStep(s, i, words[0], words[1..], i + 2 + |PrintWords(words)|);
      assert words == [words[0]] + words[1..];
    }
  }

  lemma ForStep(s: string, i: nat, name: string, words: seq<string>, q: nat, each: seq<Item>, e: nat)
    requires BlankAt(s, i) && Showable(name) && HasAt(s, i + 1, ShowWord(name)) && BlankAt(s, i + 1 + |ShowWord(name)|)
    requires var n := i + 1 + |ShowWord(name)|;
             MatchKw(s, n, "in") && SkipWs(s, n) == n + 1 && ForWords(s, n + 3) == Got(words, q)
    requires q <= |s| && MatchKw(s, q, "do") && SkipWs(s, q) == q + 1
    requires ParseBody(s, q + 3, {KwDone}) == Got(each, e) && MatchKw(s, e, "done") && SkipWs(s, e) == e
    ensures ParseFor(s, i) == Got(For(name, words, each), e + 4)
  {
    hide ParseBody, WfItems, ForWords, ScanWord, HasAt, SkipWs, MatchKw, IsSpace, ShowWord, Quotable;
    ShowBack(ListWord, s, i + 1, name);
    SkipBlank(s, i);
  }

  // A keyword after one blank.
  lemma KwAfterBlank(s: string, i: nat, kw: string)
    requires BlankAt(s, i) && HasAt(s, i + 1, kw) && BlankAt(s, i + 1 + |kw|) && BareWord(kw)
    ensures SkipWs(s, i) == i + 1 && MatchKw(s, i, kw)
  {
    CharAt(s, i + 1, kw, 0);
    SkipBlank(s, i);
  }

  lemma {:induction false} ForBack(s: string, i: nat, name: string, words: seq<string>, each: seq<Item>)
    requires BlankAt(s, i) && Showable(name) && Showables(words) && PrintableFrom(each, Always)
    requires var t := ShowWord(name) + (" in " + (PrintWords(words) + ("; " + PrintDo(each))));
             HasAt(s, i + 1, t) && BlankAt(s, i + 1 + |t|)
    ensures ParseFor(s, i) ==
            Got(For(name, words, each),
                i + 1 + |ShowWord(name) + (" in " + (PrintWords(words) + ("; " + PrintDo(each))))|)
    decreases each, 3
  {
    hide ParseFor, ParseBody, ForWords, SkipWs, MatchKw, HasAt, IsSpace, ShowWord, Showable, Showables, PrintableFrom;
    hide PrintItems, PrintWords, PrintDo, BareWord, WfItems;
    var a, b := PrintWords(words), PrintDo(each);
    var n := i + 1 + |ShowWord(name)|;
    var q := n + 4 + |a|;
    ForParts(s, i + 1, ShowWord(name), a, b);
    InAt(s, n);
    WordsBack(s, n + 3, words);
    DoBack(s, q + 2, each);
    KwDoAfter(s, q + 1);
    ForStep(s, i, name, words, q + 1, each, q + 2 + |b| - 4);
  }

  // Where the parts of a printed for loop stand.
  lemma ForParts(s: string, p: nat, name: string, a: string, b: string)
    requires HasAt(s, p, name + (" in " + (a + ("; " + b))))
    ensures var n := p + |name|;
            var q := n + 4 + |a|;
            && HasAt(s, p, name) && HasAt(s, n, " in ") && HasAt(s, n + 4, a) && HasAt(s, q + 2, b)
            && q < |s| && s[q] == ';' && BlankAt(s, q + 1)
  {
    hide HasAt;
    var n := p + |name|;
    var q := n + 4 + |a|;
    HasSplit(s, p, name, " in " + (a + ("; " + b)));
    HasSplit(s, n, " in ", a + ("; " + b));
    HasSplit(s, n + 4, a, "; " + b);
    HasSplit(s, q, "; ", b);
    CharAt(s, q, "; ", 0);
    CharAt(s, q, "; ", 1);
  }

  lemma KwDoAfter(s: string, i: nat)
    requires BlankAt(s, i) && HasAt(s, i + 1, "do") && BlankAt(s, i + 3)
    ensures SkipWs(s, i) == i + 1 && MatchKw(s, i, "do")
  {
    KeywordsBare();
    KwAfterBlank(s, i, "do");
  }

  lemma InAt(s: string, n: nat)
    requires HasAt(s, n, " in ")
    ensures BlankAt(s, n) && BlankAt(s, n + 3) && MatchKw(s, n, "in") && SkipWs(s, n) == n + 1
  {
    KeywordsBare();
    Around(s, n, "in", " in ");
    KwAfterBlank(s, n, "in");
  }

  // A word between two blanks.
  lemma Around(s: string, p: nat, w: string, text: string)
    requires text == " " + w + " " && HasAt(s, p, text)
    ensures BlankAt(s, p) && HasAt(s, p + 1, w) && BlankAt(s, p + 1 + |w|)
  {
    assert text == " " + (w + " ");
    hide HasAt;
    HasSplit(s, p, " ", w + " ");
    HasSplit(s, p + 1, w, " ");
    CharAt(s, p, " ", 0);
    CharAt(s, p + 1 + |w|, " ", 0);
  }

  // ---- case ----

  lemma PatternStep(s: string, i: nat, w: string)
    requires BlankAt(s, i) && Showable(w) && HasAt(s, i + 1, ShowWord(w)) && BlankAt(s, i + 1 + |ShowWord(w)|)
    requires var q := i + 2 + |ShowWord(w)|; q < |s| && (s[q] == ')' || s[q] == '|')
    ensures var q := i + 2 + |ShowWord(w)|; s[q] == ')' ==> Patterns(s, i) == Got([w], q + 1)
    ensures var q := i + 2 + |ShowWord(w)|;
            s[q] == '|' && Patterns(s, q + 1).Got? ==>
              Patterns(s, i) == Got([w] + Patterns(s, q + 1).value, Patterns(s, q + 1).pos)
  {
    hide ScanWord, HasAt, ShowWord, Quotable;
    ShowBack(Pattern, s, i + 1, w);
    SkipBlank(s, i);
    SkipBlank(s, i + 1 + |ShowWord(w)|);
    hide SkipWs;
  }

  lemma {:induction false} PatternsBack(s: string, i: nat, pats: seq<string>)
    requires BlankAt(s, i) && pats != [] && Showables(pats) && HasAt(s, i + 1, PrintPatterns(pats))
    ensures Patterns(s, i) == Got(pats, i + 1 + |PrintPatterns(pats)|)
    decreases |pats|
  {
    hide HasAt, Showable, ShowWord, Patterns;
    var w := ShowWord(pats[0]);
    if |pats| == 1 {
      HasSplit(s, i + 1, w, " )");
      CharAt(s, i + 1 + |w|, " )", 0);
      CharAt(s, i + 1 + |w|, " )", 1);
      PatternStep(s, i, pats[0]);
      assert pats == [pats[0]];
    } else {
      var rest := PrintPatterns(pats[1..]);
      HasSplit(s, i + 1, w, " | " + rest);
      var n := i + 1 + |w|;
      HasSplit(s, n, " | ", rest);
      CharAt(s, n, " | ", 0);
      CharAt(s, n, " | ", 1);
      CharAt(s, n, " | ", 2);
      PatternsBack(s, n + 2, pats[1..]);
      PatternStep(s, i, pats[0]);
      assert pats == [pats[0]] + pats[1..];
    }
  }

  lemma BranchStep(s: string, p: nat, pats: seq<string>, q: nat, body: seq<Item>, e: nat)
    requires p < |s| && s[p] == '(' && Patterns(s, p + 1) == Got(pats, q)
    requires ParseBody(s, q, {KwDsemi, KwEsac}) == Got(body, e) && MatchMark(s, e, ";;") && SkipWs(s, e) == e
    ensures ParseBranch(s, p) == Got(Branch(pats, body), e + 2)
  {
    hide Patterns, ParseBody, WfItems, SkipWs;
  }

  lemma {:induction false} BranchBack(s: string, p: nat, branch: Branch)
    requires PrintableBranch(branch) && HasAt(s, p, PrintBranch(branch))
    ensures ParseBranch(s, p) == Got(branch, p + |PrintBranch(branch)| - 1) && BlankAt(s, p + |PrintBranch(branch)| - 1)
    ensures p + 1 < |s| && s[p] == '(' && s[p + 1] == ' '
    decreases branch, 2
  {
    hide ParseBranch, ParseBody, Patterns, SkipWs, MatchMark, HasAt, Showables, PrintableFrom, PrintItems;
    hide PrintPatterns, WfItems, IsSpace;
    var a, b := PrintPatterns(branch.patterns), PrintItems(branch.body);
    HasSplit(s, p, "( ", a + (" " + (b + ";; ")));
    CharAt(s, p, "( ", 0);
    CharAt(s, p, "( ", 1);
    HasSplit(s, p + 2, a, " " + (b + ";; "));
    PatternsBack(s, p + 1, branch.patterns);
    var q := p + 2 + |a|;
    HasSplit(s, q, " ", b + ";; ");
    CharAt(s, q, " ", 0);
    HasSplit(s, q + 1, b, ";; ");
    var e := q + 1 + |b|;
    DsemiAt(s, e);
    BodyBack(s, q, branch.body, {KwDsemi, KwEsac}, KwDsemi);
    BranchStep(s, p, branch.patterns, q, branch.body, e);
  }

  lemma DsemiAt(s: string, e: nat)
    requires HasAt(s, e, ";; ")
    ensures e < |s| && !IsSpace(s[e]) && SkipWs(s, e) == e && MatchMark(s, e, ";;") && PeekOne(s, e, KwDsemi)
    ensures BlankAt(s, e + 2)
  {
    CharAt(s, e, ";; ", 0);
    CharAt(s, e, ";; ", 1);
    CharAt(s, e, ";; ", 2);
    SkipWsHere(s, e);
  }

  lemma BranchesStep(s: string, i: nat, branch: Branch, e: nat, rest: seq<Branch>, f: nat)
    requires BlankAt(s, i) && i + 2 < |s| && s[i + 1] == '(' && s[i + 2] == ' '
    requires ParseBranch(s, i + 1) == Got(branch, e) && e <= |s| && Branches(s, e) == Got(rest, f)
    ensures Branches(s, i) == Got([branch] + rest, f)
  {
    hide ParseBranch, WfBranch;
    SkipBlank(s, i);
    KeywordsBare();
    assert s[i + 1..i + 2] == "(";
    KwIsWord(s, i, i + 1, "(", "esac");
  }

  lemma {:induction false} BranchesBack(s: string, i: nat, branches: seq<Branch>)
    requires BlankAt(s, i) && PrintableBranches(branches) && HasAt(s, i + 1, PrintBranches(branches))
    requires BlankAt(s, i + 1 + |PrintBranches(branches)|)
    ensures Branches(s, i) == Got(branches, i + 1 + |PrintBranches(branches)|)
    decreases branches, 3
  {
    hide Branches, ParseBranch, SkipWs, MatchKw, HasAt, BareWord, PrintBranch, PrintBranches, PrintableBranch;
    hide PrintableBranches;
    BranchesText(branches);
    if branches == [] {
      KeywordsBare();
      KwAfterBlank(s, i, "esac");
      EsacStep(s, i);
    } else {
      var a, rest := PrintBranch(branches[0]), PrintBranches(branches[1..]);
      HasSplit(s, i + 1, a, rest);
      BranchBack(s, i + 1, branches[0]);
      BranchesBack(s, i + |a|, branches[1..]);
      BranchesStep(s, i, branches[0], i + |a|, branches[1..], i + 1 + |a| + |rest|);
      assert branches == [branches[0]] + branches[1..];
    }
  }

  lemma EsacStep(s: string, i: nat)
    requires i <= |s| && SkipWs(s, i) == i + 1 && MatchKw(s, i, "esac")
    ensures Branches(s, i) == Got([], i + 5)
  {
    hide SkipWs, ParseBranch;
  }

  lemma BranchesText(branches: seq<Branch>)
    requires PrintableBranches(branches)
    ensures branches == [] ==> PrintBranches(branches) == "esac"
    ensures branches != [] ==>
              && PrintBranches(branches) == PrintBranch(branches[0]) + PrintBranches(branches[1..])
              && PrintableBranch(branches[0]) && PrintableBranches(branches[1..])
  {
  }

  lemma CaseStep(s: string, i: nat, word: string, branches: seq<Branch>, e: nat)
    requires BlankAt(s, i) && Showable(word) && HasAt(s, i + 1, ShowWord(word)) && BlankAt(s, i + 1 + |ShowWord(word)|)
    requires var n := i + 1 + |ShowWord(word)|;
             MatchKw(s, n, "in") && SkipWs(s, n) == n + 1 && Branches(s, n + 3) == Got(branches, e)
    ensures ParseCase(s, i) == Got(Case(word, branches), e)
  {
    hide Branches, ScanWord, HasAt, WfBranch, SkipWs, MatchKw, IsSpace, ShowWord, Quotable;
    ShowBack(ListWord, s, i + 1, word);
    SkipBlank(s, i);
  }

  lemma {:induction false} CaseBack(s: string, i: nat, word: string, branches: seq<Branch>)
    requires BlankAt(s, i) && Showable(word) && PrintableBranches(branches)
    requires var t := ShowWord(word) + (" in " + PrintBranches(branches)); HasAt(s, i + 1, t) && BlankAt(s, i + 1 + |t|)
    ensures ParseCase(s, i) == Got(Case(word, branches), i + 1 + |ShowWord(word) + (" in " + PrintBranches(branches))|)
    decreases branches, 4
  {
    hide ParseCase, Branches, SkipWs, MatchKw, HasAt, Showable, ShowWord, PrintableBranches, PrintBranches, BareWord;
    KeywordsBare();
    var w, a := ShowWord(word), PrintBranches(branches);
    HasSplit(s, i + 1, w, " in " + a);
    var n := i + 1 + |w|;
    HasSplit(s, n, " in ", a);
    Around(s, n, "in", " in ");
    KwAfterBlank(s, n, "in");
    BranchesBack(s, n + 3, branches);
    CaseStep(s, i, word, branches, n + 4 + |a|);
  }

  // ---- function definitions ----

  lemma {:induction false} NameEndAt(s: string, p: nat, e: nat)
    requires p <= e < |s| && s[e] == ' ' && forall k :: p <= k < e ==> IsNameChar(s[k])
    ensures NameEnd(s, p) == e
    decreases e - p
  {
    if p < e {
      NameEndAt(s, p + 1, e);
    }
  }

  lemma FnStep(s: string, i: nat, name: string, body: seq<Item>, f: nat)
    requires BlankAt(s, i) && IsFnName(name) && HasAt(s, i + 1, name)
    requires var e := i + 1 + |name|; HasAt(s, e, " { ") && ParseBody(s, e + 2, {KwRbrace}) == Got(body, f)
    requires MatchMark(s, f, "}") && SkipWs(s, f) == f
    ensures ParseFn(s, i, true) == Got(Fn(name, body), f + 1)
  {
    hide ParseBody, WfItems, HasAt, SkipWs, IsSpace;
    var e := i + 1 + |name|;
    NameAt(s, i + 1, name);
    LbraceAt(s, e);
    NameEndAt(s, i + 1, e);
    SkipBlank(s, i);
    SkipBlank(s, e);
  }

  lemma NameAt(s: string, p: nat, name: string)
    requires IsFnName(name) && HasAt(s, p, name)
    ensures p < |s| && !IsSpace(s[p]) && IsNameStart(s[p])
    ensures p + |name| <= |s| && s[p..p + |name|] == name && forall k :: p <= k < p + |name| ==> IsNameChar(s[k])
  {
    CharAt(s, p, name, 0);
    forall k | p <= k < p + |name|
      ensures IsNameChar(s[k])
    {
      CharAt(s, p, name, k - p);
    }
  }

  lemma LbraceAt(s: string, e: nat)
    requires HasAt(s, e, " { ")
    ensures BlankAt(s, e) && BlankAt(s, e + 2) && s[e + 1] == '{' && !IsSpace(s[e + 1]) && HasAt(s, e + 1, "{")
  {
    CharAt(s, e, " { ", 0);
    CharAt(s, e, " { ", 1);
    CharAt(s, e, " { ", 2);
    assert s[e + 1..e + 2] == "{";
  }

  lemma {:induction false} FnBack(s: string, i: nat, name: string, body: seq<Item>)
    requires BlankAt(s, i) && IsFnName(name) && PrintableFrom(body, Always)
    requires var t := name + (" { " + (PrintItems(body) + "}")); HasAt(s, i + 1, t) && BlankAt(s, i + 1 + |t|)
    ensures ParseFn(s, i, true) == Got(Fn(name, body), i + 1 + |name + (" { " + (PrintItems(body) + "}"))|)
    decreases body, 2
  {
    hide ParseFn, ParseBody, SkipWs, MatchMark, HasAt, IsFnName, PrintableFrom, PrintItems, WfItems, IsSpace;
    var b := PrintItems(body);
    HasSplit(s, i + 1, name, " { " + (b + "}"));
    var e := i + 1 + |name|;
    HasSplit(s, e, " { ", b + "}");
    CharAt(s, e, " { ", 2);
    HasSplit(s, e + 3, b, "}");
    var f := e + 3 + |b|;
    RbraceAt(s, f);
    BodyBack(s, e + 2, body, {KwRbrace}, KwRbrace);
    FnStep(s, i, name, body, f);
  }

  lemma RbraceAt(s: string, f: nat)
    requires HasAt(s, f, "}")
    ensures f < |s| && !IsSpace(s[f]) && SkipWs(s, f) == f && MatchMark(s, f, "}") && PeekOne(s, f, KwRbrace)
  {
    CharAt(s, f, "}", 0);
    SkipWsHere(s, f);
  }

  // ---- [[ ]] ----

  lemma TestTokenBack(s: string, p: nat, t: string, mark: int)
    requires TestToken(t, mark) && HasAt(s, p, WordText(t, mark)) && BlankAt(s, p + |WordText(t, mark)|)
    ensures t != [] && p < |s| && !IsSpace(s[p]) && DBracketToken(s, p) == Scan(t, mark, p + |WordText(t, mark)|)
    ensures SkipWs(s, p) == p && !MatchKw(s, p, "]]") && WordText(t, mark) != []
  {
    hide HasAt, ScanWord;
    if mark == 0 {
      PlainTestBack(s, p, t);
    } else {
      QuotedParts(s, p, t, mark);
      WordBack(ListWord, s, p, t, mark);
      QuoteNoKw(s, p, "]]");
    }
  }

  lemma PlainTestBack(s: string, p: nat, t: string)
    requires TestToken(t, 0) && HasAt(s, p, t) && BlankAt(s, p + |t|)
    ensures t != [] && p < |s| && !IsSpace(s[p]) && DBracketToken(s, p) == Scan(t, 0, p + |t|)
    ensures SkipWs(s, p) == p && !MatchKw(s, p, "]]")
  {
    hide ScanWord, HasAt, MatchKw, SkipWs;
    CharAt(s, p, t, 0);
    if t == "&&" || t == "||" {
      CharAt(s, p, t, 1);
      SkipWsHere(s, p);
      NoBrackets(s, p);
    } else {
      assert PlainChar(t[0]);
      if |t| > 1 { assert PlainChar(t[1]); CharAt(s, p, t, 1); }
      SkipWsHere(s, p);
      PlainIsBare(t);
      KeywordsBare();
      KwIsWord(s, p, p, t, "]]");
      PlainIsUnquoted(t);
      BareText(t);
      hide PlainWord, BareWord, PrintableWord;
      WordBack(ListWord, s, p, t, 0);
    }
  }

  lemma NoBrackets(s: string, p: nat)
    requires p < |s| && s[p] != ']' && SkipWs(s, p) == p
    ensures !MatchKw(s, p, "]]")
  {
    NotHas(s, p, "]]");
  }

  lemma {:induction false} TokensBack(s: string, i: nat, tokens: seq<string>, marks: seq<int>)
    requires BlankAt(s, i) && |marks| == |tokens|
    requires forall k :: 0 <= k < |tokens| ==> TestToken(tokens[k], marks[k])
    requires HasAt(s, i + 1, PrintMarked(tokens, marks) + "]]") && BlankAt(s, i + 3 + |PrintMarked(tokens, marks)|)
    ensures ParseDBracket(s, i) == Got((tokens, marks), i + 3 + |PrintMarked(tokens, marks)|)
    decreases |tokens|
  {
    hide HasAt, DBracketToken, TestToken, ParseDBracket, MatchKw, SkipWs, IsSpace, BareWord, PrintMarked, WordText;
    HasSplit(s, i + 1, PrintMarked(tokens, marks), "]]");
    if tokens == [] {
      NoWords();
      KeywordsBare();
      KwAfterBlank(s, i, "]]");
      KwLast(s, i + 1, "]]");
      TestEnd(s, i);
    } else {
      var t, rest := WordText(tokens[0], marks[0]), PrintMarked(tokens[1..], marks[1..]);
      var more := rest + "]]";
      MarkedText(tokens, marks, "]]");
      HasSplit(s, i + 1, t, " " + more);
      HasSplit(s, i + 1 + |t|, " ", more);
      CharAt(s, i + 1 + |t|, " ", 0);
      TokensBack(s, i + 1 + |t|, tokens[1..], marks[1..]);
      TestTokenBack(s, i + 1, tokens[0], marks[0]);
      TestStep(s, i, t, tokens[0], marks[0], tokens[1..], marks[1..], i + 4 + |t| + |rest|);
      assert tokens == [tokens[0]] + tokens[1..] && marks == [marks[0]] + marks[1..];
    }
  }

  lemma NoWords()
    ensures PrintMarked([], []) == ""
  {
  }

  lemma MarkedText(words: seq<string>, marks: seq<int>, end: string)
    requires words != [] && |marks| == |words|
    ensures PrintMarked(words, marks) + end ==
            WordText(words[0], marks[0]) + (" " + (PrintMarked(words[1..], marks[1..]) + end))
    ensures |PrintMarked(words, marks)| == |WordText(words[0], marks[0])| + 1 + |PrintMarked(words[1..], marks[1..])|
  {
    var rest := PrintMarked(words[1..], marks[1..]);
    Group(WordText(words[0], marks[0]), " ", rest, end);
  }

  lemma Group(a: string, b: string, c: string, d: string)
    ensures (a + (b + c)) + d == a + (b + (c + d)) && |a + (b + c)| == |a| + |b| + |c|
  {
  }

  lemma TestEnd(s: string, i: nat)
    requires BlankAt(s, i) && SkipWs(s, i) == i + 1 && i + 1 < |s| && SkipWs(s, i + 1) == i + 1
    requires MatchKw(s, i + 1, "]]")
    ensures ParseDBracket(s, i) == Got(([], []), i + 3)
  {
    hide MatchKw, SkipWs;
  }

  lemma TestStep(s: string, i: nat, text: string, t: string, mark: int, tokens: seq<string>, marks: seq<int>, e: nat)
    requires BlankAt(s, i) && i + 1 < |s| && !IsSpace(s[i + 1])
    requires t != [] && text != [] && i + 1 + |text| <= |s|
    requires DBracketToken(s, i + 1) == Scan(t, mark, i + 1 + |text|)
    requires SkipWs(s, i + 1) == i + 1 && !MatchKw(s, i + 1, "]]")
    requires ParseDBracket(s, i + 1 + |text|) == Got((tokens, marks), e)
    ensures ParseDBracket(s, i) == Got(([t] + tokens, [mark] + marks), e)
  {
    hide DBracketToken, HasAt;
    SkipBlank(s, i);
  }

  // ---- the theorem ----

  // Parsing undoes printing for every compound command.
  lemma {:induction false} KindBack(s: string, p: nat, kind: Kind)
    requires PrintableKind(kind) && !kind.Pipeline?
    requires HasAt(s, p, PrintKind(kind)) && BlankAt(s, p + |PrintKind(kind)|)
    ensures ParseCompound(s, p) == Some(Got(kind, p + |PrintKind(kind)|))
    decreases kind, 5
  {
    hide HasAt, MatchKw, SkipWs, PrintItems, PrintDo, PrintWords, PrintBranches, PrintArm, PrintArms, PrintableFrom;
    hide PrintableArms, PrintableBranches;
    hide ParseIf, ParseWhile, ParseFor, ParseCase, ParseFn, ParseDBracket, WfKind, BareWord, LooksLikeFnDef;
    hide ParseCompound, Showable, ShowWord, Showables, PrintMarked;
    hide IsSpace, IsFnName, TestToken;
    KeywordsBare();
    match kind
    case If(arms) =>
      KwBlank(s, p, "if", "if ", PrintArm(arms[0]) + PrintArms(arms[1..]));
      IfBack(s, p + 2, arms);
      CompoundStep(s, p, "if");
    case While(test, loop) =>
      KwBlank(s, p, "while", "while ", PrintItems(test) + PrintDo(loop));
      WhileBack(s, p + 5, test, loop);
      CompoundStep(s, p, "while");
    case DBracket(tokens, marks) =>
      KwBlank(s, p, "[[", "[[ ", PrintMarked(tokens, marks) + "]]");
      TokensBack(s, p + 2, tokens, marks);
      CompoundStep(s, p, "[[");
    case For(_, _, _) => NamedBack(s, p, kind);
    case Fn(_, _) => NamedBack(s, p, kind);
    case Case(_, _) => NamedBack(s, p, kind);
  }

  // Those that begin with a keyword and a word.
  lemma {:induction false} NamedBack(s: string, p: nat, kind: Kind)
    requires PrintableKind(kind) && (kind.For? || kind.Fn? || kind.Case?)
    requires HasAt(s, p, PrintKind(kind)) && BlankAt(s, p + |PrintKind(kind)|)
    ensures ParseCompound(s, p) == Some(Got(kind, p + |PrintKind(kind)|))
    decreases kind, 4
  {
    hide HasAt, MatchKw, SkipWs, PrintItems, PrintDo, PrintWords, PrintBranches, PrintArm, PrintArms, PrintableFrom;
    hide PrintableArms, PrintableBranches;
    hide ParseIf, ParseWhile, ParseFor, ParseCase, ParseFn, ParseDBracket, WfKind, BareWord, LooksLikeFnDef;
    hide ParseCompound, Showable, ShowWord, Showables, PrintMarked;
    hide IsSpace, IsFnName, TestToken;
    KeywordsBare();
    match kind
    case For(name, words, each) =>
      KwBlank(s, p, "for", "for ", ShowWord(name) + (" in " + (PrintWords(words) + ("; " + PrintDo(each)))));
      ForBack(s, p + 3, name, words, each);
      CompoundStep(s, p, "for");
    case Fn(name, body) =>
      KwBlank(s, p, "function", "function ", name + (" { " + (PrintItems(body) + "}")));
      FnBack(s, p + 8, name, body);
      CompoundStep(s, p, "function");
    case Case(word, branches) =>
      KwBlank(s, p, "case", "case ", ShowWord(word) + (" in " + PrintBranches(branches)));
      CaseBack(s, p + 4, word, branches);
      CompoundStep(s, p, "case");
  }

  // The keyword at p chooses the parser.
  lemma CompoundStep(s: string, p: nat, kw: string)
    requires kw in ["if", "while", "for", "case", "[[", "function"]
    requires HasAt(s, p, kw) && BlankAt(s, p + |kw|)
    ensures ParseCompound(s, p) == Some(
              if kw == "if" then ParseIf(s, p + 2)
              else if kw == "while" then ParseWhile(s, p + 5)
              else if kw == "for" then ParseFor(s, p + 3)
              else if kw == "case" then ParseCase(s, p + 4)
              else if kw == "[[" then ParseTest(s, p + 2)
              else ParseFn(s, p + 8, true))
  {
    hide ParseIf, ParseWhile, ParseFor, ParseCase, ParseTest, ParseFn, LooksLikeFnDef, WfKind;
    Dispatch(s, p, kw);
    hide MatchKw, SkipWs;
  }

  // Printing a list and parsing the text gives the list back.
  lemma PrintThenParse(items: seq<Item>)
    requires PrintableFrom(items, Always)
    ensures ParseList(PrintItems(items)) == Some(items)
  {
    var s := PrintItems(items);
    assert s[0..|s|] == s;
    assert Stop(s, |s|, {}, false);
    ItemsStart(s, 0, items, Always, {}, false);
    SkipWsHere(s, 0);
    ItemsBack(s, 0, 0, items, {}, false, Always);
  }
}
