// Printing pipelines, and the proof that parsing undoes it: words bare, with $(...) in them, or in
// single or double quotes, with redirections and here-documents.
module Printer {
  import opened CStrings
  import opened Ast
  import opened Lexer
  import opened Grammar

  // ---- words ----

  predicate PlainChar(c: char) {
    !IsSpace(c) && c != NUL && c !in "'\"|<>&;()"
  }

  predicate PlainWord(w: string) {
    w != [] && forall k :: 0 <= k < |w| ==> PlainChar(w[k])
  }

  // What may stand between $( and ): quotes and parentheses in pairs.
  datatype Group =
    | Chars(text: string)
    | Quoted(quote: char, text: string)
    | Parens(inside: Group)
    | Pair(left: Group, right: Group)

  predicate WfGroup(g: Group) {
    match g
    case Chars(text) => forall k :: 0 <= k < |text| ==> !IsQuote(text[k]) && text[k] != '(' && text[k] != ')'
    case Quoted(quote, text) => IsQuote(quote) && quote !in text
    case Parens(inside) => WfGroup(inside)
    case Pair(left, right) => WfGroup(left) && WfGroup(right)
  }

  function GroupText(g: Group): string {
    match g
    case Chars(text) => text
    case Quoted(quote, text) => [quote] + (text + [quote])
    case Parens(inside) => "(" + (GroupText(inside) + ")")
    case Pair(left, right) => GroupText(left) + GroupText(right)
  }

  // A bare word: plain characters and $(...) groups.
  datatype Piece = Plain(c: char) | Sub(group: Group)

  predicate WfPiece(p: Piece) {
    match p
    case Plain(c) => PlainChar(c)
    case Sub(g) => WfGroup(g)
  }

  function PieceText(p: Piece): string {
    match p
    case Plain(c) => [c]
    case Sub(g) => "$(" + (GroupText(g) + ")")
  }

  function PiecesText(ps: seq<Piece>): string {
    if ps == [] then "" else PieceText(ps[0]) + PiecesText(ps[1..])
  }

  predicate WfPieces(ps: seq<Piece>) {
    forall k :: 0 <= k < |ps| ==> WfPiece(ps[k])
  }

  ghost predicate UnquotedWord(w: string) {
    exists ps :: ps != [] && WfPieces(ps) && PiecesText(ps) == w
  }

  // A word with a quote mark can be printed: bare, between single quotes, or between double quotes.
  ghost predicate PrintableWord(w: string, mark: int) {
    || (mark == 0 && UnquotedWord(w))
    || (mark == 1 && '\'' !in w)
    || (mark == 2 && '"' !in w)
  }

  function WordText(w: string, mark: int): string {
    if mark == 1 then "'" + (w + "'") else if mark == 2 then "\"" + (w + "\"") else w
  }

  // ---- tokens ----

  ghost predicate PrintableToken(t: Token) {
    t.Word? ==> PrintableWord(t.text, t.mark)
  }

  function TokenText(t: Token): string {
    match t
    case Word(text, mark) => WordText(text, mark)
    case Pipe => "|"
    case Lt => "<"
    case Gt => ">"
    case GtGt => ">>"
    case ErrGt => "2>"
    case ErrGtGt => "2>>"
    case ErrToOut => "2>&1"
    case DLess => "<<"
    case DLessDash => "<<-"
    case AmpGt => "&>"
  }

  function PrintTokens(toks: seq<Token>): string {
    if toks == [] then ""
    else if |toks| == 1 then TokenText(toks[0]) else TokenText(toks[0]) + " " + PrintTokens(toks[1..])
  }

  lemma HasSplit(s: string, p: nat, a: string, b: string)
    requires HasAt(s, p, a + b)
    ensures HasAt(s, p, a) && HasAt(s, p + |a|, b)
  {
    assert s[p..p + |a|] == (a + b)[..|a|];
    assert s[p + |a|..p + |a| + |b|] == (a + b)[|a|..];
  }

  // s has a blank at e, or ends there.
  predicate BlankOrEnd(s: string, e: nat) {
    e == |s| || (e < |s| && s[e] == ' ')
  }

  lemma CharAt(s: string, p: nat, t: string, k: nat)
    requires HasAt(s, p, t) && k < |t|
    ensures p + k < |s| && s[p + k] == t[k]
  {
    assert s[p..p + |t|][k] == t[k];
  }

  // ---- groups ----

  // Inside parentheses a group is passed over, whatever its quotes hold.
  lemma {:induction false} CloseSkips(s: string, i: nat, depth: nat, g: Group)
    requires WfGroup(g) && HasAt(s, i, GroupText(g)) && depth > 0
    ensures Close(s, i, depth, NUL) == Close(s, i + |GroupText(g)|, depth, NUL)
    decreases g, 0
  {
    hide HasAt, Close;
    match g
    case Chars(text) => CharsSkip(s, i, depth, text);
    case Quoted(quote, text) =>
      HasSplit(s, i, [quote], text + [quote]);
      HasSplit(s, i + 1, text, [quote]);
      CharAt(s, i, [quote], 0);
      CharAt(s, i + 1 + |text|, [quote], 0);
      CloseStep(s, i, depth);
      QuotedSkip(s, i + 1, depth, quote, text);
    case Parens(inside) => ParensSkip(s, i, depth, inside);
    case Pair(left, right) =>
      HasSplit(s, i, GroupText(left), GroupText(right));
      CloseSkips(s, i, depth, left);
      CloseSkips(s, i + |GroupText(left)|, depth, right);
  }

  lemma {:induction false} ParensSkip(s: string, i: nat, depth: nat, g: Group)
    requires WfGroup(g) && HasAt(s, i, GroupText(Parens(g))) && depth > 0
    ensures Close(s, i, depth, NUL) == Close(s, i + |GroupText(Parens(g))|, depth, NUL)
    decreases g, 1
  {
    hide HasAt, Close, WfGroup;
    var t := GroupText(g);
    assert GroupText(Parens(g)) == "(" + (t + ")");
    hide GroupText;
    HasSplit(s, i, "(", t + ")");
    HasSplit(s, i + 1, t, ")");
    CharAt(s, i, "(", 0);
    CharAt(s, i + 1 + |t|, ")", 0);
    CloseStep(s, i, depth);
    CloseSkips(s, i + 1, depth + 1, g);
    CloseStep(s, i + 1 + |t|, depth + 1);
  }

  // One character outside quotes.
  lemma CloseStep(s: string, i: nat, depth: nat)
    requires i < |s| && depth > 0
    ensures IsQuote(s[i]) ==> Close(s, i, depth, NUL) == Close(s, i + 1, depth, s[i])
    ensures s[i] == '(' ==> Close(s, i, depth, NUL) == Close(s, i + 1, depth + 1, NUL)
    ensures s[i] == ')' ==> Close(s, i, depth, NUL) == Close(s, i + 1, depth - 1, NUL)
  {
  }

  lemma {:induction false} CharsSkip(s: string, i: nat, depth: nat, text: string)
    requires HasAt(s, i, text) && depth > 0
    requires forall k :: 0 <= k < |text| ==> !IsQuote(text[k]) && text[k] != '(' && text[k] != ')'
    ensures Close(s, i, depth, NUL) == Close(s, i + |text|, depth, NUL)
    decreases |text|
  {
    hide HasAt;
    if text != [] {
      assert text == [text[0]] + text[1..];
      HasSplit(s, i, [text[0]], text[1..]);
      CharAt(s, i, [text[0]], 0);
      CharsSkip(s, i + 1, depth, text[1..]);
    }
  }

  lemma {:induction false} QuotedSkip(s: string, i: nat, depth: nat, quote: char, text: string)
    requires IsQuote(quote) && quote !in text && HasAt(s, i, text) && depth > 0
    requires i + |text| < |s| && s[i + |text|] == quote
    ensures Close(s, i, depth, quote) == Close(s, i + |text| + 1, depth, NUL)
    decreases |text|
  {
    hide HasAt;
    if text != [] {
      assert text == [text[0]] + text[1..] && text[0] != quote;
      HasSplit(s, i, [text[0]], text[1..]);
      CharAt(s, i, [text[0]], 0);
      QuotedSkip(s, i + 1, depth, quote, text[1..]);
    }
  }

  // $(...) is recognised in its whole length.
  lemma SubSpan(s: string, i: nat, g: Group)
    requires WfGroup(g) && HasAt(s, i, PieceText(Sub(g)))
    ensures i < |s| && s[i] == '$' && DollarSpan(s, i) == |PieceText(Sub(g))|
  {
    hide HasAt, GroupText;
    var t := GroupText(g);
    HasSplit(s, i, "$(", t + ")");
    HasSplit(s, i + 2, t, ")");
    CharAt(s, i, "$(", 0);
    CharAt(s, i, "$(", 1);
    CharAt(s, i + 2 + |t|, ")", 0);
    CloseSkips(s, i + 2, 1, g);
    assert Close(s, i + 2, 1, NUL) == i + 3 + |t|;
    assert At(s, i + 2) == '(' ==> Close(s, i + 2, 1, NUL) == Close(s, i + 3, 2, NUL);
  }

  // ---- words back ----

  lemma FirstPiece(s: string, p: nat, ps: seq<Piece>)
    requires ps != [] && WfPieces(ps) && HasAt(s, p, PiecesText(ps))
    ensures HasAt(s, p, PieceText(ps[0])) && HasAt(s, p + |PieceText(ps[0])|, PiecesText(ps[1..])) && WfPieces(ps[1..])
    ensures |PiecesText(ps)| == |PieceText(ps[0])| + |PiecesText(ps[1..])|
    ensures p < |s| && PlainChar(s[p])
    ensures ps[0].Plain? ==> s[p] == ps[0].c && |PieceText(ps[0])| == 1
  {
    hide HasAt, PieceText, PiecesText, PlainChar, WfPieces;
    var a, b := PieceText(ps[0]), PiecesText(ps[1..]);
    FirstText(ps);
    HasSplit(s, p, a, b);
    CharAt(s, p, a, 0);
  }

  lemma FirstText(ps: seq<Piece>)
    requires ps != [] && WfPieces(ps)
    ensures PiecesText(ps) == PieceText(ps[0]) + PiecesText(ps[1..]) && WfPieces(ps[1..])
    ensures PieceText(ps[0]) != [] && PlainChar(PieceText(ps[0])[0])
    ensures ps[0].Plain? ==> PieceText(ps[0]) == [ps[0].c]
  {
    hide GroupText, IsSpace, WfGroup;
    FirstChar(ps[0]);
  }

  lemma FirstChar(piece: Piece)
    requires WfPiece(piece)
    ensures PieceText(piece) != [] && PlainChar(PieceText(piece)[0])
  {
    hide GroupText, WfGroup;
  }

  // After a plain character of a bare word no group opens.
  lemma NoGroupAfter(s: string, p: nat, ps: seq<Piece>)
    requires ps != [] && ps[0].Plain? && WfPieces(ps) && HasAt(s, p, PiecesText(ps))
    requires BlankOrEnd(s, p + |PiecesText(ps)|)
    ensures p < |s| && DollarSpan(s, p) == 0
  {
    hide HasAt;
    FirstPiece(s, p, ps);
    if ps[1..] != [] {
      FirstPiece(s, p + 1, ps[1..]);
    }
  }

  lemma {:induction false} PiecesEnd(kind: WordKind, s: string, p: nat, ps: seq<Piece>)
    requires WfPieces(ps) && HasAt(s, p, PiecesText(ps)) && p <= |s| && BlankOrEnd(s, p + |PiecesText(ps)|)
    ensures WordEnd(kind, s, p) == p + |PiecesText(ps)|
    decreases |ps|
  {
    hide HasAt, DollarSpan, WordEnd, WfPieces, PieceText;
    if ps == [] {
      WordEnds(kind, s, p);
    } else {
      FirstPiece(s, p, ps);
      if ps[0].Plain? {
        NoGroupAfter(s, p, ps);
      } else {
        SubSpan(s, p, ps[0].group) by { PieceIsWf(ps); }
      }
      WordGoesOn(kind, s, p);
      PiecesEnd(kind, s, p + |PieceText(ps[0])|, ps[1..]);
    }
  }

  lemma PieceIsWf(ps: seq<Piece>)
    requires ps != [] && WfPieces(ps)
    ensures WfPiece(ps[0])
  {
  }

  lemma WordEnds(kind: WordKind, s: string, p: nat)
    requires p <= |s| && BlankOrEnd(s, p)
    ensures WordEnd(kind, s, p) == p
  {
  }

  lemma WordGoesOn(kind: WordKind, s: string, p: nat)
    requires p < |s| && PlainChar(s[p])
    ensures WordEnd(kind, s, p) == WordEnd(kind, s, if DollarSpan(s, p) > 0 then p + DollarSpan(s, p) else p + 1)
  {
    hide DollarSpan;
    assert !Breaks(kind, s, p);
  }

  lemma {:induction false} QuoteEndAt(s: string, i: nat, quote: char, text: string)
    requires quote !in text && HasAt(s, i, text) && i + |text| < |s| && s[i + |text|] == quote
    ensures QuoteEnd(s, i, quote) == i + |text|
    decreases |text|
  {
    hide HasAt;
    if text != [] {
      assert text == [text[0]] + text[1..] && text[0] != quote;
      HasSplit(s, i, [text[0]], text[1..]);
      CharAt(s, i, [text[0]], 0);
      QuoteEndAt(s, i + 1, quote, text[1..]);
    }
  }

  function QuoteOf(mark: int): char {
    if mark == 1 then '\'' else '"'
  }

  // Where the parts of a quoted word stand.
  lemma QuotedParts(s: string, p: nat, w: string, mark: int)
    requires mark == 1 || mark == 2
    requires HasAt(s, p, WordText(w, mark))
    ensures HasAt(s, p + 1, w) && p + 1 + |w| < |s| && s[p] == s[p + 1 + |w|] == QuoteOf(mark)
    ensures |WordText(w, mark)| == |w| + 2
  {
    hide HasAt;
    var q := [QuoteOf(mark)];
    assert WordText(w, mark) == q + (w + q);
    HasSplit(s, p, q, w + q);
    HasSplit(s, p + 1, w, q);
    CharAt(s, p, q, 0);
    CharAt(s, p + 1 + |w|, q, 0);
  }

  // A printed word followed by a blank is scanned whole with its mark, by each of the three scanners.
  lemma WordBack(kind: WordKind, s: string, p: nat, w: string, mark: int)
    requires PrintableWord(w, mark) && HasAt(s, p, WordText(w, mark)) && BlankOrEnd(s, p + |WordText(w, mark)|)
    ensures p < |s| && ScanWord(kind, s, p) == Scan(w, mark, p + |WordText(w, mark)|)
  {
    hide HasAt, ScanWord, PiecesText, WfPieces;
    if mark == 0 {
      var ps: seq<Piece> :| ps != [] && WfPieces(ps) && PiecesText(ps) == w;
      BareBack(kind, s, p, w, ps);
    } else {
      QuotedBack(kind, s, p, w, mark);
    }
  }

  lemma BareBack(kind: WordKind, s: string, p: nat, w: string, ps: seq<Piece>)
    requires ps != [] && WfPieces(ps) && PiecesText(ps) == w && HasAt(s, p, w) && BlankOrEnd(s, p + |w|)
    ensures p < |s| && ScanWord(kind, s, p) == Scan(w, 0, p + |w|)
  {
    hide HasAt, WordEnd, QuoteEnd, PiecesText, WfPieces;
    FirstPiece(s, p, ps);
    PiecesEnd(kind, s, p, ps);
    TextAt(s, p, w);
  }

  lemma QuotedBack(kind: WordKind, s: string, p: nat, w: string, mark: int)
    requires mark == 1 || mark == 2
    requires QuoteOf(mark) !in w && HasAt(s, p, WordText(w, mark)) && BlankOrEnd(s, p + |WordText(w, mark)|)
    ensures p < |s| && ScanWord(kind, s, p) == Scan(w, mark, p + |WordText(w, mark)|)
  {
    hide HasAt, WordEnd, QuoteEnd;
    QuotedParts(s, p, w, mark);
    QuoteEndAt(s, p + 1, QuoteOf(mark), w);
    TextAt(s, p + 1, w);
  }

  lemma TextAt(s: string, p: nat, t: string)
    requires HasAt(s, p, t)
    ensures p + |t| <= |s| && s[p..p + |t|] == t
  {
  }

  // What a printed word begins with.
  lemma WordStart(s: string, p: nat, w: string, mark: int)
    requires PrintableWord(w, mark) && HasAt(s, p, WordText(w, mark))
    ensures p < |s| && (if mark == 0 then PlainChar(s[p]) else IsQuote(s[p])) && WordText(w, mark) != []
  {
    hide HasAt;
    if mark == 0 {
      var ps: seq<Piece> :| ps != [] && WfPieces(ps) && PiecesText(ps) == w;
      FirstPiece(s, p, ps);
    } else {
      QuotedParts(s, p, w, mark);
    }
  }

  // A plain word is a bare one.
  lemma {:induction false} PlainIsUnquoted(w: string)
    requires PlainWord(w)
    ensures UnquotedWord(w) && PrintableWord(w, 0)
    decreases |w|
  {
    if |w| == 1 {
      var ps := [Plain(w[0])];
      assert ps[1..] == [] && PiecesText(ps) == [w[0]] + "" == w && WfPieces(ps);
    } else {
      PlainIsUnquoted(w[1..]);
      var more :| more != [] && WfPieces(more) && PiecesText(more) == w[1..];
      var ps := [Plain(w[0])] + more;
      assert ps[1..] == more && PiecesText(ps) == [w[0]] + w[1..] == w;
      assert WfPieces(ps);
    }
  }

  // Characters of a plain word standing at p are plain.
  lemma PlainAt(s: string, p: nat, w: string)
    requires PlainWord(w) && HasAt(s, p, w)
    ensures p + |w| <= |s| && forall k :: p <= k < p + |w| ==> PlainChar(s[k])
  {
    forall k | p <= k < p + |w|
      ensures PlainChar(s[k])
    {
      CharAt(s, p, w, k - p);
      assert PlainChar(w[k - p]);
    }
  }

  lemma TokenBack(s: string, p: nat, t: Token)
    requires PrintableToken(t) && HasAt(s, p, TokenText(t)) && BlankOrEnd(s, p + |TokenText(t)|)
    ensures p < |s| && !IsSpace(s[p]) && TokenAt(s, p) == Op(t, |TokenText(t)|)
  {
    hide HasAt;
    if t.Word? {
      WordTokenBack(s, p, t.text, t.mark);
    } else {
      OperatorBack(s, p, t);
    }
  }

  lemma OperatorBack(s: string, p: nat, t: Token)
    requires !t.Word? && HasAt(s, p, TokenText(t)) && BlankOrEnd(s, p + |TokenText(t)|)
    ensures p < |s| && !IsSpace(s[p]) && TokenAt(s, p) == Op(t, |TokenText(t)|)
  {
    hide HasAt, ScanWord;
    var x := TokenText(t);
    CharAt(s, p, x, 0);
    if |x| > 1 { CharAt(s, p, x, 1); }
    if |x| > 2 { CharAt(s, p, x, 2); }
    if |x| > 3 { CharAt(s, p, x, 3); }
  }

  lemma WordTokenBack(s: string, p: nat, w: string, mark: int)
    requires PrintableWord(w, mark) && HasAt(s, p, WordText(w, mark)) && BlankOrEnd(s, p + |WordText(w, mark)|)
    ensures p < |s| && !IsSpace(s[p]) && TokenAt(s, p) == Op(Word(w, mark), |WordText(w, mark)|)
  {
    hide HasAt, ScanWord, PrintableWord, WordText;
    WordStart(s, p, w, mark);
    WordBack(Argument, s, p, w, mark);
    SecondChar(s, p, w, mark);
  }

  // A bare word is no error redirection.
  lemma SecondChar(s: string, p: nat, w: string, mark: int)
    requires PrintableWord(w, mark) && HasAt(s, p, WordText(w, mark)) && BlankOrEnd(s, p + |WordText(w, mark)|)
    ensures mark == 0 ==> At(s, p + 1) != '>'
  {
    hide HasAt;
    if mark == 0 {
      var ps: seq<Piece> :| ps != [] && WfPieces(ps) && PiecesText(ps) == w;
      FirstPiece(s, p, ps);
      if ps[0].Plain? {
        if ps[1..] != [] {
          FirstPiece(s, p + 1, ps[1..]);
        }
      } else {
        CharAt(s, p, PieceText(ps[0]), 1);
      }
    }
  }

  lemma TokenizeSpace(s: string, p: nat)
    requires p < |s| && s[p] == ' '
    ensures Tokenize(s, p) == Tokenize(s, p + 1)
  {
    hide TokenAt;
    assert SkipWs(s, p) == SkipWs(s, p + 1);
  }

  lemma TokenizeStep(s: string, p: nat, t: Token, len: nat)
    requires p < |s| && !IsSpace(s[p]) && TokenAt(s, p) == Op(t, len)
    requires Tokenize(s, p + len).Some?
    ensures Tokenize(s, p) == Some([t] + Tokenize(s, p + len).value)
  {
    hide TokenAt;
    assert SkipWs(s, p) == p;
  }

  // Tokenizing undoes printing tokens.
  lemma {:induction false} TokenizeBack(s: string, p: nat, toks: seq<Token>)
    requires toks != [] && (forall k :: 0 <= k < |toks| ==> PrintableToken(toks[k]))
    requires HasAt(s, p, PrintTokens(toks)) && p + |PrintTokens(toks)| == |s|
    ensures Tokenize(s, p) == Some(toks)
    decreases |toks|
  {
    hide Tokenize, PrintableToken, TokenAt, HasAt;
    var t := TokenText(toks[0]);
    if |toks| == 1 {
      TokenizeEnd(s);
      TokenBack(s, p, toks[0]);
      TokenizeStep(s, p, toks[0], |t|);
      assert toks == [toks[0]] + [];
    } else {
      var rest := PrintTokens(toks[1..]);
      HasSplit(s, p, t + " ", rest);
      HasSplit(s, p, t, " ");
      CharAt(s, p + |t|, " ", 0);
      TokenizeBack(s, p + |t| + 1, toks[1..]);
      TokenizeSpace(s, p + |t|);
      TokenBack(s, p, toks[0]);
      TokenizeStep(s, p, toks[0], |t|);
      assert toks == [toks[0]] + toks[1..];
    }
  }

  lemma TokenizeEnd(s: string)
    ensures Tokenize(s, |s|) == Some([])
  {
  }

  // ---- stages ----

  // Any word but one that holds both kinds of quotes can be printed.
  predicate Quotable(w: string) {
    PlainWord(w) || '\'' !in w || '"' !in w
  }

  // The quotes it is printed with: none if it is plain and not the keyword do.
  function Mark(w: string): int {
    if PlainWord(w) && w != "do" then 0 else if '\'' !in w then 1 else 2
  }

  lemma MarkPrints(w: string)
    requires Quotable(w)
    ensures PrintableWord(w, Mark(w))
  {
    hide UnquotedWord;
    if PlainWord(w) && w != "do" {
      PlainIsUnquoted(w);
    } else if w == "do" {
      assert w[0] == 'd' && w[1] == 'o';
    } else if '\'' in w && '"' in w {
      Unquotable(w);
    }
  }

  // A plain word holds no quotes.
  lemma Unquotable(w: string)
    requires PlainWord(w)
    ensures '\'' !in w && '"' !in w
  {
    forall k | 0 <= k < |w|
      ensures w[k] != '\'' && w[k] != '"'
    {
      assert PlainChar(w[k]);
    }
  }

  predicate PathOk(path: Option<string>) {
    path.Some? ==> Quotable(path.value)
  }

  function PathToken(path: string): Token {
    Word(path, Mark(path))
  }

  // A quoted delimiter is printed in quotes, any other bare.
  function DelimMark(c: Cmd): int {
    if !c.hereQuoted || c.hereDelim.None? then 0 else if '\'' !in c.hereDelim.value then 1 else 2
  }

  // A stage that printing can show: printable words, flags only with their paths, and at most one of an
  // input file and here-documents, which no line has been read for.
  ghost predicate PrintableCmd(c: Cmd) {
    && c.argv != [] && |c.quoted| == |c.argv|
    && (forall k :: 0 <= k < |c.argv| ==> PrintableWord(c.argv[k], c.quoted[k]))
    && PathOk(c.redirIn) && PathOk(c.redirOut) && PathOk(c.redirErr)
    && (c.redirAppend ==> c.redirOut.Some?) && (c.redirErrAppend ==> c.redirErr.Some?)
    && (c.redirErrToOut ==> c.redirErr.None?)
    && PrintableDocs(c)
  }

  ghost predicate PrintableDocs(c: Cmd) {
    if c.hereDelim.None? then HereClear(c) == c
    else
      && c.redirIn.None? && c.hereBody.None? && c.hereFeed == 0
      && (forall k :: 0 <= k < |c.hereSkips| ==> Quotable(c.hereSkips[k]))
      && PrintableWord(c.hereDelim.value, DelimMark(c))
  }

  function WordTokens(words: seq<string>, marks: seq<int>): (r: seq<Token>)
    requires |marks| == |words|
    ensures |r| == |words| && forall k :: 0 <= k < |r| ==> r[k] == Word(words[k], marks[k])
  {
    seq(|words|, i requires 0 <= i < |words| => Word(words[i], marks[i]))
  }

  // The here-documents that a later one replaces.
  function SkipTokens(skips: seq<string>): seq<Token> {
    if skips == [] then [] else SkipTokens(skips[..|skips| - 1]) + [DLess, PathToken(skips[|skips| - 1])]
  }

  function InTokens(c: Cmd): seq<Token> {
    if c.redirIn.Some? then [Lt, PathToken(c.redirIn.value)]
    else if c.hereDelim.Some? then
      SkipTokens(c.hereSkips) + [if c.hereStrip then DLessDash else DLess, Word(c.hereDelim.value, DelimMark(c))]
    else []
  }

  function OutTokens(c: Cmd): seq<Token> {
    if c.redirOut.Some? then [if c.redirAppend then GtGt else Gt, PathToken(c.redirOut.value)] else []
  }

  function ErrTokens(c: Cmd): seq<Token> {
    if c.redirErr.Some? then [if c.redirErrAppend then ErrGtGt else ErrGt, PathToken(c.redirErr.value)]
    else if c.redirErrToOut then [ErrToOut] else []
  }

  function RedirTokens(c: Cmd): seq<Token> {
    InTokens(c) + (OutTokens(c) + ErrTokens(c))
  }

  function CmdTokens(c: Cmd): seq<Token>
    requires |c.quoted| == |c.argv|
  {
    WordTokens(c.argv, c.quoted) + RedirTokens(c)
  }

  function StageTokens(c: Cmd): seq<Token> {
    if |c.quoted| == |c.argv| then CmdTokens(c) else []
  }

  function PipelineTokens(cmds: seq<Cmd>): seq<Token> {
    if cmds == [] then []
    else if |cmds| == 1 then StageTokens(cmds[0]) else StageTokens(cmds[0]) + [Pipe] + PipelineTokens(cmds[1..])
  }

  function Bare(c: Cmd): Cmd {
    EMPTY_CMD.(argv := c.argv, quoted := c.quoted)
  }

  lemma {:induction false} StageWords(c: Cmd, i: nat, d: Cmd)
    requires |c.quoted| == |c.argv| && i <= |c.argv|
    requires d == EMPTY_CMD.(argv := c.argv[..i], quoted := c.quoted[..i])
    ensures Stage(CmdTokens(c), i, d) == Stage(CmdTokens(c), |c.argv|, Bare(c))
    decreases |c.argv| - i
  {
    hide Stage, CmdTokens;
    CmdTokensStart(c);
    if i == |c.argv| {
      assert c.argv[..i] == c.argv && c.quoted[..i] == c.quoted;
    } else {
      var next := EMPTY_CMD.(argv := c.argv[..i + 1], quoted := c.quoted[..i + 1]);
      assert c.argv[..i + 1] == c.argv[..i] + [c.argv[i]] && c.quoted[..i + 1] == c.quoted[..i] + [c.quoted[i]];
      StageWord(CmdTokens(c), i, d);
      StageWords(c, i + 1, next);
    }
  }

  lemma CmdTokensStart(c: Cmd)
    requires |c.quoted| == |c.argv|
    ensures |CmdTokens(c)| >= |c.argv|
    ensures forall k :: 0 <= k < |c.argv| ==> CmdTokens(c)[k] == Word(c.argv[k], c.quoted[k])
  {
    hide RedirTokens;
  }

  lemma StageWord(toks: seq<Token>, i: nat, d: Cmd)
    requires i < |toks| && toks[i].Word?
    ensures Stage(toks, i, d) ==
            Stage(toks, i + 1, d.(argv := d.argv + [toks[i].text], quoted := d.quoted + [toks[i].mark]))
  {
  }

  // Reading the tail of a token list only needs the tail.
  lemma {:induction false} StageShift(a: seq<Token>, b: seq<Token>, i: nat, d: Cmd)
    requires i <= |b|
    ensures Stage(a + b, |a| + i, d) == Stage(b, i, d)
    decreases |b| - i
  {
    hide Redirect;
    if i < |b| {
      assert (a + b)[|a| + i] == b[i];
      match b[i]
      case Word(text, mark) => StageShift(a, b, i + 1, d.(argv := d.argv + [text], quoted := d.quoted + [mark]));
      case Pipe =>
      case ErrToOut => StageShift(a, b, i + 1, d.(redirErr := None, redirErrAppend := false, redirErrToOut := true));
      case op =>
        if i + 1 < |b| && b[i + 1].Word? {
          assert (a + b)[|a| + i + 1] == b[i + 1];
          var r := Redirect(d, op, b[i + 1].text, b[i + 1].mark);
          if r.Some? {
            StageShift(a, b, i + 2, r.value);
          }
        }
    }
  }

  lemma StageErr(c: Cmd, d: Cmd)
    requires PrintableCmd(c)
    requires d == c.(redirErr := None, redirErrAppend := false, redirErrToOut := false)
    ensures Stage(ErrTokens(c), 0, d) == Some(c)
  {
  }

  lemma StageStep(op: Token, path: string, mark: int, rest: seq<Token>, d: Cmd)
    requires !op.Word? && !op.Pipe? && !op.ErrToOut?
    ensures var r := Redirect(d, op, path, mark);
            Stage([op, Word(path, mark)] + rest, 0, d) == if r.None? then None else Stage(rest, 0, r.value)
  {
    var pair := [op, Word(path, mark)];
    var r := Redirect(d, op, path, mark);
    StageShift(pair, rest, 0, if r.Some? then r.value else d);
  }

  // The stage after the replaced here-documents.
  function AfterSkips(d: Cmd, skips: seq<string>): Cmd {
    if skips == [] then d
    else
      var last := skips[|skips| - 1];
      HereDoc(AfterSkips(d, skips[..|skips| - 1]), last, Mark(last), false)
  }

  lemma {:induction false} SkipsBack(skips: seq<string>, rest: seq<Token>, d: Cmd)
    ensures Stage(SkipTokens(skips) + rest, 0, d) == Stage(rest, 0, AfterSkips(d, skips))
    decreases |skips|
  {
    hide Stage, HereDoc;
    if skips == [] {
      assert SkipTokens(skips) + rest == rest;
    } else {
      var n := |skips| - 1;
      var pair := [DLess, PathToken(skips[n])];
      assert SkipTokens(skips) + rest == SkipTokens(skips[..n]) + (pair + rest);
      SkipsBack(skips[..n], pair + rest, d);
      StageStep(DLess, skips[n], Mark(skips[n]), rest, AfterSkips(d, skips[..n]));
    }
  }

  lemma {:induction false} AfterSkipsIs(d: Cmd, skips: seq<string>)
    requires d.redirIn.None? && HereClear(d) == d && skips != []
    ensures var r := AfterSkips(d, skips);
            && r.hereSkips == skips[..|skips| - 1] && r.hereDelim == Some(skips[|skips| - 1])
            && HereClear(r) == d
    decreases |skips|
  {
    var n := |skips| - 1;
    if n > 0 {
      AfterSkipsIs(d, skips[..n]);
      assert skips[..n] == skips[..n][..n - 1] + [skips[n - 1]];
    }
  }

  // All its here-documents, the last one with its delimiter, make the stage.
  lemma DocsBack(c: Cmd, rest: seq<Token>, d: Cmd)
    requires PrintableDocs(c) && c.redirIn.None? && c.hereDelim.Some?
    requires d.redirIn.None? && HereClear(d) == d
    ensures Stage(InTokens(c) + rest, 0, d) ==
            Stage(rest, 0, d.(hereDelim := c.hereDelim, hereQuoted := c.hereQuoted, hereStrip := c.hereStrip,
                              hereSkips := c.hereSkips))
  {
    hide Stage, PrintableWord, Quotable;
    var op := if c.hereStrip then DLessDash else DLess;
    var pair := [op, Word(c.hereDelim.value, DelimMark(c))];
    var e := AfterSkips(d, c.hereSkips);
    assert InTokens(c) + rest == SkipTokens(c.hereSkips) + (pair + rest);
    SkipsBack(c.hereSkips, pair + rest, d);
    StageStep(op, c.hereDelim.value, DelimMark(c), rest, e);
    if c.hereSkips != [] {
      AfterSkipsIs(d, c.hereSkips);
      assert c.hereSkips == c.hereSkips[..|c.hereSkips| - 1] + [c.hereSkips[|c.hereSkips| - 1]];
    }
    hide AfterSkips;
    var done := HereDoc(e, c.hereDelim.value, DelimMark(c), c.hereStrip);
    assert Redirect(e, op, c.hereDelim.value, DelimMark(c)) == Some(done);
    assert done ==
      d.(hereDelim := c.hereDelim, hereQuoted := c.hereQuoted, hereStrip := c.hereStrip, hereSkips := c.hereSkips);
  }

  // The part of a stage that its input makes.
  function WithInput(c: Cmd): Cmd {
    Bare(c).(redirIn := c.redirIn, hereDelim := c.hereDelim, hereQuoted := c.hereQuoted,
             hereStrip := c.hereStrip, hereSkips := c.hereSkips)
  }

  lemma StageIn(c: Cmd, rest: seq<Token>)
    requires PrintableCmd(c)
    ensures Stage(InTokens(c) + rest, 0, Bare(c)) == Stage(rest, 0, WithInput(c))
  {
    hide Stage, PrintableWord, Quotable, SkipTokens;
    if c.redirIn.Some? {
      StageStep(Lt, c.redirIn.value, Mark(c.redirIn.value), rest, Bare(c));
    } else if c.hereDelim.Some? {
      DocsBack(c, rest, Bare(c));
    } else {
      assert InTokens(c) + rest == rest;
    }
  }

  lemma StageOut(c: Cmd, rest: seq<Token>, d: Cmd)
    requires c.redirAppend ==> c.redirOut.Some?
    requires d.redirOut.None? && !d.redirAppend
    ensures Stage(OutTokens(c) + rest, 0, d) == Stage(rest, 0, d.(redirOut := c.redirOut, redirAppend := c.redirAppend))
  {
    hide Stage;
    if c.redirOut.Some? {
      StageStep(if c.redirAppend then GtGt else Gt, c.redirOut.value, Mark(c.redirOut.value), rest, d);
    } else {
      assert OutTokens(c) + rest == rest;
    }
  }

  lemma StageRedirs(c: Cmd)
    requires PrintableCmd(c)
    ensures Stage(RedirTokens(c), 0, Bare(c)) == Some(c)
  {
    hide Stage, InTokens, OutTokens, ErrTokens, PrintableWord, Quotable;
    var d := WithInput(c).(redirOut := c.redirOut, redirAppend := c.redirAppend);
    StageIn(c, OutTokens(c) + ErrTokens(c));
    StageOut(c, ErrTokens(c), WithInput(c));
    StageErr(c, d);
  }

  // Building a stage undoes listing its tokens.
  lemma StageBack(c: Cmd)
    requires PrintableCmd(c)
    ensures Stage(CmdTokens(c), 0, EMPTY_CMD) == Some(c)
  {
    StageWords(c, 0, EMPTY_CMD);
    StageShift(WordTokens(c.argv, c.quoted), RedirTokens(c), 0, Bare(c));
    StageRedirs(c);
  }

  lemma {:induction false} NoPipeInSkips(skips: seq<string>)
    ensures forall k :: 0 <= k < |SkipTokens(skips)| ==> !SkipTokens(skips)[k].Pipe?
    decreases |skips|
  {
    if skips != [] {
      NoPipeInSkips(skips[..|skips| - 1]);
    }
  }

  lemma NoPipes(c: Cmd)
    requires PrintableCmd(c)
    ensures forall k :: 0 <= k < |CmdTokens(c)| ==> !CmdTokens(c)[k].Pipe?
    ensures CmdTokens(c) != []
  {
    hide PrintableWord, Quotable, Mark, SkipTokens;
    NoPipeInSkips(c.hereSkips);
    var i := InTokens(c);
    assert forall k :: 0 <= k < |i| ==> !i[k].Pipe?;
  }

  lemma {:induction false} NextPipeAt(toks: seq<Token>, i: nat, e: nat)
    requires i <= e <= |toks| && (forall k :: i <= k < e ==> !toks[k].Pipe?) && (e < |toks| ==> toks[e].Pipe?)
    ensures NextPipe(toks, i) == e
    decreases e - i
  {
    if i < e {
      NextPipeAt(toks, i + 1, e);
    }
  }

  lemma Cut(toks: seq<Token>, begin: nat, c: seq<Token>, more: seq<Token>)
    requires begin <= |toks| && toks[begin..] == c + more
    ensures begin + |c| <= |toks| && toks[begin..begin + |c|] == c && toks[begin + |c|..] == more
    ensures forall k :: begin <= k < begin + |c| ==> toks[k] == c[k - begin]
  {
    assert |toks[begin..]| == |c| + |more|;
    assert toks[begin..begin + |c|] == toks[begin..][..|c|];
    assert toks[begin + |c|..] == toks[begin..][|c|..];
    assert forall k :: begin <= k < begin + |c| ==> toks[k] == toks[begin..][k - begin];
  }

  lemma StagesUnfold(toks: seq<Token>, begin: nat, e: nat, c: Cmd)
    requires begin < |toks| && begin <= e <= |toks| && NextPipe(toks, begin) == e
    requires Stage(toks[begin..e], 0, EMPTY_CMD) == Some(c)
    ensures e == |toks| ==> Stages(toks, begin) == Some([c])
    ensures e + 1 < |toks| && Stages(toks, e + 1).Some? ==>
              Stages(toks, begin) == Some([c] + Stages(toks, e + 1).value)
  {
    hide Stage, NextPipe;
  }

  // Cutting at the pipes undoes joining the stages.
  // The first stage of a printed pipeline, and where the others stand.
  lemma FirstStage(toks: seq<Token>, begin: nat, cmds: seq<Cmd>)
    requires cmds != [] && PrintableCmd(cmds[0]) && begin < |toks| && toks[begin..] == PipelineTokens(cmds)
    ensures |cmds| == 1 ==> Stages(toks, begin) == Some([cmds[0]])
    ensures |cmds| > 1 ==>
              var e := begin + |StageTokens(cmds[0])|;
              && e < |toks| && toks[e + 1..] == PipelineTokens(cmds[1..])
              && (e + 1 < |toks| && Stages(toks, e + 1).Some? ==>
                    Stages(toks, begin) == Some([cmds[0]] + Stages(toks, e + 1).value))
  {
    hide CmdTokens, StageTokens, Stage, PrintableCmd, Stages, NextPipe, PipelineTokens;
    var c := StageTokens(cmds[0]);
    var e := begin + |c|;
    var more := if |cmds| == 1 then [] else [Pipe] + PipelineTokens(cmds[1..]);
    StageTokensAre(cmds[0]);
    NoPipes(cmds[0]);
    StageBack(cmds[0]);
    JoinText(cmds);
    Cut(toks, begin, c, more);
    NextPipeAt(toks, begin, e) by { if |cmds| > 1 { assert toks[e..][0] == Pipe; } }
    StagesUnfold(toks, begin, e, cmds[0]);
    if |cmds| > 1 {
      assert toks[e + 1..] == toks[e..][1..] == PipelineTokens(cmds[1..]);
    }
  }

  lemma {:induction false} StagesBack(toks: seq<Token>, begin: nat, cmds: seq<Cmd>)
    requires cmds != [] && (forall k :: 0 <= k < |cmds| ==> PrintableCmd(cmds[k]))
    requires begin < |toks| && toks[begin..] == PipelineTokens(cmds)
    ensures Stages(toks, begin) == Some(cmds)
    decreases |cmds|
  {
    hide StageTokens, PrintableCmd, Stages, PipelineTokens;
    assert PrintableCmd(cmds[0]);
    FirstStage(toks, begin, cmds);
    if |cmds| == 1 {
      assert cmds == [cmds[0]];
    } else {
      assert PrintableCmd(cmds[1]);
      PipelineNonEmpty(cmds[1..]);
      StagesBack(toks, begin + |StageTokens(cmds[0])| + 1, cmds[1..]);
      assert cmds == [cmds[0]] + cmds[1..];
    }
  }

  lemma StageTokensAre(c: Cmd)
    requires PrintableCmd(c)
    ensures |c.quoted| == |c.argv| && StageTokens(c) == CmdTokens(c)
  {
  }

  lemma JoinText(cmds: seq<Cmd>)
    requires cmds != []
    ensures PipelineTokens(cmds) ==
            StageTokens(cmds[0]) + (if |cmds| == 1 then [] else [Pipe] + PipelineTokens(cmds[1..]))
  {
  }

  lemma PipelineNonEmpty(cmds: seq<Cmd>)
    requires cmds != [] && PrintableCmd(cmds[0])
    ensures PipelineTokens(cmds) != [] && PipelineTokens(cmds)[0] == Word(cmds[0].argv[0], cmds[0].quoted[0])
  {
  }

  lemma {:induction false} PipelinePrintable(cmds: seq<Cmd>)
    requires cmds != [] && (forall k :: 0 <= k < |cmds| ==> PrintableCmd(cmds[k]))
    ensures forall k :: 0 <= k < |PipelineTokens(cmds)| ==> PrintableToken(PipelineTokens(cmds)[k])
    decreases |cmds|
  {
    CmdPrintable(cmds[0]);
    if |cmds| > 1 {
      PipelinePrintable(cmds[1..]);
    }
  }

  lemma {:induction false} SkipsPrintable(skips: seq<string>)
    requires forall k :: 0 <= k < |skips| ==> Quotable(skips[k])
    ensures forall k :: 0 <= k < |SkipTokens(skips)| ==> PrintableToken(SkipTokens(skips)[k])
    decreases |skips|
  {
    hide PrintableWord, Quotable, Mark;
    if skips != [] {
      SkipsPrintable(skips[..|skips| - 1]);
      MarkPrints(skips[|skips| - 1]);
    }
  }

  lemma CmdPrintable(c: Cmd)
    requires PrintableCmd(c)
    ensures forall k :: 0 <= k < |CmdTokens(c)| ==> PrintableToken(CmdTokens(c)[k])
  {
    hide PrintableWord, Quotable, Mark, SkipTokens;
    if c.hereDelim.Some? { SkipsPrintable(c.hereSkips); }
    if c.redirIn.Some? { MarkPrints(c.redirIn.value); }
    if c.redirOut.Some? { MarkPrints(c.redirOut.value); }
    if c.redirErr.Some? { MarkPrints(c.redirErr.value); }
    var i, o, e := InTokens(c), OutTokens(c), ErrTokens(c);
    assert forall k :: 0 <= k < |i| ==> PrintableToken(i[k]);
    assert forall k :: 0 <= k < |o| ==> PrintableToken(o[k]);
    assert forall k :: 0 <= k < |e| ==> PrintableToken(e[k]);
    hide InTokens, OutTokens, ErrTokens;
    var r := RedirTokens(c);
    assert forall k :: 0 <= k < |r| ==> PrintableToken(r[k]);
  }

  function PrintPipeline(cmds: seq<Cmd>): string {
    PrintTokens(PipelineTokens(cmds))
  }

  // Parsing the text of a pipeline gives the pipeline back.
  lemma PipelineBack(cmds: seq<Cmd>)
    requires cmds != [] && (forall k :: 0 <= k < |cmds| ==> PrintableCmd(cmds[k]))
    ensures ParsePipeline(PrintPipeline(cmds)) == Some(cmds)
  {
    var toks := PipelineTokens(cmds);
    var s := PrintPipeline(cmds);
    PipelineNonEmpty(cmds);
    PipelinePrintable(cmds);
    assert s[0..|s|] == s;
    TokenizeBack(s, 0, toks);
    assert toks[0..] == toks;
    StagesBack(toks, 0, cmds);
  }
}
