// Words, operators and stages of a pipeline: what the scanners of src/mid/parser.c compute.
module Lexer {
  import opened CStrings
  import opened Ast

  // The first position from i on that is not white space.
  function SkipWs(s: string, i: nat): (r: nat)
    requires i <= |s|
    ensures i <= r <= |s|
    ensures forall k :: i <= k < r ==> IsSpace(s[k])
    ensures r < |s| ==> !IsSpace(s[r])
    decreases |s| - i
  {
    if i < |s| && IsSpace(s[i]) then SkipWs(s, i + 1) else i
  }

  // Just after the parenthesis that brings the depth to 0, quotes protecting; 0 when there is none.
  function Close(s: string, i: nat, depth: nat, quote: char): (r: nat)
    requires i <= |s|
    ensures r == 0 || i <= r <= |s|
    ensures r != 0 && depth > 0 ==> i < r
    decreases |s| - i
  {
    if depth == 0 then i
    else if i == |s| then 0
    else if quote != NUL then Close(s, i + 1, depth, if s[i] == quote then NUL else quote)
    else if IsQuote(s[i]) then Close(s, i + 1, depth, s[i])
    else if s[i] == '(' then Close(s, i + 1, depth + 1, quote)
    else if s[i] == ')' then Close(s, i + 1, depth - 1, quote)
    else Close(s, i + 1, depth, quote)
  }

  // The length of $(...) or $((...)) at i; 0 when there is none or it is not closed.
  function DollarSpan(s: string, i: nat): (r: nat)
    requires i <= |s|
    ensures r == 0 || (3 <= r && i + r <= |s|)
  {
    if At(s, i) == '$' && At(s, i + 1) == '(' then
      var e := if At(s, i + 2) == '(' then Close(s, i + 3, 2, NUL) else Close(s, i + 2, 1, NUL);
      if e == 0 then 0 else e - i
    else 0
  }

  // The three word scanners differ in the characters that end a bare word.
  datatype WordKind = Argument | ListWord | Pattern

  predicate Breaks(kind: WordKind, s: string, i: nat)
    requires i < |s|
  {
    IsSpace(s[i]) ||
    match kind
    case Argument => s[i] == '|' || s[i] == '<' || s[i] == '>' || (s[i] == '&' && At(s, i + 1) == '>')
    case ListWord => s[i] == ';' || s[i] == '|' || s[i] == '&' || s[i] == '<' || s[i] == '>'
    case Pattern =>
      s[i] == '|' || s[i] == ')' || s[i] == ';' || s[i] == '&' || s[i] == '<' || s[i] == '>'
  }

  function WordEnd(kind: WordKind, s: string, i: nat): (r: nat)
    requires i <= |s|
    ensures i <= r <= |s|
    ensures i < |s| && !Breaks(kind, s, i) ==> i < r
    decreases |s| - i
  {
    if i == |s| || Breaks(kind, s, i) then i
    else
      var sp := DollarSpan(s, i);
      WordEnd(kind, s, if sp > 0 then i + sp else i + 1)
  }

  function QuoteEnd(s: string, i: nat, q: char): (r: nat)
    requires i <= |s|
    ensures i <= r <= |s|
    decreases |s| - i
  {
    if i == |s| || s[i] == q then i else QuoteEnd(s, i + 1, q)
  }

  // The text of a word, its quote mark (0 bare, 1 single, 2 double), and where it ends.
  datatype Scan = Scan(text: string, mark: int, end: nat)

  function ScanWord(kind: WordKind, s: string, i: nat): (r: Scan)
    requires i <= |s|
    ensures i <= r.end <= |s|
    ensures r.text != [] || (i < |s| && (IsQuote(s[i]) || !Breaks(kind, s, i))) ==> i < r.end
  {
    if i < |s| && IsQuote(s[i]) then
      var e := QuoteEnd(s, i + 1, s[i]);
      Scan(s[i + 1..e], if s[i] == '\'' then 1 else 2, if e < |s| then e + 1 else e)
    else
      var e := WordEnd(kind, s, i);
      Scan(s[i..e], 0, e)
  }

  datatype Token =
    | Word(text: string, mark: int)
    | Pipe | Lt | DLess | DLessDash | Gt | GtGt | ErrGt | ErrGtGt | ErrToOut | AmpGt

  datatype OpResult = NoOp | BadOp | Op(token: Token, len: nat)

  // | < << <<- > >> &>
  function SimpleOp(s: string, i: nat): (r: OpResult)
    requires i <= |s|
    ensures !r.BadOp? && (r.Op? ==> 0 < r.len && i + r.len <= |s| && !r.token.Word?)
  {
    if At(s, i) == '|' then Op(Pipe, 1)
    else if At(s, i) == '<' then
      if At(s, i + 1) == '<' then (if At(s, i + 2) == '-' then Op(DLessDash, 3) else Op(DLess, 2))
      else Op(Lt, 1)
    else if At(s, i) == '&' && At(s, i + 1) == '>' then Op(AmpGt, 2)
    else if At(s, i) == '>' then (if At(s, i + 1) == '>' then Op(GtGt, 2) else Op(Gt, 1))
    else NoOp
  }

  // 2> 2>> 2>&1, and the refused forms 2>&x
  function ErrOp(s: string, i: nat): (r: OpResult)
    requires i <= |s|
    ensures r.Op? ==> 0 < r.len && i + r.len <= |s| && !r.token.Word?
  {
    if !(At(s, i) == '2' && At(s, i + 1) == '>') then NoOp
    else if At(s, i + 2) == '>' then Op(ErrGtGt, 3)
    else if At(s, i + 2) == '&' then
      var after := At(s, i + 4);
      if At(s, i + 3) == '1' &&
         (after == NUL || IsSpace(after) || after == '|' || after == '<' || after == '>' || after == '&')
      then Op(ErrToOut, 4) else BadOp
    else Op(ErrGt, 2)
  }

  // The token at i, which is neither the end nor white space: an operator, or else a word.
  function TokenAt(s: string, i: nat): (r: OpResult)
    requires i < |s| && !IsSpace(s[i])
    ensures r.Op? ==> 0 < r.len && i + r.len <= |s|
    ensures !r.NoOp?
  {
    var simple := if IsQuote(s[i]) then NoOp else SimpleOp(s, i);
    var op := if IsQuote(s[i]) || simple.Op? then simple else ErrOp(s, i);
    if !op.NoOp? then op
    else
      var w := ScanWord(Argument, s, i);
      Op(Word(w.text, w.mark), w.end - i)
  }

  function Tokenize(s: string, i: nat): Option<seq<Token>>
    requires i <= |s|
    decreases |s| - i
  {
    var p := SkipWs(s, i);
    if p == |s| then Some([])
    else
      var t := TokenAt(s, p);
      if !t.Op? then None
      else
        var rest := Tokenize(s, p + t.len);
        if rest.None? then None else Some([t.token] + rest.value)
  }

  // ---- stages ----

  function HereClear(c: Cmd): Cmd {
    c.(hereDelim := None, hereBody := None, hereQuoted := false, hereStrip := false, hereSkips := [], hereFeed := 0)
  }

  // A redirection operator with its path; the last one of a kind wins.
  function Redirect(c: Cmd, op: Token, path: string, mark: int): Option<Cmd> {
    match op
    case DLess => Some(HereDoc(c, path, mark, false))
    case DLessDash => Some(HereDoc(c, path, mark, true))
    case Lt => Some(HereClear(c).(redirIn := Some(path)))
    case Gt => Some(c.(redirOut := Some(path), redirAppend := false))
    case GtGt => Some(c.(redirOut := Some(path), redirAppend := true))
    case ErrGt => Some(c.(redirErr := Some(path), redirErrAppend := false, redirErrToOut := false))
    case ErrGtGt => Some(c.(redirErr := Some(path), redirErrAppend := true, redirErrToOut := false))
    case AmpGt => Some(c.(redirOut := Some(path), redirAppend := false,
                          redirErr := None, redirErrAppend := false, redirErrToOut := true))
    case _ => None
  }

  // A second << makes the first one's text to be skipped.
  function HereDoc(c: Cmd, delim: string, mark: int, strip: bool): Cmd {
    c.(redirIn := None,
       hereSkips := if c.hereDelim.Some? then c.hereSkips + [c.hereDelim.value] else c.hereSkips,
       hereDelim := Some(delim), hereBody := None, hereQuoted := mark != 0, hereStrip := strip, hereFeed := 0)
  }

  function Stage(toks: seq<Token>, i: nat, c: Cmd): Option<Cmd>
    requires i <= |toks|
    decreases |toks| - i
  {
    if i == |toks| then (if c.argv == [] then None else Some(c))
    else
      match toks[i]
      case Word(text, mark) => Stage(toks, i + 1, c.(argv := c.argv + [text], quoted := c.quoted + [mark]))
      case Pipe => None
      case ErrToOut => Stage(toks, i + 1, c.(redirErr := None, redirErrAppend := false, redirErrToOut := true))
      case op =>
        if i + 1 >= |toks| || !toks[i + 1].Word? then None
        else
          var r := Redirect(c, op, toks[i + 1].text, toks[i + 1].mark);
          if r.None? then None else Stage(toks, i + 2, r.value)
  }

  function NextPipe(toks: seq<Token>, i: nat): (r: nat)
    requires i <= |toks|
    ensures i <= r <= |toks| && (r < |toks| ==> toks[r].Pipe?)
    ensures forall k :: i <= k < r ==> !toks[k].Pipe?
    decreases |toks| - i
  {
    if i == |toks| || toks[i].Pipe? then i else NextPipe(toks, i + 1)
  }

  // The stages from token `begin` on; no stage may be empty and no pipe may be last.
  function Stages(toks: seq<Token>, begin: nat): Option<seq<Cmd>>
    requires begin < |toks|
    decreases |toks| - begin
  {
    var e := NextPipe(toks, begin);
    var c := Stage(toks[begin..e], 0, EMPTY_CMD);
    if c.None? then None
    else if e == |toks| then Some([c.value])
    else if e + 1 == |toks| then None
    else
      var rest := Stages(toks, e + 1);
      if rest.None? then None else Some([c.value] + rest.value)
  }

  function ParsePipeline(s: string): Option<seq<Cmd>> {
    var toks := Tokenize(s, 0);
    if toks.None? then None
    else if toks.value == [] then Some([])
    else Stages(toks.value, 0)
  }

  // ---- well-formed stages ----

  // What the fields of a stage promise one another.
  predicate WfFields(c: Cmd) {
    && |c.quoted| == |c.argv|
    && (c.redirErr.Some? ==> !c.redirErrToOut)
    && (c.hereDelim.Some? ==> c.redirIn.None?)
    && (c.hereDelim.None? ==> c.hereSkips == [])
    && c.hereBody.None? && c.hereFeed == 0
  }

  predicate WfCmd(c: Cmd) {
    c.argv != [] && WfFields(c)
  }

  lemma RedirectWf(c: Cmd, op: Token, path: string, mark: int)
    requires WfFields(c)
    ensures var r := Redirect(c, op, path, mark); r.Some? ==> WfFields(r.value)
  {
  }

  lemma {:induction false} StageWf(toks: seq<Token>, i: nat, c: Cmd)
    requires i <= |toks| && WfFields(c)
    ensures var r := Stage(toks, i, c); r.Some? ==> WfCmd(r.value)
    decreases |toks| - i
  {
    if i < |toks| {
      hide Redirect;
      match toks[i]
      case Word(text, mark) => StageWf(toks, i + 1, c.(argv := c.argv + [text], quoted := c.quoted + [mark]));
      case Pipe =>
      case ErrToOut => StageWf(toks, i + 1, c.(redirErr := None, redirErrAppend := false, redirErrToOut := true));
      case op =>
        if i + 1 < |toks| && toks[i + 1].Word? {
          var r := Redirect(c, op, toks[i + 1].text, toks[i + 1].mark);
          RedirectWf(c, op, toks[i + 1].text, toks[i + 1].mark);
          if r.Some? {
            StageWf(toks, i + 2, r.value);
          }
        }
    }
  }

  lemma {:induction false} StagesWf(toks: seq<Token>, begin: nat)
    requires begin < |toks|
    ensures var r := Stages(toks, begin);
            r.Some? ==> r.value != [] && forall k :: 0 <= k < |r.value| ==> WfCmd(r.value[k])
    decreases |toks| - begin
  {
    var e := NextPipe(toks, begin);
    StageWf(toks[begin..e], 0, EMPTY_CMD);
    if e + 1 < |toks| {
      StagesWf(toks, e + 1);
    }
  }

  // Every accepted pipeline text that is not blank has stages, each with at least one argument.
  lemma PipelineWf(s: string)
    ensures var r := ParsePipeline(s); r.Some? ==> forall k :: 0 <= k < |r.value| ==> WfCmd(r.value[k])
    ensures s != [] && !IsSpace(s[0]) && ParsePipeline(s).Some? ==> ParsePipeline(s).value != []
  {
    var toks := Tokenize(s, 0);
    if toks.Some? && toks.value != [] {
      StagesWf(toks.value, 0);
    }
  }
}
