// Which parts of a line are commands and which are operators, said on the parts of the line.
module HighlightLaws {
  import opened CStrings
  import opened Highlight

  predicate Blank(s: string, p: Span) {
    p.len > 0 && p.start < |s| && IsSpace(s[p.start])
  }

  // A part that is a word: neither white space, nor quoted, nor an operator.
  predicate IsWord(s: string, p: Span) {
    !Blank(s, p) && !p.kind.Str? && !p.kind.Unclosed? && !p.kind.Operator?
  }

  // At part k a command name is due: nothing but white space is in front of it, or, but for white
  // space, one of | ; & || && is. `first` says whether one is due at the beginning.
  predicate Due(s: string, spans: seq<Span>, k: nat, first: bool)
    requires k <= |spans| && forall j :: 0 <= j < |spans| ==> spans[j].start + spans[j].len <= |s|
  {
    if k == 0 then first
    else
      var p := spans[k - 1];
      if Blank(s, p) then Due(s, spans, k - 1, first)
      else p.kind.Operator? && TextOf(s, p) in ["|", ";", "&", "||", "&&"]
  }

  lemma {:induction false} SpansFit(s: string, i: nat, command: bool)
    requires i <= |s|
    ensures var spans := Spans(s, i, command);
            forall k :: 0 <= k < |spans| ==> spans[k].start + spans[k].len <= |s|
    decreases |s| - i
  {
    hide Spans, CommandAfter, MatchOp, SpaceEnd, QuoteAt, WordEnd;
    SpansStep(s, i, command);
    if i < |s| {
      var p := SpanAt(s, i, command);
      var rest := Spans(s, i + p.len, CommandAfter(s, i, command));
      SpansFit(s, i + p.len, CommandAfter(s, i, command));
      assert forall k :: 0 < k < |[p] + rest| ==> ([p] + rest)[k] == rest[k - 1];
    }
  }

  // A part further on is due as it is in the line without its first part.
  lemma {:induction false} DueLater(s: string, p: Span, rest: seq<Span>, k: nat, first: bool, next: bool)
    requires k <= |rest| && p.start + p.len <= |s|
    requires forall j :: 0 <= j < |rest| ==> rest[j].start + rest[j].len <= |s|
    requires next == Due(s, [p], 1, first)
    ensures Due(s, [p] + rest, k + 1, first) == Due(s, rest, k, next)
  {
    var all := [p] + rest;
    if k > 0 {
      assert all[k] == rest[k - 1];
      DueLater(s, p, rest, k - 1, first, next);
    } else {
      assert all[0] == p == [p][0];
    }
  }

  lemma OneDue(s: string, i: nat, command: bool)
    requires i < |s|
    ensures var p := SpanAt(s, i, command);
            && Due(s, [p], 1, command) == CommandAfter(s, i, command)
            && (IsWord(s, p) ==> (p.kind.Command? <==> command))
  {
    var p := SpanAt(s, i, command);
    assert [p][0] == p;
    if !IsSpace(s[i]) && !IsQuote(s[i]) && MatchOp(s, i) > 0 {
      assert TextOf(s, p) == s[i..i + MatchOp(s, i)];
    }
  }

  // A word is painted as a command exactly where a command name is due.
  lemma {:induction false} CommandsAreDue(s: string, i: nat, command: bool, k: nat)
    requires i <= |s| && k < |Spans(s, i, command)|
    ensures var spans := Spans(s, i, command);
            && (forall j :: 0 <= j < |spans| ==> spans[j].start + spans[j].len <= |s|)
            && (IsWord(s, spans[k]) ==> (spans[k].kind.Command? <==> Due(s, spans, k, command)))
    decreases |s| - i
  {
    hide SpanAt, CommandAfter;
    SpansFit(s, i, command);
    var p := SpanAt(s, i, command);
    var next := CommandAfter(s, i, command);
    var rest := Spans(s, i + p.len, next);
    assert Spans(s, i, command) == [p] + rest;
    OneDue(s, i, command);
    if k > 0 {
      SpansFit(s, i + p.len, next);
      CommandsAreDue(s, i + p.len, next, k - 1);
      DueLater(s, p, rest, k - 1, command, next);
    }
  }

  // Each operator is one, as long as it can be, whatever word follows.
  lemma OperatorsAre(op: string, word: string)
    requires op in ["2>&1", "2>>", "2>", "&>", ">>", "||", "&&", "|", ";", "<", ">", "&"]
    requires word == "" || (IsAlpha(word[0]) && op != "2>&1")
    ensures var s := op + word; Spans(s, 0, true) != [] && Spans(s, 0, true)[0] == Span(0, |op|, Operator)
  {
    hide MatchOp, HasAt;
    var s := op + word;
    assert s[0] == op[0] && !IsSpace(op[0]) && !IsQuote(op[0]);
    assert |op| >= 2 ==> s[1] == op[1];
    assert |op| >= 3 ==> s[2] == op[2];
    assert |op| >= 4 ==> s[3] == op[3];
    assert word != "" ==> s[|op|] == word[0];
    OperatorHere(s, op);
    SpansStep(s, 0, true);
  }

  lemma OperatorHere(s: string, op: string)
    requires op in ["2>&1", "2>>", "2>", "&>", ">>", "||", "&&", "|", ";", "<", ">", "&"]
    requires |s| >= |op| && (forall k :: 0 <= k < |op| ==> s[k] == op[k])
    requires |s| > |op| ==> IsAlpha(s[|op|]) && op != "2>&1"
    ensures MatchOp(s, 0) == |op|
  {
    hide HasAt;
    HasTwo(s, '2', '>');
    HasTwo(s, '&', '>');
    HasTwo(s, '>', '>');
    HasTwo(s, '|', '|');
    HasTwo(s, '&', '&');
    assert HasAt(s, 0, "2>&1") <==> |s| >= 4 && s[0] == '2' && s[1] == '>' && s[2] == '&' && s[3] == '1' by {
      if |s| >= 4 { assert s[0..4] == [s[0], s[1], s[2], s[3]]; }
      HasHere(s, "2>&1");
    }
    assert HasAt(s, 0, "2>>") <==> |s| >= 3 && s[0] == '2' && s[1] == '>' && s[2] == '>' by {
      if |s| >= 3 { assert s[0..3] == [s[0], s[1], s[2]]; }
      HasHere(s, "2>>");
    }
  }

  lemma HasHere(s: string, t: string)
    ensures HasAt(s, 0, t) <==> |s| >= |t| && s[0..|t|] == t
  {
  }

  lemma HasTwo(s: string, a: char, b: char)
    ensures HasAt(s, 0, [a, b]) <==> |s| >= 2 && s[0] == a && s[1] == b
  {
    if |s| >= 2 {
      assert s[0..2] == [s[0], s[1]];
    }
  }

  // The colours: a line that is one part is painted in the colour of its kind.
  lemma ColoursAre(buf: string, kind: Kind)
    requires buf != ""
    ensures Painted(buf, [Span(0, |buf|, kind)], 0) ==
            [ESC] + (match kind
                     case Command => "[1;32m"
                     case Str => "[33m"
                     case Unclosed => "[1;31m"
                     case Operator => "[34m"
                     case Plain => "[0m") + buf
  {
    var spans := [Span(0, |buf|, kind)];
    assert spans[1..] == [] && Painted(buf, [], |buf|) == "";
    assert buf[0..|buf|] == buf;
  }
}
