// The scanner and painter of the line being edited, src/front/highlight.c.
module Highlight {
  import opened CStrings

  const MAX_SPANS: nat := 64

  datatype Kind = Plain | Command | Str | Unclosed | Operator

  datatype Span = Span(start: nat, len: nat, kind: Kind)

  // ---- characters ----

  predicate IsOpChar(c: char) {
    c == '|' || c == ';' || c == '<' || c == '>' || c == '&'
  }

  // src/front/highlight.c:20: the length of the operator at i, the longest first; 0 for none. 2>&1
  // is one only where a word could end.
  function MatchOp(s: string, i: nat): (r: nat)
    requires i <= |s|
    ensures i + r <= |s|
    ensures r == 0 && i < |s| ==> !IsOpChar(s[i])
  {
    if HasAt(s, i, "2>&1") && (At(s, i + 4) == NUL || IsSpace(At(s, i + 4)) || IsOpChar(At(s, i + 4))) then 4
    else if HasAt(s, i, "2>>") then 3
    else if HasAt(s, i, "2>") || HasAt(s, i, "&>") || HasAt(s, i, ">>") || HasAt(s, i, "||") || HasAt(s, i, "&&") then 2
    else if i < |s| && IsOpChar(s[i]) then 1
    else 0
  }

  // Operators after which a command is expected.
  predicate StartsCommand(op: string) {
    op == "|" || op == ";" || op == "&" || op == "||" || op == "&&"
  }

  function SpaceEnd(s: string, i: nat): (r: nat)
    requires i <= |s|
    ensures i <= r <= |s| && (r < |s| ==> !IsSpace(s[r]))
    ensures forall k :: i <= k < r ==> IsSpace(s[k])
    decreases |s| - i
  {
    if i < |s| && IsSpace(s[i]) then SpaceEnd(s, i + 1) else i
  }

  // Where the quote q next occurs, or the end.
  function QuoteAt(s: string, i: nat, q: char): (r: nat)
    requires i <= |s|
    ensures i <= r <= |s| && (r < |s| ==> s[r] == q)
    ensures forall k :: i <= k < r ==> s[k] != q
    decreases |s| - i
  {
    if i < |s| && s[i] != q then QuoteAt(s, i + 1, q) else i
  }

  predicate BreaksWord(c: char) {
    IsSpace(c) || IsQuote(c) || IsOpChar(c)
  }

  function WordEnd(s: string, i: nat): (r: nat)
    requires i <= |s|
    ensures i <= r <= |s| && (r < |s| ==> BreaksWord(s[r]))
    ensures forall k :: i <= k < r ==> !BreaksWord(s[k])
    decreases |s| - i
  {
    if i < |s| && !BreaksWord(s[i]) then WordEnd(s, i + 1) else i
  }

  // ---- the spans of a text ----

  // The span at i; `command` says whether a command name is expected there.
  function SpanAt(s: string, i: nat, command: bool): (r: Span)
    requires i < |s|
    ensures r.start == i && r.len > 0 && i + r.len <= |s|
  {
    if IsSpace(s[i]) then Span(i, SpaceEnd(s, i) - i, Plain)
    else if IsQuote(s[i]) then
      var q := QuoteAt(s, i + 1, s[i]);
      if q < |s| then Span(i, q + 1 - i, Str) else Span(i, q - i, Unclosed)
    else if MatchOp(s, i) > 0 then Span(i, MatchOp(s, i), Operator)
    else Span(i, WordEnd(s, i) - i, if command then Command else Plain)
  }

  // Whether a command is expected after it.
  function CommandAfter(s: string, i: nat, command: bool): bool
    requires i < |s|
  {
    if IsSpace(s[i]) then command
    else !IsQuote(s[i]) && MatchOp(s, i) > 0 && StartsCommand(s[i..i + MatchOp(s, i)])
  }

  function Spans(s: string, i: nat, command: bool): seq<Span>
    requires i <= |s|
    decreases |s| - i
  {
    if i == |s| then []
    else
      var p := SpanAt(s, i, command);
      [p] + Spans(s, i + p.len, CommandAfter(s, i, command))
  }

  // One span ends where the next begins.
  predicate Contiguous(spans: seq<Span>, start: nat, end: nat) {
    if spans == [] then start == end
    else spans[0].start == start && spans[0].len > 0 && Contiguous(spans[1..], start + spans[0].len, end)
  }

  // The spans are not empty, follow one another and cover the whole text.
  lemma {:induction false} SpansCover(s: string, i: nat, command: bool)
    requires i <= |s|
    ensures Contiguous(Spans(s, i, command), i, |s|)
    decreases |s| - i
  {
    hide SpanAt;
    if i < |s| {
      SpansCover(s, i + SpanAt(s, i, command).len, CommandAfter(s, i, command));
    }
  }

  function TextOf(s: string, p: Span): string
    requires p.start + p.len <= |s|
  {
    s[p.start..p.start + p.len]
  }

  // What the kind of a span says about its text.
  predicate Looks(s: string, p: Span) {
    && p.len > 0 && p.start + p.len <= |s|
    && var t := TextOf(s, p);
       match p.kind
       case Str => |t| >= 2 && IsQuote(t[0]) && t[|t| - 1] == t[0] && forall k :: 0 < k < |t| - 1 ==> t[k] != t[0]
       case Unclosed => IsQuote(t[0]) && p.start + p.len == |s| && forall k :: 0 < k < |t| ==> t[k] != t[0]
       case Operator => p.len == MatchOp(s, p.start)
       case Command => forall k :: 0 <= k < |t| ==> !BreaksWord(t[k])
       case Plain => (forall k :: 0 <= k < |t| ==> IsSpace(t[k])) || (forall k :: 0 <= k < |t| ==> !BreaksWord(t[k]))
  }

  lemma SpanLooks(s: string, i: nat, command: bool)
    requires i < |s|
    ensures Looks(s, SpanAt(s, i, command))
  {
    hide MatchOp, IsSpace;
    var p := SpanAt(s, i, command);
    var t := TextOf(s, p);
    assert forall k :: 0 <= k < |t| ==> t[k] == s[i + k];
  }

  lemma {:induction false} SpansLook(s: string, i: nat, command: bool)
    requires i <= |s|
    ensures forall k :: 0 <= k < |Spans(s, i, command)| ==> Looks(s, Spans(s, i, command)[k])
    decreases |s| - i
  {
    hide Looks, SpanAt;
    if i < |s| {
      var p := SpanAt(s, i, command);
      SpanLooks(s, i, command);
      SpansLook(s, i + p.len, CommandAfter(s, i, command));
    }
  }

  // ---- the scanner ----

  // src/front/highlight.c:68
  method PushSpan(out: array<Span>, n: nat, maxSpans: nat, start: nat, len: nat, kind: Kind) returns (ok: bool, m: nat)
    requires n <= maxSpans <= out.Length && len > 0
    modifies out
    ensures ok == (n < maxSpans) && m == (if ok then n + 1 else n)
    ensures out[..m] == if ok then old(out[..n]) + [Span(start, len, kind)] else old(out[..n])
  {
    if n >= maxSpans {
      return false, n;
    }
    out[n] := Span(start, len, kind);
    return true, n + 1;
  }

  // The white space from i on.
  method SkipSpace(buf: string, i: nat) returns (j: nat)
    requires i <= |buf|
    ensures j == SpaceEnd(buf, i)
  {
    j := i;
    while j < |buf| && IsSpace(buf[j])
      invariant i <= j <= |buf| && SpaceEnd(buf, i) == SpaceEnd(buf, j)
    {
      j := j + 1;
    }
  }

  // The token at i, which is no white space, and whether a command is expected after it.
  method ReadToken(buf: string, i: nat, expectCmd: bool) returns (len: nat, kind: Kind, command: bool)
    requires i < |buf| && !IsSpace(buf[i])
    ensures Span(i, len, kind) == SpanAt(buf, i, expectCmd) && command == CommandAfter(buf, i, expectCmd)
  {
    hide MatchOp;
    var j := i;
    var c := buf[i];
    if c == '"' || c == '\'' {
      j := j + 1;
      while j < |buf| && buf[j] != c
        invariant i < j <= |buf| && QuoteAt(buf, j, c) == QuoteAt(buf, i + 1, c)
      {
        j := j + 1;
      }
      if j < |buf| && buf[j] == c {
        return j + 1 - i, Str, false;
      }
      return j - i, Unclosed, false;
    }
    var oplen := MatchOp(buf, i);
    if oplen > 0 {
      return oplen, Operator, StartsCommand(buf[i..i + oplen]);
    }
    while j < |buf| && !(IsSpace(buf[j]) || buf[j] == '"' || buf[j] == '\'' || IsOpChar(buf[j]))
      invariant i <= j <= |buf| && WordEnd(buf, j) == WordEnd(buf, i)
    {
      j := j + 1;
    }
    return j - i, if expectCmd then Command else Plain, false;
  }

  lemma SpansStep(s: string, i: nat, command: bool)
    requires i <= |s|
    ensures i == |s| ==> Spans(s, i, command) == []
    ensures i < |s| ==> var p := SpanAt(s, i, command);
              Spans(s, i, command) == [p] + Spans(s, i + p.len, CommandAfter(s, i, command))
  {
  }

  lemma SpaceSpan(s: string, i: nat, command: bool)
    requires i < |s|
    ensures SpaceEnd(s, i) > i <==> IsSpace(s[i])
    ensures IsSpace(s[i]) ==>
              SpanAt(s, i, command) == Span(i, SpaceEnd(s, i) - i, Plain) && CommandAfter(s, i, command) == command
    ensures SpaceEnd(s, i) < |s| ==> !IsSpace(s[SpaceEnd(s, i)])
  {
  }

  lemma Onward(a: seq<Span>, p: Span, rest: seq<Span>)
    ensures a + ([p] + rest) == (a + [p]) + rest
    ensures |a + ([p] + rest)| > |a| && (a + ([p] + rest))[..|a|] == a
  {
  }

  // src/front/highlight.c:80: as many of the spans as there is room for.
  method Scan(buf: string, out: array<Span>, maxSpans: int) returns (n: nat)
    requires maxSpans <= out.Length
    modifies out
    ensures var all := Spans(buf, 0, true); var room := if maxSpans < 0 then 0 else maxSpans;
            && n == (if |all| < room then |all| else room)
            && n <= out.Length && out[..n] == all[..n]
  {
    hide SpanAt, Spans, CommandAfter, SpaceEnd, IsSpace;
    n := 0;
    ghost var all := Spans(buf, 0, true);
    SpansStep(buf, 0, true);
    if maxSpans <= 0 || |buf| == 0 {
      return;
    }
    var i, expectCmd := 0, true;
    Taken(out[..n], all);
    while i < |buf|
      invariant i <= |buf| && n <= maxSpans
      invariant out[..n] + Spans(buf, i, expectCmd) == all
      decreases |buf| - i
    {
      var ws := i;
      i := SkipSpace(buf, i);
      SpaceSpan(buf, ws, expectCmd);
      var ok;
      if i > ws {
        ok, n := PushNext(buf, out, n, maxSpans, ws, expectCmd, i - ws, Plain, expectCmd);
        if !ok {
          return;
        }
      }
      if i >= |buf| {
        break;
      }
      var len, kind, command := ReadToken(buf, i, expectCmd);
      ok, n := PushNext(buf, out, n, maxSpans, i, expectCmd, len, kind, command);
      if !ok {
        return;
      }
      i, expectCmd := i + len, command;
    }
    SpansStep(buf, i, expectCmd);
    Taken(out[..n], []);
  }

  // The span at i is pushed, if there is room for it.
  method PushNext(buf: string, out: array<Span>, n: nat, maxSpans: nat, i: nat, expectCmd: bool,
                  len: nat, kind: Kind, command: bool) returns (ok: bool, m: nat)
    requires n <= maxSpans <= out.Length && i < |buf|
    requires Span(i, len, kind) == SpanAt(buf, i, expectCmd) && command == CommandAfter(buf, i, expectCmd)
    modifies out
    ensures m <= maxSpans && i + len <= |buf| && len > 0
    ensures var all := old(out[..n]) + Spans(buf, i, expectCmd);
            if ok then out[..m] + Spans(buf, i + len, command) == all
            else m == maxSpans && |all| >= m && out[..m] == all[..m]
  {
    hide SpanAt, CommandAfter, Spans;
    SpansStep(buf, i, expectCmd);
    Onward(out[..n], Span(i, len, kind), Spans(buf, i + len, command));
    ok, m := PushSpan(out, n, maxSpans, i, len, kind);
  }

  lemma Taken(some: seq<Span>, rest: seq<Span>)
    ensures |some + rest| == |some| + |rest| && (some + rest)[..|some|] == some
    ensures rest == [] ==> some + rest == some
    ensures some == [] ==> some + rest == rest
  {
  }

  // ---- the painter ----

  const ESC: char := '\U{1B}'

  function Csi(kind: Kind): string {
    match kind
    case Command => [ESC] + "[1;32m"
    case Str => [ESC] + "[33m"
    case Unclosed => [ESC] + "[1;31m"
    case Operator => [ESC] + "[34m"
    case Plain => [ESC] + "[0m"
  }

  // The text with a colour before every span; what no span covers is plain.
  function Painted(buf: string, spans: seq<Span>, cursor: nat): string
    requires cursor <= |buf|
  {
    if spans == [] || spans[0].start > |buf| then
      if cursor < |buf| then Csi(Plain) + buf[cursor..] else ""
    else
      var s := spans[0].start;
      var e := if s + spans[0].len <= |buf| then s + spans[0].len else |buf|;
      (if s > cursor then Csi(Plain) + buf[cursor..s] else "")
      + (Csi(spans[0].kind) + buf[s..e]) + Painted(buf, spans[1..], e)
  }

  // Text with its control sequences taken out: ESC [ up to and with a final byte @ to ~.
  function Strip(s: string): string
    decreases |s|
  {
    if s == [] then ""
    else if HasAt(s, 0, [ESC, '[']) then Strip(s[AfterFinal(s, 2)..])
    else [s[0]] + Strip(s[1..])
  }

  function AfterFinal(s: string, i: nat): (r: nat)
    requires i <= |s|
    ensures i <= r <= |s|
    decreases |s| - i
  {
    if i == |s| then i else if '@' <= s[i] <= '~' then i + 1 else AfterFinal(s, i + 1)
  }

  lemma StripCsi(kind: Kind, s: string)
    ensures Strip(Csi(kind) + s) == Strip(s)
  {
    var t := Csi(kind) + s;
    var n := |Csi(kind)|;
    assert t[..2] == [ESC, '['];
    assert forall k :: 0 <= k < n ==> t[k] == Csi(kind)[k];
    assert t[n..] == s;
    assert AfterFinal(t, 2) == n by {
      if n == 4 {
        assert AfterFinal(t, 3) == 4;
      } else if n == 5 {
        assert AfterFinal(t, 4) == 5;
        assert AfterFinal(t, 3) == 5;
      } else {
        assert AfterFinal(t, 6) == 7;
        assert AfterFinal(t, 5) == 7;
        assert AfterFinal(t, 4) == 7;
        assert AfterFinal(t, 3) == 7;
      }
    }
  }

  lemma StripChar(c: char, s: string)
    requires c != ESC
    ensures Strip([c] + s) == [c] + Strip(s)
  {
    assert ([c] + s)[0] == c && ([c] + s)[1..] == s;
    assert s != [] ==> ([c] + s)[..2][0] == c;
  }

  lemma {:induction false} StripText(a: string, s: string)
    requires ESC !in a
    ensures Strip(a + s) == a + Strip(s)
  {
    hide Strip;
    if a == [] {
      assert a + s == s && a + Strip(s) == Strip(s);
    } else {
      assert a + s == [a[0]] + (a[1..] + s);
      StripChar(a[0], a[1..] + s);
      StripText(a[1..], s);
      assert a + Strip(s) == [a[0]] + (a[1..] + Strip(s));
    }
  }

  lemma PaintedStep(buf: string, spans: seq<Span>, cursor: nat)
    requires spans != [] && spans[0].start == cursor && cursor + spans[0].len <= |buf|
    ensures var e := cursor + spans[0].len;
            Painted(buf, spans, cursor) == Csi(spans[0].kind) + (buf[cursor..e] + Painted(buf, spans[1..], e))
  {
    hide Csi;
    var a, b, c := Csi(spans[0].kind), buf[cursor..cursor + spans[0].len],
      Painted(buf, spans[1..], cursor + spans[0].len);
    assert "" + (a + b) + c == a + (b + c);
  }

  // Taking the colours out of a painted text gives the text back, for any list of spans in order.
  lemma {:induction false} StripPainted(buf: string, spans: seq<Span>, cursor: nat, end: nat)
    requires ESC !in buf && cursor <= |buf| && Contiguous(spans, cursor, end) && end <= |buf|
    ensures Strip(Painted(buf, spans, cursor)) == buf[cursor..]
  {
    hide Strip, Csi;
    if spans == [] {
      StripEmpty();
      if cursor < |buf| {
        StripCsi(Plain, buf[cursor..]);
        StripText(buf[cursor..], "");
        assert buf[cursor..] + "" == buf[cursor..];
      }
    } else {
      hide Painted;
      var e := cursor + spans[0].len;
      ContiguousEnd(spans[1..], e, end);
      StripPainted(buf, spans[1..], e, end);
      var tail := Painted(buf, spans[1..], e);
      PaintedStep(buf, spans, cursor);
      StripCsi(spans[0].kind, buf[cursor..e] + tail);
      StripText(buf[cursor..e], tail);
      assert buf[cursor..e] + buf[e..] == buf[cursor..];
    }
  }

  lemma StripEmpty()
    ensures Strip("") == ""
  {
  }

  lemma {:induction false} ContiguousEnd(spans: seq<Span>, start: nat, end: nat)
    requires Contiguous(spans, start, end)
    ensures start <= end
  {
    if spans != [] {
      ContiguousEnd(spans[1..], start + spans[0].len, end);
    }
  }

  // A beginning of contiguous spans is contiguous.
  lemma {:induction false} ContiguousPrefix(spans: seq<Span>, start: nat, end: nat, n: nat) returns (mid: nat)
    requires Contiguous(spans, start, end) && n <= |spans|
    ensures Contiguous(spans[..n], start, mid) && start <= mid <= end
  {
    if n == 0 {
      mid := start;
      ContiguousEnd(spans, start, end);
    } else {
      mid := ContiguousPrefix(spans[1..], start + spans[0].len, end, n - 1);
      assert spans[..n][1..] == spans[1..][..n - 1];
    }
  }

  // The output: a buffer that is enlarged when a piece and the final NUL would not fit.
  class Output {
    var data: array<char>
    var o: nat

    constructor (capacity: nat)
      requires capacity >= 16
      ensures Valid() && fresh(data) && Text() == ""
    {
      data := new char[capacity](_ => NUL);
      o := 0;
    }

    ghost predicate Valid()
      reads this
    {
      o < data.Length
    }

    ghost function Text(): string
      requires Valid()
      reads this, data
    {
      data[..o]
    }

    // src/front/highlight.c:179-195, 197-210, 214-229: a colour and a piece of the text.
    method Emit(csi: string, piece: string, spare: bool)
      requires Valid()
      modifies this, data
      ensures Valid() && (data == old(data) || fresh(data))
      ensures Text() == old(Text()) + (csi + piece)
    {
      Reserve(o + |csi| + |piece| + 1, spare);
      Append(csi);
      Append(piece);
    }

    // realloc, when there is too little room.
    method Reserve(need: nat, spare: bool)
      requires Valid()
      modifies `data
      ensures Valid() && data.Length >= need && (data == old(data) || fresh(data))
      ensures Text() == old(Text())
    {
      if need > data.Length {
        var bigger := new char[if spare then need * 2 else need](_ => NUL);
        CopyIn(bigger, 0, data[..o]);
        data := bigger;
      }
    }

    method Append(piece: string)
      requires Valid() && o + |piece| < data.Length
      modifies `o, data
      ensures Valid() && o == old(o) + |piece| && Text() == old(Text()) + piece
    {
      CopyIn(data, o, piece);
      o := o + |piece|;
    }
  }

  // memcpy
  method CopyIn(data: array<char>, at: nat, piece: string)
    requires at + |piece| <= data.Length
    modifies data
    ensures data[..at + |piece|] == old(data[..at]) + piece
  {
    for k := 0 to |piece|
      invariant data[..at + k] == old(data[..at]) + piece[..k]
    {
      data[at + k] := piece[k];
    }
  }

  // src/front/highlight.c:156. Whatever the text, even with more spans than there is room for,
  // taking the colours out again gives it back.
  method Colorize(buf: string) returns (r: string)
    ensures var all := Spans(buf, 0, true);
            r == Painted(buf, if |all| < MAX_SPANS then all else all[..MAX_SPANS], 0)
    ensures ESC !in buf ==> Strip(r) == buf
  {
    hide Csi, Spans, SpanAt, Strip;
    var spans := new Span[MAX_SPANS](_ => Span(0, 0, Plain));
    var n := Scan(buf, spans, MAX_SPANS);
    ghost var all := Spans(buf, 0, true);
    ghost var some := all[..n];
    assert some == if |all| < MAX_SPANS then all else all[..MAX_SPANS];
    r := Paint(buf, spans[..n]);
    if ESC !in buf {
      SpansCover(buf, 0, true);
      var mid := ContiguousPrefix(all, 0, |buf|, n);
      StripPainted(buf, some, 0, mid);
      assert buf[0..] == buf;
    }
  }

  // The loop of petrush_hl_colorize over the spans it was given.
  method Paint(buf: string, list: seq<Span>) returns (r: string)
    ensures r == Painted(buf, list, 0)
  {
    hide Csi, Painted;
    var out := new Output(|buf| * 10 + 16);
    var cursor: nat, i: nat := 0, 0;
    ghost var done, left := "", Painted(buf, list, 0);
    assert list[0..] == list && done + left == left;
    while i < |list|
      invariant i <= |list| && cursor <= |buf| && out.Valid() && fresh(out) && fresh(out.data)
      invariant out.Text() == done && done + left == Painted(buf, list, 0)
      invariant left == Painted(buf, list[i..], cursor)
    {
      var s, sl := list[i].start, list[i].len;
      PaintedOnce(buf, list[i..], cursor);
      assert list[i..][1..] == list[i + 1..];
      if s > |buf| {
        break;
      }
      if s + sl > |buf| {
        sl := |buf| - s;
      }
      ghost var gap := if s > cursor then Csi(Plain) + buf[cursor..s] else "";
      ghost var piece, rest := Csi(list[i].kind) + buf[s..s + sl], Painted(buf, list[i + 1..], s + sl);
      Join(done, gap, piece, rest);
      if s > cursor {
        out.Emit(Csi(Plain), buf[cursor..s], true);
        cursor := s;
      }
      out.Emit(Csi(list[i].kind), buf[s..s + sl], true);
      cursor := s + sl;
      done, left := done + gap + piece, rest;
      i := i + 1;
    }
    PaintedEnd(buf, list[i..], cursor);
    if cursor < |buf| {
      out.Emit(Csi(Plain), buf[cursor..], false);
    }
    r := out.data[..out.o];
  }

  lemma Join(done: string, gap: string, piece: string, rest: string)
    ensures done + (gap + piece + rest) == (done + gap + piece) + rest
    ensures gap == "" ==> done + gap == done
  {
  }

  lemma PaintedEnd(buf: string, spans: seq<Span>, cursor: nat)
    requires cursor <= |buf| && (spans == [] || spans[0].start > |buf|)
    ensures Painted(buf, spans, cursor) == if cursor < |buf| then Csi(Plain) + buf[cursor..] else ""
  {
  }

  lemma PaintedOnce(buf: string, spans: seq<Span>, cursor: nat)
    requires spans != [] && cursor <= |buf|
    ensures spans[0].start > |buf| ==>
              Painted(buf, spans, cursor) == if cursor < |buf| then Csi(Plain) + buf[cursor..] else ""
    ensures spans[0].start <= |buf| ==>
              var s := spans[0].start;
              var e := if s + spans[0].len <= |buf| then s + spans[0].len else |buf|;
              Painted(buf, spans, cursor) ==
              (if s > cursor then Csi(Plain) + buf[cursor..s] else "")
              + (Csi(spans[0].kind) + buf[s..e]) + Painted(buf, spans[1..], e)
  {
  }
}
