// $(( )): src/mid/expand.c:328-549. A recursive descent evaluator over int64.
module Arith {
  import opened CStrings
  import opened Int64

  // What names and $1..$9 stand for while an expression is evaluated.
  datatype Env = Env(vars: string -> Option<string>, arg: nat -> Option<string>)

  // ---- characters ----

  predicate Blank(s: string) {
    forall i :: 0 <= i < |s| ==> IsBlank(s[i])
  }

  // How many name characters a text starts with; digits likewise.
  function NameLen(s: string): (n: nat)
    ensures n <= |s| && (n < |s| ==> !IsNameChar(s[n]))
    ensures forall i :: 0 <= i < n ==> IsNameChar(s[i])
  {
    if s != [] && IsNameChar(s[0]) then 1 + NameLen(s[1..]) else 0
  }

  function DigitLen(s: string): (n: nat)
    ensures n <= |s| && (n < |s| ==> !IsDigit(s[n]))
    ensures forall i :: 0 <= i < n ==> IsDigit(s[i])
  {
    if s != [] && IsDigit(s[0]) then 1 + DigitLen(s[1..]) else 0
  }

  // ---- values ----

  // A number that does not fit, or no number at all, reads as 0.
  function TextValue(text: Option<string>): int {
    if text.Some? && ReadInt(text.value).Some? then ReadInt(text.value).value else 0
  }

  // A name is looked up by at most 255 of its characters.
  function NameValue(env: Env, name: string): int {
    TextValue(env.vars(if |name| > 255 then name[..255] else name))
  }

  // C division truncates toward zero; the remainder has the sign of the dividend.
  function Quotient(a: int, b: int): int
    requires b != 0
  {
    if a >= 0 then a / b else 0 - (0 - a) / b
  }

  function Remainder(a: int, b: int): int
    requires b != 0
  {
    a - Quotient(a, b) * b
  }

  // The remainder is smaller than the divisor and never points away from the dividend.
  lemma DivisionTruncates(a: int, b: int)
    requires b != 0
    ensures a == Quotient(a, b) * b + Remainder(a, b)
    ensures -(if b < 0 then -b else b) < Remainder(a, b) < (if b < 0 then -b else b)
    ensures if a >= 0 then Remainder(a, b) >= 0 else Remainder(a, b) <= 0
  {
    var m := if a >= 0 then a else -a;
    assert m == (m / b) * b + m % b;
    assert Remainder(a, b) == if a >= 0 then m % b else -(m % b);
  }

  // DivZero is the error the code reports. Undefined is what C leaves undefined: an int64 overflow
  // of + - *, and INT64_MIN / -1 or INT64_MIN % -1.
  datatype Val = Val(v: int) | DivZero | Undefined

  function Checked(v: int): Val {
    if InRange(v) then Val(v) else Undefined
  }

  function Apply(op: char, a: int, b: int): Val {
    if op == '+' then Checked(a + b)
    else if op == '-' then Checked(a - b)
    else if op == '*' then Checked(a * b)
    else if b == 0 then DivZero
    else if a == INT64_MIN && b == -1 then Undefined
    else if op == '/' then Val(Quotient(a, b))
    else Val(Remainder(a, b))
  }

  function Negate(v: int): int {
    if v == INT64_MIN then INT64_MIN else -v
  }

  // ---- the evaluator on the rest of the text ----

  // Done: the value, and the text not yet read. Failed: 1 division by zero, 2 syntax.
  datatype Parsed = Done(v: int, rest: string) | Failed(err: int) | NoMeaning

  function Lift(v: Val, rest: string): Parsed {
    match v
    case Val(n) => Done(n, rest)
    case DivZero => Failed(1)
    case Undefined => NoMeaning
  }

  function Primary(env: Env, text: string): (r: Parsed)
    ensures r.Done? ==> |r.rest| < |text|
    ensures r.Failed? ==> r.err == 1 || r.err == 2
    decreases |text|, 0
  {
    var s := SkipBlanks(text);
    if s == [] then Failed(2)
    else if s[0] == '(' then
      var r := Expr(env, s[1..]);
      if !r.Done? then r
      else
        var t := SkipBlanks(r.rest);
        if t == [] || t[0] != ')' then Failed(2) else Done(r.v, t[1..])
    else if s[0] == '$' then
      if |s| > 1 && IsDigit(s[1]) then Done(TextValue(env.arg(Digit(s[1]))), s[2..])
      else
        var n := NameLen(s[1..]);
        if n == 0 then Failed(2) else Done(NameValue(env, s[1..n + 1]), s[n + 1..])
    else if IsDigit(s[0]) then
      var n := DigitLen(s);
      Done(TextValue(Some(s[..n])), s[n..])
    else if IsNameChar(s[0]) then
      var n := NameLen(s);
      Done(NameValue(env, s[..n]), s[n..])
    else Failed(2)
  }

  function Unary(env: Env, text: string): (r: Parsed)
    ensures r.Done? ==> |r.rest| < |text|
    ensures r.Failed? ==> r.err == 1 || r.err == 2
    decreases |text|, 1
  {
    var s := SkipBlanks(text);
    if s != [] && (s[0] == '+' || s[0] == '-') then
      var r := Unary(env, s[1..]);
      if r.Done? then Done(if s[0] == '-' then Negate(r.v) else r.v, r.rest) else r
    else Primary(env, s)
  }

  predicate IsMulOp(c: char) {
    c == '*' || c == '/' || c == '%'
  }

  predicate IsAddOp(c: char) {
    c == '+' || c == '-'
  }

  function Term(env: Env, text: string): (r: Parsed)
    ensures r.Done? ==> |r.rest| < |text|
    ensures r.Failed? ==> r.err == 1 || r.err == 2
    decreases |text|, 3
  {
    var r := Unary(env, text);
    if r.Done? then TermRest(env, r.v, r.rest) else r
  }

  function TermRest(env: Env, left: int, text: string): (r: Parsed)
    ensures r.Done? ==> |r.rest| <= |text|
    ensures r.Failed? ==> r.err == 1 || r.err == 2
    decreases |text|, 2
  {
    var s := SkipBlanks(text);
    if s == [] || !IsMulOp(s[0]) then Done(left, s)
    else
      var r := Unary(env, s[1..]);
      if !r.Done? then r
      else
        var v := Apply(s[0], left, r.v);
        if v.Val? then TermRest(env, v.v, r.rest) else Lift(v, r.rest)
  }

  function Expr(env: Env, text: string): (r: Parsed)
    ensures r.Done? ==> |r.rest| < |text|
    ensures r.Failed? ==> r.err == 1 || r.err == 2
    decreases |text|, 5
  {
    var r := Term(env, text);
    if r.Done? then ExprRest(env, r.v, r.rest) else r
  }

  function ExprRest(env: Env, left: int, text: string): (r: Parsed)
    ensures r.Done? ==> |r.rest| <= |text|
    ensures r.Failed? ==> r.err == 1 || r.err == 2
    decreases |text|, 4
  {
    var s := SkipBlanks(text);
    if s == [] || !IsAddOp(s[0]) then Done(left, s)
    else
      var r := Term(env, s[1..]);
      if !r.Done? then r
      else
        var v := Apply(s[0], left, r.v);
        if v.Val? then ExprRest(env, v.v, r.rest) else Lift(v, r.rest)
  }

  // The error code and the output of eval_arith; None when C gives the text no meaning.
  datatype Answer = Answer(err: int, value: int)

  function Eval(env: Env, text: string): Option<Answer> {
    var s := SkipBlanks(text);
    if s == [] then Some(Answer(0, 0))
    else
      match Expr(env, s)
      case Failed(e) => Some(Answer(e, 0))
      case NoMeaning => None
      case Done(v, rest) => Some(if SkipBlanks(rest) == [] then Answer(0, v) else Answer(2, 0))
  }

  // Primary on a text that begins with $.
  lemma DollarCases(env: Env, s: string)
    requires s != [] && s[0] == '$'
    ensures Primary(env, s) ==
            if |s| > 1 && IsDigit(s[1]) then Done(TextValue(env.arg(Digit(s[1]))), s[2..])
            else if |s| > 1 && IsNameChar(s[1]) then
              var n := NameLen(s[1..]);
              Done(NameValue(env, s[1..][..n]), s[1..][n..])
            else Failed(2)
  {
    hide TextValue, NameValue;
    assert SkipBlanks(s) == s;
    if |s| > 1 {
      var n := NameLen(s[1..]);
      assert s[1..][..n] == s[1..n + 1] && s[1..][n..] == s[n + 1..];
    }
  }
}
