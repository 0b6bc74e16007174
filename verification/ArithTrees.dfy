// Expressions as trees, and what evaluating their text gives. A tree records its blanks and its
// parentheses; which operand may stand where without parentheses is the usual precedence, with
// operators of one level grouping to the left.
module ArithTrees {
  import opened CStrings
  import opened Int64
  import opened Arith

  // `w` are the blanks in front of the token.
  datatype Tree =
    | Number(w: string, digits: string)
    | Name(w: string, name: string)
    | DollarName(w: string, name: string)
    | DollarDigit(w: string, digit: char)
    | Group(w: string, inside: Tree, w2: string)
    | Sign(w: string, sign: char, operand: Tree)
    | Binary(left: Tree, w: string, op: char, right: Tree)

  // 0: anything; 1: no + or - outside parentheses; 2: no binary operator outside parentheses.
  predicate Fits(t: Tree, level: int) {
    match t
    case Number(w, digits) => Blank(w) && digits != [] && AllDigits(digits)
    case Name(w, name) => Blank(w) && IsName(name)
    case DollarName(w, name) => Blank(w) && IsName(name)
    case DollarDigit(w, digit) => Blank(w) && IsDigit(digit)
    case Group(w, inside, w2) => Blank(w) && Blank(w2) && Fits(inside, 0)
    case Sign(w, sign, operand) => Blank(w) && IsAddOp(sign) && Fits(operand, 2)
    case Binary(left, w, op, right) =>
      Blank(w) && (if IsAddOp(op) then level <= 0 && Fits(left, 0) && Fits(right, 1)
                   else IsMulOp(op) && level <= 1 && Fits(left, 1) && Fits(right, 2))
  }

  predicate IsName(name: string) {
    name != [] && !IsDigit(name[0]) && forall i :: 0 <= i < |name| ==> IsNameChar(name[i])
  }

  function Text(t: Tree): string {
    match t
    case Number(w, digits) => w + digits
    case Name(w, name) => w + name
    case DollarName(w, name) => w + "$" + name
    case DollarDigit(w, digit) => w + "$" + [digit]
    case Group(w, inside, w2) => w + "(" + Text(inside) + w2 + ")"
    case Sign(w, sign, operand) => w + [sign] + Text(operand)
    case Binary(left, w, op, right) => Text(left) + w + [op] + Text(right)
  }

  // The values of the operations, as integers: division cuts off toward zero.
  function Abs(v: int): nat {
    if v < 0 then -v else v
  }

  function Bounded(v: int): Val {
    if -0x8000_0000_0000_0000 <= v <= 0x7FFF_FFFF_FFFF_FFFF then Val(v) else Undefined
  }

  function Over(a: int, b: int): int
    requires b != 0
  {
    if a < 0 then -(-a / b) else a / b
  }

  function Meaning(op: char, a: int, b: int): Val {
    if op == '+' then Bounded(a + b)
    else if op == '-' then Bounded(a - b)
    else if op == '*' then Bounded(a * b)
    else if b == 0 then DivZero
    else if Bounded(Over(a, b)).Undefined? then Undefined
    else if op == '/' then Val(Over(a, b)) else Val(a - Over(a, b) * b)
  }

  // The number a text is, 0 when it is none.
  function Numeral(text: Option<string>): int {
    if text.None? || ReadInt(text.value).None? then 0 else ReadInt(text.value).value
  }

  function Cut(name: string): string {
    if |name| <= 255 then name else name[..255]
  }

  // The value, the operands in order; the first operation that has none decides.
  function Value(env: Env, t: Tree): Val {
    match t
    case Number(_, digits) => Val(Numeral(Some(digits)))
    case Name(_, name) => Val(Numeral(env.vars(Cut(name))))
    case DollarName(_, name) => Val(Numeral(env.vars(Cut(name))))
    case DollarDigit(_, digit) => Val(Numeral(env.arg(if IsDigit(digit) then digit as int - '0' as int else 0)))
    case Group(_, inside, _) => Value(env, inside)
    case Sign(_, sign, operand) =>
      var v := Value(env, operand);
      if v.Val? && sign == '-' && Bounded(-v.v).Val? then Val(-v.v) else v
    case Binary(left, _, op, right) =>
      var a := Value(env, left);
      if !a.Val? then a
      else
        var b := Value(env, right);
        if !b.Val? then b else Meaning(op, a.v, b.v)
  }

  // The evaluator computes these values.
  lemma ApplyMeans(op: char, a: int, b: int)
    requires (IsAddOp(op) || IsMulOp(op)) && InRange(a) && InRange(b)
    ensures Apply(op, a, b) == Meaning(op, a, b)
  {
    if b != 0 {
      OverFits(a, b);
    }
  }

  lemma OverFits(a: int, b: int)
    requires b != 0 && InRange(a) && InRange(b)
    ensures Bounded(Over(a, b)).Undefined? <==> a == INT64_MIN && b == -1
  {
    QuotientBound(Abs(a), b);
  }

  lemma QuotientBound(m: nat, b: int)
    requires b != 0
    ensures b == 1 ==> m / b == m
    ensures b == -1 ==> m / b == 0 - m
    ensures Abs(b) > 1 ==> 0 - m <= 2 * (m / b) <= m
  {
    var q := m / b;
    assert m == q * b + m % b;
    assert (b > 0 ==> q >= 0) && (b < 0 ==> q <= 0);
    if b > 1 {
      Twice(q, b, m);
    } else if b < -1 {
      assert (-q) * (-b) == q * b;
      Twice(-q, -b, m);
    }
  }

  lemma Twice(q: nat, d: nat, m: nat)
    requires d >= 2 && q * d <= m
    ensures 2 * q <= m
  {
    assert q * d == q * 2 + q * (d - 2);
  }

  lemma TextMeans(text: Option<string>)
    ensures TextValue(text) == Numeral(text) && InRange(Numeral(text))
  {
  }

  lemma NameMeans(env: Env, name: string)
    ensures NameValue(env, name) == Numeral(env.vars(Cut(name)))
  {
  }

  lemma {:induction false} ValueInRange(env: Env, t: Tree)
    ensures Value(env, t).Val? ==> InRange(Value(env, t).v)
  {
    match t
    case Group(_, inside, _) => ValueInRange(env, inside);
    case Sign(_, _, operand) => ValueInRange(env, operand);
    case Binary(left, _, op, right) =>
      var a, b := Value(env, left), Value(env, right);
      if a.Val? && b.Val? && b.v != 0 && op !in "+-*" {
        ValueInRange(env, left);
        RemainderFits(a.v, b.v);
      }
    case _ =>
  }

  lemma RemainderFits(a: int, b: int)
    requires b != 0 && InRange(a)
    ensures InRange(a - Over(a, b) * b)
  {
    var m := Abs(a);
    var q := m / b;
    NotMore(q, b, m);
    if a < 0 {
      assert Over(a, b) * b == 0 - q * b;
    }
  }

  // What is taken off a dividend never has the wrong sign.
  lemma NotMore(q: int, b: int, m: nat)
    requires b != 0 && q == m / b
    ensures 0 <= q * b <= m
  {
    assert m == q * b + m % b;
    assert (b > 0 ==> q >= 0) && (b < 0 ==> q <= 0);
  }

  // ---- blanks ----

  lemma {:induction false} SkipOver(w: string, s: string)
    requires Blank(w) && (s != [] ==> !IsBlank(s[0]))
    ensures SkipBlanks(w + s) == s
  {
    if w == [] {
      assert w + s == s;
    } else {
      assert (w + s)[1..] == w[1..] + s;
      SkipOver(w[1..], s);
    }
  }

  lemma {:induction false} Skipped(s: string) returns (w: string)
    ensures Blank(w) && s == w + SkipBlanks(s)
  {
    if s != [] && IsBlank(s[0]) {
      var v := Skipped(s[1..]);
      w := [s[0]] + v;
    } else {
      w := [];
    }
  }

  // What may follow an operand: nothing that would belong to its last token.
  predicate Apart(rest: string) {
    rest != [] ==> !IsNameChar(rest[0])
  }

  // What may follow a sum's operand besides: no operator that binds tighter.
  predicate NoMulOp(rest: string) {
    var s := SkipBlanks(rest);
    s != [] ==> !IsMulOp(s[0])
  }

  lemma OpIsApart(w: string, c: char, rest: string)
    requires Blank(w) && (IsAddOp(c) || IsMulOp(c) || c == ')')
    ensures Apart(w + [c] + rest) && SkipBlanks(w + [c] + rest) == [c] + rest
    ensures !IsMulOp(c) ==> NoMulOp(w + [c] + rest)
  {
    assert w + [c] + rest == w + ([c] + rest);
    SkipOver(w, [c] + rest);
    if w != [] {
      assert IsBlank(w[0]);
    }
  }

  lemma NameLenOf(name: string, rest: string)
    requires (forall i :: 0 <= i < |name| ==> IsNameChar(name[i])) && Apart(rest)
    ensures NameLen(name + rest) == |name|
  {
    var s, n := name + rest, NameLen(name + rest);
    assert forall i :: 0 <= i < |name| ==> s[i] == name[i];
    assert |rest| > 0 ==> s[|name|] == rest[0];
  }

  lemma DigitLenOf(digits: string, rest: string)
    requires AllDigits(digits) && Apart(rest)
    ensures DigitLen(digits + rest) == |digits|
  {
    var s, n := digits + rest, DigitLen(digits + rest);
    assert forall i :: 0 <= i < |digits| ==> s[i] == digits[i];
    assert |rest| > 0 ==> s[|digits|] == rest[0];
  }

  // ---- evaluating the text of a tree ----

  lemma ToPrimary(env: Env, w: string, s: string)
    requires Blank(w) && s != [] && !IsBlank(s[0]) && !IsAddOp(s[0])
    ensures Unary(env, w + s) == Primary(env, s)
  {
    SkipOver(w, s);
  }

  lemma NumberOf(env: Env, w: string, digits: string, rest: string)
    requires Blank(w) && digits != [] && AllDigits(digits) && Apart(rest)
    ensures Unary(env, w + digits + rest) == Done(TextValue(Some(digits)), rest)
  {
    var s := digits + rest;
    assert w + digits + rest == w + s;
    ToPrimary(env, w, s);
    DigitLenOf(digits, rest);
    assert s[..|digits|] == digits && s[|digits|..] == rest;
  }

  lemma NameOf(env: Env, w: string, name: string, rest: string)
    requires Blank(w) && IsName(name) && Apart(rest)
    ensures Unary(env, w + name + rest) == Done(NameValue(env, name), rest)
  {
    var s := name + rest;
    assert w + name + rest == w + s;
    ToPrimary(env, w, s);
    NameLenOf(name, rest);
    assert s[..|name|] == name && s[|name|..] == rest;
  }

  lemma RegroupDollar(w: string, name: string, rest: string)
    ensures w + "$" + name + rest == w + ("$" + (name + rest))
  {
  }

  lemma DollarNameOf(env: Env, w: string, name: string, rest: string)
    requires Blank(w) && IsName(name) && Apart(rest)
    ensures Unary(env, w + "$" + name + rest) == Done(NameValue(env, name), rest)
  {
    hide NameValue, NameLen, SkipBlanks, Blank, Unary, Primary;
    var s := "$" + (name + rest);
    RegroupDollar(w, name, rest);
    ToPrimary(env, w, s);
    NameLenOf(name, rest);
    DollarCases(env, s);
    assert s[1..] == name + rest;
    assert (name + rest)[..|name|] == name && (name + rest)[|name|..] == rest;
    assert s[1] == name[0];
  }

  lemma DollarDigitOf(env: Env, w: string, digit: char, rest: string)
    requires Blank(w) && IsDigit(digit)
    ensures Unary(env, w + "$" + [digit] + rest) == Done(TextValue(env.arg(Digit(digit))), rest)
  {
    var s := "$" + [digit] + rest;
    assert w + "$" + [digit] + rest == w + s;
    ToPrimary(env, w, s);
    assert s[2..] == rest;
  }

  lemma SignOf(env: Env, w: string, sign: char, operand: string)
    requires Blank(w) && IsAddOp(sign)
    ensures var r := Unary(env, operand);
            Unary(env, w + [sign] + operand) ==
            if r.Done? then Done(if sign == '-' then Negate(r.v) else r.v, r.rest) else r
  {
    var s := [sign] + operand;
    assert w + [sign] + operand == w + s && s[1..] == operand;
    SkipOver(w, s);
  }

  // An operand without parentheses around operators is read whole, and nothing after it.
  lemma {:induction false} UnaryOf(env: Env, t: Tree, rest: string)
    requires Fits(t, 2) && Apart(rest)
    ensures Unary(env, Text(t) + rest) == Lift(Value(env, t), rest)
    decreases t, 0
  {
    hide TextValue, NameValue, Unary, Blank, IsName;
    match t
    case Number(w, digits) =>
      NumberOf(env, w, digits, rest);
      TextMeans(Some(digits));
    case Name(w, name) =>
      NameOf(env, w, name, rest);
      NameMeans(env, name);
    case DollarName(w, name) =>
      DollarNameOf(env, w, name, rest);
      NameMeans(env, name);
    case DollarDigit(w, digit) =>
      DollarDigitOf(env, w, digit, rest);
      TextMeans(env.arg(Digit(digit)));
    case Group(w, inside, w2) => GroupOf(env, w, inside, w2, rest);
    case Sign(w, sign, operand) =>
      UnaryOf(env, operand, rest);
      ValueInRange(env, operand);
      SignOf(env, w, sign, Text(operand) + rest);
      assert Text(t) + rest == w + [sign] + (Text(operand) + rest);
  }

  lemma {:induction false} GroupOf(env: Env, w: string, inside: Tree, w2: string, rest: string)
    requires Blank(w) && Blank(w2) && Fits(inside, 0)
    ensures Unary(env, Text(Group(w, inside, w2)) + rest) == Lift(Value(env, inside), rest)
    decreases inside, 3
  {
    hide Expr, Text, Value, Fits, Unary, Blank;
    var after := w2 + [')'] + rest;
    var s := "(" + (Text(inside) + after);
    GroupText(w, inside, w2);
    assert Text(Group(w, inside, w2)) + rest == w + s;
    ToPrimary(env, w, s);
    OpIsApart(w2, ')', rest);
    ExprOf(env, inside, after);
    assert s[1..] == Text(inside) + after;
  }

  lemma GroupText(w: string, inside: Tree, w2: string)
    ensures Text(Group(w, inside, w2)) == w + "(" + Text(inside) + w2 + ")"
  {
  }

  lemma BinaryText(left: Tree, w: string, op: char, right: Tree)
    ensures Text(Binary(left, w, op, right)) == Text(left) + w + [op] + Text(right)
  {
  }

  lemma BinaryMeans(env: Env, t: Tree)
    requires t.Binary? && (IsAddOp(t.op) || IsMulOp(t.op))
    ensures Value(env, t.left).Val? && Value(env, t.right).Val? ==>
              Value(env, t) == Apply(t.op, Value(env, t.left).v, Value(env, t.right).v)
    ensures !Value(env, t.left).Val? ==> Value(env, t) == Value(env, t.left)
    ensures Value(env, t.left).Val? && !Value(env, t.right).Val? ==> Value(env, t) == Value(env, t.right)
  {
    hide Apply, Meaning;
    ValueInRange(env, t.left);
    ValueInRange(env, t.right);
    if Value(env, t.left).Val? && Value(env, t.right).Val? {
      ApplyMeans(t.op, Value(env, t.left).v, Value(env, t.right).v);
    }
  }

  // After a product or a quotient its loop goes on with the value so far: grouping to the left.
  lemma {:induction false} TermOf(env: Env, t: Tree, rest: string)
    requires Fits(t, 1) && Apart(rest)
    ensures Term(env, Text(t) + rest)
         == if Value(env, t).Val? then TermRest(env, Value(env, t).v, rest) else Lift(Value(env, t), rest)
    decreases t, 1
  {
    hide Text, Unary, Apart, NoMulOp, Apply, Meaning;
    if t.Binary? {
      var tail := Text(t.right) + rest;
      var after := t.w + [t.op] + tail;
      BinaryText(t.left, t.w, t.op, t.right);
      assert Text(t) + rest == Text(t.left) + after;
      OpIsApart(t.w, t.op, tail);
      TermOf(env, t.left, after);
      UnaryOf(env, t.right, rest);
      BinaryMeans(env, t);
      assert ([t.op] + tail)[1..] == tail;
    } else {
      UnaryOf(env, t, rest);
    }
  }

  lemma {:induction false} ExprOf(env: Env, t: Tree, rest: string)
    requires Fits(t, 0) && Apart(rest) && NoMulOp(rest)
    ensures Expr(env, Text(t) + rest)
         == if Value(env, t).Val? then ExprRest(env, Value(env, t).v, rest) else Lift(Value(env, t), rest)
    decreases t, 2
  {
    hide Text, Term, Apart, Apply, Meaning;
    if t.Binary? && IsAddOp(t.op) {
      var tail := Text(t.right) + rest;
      var after := t.w + [t.op] + tail;
      BinaryText(t.left, t.w, t.op, t.right);
      assert Text(t) + rest == Text(t.left) + after;
      OpIsApart(t.w, t.op, tail);
      ExprOf(env, t.left, after);
      TermOf(env, t.right, rest);
      BinaryMeans(env, t);
      assert ([t.op] + tail)[1..] == tail;
    } else {
      TermOf(env, t, rest);
    }
  }

  // $((text)) for the text of a tree, with any blanks inside, before and after: the value of the
  // tree, or error 1 when the first operation without a value divides by zero.
  lemma EvalOfTree(env: Env, t: Tree, w: string)
    requires Fits(t, 0) && Blank(w)
    ensures Eval(env, Text(t) + w)
         == match Value(env, t)
            case Val(v) => Some(Answer(0, v))
            case DivZero => Some(Answer(1, 0))
            case Undefined => None
  {
    hide Text, Value, Fits, Apart;
    var text := Text(t) + w;
    TrailingBlanks(w);
    ExprOf(env, t, w);
    SkipFirst(env, text);
  }

  lemma TrailingBlanks(w: string)
    requires Blank(w)
    ensures Apart(w) && NoMulOp(w) && SkipBlanks(w) == []
  {
    SkipOver(w, []);
    assert w + [] == w;
    assert w != [] ==> IsBlank(w[0]);
  }

  lemma SkipFirst(env: Env, text: string)
    ensures Expr(env, SkipBlanks(text)) == Expr(env, text)
    ensures SkipBlanks(text) == [] ==> Expr(env, text) == Failed(2)
  {
    var s := SkipBlanks(text);
    assert SkipBlanks(s) == s;
    assert Unary(env, s) == Unary(env, text);
  }

  // ---- and conversely: what is evaluated is the text of a tree ----

  // Blanks `w` and the text s after them make the tree t and leave what the evaluator leaves.
  predicate Reads(env: Env, w: string, s: string, r: Parsed, t: Tree) {
    r.Done? && Fits(t, 2) && Value(env, t) == Val(r.v) && w + s == Text(t) + r.rest
  }

  lemma NumberTree(env: Env, w: string, s: string) returns (t: Tree)
    requires Blank(w) && s != [] && IsDigit(s[0])
    ensures Reads(env, w, s, Primary(env, s), t)
  {
    hide TextValue;
    var n := DigitLen(s);
    t := Number(w, s[..n]);
    TextMeans(Some(s[..n]));
    assert w + s == w + s[..n] + s[n..];
  }

  lemma NameTree(env: Env, w: string, s: string) returns (t: Tree)
    requires Blank(w) && s != [] && IsNameChar(s[0]) && !IsDigit(s[0])
    ensures Reads(env, w, s, Primary(env, s), t)
  {
    hide NameValue;
    var n := NameLen(s);
    t := Name(w, s[..n]);
    NameMeans(env, s[..n]);
    assert s[..n][0] == s[0];
    assert w + s == w + s[..n] + s[n..];
  }

  lemma DollarTree(env: Env, w: string, s: string) returns (t: Tree)
    requires Blank(w) && s != [] && s[0] == '$' && Primary(env, s).Done?
    ensures Reads(env, w, s, Primary(env, s), t)
  {
    hide NameValue, TextValue;
    if |s| > 1 && IsDigit(s[1]) {
      t := DollarDigit(w, s[1]);
      TextMeans(env.arg(Digit(s[1])));
      assert w + s == w + "$" + [s[1]] + s[2..];
    } else {
      var n := NameLen(s[1..]);
      t := DollarName(w, s[1..n + 1]);
      NameMeans(env, s[1..n + 1]);
      assert s[1..n + 1] == s[1..][..n] && s[1..n + 1][0] == s[1];
      assert w + s == w + "$" + s[1..n + 1] + s[n + 1..];
    }
  }

  lemma {:induction false} GroupTree(env: Env, w: string, s: string) returns (t: Tree)
    requires Blank(w) && s != [] && s[0] == '(' && Primary(env, s).Done?
    ensures Reads(env, w, s, Primary(env, s), t)
    decreases |s|, 0
  {
    hide Expr, Blank;
    var inside, gap := ExprTree(env, s[1..]);
    var r := Expr(env, s[1..]);
    var more := Skipped(r.rest);
    BlankBoth(gap, more);
    t := Group(w, inside, gap + more);
    GroupText(w, inside, gap + more);
    var rest := SkipBlanks(r.rest)[1..];
    assert SkipBlanks(r.rest) == ")" + rest;
    assert s == "(" + s[1..];
    RegroupGroup(w, Text(inside), gap, more, rest);
  }

  lemma RegroupGroup(w: string, a: string, b: string, c: string, rest: string)
    ensures w + ("(" + (a + b + (c + (")" + rest)))) == (w + "(" + a + (b + c) + ")") + rest
  {
  }

  lemma RegroupBlanks(a: string, b: string, c: string)
    ensures a + b + c == a + (b + c)
  {
  }

  lemma RegroupSign(w: string, sign: string, a: string, rest: string)
    ensures w + (sign + (a + rest)) == (w + sign + a) + rest
  {
  }

  lemma RegroupStop(a: string, b: string, c: string, d: string)
    ensures a + b + (c + d) == a + (b + c) + d
  {
  }

  lemma RegroupBinary(l: string, a: string, b: string, op: string, r: string, rest: string)
    ensures l + a + (b + (op + (r + rest))) == (l + (a + b) + op + r) + rest
  {
  }

  lemma BlankBoth(a: string, b: string)
    requires Blank(a) && Blank(b)
    ensures Blank(a + b)
  {
  }

  lemma {:induction false} PrimaryTree(env: Env, text: string) returns (t: Tree)
    requires Primary(env, text).Done?
    ensures var r := Primary(env, text); Fits(t, 2) && Value(env, t) == Val(r.v) && text == Text(t) + r.rest
    decreases |text|, 1
  {
    hide Value, Fits, Text, Expr;
    var w := Skipped(text);
    var s := SkipBlanks(text);
    FirstBlanks(env, text);
    if s[0] == '(' {
      t := GroupTree(env, w, s);
    } else if s[0] == '$' {
      t := DollarTree(env, w, s);
    } else if IsDigit(s[0]) {
      t := NumberTree(env, w, s);
    } else {
      t := NameTree(env, w, s);
    }
  }

  lemma SignFits(env: Env, w: string, sign: char, operand: Tree)
    requires Blank(w) && IsAddOp(sign) && Fits(operand, 2)
    ensures var t := Sign(w, sign, operand);
            && Fits(t, 2) && Text(t) == w + [sign] + Text(operand)
            && (Value(env, operand).Val? ==>
                  var v := Value(env, operand).v; Value(env, t) == Val(if sign == '-' then Negate(v) else v))
  {
    ValueInRange(env, operand);
  }

  lemma {:induction false} UnaryTree(env: Env, text: string) returns (t: Tree)
    requires Unary(env, text).Done?
    ensures var r := Unary(env, text); Fits(t, 2) && Value(env, t) == Val(r.v) && text == Text(t) + r.rest
    decreases |text|, 2
  {
    hide Primary, Text, Fits, Value, Blank, Negate;
    var w := Skipped(text);
    var s := SkipBlanks(text);
    if s != [] && IsAddOp(s[0]) {
      var operand := UnaryTree(env, s[1..]);
      t := Sign(w, s[0], operand);
      SignFits(env, w, s[0], operand);
      assert s == [s[0]] + s[1..];
      RegroupSign(w, [s[0]], Text(operand), Unary(env, s[1..]).rest);
    } else {
      FirstBlanks(env, text);
      t := PrimaryTree(env, text);
    }
  }

  lemma FirstBlanks(env: Env, text: string)
    ensures Primary(env, SkipBlanks(text)) == Primary(env, text)
  {
    assert SkipBlanks(SkipBlanks(text)) == SkipBlanks(text);
  }

  // `w` are the blanks the loop has passed over at its end.
  lemma {:induction false} TermTree(env: Env, text: string) returns (t: Tree, w: string)
    requires Term(env, text).Done?
    ensures var r := Term(env, text);
            Fits(t, 1) && Blank(w) && Value(env, t) == Val(r.v) && text == Text(t) + w + r.rest
    decreases |text|, 4
  {
    hide Text, Value, Unary, TermRest;
    var first := UnaryTree(env, text);
    t, w := TermRestTree(env, first, Unary(env, text).rest);
  }

  lemma MulFits(env: Env, left: Tree, w: string, op: char, right: Tree)
    requires Fits(left, 1) && Blank(w) && IsMulOp(op) && Fits(right, 2)
    ensures Fits(Binary(left, w, op, right), 1)
    ensures Value(env, left).Val? && Value(env, right).Val? ==>
              Value(env, Binary(left, w, op, right)) == Apply(op, Value(env, left).v, Value(env, right).v)
  {
    BinaryMeans(env, Binary(left, w, op, right));
  }

  lemma AddFits(env: Env, left: Tree, w: string, op: char, right: Tree)
    requires Fits(left, 0) && Blank(w) && IsAddOp(op) && Fits(right, 1)
    ensures Fits(Binary(left, w, op, right), 0)
    ensures Value(env, left).Val? && Value(env, right).Val? ==>
              Value(env, Binary(left, w, op, right)) == Apply(op, Value(env, left).v, Value(env, right).v)
  {
    BinaryMeans(env, Binary(left, w, op, right));
  }

  lemma {:induction false} TermRestTree(env: Env, left: Tree, text: string) returns (t: Tree, w: string)
    requires Fits(left, 1) && Value(env, left).Val? && TermRest(env, Value(env, left).v, text).Done?
    ensures var r := TermRest(env, Value(env, left).v, text);
            Fits(t, 1) && Blank(w) && Value(env, t) == Val(r.v) && Text(left) + text == Text(t) + w + r.rest
    decreases |text|, 3
  {
    hide Text, Unary, Fits, Value, Apply, Blank;
    var gap := Skipped(text);
    var s := SkipBlanks(text);
    if s == [] || !IsMulOp(s[0]) {
      t, w := left, gap;
      RegroupBlanks(Text(left), gap, s);
    } else {
      var right := UnaryTree(env, s[1..]);
      var both := Binary(left, gap, s[0], right);
      BinaryText(left, gap, s[0], right);
      MulFits(env, left, gap, s[0], right);
      var rest := Unary(env, s[1..]).rest;
      t, w := TermRestTree(env, both, rest);
      assert s == [s[0]] + s[1..];
      RegroupBinary(Text(left), [], gap, [s[0]], Text(right), rest);
      assert Text(left) + [] == Text(left) && [] + gap == gap;
    }
  }

  lemma {:induction false} ExprTree(env: Env, text: string) returns (t: Tree, w: string)
    requires Expr(env, text).Done?
    ensures var r := Expr(env, text);
            Fits(t, 0) && Blank(w) && Value(env, t) == Val(r.v) && text == Text(t) + w + r.rest
    decreases |text|, 6
  {
    hide Text, Value, Term, ExprRest;
    var first, gap := TermTree(env, text);
    FitsMore(first);
    t, w := ExprRestTree(env, first, gap, Term(env, text).rest);
  }

  lemma FitsMore(t: Tree)
    requires Fits(t, 1)
    ensures Fits(t, 0)
  {
  }

  lemma {:induction false} ExprRestTree(env: Env, left: Tree, gap: string, text: string) returns (t: Tree, w: string)
    requires Fits(left, 0) && Blank(gap) && Value(env, left).Val? && ExprRest(env, Value(env, left).v, text).Done?
    ensures var r := ExprRest(env, Value(env, left).v, text);
            Fits(t, 0) && Blank(w) && Value(env, t) == Val(r.v) && Text(left) + gap + text == Text(t) + w + r.rest
    decreases |text|, 5
  {
    hide Text, Term, Fits, Value, Apply, Blank;
    var more := Skipped(text);
    BlankBoth(gap, more);
    var s := SkipBlanks(text);
    if s == [] || !IsAddOp(s[0]) {
      t, w := left, gap + more;
      RegroupStop(Text(left), gap, more, s);
    } else {
      var right, after := TermTree(env, s[1..]);
      var both := Binary(left, gap + more, s[0], right);
      BinaryText(left, gap + more, s[0], right);
      AddFits(env, left, gap + more, s[0], right);
      var rest := Term(env, s[1..]).rest;
      t, w := ExprRestTree(env, both, after, rest);
      assert s == [s[0]] + s[1..];
      RegroupBinary(Text(left), gap, more, [s[0]], Text(right), after + rest);
      RegroupBlanks(Text(right), after, rest);
      RegroupBlanks(Text(both), after, rest);
    }
  }

  // The text is that of a tree with value v, blanks after it.
  ghost predicate Denotes(env: Env, text: string, v: int) {
    exists t, w :: Fits(t, 0) && Blank(w) && text == Text(t) + w && Value(env, t) == Val(v)
  }

  // The evaluator returns 0 exactly on blank texts and on texts of trees that have a value, and
  // then it gives that value.
  lemma EvalExactly(env: Env, text: string, v: int)
    ensures Eval(env, text) == Some(Answer(0, v)) <==> (Blank(text) && v == 0) || Denotes(env, text, v)
  {
    hide Text, Value, Fits, Expr, Denotes, Eval;
    if Blank(text) && v == 0 {
      TrailingBlanks(text);
      EvalBlank(env, text);
    }
    if Denotes(env, text, v) {
      EvalDenoted(env, text, v);
    }
    if Eval(env, text) == Some(Answer(0, v)) {
      Evaluated(env, text, v);
    }
  }

  lemma EvalBlank(env: Env, text: string)
    requires SkipBlanks(text) == []
    ensures Eval(env, text) == Some(Answer(0, 0))
  {
  }

  lemma EvalDenoted(env: Env, text: string, v: int)
    requires Denotes(env, text, v)
    ensures Eval(env, text) == Some(Answer(0, v))
  {
    hide Text, Value, Fits, Expr, Eval;
    var t, w :| Fits(t, 0) && Blank(w) && text == Text(t) + w && Value(env, t) == Val(v);
    EvalOfTree(env, t, w);
  }

  lemma Evaluated(env: Env, text: string, v: int)
    requires Eval(env, text) == Some(Answer(0, v))
    ensures (Blank(text) && v == 0) || Denotes(env, text, v)
  {
    hide Text, Value, Fits, Expr, Blank;
    var lead := Skipped(text);
    var s := SkipBlanks(text);
    if s == [] {
      assert text == lead;
    } else {
      SkipFirst(env, text);
      var t, w := ExprTree(env, text);
      var last := Skipped(Expr(env, text).rest);
      BlankBoth(w, last);
      assert last + [] == last;
      RegroupBlanks(Text(t), w, last);
    }
  }
}
