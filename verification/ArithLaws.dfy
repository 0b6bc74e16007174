// $(( )) on numbers and names as a script writes them: the operators are those of the integers, with
// the usual precedence, and names and positionals stand for the numbers they hold.
module ArithLaws {
  import opened CStrings
  import opened Int64
  import opened Arith
  import opened ArithTrees

  // The tree of a number.
  function Numbered(v: int): Tree {
    if v < 0 then Sign("", '-', Number("", Show(-v))) else Number("", Show(v))
  }

  lemma ShowIs(m: nat)
    requires m <= INT64_MAX
    ensures Show(m) != [] && AllDigits(Show(m)) && Numeral(Some(Show(m))) == m
  {
    hide ReadInt;
    ShowThenRead(m);
  }

  lemma NumberedIs(env: Env, v: int)
    requires -INT64_MAX <= v <= INT64_MAX
    ensures Fits(Numbered(v), 2) && Text(Numbered(v)) == Shown(v) && Value(env, Numbered(v)) == Val(v)
  {
    hide Numeral, Show, AllDigits;
    var m := Abs(v);
    ShowIs(m);
    assert "" + Show(m) == Show(m);
    if v < 0 {
      assert "" + ['-'] + Show(m) == "-" + Show(m);
    }
  }

  lemma BinaryPlain(left: Tree, op: char, right: Tree)
    ensures Text(Binary(left, "", op, right)) == Text(left) + [op] + Text(right)
  {
    hide Text;
    BinaryText(left, "", op, right);
    assert Text(left) + "" == Text(left);
  }

  lemma SumMeaning(a: int, b: int)
    ensures InRange(a + b) ==> Meaning('+', a, b) == Val(a + b)
    ensures InRange(a - b) ==> Meaning('-', a, b) == Val(a - b)
  {
  }

  lemma ProductMeaning(a: int, b: int)
    ensures InRange(a * b) ==> Meaning('*', a, b) == Val(a * b)
  {
  }

  lemma BothNumbered(env: Env, a: int, op: char, b: int)
    requires -INT64_MAX <= a <= INT64_MAX && -INT64_MAX <= b <= INT64_MAX && (IsAddOp(op) || IsMulOp(op))
    ensures var t := Binary(Numbered(a), "", op, Numbered(b));
            && Fits(t, if IsAddOp(op) then 0 else 1) && Fits(t, 0) && Text(t) == Shown(a) + [op] + Shown(b)
            && Value(env, t) == Meaning(op, a, b)
  {
    NumberedIs(env, a);
    NumberedIs(env, b);
    Looser(Numbered(a));
    Looser(Numbered(b));
    hide Numbered, Meaning, Text;
    BinaryPlain(Numbered(a), op, Numbered(b));
  }

  lemma Looser(t: Tree)
    ensures Fits(t, 2) ==> Fits(t, 1)
    ensures Fits(t, 1) ==> Fits(t, 0)
  {
  }

  // + - and * are those of the integers, as long as the result fits.
  lemma RingOperators(env: Env, a: int, b: int)
    requires -INT64_MAX <= a <= INT64_MAX && -INT64_MAX <= b <= INT64_MAX
    ensures InRange(a + b) ==> Eval(env, Shown(a) + "+" + Shown(b)) == Some(Answer(0, a + b))
    ensures InRange(a - b) ==> Eval(env, Shown(a) + "-" + Shown(b)) == Some(Answer(0, a - b))
    ensures InRange(a * b) ==> Eval(env, Shown(a) + "*" + Shown(b)) == Some(Answer(0, a * b))
  {
    hide Eval, Shown, Meaning;
    OneOperator(env, a, '+', b);
    OneOperator(env, a, '-', b);
    OneOperator(env, a, '*', b);
    SumMeaning(a, b);
    ProductMeaning(a, b);
    assert "+" == ['+'] && "-" == ['-'] && "*" == ['*'];
  }

  function AnswerOf(v: Val): Option<Answer> {
    match v
    case Val(n) => Some(Answer(0, n))
    case DivZero => Some(Answer(1, 0))
    case Undefined => None
  }

  lemma OneOperator(env: Env, a: int, op: char, b: int)
    requires -INT64_MAX <= a <= INT64_MAX && -INT64_MAX <= b <= INT64_MAX && (IsAddOp(op) || IsMulOp(op))
    ensures Eval(env, Shown(a) + [op] + Shown(b)) == AnswerOf(Meaning(op, a, b))
  {
    hide Eval, Meaning, Numbered;
    BothNumbered(env, a, op, b);
    var t := Binary(Numbered(a), "", op, Numbered(b));
    EvalOfTree(env, t, "");
    assert Text(t) + "" == Text(t);
  }

  // / and % are the quotient and the remainder of the truncating division, and dividing by zero is
  // error 1.
  lemma DivisionOperators(env: Env, a: int, b: int) returns (q: int, r: int)
    requires -INT64_MAX <= a <= INT64_MAX && -INT64_MAX <= b <= INT64_MAX
    ensures b == 0 ==> Eval(env, Shown(a) + "/" + Shown(b)) == Some(Answer(1, 0))
    ensures b == 0 ==> Eval(env, Shown(a) + "%" + Shown(b)) == Some(Answer(1, 0))
    ensures b != 0 ==> Eval(env, Shown(a) + "/" + Shown(b)) == Some(Answer(0, q))
    ensures b != 0 ==> Eval(env, Shown(a) + "%" + Shown(b)) == Some(Answer(0, r))
    ensures b != 0 ==> a == q * b + r && Abs(r) < Abs(b) && (r != 0 ==> (r < 0) == (a < 0))
  {
    hide Eval, Shown;
    q, r := 0, 0;
    OneOperator(env, a, '/', b);
    OneOperator(env, a, '%', b);
    assert "/" == ['/'] && "%" == ['%'];
    if b != 0 {
      q, r := Over(a, b), a - Over(a, b) * b;
      OverFits(a, b);
      DivisionTruncates(a, b);
      assert Quotient(a, b) == q;
    }
  }

  predicate Small(v: int) {
    -INT64_MAX <= v <= INT64_MAX
  }

  lemma EvalIs(env: Env, t: Tree, text: string, v: int)
    requires Fits(t, 0) && Text(t) == text && Value(env, t) == Val(v)
    ensures Eval(env, text) == Some(Answer(0, v))
  {
    hide Eval, Text, Fits, Value;
    EvalOfTree(env, t, "");
    assert text + "" == text;
  }

  // -a
  lemma Negated(env: Env, a: int)
    requires Small(a)
    ensures Eval(env, "-" + Shown(a)) == Some(Answer(0, -a))
  {
    NumberedIs(env, a);
    hide Eval, Numbered, Text, Shown;
    var t := Sign("", '-', Numbered(a));
    SignPlain('-', Numbered(a));
    assert "-" == ['-'];
    EvalIs(env, t, "-" + Shown(a), -a);
  }

  lemma SignPlain(sign: char, operand: Tree)
    ensures Text(Sign("", sign, operand)) == [sign] + Text(operand)
  {
    assert "" + [sign] == [sign];
  }

  // The text of an operation evaluates to its meaning.
  lemma EvalBinary(env: Env, left: Tree, n: int, op: char, right: Tree, m: int, v: int)
    requires if IsAddOp(op) then Fits(left, 0) && Fits(right, 1) else IsMulOp(op) && Fits(left, 1) && Fits(right, 2)
    requires Value(env, left) == Val(n) && Value(env, right) == Val(m) && Meaning(op, n, m) == Val(v)
    ensures Eval(env, Text(left) + [op] + Text(right)) == Some(Answer(0, v))
  {
    hide Eval, Meaning, Text;
    BinaryPlain(left, op, right);
    EvalIs(env, Binary(left, "", op, right), Text(left) + [op] + Text(right), v);
  }

  lemma Marks()
    ensures "+" == ['+'] && "-" == ['-'] && "*" == ['*']
  {
  }

  // a + b * c is a + (b * c).
  lemma SumOfProduct(env: Env, a: int, b: int, c: int)
    requires Small(a) && Small(b) && Small(c) && InRange(b * c) && InRange(a + b * c)
    ensures Eval(env, Shown(a) + "+" + (Shown(b) + "*" + Shown(c))) == Some(Answer(0, a + b * c))
  {
    hide Eval, Numbered, Meaning, Text, Shown, Fits, Value;
    NumberedIs(env, a);
    BothNumbered(env, b, '*', c);
    Looser(Numbered(a));
    ProductMeaning(b, c);
    SumMeaning(a, b * c);
    Marks();
    EvalBinary(env, Numbered(a), a, '+', Binary(Numbered(b), "", '*', Numbered(c)), b * c, a + b * c);
  }

  // a - b - c is (a - b) - c.
  lemma LeftDifference(env: Env, a: int, b: int, c: int)
    requires Small(a) && Small(b) && Small(c) && InRange(a - b) && InRange(a - b - c)
    ensures Eval(env, Shown(a) + "-" + Shown(b) + "-" + Shown(c)) == Some(Answer(0, a - b - c))
  {
    hide Eval, Numbered, Meaning, Text, Shown, Fits, Value;
    NumberedIs(env, c);
    BothNumbered(env, a, '-', b);
    Looser(Numbered(c));
    SumMeaning(a, b);
    SumMeaning(a - b, c);
    Marks();
    EvalBinary(env, Binary(Numbered(a), "", '-', Numbered(b)), a - b, '-', Numbered(c), c, a - b - c);
  }

  // Parentheses come first.
  lemma ProductOfSum(env: Env, a: int, b: int, c: int)
    requires Small(a) && Small(b) && Small(c) && InRange(a + b) && InRange((a + b) * c)
    ensures Eval(env, "(" + (Shown(a) + "+" + Shown(b)) + ")" + "*" + Shown(c)) == Some(Answer(0, (a + b) * c))
  {
    hide Eval, Numbered, Meaning, Text, Shown, Fits, Value;
    NumberedIs(env, c);
    BothNumbered(env, a, '+', b);
    SumMeaning(a, b);
    ProductMeaning(a + b, c);
    Marks();
    var sum := Binary(Numbered(a), "", '+', Numbered(b));
    GroupPlain(sum);
    GroupFits(env, sum, a + b);
    EvalBinary(env, Group("", sum, ""), a + b, '*', Numbered(c), c, (a + b) * c);
  }

  lemma GroupFits(env: Env, inside: Tree, n: int)
    requires Fits(inside, 0) && Value(env, inside) == Val(n)
    ensures Fits(Group("", inside, ""), 1) && Value(env, Group("", inside, "")) == Val(n)
  {
  }

  lemma GroupPlain(inside: Tree)
    ensures Text(Group("", inside, "")) == "(" + Text(inside) + ")"
  {
    hide Text;
    GroupText("", inside, "");
    var text := Text(inside);
    assert "" + "(" == "(" && ("(" + text) + "" == "(" + text;
  }

  // A name, bare or after $, is the number it holds, 0 when it holds none; $1 likewise.
  lemma NamesRead(env: Env, name: string, v: int)
    requires IsName(name) && |name| <= 255
    ensures env.vars(name) == Some(Shown(v)) && InRange(v) ==>
              Eval(env, name) == Some(Answer(0, v)) && Eval(env, "$" + name) == Some(Answer(0, v))
    ensures env.vars(name).None? ==>
              Eval(env, name) == Some(Answer(0, 0)) && Eval(env, "$" + name) == Some(Answer(0, 0))
    ensures env.arg(1) == Some(Shown(v)) && InRange(v) ==> Eval(env, "$1") == Some(Answer(0, v))
    ensures env.arg(1).None? ==> Eval(env, "$1") == Some(Answer(0, 0))
  {
    hide Eval, IsName, Shown;
    var a, b, d := Name("", name), DollarName("", name), DollarDigit("", '1');
    assert "" + name == name && "" + "$" + name == "$" + name && "" + "$" + ['1'] == "$1";
    var n := Numeral(env.vars(name));
    EvalIs(env, a, name, n);
    EvalIs(env, b, "$" + name, n);
    EvalIs(env, d, "$1", Numeral(env.arg(1)));
    if InRange(v) {
      ShowThenRead(v);
    }
  }

  // ---- what is no expression ----

  // Something that is no operator after an expression is error 2, as in 1) or a = b.
  lemma JunkFails(env: Env, t: Tree, w: string, c: char, rest: string)
    requires Fits(t, 0) && Value(env, t).Val? && Blank(w)
    requires !IsNameChar(c) && !IsBlank(c) && !IsAddOp(c) && !IsMulOp(c)
    ensures Eval(env, Text(t) + (w + [c] + rest)) == Some(Answer(2, 0))
  {
    hide Text, Value, Fits, Expr, Blank;
    var after := w + [c] + rest;
    assert after == w + ([c] + rest);
    SkipOver(w, [c] + rest);
    FirstOf(w, c, rest);
    ExprOf(env, t, after);
    SkipFirst(env, Text(t) + after);
    assert ExprRest(env, Value(env, t).v, after) == Done(Value(env, t).v, [c] + rest);
  }

  lemma FirstOf(w: string, c: char, rest: string)
    requires Blank(w) && !IsNameChar(c)
    ensures Apart(w + [c] + rest)
  {
    assert w != [] ==> IsBlank(w[0]);
  }

  // So is an operator with nothing behind it.
  lemma DanglingFails(env: Env, t: Tree, w: string, op: char, w2: string)
    requires Value(env, t).Val? && Blank(w) && Blank(w2)
    requires if IsAddOp(op) then Fits(t, 0) else IsMulOp(op) && Fits(t, 1)
    ensures Eval(env, Text(t) + (w + [op] + w2)) == Some(Answer(2, 0))
  {
    hide Text, Value, Fits, Expr, Term, Unary, Apply, Blank;
    var after := w + [op] + w2;
    OpIsApart(w, op, w2);
    NothingToRead(env, w2);
    assert ([op] + w2)[1..] == w2;
    if IsAddOp(op) {
      ExprOf(env, t, after);
      assert ExprRest(env, Value(env, t).v, after) == Failed(2);
    } else {
      TermOf(env, t, after);
      assert TermRest(env, Value(env, t).v, after) == Failed(2);
      TermIsExpr(env, Text(t) + after);
    }
    SkipFirst(env, Text(t) + after);
    assert Text(t) + after == (Text(t) + w) + [op] + w2;
    NotBlank(Text(t) + w, op, w2);
  }

  lemma {:induction false} NotBlank(a: string, c: char, b: string)
    requires !IsBlank(c)
    ensures SkipBlanks(a + [c] + b) != []
    decreases |a|
  {
    var s := a + [c] + b;
    if a != [] {
      assert s[1..] == a[1..] + [c] + b;
      NotBlank(a[1..], c, b);
    }
  }

  lemma NothingToRead(env: Env, w: string)
    requires Blank(w)
    ensures Unary(env, w) == Failed(2) && Term(env, w) == Failed(2)
  {
    TrailingBlanks(w);
  }

  lemma TermIsExpr(env: Env, text: string)
    requires Term(env, text) == Failed(2)
    ensures Expr(env, text) == Failed(2)
  {
  }

  // And so is a parenthesis that is not closed.
  lemma UnclosedFails(env: Env, inside: Tree, w: string)
    requires Fits(inside, 0) && Value(env, inside).Val? && Blank(w)
    ensures Eval(env, "(" + (Text(inside) + w)) == Some(Answer(2, 0))
  {
    hide Text, Value, Fits, Blank, Expr;
    var s := "(" + (Text(inside) + w);
    TrailingBlanks(w);
    ExprOf(env, inside, w);
    assert s[1..] == Text(inside) + w && SkipBlanks(s) == s;
    assert Primary(env, s) == Failed(2);
    assert Unary(env, s) == Failed(2);
    assert Term(env, s) == Failed(2);
    TermIsExpr(env, s);
  }
}
