// The evaluator as the code runs it: one context with a moving pointer and an error code.
module ArithEval {
  import opened CStrings
  import opened Int64
  import opened Arith

  // arith_ctx_t. A method returns 0 or -1 and the new content of the caller's output variable.
  // What C leaves undefined is outside the preconditions, and no step reaches it.
  class Context {
    const text: string
    const env: Env
    var p: nat
    var err: int

    constructor (text: string, env: Env)
      ensures this.text == text && this.env == env && p == 0 && err == 0
    {
      this.text, this.env, p, err := text, env, 0, 0;
    }

    ghost predicate Valid()
      reads this
    {
      p <= |text|
    }

    ghost function Rest(): string
      requires Valid()
      reads this
    {
      text[p..]
    }

    // What a parse that the rule describes by r has done to the context.
    ghost predicate Shows(r: Parsed, rc: int, out: int)
      requires Valid()
      reads this
    {
      match r
      case Done(v, rest) => rc == 0 && out == v && Rest() == rest
      case Failed(e) => rc == -1 && err == e
      case NoMeaning => true
    }

    method SkipWs()
      requires Valid()
      modifies this`p
      ensures Valid() && Rest() == SkipBlanks(old(Rest())) && p >= old(p)
    {
      while p < |text| && IsBlank(text[p])
        invariant Valid() && SkipBlanks(Rest()) == SkipBlanks(old(Rest())) && p >= old(p)
      {
        p := p + 1;
      }
    }

    // The name or the digits at the pointer.
    method ScanName() returns (name: string)
      requires Valid()
      modifies this`p
      ensures Valid() && p == old(p) + NameLen(old(Rest()))
      ensures name == old(Rest())[..NameLen(old(Rest()))] && Rest() == old(Rest())[NameLen(old(Rest()))..]
    {
      var start := p;
      while p < |text| && IsNameChar(text[p])
        invariant start <= p <= |text|
        invariant NameLen(text[start..]) == p - start + NameLen(text[p..])
      {
        p := p + 1;
      }
      name := text[start..p];
    }

    method ScanDigits() returns (digits: string)
      requires Valid()
      modifies this`p
      ensures Valid() && p == old(p) + DigitLen(old(Rest()))
      ensures digits == old(Rest())[..DigitLen(old(Rest()))] && Rest() == old(Rest())[DigitLen(old(Rest()))..]
    {
      var start := p;
      while p < |text| && IsDigit(text[p])
        invariant start <= p <= |text|
        invariant DigitLen(text[start..]) == p - start + DigitLen(text[p..])
      {
        p := p + 1;
      }
      digits := text[start..p];
    }

    // src/mid/expand.c:345
    method ValueFromText(s: Option<string>, out: int) returns (rc: int, result: int)
      ensures rc == 0 && result == TextValue(s)
    {
      if s.None? || s.value == [] {
        return 0, 0;
      }
      var failed;
      failed, result := ParseI64(s.value, out);
      if failed != 0 {
        result := 0;
      }
      rc := 0;
    }

    // A name buffer holds 255 characters.
    method LookUp(name: string, out: int) returns (rc: int, result: int)
      ensures rc == 0 && result == NameValue(env, name)
    {
      var n := |name|;
      if n >= 256 {
        n := 255;
      }
      assert name[..|name|] == name;
      rc, result := ValueFromText(env.vars(name[..n]), out);
    }

    // src/mid/expand.c:359
    method ParsePrimary(out: int) returns (rc: int, result: int)
      requires Valid() && !Primary(env, Rest()).NoMeaning?
      modifies this
      ensures Valid() && Shows(Primary(env, old(Rest())), rc, result)
      decreases |text| - p, 1
    {
      hide TextValue, NameValue, Expr, NameLen, DigitLen;
      SkipWs();
      if p >= |text| {
        err := 2;
        return -1, 0;
      }
      if text[p] == '(' {
        rc, result := ParseGroup(out);
        return;
      }
      if text[p] == '$' {
        rc, result := ParseDollar(out);
        return;
      }
      if IsNameChar(text[p]) && !IsDigit(text[p]) {
        var name := ScanName();
        rc, result := LookUp(name, out);
        return;
      }
      if IsDigit(text[p]) {
        var digits := ScanDigits();
        rc, result := ValueFromText(Some(digits), out);
        return;
      }
      err := 2;
      return -1, 0;
    }

    // The branch of ParsePrimary for a parenthesis.
    method ParseGroup(out: int) returns (rc: int, result: int)
      requires Valid() && p < |text| && text[p] == '(' && !Primary(env, Rest()).NoMeaning?
      modifies this
      ensures Valid() && Shows(Primary(env, old(Rest())), rc, result)
      decreases |text| - p, 0
    {
      hide TextValue, NameValue, Expr, NameLen, DigitLen;
      ghost var s := Rest();
      p := p + 1;
      assert Rest() == s[1..];
      rc, result := ParseExpr(out);
      if rc != 0 {
        return -1, result;
      }
      SkipWs();
      if p >= |text| || text[p] != ')' {
        err := 2;
        return -1, result;
      }
      p := p + 1;
      return 0, result;
    }

    // The branch of ParsePrimary for $.
    method ParseDollar(out: int) returns (rc: int, result: int)
      requires Valid() && p < |text| && text[p] == '$'
      modifies this
      ensures Valid() && Shows(Primary(env, old(Rest())), rc, result)
    {
      hide TextValue, NameValue, Primary, NameLen, DigitLen;
      ghost var s := Rest();
      DollarCases(env, s);
      p := p + 1;
      assert Rest() == s[1..];
      if p < |text| && IsDigit(text[p]) {
        var digit := text[p];
        p := p + 1;
        assert Rest() == s[2..];
        rc, result := ValueFromText(env.arg(Digit(digit)), out);
        return;
      }
      if p < |text| && IsNameChar(text[p]) && !IsDigit(text[p]) {
        var name := ScanName();
        rc, result := LookUp(name, out);
        return;
      }
      err := 2;
      return -1, 0;
    }

    // src/mid/expand.c:436
    method ParseUnary(out: int) returns (rc: int, result: int)
      requires Valid() && !Unary(env, Rest()).NoMeaning?
      modifies this
      ensures Valid() && Shows(Unary(env, old(Rest())), rc, result)
      decreases |text| - p, 2
    {
      hide Primary;
      SkipWs();
      if p < |text| && (text[p] == '+' || text[p] == '-') {
        var op := text[p];
        p := p + 1;
        var v;
        rc, v := ParseUnary(0);
        if rc != 0 {
          return -1, out;
        }
        if op == '-' {
          result := if v == INT64_MIN then INT64_MIN else -v;
        } else {
          result := v;
        }
        return 0, result;
      }
      rc, result := ParsePrimary(out);
    }

    // src/mid/expand.c:461
    method ParseTerm(out: int) returns (rc: int, result: int)
      requires Valid() && !Term(env, Rest()).NoMeaning?
      modifies this
      ensures Valid() && Shows(Term(env, old(Rest())), rc, result)
      decreases |text| - p, 3
    {
      hide Unary, Primary, Expr, ExprRest, SkipBlanks, Quotient, Remainder;
      ghost var goal := Term(env, Rest());
      var left;
      rc, left := ParseUnary(0);
      if rc != 0 {
        return -1, out;
      }
      while true
        invariant Valid() && p > old(p) && TermRest(env, left, Rest()) == goal
        decreases |text| - p
      {
        SkipWs();
        if p >= |text| {
          break;
        }
        var op := text[p];
        if op != '*' && op != '/' && op != '%' {
          break;
        }
        ghost var s := Rest();
        p := p + 1;
        assert Rest() == s[1..] && s[0] == op;
        var right;
        rc, right := ParseUnary(0);
        if rc != 0 {
          return -1, out;
        }
        if op == '*' {
          left := left * right;
        } else if right == 0 {
          err := 1;
          return -1, 0;
        } else if op == '/' {
          left := Quotient(left, right);
        } else {
          left := Remainder(left, right);
        }
      }
      return 0, left;
    }

    // src/mid/expand.c:498; a failure leaves the output alone.
    method ParseExpr(out: int) returns (rc: int, result: int)
      requires Valid() && !Expr(env, Rest()).NoMeaning?
      modifies this
      ensures Valid() && Shows(Expr(env, old(Rest())), rc, result)
      ensures rc != 0 ==> result == out
      decreases |text| - p, 5
    {
      hide Term, TermRest, Unary, Primary, SkipBlanks, Quotient, Remainder;
      ghost var goal := Expr(env, Rest());
      var left;
      rc, left := ParseTerm(0);
      if rc != 0 {
        return -1, out;
      }
      while true
        invariant Valid() && p > old(p) && ExprRest(env, left, Rest()) == goal
        decreases |text| - p
      {
        SkipWs();
        if p >= |text| {
          break;
        }
        var op := text[p];
        if op != '+' && op != '-' {
          break;
        }
        ghost var s := Rest();
        p := p + 1;
        assert Rest() == s[1..] && s[0] == op;
        var right;
        rc, right := ParseTerm(0);
        if rc != 0 {
          return -1, out;
        }
        if op == '+' {
          left := left + right;
        } else {
          left := left - right;
        }
      }
      return 0, left;
    }
  }

  // src/mid/expand.c:529. Whenever the result is not 0 the output is 0.
  method EvalArith(inner: string, env: Env) returns (rc: int, out: int)
    requires Eval(env, inner).Some?
    ensures Eval(env, inner) == Some(Answer(rc, out))
    ensures rc != 0 ==> out == 0
  {
    out := 0;
    var c := new Context(inner, env);
    c.SkipWs();
    if c.p >= |inner| {
      return 0, 0;
    }
    rc, out := c.ParseExpr(out);
    if rc != 0 {
      return if c.err != 0 then c.err else 2, out;
    }
    c.SkipWs();
    if c.p < |inner| {
      return 2, 0;
    }
    return 0, out;
  }
}
