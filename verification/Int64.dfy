// parse_i64_local, src/mid/expand.c:286-327: an optional sign and decimal digits, exact at both
// ends of the 64-bit range.
module Int64 {
  import opened CStrings

  const INT64_MAX: int := 0x7FFF_FFFF_FFFF_FFFF
  const INT64_MIN: int := -0x8000_0000_0000_0000
  const UINT64_MAX: int := 0xFFFF_FFFF_FFFF_FFFF

  predicate InRange(v: int) {
    INT64_MIN <= v <= INT64_MAX
  }

  function Digit(c: char): int {
    c as int - '0' as int
  }

  predicate AllDigits(s: string) {
    forall i :: 0 <= i < |s| ==> IsDigit(s[i])
  }

  // The number that digits denote.
  function Magnitude(digits: string): (v: nat)
    requires AllDigits(digits)
  {
    if digits == [] then 0 else Magnitude(digits[..|digits| - 1]) * 10 + Digit(digits[|digits| - 1])
  }

  predicate Signed(s: string) {
    s != [] && (s[0] == '+' || s[0] == '-')
  }

  function Unsigned(s: string): string {
    if Signed(s) then s[1..] else s
  }

  // An optional sign and at least one digit, nothing else.
  predicate IsDecimal(s: string) {
    Unsigned(s) != [] && AllDigits(Unsigned(s))
  }

  function TrueValue(s: string): int
    requires IsDecimal(s)
  {
    if s[0] == '-' then 0 - Magnitude(Unsigned(s)) else Magnitude(Unsigned(s))
  }

  function ReadInt(s: string): Option<int> {
    if IsDecimal(s) && InRange(TrueValue(s)) then Some(TrueValue(s)) else None
  }

  // strtol in base 10, the whole text: leading white space, a sign, digits within a long.
  function ReadLong(s: string): Option<int> {
    if s != [] && IsSpace(s[0]) then ReadLong(s[1..]) else ReadInt(s)
  }

  // More digits never make a number smaller.
  lemma {:induction false} PrefixIsLess(digits: string, i: nat)
    requires AllDigits(digits) && i <= |digits|
    ensures Magnitude(digits[..i]) <= Magnitude(digits)
  {
    if i < |digits| {
      var init := digits[..|digits| - 1];
      assert init[..i] == digits[..i];
      PrefixIsLess(init, i);
    } else {
      assert digits[..i] == digits;
    }
  }

  // Decimal notation.
  function Show(n: nat): (s: string)
    ensures s != [] && AllDigits(s) && Magnitude(s) == n
  {
    var last := [('0' as int + n % 10) as char];
    if n < 10 then last
    else
      var s := Show(n / 10) + last;
      assert s[..|s| - 1] == Show(n / 10);
      s
  }

  function Shown(v: int): string {
    if v < 0 then "-" + Show(-v) else Show(v)
  }

  // Every 64-bit number is read back from its decimal notation.
  lemma ShowThenRead(v: int)
    requires InRange(v)
    ensures ReadInt(Shown(v)) == Some(v)
  {
    if v < 0 {
      assert ("-" + Show(-v))[1..] == Show(-v);
    } else {
      assert Show(v)[0] != '-' && Show(v)[0] != '+';
    }
  }

  function Limit(s: string): int {
    if s != [] && s[0] == '-' then INT64_MAX + 1 else INT64_MAX
  }

  // What makes a text unreadable: a character that is no digit, or digits that exceed the limit.
  lemma Unreadable(s: string, k: nat)
    requires k < |Unsigned(s)| && AllDigits(Unsigned(s)[..k])
    requires !IsDigit(Unsigned(s)[k]) || Magnitude(Unsigned(s)[..k]) * 10 + Digit(Unsigned(s)[k]) > Limit(s)
    ensures ReadInt(s).None?
  {
    var digits := Unsigned(s);
    if AllDigits(digits) {
      assert digits[..k + 1][..k] == digits[..k];
      PrefixIsLess(digits, k + 1);
    }
  }

  lemma Room(acc: nat, d: int, lim: int)
    requires 0 <= d <= 9 <= lim
    ensures acc > (lim - d) / 10 <==> acc * 10 + d > lim
  {
  }

  // `out` is the value the caller's variable had before the call.
  method ParseI64(s: string, out: int) returns (rc: int, result: int)
    ensures rc == if ReadInt(s).Some? then 0 else -1
    ensures result == if rc == 0 then ReadInt(s).value else out
  {
    if |s| == 0 {
      return -1, out;
    }
    var i, neg := 0, false;
    if s[i] == '+' || s[i] == '-' {
      neg := s[i] == '-';
      i := i + 1;
      if i >= |s| {
        return -1, out;
      }
    }
    ghost var start := i;
    ghost var digits := Unsigned(s);
    assert digits == s[start..];
    if !IsDigit(s[i]) {
      Unreadable(s, 0);
      return -1, out;
    }
    var lim := INT64_MAX + if neg then 1 else 0;
    var acc := Accumulate(s, i, lim);
    if acc < 0 {
      return -1, out;
    }
    if neg {
      result := if acc == INT64_MAX + 1 then INT64_MIN else -acc;
    } else {
      result := acc;
    }
    rc := 0;
  }

  // The loop over the digits; -1 for its early exits.
  method Accumulate(s: string, start: nat, lim: int) returns (acc: int)
    requires start < |s| && Unsigned(s) == s[start..] && lim == Limit(s)
    ensures acc >= 0 ==> IsDecimal(s) && acc == Magnitude(Unsigned(s)) <= lim
    ensures acc < 0 ==> ReadInt(s).None?
  {
    hide ReadInt, TrueValue, Unsigned;
    ghost var digits := Unsigned(s);
    acc := 0;
    for i := start to |s|
      invariant AllDigits(digits[..i - start]) && acc == Magnitude(digits[..i - start]) && 0 <= acc <= lim
    {
      ghost var k := i - start;
      assert digits[k] == s[i] && digits[..k + 1][..k] == digits[..k];
      if !IsDigit(s[i]) {
        Unreadable(s, k);
        return -1;
      }
      var d := Digit(s[i]);
      Room(acc, d, lim);
      if acc > (lim - d) / 10 {
        Unreadable(s, k);
        return -1;
      }
      // The C variable is 64 bits wide and unsigned; it never wraps.
      assert 0 <= acc * 10 + d <= lim <= UINT64_MAX;
      acc := acc * 10 + d;
    }
    assert digits[..|digits|] == digits;
  }
}
