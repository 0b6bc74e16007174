// [[ ]] on the words a script has: comparisons of numbers and of texts, files, negation, and lists of
// words joined by && and ||.
module DBracketLaws {
  import opened CStrings
  import opened Glob
  import opened Int64
  import opened DBracket

  // A word that begins nothing: no !, no unary operator.
  predicate Ordinary(w: string) {
    w !in ["!", "-f", "-d", "-e", "-z", "-n"]
  }

  lemma Three(fs: FileSystem, a: string, op: string, b: string, mark: int)
    requires Ordinary(a) && op in ["=", "==", "!=", "-eq", "-ne", "-lt", "-gt"]
    ensures Eval(fs, [a, op, b], [0, 0, mark]) == CompareStatus(a, op, b, mark != 0)
  {
    hide CompareStatus;
    var argv, marks := [a, op, b], [0, 0, mark];
    assert PastBangs(argv, 0) == 0;
    assert LinksFrom(argv, marks, 3) == Some([]);
  }

  // The four comparisons of numbers are those of the integers.
  lemma NumbersCompare(fs: FileSystem, a: int, b: int, mark: int)
    requires InRange(a) && InRange(b)
    ensures Eval(fs, [Shown(a), "-eq", Shown(b)], [0, 0, mark]) == if a == b then 0 else 1
    ensures Eval(fs, [Shown(a), "-ne", Shown(b)], [0, 0, mark]) == if a != b then 0 else 1
    ensures Eval(fs, [Shown(a), "-lt", Shown(b)], [0, 0, mark]) == if a < b then 0 else 1
    ensures Eval(fs, [Shown(a), "-gt", Shown(b)], [0, 0, mark]) == if a > b then 0 else 1
  {
    hide Eval, ReadLong, Matches;
    ShownIsNumber(a);
    ShownIsNumber(b);
    hide Shown;
    Three(fs, Shown(a), "-eq", Shown(b), mark);
    Three(fs, Shown(a), "-ne", Shown(b), mark);
    Three(fs, Shown(a), "-lt", Shown(b), mark);
    Three(fs, Shown(a), "-gt", Shown(b), mark);
  }

  lemma ShownIsNumber(v: int)
    requires InRange(v)
    ensures ReadLong(Shown(v)) == Some(v) && Ordinary(Shown(v))
  {
    hide ReadInt;
    ShowThenRead(v);
    var digits := Show(if v < 0 then -v else v);
    assert IsDigit(digits[0]);
    assert v < 0 ==> Shown(v)[1] == digits[0];
    assert ["!", "-f", "-d", "-e", "-z", "-n"][1][1] == 'f' && "-d"[1] == 'd' && "-e"[1] == 'e';
    assert "-z"[1] == 'z' && "-n"[1] == 'n' && "!"[0] == '!';
  }

  // = and == compare with a quoted text as it is and with a bare one as a pattern; != is the opposite.
  lemma TextsCompare(fs: FileSystem, a: string, b: string)
    requires Ordinary(a)
    ensures Eval(fs, [a, "=", b], [0, 0, 2]) == Eval(fs, [a, "==", b], [0, 0, 2]) == if a == b then 0 else 1
    ensures Eval(fs, [a, "!=", b], [0, 0, 2]) == if a == b then 1 else 0
    ensures Eval(fs, [a, "=", b], [0, 0, 0]) == Eval(fs, [a, "==", b], [0, 0, 0]) == if Matches(b, a) then 0 else 1
    ensures Eval(fs, [a, "!=", b], [0, 0, 0]) == if Matches(b, a) then 1 else 0
  {
    hide Eval, Matches;
    Three(fs, a, "=", b, 2);
    Three(fs, a, "==", b, 2);
    Three(fs, a, "!=", b, 2);
    Three(fs, a, "=", b, 0);
    Three(fs, a, "==", b, 0);
    Three(fs, a, "!=", b, 0);
  }

  lemma Two(fs: FileSystem, op: string, x: string)
    requires op in ["-f", "-d", "-e", "-z", "-n"]
    ensures Eval(fs, [op, x], [0, 0]) == UnaryStatus(fs, op, x)
  {
    var argv, marks := [op, x], [0, 0];
    assert PastBangs(argv, 0) == 0;
    assert LinksFrom(argv, marks, 2) == Some([]);
  }

  // The tests of one word.
  lemma UnaryTests(fs: FileSystem, x: string)
    ensures Eval(fs, ["-z", x], [0, 0]) == if x == "" then 0 else 1
    ensures Eval(fs, ["-n", x], [0, 0]) == if x == "" then 1 else 0
    ensures Eval(fs, ["-e", x], [0, 0]) == if fs(x) == Missing then 1 else 0
    ensures Eval(fs, ["-f", x], [0, 0]) == if fs(x) == Regular then 0 else 1
    ensures Eval(fs, ["-d", x], [0, 0]) == if fs(x) == Directory then 0 else 1
  {
    hide Eval;
    Two(fs, "-z", x);
    Two(fs, "-n", x);
    Two(fs, "-e", x);
    Two(fs, "-f", x);
    Two(fs, "-d", x);
  }

  // ! in front of a test turns 0 into 1 and 1 into 0; an error stays one.
  lemma BangNegates(fs: FileSystem, op: string, x: string)
    requires op in ["-f", "-d", "-e", "-z", "-n"]
    ensures Eval(fs, ["!", op, x], [0, 0, 0]) == 1 - Eval(fs, [op, x], [0, 0])
    ensures Eval(fs, ["!", "!", op, x], [0, 0, 0, 0]) == Eval(fs, [op, x], [0, 0])
  {
    Two(fs, op, x);
    var one, two := ["!", op, x], ["!", "!", op, x];
    assert PastBangs(one, 1) == 1 && PastBangs(one, 0) == 1;
    assert PastBangs(two, 2) == 2 && PastBangs(two, 1) == 2 && PastBangs(two, 0) == 2;
    assert LinksFrom(one, [0, 0, 0], 3) == Some([]) && LinksFrom(two, [0, 0, 0, 0], 4) == Some([]);
  }

  // ---- lists of words ----

  // A word after a connective; the empty word is false.
  datatype Bit = Bit(value: bool, isAnd: bool)

  function WordOf(value: bool): string {
    if value then "x" else ""
  }

  function Tail(bits: seq<Bit>): seq<string> {
    if bits == [] then [] else [if bits[0].isAnd then "&&" else "||", WordOf(bits[0].value)] + Tail(bits[1..])
  }

  // && and || of equal rank, grouped to the left.
  function Logic(left: bool, bits: seq<Bit>): bool
    decreases |bits|
  {
    if bits == [] then left
    else Logic(if bits[0].isAnd then left && bits[0].value else left || bits[0].value, bits[1..])
  }

  function Links(bits: seq<Bit>): seq<Link> {
    if bits == [] then [] else [Link(bits[0].isAnd, Term(false, NonEmpty(WordOf(bits[0].value))))] + Links(bits[1..])
  }

  // A word at i with a connective or nothing after it is a term by itself.
  lemma WordTerm(argv: seq<string>, marks: seq<int>, i: nat, value: bool)
    requires i < |argv| == |marks| && argv[i] == WordOf(value) && (i + 1 < |argv| ==> IsConnective(argv[i + 1]))
    ensures TermAt(argv, marks, i) == Some(Term(false, NonEmpty(WordOf(value)))) && TermEnd(argv, i) == i + 1
  {
    assert PastBangs(argv, i) == i;
  }

  lemma {:induction false} TailLinks(argv: seq<string>, marks: seq<int>, i: nat, bits: seq<Bit>)
    requires i <= |argv| == |marks| && argv[i..] == Tail(bits)
    ensures LinksFrom(argv, marks, i) == Some(Links(bits))
    decreases |bits|
  {
    hide TermAt, TermEnd, WordOf;
    assert |argv[i..]| == |argv| - i;
    if bits != [] {
      var rest := Tail(bits[1..]);
      assert argv[i] == argv[i..][0] && argv[i + 1] == argv[i..][1] == WordOf(bits[0].value);
      assert argv[i + 2..] == argv[i..][2..] == rest;
      if bits[1..] != [] {
        assert argv[i + 2] == argv[i + 2..][0];
      }
      WordTerm(argv, marks, i + 1, bits[0].value);
      TailLinks(argv, marks, i + 2, bits[1..]);
    }
  }

  lemma {:induction false} FoldBits(fs: FileSystem, left: bool, bits: seq<Bit>)
    ensures Fold(fs, if left then 0 else 1, Links(bits)) == if Logic(left, bits) then 0 else 1
    decreases |bits|
  {
    if bits != [] {
      assert Links(bits)[1..] == Links(bits[1..]);
      FoldBits(fs, if bits[0].isAnd then left && bits[0].value else left || bits[0].value, bits[1..]);
    }
  }

  // Words joined by && and || are true exactly when the logic is.
  lemma WordsAreLogic(fs: FileSystem, first: bool, bits: seq<Bit>, marks: seq<int>)
    requires |marks| == 1 + |Tail(bits)|
    ensures Eval(fs, [WordOf(first)] + Tail(bits), marks) == if Logic(first, bits) then 0 else 1
  {
    var argv := [WordOf(first)] + Tail(bits);
    assert argv[1..] == Tail(bits) && PastBangs(argv, 0) == 0;
    assert bits != [] ==> argv[1] == Tail(bits)[0];
    TailLinks(argv, marks, 1, bits);
    FoldBits(fs, first, bits);
    hide Fold, LinksFrom, Links, Logic, Tail;
  }

  // Words that are no expression are an error: a connective without a term after it, two terms in a row.
  lemma NoExpression(fs: FileSystem, x: string, y: string)
    requires Ordinary(x) && y !in ["&&", "||"]
    ensures Eval(fs, [x, "&&"], [0, 0]) == 2 && Eval(fs, [x, "||"], [0, 0]) == 2 && Eval(fs, [x, y], [0, 0]) == 2
    ensures Eval(fs, ["!"], [0]) == 2 && Eval(fs, [], []) == 1
  {
    assert PastBangs([x, "&&"], 0) == 0 && PastBangs([x, "||"], 0) == 0 && PastBangs([x, y], 0) == 0;
    assert PastBangs(["!"], 1) == 1;
    assert PastBangs([x, "&&"], 2) == 2 && PastBangs([x, "||"], 2) == 2;
  }
}
