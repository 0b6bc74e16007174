// [[ ]]: src/mid/dispatcher.c:1560-1640, 1672-1817. One pass over the words with a moving index
// evaluates what it needs and skips the rest; it is proved to do what parsing first would do.
module DBracket {
  import opened CStrings
  import opened Glob
  import opened Int64

  datatype FileKind = Missing | Regular | Directory | Special

  // What the file tests see.
  type FileSystem = string -> FileKind

  // ---- the terms of an expression ----

  datatype Primary =
    | FileOrString(op: string, operand: string)
    | Compare(lhs: string, op: string, rhs: string, quoted: bool)
    | NonEmpty(text: string)

  datatype Term = Term(negated: bool, primary: Primary)

  // A connective (true for &&) and the term after it.
  datatype Link = Link(isAnd: bool, term: Term)

  predicate IsUnary(op: string) {
    op == "-f" || op == "-d" || op == "-e" || op == "-z" || op == "-n"
  }

  predicate IsBinop(op: string) {
    op == "=" || op == "==" || op == "!=" || op == "-eq" || op == "-ne" || op == "-lt" || op == "-gt"
  }

  // ---- parsing ----

  // Past the words ! from i on.
  function PastBangs(argv: seq<string>, i: nat): (r: nat)
    requires i <= |argv|
    ensures i <= r <= |argv| && (r < |argv| ==> argv[r] != "!")
    ensures forall k :: i <= k < r ==> argv[k] == "!"
    decreases |argv| - i
  {
    if i < |argv| && argv[i] == "!" then PastBangs(argv, i + 1) else i
  }

  function PrimaryEnd(argv: seq<string>, i: nat): (r: nat)
    requires i < |argv|
    ensures i < r <= |argv|
  {
    if i + 1 < |argv| && IsUnary(argv[i]) then i + 2
    else if i + 2 < |argv| && IsBinop(argv[i + 1]) then i + 3
    else i + 1
  }

  function PrimaryAt(argv: seq<string>, quoted: seq<int>, i: nat): Primary
    requires i < |argv| == |quoted|
  {
    if i + 1 < |argv| && IsUnary(argv[i]) then FileOrString(argv[i], argv[i + 1])
    else if i + 2 < |argv| && IsBinop(argv[i + 1]) then Compare(argv[i], argv[i + 1], argv[i + 2], quoted[i + 2] != 0)
    else NonEmpty(argv[i])
  }

  // The term at i; an odd number of ! negates. None when there is nothing after the !.
  function TermAt(argv: seq<string>, quoted: seq<int>, i: nat): Option<Term>
    requires i <= |argv| == |quoted|
  {
    var p := PastBangs(argv, i);
    if p == |argv| then None else Some(Term((p - i) % 2 == 1, PrimaryAt(argv, quoted, p)))
  }

  function TermEnd(argv: seq<string>, i: nat): (r: nat)
    requires i <= |argv|
    ensures i <= r <= |argv|
  {
    var p := PastBangs(argv, i);
    if p == |argv| then p else PrimaryEnd(argv, p)
  }

  predicate IsConnective(op: string) {
    op == "&&" || op == "||"
  }

  // The connectives and terms from i to the end; None when the words are no expression.
  function LinksFrom(argv: seq<string>, quoted: seq<int>, i: nat): Option<seq<Link>>
    requires i <= |argv| == |quoted|
    decreases |argv| - i
  {
    if i == |argv| then Some([])
    else if !IsConnective(argv[i]) then None
    else
      var t := TermAt(argv, quoted, i + 1);
      if t.None? then None
      else
        var rest := LinksFrom(argv, quoted, TermEnd(argv, i + 1));
        if rest.None? then None else Some([Link(argv[i] == "&&", t.value)] + rest.value)
  }

  // ---- evaluating: 0 true, 1 false, 2 error ----

  function Status(b: bool): int {
    if b then 0 else 1
  }

  function UnaryStatus(fs: FileSystem, op: string, operand: string): int {
    if op == "-z" then Status(operand == "")
    else if op == "-n" then Status(operand != "")
    else if op == "-e" then Status(!fs(operand).Missing?)
    else if op == "-f" then Status(fs(operand).Regular?)
    else if op == "-d" then Status(fs(operand).Directory?)
    else 2
  }

  // Without quotes the right side of = == != is a pattern.
  ghost function CompareStatus(lhs: string, op: string, rhs: string, quoted: bool): int {
    if op == "=" || op == "==" || op == "!=" then
      var equal := if quoted then lhs == rhs else Matches(rhs, lhs);
      Status(equal == (op != "!="))
    else
      var a, b := ReadLong(lhs), ReadLong(rhs);
      if a.None? || b.None? then 2
      else if op == "-eq" then Status(a.value == b.value)
      else if op == "-ne" then Status(a.value != b.value)
      else if op == "-lt" then Status(a.value < b.value)
      else if op == "-gt" then Status(a.value > b.value)
      else 2
  }

  ghost function PrimaryStatus(fs: FileSystem, p: Primary): int {
    match p
    case FileOrString(op, operand) => UnaryStatus(fs, op, operand)
    case Compare(lhs, op, rhs, quoted) => CompareStatus(lhs, op, rhs, quoted)
    case NonEmpty(text) => Status(text != "")
  }

  ghost function TermStatus(fs: FileSystem, t: Term): int {
    var st := PrimaryStatus(fs, t.primary);
    if st == 2 || !t.negated then st else Status(st != 0)
  }

  // From left to right; a term that cannot change the result is not evaluated, an error stays.
  ghost function Fold(fs: FileSystem, status: int, links: seq<Link>): int
    decreases |links|
  {
    if links == [] || status == 2 then status
    else if links[0].isAnd == (status == 0) then Fold(fs, TermStatus(fs, links[0].term), links[1..])
    else Fold(fs, status, links[1..])
  }

  // Parse first, then fold. No words at all are false.
  ghost function Eval(fs: FileSystem, argv: seq<string>, quoted: seq<int>): int
    requires |argv| == |quoted|
  {
    if argv == [] then 1
    else
      var first, links := TermAt(argv, quoted, 0), LinksFrom(argv, quoted, TermEnd(argv, 0));
      if first.None? || links.None? then 2 else Fold(fs, TermStatus(fs, first.value), links.value)
  }

  // ---- as plain logic ----

  // && and || of equal rank, grouping to the left.
  ghost function Truth(fs: FileSystem, left: bool, links: seq<Link>): bool
    decreases |links|
  {
    if links == [] then left
    else
      var t := TermStatus(fs, links[0].term) == 0;
      Truth(fs, if links[0].isAnd then left && t else left || t, links[1..])
  }

  // When no term is an error, short-circuiting does not show: the result is that of the logic.
  lemma {:induction false} FoldIsTruth(fs: FileSystem, status: int, links: seq<Link>)
    requires status == 0 || status == 1
    requires forall k :: 0 <= k < |links| ==> TermStatus(fs, links[k].term) != 2
    ensures Fold(fs, status, links) == Status(Truth(fs, status == 0, links))
    decreases |links|
  {
    hide PrimaryStatus;
    if links != [] {
      var st := TermStatus(fs, links[0].term);
      assert forall k :: 0 <= k < |links| - 1 ==> links[1..][k] == links[k + 1];
      StatusCodes(fs, links[0].term);
      FoldIsTruth(fs, if links[0].isAnd == (status == 0) then st else status, links[1..]);
    }
  }

  lemma StatusCodes(fs: FileSystem, t: Term)
    ensures 0 <= TermStatus(fs, t) <= 2
  {
  }

  lemma EvalIsTruth(fs: FileSystem, argv: seq<string>, quoted: seq<int>, first: Term, links: seq<Link>)
    requires |argv| == |quoted| && argv != []
    requires TermAt(argv, quoted, 0) == Some(first) && LinksFrom(argv, quoted, TermEnd(argv, 0)) == Some(links)
    requires TermStatus(fs, first) != 2 && forall k :: 0 <= k < |links| ==> TermStatus(fs, links[k].term) != 2
    ensures Eval(fs, argv, quoted) == Status(Truth(fs, TermStatus(fs, first) == 0, links))
  {
    hide TermStatus, Truth, Fold, LinksFrom;
    StatusCodes(fs, first);
    FoldIsTruth(fs, TermStatus(fs, first), links);
  }

  // ---- errors ----

  // A comparison of numbers with a side that is none.
  predicate NoNumberAt(argv: seq<string>, i: nat) {
    && i + 2 < |argv| && !IsUnary(argv[i]) && argv[i + 1] in ["-eq", "-ne", "-lt", "-gt"]
    && (ReadLong(argv[i]).None? || ReadLong(argv[i + 2]).None?)
  }

  // A term is an error for that reason only, negated or not; no file test and no text comparison is.
  lemma TermErrs(fs: FileSystem, argv: seq<string>, quoted: seq<int>, i: nat)
    requires i < |argv| == |quoted| && argv[i] != "!"
    ensures TermStatus(fs, Term(true, PrimaryAt(argv, quoted, i))) == 2 <==> NoNumberAt(argv, i)
    ensures TermStatus(fs, Term(false, PrimaryAt(argv, quoted, i))) == 2 <==> NoNumberAt(argv, i)
  {
    hide ReadLong, Matches;
    var binop := if i + 2 < |argv| then argv[i + 1] else "";
    assert binop in ["-eq", "-ne", "-lt", "-gt"] <==>
      binop == "-eq" || binop == "-ne" || binop == "-lt" || binop == "-gt";
  }

  lemma {:induction false} LinksErr(fs: FileSystem, argv: seq<string>, quoted: seq<int>, i: nat)
    requires i <= |argv| == |quoted| && forall k :: 0 <= k < |argv| ==> !NoNumberAt(argv, k)
    ensures var links := LinksFrom(argv, quoted, i);
            links.Some? ==> forall k :: 0 <= k < |links.value| ==> TermStatus(fs, links.value[k].term) != 2
    decreases |argv| - i
  {
    hide TermStatus, PrimaryAt, PrimaryEnd, NoNumberAt;
    if i < |argv| {
      LinksErr(fs, argv, quoted, TermEnd(argv, i + 1));
      var p := PastBangs(argv, i + 1);
      if p < |argv| {
        TermErrs(fs, argv, quoted, p);
      }
    }
  }

  // Words without such a comparison are an error exactly when they are no expression.
  lemma ErrorExactly(fs: FileSystem, argv: seq<string>, quoted: seq<int>)
    requires |argv| == |quoted| && forall k :: 0 <= k < |argv| ==> !NoNumberAt(argv, k)
    ensures Eval(fs, argv, quoted) == 2 <==>
              argv != [] && (TermAt(argv, quoted, 0).None? || LinksFrom(argv, quoted, TermEnd(argv, 0)).None?)
  {
    hide TermStatus, LinksFrom, NoNumberAt, Fold, PrimaryAt;
    if argv != [] {
      var first, links := TermAt(argv, quoted, 0), LinksFrom(argv, quoted, TermEnd(argv, 0));
      LinksErr(fs, argv, quoted, TermEnd(argv, 0));
      if first.Some? && links.Some? {
        TermErrs(fs, argv, quoted, PastBangs(argv, 0));
        EvalIsTruth(fs, argv, quoted, first.value, links.value);
      }
    }
  }

  // How the tests of one operand relate: a regular file or directory exists and is not both, and -z
  // and -n are each the negation of the other.
  lemma UnaryLogic(fs: FileSystem, x: string)
    ensures var holds := (op: string) => UnaryStatus(fs, op, x) == 0;
            (holds("-f") || holds("-d") ==> holds("-e")) && !(holds("-f") && holds("-d"))
    ensures TermStatus(fs, Term(true, FileOrString("-z", x))) == TermStatus(fs, Term(false, FileOrString("-n", x)))
    ensures TermStatus(fs, Term(true, FileOrString("-n", x))) == TermStatus(fs, Term(false, FileOrString("-z", x)))
    ensures TermStatus(fs, Term(false, FileOrString("-n", x))) == TermStatus(fs, Term(false, NonEmpty(x)))
  {
  }

  // ---- the one-pass evaluator ----

  // src/mid/dispatcher.c:1560
  method FeatTestParseLong(s: string) returns (r: Option<int>)
    ensures r == ReadLong(s)
  {
    if s == [] {
      return None;
    }
    var i := 0;
    while i < |s| && IsSpace(s[i])
      invariant i <= |s| && ReadLong(s[i..]) == ReadLong(s)
    {
      i := i + 1;
    }
    var rc, v := ParseI64(s[i..], 0);
    assert ReadLong(s[i..]) == ReadInt(s[i..]);
    r := if rc == 0 then Some(v) else None;
  }

  // src/mid/dispatcher.c:1581
  method FeatTestUnary(fs: FileSystem, op: string, operand: string) returns (st: int)
    ensures st == UnaryStatus(fs, op, operand)
  {
    if op == "-z" {
      return if operand == "" then 0 else 1;
    }
    if op == "-n" {
      return if operand != "" then 0 else 1;
    }
    if op == "-e" {
      return if fs(operand).Missing? then 1 else 0;
    }
    if op == "-f" {
      return if fs(operand).Regular? then 0 else 1;
    }
    if op == "-d" {
      return if fs(operand).Directory? then 0 else 1;
    }
    return 2;
  }

  // src/mid/dispatcher.c:1608, for the comparisons of numbers.
  method FeatTestNumbers(lhs: string, op: string, rhs: string) returns (st: int)
    requires op != "=" && op != "==" && op != "!="
    ensures st == CompareStatus(lhs, op, rhs, false)
  {
    hide ReadLong;
    var a := FeatTestParseLong(lhs);
    var b := FeatTestParseLong(rhs);
    if a.None? || b.None? {
      return 2;
    }
    if op == "-eq" {
      return if a.value == b.value then 0 else 1;
    }
    if op == "-ne" {
      return if a.value != b.value then 0 else 1;
    }
    if op == "-lt" {
      return if a.value < b.value then 0 else 1;
    }
    if op == "-gt" {
      return if a.value > b.value then 0 else 1;
    }
    return 2;
  }

  // src/mid/dispatcher.c:1688
  method DbrStrCmp(lhs: string, op: string, rhs: string, rhsQuoted: bool) returns (st: int)
    requires op == "=" || op == "==" || op == "!="
    ensures st == CompareStatus(lhs, op, rhs, rhsQuoted)
  {
    var eq;
    if !rhsQuoted {
      eq := CasePatMatch(rhs, lhs);
    } else {
      eq := lhs == rhs;
    }
    if op == "!=" {
      return if eq then 1 else 0;
    }
    return if eq then 0 else 1;
  }

  // src/mid/dispatcher.c:1703. Skipping moves the index exactly as evaluating does.
  method DbrSkipTerm(argv: seq<string>, i: nat) returns (rc: int, idx: nat)
    requires i <= |argv|
    ensures idx == TermEnd(argv, i)
    ensures rc == if PastBangs(argv, i) == |argv| then 2 else 0
  {
    idx := i;
    while idx < |argv| && argv[idx] == "!"
      invariant i <= idx <= |argv| && PastBangs(argv, idx) == PastBangs(argv, i)
    {
      idx := idx + 1;
    }
    if idx >= |argv| {
      return 2, idx;
    }
    if idx + 1 < |argv| && IsUnary(argv[idx]) {
      return 0, idx + 2;
    }
    if idx + 2 < |argv| && IsBinop(argv[idx + 1]) {
      return 0, idx + 3;
    }
    return 0, idx + 1;
  }

  // src/mid/dispatcher.c:1723
  method DbrEvalPrimary(fs: FileSystem, argv: seq<string>, quoted: seq<int>, i: nat) returns (st: int, idx: nat)
    requires i <= |argv| == |quoted|
    ensures i == |argv| ==> st == 2 && idx == i
    ensures i < |argv| ==> st == PrimaryStatus(fs, PrimaryAt(argv, quoted, i)) && idx == PrimaryEnd(argv, i)
  {
    hide CompareStatus, UnaryStatus;
    idx := i;
    if idx >= |argv| {
      return 2, idx;
    }
    if idx + 1 < |argv| && IsUnary(argv[idx]) {
      st := FeatTestUnary(fs, argv[idx], argv[idx + 1]);
      return st, idx + 2;
    }
    if idx + 2 < |argv| && IsBinop(argv[idx + 1]) {
      var lhs, op, rhs := argv[idx], argv[idx + 1], argv[idx + 2];
      var rq := quoted[idx + 2] != 0;
      if op == "=" || op == "==" || op == "!=" {
        st := DbrStrCmp(lhs, op, rhs, rq);
      } else {
        st := FeatTestNumbers(lhs, op, rhs);
        QuotesOnlyMatterForText(lhs, op, rhs, rq);
      }
      return st, idx + 3;
    }
    st := if argv[idx] != "" then 0 else 1;
    idx := idx + 1;
  }

  lemma QuotesOnlyMatterForText(lhs: string, op: string, rhs: string, quoted: bool)
    requires op != "=" && op != "==" && op != "!="
    ensures CompareStatus(lhs, op, rhs, quoted) == CompareStatus(lhs, op, rhs, false)
  {
  }

  // src/mid/dispatcher.c:1757
  method DbrEvalTerm(fs: FileSystem, argv: seq<string>, quoted: seq<int>, i: nat) returns (st: int, idx: nat)
    requires i <= |argv| == |quoted|
    ensures idx == TermEnd(argv, i)
    ensures var t := TermAt(argv, quoted, i); st == if t.None? then 2 else TermStatus(fs, t.value)
  {
    hide PrimaryStatus, PrimaryAt, PrimaryEnd;
    var neg := false;
    idx := i;
    while idx < |argv| && argv[idx] == "!"
      invariant i <= idx <= |argv| && PastBangs(argv, idx) == PastBangs(argv, i)
      invariant neg == ((idx - i) % 2 == 1)
    {
      neg := !neg;
      idx := idx + 1;
    }
    st, idx := DbrEvalPrimary(fs, argv, quoted, idx);
    if st == 2 {
      return 2, idx;
    }
    if neg {
      return if st == 0 then 1 else 0, idx;
    }
    return st, idx;
  }

  // src/mid/dispatcher.c:1774
  method DbrEvalExpr(fs: FileSystem, argv: seq<string>, quoted: seq<int>) returns (status: int)
    requires |argv| == |quoted|
    ensures status == Eval(fs, argv, quoted)
  {
    hide TermAt, TermEnd, TermStatus, LinksFrom, Fold;
    if |argv| == 0 {
      return 1;
    }
    var idx;
    status, idx := DbrEvalTerm(fs, argv, quoted, 0);
    ghost var first := TermAt(argv, quoted, 0);
    NoTerm(argv, quoted, 0);
    while idx < |argv|
      invariant idx <= |argv|
      invariant first.None? ==> status == 2 && idx == |argv|
      invariant first.Some? ==>
                  var rest := LinksFrom(argv, quoted, idx);
                  Eval(fs, argv, quoted) == if rest.None? then 2 else Fold(fs, status, rest.value)
      decreases |argv| - idx
    {
      var op := argv[idx];
      LinkStep(fs, status, argv, quoted, idx);
      NoTerm(argv, quoted, idx + 1);
      if op == "&&" {
        idx := idx + 1;
        if status == 2 {
          return 2;
        }
        if status == 0 {
          var r;
          r, idx := DbrEvalTerm(fs, argv, quoted, idx);
          if r == 2 {
            return 2;
          }
          status := r;
        } else {
          var rc;
          rc, idx := DbrSkipTerm(argv, idx);
          if rc != 0 {
            return 2;
          }
        }
      } else if op == "||" {
        idx := idx + 1;
        if status == 2 {
          return 2;
        }
        if status != 0 {
          var r;
          r, idx := DbrEvalTerm(fs, argv, quoted, idx);
          if r == 2 {
            return 2;
          }
          status := r;
        } else {
          var rc;
          rc, idx := DbrSkipTerm(argv, idx);
          if rc != 0 {
            return 2;
          }
        }
      } else {
        return 2;
      }
    }
    LinksEnd(fs, status, argv, quoted);
  }

  lemma NoTerm(argv: seq<string>, quoted: seq<int>, i: nat)
    requires i <= |argv| == |quoted|
    ensures TermAt(argv, quoted, i).None? <==> PastBangs(argv, i) == |argv|
    ensures TermAt(argv, quoted, i).None? ==> TermEnd(argv, i) == |argv|
  {
  }

  lemma LinkStep(fs: FileSystem, status: int, argv: seq<string>, quoted: seq<int>, i: nat)
    requires i < |argv| == |quoted|
    ensures !IsConnective(argv[i]) ==> LinksFrom(argv, quoted, i).None?
    ensures IsConnective(argv[i]) ==>
              var t, here := TermAt(argv, quoted, i + 1), LinksFrom(argv, quoted, i);
              var rest := LinksFrom(argv, quoted, TermEnd(argv, i + 1));
              && (here.None? <==> t.None? || rest.None?)
              && (here.Some? ==>
                    Fold(fs, status, here.value) ==
                    if status == 2 then 2
                    else if (argv[i] == "&&") == (status == 0) then Fold(fs, TermStatus(fs, t.value), rest.value)
                    else Fold(fs, status, rest.value))
    ensures var here := LinksFrom(argv, quoted, i); here.Some? && status == 2 ==> Fold(fs, status, here.value) == 2
    ensures forall links :: Fold(fs, 2, links) == 2
  {
    hide TermStatus, TermAt;
  }

  lemma LinksEnd(fs: FileSystem, status: int, argv: seq<string>, quoted: seq<int>)
    requires |argv| == |quoted|
    ensures LinksFrom(argv, quoted, |argv|) == Some([]) && Fold(fs, status, []) == status
  {
  }
}
