// What running a list does, said without the functions that define it: which items of an and-or list
// run, which arm of an if and which branch of a case, the order of a for's words, the status of each.
module ListLaws {
  import opened CStrings
  import opened Ast
  import opened Glob
  import opened Semantics
  import opened ErrexitCase

  // The two runs end, or do not, and leave the same state with the same outcome.
  ghost predicate SameEnd<T, U>(r: Run<T>, q: Run<U>) {
    (r.Ended? <==> q.Ended?) && (r.Ended? ==> r.st == q.st && r.out == q.out)
  }

  ghost predicate EndsAs<T>(r: Run<T>, st: State, out: Outcome) {
    r.Ended? && r.st == st && r.out == out
  }

  // ---- && and || ----

  // After x has ended with v, `&& y` with v != 0 and `|| y` with v == 0 run nothing of y; in every
  // other case y runs from there.
  lemma AndOr(o: Leaves, fuel: nat, x: Item, y: Item, st: State, c: Ctx)
    requires var one := RunOne(o, fuel, [x, y], 0, st, c); one.Ended? && one.out.Normal?
    ensures var one := RunOne(o, fuel, [x, y], 0, st, c);
            var r := RunList(o, fuel, [x, y], st, c);
            var v := one.out.status;
            if (y.cond.And? && v != 0) || (y.cond.Or? && v == 0) then EndsAs(r, one.st, Normal(v))
            else SameEnd(r, RunList(o, fuel, [y], one.st, c))
  {
    var items := [x, y];
    var one := RunOne(o, fuel, items, 0, st, c);
    SecondStays(o, fuel, items, st, c);
    OneKeepsLength(o, fuel, items, 0, st, c);
    LastOne(o, fuel, one.tree, 1, y, one.st, c);
    hide RunOne;
    var v := one.out.status;
    assert RunList(o, fuel, items, st, c) == RunItems(o, fuel, one.tree, 1, v, one.st, c);
    assert RunItems(o, fuel, one.tree, 2, v, one.st, c) == Ended(one.st, Normal(v), one.tree);
    if !Skipped(y, 1, v) {
      ListOfLast(o, fuel, one.tree, 1, v, one.st, c);
    }
    ListOfLast(o, fuel, [y], 0, 0, one.st, c);
  }

  lemma SecondStays(o: Leaves, fuel: nat, items: seq<Item>, st: State, c: Ctx)
    requires |items| == 2 && RunOne(o, fuel, items, 0, st, c).Ended?
    ensures var tree := RunOne(o, fuel, items, 0, st, c).tree; |tree| == 2 && tree[1] == items[1]
  {
  }

  // The last item of a list runs as it would alone.
  lemma LastOne(o: Leaves, fuel: nat, items: seq<Item>, i: nat, y: Item, st: State, c: Ctx)
    requires |items| == i + 1 && items[i] == y
    ensures SameEnd(RunOne(o, fuel, items, i, st, c), RunOne(o, fuel, [y], 0, st, c))
  {
    hide RunKind;
  }

  lemma ListOfLast(o: Leaves, fuel: nat, items: seq<Item>, i: nat, status: int, st: State, c: Ctx)
    requires |items| == i + 1 && !Skipped(items[i], i, status)
    ensures SameEnd(RunItems(o, fuel, items, i, status, st, c), RunOne(o, fuel, items, i, st, c))
  {
    var one := RunOne(o, fuel, items, i, st, c);
    OneKeepsLength(o, fuel, items, i, st, c);
    hide RunOne;
    if one.Ended? && one.out.Normal? {
      assert RunItems(o, fuel, one.tree, i + 1, one.out.status, one.st, c) == Ended(one.st, one.out, one.tree);
    }
  }

  // ---- && and || as logic ----

  // true or false, after a connector.
  datatype Bit = Bit(value: bool, isAnd: bool)

  function BitItem(b: Bit): Item {
    Simple(if b.value then "true" else "false").(cond := if b.isAnd then And else Or)
  }

  // A list of true and false, joined by && and ||.
  function BitList(first: bool, bits: seq<Bit>): (r: seq<Item>)
    ensures |r| == 1 + |bits| && forall k :: 0 <= k < |bits| ==> r[k + 1] == BitItem(bits[k])
  {
    [Simple(if first then "true" else "false")] + seq(|bits|, k requires 0 <= k < |bits| => BitItem(bits[k]))
  }

  // && and || of equal rank, grouped to the left.
  function Logic(left: bool, bits: seq<Bit>): bool
    decreases |bits|
  {
    if bits == [] then left
    else Logic(if bits[0].isAnd then left && bits[0].value else left || bits[0].value, bits[1..])
  }

  // The last of them runs: it is not cut off by what is to its left.
  predicate LastRuns(left: bool, bits: seq<Bit>)
    decreases |bits|
  {
    if bits == [] then true
    else
      var k := |bits| - 1;
      bits[k].isAnd == Logic(left, bits[..k])
  }

  // Such a list is true, that is, its status is 0, exactly when the logic is; errexit or not. Under -e
  // it stops the script exactly when it is false and its last item ran.
  lemma AndOrIsLogic(o: Leaves, fuel: nat, first: bool, bits: seq<Bit>, st: State, c: Ctx)
    requires Unshadowed(o, st)
    ensures var r := RunList(o, fuel, BitList(first, bits), st, c);
            && r.Ended? && (StatusOf(r.out) == 0 <==> Logic(first, bits))
            && r.out == if st.vis.optE && !c.exempt && !Logic(first, bits) && LastRuns(first, bits) then Abort(1)
                        else Normal(if Logic(first, bits) then 0 else 1)
  {
    var items := BitList(first, bits);
    hide RunItems, RunOne;
    BitRuns(o, fuel, items, 0, if first then "true" else "false", st, c);
    var one := RunOne(o, fuel, items, 0, st, c);
    FirstStep(o, fuel, items, st, c);
    assert Followed(items, 0) <==> bits != [] by { assert bits != [] ==> items[1] == BitItem(bits[0]); }
    if one.out.Normal? {
      BitsFrom(o, fuel, items, bits, 1, one.out.status, one.st, c);
    }
  }

  lemma FirstStep(o: Leaves, fuel: nat, items: seq<Item>, st: State, c: Ctx)
    requires items != [] && RunOne(o, fuel, items, 0, st, c).Ended? && RunOne(o, fuel, items, 0, st, c).tree == items
    ensures var one := RunOne(o, fuel, items, 0, st, c);
            RunList(o, fuel, items, st, c) ==
            if one.out.Normal? then RunItems(o, fuel, items, 1, one.out.status, one.st, c) else one
  {
    hide RunOne;
  }

  lemma BitRuns(o: Leaves, fuel: nat, items: seq<Item>, i: nat, name: string, st: State, c: Ctx)
    requires Unshadowed(o, st) && name in ["true", "false"]
    requires i < |items| && items[i].kind == Simple(name).kind && !items[i].background
    ensures var one := RunOne(o, fuel, items, i, st, c);
            && one.Ended? && one.tree == items && one.st.vis.optE == st.vis.optE && one.st.fns == st.fns
            && (one.out.Abort? <==> st.vis.optE && !c.exempt && name == "false" && !Followed(items, i))
            && one.out == (if one.out.Abort? then Abort(1) else Normal(if name == "true" then 0 else 1))
  {
    hide RunCommand, RunPipeline;
    var b, d := Log(st, Begin(LeftOperand)), Within(c, LeftOperand);
    OneStage(o, fuel, name, st, c);
    TrueOrFalse(o, fuel, name, st, c);
    OneStage(o, fuel, name, b, d);
    TrueOrFalse(o, fuel, name, b, d);
    var at := RunAt(o, fuel, items, i, st, c);
    assert items[i].kind == Pipeline([Call(name)]);
    assert RunKind(o, fuel, items[i], st, c) == RunPipeline(o, fuel, [Call(name)], st, c);
    assert RunKind(o, fuel, items[i], b, d) == RunPipeline(o, fuel, [Call(name)], b, d);
    assert at.Ended? && at.tree == items[i].kind && at.out == Normal(if name == "true" then 0 else 1);
    assert items[i := items[i].(kind := at.tree)] == items;
  }

  lemma {:induction false} BitsFrom(o: Leaves, fuel: nat, items: seq<Item>, bits: seq<Bit>, i: nat, status: int,
                                    st: State, c: Ctx)
    requires Unshadowed(o, st) && 1 <= i <= |items| && |bits| == |items| - i
    requires forall k :: 0 <= k < |bits| ==> items[i + k] == BitItem(bits[k])
    requires status == 0 || status == 1
    ensures var r := RunItems(o, fuel, items, i, status, st, c);
            var left := status == 0;
            var stopped := bits != [] && st.vis.optE && !c.exempt && !Logic(left, bits) && LastRuns(left, bits);
            r.Ended? && r.out == if stopped then Abort(1) else Normal(if Logic(left, bits) then 0 else 1)
    decreases |bits|
  {
    hide RunOne;
    if bits != [] {
      var b := bits[0];
      assert items[i] == BitItem(b);
      assert forall k :: 0 <= k < |bits| - 1 ==> items[i + 1 + k] == BitItem(bits[1..][k]);
      LastLater(status == 0, bits);
      if Skipped(items[i], i, status) {
        BitsFrom(o, fuel, items, bits[1..], i + 1, status, st, c);
      } else {
        LastBit(items, bits, i);
        BitRuns(o, fuel, items, i, if b.value then "true" else "false", st, c);
        var one := RunOne(o, fuel, items, i, st, c);
        if one.out.Normal? {
          BitsFrom(o, fuel, items, bits[1..], i + 1, one.out.status, one.st, c);
        }
      }
    }
  }

  // One bit further on.
  lemma LastLater(left: bool, bits: seq<Bit>)
    requires bits != []
    ensures var next := if bits[0].isAnd then left && bits[0].value else left || bits[0].value;
            LastRuns(left, bits) == if |bits| == 1 then bits[0].isAnd == left else LastRuns(next, bits[1..])
  {
    var k := |bits| - 1;
    if k > 0 {
      assert bits[..k][1..] == bits[1..][..k - 1];
    }
  }

  // An item of the list that no connector follows is the last one.
  lemma LastBit(items: seq<Item>, bits: seq<Bit>, i: nat)
    requires bits != [] && |bits| == |items| - i
    requires forall k :: 0 <= k < |bits| ==> items[i + k] == BitItem(bits[k])
    ensures Followed(items, i) <==> |bits| > 1
  {
    assert |bits| > 1 ==> items[i + 1] == BitItem(bits[1]);
  }

  // ---- $? ----

  // After a list with at least one item, $? is its status.
  lemma LastStatus(o: Leaves, fuel: nat, items: seq<Item>, st: State, c: Ctx)
    requires items != [] && RunList(o, fuel, items, st, c).Ended?
    ensures var r := RunList(o, fuel, items, st, c); r.st.vis.last == StatusOf(r.out)
  {
    OneSetsLast(o, fuel, items, 0, st, c);
    OneKeepsLength(o, fuel, items, 0, st, c);
    hide RunOne;
    var one := RunOne(o, fuel, items, 0, st, c);
    if one.out.Normal? {
      LastStatusFrom(o, fuel, one.tree, 1, one.out.status, one.st, c);
    }
  }

  lemma OneSetsLast(o: Leaves, fuel: nat, items: seq<Item>, i: nat, st: State, c: Ctx)
    requires i < |items| && RunOne(o, fuel, items, i, st, c).Ended?
    ensures var r := RunOne(o, fuel, items, i, st, c); r.st.vis.last == StatusOf(r.out)
  {
    hide RunAt;
  }

  lemma {:induction false} LastStatusFrom(o: Leaves, fuel: nat, items: seq<Item>, i: nat, status: int,
                                          st: State, c: Ctx)
    requires i <= |items| && st.vis.last == status && RunItems(o, fuel, items, i, status, st, c).Ended?
    ensures var r := RunItems(o, fuel, items, i, status, st, c); r.st.vis.last == StatusOf(r.out)
    decreases |items| - i
  {
    hide RunOne;
    if i < |items| {
      if Skipped(items[i], i, status) {
        LastStatusFrom(o, fuel, items, i + 1, status, st, c);
      } else {
        OneSetsLast(o, fuel, items, i, st, c);
        OneKeepsLength(o, fuel, items, i, st, c);
        var one := RunOne(o, fuel, items, i, st, c);
        if one.out.Normal? {
          LastStatusFrom(o, fuel, one.tree, i + 1, one.out.status, one.st, c);
        }
      }
    }
  }

  // ---- if ----

  // An item that runs in the foreground, whatever connector stands before it.
  function Alone(kind: Kind): Item {
    Item(kind, Always, false)
  }

  lemma {:induction false} ArmsShift(o: Leaves, fuel: nat, arms: seq<Arm>, a: nat, more: seq<Arm>, b: nat,
                                     st: State, c: Ctx)
    requires a <= |arms| && b <= |more| && arms[a..] == more[b..]
    ensures SameEnd(RunArms(o, fuel, arms, a, st, c), RunArms(o, fuel, more, b, st, c))
    decreases |arms| - a
  {
    hide RunList, RunGuard;
    assert |arms[a..]| == |more[b..]|;
    if a < |arms| {
      assert arms[a] == arms[a..][0] == more[b];
      var g := RunGuard(o, fuel, arms[a].cond, st, c);
      if g.Ended? && !arms[a].isElse {
        var arm := arms[a].(cond := g.tree);
        assert arms[a := arm][a + 1..] == arms[a..][1..] == more[b := arm][b + 1..];
        ArmsShift(o, fuel, arms[a := arm], a + 1, more[b := arm], b + 1, g.st, c);
      }
    }
  }

  // The first condition decides: 0 runs its body, any other status goes on with the other arms, and
  // a condition that is left or aborted ends the if.
  lemma IfRuns(o: Leaves, fuel: nat, arm: Arm, rest: seq<Arm>, st: State, c: Ctx)
    requires !arm.isElse && RunGuard(o, fuel, arm.cond, st, c).Ended?
    ensures var r := RunKind(o, fuel + 1, Alone(If([arm] + rest)), st, c);
            var g := RunGuard(o, fuel, arm.cond, st, c);
            if g.out == Normal(0) then SameEnd(r, RunList(o, fuel, arm.body, g.st, c))
            else if g.out.Normal? then SameEnd(r, RunKind(o, fuel + 1, Alone(If(rest)), g.st, c))
            else EndsAs(r, g.st, g.out)
  {
    hide RunList, RunGuard;
    var arms := [arm] + rest;
    var g := RunGuard(o, fuel, arm.cond, st, c);
    var next := arms[0 := arm.(cond := g.tree)];
    assert next[1..] == rest == rest[0..];
    ArmsShift(o, fuel, next, 1, rest, 0, g.st, c);
  }

  // else runs its body, and an if whose conditions have all failed ends with 0.
  lemma ElseRuns(o: Leaves, fuel: nat, body: seq<Item>, st: State, c: Ctx)
    ensures SameEnd(RunKind(o, fuel + 1, Alone(If([Arm([], body, true)])), st, c), RunList(o, fuel, body, st, c))
    ensures EndsAs(RunKind(o, fuel + 1, Alone(If([])), st, c), st, Normal(0))
  {
    hide RunList;
  }

  // ---- while ----

  // A condition that fails at once ends the while with 0. After a round whose body ended with v the
  // while goes on as one over the trees the round has left, and v is its status if that ends at once.
  lemma WhileRuns(o: Leaves, fuel: nat, test: seq<Item>, loop: seq<Item>, st: State, c: Ctx)
    requires RunGuard(o, fuel + 1, test, st, c).Ended?
    ensures var r := RunKind(o, fuel + 2, Alone(While(test, loop)), st, c);
            var g := RunGuard(o, fuel + 1, test, st, c);
            if !g.out.Normal? then EndsAs(r, g.st, g.out)
            else if g.out.status != 0 then EndsAs(r, g.st, Normal(0))
            else
              var b := RunList(o, fuel + 1, loop, g.st, c);
              if b.Diverged? then r.Diverged?
              else if !b.out.Normal? then EndsAs(r, b.st, b.out)
              else
                var g1 := RunGuard(o, fuel, g.tree, b.st, c);
                if g1.Ended? && g1.out.Normal? && g1.out.status != 0 then EndsAs(r, g1.st, b.out)
                else SameEnd(r, RunKind(o, fuel + 1, Alone(While(g.tree, b.tree)), b.st, c))
  {
    hide RunList, RunGuard, RunWhile;
    var g := RunGuard(o, fuel + 1, test, st, c);
    WhileStep(o, fuel + 1, test, loop, 0, st, c);
    if g.out == Normal(0) {
      var b := RunList(o, fuel + 1, loop, g.st, c);
      if b.Ended? && b.out.Normal? {
        WhileStatus(o, fuel, g.tree, b.tree, b.out.status, b.st, c);
      }
    }
  }

  lemma WhileStep(o: Leaves, fuel: nat, test: seq<Item>, loop: seq<Item>, status: int, st: State, c: Ctx)
    requires RunGuard(o, fuel, test, st, c).Ended?
    ensures var r := RunWhile(o, fuel, test, loop, status, st, c);
            var g := RunGuard(o, fuel, test, st, c);
            if !g.out.Normal? then EndsAs(r, g.st, g.out)
            else if g.out.status != 0 then EndsAs(r, g.st, Normal(status))
            else
              var b := RunList(o, fuel, loop, g.st, c);
              if b.Diverged? then r.Diverged?
              else if !b.out.Normal? then EndsAs(r, b.st, b.out)
              else if fuel == 0 then r.Diverged?
              else r == RunWhile(o, fuel - 1, g.tree, b.tree, b.out.status, b.st, c)
  {
    hide RunList, RunGuard;
  }

  // The status so far only matters when the condition fails at once.
  lemma WhileStatus(o: Leaves, fuel: nat, test: seq<Item>, loop: seq<Item>, status: int, st: State, c: Ctx)
    ensures var g := RunGuard(o, fuel, test, st, c);
            var r := RunWhile(o, fuel, test, loop, status, st, c);
            if g.Ended? && g.out.Normal? && g.out.status != 0 then EndsAs(r, g.st, Normal(status))
            else r == RunWhile(o, fuel, test, loop, 0, st, c)
  {
    hide RunList, RunGuard;
  }

  // ---- for ----

  // The first word is the variable's value in the first round, the other words are those of the
  // rounds after it; the status is that of the last round, 0 without words.
  lemma ForRuns(o: Leaves, fuel: nat, name: string, word: string, rest: seq<string>, each: seq<Item>, st: State, c: Ctx)
    requires NameOk(name)
    ensures var r := RunKind(o, fuel + 1, Alone(For(name, [word] + rest, each)), st, c);
            var b := RunList(o, fuel, each, st.(vis := st.vis.(env := st.vis.env[name := word])), c);
            if b.Ended? && b.out.Normal? && rest != [] then
              SameEnd(r, RunKind(o, fuel + 1, Alone(For(name, rest, each)), b.st, c))
            else SameEnd(r, b)
    ensures EndsAs(RunKind(o, fuel + 1, Alone(For(name, [], each)), st, c), st, Normal(0))
  {
    hide RunList;
    var words := [word] + rest;
    var b := RunList(o, fuel, each, st.(vis := st.vis.(env := st.vis.env[name := word])), c);
    if b.Ended? && b.out.Normal? {
      assert words[1..] == rest == rest[0..];
      ForShift(o, fuel, name, words, 1, rest, 0, each, b.out.status, 0, b.st, c);
    }
  }

  lemma {:induction false} ForShift(o: Leaves, fuel: nat, name: string, words: seq<string>, w: nat, more: seq<string>,
                                    m: nat, each: seq<Item>, status: int, other: int, st: State, c: Ctx)
    requires w <= |words| && m <= |more| && words[w..] == more[m..]
    ensures words[w..] != [] || status == other ==>
              RunFor(o, fuel, name, words, w, each, status, st, c) == RunFor(o, fuel, name, more, m, each, other, st, c)
    ensures words[w..] == [] ==> RunFor(o, fuel, name, words, w, each, status, st, c) == Ended(st, Normal(status), ())
    decreases |words| - w
  {
    hide RunList;
    assert |words[w..]| == |more[m..]|;
    if w < |words| && NameOk(name) {
      assert words[w] == words[w..][0] == more[m];
      assert words[w + 1..] == words[w..][1..] == more[m + 1..];
      var b := RunList(o, fuel, each, st.(vis := st.vis.(env := st.vis.env[name := words[w]])), c);
      if b.Ended? && b.out.Normal? {
        ForShift(o, fuel, name, words, w + 1, more, m + 1, each, b.out.status, b.out.status, b.st, c);
      }
    }
  }

  // ---- case ----

  // The first branch that has a pattern for the expanded word runs; without one the status is 0.
  lemma CaseRuns(o: Leaves, fuel: nat, word: string, branches: seq<Branch>, st: State, c: Ctx, b: nat)
    requires b <= |branches| && !o.expandWord(st.vis, word).arithError && !o.expandWord(st.vis, word).nounsetError
    requires forall k, p :: 0 <= k < b && p in branches[k].patterns ==> !Matches(p, o.expandWord(st.vis, word).text)
    requires b < |branches| ==> exists p :: p in branches[b].patterns && Matches(p, o.expandWord(st.vis, word).text)
    ensures var r := RunKind(o, fuel + 1, Alone(Case(word, branches)), st, c);
            var s := st.(vis := st.vis.(world := o.expandWord(st.vis, word).world));
            if b == |branches| then EndsAs(r, s, Normal(0)) else SameEnd(r, RunList(o, fuel, branches[b].body, s, c))
  {
    hide RunList, Matches;
    var w := o.expandWord(st.vis, word);
    BranchRuns(o, fuel, w.text, branches, 0, b, SetWorld(st, w.world), c);
  }

  lemma {:induction false} BranchRuns(o: Leaves, fuel: nat, text: string, branches: seq<Branch>, a: nat, b: nat,
                                      st: State, c: Ctx)
    requires a <= b <= |branches|
    requires forall k, p :: a <= k < b && p in branches[k].patterns ==> !Matches(p, text)
    requires b < |branches| ==> exists p :: p in branches[b].patterns && Matches(p, text)
    ensures var r := RunBranches(o, fuel, text, branches, a, st, c);
            if b == |branches| then EndsAs(r, st, Normal(0)) else SameEnd(r, RunList(o, fuel, branches[b].body, st, c))
    decreases b - a
  {
    hide RunList, Matches;
    if a < b {
      BranchRuns(o, fuel, text, branches, a + 1, b, st, c);
    }
  }
}
