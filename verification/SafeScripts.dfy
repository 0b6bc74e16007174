// Scripts that run as the standard asks whatever their commands do, by their text alone: on the left
// of && and || they have nothing that runs items.
module SafeScripts {
  import opened Ast
  import opened Semantics
  import opened RunLaws
  import opened ErrexitAgree
  import opened ErrexitCase

  // Nothing in it can be stopped. A single command may be one, as long as there are no functions.
  predicate Inert(item: Item, calls: bool) {
    match item.kind
    case Pipeline(cmds) => item.background || |cmds| != 1 || !calls
    case DBracket(_, _) => true
    case Fn(_, _) => true
    case _ => false
  }

  // At every depth all left operands are inert; without `calls` there are no definitions.
  predicate Safe(items: seq<Item>, calls: bool)
    decreases items
  {
    forall k :: 0 <= k < |items| ==>
      SafeItem(items[k], calls) && (Followed(items, k) ==> Inert(items[k], calls))
  }

  predicate SafeItem(item: Item, calls: bool)
    decreases item
  {
    SafeKind(item.kind, calls)
  }

  predicate SafeKind(kind: Kind, calls: bool)
    decreases kind
  {
    match kind
    case Pipeline(_) => true
    case DBracket(_, _) => true
    case Fn(_, body) => calls && Safe(body, calls)
    case If(arms) => SafeArms(arms, calls)
    case While(test, loop) => Safe(test, calls) && Safe(loop, calls)
    case For(_, _, each) => Safe(each, calls)
    case Case(_, branches) => forall b :: 0 <= b < |branches| ==> Safe(branches[b].body, calls)
  }

  predicate SafeArms(arms: seq<Arm>, calls: bool)
    decreases arms
  {
    forall a :: 0 <= a < |arms| ==> Safe(arms[a].cond, calls) && Safe(arms[a].body, calls)
  }

  predicate SafeFns(fns: map<string, seq<Item>>, calls: bool) {
    (forall name :: name in fns ==> Safe(fns[name], calls)) && (calls || fns == map[])
  }

  // No item ends inside a left operand.
  ghost predicate Clean(evs: seq<Event>) {
    forall k :: 0 <= k < |evs| && evs[k].Finished? ==> Open(evs[..k], LeftOperand) == 0
  }

  ghost predicate Kept(st: State, s: State, calls: bool) {
    st.log <= s.log && Clean(New(st, s)) && SafeFns(s.fns, calls)
  }

  ghost predicate Keeps<T>(st: State, r: Run<T>, calls: bool) {
    r.Ended? ==> Kept(st, r.st, calls)
  }

  lemma KeptThen(st: State, m: State, t: State, out: Outcome, c: Ctx, calls: bool)
    requires Law(st, m, out, c) && Kept(st, m, calls) && Kept(m, t, calls)
    ensures Kept(st, t, calls)
  {
    hide Open, Unwound, Inner, ErrexitExact, Definitions, LocalsAt, SafeFns;
    var a, b, e := New(st, m), New(m, t), New(st, t);
    assert e == a + b;
    forall k | 0 <= k < |e| && e[k].Finished?
      ensures Open(e[..k], LeftOperand) == 0
    {
      if k < |a| {
        assert e[..k] == a[..k];
      } else {
        OpenAfter(a, b, k - |a|, LeftOperand);
      }
    }
  }

  lemma KeptQuiet(st: State, s: State, calls: bool)
    requires NoItems(st, s) && SafeFns(s.fns, calls)
    ensures Kept(st, s, calls)
  {
    forall k | 0 <= k < |New(st, s)|
      ensures !New(st, s)[k].Finished?
    {
      assert New(st, s)[k] == s.log[|st.log| + k];
    }
  }

  lemma KeptInCondition(st: State, s: State, calls: bool)
    requires Kept(Log(st, Begin(Condition)), s, calls)
    ensures Kept(st, Log(s, End(Condition)), calls)
  {
    hide Open, SafeFns;
    var evs := New(Log(st, Begin(Condition)), s);
    var e := Bracketed(Condition, evs);
    assert New(st, Log(s, End(Condition))) == e;
    forall k | 0 <= k < |e| && e[k].Finished?
      ensures Open(e[..k], LeftOperand) == 0
    {
      assert e[k] == evs[k - 1];
      OpenBracketed(Condition, evs, k, LeftOperand);
    }
  }

  lemma InertRunsNone(o: Leaves, item: Item, st: State, calls: bool)
    requires Inert(item, calls) && SafeFns(st.fns, calls)
    ensures !RunsItems(o, item, st)
  {
  }

  // ---- runs ----

  lemma {:induction false} SafeRunKind(o: Leaves, fuel: nat, item: Item, st: State, c: Ctx, calls: bool)
    requires SafeKind(item.kind, calls) && SafeFns(st.fns, calls)
    ensures var r := RunKind(o, fuel, item, st, c);
            && Keeps(st, r, calls)
            && (r.Ended? ==> SafeKind(r.tree, calls))
            && (r.Ended? && Inert(item, calls) ==> Inert(item.(kind := r.tree), calls))
    decreases fuel, 3
  {
    hide RunArms, RunWhile, RunFor, RunCase, RunPipeline, Kept, Safe;
    match item.kind
    case Pipeline(cmds) =>
      if item.background {
        KeptQuiet(st, RunBackground(o, cmds, st).0, calls);
      } else {
        SafeRunPipeline(o, fuel, cmds, st, c, calls);
      }
    case DBracket(tokens, marks) => KeptQuiet(st, RunTest(o, tokens, marks, st).0, calls);
    case Fn(name, body) => KeptQuiet(st, Define(name, body, st).0, calls);
    case If(arms) => if fuel > 0 { SafeRunArms(o, fuel - 1, arms, 0, st, c, calls); }
    case While(test, loop) => if fuel > 0 { SafeRunWhile(o, fuel - 1, test, loop, 0, st, c, calls); }
    case For(name, words, each) => if fuel > 0 { SafeRunFor(o, fuel - 1, name, words, 0, each, 0, st, c, calls); }
    case Case(word, branches) => if fuel > 0 { SafeRunCase(o, fuel - 1, word, branches, st, c, calls); }
  }

  lemma {:induction false} SafeRunAt(o: Leaves, fuel: nat, items: seq<Item>, i: nat, st: State, c: Ctx, calls: bool)
    requires i < |items| && Safe(items, calls) && SafeFns(st.fns, calls)
    ensures var r := RunAt(o, fuel, items, i, st, c);
            && Keeps(st, r, calls)
            && (r.Ended? ==> SafeKind(r.tree, calls))
            && (r.Ended? && Followed(items, i) ==> Inert(items[i].(kind := r.tree), calls))
    decreases fuel, 4, 0
  {
    hide RunKind, RunsItems, Inert;
    if Followed(items, i) {
      var b, d := Log(st, Begin(LeftOperand)), Within(c, LeftOperand);
      SafeRunKind(o, fuel, items[i], b, d, calls);
      InertRunsNone(o, items[i], b, calls);
      var r := RunKind(o, fuel, items[i], b, d);
      if r.Ended? {
        OthersRunNone(o, fuel, items[i], b, d);
        hide Safe, SafeKind, SafeFns;
        assert NoItems(st, Log(r.st, End(LeftOperand)));
        KeptQuiet(st, Log(r.st, End(LeftOperand)), calls);
      }
    } else {
      SafeRunKind(o, fuel, items[i], st, c, calls);
    }
  }

  lemma {:induction false} SafeRunOne(o: Leaves, fuel: nat, items: seq<Item>, i: nat, st: State, c: Ctx, calls: bool)
    requires i < |items| && Safe(items, calls) && SafeFns(st.fns, calls)
    ensures var r := RunOne(o, fuel, items, i, st, c);
            Keeps(st, r, calls) && (r.Ended? ==> Safe(r.tree, calls))
    decreases fuel, 4, 1
  {
    hide RunAt, SafeFns, Law;
    SafeRunAt(o, fuel, items, i, st, c, calls);
    RunAtLaw(o, fuel, items, i, st, c);
    var r := RunAt(o, fuel, items, i, st, c);
    if r.Ended? {
      StaysSafe(items, i, r.tree, calls);
      hide Safe, SafeKind, Open;
      var one := RunOne(o, fuel, items, i, st, c);
      var s := r.st.(vis := one.st.vis);
      EndsClean(s, one.st, calls);
      assert New(st, s) == New(st, r.st);
      AnyVis(st, r.st, s, r.out, c);
      KeptThen(st, s, one.st, r.out, c, calls);
    }
  }

  lemma AnyVis(st: State, s: State, t: State, out: Outcome, c: Ctx)
    requires Law(st, s, out, c) && t == s.(vis := t.vis)
    ensures Law(st, t, out, c)
  {
  }

  // The end of an item, with or without an abort.
  lemma EndsClean(s: State, t: State, calls: bool)
    requires SafeFns(s.fns, calls) && t.fns == s.fns && s.log <= t.log && |t.log| <= |s.log| + 2
    requires |t.log| == |s.log| + 2 ==> !t.log[|s.log| + 1].Finished?
    ensures Kept(s, t, calls)
  {
    assert forall k :: 0 <= k < |New(s, t)| ==> New(s, t)[k] == t.log[|s.log| + k];
  }

  lemma StaysSafe(items: seq<Item>, i: nat, kind: Kind, calls: bool)
    requires i < |items| && Safe(items, calls) && SafeKind(kind, calls)
    requires Followed(items, i) ==> Inert(items[i].(kind := kind), calls)
    ensures Safe(items[i := items[i].(kind := kind)], calls)
  {
    hide SafeKind, Inert;
    var next := items[i := items[i].(kind := kind)];
    forall k | 0 <= k < |next|
      ensures SafeKind(next[k].kind, calls) && (Followed(next, k) ==> Inert(next[k], calls))
    {
      assert Followed(next, k) == Followed(items, k);
    }
  }

  lemma {:induction false} SafeRunItems(o: Leaves, fuel: nat, items: seq<Item>, i: nat, status: int, st: State, c: Ctx,
                                        calls: bool)
    requires i <= |items| && Safe(items, calls) && SafeFns(st.fns, calls)
    ensures var r := RunItems(o, fuel, items, i, status, st, c);
            Keeps(st, r, calls) && (r.Ended? ==> Safe(r.tree, calls))
    decreases fuel, 5, |items| - i
  {
    hide Safe, Kept, SafeFns, Law, RunOne;
    KeptQuiet(st, st, calls);
    if i < |items| {
      if Skipped(items[i], i, status) {
        SafeRunItems(o, fuel, items, i + 1, status, st, c, calls);
      } else {
        SafeRunOne(o, fuel, items, i, st, c, calls);
        RunOneLaw(o, fuel, items, i, st, c);
        OneKeepsLength(o, fuel, items, i, st, c);
        var r := RunOne(o, fuel, items, i, st, c);
        if r.Ended? && r.out.Normal? {
          KeptFns(st, r.st, calls);
          SafeRunItems(o, fuel, r.tree, i + 1, r.out.status, r.st, c, calls);
          var r2 := RunItems(o, fuel, r.tree, i + 1, r.out.status, r.st, c);
          if r2.Ended? {
            KeptThen(st, r.st, r2.st, r.out, c, calls);
          }
        }
      }
    }
  }

  lemma KeptFns(st: State, s: State, calls: bool)
    requires Kept(st, s, calls)
    ensures SafeFns(s.fns, calls)
  {
  }

  lemma {:induction false} SafeRunList(o: Leaves, fuel: nat, items: seq<Item>, st: State, c: Ctx, calls: bool)
    requires Safe(items, calls) && SafeFns(st.fns, calls)
    ensures var r := RunList(o, fuel, items, st, c); Keeps(st, r, calls) && (r.Ended? ==> Safe(r.tree, calls))
    decreases fuel, 6
  {
    SafeRunItems(o, fuel, items, 0, 0, st, c, calls);
  }

  // A list after a run that ended normally.
  lemma {:induction false} SafeThenList(o: Leaves, fuel: nat, st: State, s: State, out: Outcome, items: seq<Item>,
                                        c: Ctx, calls: bool)
    requires Law(st, s, out, c) && Kept(st, s, calls) && Safe(items, calls)
    ensures var r := RunList(o, fuel, items, s, c); Keeps(st, r, calls) && (r.Ended? ==> Safe(r.tree, calls))
    decreases fuel, 7, 0
  {
    hide Safe, Kept, SafeFns, Law, RunList;
    KeptFns(st, s, calls);
    SafeRunList(o, fuel, items, s, c, calls);
    var r := RunList(o, fuel, items, s, c);
    if r.Ended? {
      KeptThen(st, s, r.st, out, c, calls);
    }
  }

  lemma {:induction false} SafeRunGuard(o: Leaves, fuel: nat, items: seq<Item>, st: State, c: Ctx, calls: bool)
    requires Safe(items, calls) && SafeFns(st.fns, calls)
    ensures var r := RunGuard(o, fuel, items, st, c); Keeps(st, r, calls) && (r.Ended? ==> Safe(r.tree, calls))
    decreases fuel, 7, 0
  {
    hide Safe, Kept, SafeFns, RunList;
    var b, d := Log(st, Begin(Condition)), Within(c, Condition);
    SafeRunList(o, fuel, items, b, d, calls);
    var r := RunList(o, fuel, items, b, d);
    if r.Ended? {
      KeptInCondition(st, r.st, calls);
    }
  }

  lemma {:induction false} SafeRunArms(o: Leaves, fuel: nat, arms: seq<Arm>, a: nat, st: State, c: Ctx, calls: bool)
    requires a <= |arms| && SafeArms(arms, calls) && SafeFns(st.fns, calls)
    ensures var r := RunArms(o, fuel, arms, a, st, c); Keeps(st, r, calls) && (r.Ended? ==> SafeKind(r.tree, calls))
    decreases fuel, 8, |arms| - a
  {
    hide Safe, Kept, SafeFns, Law, RunList, RunGuard;
    KeptQuiet(st, st, calls);
    if a == |arms| {
    } else if arms[a].isElse {
      SafeRunList(o, fuel, arms[a].body, st, c, calls);
    } else {
      SafeRunGuard(o, fuel, arms[a].cond, st, c, calls);
      RunGuardLaw(o, fuel, arms[a].cond, st, c);
      var r := RunGuard(o, fuel, arms[a].cond, st, c);
      if r.Ended? && r.out.Normal? {
        if r.out.status == 0 {
          SafeThenList(o, fuel, st, r.st, r.out, arms[a].body, c, calls);
        } else {
          var arms1 := arms[a := arms[a].(cond := r.tree)];
          KeptFns(st, r.st, calls);
          SafeRunArms(o, fuel, arms1, a + 1, r.st, c, calls);
          var r2 := RunArms(o, fuel, arms1, a + 1, r.st, c);
          if r2.Ended? {
            KeptThen(st, r.st, r2.st, r.out, c, calls);
          }
        }
      }
    }
  }

  lemma {:induction false} SafeRunWhile(o: Leaves, fuel: nat, test: seq<Item>, loop: seq<Item>, status: int,
                                        st: State, c: Ctx, calls: bool)
    requires Safe(test, calls) && Safe(loop, calls) && SafeFns(st.fns, calls)
    ensures var r := RunWhile(o, fuel, test, loop, status, st, c);
            Keeps(st, r, calls) && (r.Ended? ==> SafeKind(r.tree, calls))
    decreases fuel, 8
  {
    hide Safe, Kept, SafeFns, Law, RunList, RunGuard;
    SafeRunGuard(o, fuel, test, st, c, calls);
    RunGuardLaw(o, fuel, test, st, c);
    var r := RunGuard(o, fuel, test, st, c);
    if r.Ended? && r.out.Normal? && r.out.status == 0 {
      SafeThenList(o, fuel, st, r.st, r.out, loop, c, calls);
      ThenListLaw(o, fuel, st, r.st, 0, loop, c);
      var b := RunList(o, fuel, loop, r.st, c);
      if b.Ended? && b.out.Normal? && fuel > 0 {
        KeptFns(st, b.st, calls);
        SafeRunWhile(o, fuel - 1, r.tree, b.tree, b.out.status, b.st, c, calls);
        var w := RunWhile(o, fuel - 1, r.tree, b.tree, b.out.status, b.st, c);
        if w.Ended? {
          KeptThen(st, b.st, w.st, b.out, c, calls);
        }
      }
    }
  }

  lemma {:induction false} SafeRunFor(o: Leaves, fuel: nat, name: string, words: seq<string>, w: nat, each: seq<Item>,
                                      status: int, st: State, c: Ctx, calls: bool)
    requires w <= |words| && Safe(each, calls) && SafeFns(st.fns, calls)
    ensures Keeps(st, RunFor(o, fuel, name, words, w, each, status, st, c), calls)
    decreases fuel, 8, |words| - w
  {
    hide Safe, Kept, SafeFns, Law, RunList;
    KeptQuiet(st, st, calls);
    if w < |words| && NameOk(name) {
      var s0 := st.(vis := st.vis.(env := st.vis.env[name := words[w]]));
      Quiet(st, s0, 0, c);
      KeptQuiet(st, s0, calls);
      SafeThenList(o, fuel, st, s0, Normal(0), each, c, calls);
      ThenListLaw(o, fuel, st, s0, 0, each, c);
      var b := RunList(o, fuel, each, s0, c);
      if b.Ended? && b.out.Normal? {
        KeptFns(st, b.st, calls);
        SafeRunFor(o, fuel, name, words, w + 1, each, b.out.status, b.st, c, calls);
        var r := RunFor(o, fuel, name, words, w + 1, each, b.out.status, b.st, c);
        if r.Ended? {
          KeptThen(st, b.st, r.st, b.out, c, calls);
        }
      }
    }
  }

  lemma {:induction false} SafeRunCase(o: Leaves, fuel: nat, word: string, branches: seq<Branch>, st: State, c: Ctx,
                                       calls: bool)
    requires SafeKind(Case(word, branches), calls) && SafeFns(st.fns, calls)
    ensures Keeps(st, RunCase(o, fuel, word, branches, st, c), calls)
    decreases fuel, 9
  {
    hide SafeFns, RunBranches;
    var w := o.expandWord(st.vis, word);
    var s := SetWorld(st, w.world);
    KeptQuiet(st, ExpandFailed(s, w.nounsetError).0, calls);
    SafeRunBranches(o, fuel, w.text, branches, 0, s, c, calls);
  }

  lemma {:induction false} SafeRunBranches(o: Leaves, fuel: nat, text: string, branches: seq<Branch>, b: nat,
                                           st: State, c: Ctx, calls: bool)
    requires b <= |branches| && SafeFns(st.fns, calls)
    requires forall k :: 0 <= k < |branches| ==> Safe(branches[k].body, calls)
    ensures Keeps(st, RunBranches(o, fuel, text, branches, b, st, c), calls)
    decreases fuel, 7, |branches| - b
  {
    hide Safe, Kept, SafeFns, RunList, Picked;
    KeptQuiet(st, st, calls);
    if b < |branches| {
      SafeRunList(o, fuel, branches[b].body, st, c, calls);
      SafeRunBranches(o, fuel, text, branches, b + 1, st, c, calls);
    }
  }

  lemma {:induction false} SafeRunPipeline(o: Leaves, fuel: nat, cmds: seq<Cmd>, st: State, c: Ctx, calls: bool)
    requires SafeFns(st.fns, calls)
    ensures var r := RunPipeline(o, fuel, cmds, st, c);
            Keeps(st, r, calls) && (r.Ended? ==> r.tree.Pipeline? && |r.tree.cmds| == |cmds|)
    decreases fuel, 2
  {
    hide SafeFns, RunCommand;
    if cmds == [] {
      KeptQuiet(st, st, calls);
    } else {
      var (v, cmds1, arith, nounset) := ExpandStages(o, st.vis, cmds, 0, false, false);
      var s := st.(vis := v);
      if arith || nounset {
        KeptQuiet(st, ExpandFailed(s, nounset).0, calls);
      } else if |cmds| == 1 {
        SafeRunCommand(o, fuel, cmds1[0], s, c, calls);
      } else {
        KeptQuiet(st, SetWorld(Log(s, Leaf(cmds1)), o.pipe(s.vis, cmds1).world), calls);
      }
    }
  }

  lemma {:induction false} SafeRunCommand(o: Leaves, fuel: nat, cmd: Cmd, st: State, c: Ctx, calls: bool)
    requires SafeFns(st.fns, calls)
    ensures Keeps(st, RunCommand(o, fuel, cmd, st, c), calls)
    decreases fuel, 1
  {
    hide SafeFns, RunCall, RunLeaf;
    KeptQuiet(st, st, calls);
    var e := o.expand(st.vis, cmd);
    var s := SetWorld(st, e.world);
    KeptQuiet(st, ExpandFailed(s, e.nounsetError).0, calls);
    LeafNoItems(o, e.cmd, s, c);
    KeptQuiet(s, RunLeaf(o, e.cmd, s, c).0, calls);
    if fuel > 0 && e.cmd.argv != [] && e.cmd.argv[0] in s.fns {
      SafeRunCall(o, fuel - 1, e.cmd.argv, s, c, calls);
    }
  }

  lemma {:induction false} SafeRunCall(o: Leaves, fuel: nat, argv: seq<string>, st: State, c: Ctx, calls: bool)
    requires argv != [] && argv[0] in st.fns && SafeFns(st.fns, calls)
    ensures Keeps(st, RunCall(o, fuel, argv, st, c), calls)
    decreases fuel, 7
  {
    hide RunList, Restore;
    SafeRunList(o, fuel, st.fns[argv[0]], Enter(st, argv), c.(depth := c.depth + 1), calls);
  }

  // Such a script runs as the standard asks, exemption marks aside, for all commands and expansions.
  lemma SafeIsStandard(o: Leaves, fuel: nat, items: seq<Item>, st: State, c: Ctx, calls: bool)
    requires !c.deep && RunList(o, fuel, items, st, c).Ended? && Safe(items, calls) && SafeFns(st.fns, calls)
    ensures SameRun(RunList(o, fuel, items, st, c), RunList(o, fuel, items, st, c.(deep := true)))
  {
    SafeRunList(o, fuel, items, st, c, calls);
    AgreeList(o, fuel, items, st, st, c, c.(deep := true));
    hide RunList, Open, Safe, SafeFns;
  }
}
