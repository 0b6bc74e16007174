// Fuel only cuts a run short: once a run ends, more fuel changes nothing. So a list that ends with
// some fuel has one result, and the fuel in Semantics is no restriction.
module FuelLaws {
  import opened Ast
  import opened Semantics

  lemma {:induction false} MoreKind(o: Leaves, fuel: nat, item: Item, st: State, c: Ctx)
    ensures RunKind(o, fuel, item, st, c).Ended? ==> RunKind(o, fuel + 1, item, st, c) == RunKind(o, fuel, item, st, c)
    decreases fuel, 3
  {
    hide RunArms, RunWhile, RunFor, RunCase, RunPipeline;
    match item.kind
    case Pipeline(cmds) => MorePipeline(o, fuel, cmds, st, c);
    case DBracket(_, _) =>
    case Fn(_, _) =>
    case If(arms) => if fuel > 0 { MoreArms(o, fuel - 1, arms, 0, st, c); }
    case While(test, loop) => if fuel > 0 { MoreWhile(o, fuel - 1, test, loop, 0, st, c); }
    case For(name, words, each) => if fuel > 0 { MoreFor(o, fuel - 1, name, words, 0, each, 0, st, c); }
    case Case(word, branches) => if fuel > 0 { MoreCase(o, fuel - 1, word, branches, st, c); }
  }

  lemma {:induction false} MoreOne(o: Leaves, fuel: nat, items: seq<Item>, i: nat, st: State, c: Ctx)
    requires i < |items|
    ensures RunOne(o, fuel, items, i, st, c).Ended? ==>
              RunOne(o, fuel + 1, items, i, st, c) == RunOne(o, fuel, items, i, st, c)
    decreases fuel, 4
  {
    hide RunKind;
    MoreKind(o, fuel, items[i], st, c);
    MoreKind(o, fuel, items[i], Log(st, Begin(LeftOperand)), Within(c, LeftOperand));
  }

  lemma {:induction false} MoreItems(o: Leaves, fuel: nat, items: seq<Item>, i: nat, status: int, st: State, c: Ctx)
    requires i <= |items|
    ensures RunItems(o, fuel, items, i, status, st, c).Ended? ==>
              RunItems(o, fuel + 1, items, i, status, st, c) == RunItems(o, fuel, items, i, status, st, c)
    decreases fuel, 5, |items| - i
  {
    if i < |items| {
      if Skipped(items[i], i, status) {
        MoreItems(o, fuel, items, i + 1, status, st, c);
      } else {
        MoreOne(o, fuel, items, i, st, c);
        var r := RunOne(o, fuel, items, i, st, c);
        if r.Ended? && r.out.Normal? {
          MoreItems(o, fuel, r.tree, i + 1, r.out.status, r.st, c);
        }
      }
    }
  }

  lemma {:induction false} MoreList(o: Leaves, fuel: nat, items: seq<Item>, st: State, c: Ctx)
    ensures RunList(o, fuel, items, st, c).Ended? ==>
              RunList(o, fuel + 1, items, st, c) == RunList(o, fuel, items, st, c)
    decreases fuel, 6
  {
    MoreItems(o, fuel, items, 0, 0, st, c);
  }

  lemma {:induction false} MoreGuard(o: Leaves, fuel: nat, items: seq<Item>, st: State, c: Ctx)
    ensures RunGuard(o, fuel, items, st, c).Ended? ==>
              RunGuard(o, fuel + 1, items, st, c) == RunGuard(o, fuel, items, st, c)
    decreases fuel, 7
  {
    hide RunList;
    MoreList(o, fuel, items, Log(st, Begin(Condition)), Within(c, Condition));
  }

  lemma {:induction false} MoreArms(o: Leaves, fuel: nat, arms: seq<Arm>, a: nat, st: State, c: Ctx)
    requires a <= |arms|
    ensures RunArms(o, fuel, arms, a, st, c).Ended? ==>
              RunArms(o, fuel + 1, arms, a, st, c) == RunArms(o, fuel, arms, a, st, c)
    decreases fuel, 8, |arms| - a
  {
    hide RunList, RunGuard;
    if a < |arms| {
      MoreList(o, fuel, arms[a].body, st, c);
      MoreGuard(o, fuel, arms[a].cond, st, c);
      var r := RunGuard(o, fuel, arms[a].cond, st, c);
      if r.Ended? && r.out.Normal? {
        MoreList(o, fuel, arms[a].body, r.st, c);
        MoreArms(o, fuel, arms[a := arms[a].(cond := r.tree)], a + 1, r.st, c);
      }
    }
  }

  lemma {:induction false} MoreWhile(o: Leaves, fuel: nat, test: seq<Item>, loop: seq<Item>, status: int,
                                     st: State, c: Ctx)
    ensures RunWhile(o, fuel, test, loop, status, st, c).Ended? ==>
              RunWhile(o, fuel + 1, test, loop, status, st, c) == RunWhile(o, fuel, test, loop, status, st, c)
    decreases fuel, 8
  {
    hide RunList, RunGuard;
    MoreGuard(o, fuel, test, st, c);
    var r := RunGuard(o, fuel, test, st, c);
    if r.Ended? && r.out.Normal? && r.out.status == 0 {
      MoreList(o, fuel, loop, r.st, c);
      var b := RunList(o, fuel, loop, r.st, c);
      if b.Ended? && b.out.Normal? && fuel > 0 {
        MoreWhile(o, fuel - 1, r.tree, b.tree, b.out.status, b.st, c);
      }
    }
  }

  lemma {:induction false} MoreFor(o: Leaves, fuel: nat, name: string, words: seq<string>, w: nat, each: seq<Item>,
                                   status: int, st: State, c: Ctx)
    requires w <= |words|
    ensures RunFor(o, fuel, name, words, w, each, status, st, c).Ended? ==>
              RunFor(o, fuel + 1, name, words, w, each, status, st, c) ==
              RunFor(o, fuel, name, words, w, each, status, st, c)
    decreases fuel, 7, |words| - w
  {
    hide RunList;
    if w < |words| && NameOk(name) {
      var s0 := st.(vis := st.vis.(env := st.vis.env[name := words[w]]));
      MoreList(o, fuel, each, s0, c);
      var b := RunList(o, fuel, each, s0, c);
      if b.Ended? && b.out.Normal? {
        MoreFor(o, fuel, name, words, w + 1, each, b.out.status, b.st, c);
      }
    }
  }

  lemma {:induction false} MoreCase(o: Leaves, fuel: nat, word: string, branches: seq<Branch>, st: State, c: Ctx)
    ensures RunCase(o, fuel, word, branches, st, c).Ended? ==>
              RunCase(o, fuel + 1, word, branches, st, c) == RunCase(o, fuel, word, branches, st, c)
    decreases fuel, 9
  {
    var w := o.expandWord(st.vis, word);
    MoreBranches(o, fuel, w.text, branches, 0, SetWorld(st, w.world), c);
  }

  lemma {:induction false} MoreBranches(o: Leaves, fuel: nat, text: string, branches: seq<Branch>, b: nat,
                                        st: State, c: Ctx)
    requires b <= |branches|
    ensures RunBranches(o, fuel, text, branches, b, st, c).Ended? ==>
              RunBranches(o, fuel + 1, text, branches, b, st, c) == RunBranches(o, fuel, text, branches, b, st, c)
    decreases fuel, 7, |branches| - b
  {
    if b < |branches| {
      MoreList(o, fuel, branches[b].body, st, c);
      MoreBranches(o, fuel, text, branches, b + 1, st, c);
    }
  }

  lemma {:induction false} MorePipeline(o: Leaves, fuel: nat, cmds: seq<Cmd>, st: State, c: Ctx)
    ensures RunPipeline(o, fuel, cmds, st, c).Ended? ==>
              RunPipeline(o, fuel + 1, cmds, st, c) == RunPipeline(o, fuel, cmds, st, c)
    decreases fuel, 2
  {
    hide RunCommand;
    if cmds != [] {
      var (v, cmds1, arith, nounset) := ExpandStages(o, st.vis, cmds, 0, false, false);
      MoreCommand(o, fuel, cmds1[0], st.(vis := v), c);
    }
  }

  lemma {:induction false} MoreCommand(o: Leaves, fuel: nat, cmd: Cmd, st: State, c: Ctx)
    ensures RunCommand(o, fuel, cmd, st, c).Ended? ==>
              RunCommand(o, fuel + 1, cmd, st, c) == RunCommand(o, fuel, cmd, st, c)
    decreases fuel, 1
  {
    hide RunCall;
    var e := o.expand(st.vis, cmd);
    var s := SetWorld(st, e.world);
    if fuel > 0 && e.cmd.argv != [] && e.cmd.argv[0] in s.fns {
      MoreCall(o, fuel - 1, e.cmd.argv, s, c);
    }
  }

  lemma {:induction false} MoreCall(o: Leaves, fuel: nat, argv: seq<string>, st: State, c: Ctx)
    requires argv != [] && argv[0] in st.fns
    ensures RunCall(o, fuel, argv, st, c).Ended? ==> RunCall(o, fuel + 1, argv, st, c) == RunCall(o, fuel, argv, st, c)
    decreases fuel, 7
  {
    hide RunList;
    MoreList(o, fuel, st.fns[argv[0]], Enter(st, argv), c.(depth := c.depth + 1));
  }

  // A list that ends has one result.
  lemma {:induction false} FuelIrrelevant(o: Leaves, f: nat, g: nat, items: seq<Item>, st: State, c: Ctx)
    requires f <= g && RunList(o, f, items, st, c).Ended?
    ensures RunList(o, g, items, st, c) == RunList(o, f, items, st, c)
    decreases g - f
  {
    if f < g {
      MoreList(o, f, items, st, c);
      FuelIrrelevant(o, f + 1, g, items, st, c);
    }
  }
}
