// The errexit rule of the program beside that of section 2.8.1 of the Shell Command Language
// (POSIX.1-2017 XCU). The reference is the same run in a deep context, where all that runs inside an
// item on the left of && or || is exempt, whatever lists, calls and conditions lie between. The two
// runs are the same if and only if errexit aborts inside no left operand.
module ErrexitAgree {
  import opened CStrings
  import opened Ast
  import opened Semantics
  import opened RunLaws

  function Unmarked(e: Event): Event {
    if e.Finished? then e.(exempt := true) else e
  }

  // The same events, exemption marks aside.
  ghost predicate SameTrace(a: seq<Event>, b: seq<Event>) {
    |a| == |b| && forall k :: 0 <= k < |a| ==> Unmarked(a[k]) == Unmarked(b[k])
  }

  ghost predicate Alike(s: State, t: State) {
    && s.vis == t.vis && s.fns == t.fns && s.frame == t.frame && s.outer == t.outer
    && SameTrace(s.log, t.log)
  }

  // The second run ends as the first does.
  ghost predicate SameRun<T>(r: Run<T>, q: Run<T>) {
    r.Ended? && q.Ended? && Alike(r.st, q.st) && r.out == q.out && r.tree == q.tree
  }

  // The second context is that of a run which may be inside a left operand that the first does not
  // exempt, or in which such operands are exempt from here on.
  predicate Eases(c: Ctx, d: Ctx) {
    d.depth == c.depth && (c.exempt ==> d.exempt) && !c.deep
  }

  predicate Hot(c: Ctx, d: Ctx) {
    d.exempt && !c.exempt
  }

  // Nothing fatal happens inside a left operand; in a hot context, nothing fatal at all.
  ghost predicate Tame(evs: seq<Event>, hot: bool) {
    forall k :: 0 <= k < |evs| && Fatal(evs[k]) ==> !hot && Open(evs[..k], LeftOperand) == 0
  }

  // If the first run is tame, the second is the same.
  ghost predicate Agrees<T>(c: Ctx, d: Ctx, s: State, r: Run<T>, q: Run<T>) {
    r.Ended? && s.log <= r.st.log && Tame(New(s, r.st), Hot(c, d)) ==> SameRun(r, q)
  }

  // The parts of a tame trace are tame.
  lemma TameSplit(s: State, m: State, t: State, hot: bool, out: Outcome, c: Ctx)
    requires Law(s, m, out, c) && m.log <= t.log && Tame(New(s, t), hot)
    ensures Tame(New(s, m), hot) && Tame(New(m, t), hot)
  {
    hide Open, Unwound, Inner, ErrexitExact, Definitions, LocalsAt;
    var a, b := New(s, m), New(m, t);
    assert New(s, t) == a + b;
    forall k | 0 <= k < |a| && Fatal(a[k])
      ensures !hot && Open(a[..k], LeftOperand) == 0
    {
      assert (a + b)[k] == a[k] && (a + b)[..k] == a[..k];
    }
    forall k | 0 <= k < |b| && Fatal(b[k])
      ensures !hot && Open(b[..k], LeftOperand) == 0
    {
      assert (a + b)[|a| + k] == b[k];
      OpenAfter(a, b, k, LeftOperand);
    }
  }

  // Inside a condition a tame trace goes on, inside a left operand nothing fatal is left in it.
  lemma TameWithin(scope: Scope, evs: seq<Event>, hot: bool, inside: bool)
    requires Tame(Bracketed(scope, evs), hot) && Nested(evs, LeftOperand) && (inside ==> scope.LeftOperand?)
    ensures Tame(evs, inside)
  {
    hide Open;
    forall k | 0 <= k < |evs| && Fatal(evs[k])
      ensures !inside && Open(evs[..k], LeftOperand) == 0
    {
      assert Bracketed(scope, evs)[k + 1] == evs[k];
      OpenBracketed(scope, evs, k + 1, LeftOperand);
    }
  }

  // ---- leaves ----

  lemma {:induction false} LocalFromAlike(s: State, t: State, argv: seq<string>, i: nat, ret: int, depth: nat)
    requires Alike(s, t) && i <= |argv|
    ensures Alike(LocalFrom(s, argv, i, ret, depth).0, LocalFrom(t, argv, i, ret, depth).0)
    ensures LocalFrom(s, argv, i, ret, depth).1 == LocalFrom(t, argv, i, ret, depth).1
    decreases |argv| - i
  {
    if i < |argv| {
      var arg := argv[i];
      var k := IndexOf(arg, '=');
      if arg == [] || (k < |arg| && (k == 0 || k >= 256)) {
        LocalFromAlike(s, t, argv, i + 1, 1, depth);
      } else if arg[0] != '-' && s.outer + |s.frame| < LOCAL_MAX {
        var v := if k < |arg| then Some(arg[k + 1..]) else None;
        LocalFromAlike(MakeLocal(s, arg[..k], v, depth), MakeLocal(t, arg[..k], v, depth), argv, i + 1, ret, depth);
      }
    }
  }

  lemma BuiltinAlike(cmd: Cmd, s: State, t: State, c: Ctx, d: Ctx)
    requires cmd.argv != [] && Alike(s, t) && d.depth == c.depth
    ensures var (s1, out) := RunBuiltin(cmd, s, c);
            var (t1, out1) := RunBuiltin(cmd, t, d);
            Alike(s1, t1) && out == out1
  {
    LocalFromAlike(s, t, cmd.argv, 1, 0, c.depth);
  }

  lemma LeafAlike(o: Leaves, cmd: Cmd, s: State, t: State, c: Ctx, d: Ctx)
    requires Alike(s, t) && d.depth == c.depth
    ensures var (s1, out) := RunLeaf(o, cmd, s, c);
            var (t1, out1) := RunLeaf(o, cmd, t, d);
            Alike(s1, t1) && out == out1
  {
    hide RunBuiltin;
    var s0, t0 := Log(s, Leaf([cmd])), Log(t, Leaf([cmd]));
    if cmd.argv != [] && Concrete(cmd.argv[0]) {
      var p := if NeedsRedir(cmd) then o.redirect(s0.vis, cmd) else Opened(true, s0.vis.world);
      BuiltinAlike(cmd, SetWorld(s0, p.world), SetWorld(t0, p.world), c, d);
    }
  }

  // ---- runs ----

  lemma {:induction false} AgreeKind(o: Leaves, fuel: nat, item: Item, s: State, t: State, c: Ctx, d: Ctx)
    requires Alike(s, t) && Eases(c, d)
    ensures Agrees(c, d, s, RunKind(o, fuel, item, s, c), RunKind(o, fuel, item, t, d))
    decreases fuel, 3
  {
    hide RunArms, RunWhile, RunFor, RunCase, RunPipeline, Tame;
    match item.kind
    case Pipeline(cmds) => AgreePipeline(o, fuel, cmds, s, t, c, d);
    case DBracket(_, _) =>
    case Fn(_, _) =>
    case If(arms) => if fuel > 0 { AgreeArms(o, fuel - 1, arms, 0, s, t, c, d); }
    case While(test, loop) => if fuel > 0 { AgreeWhile(o, fuel - 1, test, loop, 0, s, t, c, d); }
    case For(name, words, each) => if fuel > 0 { AgreeFor(o, fuel - 1, name, words, 0, each, 0, s, t, c, d); }
    case Case(word, branches) => if fuel > 0 { AgreeCase(o, fuel - 1, word, branches, s, t, c, d); }
  }

  lemma {:induction false} AgreeAt(o: Leaves, fuel: nat, items: seq<Item>, i: nat, s: State, t: State, c: Ctx, d: Ctx)
    requires i < |items| && Alike(s, t) && Eases(c, d)
    ensures Agrees(c, d, s, RunAt(o, fuel, items, i, s, c), RunAt(o, fuel, items, i, t, d))
    decreases fuel, 4, 0
  {
    hide RunKind, Tame, Unwound, Inner, ErrexitExact, Definitions, LocalsAt, Open;
    if Followed(items, i) {
      var s0, t0 := Log(s, Begin(LeftOperand)), Log(t, Begin(LeftOperand));
      var c0, d0 := Within(c, LeftOperand), Within(d, LeftOperand);
      RunKindLaw(o, fuel, items[i], s0, c0);
      AgreeKind(o, fuel, items[i], s0, t0, c0, d0);
      var r := RunKind(o, fuel, items[i], s0, c0);
      if r.Ended? {
        var evs := New(s0, r.st);
        assert New(s, Log(r.st, End(LeftOperand))) == Bracketed(LeftOperand, evs);
        if Tame(Bracketed(LeftOperand, evs), Hot(c, d)) {
          TameWithin(LeftOperand, evs, Hot(c, d), Hot(c0, d0));
        }
      }
    } else {
      AgreeKind(o, fuel, items[i], s, t, c, d);
    }
  }

  lemma {:induction false} AgreeOne(o: Leaves, fuel: nat, items: seq<Item>, i: nat, s: State, t: State, c: Ctx, d: Ctx)
    requires i < |items| && Alike(s, t) && Eases(c, d)
    ensures Agrees(c, d, s, RunOne(o, fuel, items, i, s, c), RunOne(o, fuel, items, i, t, d))
    decreases fuel, 4, 1
  {
    hide RunAt, Unwound, Inner, Marked, ErrexitExact, Definitions, LocalsAt, Open;
    AgreeAt(o, fuel, items, i, s, t, c, d);
    RunAtLaw(o, fuel, items, i, s, c);
    var r := RunAt(o, fuel, items, i, s, c);
    var one := RunOne(o, fuel, items, i, s, c);
    if one.Ended? && Tame(New(s, one.st), Hot(c, d)) {
      TameSplit(s, r.st, one.st, Hot(c, d), r.out, c);
      if r.out.Normal? {
        var n := |r.st.log| - |s.log|;
        assert New(s, one.st)[n] == one.st.log[|r.st.log|];
      }
    }
  }

  lemma {:induction false} AgreeItems(o: Leaves, fuel: nat, items: seq<Item>, i: nat, status: int, s: State, t: State,
                                      c: Ctx, d: Ctx)
    requires i <= |items| && Alike(s, t) && Eases(c, d)
    ensures Agrees(c, d, s, RunItems(o, fuel, items, i, status, s, c), RunItems(o, fuel, items, i, status, t, d))
    decreases fuel, 5, |items| - i
  {
    hide Alike, Tame, Unwound, Inner, Marked, ErrexitExact, Definitions, LocalsAt;
    if i < |items| {
      if Skipped(items[i], i, status) {
        AgreeItems(o, fuel, items, i + 1, status, s, t, c, d);
      } else {
        AgreeOne(o, fuel, items, i, s, t, c, d);
        var r := RunOne(o, fuel, items, i, s, c);
        var q := RunOne(o, fuel, items, i, t, d);
        RunOneLaw(o, fuel, items, i, s, c);
        OneKeepsLength(o, fuel, items, i, s, c);
        if r.Ended? && r.out.Normal? {
          RunItemsLaw(o, fuel, r.tree, i + 1, r.out.status, r.st, c);
          var r2 := RunItems(o, fuel, r.tree, i + 1, r.out.status, r.st, c);
          if r2.Ended? && Tame(New(s, r2.st), Hot(c, d)) {
            TameSplit(s, r.st, r2.st, Hot(c, d), r.out, c);
            AgreeItems(o, fuel, r.tree, i + 1, r.out.status, r.st, q.st, c, d);
          }
        }
      }
    }
  }

  lemma {:induction false} AgreeList(o: Leaves, fuel: nat, items: seq<Item>, s: State, t: State, c: Ctx, d: Ctx)
    requires Alike(s, t) && Eases(c, d)
    ensures Agrees(c, d, s, RunList(o, fuel, items, s, c), RunList(o, fuel, items, t, d))
    decreases fuel, 6
  {
    AgreeItems(o, fuel, items, 0, 0, s, t, c, d);
  }

  lemma {:induction false} AgreeGuard(o: Leaves, fuel: nat, items: seq<Item>, s: State, t: State, c: Ctx, d: Ctx)
    requires Alike(s, t) && Eases(c, d)
    ensures Agrees(c, d, s, RunGuard(o, fuel, items, s, c), RunGuard(o, fuel, items, t, d))
    decreases fuel, 7
  {
    hide RunList, Tame, Unwound, Inner, ErrexitExact, Definitions, LocalsAt, Open;
    var s0, t0 := Log(s, Begin(Condition)), Log(t, Begin(Condition));
    var c0, d0 := Within(c, Condition), Within(d, Condition);
    RunListLaw(o, fuel, items, s0, c0);
    AgreeList(o, fuel, items, s0, t0, c0, d0);
    var r := RunList(o, fuel, items, s0, c0);
    if r.Ended? {
      var evs := New(s0, r.st);
      assert New(s, Log(r.st, End(Condition))) == Bracketed(Condition, evs);
      if Tame(Bracketed(Condition, evs), Hot(c, d)) {
        TameWithin(Condition, evs, Hot(c, d), false);
      }
    }
  }

  lemma {:induction false} AgreeArms(o: Leaves, fuel: nat, arms: seq<Arm>, a: nat, s: State, t: State,
                                     c: Ctx, d: Ctx)
    requires a <= |arms| && Alike(s, t) && Eases(c, d)
    ensures Agrees(c, d, s, RunArms(o, fuel, arms, a, s, c), RunArms(o, fuel, arms, a, t, d))
    decreases fuel, 8, |arms| - a
  {
    hide RunList, RunGuard, Alike, Tame, Unwound, Inner, Marked, ErrexitExact, Definitions, LocalsAt;
    if a == |arms| {
    } else if arms[a].isElse {
      AgreeList(o, fuel, arms[a].body, s, t, c, d);
    } else {
      AgreeGuard(o, fuel, arms[a].cond, s, t, c, d);
      RunGuardLaw(o, fuel, arms[a].cond, s, c);
      var r := RunGuard(o, fuel, arms[a].cond, s, c);
      var q := RunGuard(o, fuel, arms[a].cond, t, d);
      if r.Ended? && r.out.Normal? {
        var arms1 := arms[a := arms[a].(cond := r.tree)];
        RunArmsLaw(o, fuel, arms1, a + 1, r.st, c);
        RunListLaw(o, fuel, arms[a].body, r.st, c);
        var w := RunArms(o, fuel, arms, a, s, c);
        if w.Ended? && Tame(New(s, w.st), Hot(c, d)) {
          TameSplit(s, r.st, w.st, Hot(c, d), r.out, c);
          if r.out.status == 0 {
            AgreeList(o, fuel, arms[a].body, r.st, q.st, c, d);
          } else {
            AgreeArms(o, fuel, arms1, a + 1, r.st, q.st, c, d);
          }
        }
      }
    }
  }

  lemma {:induction false} AgreeWhile(o: Leaves, fuel: nat, test: seq<Item>, loop: seq<Item>, status: int,
                                      s: State, t: State, c: Ctx, d: Ctx)
    requires Alike(s, t) && Eases(c, d)
    ensures Agrees(c, d, s, RunWhile(o, fuel, test, loop, status, s, c), RunWhile(o, fuel, test, loop, status, t, d))
    decreases fuel, 8
  {
    hide RunList, RunGuard, Alike, Tame, Unwound, Inner, Marked, ErrexitExact, Definitions, LocalsAt;
    AgreeGuard(o, fuel, test, s, t, c, d);
    RunGuardLaw(o, fuel, test, s, c);
    var w := RunWhile(o, fuel, test, loop, status, s, c);
    var r := RunGuard(o, fuel, test, s, c);
    var q := RunGuard(o, fuel, test, t, d);
    RunWhileLaw(o, fuel, test, loop, status, s, c);
    if w.Ended? && Tame(New(s, w.st), Hot(c, d)) && r.out.Normal? && r.out.status == 0 {
      RunListLaw(o, fuel, loop, r.st, c);
      var b := RunList(o, fuel, loop, r.st, c);
      if b.out.Normal? {
        RunWhileLaw(o, fuel - 1, r.tree, b.tree, b.out.status, b.st, c);
      }
      TameSplit(s, r.st, w.st, Hot(c, d), r.out, c);
      TameSplit(r.st, b.st, w.st, Hot(c, d), b.out, c);
      AgreeList(o, fuel, loop, r.st, q.st, c, d);
      var e := RunList(o, fuel, loop, q.st, d);
      if b.out.Normal? {
        AgreeWhile(o, fuel - 1, r.tree, b.tree, b.out.status, b.st, e.st, c, d);
      }
    }
  }

  lemma {:induction false} AgreeFor(o: Leaves, fuel: nat, name: string, words: seq<string>, w: nat, each: seq<Item>,
                                    status: int, s: State, t: State, c: Ctx, d: Ctx)
    requires w <= |words| && Alike(s, t) && Eases(c, d)
    ensures Agrees(c, d, s, RunFor(o, fuel, name, words, w, each, status, s, c),
                   RunFor(o, fuel, name, words, w, each, status, t, d))
    decreases fuel, 7, |words| - w
  {
    hide RunList, Tame, SameTrace, Unwound, Inner, Marked, ErrexitExact, Definitions, LocalsAt;
    if w < |words| && NameOk(name) {
      var s0 := s.(vis := s.vis.(env := s.vis.env[name := words[w]]));
      var t0 := t.(vis := t.vis.(env := t.vis.env[name := words[w]]));
      AgreeList(o, fuel, each, s0, t0, c, d);
      RunListLaw(o, fuel, each, s0, c);
      var b := RunList(o, fuel, each, s0, c);
      var e := RunList(o, fuel, each, t0, d);
      if b.Ended? && b.out.Normal? {
        RunForLaw(o, fuel, name, words, w + 1, each, b.out.status, b.st, c);
        var r := RunFor(o, fuel, name, words, w + 1, each, b.out.status, b.st, c);
        if r.Ended? && Tame(New(s, r.st), Hot(c, d)) {
          TameSplit(s0, b.st, r.st, Hot(c, d), b.out, c);
          AgreeFor(o, fuel, name, words, w + 1, each, b.out.status, b.st, e.st, c, d);
        }
      }
    }
  }

  lemma {:induction false} AgreeCase(o: Leaves, fuel: nat, word: string, branches: seq<Branch>, s: State, t: State,
                                     c: Ctx, d: Ctx)
    requires Alike(s, t) && Eases(c, d)
    ensures Agrees(c, d, s, RunCase(o, fuel, word, branches, s, c), RunCase(o, fuel, word, branches, t, d))
    decreases fuel, 9
  {
    hide RunBranches;
    var w := o.expandWord(s.vis, word);
    AgreeBranches(o, fuel, w.text, branches, 0, SetWorld(s, w.world), SetWorld(t, w.world), c, d);
  }

  lemma {:induction false} AgreeBranches(o: Leaves, fuel: nat, text: string, branches: seq<Branch>, b: nat,
                                         s: State, t: State, c: Ctx, d: Ctx)
    requires b <= |branches| && Alike(s, t) && Eases(c, d)
    ensures Agrees(c, d, s, RunBranches(o, fuel, text, branches, b, s, c),
                   RunBranches(o, fuel, text, branches, b, t, d))
    decreases fuel, 7, |branches| - b
  {
    hide RunList, Alike, Tame;
    if b < |branches| {
      AgreeList(o, fuel, branches[b].body, s, t, c, d);
      AgreeBranches(o, fuel, text, branches, b + 1, s, t, c, d);
    }
  }

  lemma {:induction false} AgreePipeline(o: Leaves, fuel: nat, cmds: seq<Cmd>, s: State, t: State, c: Ctx, d: Ctx)
    requires Alike(s, t) && Eases(c, d)
    ensures Agrees(c, d, s, RunPipeline(o, fuel, cmds, s, c), RunPipeline(o, fuel, cmds, t, d))
    decreases fuel, 2
  {
    hide RunCommand;
    if cmds != [] {
      var (v, cmds1, arith, nounset) := ExpandStages(o, s.vis, cmds, 0, false, false);
      AgreeCommand(o, fuel, cmds1[0], s.(vis := v), t.(vis := v), c, d);
    }
  }

  lemma {:induction false} AgreeCommand(o: Leaves, fuel: nat, cmd: Cmd, s: State, t: State, c: Ctx, d: Ctx)
    requires Alike(s, t) && Eases(c, d)
    ensures Agrees(c, d, s, RunCommand(o, fuel, cmd, s, c), RunCommand(o, fuel, cmd, t, d))
    decreases fuel, 1
  {
    hide RunCall, RunLeaf;
    var e := o.expand(s.vis, cmd);
    var s1, t1 := SetWorld(s, e.world), SetWorld(t, e.world);
    LeafAlike(o, e.cmd, s1, t1, c, d);
    if fuel > 0 && e.cmd.argv != [] && e.cmd.argv[0] in s1.fns {
      AgreeCall(o, fuel - 1, e.cmd.argv, s1, t1, c, d);
    }
  }

  lemma {:induction false} AgreeCall(o: Leaves, fuel: nat, argv: seq<string>, s: State, t: State, c: Ctx, d: Ctx)
    requires argv != [] && argv[0] in s.fns && Alike(s, t) && Eases(c, d)
    ensures Agrees(c, d, s, RunCall(o, fuel, argv, s, c), RunCall(o, fuel, argv, t, d))
    decreases fuel, 7
  {
    hide RunList;
    AgreeList(o, fuel, s.fns[argv[0]], Enter(s, argv), Enter(t, argv), c.(depth := c.depth + 1),
              d.(depth := d.depth + 1));
  }

  // ---- lists ----

  lemma {:induction false} SameOpen(a: seq<Event>, b: seq<Event>, scope: Scope)
    requires SameTrace(a, b)
    ensures Open(a, scope) == Open(b, scope)
    decreases |a|
  {
    if a != [] {
      var n := |a| - 1;
      assert Unmarked(a[n]) == Unmarked(b[n]);
      SameOpen(a[..n], b[..n], scope);
    }
  }

  // The rule of the standard lets nothing fatal happen inside a left operand.
  lemma DeepIsTame(evs: seq<Event>, x: bool, k: nat)
    requires ErrexitExact(evs) && Marked(evs, x, true) && k + 1 < |evs| && evs[k + 1] == Aborted(Errexit)
    ensures Open(evs[..k], LeftOperand) == 0
  {
    hide Open;
    assert Fatal(evs[k]) && evs[k].exempt == Covered(evs[..k], x, true);
  }

  // A run is the one the standard asks for, exemption marks aside, if and only if every errexit abort
  // in it lies outside all left operands.
  lemma StandardExactly(o: Leaves, fuel: nat, items: seq<Item>, st: State, c: Ctx)
    requires !c.deep && RunList(o, fuel, items, st, c).Ended?
    ensures var r := RunList(o, fuel, items, st, c);
            && st.log <= r.st.log
            && var evs := New(st, r.st);
            (SameRun(r, RunList(o, fuel, items, st, c.(deep := true))) <==>
             forall k :: 0 <= k < |evs| && evs[k] == Aborted(Errexit) ==> Open(evs[..k], LeftOperand) == 0)
  {
    var d := c.(deep := true);
    RunListLaw(o, fuel, items, st, c);
    RunListLaw(o, fuel, items, st, d);
    AgreeList(o, fuel, items, st, st, c, d);
    hide RunList, Unwound, Inner, Definitions, LocalsAt, Open, Marked, ErrexitExact;
    var r, q := RunList(o, fuel, items, st, c), RunList(o, fuel, items, st, d);
    var evs := New(st, r.st);
    TameByAborts(evs);
    if SameRun(r, q) {
      NewAlike(st, r.st, q.st);
      SameIsTame(evs, New(st, q.st), d.exempt);
    }
  }

  lemma NewAlike(st: State, s: State, t: State)
    requires st.log <= s.log && st.log <= t.log && SameTrace(s.log, t.log)
    ensures SameTrace(New(st, s), New(st, t))
  {
    forall k | 0 <= k < |New(st, s)|
      ensures Unmarked(New(st, s)[k]) == Unmarked(New(st, t)[k])
    {
      assert Unmarked(s.log[|st.log| + k]) == Unmarked(t.log[|st.log| + k]);
    }
  }

  // No item is exempted by an event that ends one.
  lemma TameByAborts(evs: seq<Event>)
    requires ErrexitExact(evs)
    ensures Tame(evs, false) <==>
              forall k :: 0 <= k < |evs| && evs[k] == Aborted(Errexit) ==> Open(evs[..k], LeftOperand) == 0
  {
    forall k | 0 <= k < |evs| && evs[k].Finished?
      ensures k + 1 <= |evs| && Open(evs[..k + 1], LeftOperand) == Open(evs[..k], LeftOperand)
    {
      assert evs[..k + 1][..k] == evs[..k];
    }
    hide Open;
    if Tame(evs, false) {
      forall k | 0 <= k < |evs| && evs[k] == Aborted(Errexit)
        ensures Open(evs[..k], LeftOperand) == 0
      {
        assert Fatal(evs[k - 1]);
      }
    }
    if forall k :: 0 <= k < |evs| && evs[k] == Aborted(Errexit) ==> Open(evs[..k], LeftOperand) == 0 {
      forall k | 0 <= k < |evs| && Fatal(evs[k])
        ensures Open(evs[..k], LeftOperand) == 0
      {
        assert evs[k + 1] == Aborted(Errexit);
      }
    }
  }

  // A trace is tame when it is, exemption marks aside, one by the rule of the standard.
  lemma SameIsTame(evs: seq<Event>, ref: seq<Event>, x: bool)
    requires SameTrace(evs, ref) && ErrexitExact(evs) && ErrexitExact(ref) && Marked(ref, x, true)
    ensures Tame(evs, false)
  {
    hide Open, Marked;
    forall k | 0 <= k < |evs| && Fatal(evs[k])
      ensures Open(evs[..k], LeftOperand) == 0
    {
      assert Unmarked(evs[k + 1]) == Unmarked(ref[k + 1]);
      DeepIsTame(ref, x, k);
      SameOpen(evs[..k], ref[..k], LeftOperand);
    }
  }
}
