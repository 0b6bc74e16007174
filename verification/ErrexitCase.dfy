// Where errexit differs from section 2.8.1 of the Shell Command Language (POSIX.1-2017 XCU), which
// exempts all of a command on the left of && or ||. The program exempts only the item itself: what
// runs inside it, the body of a called function or of an if, while, for or case, is stopped as it
// would be anywhere else. Proved here: when exactly that happens, that it takes a call or a compound
// command, and that it does happen for a call and for every kind of compound command.
module ErrexitCase {
  import opened CStrings
  import opened Ast
  import opened Glob
  import opened Semantics
  import opened RunLaws
  import opened ErrexitAgree

  // An item that errexit stops the script at.
  ghost predicate HasFatal(evs: seq<Event>) {
    exists k :: 0 <= k < |evs| && Fatal(evs[k])
  }

  // The run of an item on the left of && or || is stopped by errexit if and only if a command inside
  // it is fatal; the status of the item as a whole never stops it.
  lemma StoppedInside(o: Leaves, fuel: nat, items: seq<Item>, i: nat, st: State, c: Ctx)
    requires i < |items| && Followed(items, i) && RunOne(o, fuel, items, i, st, c).Ended?
    ensures var b := Log(st, Begin(LeftOperand));
            var inner := RunKind(o, fuel, items[i], b, Within(c, LeftOperand));
            var one := RunOne(o, fuel, items, i, st, c);
            && inner.Ended? && b.log <= inner.st.log && st.log <= one.st.log
            && (Aborted(Errexit) in New(st, one.st) <==> HasFatal(New(b, inner.st)))
            && (HasFatal(New(b, inner.st)) ==> one.out.Abort?)
  {
    var b, d := Log(st, Begin(LeftOperand)), Within(c, LeftOperand);
    RunKindLaw(o, fuel, items[i], b, d);
    hide RunKind, Marked, Inner, Definitions, LocalsAt, Unwound, ErrexitExact;
    var inner := RunKind(o, fuel, items[i], b, d);
    var one := RunOne(o, fuel, items, i, st, c);
    var tail := AfterLeft(o, fuel, items, i, st, c);
    hide RunOne, HasFatal;
    var evs := New(b, inner.st);
    FatalAborts(evs, d.depth, inner.out);
    assert New(st, one.st) == Bracketed(LeftOperand, evs) + tail;
    AbortsWithin(evs, tail);
  }

  // What follows the inside of a left operand is no abort by errexit.
  lemma AfterLeft(o: Leaves, fuel: nat, items: seq<Item>, i: nat, st: State, c: Ctx) returns (tail: seq<Event>)
    requires i < |items| && Followed(items, i) && RunOne(o, fuel, items, i, st, c).Ended?
    ensures var inner := RunKind(o, fuel, items[i], Log(st, Begin(LeftOperand)), Within(c, LeftOperand));
            var one := RunOne(o, fuel, items, i, st, c);
            && inner.Ended? && one.st.log == inner.st.log + [End(LeftOperand)] + tail
            && Aborted(Errexit) !in tail && (!inner.out.Normal? ==> one.out == inner.out)
  {
    hide RunKind;
    var inner := RunKind(o, fuel, items[i], Log(st, Begin(LeftOperand)), Within(c, LeftOperand));
    tail := if inner.out.Normal? then RunOne(o, fuel, items, i, st, c).st.log[|inner.st.log| + 1..] else [];
  }

  lemma AbortsWithin(evs: seq<Event>, tail: seq<Event>)
    requires Aborted(Errexit) !in tail
    ensures Aborted(Errexit) in Bracketed(LeftOperand, evs) + tail <==> Aborted(Errexit) in evs
  {
    var e := Bracketed(LeftOperand, evs) + tail;
    assert forall k :: 0 <= k < |evs| ==> e[k + 1] == evs[k];
    assert forall k :: 0 <= k < |tail| ==> e[|evs| + 2 + k] == tail[k];
  }

  lemma FatalAborts(evs: seq<Event>, d: nat, out: Outcome)
    requires ErrexitExact(evs) && Unwound(evs, d, out)
    ensures HasFatal(evs) <==> Aborted(Errexit) in evs
    ensures HasFatal(evs) ==> out.Abort?
  {
    if HasFatal(evs) {
      var k :| 0 <= k < |evs| && Fatal(evs[k]);
      assert evs[k + 1] == Aborted(Errexit) && Stops(evs[k + 1], d);
    }
    if Aborted(Errexit) in evs {
      var k :| 0 <= k < |evs| && evs[k] == Aborted(Errexit);
      assert Fatal(evs[k - 1]);
    }
  }

  // The reference is the same item in an exempt context. The two runs are the same, exemption marks
  // aside, if and only if the code's run meets no fatal command.
  lemma ExemptExactly(o: Leaves, fuel: nat, item: Item, st: State, c: Ctx)
    requires !c.deep && RunKind(o, fuel, item, st, c).Ended?
    ensures var r := RunKind(o, fuel, item, st, c);
            && st.log <= r.st.log
            && (SameRun(r, RunKind(o, fuel, item, st, c.(exempt := true))) <==> !HasFatal(New(st, r.st)))
  {
    var d := c.(exempt := true);
    RunKindLaw(o, fuel, item, st, c);
    RunKindLaw(o, fuel, item, st, d);
    AgreeKind(o, fuel, item, st, st, c, d);
    hide RunKind, Unwound, Inner, Definitions, LocalsAt;
    var r, q := RunKind(o, fuel, item, st, c), RunKind(o, fuel, item, st, d);
    if HasFatal(New(st, r.st)) {
      var k :| 0 <= k < |New(st, r.st)| && Fatal(New(st, r.st)[k]);
      assert New(st, r.st)[k + 1] == Aborted(Errexit);
      if SameRun(r, q) {
        NewAlike(st, r.st, q.st);
        assert Unmarked(New(st, q.st)[k + 1]) == Unmarked(New(st, r.st)[k + 1]);
        NeverFatal(New(st, q.st));
        assert false;
      }
    }
  }

  lemma NeverFatal(evs: seq<Event>)
    requires ErrexitExact(evs) && Marked(evs, true, false)
    ensures Aborted(Errexit) !in evs
  {
    hide Open;
    forall k | 0 <= k < |evs|
      ensures evs[k] != Aborted(Errexit)
    {
      assert k > 0 && evs[k] == Aborted(Errexit) ==> Fatal(evs[k - 1]);
    }
  }

  // ---- the items that can be stopped ----

  // The single stage, expanded twice as it is before it runs, names a function.
  ghost predicate CallsFunction(o: Leaves, cmds: seq<Cmd>, st: State) {
    |cmds| == 1 &&
    var (v, cmds1, arith, nounset) := ExpandStages(o, st.vis, cmds, 0, false, false);
    !arith && !nounset && cmds1[0].argv != [] &&
    var e := o.expand(v, cmds1[0]);
    !e.arithError && !e.nounsetError && e.cmd.argv != [] && e.cmd.argv[0] in st.fns
  }

  // A compound command, or a call in the foreground.
  ghost predicate RunsItems(o: Leaves, item: Item, st: State) {
    match item.kind
    case If(_) => true
    case While(_, _) => true
    case For(_, _, _) => true
    case Case(_, _) => true
    case Fn(_, _) => false
    case DBracket(_, _) => false
    case Pipeline(cmds) => !item.background && CallsFunction(o, cmds, st)
  }

  // Nothing but leaves, returns, saves and aborts by other causes from s to t.
  ghost predicate NoItems(s: State, t: State) {
    s.log <= t.log && forall k :: |s.log| <= k < |t.log| ==> !t.log[k].Finished?
  }

  lemma {:induction false} LocalNoItems(st: State, argv: seq<string>, i: nat, ret: int, depth: nat)
    requires i <= |argv|
    ensures NoItems(st, LocalFrom(st, argv, i, ret, depth).0) && LocalFrom(st, argv, i, ret, depth).0.fns == st.fns
    decreases |argv| - i
  {
    if i < |argv| {
      var arg := argv[i];
      var k := IndexOf(arg, '=');
      if arg == [] || (k < |arg| && (k == 0 || k >= 256)) {
        LocalNoItems(st, argv, i + 1, 1, depth);
      } else if arg[0] != '-' && st.outer + |st.frame| < LOCAL_MAX {
        LocalNoItems(MakeLocal(st, arg[..k], if k < |arg| then Some(arg[k + 1..]) else None, depth),
                     argv, i + 1, ret, depth);
      }
    }
  }

  lemma BuiltinNoItems(cmd: Cmd, st: State, c: Ctx)
    requires cmd.argv != []
    ensures NoItems(st, RunBuiltin(cmd, st, c).0) && RunBuiltin(cmd, st, c).0.fns == st.fns
  {
    hide Shift, SetFrom, ReturnCode, LocalFrom;
    LocalNoItems(st, cmd.argv, 1, 0, c.depth);
  }

  lemma LeafNoItems(o: Leaves, cmd: Cmd, st: State, c: Ctx)
    ensures NoItems(st, RunLeaf(o, cmd, st, c).0) && RunLeaf(o, cmd, st, c).0.fns == st.fns
  {
    hide RunBuiltin;
    if cmd.argv != [] && Concrete(cmd.argv[0]) {
      var s := Log(st, Leaf([cmd]));
      var p := if NeedsRedir(cmd) then o.redirect(s.vis, cmd) else Opened(true, s.vis.world);
      BuiltinNoItems(cmd, SetWorld(s, p.world), c);
    }
  }

  lemma CommandNoItems(o: Leaves, fuel: nat, cmd: Cmd, st: State, c: Ctx)
    requires RunCommand(o, fuel, cmd, st, c).Ended?
    requires var e := o.expand(st.vis, cmd);
             cmd.argv != [] && !e.arithError && !e.nounsetError && e.cmd.argv != [] ==> e.cmd.argv[0] !in st.fns
    ensures NoItems(st, RunCommand(o, fuel, cmd, st, c).st)
  {
    hide RunLeaf;
    var e := o.expand(st.vis, cmd);
    var s := SetWorld(st, e.world);
    LeafNoItems(o, e.cmd, s, c);
    assert s.log == st.log;
  }

  lemma PipelineNoItems(o: Leaves, fuel: nat, cmds: seq<Cmd>, st: State, c: Ctx)
    requires !CallsFunction(o, cmds, st) && RunPipeline(o, fuel, cmds, st, c).Ended?
    ensures NoItems(st, RunPipeline(o, fuel, cmds, st, c).st)
  {
    hide RunCommand;
    if |cmds| == 1 {
      var (v, cmds1, arith, nounset) := ExpandStages(o, st.vis, cmds, 0, false, false);
      if !arith && !nounset {
        CommandNoItems(o, fuel, cmds1[0], st.(vis := v), c);
        assert RunPipeline(o, fuel, cmds, st, c).st == RunCommand(o, fuel, cmds1[0], st.(vis := v), c).st;
      }
    }
  }

  // Any other item runs no item inside it.
  lemma OthersRunNone(o: Leaves, fuel: nat, item: Item, st: State, c: Ctx)
    requires !RunsItems(o, item, st) && RunKind(o, fuel, item, st, c).Ended?
    ensures NoItems(st, RunKind(o, fuel, item, st, c).st)
  {
    hide RunPipeline, CallsFunction;
    if item.kind.Pipeline? && !item.background {
      PipelineNoItems(o, fuel, item.kind.cmds, st, c);
    }
  }

  // So a definition, a [[ ]], a background item, several stages and a command that is no function
  // are exempt on the left of && and || as the standard asks.
  lemma OthersAreExempt(o: Leaves, fuel: nat, items: seq<Item>, i: nat, st: State, c: Ctx)
    requires i < |items| && Followed(items, i) && !c.deep && RunOne(o, fuel, items, i, st, c).Ended?
    requires !RunsItems(o, items[i], st)
    ensures var one := RunOne(o, fuel, items, i, st, c);
            && st.log <= one.st.log && Aborted(Errexit) !in New(st, one.st)
            && SameRun(one, RunOne(o, fuel, items, i, st, c.(exempt := true)))
  {
    StoppedInside(o, fuel, items, i, st, c);
    var b := Log(st, Begin(LeftOperand));
    ExemptExactly(o, fuel, items[i], b, c);
    OthersRunNone(o, fuel, items[i], b, c);
    hide RunKind, RunsItems, Unmarked;
    assert Within(c, LeftOperand) == c;
    var inner := RunKind(o, fuel, items[i], b, c);
    forall k | 0 <= k < |New(b, inner.st)|
      ensures !Fatal(New(b, inner.st)[k])
    {
      assert New(b, inner.st)[k] == inner.st.log[|b.log| + k];
    }
  }

  // ---- every such kind of item is stopped by some run ----

  function Call(name: string): Cmd {
    EMPTY_CMD.(argv := [name], quoted := [0])
  }

  function Simple(name: string): Item {
    Item(Pipeline([Call(name)]), Always, false)
  }

  // Words stay as they are when expanded.
  ghost predicate NoExpansion(o: Leaves) {
    && (forall v: Vis, c: Cmd :: o.expand(v, c) == Expanded(c, v.world, false, false))
    && (forall v: Vis, w: string :: o.expandWord(v, w) == ExpandedWord(w, v.world, false, false))
  }

  // Nothing shadows the builtins.
  ghost predicate Unshadowed(o: Leaves, st: State) {
    NoExpansion(o) && "true" !in st.fns && "false" !in st.fns
  }

  // -e is on, too.
  ghost predicate Ready(o: Leaves, st: State) {
    Unshadowed(o, st) && st.vis.optE
  }

  ghost predicate StopsAt<T>(r: Run<T>) {
    r.Ended? && r.out == Abort(1) && r.st.log != [] && r.st.log[|r.st.log| - 1] == Aborted(Errexit)
  }

  lemma OneStage(o: Leaves, fuel: nat, name: string, st: State, c: Ctx)
    requires NoExpansion(o)
    ensures RunPipeline(o, fuel, [Call(name)], st, c) ==
            match RunCommand(o, fuel, Call(name), st, c)
            case Diverged => Diverged
            case Ended(s, out, cmd) => Ended(s, out, Pipeline([cmd]))
  {
    hide RunCommand;
    var v := st.vis;
    assert v.(world := v.world) == v && st.(vis := v) == st;
    assert ExpandStages(o, v, [Call(name)], 1, false, false) == (v, [Call(name)], false, false);
    assert [Call(name)][0 := Call(name)] == [Call(name)];
  }

  lemma TrueOrFalse(o: Leaves, fuel: nat, name: string, st: State, c: Ctx)
    requires Unshadowed(o, st) && name in ["true", "false"]
    ensures var r := RunCommand(o, fuel, Call(name), st, c);
            && r.Ended? && r.out == Normal(if name == "true" then 0 else 1) && r.tree == Call(name)
            && r.st.vis == st.vis && r.st.fns == st.fns
  {
    hide Take, SetFrom, Shift, LocalFrom, ReturnCode, ExpandFailed, RunCall;
    assert SetWorld(st, st.vis.world) == st;
  }

  // A failing item that is neither exempt nor followed.
  lemma BodyStops(o: Leaves, fuel: nat, st: State, c: Ctx)
    requires Ready(o, st) && !c.exempt
    ensures StopsAt(RunList(o, fuel, [Simple("false")], st, c))
  {
    hide RunCommand, RunPipeline;
    var items := [Simple("false")];
    OneStage(o, fuel, "false", st, c);
    TrueOrFalse(o, fuel, "false", st, c);
    var kind := RunKind(o, fuel, items[0], st, c);
    assert kind.Ended? && kind.out == Normal(1) && kind.st.vis.optE;
    assert !Followed(items, 0) && StopsAt(RunOne(o, fuel, items, 0, st, c));
  }

  lemma TestHolds(o: Leaves, fuel: nat, st: State, c: Ctx)
    requires Ready(o, st)
    ensures var r := RunGuard(o, fuel, [Simple("true")], st, c);
            r.Ended? && r.out == Normal(0) && Ready(o, r.st)
  {
    hide RunCommand, RunPipeline;
    var items := [Simple("true")];
    var s, d := Log(st, Begin(Condition)), Within(c, Condition);
    OneStage(o, fuel, "true", s, d);
    TrueOrFalse(o, fuel, "true", s, d);
    var kind := RunKind(o, fuel, items[0], s, d);
    assert kind.Ended? && kind.out == Normal(0);
    var one := RunOne(o, fuel, items, 0, s, d);
    assert !Followed(items, 0);
    assert RunAt(o, fuel, items, 0, s, d) == kind;
    assert one.Ended? && one.out == Normal(0) && one.st.vis.optE && one.st.fns == st.fns;
    ListOfOneEnds(o, fuel, items, s, d);
    assert RunGuard(o, fuel, items, st, c) == Ended(Log(one.st, End(Condition)), Normal(0), one.tree);
  }

  lemma ListOfOneEnds(o: Leaves, fuel: nat, items: seq<Item>, st: State, c: Ctx)
    requires |items| == 1 && RunOne(o, fuel, items, 0, st, c).Ended?
    ensures RunList(o, fuel, items, st, c) == RunOne(o, fuel, items, 0, st, c)
  {
    hide RunKind;
    var one := RunOne(o, fuel, items, 0, st, c);
    if one.out.Normal? {
      assert RunItems(o, fuel, one.tree, 1, one.out.status, one.st, c) == Ended(one.st, one.out, one.tree);
    }
  }

  lemma StarMatches(text: string)
    ensures Matches("*", text) && Picked(["*"], text)
  {
    assert "*"[1..] == [] && text[|text|..] == [] && Matches("*"[1..], text[|text|..]);
    assert "*" in ["*"];
  }

  // f, where f() { false; }, and false inside an if, a while, a for and a case.
  function Witnesses(): seq<Kind> {
    [Pipeline([Call("f")]),
     If([Arm([Simple("true")], [Simple("false")], false)]),
     While([Simple("true")], [Simple("false")]),
     For("x", ["a"], [Simple("false")]),
     Case("a", [Branch(["*"], [Simple("false")])])]
  }

  lemma CallStops(o: Leaves, st: State, c: Ctx)
    requires Ready(o, st) && !c.exempt && "f" in st.fns && st.fns["f"] == [Simple("false")]
    ensures StopsAt(RunPipeline(o, 1, [Call("f")], st, c))
  {
    hide RunList, RunPipeline;
    OneStage(o, 1, "f", st, c);
    BodyStops(o, 0, Enter(st, ["f"]), c.(depth := c.depth + 1));
    assert SetWorld(st, st.vis.world) == st;
    assert StopsAt(RunCall(o, 0, ["f"], st, c));
  }

  lemma CompoundStops(o: Leaves, st: State, c: Ctx, w: nat)
    requires Ready(o, st) && !c.exempt && 1 <= w < 5
    ensures StopsAt(RunKind(o, 1, Item(Witnesses()[w], Always, false), st, c))
  {
    hide RunList, RunGuard, RunPipeline, Matches;
    TestHolds(o, 0, st, c);
    var guard := RunGuard(o, 0, [Simple("true")], st, c);
    BodyStops(o, 0, guard.st, c);
    BodyStops(o, 0, st.(vis := st.vis.(env := st.vis.env["x" := "a"])), c);
    BodyStops(o, 0, SetWorld(st, st.vis.world), c);
    StarMatches("a");
  }

  // The same as the last thing in a left operand.
  ghost predicate StopsInLeft<T>(r: Run<T>) {
    && r.Ended? && r.out == Abort(1) && |r.st.log| >= 2
    && r.st.log[|r.st.log| - 2..] == [Aborted(Errexit), End(LeftOperand)]
  }

  function LeftOfOr(w: nat): seq<Item>
    requires w < |Witnesses()|
  {
    [Item(Witnesses()[w], Always, false), Simple("true").(cond := Or)]
  }

  lemma WitnessKindStops(o: Leaves, st: State, c: Ctx, w: nat)
    requires Ready(o, st) && !c.exempt && "f" in st.fns && st.fns["f"] == [Simple("false")]
    requires w < |Witnesses()|
    ensures RunsItems(o, LeftOfOr(w)[0], st) && StopsAt(RunKind(o, 1, LeftOfOr(w)[0], st, c))
  {
    hide RunPipeline, RunArms, RunWhile, RunFor, RunCase, StopsAt;
    if w == 0 {
      CallStops(o, st, c);
      assert ExpandStages(o, st.vis, [Call("f")], 1, false, false) == (st.vis, [Call("f")], false, false);
      assert [Call("f")][0 := Call("f")] == [Call("f")];
    } else {
      CompoundStops(o, st, c, w);
    }
  }

  lemma WitnessStops(o: Leaves, st: State, c: Ctx, w: nat)
    requires Ready(o, st) && !c.exempt && !c.deep && "f" in st.fns && st.fns["f"] == [Simple("false")]
    requires w < |Witnesses()|
    ensures RunsItems(o, LeftOfOr(w)[0], st)
    ensures var one := RunOne(o, 1, LeftOfOr(w), 0, st, c); StopsInLeft(one) && |one.st.log| >= |st.log| + 2
  {
    hide RunKind, RunsItems;
    var items := LeftOfOr(w);
    var b := Log(st, Begin(LeftOperand));
    assert Within(c, LeftOperand) == c;
    WitnessKindStops(o, st, c, w);
    WitnessKindStops(o, b, c, w);
    RunKindLaw(o, 1, items[0], b, c);
    hide Unwound, Inner, Marked, ErrexitExact, Definitions, LocalsAt, Witnesses;
    assert StopsInLeft(RunAt(o, 1, items, 0, st, c));
  }

  // With -e on, each of them as the left side of || true stops the script, and the standard does not
  // ask for that.
  lemma LeftOfOrStops(o: Leaves, st: State, c: Ctx, w: nat)
    requires Ready(o, st) && !c.exempt && !c.deep && "f" in st.fns && st.fns["f"] == [Simple("false")]
    requires w < |Witnesses()|
    ensures var items := LeftOfOr(w);
            && Followed(items, 0) && RunsItems(o, items[0], st)
            && StopsInLeft(RunList(o, 1, items, st, c))
            && !SameRun(RunList(o, 1, items, st, c), RunList(o, 1, items, st, c.(deep := true)))
  {
    hide RunOne, RunList, SameRun, Witnesses;
    var items := LeftOfOr(w);
    WitnessStops(o, st, c, w);
    ListOfOne(o, items, st, c);
    StandardExactly(o, 1, items, st, c);
    LeftIsOpen(o, items, st, c);
  }

  lemma LeftIsOpen(o: Leaves, items: seq<Item>, st: State, c: Ctx)
    requires StopsInLeft(RunList(o, 1, items, st, c)) && st.log <= RunList(o, 1, items, st, c).st.log
    requires |RunList(o, 1, items, st, c).st.log| >= |st.log| + 2
    ensures var evs := New(st, RunList(o, 1, items, st, c).st);
            evs[|evs| - 2] == Aborted(Errexit) && Open(evs[..|evs| - 2], LeftOperand) == 1
  {
    RunListLaw(o, 1, items, st, c);
    hide RunList, Unwound, Inner, ErrexitExact, Definitions, LocalsAt;
    var log := RunList(o, 1, items, st, c).st.log;
    var evs := New(st, RunList(o, 1, items, st, c).st);
    var n := |evs|;
    assert evs[n - 1] == log[|log| - 2..][1] && evs[n - 2] == log[|log| - 2..][0];
    assert evs[..n - 1][..n - 2] == evs[..n - 2];
  }

  lemma ListOfOne(o: Leaves, items: seq<Item>, st: State, c: Ctx)
    requires items != [] && RunOne(o, 1, items, 0, st, c).Ended? && !RunOne(o, 1, items, 0, st, c).out.Normal?
    ensures RunList(o, 1, items, st, c) == RunOne(o, 1, items, 0, st, c)
  {
    hide RunOne;
  }
}
