// What holds of every run, whatever the leaves do: unwinding is complete, errexit stops the script
// exactly where it should, the function table changes only by definitions, saved variables stack up
// and come back, and the fuel does not matter once a run ends.
module RunLaws {
  import opened CStrings
  import opened Ast
  import opened Semantics

  // ---- traces ----

  // After e nothing more happens in the call at depth d.
  predicate Stops(e: Event, d: nat) {
    e.Aborted? || (e.Returned? && e.depth <= d)
  }

  // The part of the trace that a run from st to s added.
  function New(st: State, s: State): seq<Event>
    requires st.log <= s.log
  {
    s.log[|st.log|..]
  }

  // A trace without the scopes that are closed at its very end, on the way out.
  function Core(evs: seq<Event>): (r: seq<Event>)
    ensures r <= evs && (r != [] ==> !r[|r| - 1].End?)
    ensures forall k :: |r| <= k < |evs| ==> evs[k].End?
    decreases |evs|
  {
    if evs != [] && evs[|evs| - 1].End? then Core(evs[..|evs| - 1]) else evs
  }

  // After a stopping event only scopes are closed; it tells the outcome.
  ghost predicate Unwound(evs: seq<Event>, d: nat, out: Outcome) {
    var core := Core(evs);
    && (forall k :: 0 <= k < |evs| && Stops(evs[k], d) ==> k == |core| - 1)
    && (out.Normal? ==> core == [] || !Stops(core[|core| - 1], d))
    && (out.Return? ==> core != [] && core[|core| - 1] == Returned(d, out.code) && d > 0 && 0 <= out.code < 256)
    && (out.Abort? ==> core != [] && core[|core| - 1].Aborted?)
  }

  // Returns and locals belong to this call or to one made by it.
  ghost predicate Inner(evs: seq<Event>, d: nat) {
    forall k :: 0 <= k < |evs| ==>
      (evs[k].Returned? ==> evs[k].depth >= d) && (evs[k].MadeLocal? ==> evs[k].save.depth >= d)
  }

  // How many conditions, or left operands, are open at the end of a trace.
  function Open(evs: seq<Event>, scope: Scope): int
    decreases |evs|
  {
    if evs == [] then 0
    else
      var e := evs[|evs| - 1];
      Open(evs[..|evs| - 1], scope) + (if e == Begin(scope) then 1 else if e == End(scope) then -1 else 0)
  }

  // What is opened is closed.
  ghost predicate Nested(evs: seq<Event>, scope: Scope) {
    Open(evs, scope) == 0 && forall k :: 0 <= k <= |evs| ==> Open(evs[..k], scope) >= 0
  }

  // After these events an item is exempt: the context is, or a condition is open, at whatever call
  // depth; by the rule of the standard, also when a left operand is.
  predicate Covered(evs: seq<Event>, exempt: bool, deep: bool) {
    exempt || Open(evs, Condition) > 0 || (deep && Open(evs, LeftOperand) > 0)
  }

  // Scopes are nested, and the items marked exempt are exactly those that are.
  ghost predicate Marked(evs: seq<Event>, exempt: bool, deep: bool) {
    && Nested(evs, Condition) && Nested(evs, LeftOperand)
    && (forall k :: 0 <= k < |evs| && evs[k].Finished? ==> evs[k].exempt == Covered(evs[..k], exempt, deep))
  }

  // Errexit aborts right after, and only after, an item that failed with -e on and is neither
  // exempt nor on the left of && or ||.
  ghost predicate ErrexitExact(evs: seq<Event>) {
    && (forall k :: 0 <= k < |evs| && evs[k] == Aborted(Errexit) ==> k > 0 && Fatal(evs[k - 1]))
    && (forall k :: 0 <= k < |evs| && Fatal(evs[k]) ==> k + 1 < |evs| && evs[k + 1] == Aborted(Errexit))
  }

  // The function table after a trace: the definitions applied in order, nothing else.
  function Definitions(fns: map<string, seq<Item>>, evs: seq<Event>): map<string, seq<Item>>
    decreases |evs|
  {
    if evs == [] then fns
    else
      var t := Definitions(fns, evs[..|evs| - 1]);
      var e := evs[|evs| - 1];
      if e.Defined? then t[e.name := e.body] else t
  }

  // What `local` saved at depth d, in order.
  function LocalsAt(evs: seq<Event>, d: nat): seq<Save>
    decreases |evs|
  {
    if evs == [] then []
    else
      var t := LocalsAt(evs[..|evs| - 1], d);
      var e := evs[|evs| - 1];
      if e.MadeLocal? && e.save.depth == d then t + [e.save] else t
  }

  ghost predicate Law(st: State, s: State, out: Outcome, c: Ctx) {
    && st.log <= s.log
    && Unwound(New(st, s), c.depth, out)
    && Inner(New(st, s), c.depth)
    && ErrexitExact(New(st, s))
    && Marked(New(st, s), c.exempt, c.deep)
    && s.fns == Definitions(st.fns, New(st, s))
    && s.frame == st.frame + LocalsAt(New(st, s), c.depth)
    && s.outer == st.outer
  }

  lemma {:induction false} FoldsConcat(fns: map<string, seq<Item>>, a: seq<Event>, b: seq<Event>, d: nat)
    ensures Definitions(fns, a + b) == Definitions(Definitions(fns, a), b)
    ensures LocalsAt(a + b, d) == LocalsAt(a, d) + LocalsAt(b, d)
    decreases |b|
  {
    if b == [] {
      assert a + b == a;
    } else {
      assert (a + b)[..|a + b| - 1] == a + b[..|b| - 1];
      FoldsConcat(fns, a, b[..|b| - 1], d);
    }
  }

  lemma {:induction false} CoreConcat(a: seq<Event>, b: seq<Event>)
    ensures Core(a + b) == if Core(b) == [] then Core(a) else a + Core(b)
    decreases |b|
  {
    if b == [] {
      assert a + b == a;
    } else {
      assert (a + b)[..|a + b| - 1] == a + b[..|b| - 1];
      CoreConcat(a, b[..|b| - 1]);
    }
  }

  lemma UnwoundConcat(a: seq<Event>, b: seq<Event>, d: nat, v: int, out: Outcome)
    requires Unwound(a, d, Normal(v)) && Unwound(b, d, out)
    ensures Unwound(a + b, d, out)
  {
    CoreConcat(a, b);
    var e := a + b;
    assert forall k :: 0 <= k < |a| ==> e[k] == a[k] && !Stops(a[k], d);
    forall k | 0 <= k < |e| && Stops(e[k], d)
      ensures k == |Core(e)| - 1
    {
      assert e[k] == b[k - |a|];
    }
  }

  lemma ErrexitConcat(a: seq<Event>, b: seq<Event>)
    requires ErrexitExact(a) && ErrexitExact(b)
    ensures ErrexitExact(a + b)
  {
    var e := a + b;
    forall k | 0 <= k < |e| && e[k] == Aborted(Errexit)
      ensures k > 0 && Fatal(e[k - 1])
    {
      if k >= |a| {
        assert b[k - |a|] == Aborted(Errexit) && e[k - 1] == b[k - |a| - 1];
      }
    }
    forall k | 0 <= k < |e| && Fatal(e[k])
      ensures k + 1 < |e| && e[k + 1] == Aborted(Errexit)
    {
      if k >= |a| {
        assert Fatal(b[k - |a|]) && e[k + 1] == b[k - |a| + 1];
      } else {
        assert Fatal(a[k]) && e[k + 1] == a[k + 1];
      }
    }
  }

  lemma {:induction false} OpenConcat(a: seq<Event>, b: seq<Event>, scope: Scope)
    ensures Open(a + b, scope) == Open(a, scope) + Open(b, scope)
    decreases |b|
  {
    if b == [] {
      assert a + b == a;
    } else {
      assert (a + b)[..|a + b| - 1] == a + b[..|b| - 1];
      OpenConcat(a, b[..|b| - 1], scope);
    }
  }

  // How many are open after the first k events of two traces in a row.
  lemma OpenPrefix(a: seq<Event>, b: seq<Event>, k: nat, scope: Scope)
    requires k <= |a + b|
    ensures Open((a + b)[..k], scope) ==
            if k <= |a| then Open(a[..k], scope) else Open(a, scope) + Open(b[..k - |a|], scope)
  {
    if k <= |a| {
      assert (a + b)[..k] == a[..k];
    } else {
      assert (a + b)[..k] == a + b[..k - |a|];
      OpenConcat(a, b[..k - |a|], scope);
    }
  }

  lemma NestedConcat(a: seq<Event>, b: seq<Event>, scope: Scope)
    requires Nested(a, scope) && Nested(b, scope)
    ensures Nested(a + b, scope)
  {
    hide Open;
    OpenConcat(a, b, scope);
    forall k | 0 <= k <= |a + b|
      ensures Open((a + b)[..k], scope) >= 0
    {
      OpenPrefix(a, b, k, scope);
    }
  }

  // What is open after a trace in which everything is closed again, and k events more.
  lemma OpenAfter(a: seq<Event>, b: seq<Event>, k: nat, scope: Scope)
    requires Open(a, scope) == 0 && k <= |b|
    ensures Open((a + b)[..|a| + k], scope) == Open(b[..k], scope)
  {
    assert (a + b)[..|a| + k] == a + b[..k];
    OpenConcat(a, b[..k], scope);
  }

  lemma MarkedConcat(a: seq<Event>, b: seq<Event>, x: bool, deep: bool)
    requires Marked(a, x, deep) && Marked(b, x, deep)
    ensures Marked(a + b, x, deep)
  {
    hide Open;
    NestedConcat(a, b, Condition);
    NestedConcat(a, b, LeftOperand);
    var e := a + b;
    forall k | 0 <= k < |e| && e[k].Finished?
      ensures e[k].exempt == Covered(e[..k], x, deep)
    {
      if k < |a| {
        assert e[..k] == a[..k] && e[k] == a[k];
      } else {
        OpenAfter(a, b, k - |a|, Condition);
        OpenAfter(a, b, k - |a|, LeftOperand);
        assert e[k] == b[k - |a|];
      }
    }
  }

  // The trace of a condition or left operand, with its beginning and end.
  function Bracketed(scope: Scope, evs: seq<Event>): seq<Event> {
    [Begin(scope)] + evs + [End(scope)]
  }

  lemma OpenBracketed(scope: Scope, evs: seq<Event>, k: nat, x: Scope)
    requires k <= |evs| + 1
    ensures Open(Bracketed(scope, evs)[..k], x) ==
            if k == 0 then 0 else (if x == scope then 1 else 0) + Open(evs[..k - 1], x)
  {
    hide Open;
    OneOpen(Begin(scope), x);
    if k == 0 {
      assert Bracketed(scope, evs)[..0] == [];
    } else {
      assert Bracketed(scope, evs)[..k] == [Begin(scope)] + evs[..k - 1];
      OpenConcat([Begin(scope)], evs[..k - 1], x);
    }
  }

  lemma NestedBracketed(scope: Scope, evs: seq<Event>, x: Scope)
    requires Nested(evs, x)
    ensures Nested(Bracketed(scope, evs), x)
  {
    hide Open;
    var e := Bracketed(scope, evs);
    OneOpen(End(scope), x);
    assert evs[..|evs|] == evs && e == e[..|evs| + 1] + [End(scope)];
    OpenBracketed(scope, evs, |evs| + 1, x);
    OpenConcat(e[..|evs| + 1], [End(scope)], x);
    assert e[..|e|] == e;
    forall k | 0 <= k <= |e|
      ensures Open(e[..k], x) >= 0
    {
      if k < |e| {
        OpenBracketed(scope, evs, k, x);
      }
    }
  }

  lemma BracketedMarked(scope: Scope, evs: seq<Event>, x: bool, deep: bool)
    requires Marked(evs, x || scope.Condition? || deep, deep)
    ensures Marked(Bracketed(scope, evs), x, deep)
  {
    hide Open;
    NestedBracketed(scope, evs, Condition);
    NestedBracketed(scope, evs, LeftOperand);
    var e := Bracketed(scope, evs);
    forall k | 0 <= k < |e| && e[k].Finished?
      ensures e[k].exempt == Covered(e[..k], x, deep)
    {
      assert e[k] == evs[k - 1];
      OpenBracketed(scope, evs, k, Condition);
      OpenBracketed(scope, evs, k, LeftOperand);
    }
  }

  lemma OneOpen(e: Event, scope: Scope)
    ensures Open([], scope) == 0
    ensures Open([e], scope) == if e == Begin(scope) then 1 else if e == End(scope) then -1 else 0
  {
    assert [e][..0] == [];
  }

  // A run that ends normally, then another.
  lemma Then(st: State, s: State, v: int, t: State, out: Outcome, c: Ctx)
    requires Law(st, s, Normal(v), c) && Law(s, t, out, c)
    ensures Law(st, t, out, c)
  {
    hide Unwound, ErrexitExact, Marked, Definitions, LocalsAt, Inner;
    var a, b := New(st, s), New(s, t);
    assert New(st, t) == a + b;
    UnwoundConcat(a, b, c.depth, v, out);
    ErrexitConcat(a, b);
    MarkedConcat(a, b, c.exempt, c.deep);
    InnerConcat(a, b, c.depth);
    FoldsConcat(st.fns, a, b, c.depth);
    assert st.frame + LocalsAt(a, c.depth) + LocalsAt(b, c.depth) ==
      st.frame + (LocalsAt(a, c.depth) + LocalsAt(b, c.depth));
  }

  lemma InnerConcat(a: seq<Event>, b: seq<Event>, d: nat)
    requires Inner(a, d) && Inner(b, d)
    ensures Inner(a + b, d)
  {
    var e := a + b;
    forall k | 0 <= k < |e|
      ensures (e[k].Returned? ==> e[k].depth >= d) && (e[k].MadeLocal? ==> e[k].save.depth >= d)
    {
      assert e[k] == if k < |a| then a[k] else b[k - |a|];
    }
  }

  // Nothing in the law looks at the visible state.
  lemma Quiet(st: State, s: State, v: int, c: Ctx)
    requires s == st.(vis := s.vis)
    ensures Law(st, s, Normal(v), c)
  {
    assert New(st, s) == [];
  }

  lemma One(st: State, s: State, e: Event, out: Outcome, c: Ctx)
    requires s.log == st.log + [e] && Unwound([e], c.depth, out) && Inner([e], c.depth)
    requires e != Aborted(Errexit) && !Fatal(e) && (e.Finished? ==> e.exempt == c.exempt)
    requires !e.Begin? && !e.End?
    requires s.fns == if e.Defined? then st.fns[e.name := e.body] else st.fns
    requires s.frame == if e.MadeLocal? && e.save.depth == c.depth then st.frame + [e.save] else st.frame
    requires s.outer == st.outer
    ensures Law(st, s, out, c)
  {
    assert New(st, s) == [e];
    assert [e][..0] == [] && [e][..1] == [e];
    assert Definitions(st.fns, [e]) ==
      if e.Defined? then Definitions(st.fns, [])[e.name := e.body] else Definitions(st.fns, []);
  }

  // A condition or left operand in the law of the context around it.
  lemma ScopeLaw(scope: Scope, st: State, s: State, out: Outcome, c: Ctx)
    requires Law(Log(st, Begin(scope)), s, out, Within(c, scope))
    ensures Law(st, Log(s, End(scope)), out, c)
  {
    hide Unwound, ErrexitExact, Marked, Inner, Definitions, LocalsAt;
    var b := Log(st, Begin(scope));
    var evs := New(b, s);
    assert New(st, Log(s, End(scope))) == Bracketed(scope, evs);
    BracketedMarked(scope, evs, c.exempt, c.deep);
    BracketedUnwound(scope, evs, c.depth, out);
    BracketedErrexit(scope, evs);
    BracketedFolds(scope, st.fns, evs, c.depth);
    BracketedInner(scope, evs, c.depth);
  }

  lemma BracketedInner(scope: Scope, evs: seq<Event>, d: nat)
    requires Inner(evs, d)
    ensures Inner(Bracketed(scope, evs), d)
  {
    InnerConcat([Begin(scope)], evs, d);
    InnerConcat([Begin(scope)] + evs, [End(scope)], d);
  }

  lemma BracketedUnwound(scope: Scope, evs: seq<Event>, d: nat, out: Outcome)
    requires Unwound(evs, d, out)
    ensures Unwound(Bracketed(scope, evs), d, out)
  {
    hide Unwound;
    BeginUnwound(scope, d);
    UnwoundConcat([Begin(scope)], evs, d, 0, out);
    UnwoundEnd(scope, [Begin(scope)] + evs, d, out);
  }

  lemma BeginUnwound(scope: Scope, d: nat)
    ensures Unwound([Begin(scope)], d, Normal(0))
  {
  }

  lemma UnwoundEnd(scope: Scope, evs: seq<Event>, d: nat, out: Outcome)
    requires Unwound(evs, d, out)
    ensures Unwound(evs + [End(scope)], d, out)
  {
    var e := evs + [End(scope)];
    assert e[..|e| - 1] == evs;
    assert Core(e) == Core(evs);
    hide Core;
    assert forall k :: 0 <= k < |evs| ==> e[k] == evs[k];
  }

  lemma BracketedErrexit(scope: Scope, evs: seq<Event>)
    requires ErrexitExact(evs)
    ensures ErrexitExact(Bracketed(scope, evs))
  {
    ErrexitConcat([Begin(scope)], evs);
    ErrexitConcat([Begin(scope)] + evs, [End(scope)]);
  }

  lemma BracketedFolds(scope: Scope, fns: map<string, seq<Item>>, evs: seq<Event>, d: nat)
    ensures Definitions(fns, Bracketed(scope, evs)) == Definitions(fns, evs)
    ensures LocalsAt(Bracketed(scope, evs), d) == LocalsAt(evs, d)
  {
    NoChange(fns, Begin(scope), d);
    FoldsConcat(fns, [Begin(scope)], evs, d);
    FoldsConcat(fns, [Begin(scope)] + evs, [End(scope)], d);
    NoChange(Definitions(fns, evs), End(scope), d);
    assert [] + LocalsAt(evs, d) == LocalsAt(evs, d);
    assert LocalsAt(evs, d) + [] == LocalsAt(evs, d);
  }

  lemma AnyNormal(st: State, s: State, v: int, w: int, c: Ctx)
    requires Law(st, s, Normal(v), c)
    ensures Law(st, s, Normal(w), c)
  {
  }

  // ---- every step obeys the law ----

  lemma {:induction false} LocalFromLaw(st: State, argv: seq<string>, i: nat, ret: int, c: Ctx)
    requires i <= |argv|
    ensures var (s, r) := LocalFrom(st, argv, i, ret, c.depth); Law(st, s, Normal(r), c)
    decreases |argv| - i
  {
    Quiet(st, st, ret, c);
    Quiet(st, st, 1, c);
    if i < |argv| {
      var arg := argv[i];
      var k := IndexOf(arg, '=');
      if arg == [] || (k < |arg| && (k == 0 || k >= 256)) {
        LocalFromLaw(st, argv, i + 1, 1, c);
      } else if arg[0] != '-' && st.outer + |st.frame| < LOCAL_MAX {
        var v := if k < |arg| then Some(arg[k + 1..]) else None;
        var s := MakeLocal(st, arg[..k], v, c.depth);
        One(st, s, MadeLocal(Save(c.depth, arg[..k], Lookup(st.vis.env, arg[..k]))), Normal(0), c);
        LocalFromLaw(s, argv, i + 1, ret, c);
        Then(st, s, 0, LocalFrom(s, argv, i + 1, ret, c.depth).0, Normal(LocalFrom(s, argv, i + 1, ret, c.depth).1), c);
      }
    }
  }

  lemma RunBuiltinLaw(cmd: Cmd, st: State, c: Ctx)
    requires cmd.argv != []
    ensures var (s, out) := RunBuiltin(cmd, st, c); Law(st, s, out, c)
  {
    hide Law;
    var name := cmd.argv[0];
    var (s, out) := RunBuiltin(cmd, st, c);
    if name == "set" && SetFrom(st.vis, cmd.argv, 1).abort {
      One(st, s, Aborted(SpecialBuiltin), out, c);
    } else if name == "return" && ReturnCode(cmd.argv, c.depth).Some? {
      One(st, s, Returned(c.depth, ReturnCode(cmd.argv, c.depth).value), out, c);
    } else if name == "local" && c.depth > 0 && |cmd.argv| >= 2 {
      LocalFromLaw(st, cmd.argv, 1, 0, c);
    } else if name in ["true", ":", "false", "shift", "set", "return"] || c.depth == 0 || |cmd.argv| < 2 {
      Quiet(st, s, out.status, c);
    } else {
      LocalFromLaw(st, cmd.argv, 1, 0, c);
    }
  }

  lemma RunLeafLaw(o: Leaves, cmd: Cmd, st: State, c: Ctx)
    ensures var (s, out) := RunLeaf(o, cmd, st, c); Law(st, s, out, c)
  {
    hide Law, RunBuiltin;
    var s0 := Log(st, Leaf([cmd]));
    var (s, out) := RunLeaf(o, cmd, st, c);
    if cmd.argv != [] && Concrete(cmd.argv[0]) {
      var p := if NeedsRedir(cmd) then o.redirect(s0.vis, cmd) else Opened(true, s0.vis.world);
      var s1 := SetWorld(s0, p.world);
      One(st, s1, Leaf([cmd]), Normal(1), c);
      if p.ok {
        RunBuiltinLaw(cmd, s1, c);
        Then(st, s1, 1, s, out, c);
      }
    } else {
      var e := o.command(s0.vis, cmd);
      var s1 := s0.(vis := e.vis);
      One(st, s1, Leaf([cmd]), Normal(e.status), c);
      if e.abort {
        One(s1, s, Aborted(SpecialBuiltin), out, c);
        Then(st, s1, e.status, s, out, c);
      }
    }
  }

  lemma {:induction false} ExpandStagesQuiet(o: Leaves, v: Vis, cmds: seq<Cmd>, i: nat, arith: bool, nounset: bool)
    requires i <= |cmds|
    ensures var (w, _, _, _) := ExpandStages(o, v, cmds, i, arith, nounset); w == v.(world := w.world)
    decreases |cmds| - i
  {
    if i < |cmds| {
      var e := o.expand(v, cmds[i]);
      ExpandStagesQuiet(o, v.(world := e.world), cmds[i := e.cmd], i + 1,
                        arith || e.arithError, nounset || e.nounsetError);
    }
  }

  lemma ExpandFailedLaw(st: State, s: State, nounset: bool, c: Ctx)
    requires s == st.(vis := s.vis)
    ensures var (t, out) := ExpandFailed(s, nounset); Law(st, t, out, c)
  {
    var (t, out) := ExpandFailed(s, nounset);
    if nounset {
      One(st, t, Aborted(Nounset), out, c);
    } else {
      Quiet(st, t, 1, c);
    }
  }

  lemma NoChange(fns: map<string, seq<Item>>, e: Event, d: nat)
    requires !e.Defined? && !e.MadeLocal?
    ensures Definitions(fns, [e]) == fns && LocalsAt([e], d) == []
  {
    assert [e][..|[e]| - 1] == [];
  }

  lemma {:induction false} NothingOpened(evs: seq<Event>, scope: Scope)
    requires forall k :: 0 <= k < |evs| ==> !evs[k].Begin? && !evs[k].End?
    ensures Open(evs, scope) == 0 && forall k :: 0 <= k <= |evs| ==> Open(evs[..k], scope) == 0
  {
    if evs != [] {
      var front := evs[..|evs| - 1];
      NothingOpened(front, scope);
      forall k | 0 <= k <= |evs|
        ensures Open(evs[..k], scope) == 0
      {
        assert k < |evs| ==> front[..k] == evs[..k];
        assert k == |evs| ==> evs[..k] == evs;
      }
    }
  }

  lemma FinishLaw(st: State, status: int, c: Ctx, followed: bool)
    ensures var (s, out) := Finish(st, status, c, followed); Law(st, s, out, c)
  {
    var e := Finished(status, st.vis.optE, c.exempt, followed);
    var (s, out) := Finish(st, status, c, followed);
    if Fatal(e) {
      var evs := [e, Aborted(Errexit)];
      assert New(st, s) == evs;
      FoldsConcat(st.fns, [e], [Aborted(Errexit)], c.depth);
      NoChange(st.fns, e, c.depth);
      NoChange(st.fns, Aborted(Errexit), c.depth);
      assert evs == [e] + [Aborted(Errexit)];
      NothingOpened(evs, Condition);
      NothingOpened(evs, LeftOperand);
    } else {
      One(st, s, e, out, c);
    }
  }

  // A call: the body's trace is the call's; return is absorbed, an abort goes on.
  lemma CallLaw(st: State, s: State, argv: seq<string>, out: Outcome, c: Ctx)
    requires argv != [] && Law(Enter(st, argv), s, out, c.(depth := c.depth + 1))
    ensures Law(st, Leave(st, s), if out.Return? then Normal(out.code) else out, c)
  {
    hide Unwound, Inner, ErrexitExact, Marked, Definitions, LocalsAt;
    var evs := New(st, s);
    assert New(Enter(st, argv), s) == evs;
    NoLocalsAbove(evs, c.depth);
    Absorbed(evs, c.depth, out);
    assert st.frame + [] == st.frame;
  }

  // Seen from the caller, a return in the call is over.
  lemma Absorbed(evs: seq<Event>, d: nat, out: Outcome)
    requires Unwound(evs, d + 1, out) && Inner(evs, d + 1)
    ensures Unwound(evs, d, if out.Return? then Normal(out.code) else out) && Inner(evs, d)
  {
    hide Core;
  }

  lemma {:induction false} NoLocalsAbove(evs: seq<Event>, d: nat)
    requires Inner(evs, d + 1)
    ensures LocalsAt(evs, d) == []
    decreases |evs|
  {
    if evs != [] {
      NoLocalsAbove(evs[..|evs| - 1], d);
    }
  }

  ghost predicate Lawful<T>(st: State, r: Run<T>, c: Ctx) {
    r.Ended? ==> Law(st, r.st, r.out, c)
  }

  lemma {:induction false} RunKindLaw(o: Leaves, fuel: nat, item: Item, st: State, c: Ctx)
    ensures Lawful(st, RunKind(o, fuel, item, st, c), c)
    decreases fuel, 3
  {
    hide Law, RunArms, RunWhile, RunFor, RunCase, RunPipeline;
    match item.kind
    case Pipeline(cmds) =>
      if item.background {
        var (s, out) := RunBackground(o, cmds, st);
        One(st, s, Leaf(cmds), out, c);
      } else {
        RunPipelineLaw(o, fuel, cmds, st, c);
      }
    case DBracket(tokens, marks) =>
      var t := o.test(st.vis, tokens, marks);
      var s := SetWorld(Log(st, Leaf([])), t.world);
      One(st, s, Leaf([]), Normal(t.status), c);
      if t.nounsetError {
        One(s, Log(s, Aborted(Nounset)), Aborted(Nounset), Abort(1), c);
        Then(st, s, t.status, Log(s, Aborted(Nounset)), Abort(1), c);
      }
    case Fn(name, body) =>
      var (s, out) := Define(name, body, st);
      if out.status == 1 {
        Quiet(st, s, 1, c);
      } else {
        One(st, s, Defined(name, body), out, c);
      }
    case If(arms) =>
      if fuel > 0 { RunArmsLaw(o, fuel - 1, arms, 0, st, c); }
    case While(test, loop) =>
      if fuel > 0 { RunWhileLaw(o, fuel - 1, test, loop, 0, st, c); }
    case For(name, words, each) =>
      if fuel > 0 { RunForLaw(o, fuel - 1, name, words, 0, each, 0, st, c); }
    case Case(word, branches) =>
      if fuel > 0 { RunCaseLaw(o, fuel - 1, word, branches, st, c); }
  }

  lemma {:induction false} RunAtLaw(o: Leaves, fuel: nat, items: seq<Item>, i: nat, st: State, c: Ctx)
    requires i < |items|
    ensures Lawful(st, RunAt(o, fuel, items, i, st, c), c)
    decreases fuel, 4, 0
  {
    hide Law, RunKind;
    if Followed(items, i) {
      var b, d := Log(st, Begin(LeftOperand)), Within(c, LeftOperand);
      RunKindLaw(o, fuel, items[i], b, d);
      var r := RunKind(o, fuel, items[i], b, d);
      if r.Ended? {
        ScopeLaw(LeftOperand, st, r.st, r.out, c);
      }
    } else {
      RunKindLaw(o, fuel, items[i], st, c);
    }
  }

  lemma {:induction false} RunOneLaw(o: Leaves, fuel: nat, items: seq<Item>, i: nat, st: State, c: Ctx)
    requires i < |items|
    ensures Lawful(st, RunOne(o, fuel, items, i, st, c), c)
    decreases fuel, 4, 1
  {
    hide Finish, RunAt;
    RunAtLaw(o, fuel, items, i, st, c);
    var r := RunAt(o, fuel, items, i, st, c);
    if r.Ended? {
      var s1 := r.st.(vis := r.st.vis.(last := StatusOf(r.out)));
      assert New(st, s1) == New(st, r.st);
      assert Law(st, s1, r.out, c);
      if r.out.Normal? {
        FinishLaw(s1, r.out.status, c, Followed(items, i));
        var (s2, out2) := Finish(s1, r.out.status, c, Followed(items, i));
        Then(st, s1, r.out.status, s2, out2, c);
      }
    }
  }

  lemma {:induction false} RunItemsLaw(o: Leaves, fuel: nat, items: seq<Item>, i: nat, status: int, st: State, c: Ctx)
    requires i <= |items|
    ensures Lawful(st, RunItems(o, fuel, items, i, status, st, c), c)
    decreases fuel, 5, |items| - i
  {
    hide Law, RunOne;
    if i == |items| {
      Quiet(st, st, status, c);
    } else if Skipped(items[i], i, status) {
      RunItemsLaw(o, fuel, items, i + 1, status, st, c);
    } else {
      RunOneLaw(o, fuel, items, i, st, c);
      var r := RunOne(o, fuel, items, i, st, c);
      if r.Ended? && r.out.Normal? {
        OneKeepsLength(o, fuel, items, i, st, c);
        RunItemsLaw(o, fuel, r.tree, i + 1, r.out.status, r.st, c);
        var r2 := RunItems(o, fuel, r.tree, i + 1, r.out.status, r.st, c);
        if r2.Ended? {
          Then(st, r.st, r.out.status, r2.st, r2.out, c);
        }
      }
    }
  }

  lemma {:induction false} RunListLaw(o: Leaves, fuel: nat, items: seq<Item>, st: State, c: Ctx)
    ensures Lawful(st, RunList(o, fuel, items, st, c), c)
    decreases fuel, 6
  {
    RunItemsLaw(o, fuel, items, 0, 0, st, c);
  }

  // Two lists in a row, the first in its own context, as conditions and bodies are.
  lemma {:induction false} ThenListLaw(o: Leaves, fuel: nat, st: State, s: State, v: int, items: seq<Item>, c: Ctx)
    requires Law(st, s, Normal(v), c)
    ensures Lawful(st, RunList(o, fuel, items, s, c), c)
    decreases fuel, 7, 0
  {
    hide Law;
    RunListLaw(o, fuel, items, s, c);
    var r := RunList(o, fuel, items, s, c);
    if r.Ended? {
      Then(st, s, v, r.st, r.out, c);
    }
  }

  lemma {:induction false} RunGuardLaw(o: Leaves, fuel: nat, items: seq<Item>, st: State, c: Ctx)
    ensures Lawful(st, RunGuard(o, fuel, items, st, c), c)
    decreases fuel, 7, 0
  {
    hide Law, RunList;
    var b, d := Log(st, Begin(Condition)), Within(c, Condition);
    RunListLaw(o, fuel, items, b, d);
    var r := RunList(o, fuel, items, b, d);
    if r.Ended? {
      ScopeLaw(Condition, st, r.st, r.out, c);
    }
  }

  lemma {:induction false} RunArmsLaw(o: Leaves, fuel: nat, arms: seq<Arm>, a: nat, st: State, c: Ctx)
    requires a <= |arms|
    ensures Lawful(st, RunArms(o, fuel, arms, a, st, c), c)
    decreases fuel, 8, |arms| - a
  {
    hide Law, RunList, RunGuard;
    if a == |arms| {
      Quiet(st, st, 0, c);
    } else if arms[a].isElse {
      RunListLaw(o, fuel, arms[a].body, st, c);
    } else {
      RunGuardLaw(o, fuel, arms[a].cond, st, c);
      var r := RunGuard(o, fuel, arms[a].cond, st, c);
      if r.Ended? && r.out.Normal? {
        if r.out.status == 0 {
          ThenListLaw(o, fuel, st, r.st, 0, arms[a].body, c);
        } else {
          var arms1 := arms[a := arms[a].(cond := r.tree)];
          RunArmsLaw(o, fuel, arms1, a + 1, r.st, c);
          var r2 := RunArms(o, fuel, arms1, a + 1, r.st, c);
          if r2.Ended? {
            Then(st, r.st, r.out.status, r2.st, r2.out, c);
          }
        }
      }
    }
  }

  lemma {:induction false} RunWhileLaw(o: Leaves, fuel: nat, test: seq<Item>, loop: seq<Item>, status: int,
                                       st: State, c: Ctx)
    ensures Lawful(st, RunWhile(o, fuel, test, loop, status, st, c), c)
    decreases fuel, 8
  {
    hide Law, RunList, RunGuard;
    RunGuardLaw(o, fuel, test, st, c);
    var r := RunGuard(o, fuel, test, st, c);
    if r.Ended? && r.out.Normal? {
      if r.out.status != 0 {
        AnyNormal(st, r.st, r.out.status, status, c);
      } else {
        ThenListLaw(o, fuel, st, r.st, 0, loop, c);
        var b := RunList(o, fuel, loop, r.st, c);
        if b.Ended? && b.out.Normal? && fuel > 0 {
          RunWhileLaw(o, fuel - 1, r.tree, b.tree, b.out.status, b.st, c);
          var w := RunWhile(o, fuel - 1, r.tree, b.tree, b.out.status, b.st, c);
          if w.Ended? {
            Then(st, b.st, b.out.status, w.st, w.out, c);
          }
        }
      }
    }
  }

  lemma {:induction false} RunForLaw(o: Leaves, fuel: nat, name: string, words: seq<string>, w: nat, each: seq<Item>,
                                     status: int, st: State, c: Ctx)
    requires w <= |words|
    ensures Lawful(st, RunFor(o, fuel, name, words, w, each, status, st, c), c)
    decreases fuel, 8, |words| - w
  {
    hide Law, RunList;
    Quiet(st, st, status, c);
    Quiet(st, st, 1, c);
    if w < |words| && NameOk(name) {
      var s0 := st.(vis := st.vis.(env := st.vis.env[name := words[w]]));
      Quiet(st, s0, 0, c);
      ThenListLaw(o, fuel, st, s0, 0, each, c);
      var b := RunList(o, fuel, each, s0, c);
      if b.Ended? && b.out.Normal? {
        RunForLaw(o, fuel, name, words, w + 1, each, b.out.status, b.st, c);
        var r := RunFor(o, fuel, name, words, w + 1, each, b.out.status, b.st, c);
        if r.Ended? {
          Then(st, b.st, b.out.status, r.st, r.out, c);
        }
      }
    }
  }

  lemma {:induction false} RunCaseLaw(o: Leaves, fuel: nat, word: string, branches: seq<Branch>, st: State, c: Ctx)
    ensures Lawful(st, RunCase(o, fuel, word, branches, st, c), c)
    decreases fuel, 9
  {
    hide Law;
    var w := o.expandWord(st.vis, word);
    var s := SetWorld(st, w.world);
    if w.arithError || w.nounsetError {
      ExpandFailedLaw(st, s, w.nounsetError, c);
    } else {
      RunBranchesLaw(o, fuel, w.text, branches, 0, s, c);
      var r := RunBranches(o, fuel, w.text, branches, 0, s, c);
      if r.Ended? {
        Quiet(st, s, 0, c);
        Then(st, s, 0, r.st, r.out, c);
      }
    }
  }

  lemma {:induction false} RunBranchesLaw(o: Leaves, fuel: nat, text: string, branches: seq<Branch>, b: nat,
                                          st: State, c: Ctx)
    requires b <= |branches|
    ensures Lawful(st, RunBranches(o, fuel, text, branches, b, st, c), c)
    decreases fuel, 7, |branches| - b
  {
    hide Law;
    if b == |branches| {
      Quiet(st, st, 0, c);
    } else if Picked(branches[b].patterns, text) {
      RunListLaw(o, fuel, branches[b].body, st, c);
    } else {
      RunBranchesLaw(o, fuel, text, branches, b + 1, st, c);
    }
  }

  lemma {:induction false} RunPipelineLaw(o: Leaves, fuel: nat, cmds: seq<Cmd>, st: State, c: Ctx)
    ensures Lawful(st, RunPipeline(o, fuel, cmds, st, c), c)
    decreases fuel, 2
  {
    hide Law, RunCommand;
    if cmds == [] {
      Quiet(st, st, 0, c);
    } else {
      ExpandStagesQuiet(o, st.vis, cmds, 0, false, false);
      var (v, cmds1, arith, nounset) := ExpandStages(o, st.vis, cmds, 0, false, false);
      var s := st.(vis := v);
      if arith || nounset {
        ExpandFailedLaw(st, s, nounset, c);
      } else if |cmds| == 1 {
        RunCommandLaw(o, fuel, cmds1[0], s, c);
        var r := RunCommand(o, fuel, cmds1[0], s, c);
        if r.Ended? {
          Quiet(st, s, 0, c);
          Then(st, s, 0, r.st, r.out, c);
        }
      } else {
        var p := o.pipe(s.vis, cmds1);
        One(st, SetWorld(Log(s, Leaf(cmds1)), p.world), Leaf(cmds1), Normal(p.status), c);
      }
    }
  }

  lemma {:induction false} RunCommandLaw(o: Leaves, fuel: nat, cmd: Cmd, st: State, c: Ctx)
    ensures Lawful(st, RunCommand(o, fuel, cmd, st, c), c)
    decreases fuel, 1
  {
    hide Law, RunLeaf;
    Quiet(st, st, 0, c);
    if cmd.argv != [] {
      var e := o.expand(st.vis, cmd);
      var s := SetWorld(st, e.world);
      Quiet(st, s, 0, c);
      if e.arithError || e.nounsetError {
        ExpandFailedLaw(st, s, e.nounsetError, c);
      } else if e.cmd.argv != [] && e.cmd.argv[0] in s.fns {
        if fuel > 0 {
          RunCallLaw(o, fuel - 1, e.cmd.argv, s, c);
          var r := RunCall(o, fuel - 1, e.cmd.argv, s, c);
          if r.Ended? {
            Then(st, s, 0, r.st, r.out, c);
          }
        }
      } else if !Undefined(o, e.cmd, s) {
        RunLeafLaw(o, e.cmd, s, c);
        var (s1, out) := RunLeaf(o, e.cmd, s, c);
        Then(st, s, 0, s1, out, c);
      }
    }
  }

  lemma {:induction false} RunCallLaw(o: Leaves, fuel: nat, argv: seq<string>, st: State, c: Ctx)
    requires argv != [] && argv[0] in st.fns
    ensures Lawful(st, RunCall(o, fuel, argv, st, c), c)
    decreases fuel, 7
  {
    hide Law, RunList;
    var c1 := c.(depth := c.depth + 1);
    RunListLaw(o, fuel, st.fns[argv[0]], Enter(st, argv), c1);
    var r := RunList(o, fuel, st.fns[argv[0]], Enter(st, argv), c1);
    if r.Ended? {
      CallLaw(st, r.st, argv, r.out, c);
    }
  }

  // ---- the main results ----

  // Unwinding is complete: a return or abort is the last thing that happens in the list it stops,
  // the outcome says which, and outside functions nothing ever returns.
  lemma Unwinding(o: Leaves, fuel: nat, items: seq<Item>, st: State, c: Ctx)
    requires RunList(o, fuel, items, st, c).Ended?
    ensures var r := RunList(o, fuel, items, st, c);
            st.log <= r.st.log && Unwound(New(st, r.st), c.depth, r.out) && (c.depth == 0 ==> !r.out.Return?)
  {
    RunListLaw(o, fuel, items, st, c);
  }

  // A call whose body returned n ends with status n in 0..255 and nothing of it happens after that
  // but scopes being closed; an abort in the body goes on to the caller; otherwise the call ends
  // as its body did.
  lemma CallUnwinds(o: Leaves, fuel: nat, argv: seq<string>, st: State, c: Ctx)
    requires argv != [] && argv[0] in st.fns && RunCall(o, fuel, argv, st, c).Ended?
    ensures var r := RunCall(o, fuel, argv, st, c);
            && st.log <= r.st.log && !r.out.Return?
            && var core := Core(New(st, r.st));
            && (forall k :: 0 <= k < |New(st, r.st)| ==>
                  var e := New(st, r.st)[k];
                  && (e.Returned? && e.depth <= c.depth + 1 ==>
                        e.depth == c.depth + 1 && k == |core| - 1 && r.out == Normal(e.code) && 0 <= e.code < 256)
                  && (e.Aborted? ==> k == |core| - 1 && r.out.Abort?))
            && (r.out.Abort? ==> core != [] && core[|core| - 1].Aborted?)
  {
    var c1 := c.(depth := c.depth + 1);
    var b := RunList(o, fuel, st.fns[argv[0]], Enter(st, argv), c1);
    RunListLaw(o, fuel, st.fns[argv[0]], Enter(st, argv), c1);
    var r := RunCall(o, fuel, argv, st, c);
    hide RunList, RunCall;
    assert New(Enter(st, argv), b.st) == New(st, r.st);
  }

  // Errexit is exact in every run: an item is followed by its abort if and only if it failed with
  // -e on, is not on the left of && or ||, and lies in no condition, neither in the context of the
  // list nor opened since at any call depth. In a deep context, which is the rule of the standard,
  // it must lie in no left operand either. Nothing else raises that abort.
  lemma ErrexitStops(o: Leaves, fuel: nat, items: seq<Item>, st: State, c: Ctx)
    requires RunList(o, fuel, items, st, c).Ended?
    ensures var r := RunList(o, fuel, items, st, c);
            && st.log <= r.st.log
            && var evs := New(st, r.st);
            && (forall k :: 0 <= k < |evs| && evs[k].Finished? ==>
                  ((k + 1 < |evs| && evs[k + 1] == Aborted(Errexit)) <==>
                   (&& evs[k].status != 0 && evs[k].errexit && !evs[k].followed
                    && !c.exempt && Open(evs[..k], Condition) == 0
                    && (c.deep ==> Open(evs[..k], LeftOperand) == 0))))
            && (forall k :: 0 <= k < |evs| && evs[k] == Aborted(Errexit) ==> k > 0 && evs[k - 1].Finished?)
            && Open(evs, Condition) == 0 && Open(evs, LeftOperand) == 0
  {
    RunListLaw(o, fuel, items, st, c);
    hide RunList, Open;
    var evs := New(st, RunList(o, fuel, items, st, c).st);
    forall k | 0 <= k < |evs| && evs[k].Finished?
      ensures evs[k].exempt <==>
                c.exempt || Open(evs[..k], Condition) > 0 || (c.deep && Open(evs[..k], LeftOperand) > 0)
      ensures Open(evs[..k], Condition) >= 0 && Open(evs[..k], LeftOperand) >= 0
    {
      assert evs[k].exempt == Covered(evs[..k], c.exempt, c.deep);
    }
  }

  // In a condition, at whatever call depth below it, errexit never stops the script.
  lemma NoErrexitInConditions(o: Leaves, fuel: nat, items: seq<Item>, st: State, c: Ctx)
    requires c.exempt && RunList(o, fuel, items, st, c).Ended?
    ensures var r := RunList(o, fuel, items, st, c); st.log <= r.st.log && Aborted(Errexit) !in New(st, r.st)
  {
    RunListLaw(o, fuel, items, st, c);
    hide RunList, Open;
    var evs := New(st, RunList(o, fuel, items, st, c).st);
    forall k | 0 <= k < |evs|
      ensures evs[k] != Aborted(Errexit)
    {
      assert k > 0 && evs[k] == Aborted(Errexit) ==> Fatal(evs[k - 1]);
    }
  }

  lemma {:induction false} NotDefined(fns: map<string, seq<Item>>, evs: seq<Event>, name: string)
    requires forall k :: 0 <= k < |evs| && evs[k].Defined? ==> evs[k].name != name
    ensures name in Definitions(fns, evs) <==> name in fns
    ensures name in fns ==> Definitions(fns, evs)[name] == fns[name]
    decreases |evs|
  {
    if evs != [] {
      var front := evs[..|evs| - 1];
      forall k | 0 <= k < |front| && front[k].Defined?
        ensures front[k].name != name
      {
        assert evs[k] == front[k];
      }
      NotDefined(fns, front, name);
    }
  }

  // Stored bodies survive every run word for word: the table is what the executed definitions make
  // of it, and a name that no executed definition mentions keeps its body.
  lemma StoredFunctions(o: Leaves, fuel: nat, items: seq<Item>, st: State, c: Ctx, name: string)
    requires RunList(o, fuel, items, st, c).Ended?
    ensures var r := RunList(o, fuel, items, st, c);
            && st.log <= r.st.log && r.st.fns == Definitions(st.fns, New(st, r.st))
            && (name in st.fns && (forall k :: 0 <= k < |New(st, r.st)| && New(st, r.st)[k].Defined? ==>
                                      New(st, r.st)[k].name != name) ==>
                  name in r.st.fns && r.st.fns[name] == st.fns[name])
  {
    RunListLaw(o, fuel, items, st, c);
    var r := RunList(o, fuel, items, st, c);
    if forall k :: 0 <= k < |New(st, r.st)| && New(st, r.st)[k].Defined? ==> New(st, r.st)[k].name != name {
      NotDefined(st.fns, New(st, r.st), name);
    }
  }

  // The value a name had just before the first `local` that saved it.
  function FirstSaved(frame: seq<Save>, name: string): Option<Option<string>>
    decreases |frame|
  {
    if frame == [] then None
    else
      var t := FirstSaved(frame[..|frame| - 1], name);
      if t.Some? then t
      else if frame[|frame| - 1].name == name then Some(frame[|frame| - 1].was) else None
  }

  lemma {:induction false} RestoreFirst(env: map<string, string>, frame: seq<Save>, name: string)
    ensures Lookup(Restore(env, frame), name) ==
            if FirstSaved(frame, name).Some? then FirstSaved(frame, name).value else Lookup(env, name)
    decreases |frame|
  {
    if frame != [] {
      var s := frame[|frame| - 1];
      RestoreFirst(Assign(env, s.name, s.was), frame[..|frame| - 1], name);
    }
  }

  // Every call, however it ends, gives back the positionals, the caller's frame and its height; a
  // name made local in it has the value (or absence) it had before its first `local` in the call,
  // any other name the value the body left.
  lemma CallRestores(o: Leaves, fuel: nat, argv: seq<string>, st: State, c: Ctx, name: string)
    requires argv != [] && argv[0] in st.fns && RunCall(o, fuel, argv, st, c).Ended?
    ensures var r := RunCall(o, fuel, argv, st, c);
            var body := RunList(o, fuel, st.fns[argv[0]], Enter(st, argv), c.(depth := c.depth + 1));
            && r.st.vis.arg0 == st.vis.arg0 && r.st.vis.args == st.vis.args
            && r.st.frame == st.frame && r.st.outer == st.outer
            && body.Ended? && st.log <= r.st.log
            && var first := FirstSaved(LocalsAt(New(st, r.st), c.depth + 1), name);
            Lookup(r.st.vis.env, name) == if first.Some? then first.value else Lookup(body.st.vis.env, name)
  {
    var c1 := c.(depth := c.depth + 1);
    var b := RunList(o, fuel, st.fns[argv[0]], Enter(st, argv), c1);
    RunListLaw(o, fuel, st.fns[argv[0]], Enter(st, argv), c1);
    var r := RunCall(o, fuel, argv, st, c);
    hide RunList, RunCall;
    assert New(Enter(st, argv), b.st) == New(st, r.st);
    assert [] + LocalsAt(New(st, r.st), c1.depth) == LocalsAt(New(st, r.st), c1.depth);
    RestoreFirst(b.st.vis.env, b.st.frame, name);
  }
}
