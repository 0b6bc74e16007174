// What a command does, said without the functions that define it: functions before builtins, what a
// called body sees, and the builtins that touch the control state, on the words a script has.
module CommandLaws {
  import opened CStrings
  import opened Ast
  import opened Int64
  import opened Semantics
  import opened ListLaws

  lemma ReadShown(v: int)
    requires InRange(v)
    ensures ReadLong(Shown(v)) == Some(v)
  {
    ShowThenRead(v);
    assert IsDigit(Show(if v < 0 then -v else v)[0]);
  }

  // ---- which command runs ----

  // A name that is a function's is called even if it is a builtin's.
  lemma FunctionsFirst(o: Leaves, fuel: nat, cmd: Cmd, st: State, c: Ctx)
    requires var e := o.expand(st.vis, cmd);
             && cmd.argv != [] && !e.arithError && !e.nounsetError && e.cmd.argv != [] && e.cmd.argv[0] in st.fns
    ensures var e := o.expand(st.vis, cmd);
            var s := st.(vis := st.vis.(world := e.world));
            SameEnd(RunCommand(o, fuel + 1, cmd, st, c), RunCall(o, fuel, e.cmd.argv, s, c))
  {
    hide RunCall;
  }

  // The body sees the words after the name as its positionals and the name as $0, the caller's
  // variables and functions, and has saved nothing; it runs one level deeper.
  lemma CallRuns(o: Leaves, fuel: nat, argv: seq<string>, st: State, c: Ctx)
    requires argv != [] && argv[0] in st.fns
    ensures var inside := State(st.vis.(arg0 := argv[0], args := argv[1..]), st.fns, [], st.outer + |st.frame|, st.log);
            var body := RunList(o, fuel, st.fns[argv[0]], inside, Ctx(c.exempt, c.depth + 1, c.deep));
            var r := RunCall(o, fuel, argv, st, c);
            && (r.Ended? <==> body.Ended?)
            && (r.Ended? ==>
                  && r.out == (if body.out.Return? then Normal(body.out.code) else body.out)
                  && r.st.fns == body.st.fns && r.st.log == body.st.log
                  && r.st.vis == body.st.vis.(arg0 := st.vis.arg0, args := st.vis.args, env := r.st.vis.env))
  {
    hide RunList, Restore;
  }

  // An arithmetic error in the words fails the command, an unset variable under -u aborts the script;
  // nothing runs.
  lemma ExpansionFails(o: Leaves, fuel: nat, cmd: Cmd, st: State, c: Ctx)
    requires var e := o.expand(st.vis, cmd); cmd.argv != [] && (e.arithError || e.nounsetError)
    ensures var e := o.expand(st.vis, cmd);
            var r := RunCommand(o, fuel, cmd, st, c);
            && r.Ended? && r.st.vis == st.vis.(world := e.world) && r.st.fns == st.fns
            && r.out == (if e.nounsetError then Abort(1) else Normal(1))
  {
  }

  // A redirection that cannot be made fails the builtin before it does anything.
  lemma RedirectionFails(o: Leaves, cmd: Cmd, st: State, c: Ctx)
    requires cmd.argv != [] && Concrete(cmd.argv[0])
    requires cmd.redirIn.Some? || cmd.redirOut.Some? || cmd.redirErr.Some? || cmd.redirErrToOut || cmd.hereBody.Some?
    requires !o.redirect(st.vis, cmd).ok
    ensures var (s, out) := RunLeaf(o, cmd, st, c);
            out == Normal(1) && s == st.(vis := st.vis.(world := o.redirect(st.vis, cmd).world), log := s.log)
  {
  }

  // Two stages are expanded one after the other; their errors add up.
  lemma TwoExpanded(o: Leaves, a: Cmd, b: Cmd, v: Vis)
    ensures var e := o.expand(v, a);
            var f := o.expand(v.(world := e.world), b);
            ExpandStages(o, v, [a, b], 0, false, false) ==
            (v.(world := f.world), [e.cmd, f.cmd], e.arithError || f.arithError, e.nounsetError || f.nounsetError)
  {
    var e := o.expand(v, a);
    var w := v.(world := e.world);
    var f := o.expand(w, b);
    var once := [a, b][0 := e.cmd];
    assert once[1] == b && once[1 := f.cmd] == [e.cmd, f.cmd];
    var x, y := e.arithError || f.arithError, e.nounsetError || f.nounsetError;
    assert ExpandStages(o, w.(world := f.world), [e.cmd, f.cmd], 2, x, y) ==
      (w.(world := f.world), [e.cmd, f.cmd], x, y);
    assert ExpandStages(o, w, once, 1, e.arithError, e.nounsetError) ==
      ExpandStages(o, w.(world := f.world), [e.cmd, f.cmd], 2, x, y);
  }

  // The stages of a pipeline are expanded from left to right before any of them runs.
  lemma TwoStages(o: Leaves, fuel: nat, a: Cmd, b: Cmd, st: State, c: Ctx)
    requires var e := o.expand(st.vis, a);
             var f := o.expand(st.vis.(world := e.world), b);
             !e.arithError && !e.nounsetError && !f.arithError && !f.nounsetError
    ensures var e := o.expand(st.vis, a);
            var f := o.expand(st.vis.(world := e.world), b);
            var p := o.pipe(st.vis.(world := f.world), [e.cmd, f.cmd]);
            var r := RunPipeline(o, fuel, [a, b], st, c);
            && r.Ended? && r.out == Normal(p.status) && r.tree == Pipeline([e.cmd, f.cmd])
            && r.st == st.(vis := st.vis.(world := p.world), log := st.log + [Leaf([e.cmd, f.cmd])])
  {
    hide ExpandStages;
    TwoExpanded(o, a, b, st.vis);
  }

  // An error in the words of either stage keeps both from running; an unset variable under -u aborts.
  lemma TwoStagesFail(o: Leaves, fuel: nat, a: Cmd, b: Cmd, st: State, c: Ctx)
    requires var e := o.expand(st.vis, a);
             var f := o.expand(st.vis.(world := e.world), b);
             e.arithError || e.nounsetError || f.arithError || f.nounsetError
    ensures var e := o.expand(st.vis, a);
            var f := o.expand(st.vis.(world := e.world), b);
            var r := RunPipeline(o, fuel, [a, b], st, c);
            && r.Ended? && r.out == (if e.nounsetError || f.nounsetError then Abort(1) else Normal(1))
            && r.st.vis == st.vis.(world := f.world) && r.st.fns == st.fns
  {
    hide ExpandStages;
    TwoExpanded(o, a, b, st.vis);
  }

  // An item with & leaves this shell as it is, but for the outside world; [[ ]] does so too and has the
  // status of its test, and an unset variable in it aborts under -u.
  lemma BackgroundAndTest(o: Leaves, fuel: nat, cmds: seq<Cmd>, tokens: seq<string>, marks: seq<int>, st: State, c: Ctx)
    ensures var p := o.background(st.vis, cmds);
            var r := RunKind(o, fuel, Item(Pipeline(cmds), Always, true), st, c);
            && r.Ended? && r.out == Normal(p.status)
            && r.st == st.(vis := st.vis.(world := p.world), log := st.log + [Leaf(cmds)])
    ensures var t := o.test(st.vis, tokens, marks);
            var r := RunKind(o, fuel, Alone(DBracket(tokens, marks)), st, c);
            && r.Ended? && r.out == (if t.nounsetError then Abort(1) else Normal(t.status))
            && r.st.vis == st.vis.(world := t.world) && r.st.fns == st.fns && r.st.frame == st.frame
  {
  }

  // A definition makes its body the function of that name, or fails and changes nothing.
  lemma Defining(o: Leaves, fuel: nat, name: string, body: seq<Item>, st: State, c: Ctx)
    ensures var r := RunKind(o, fuel, Alone(Fn(name, body)), st, c);
            && r.Ended? && r.st.vis == st.vis
            && if name != [] && (name in st.fns || |st.fns| < 64)
               then r.out == Normal(0) && r.st.fns == st.fns[name := body]
               else r.out == Normal(1) && r.st.fns == st.fns
  {
  }

  // ---- set ----

  function Words(argv: seq<string>): Cmd {
    EMPTY_CMD.(argv := argv, quoted := seq(|argv|, _ => 0))
  }

  function Sign(on: bool): string {
    if on then "-" else "+"
  }

  lemma {:induction false} LettersDo(v: Vis, letters: string, on: bool)
    requires forall k :: 0 <= k < |letters| ==> letters[k] in "eux"
    ensures SetLetters(v, letters, on) ==
            (v.(optE := if 'e' in letters then on else v.optE,
                optU := if 'u' in letters then on else v.optU,
                optX := if 'x' in letters then on else v.optX), true)
    decreases |letters|
  {
    if letters != [] {
      assert letters == [letters[0]] + letters[1..];
      assert letters[0] in "eux" && "eux" == ['e', 'u', 'x'];
      LettersDo(SetLetter(v, letters[0], on).value, letters[1..], on);
    }
  }

  // set -eux and set +eux turn on and off what their letters say, and nothing else.
  lemma SetLettersDo(letters: string, on: bool, st: State, c: Ctx)
    requires letters != [] && forall k :: 0 <= k < |letters| ==> letters[k] in "eux"
    ensures RunBuiltin(Words(["set", Sign(on) + letters]), st, c) ==
            (st.(vis := st.vis.(optE := if 'e' in letters then on else st.vis.optE,
                                optU := if 'u' in letters then on else st.vis.optU,
                                optX := if 'x' in letters then on else st.vis.optX)), Normal(0))
  {
    var arg := Sign(on) + letters;
    assert arg[1..] == letters && letters[0] in "eux";
    assert arg != "--" by { assert arg[1] == letters[0]; }
    assert letters != "o" by { assert letters[0] != 'o'; }
    LettersDo(st.vis, letters, on);
    hide SetLetters;
    assert SetFrom(st.vis, ["set", arg], 1) == SetFrom(SetLetters(st.vis, letters, on).0, ["set", arg], 2);
  }

  // So do the long names.
  lemma SetNamesDo(name: string, on: bool, st: State, c: Ctx)
    requires name in ["errexit", "nounset", "xtrace"]
    ensures RunBuiltin(Words(["set", Sign(on) + "o", name]), st, c) ==
            (st.(vis := if name == "errexit" then st.vis.(optE := on)
                        else if name == "nounset" then st.vis.(optU := on)
                        else st.vis.(optX := on)), Normal(0))
  {
    var argv := ["set", Sign(on) + "o", name];
    var arg := argv[1];
    assert arg[1..] == "o" && arg[1] == 'o' && arg != "--";
    var v := SetOName(st.vis, name, on).value;
    assert SetFrom(v, argv, 3) == Effect(0, v, false);
    assert SetFrom(st.vis, argv, 1) == SetFrom(v, argv, 3);
  }

  // An option that is none aborts the script.
  lemma SetRefuses(letter: char, on: bool, st: State, c: Ctx)
    requires letter !in "euxCo-"
    ensures var (s, out) := RunBuiltin(Words(["set", Sign(on) + [letter]]), st, c); s.vis == st.vis && out == Abort(1)
  {
    var arg := Sign(on) + [letter];
    assert arg[1..] == [letter] && arg[1] == letter;
    assert "euxCo-" == ['e', 'u', 'x', 'C', 'o', '-'];
    assert arg != "--" && [letter] != "o";
    assert SetLetters(st.vis, [letter], on) == (st.vis, false);
  }

  // noclobber is always on: -C does nothing and +C aborts; an unknown name after -o and no name abort;
  // set alone changes nothing.
  lemma SetOthers(name: string, st: State, c: Ctx)
    ensures RunBuiltin(Words(["set", "-C"]), st, c) == (st, Normal(0))
    ensures RunBuiltin(Words(["set", "+C"]), st, c) == (Log(st, Aborted(SpecialBuiltin)), Abort(1))
    ensures RunBuiltin(Words(["set", "-o"]), st, c) == (Log(st, Aborted(SpecialBuiltin)), Abort(1))
    ensures name !in ["errexit", "nounset", "xtrace", "noclobber"] ==>
              RunBuiltin(Words(["set", "-o", name]), st, c) == (Log(st, Aborted(SpecialBuiltin)), Abort(1))
    ensures RunBuiltin(Words(["set"]), st, c) == (st, Normal(0))
  {
    assert "-C"[1..] == "C" && "+C"[1..] == "C" && "-o"[1..] == "o" && "C"[1..] == "" && "C" != "o";
    assert "-C"[1] == 'C' && "+C"[1] == 'C' && "-o"[1] == 'o';
    assert SetLetters(st.vis, "C", true) == (st.vis, true) && SetLetters(st.vis, "C", false) == (st.vis, false);
    assert SetFrom(st.vis, ["set", "-C"], 2) == Effect(0, st.vis, false);
  }

  // set -- words, and set words when the first is no option, make them the positionals.
  lemma SetPositionals(words: seq<string>, st: State, c: Ctx)
    ensures RunBuiltin(Words(["set", "--"] + words), st, c) == (st.(vis := st.vis.(args := words)), Normal(0))
    ensures words != [] && (words[0] == [] || words[0][0] !in "+-") ==>
              RunBuiltin(Words(["set"] + words), st, c) == (st.(vis := st.vis.(args := words)), Normal(0))
  {
    assert (["set", "--"] + words)[2..] == words;
    if words != [] && (words[0] == [] || words[0][0] !in "+-") {
      var argv := ["set"] + words;
      assert argv[1] == words[0] && argv[1..] == words && "+-" == ['+', '-'];
      assert argv[1] != "--";
    }
  }

  // ---- shift, return, local ----

  // shift n drops the first n positionals, or fails and changes nothing when there are fewer.
  lemma ShiftDrops(n: nat, st: State, c: Ctx)
    requires n <= 0xFFFF_FFFF
    ensures RunBuiltin(Words(["shift", Shown(n)]), st, c) ==
            if n <= |st.vis.args| then (st.(vis := st.vis.(args := st.vis.args[n..])), Normal(0)) else (st, Normal(1))
    ensures RunBuiltin(Words(["shift"]), st, c) == RunBuiltin(Words(["shift", Shown(1)]), st, c)
  {
    hide ReadLong, Shown, SetFrom, LocalFrom;
    ReadShown(n);
    ReadShown(1);
  }

  // shift fails and changes nothing for two arguments and more, and for what is no number; so does
  // return, and outside a function it does so always.
  lemma CountsRefused(argv: seq<string>, st: State, c: Ctx)
    requires |argv| > 1 && (|argv| == 2 ==> ReadLong(argv[1]).None?)
    ensures argv[0] == "shift" || argv[0] == "return" ==> RunBuiltin(Words(argv), st, c) == (st, Normal(1))
    ensures c.depth == 0 ==> RunBuiltin(Words(["return"]), st, c) == (st, Normal(1))
  {
    hide ReadLong, SetFrom, LocalFrom;
  }

  lemma NegativeShift(n: int, st: State, c: Ctx)
    requires n < 0 && InRange(n)
    ensures RunBuiltin(Words(["shift", Shown(n)]), st, c) == (st, Normal(1))
  {
    hide ReadLong, Shown, SetFrom, LocalFrom;
    ReadShown(n);
  }

  // true and : succeed and false fails, whatever their arguments.
  lemma ConstantsDo(argv: seq<string>, st: State, c: Ctx)
    requires argv != []
    ensures argv[0] == "true" || argv[0] == ":" ==> RunBuiltin(Words(argv), st, c) == (st, Normal(0))
    ensures argv[0] == "false" ==> RunBuiltin(Words(argv), st, c) == (st, Normal(1))
  {
  }

  // return n leaves the call with n modulo 256, return alone with 0; outside a function it fails.
  lemma ReturnLeaves(v: int, st: State, c: Ctx)
    requires InRange(v)
    ensures c.depth > 0 ==>
              && RunBuiltin(Words(["return", Shown(v)]), st, c) ==
                 (Log(st, Returned(c.depth, v % 256)), Return(v % 256))
              && RunBuiltin(Words(["return"]), st, c) == (Log(st, Returned(c.depth, 0)), Return(0))
    ensures c.depth == 0 ==> RunBuiltin(Words(["return", Shown(v)]), st, c) == (st, Normal(1))
  {
    hide ReadLong, Shown, SetFrom, LocalFrom;
    ReadShown(v);
  }

  // local x=v gives x the value v, local x unsets it; either saves for this call what x was.
  lemma LocalSaves(name: string, v: string, st: State, c: Ctx)
    requires c.depth > 0 && 0 < |name| < 256 && '=' !in name && name[0] != '-' && st.outer + |st.frame| < 256
    ensures var was := Save(c.depth, name, if name in st.vis.env then Some(st.vis.env[name]) else None);
            var saved := st.(frame := st.frame + [was], log := st.log + [MadeLocal(was)]);
            && RunBuiltin(Words(["local", name + "=" + v]), st, c) ==
               (saved.(vis := st.vis.(env := st.vis.env[name := v])), Normal(0))
            && RunBuiltin(Words(["local", name]), st, c) ==
               (saved.(vis := st.vis.(env := st.vis.env - {name})), Normal(0))
  {
    var arg := name + "=" + v;
    IndexIs(name, v);
    NoIndex(name);
    assert arg[..|name|] == name && arg[|name| + 1..] == v && arg[0] == name[0];
    assert name[..|name|] == name;
    hide IndexOf;
    assert LocalFrom(st, ["local", arg], 1, 0, c.depth) ==
      LocalFrom(MakeLocal(st, name, Some(v), c.depth), ["local", arg], 2, 0, c.depth);
    assert LocalFrom(st, ["local", name], 1, 0, c.depth) ==
      LocalFrom(MakeLocal(st, name, None, c.depth), ["local", name], 2, 0, c.depth);
  }

  lemma {:induction false} LocalShift(st: State, argv: seq<string>, i: nat, more: seq<string>, k: nat, ret: int,
                                      other: int, depth: nat)
    requires i <= |argv| && k <= |more| && argv[i..] == more[k..]
    ensures LocalFrom(st, argv, i, ret, depth).0 == LocalFrom(st, more, k, other, depth).0
    ensures ret == 1 ==> LocalFrom(st, argv, i, ret, depth).1 == 1
    ensures ret == other ==> LocalFrom(st, argv, i, ret, depth).1 == LocalFrom(st, more, k, other, depth).1
    decreases |argv| - i
  {
    hide MakeLocal, IndexOf;
    assert |argv[i..]| == |more[k..]|;
    if i < |argv| {
      var arg := argv[i];
      assert arg == argv[i..][0] == more[k];
      assert argv[i + 1..] == argv[i..][1..] == more[k + 1..];
      var e := IndexOf(arg, '=');
      LocalShift(st, argv, i + 1, more, k + 1, 1, 1, depth);
      if arg != [] && e <= |arg| {
        var v := if e < |arg| then Some(arg[e + 1..]) else None;
        LocalShift(MakeLocal(st, arg[..e], v, depth), argv, i + 1, more, k + 1, ret, other, depth);
      }
    }
  }

  // A name that is none is passed over: the other arguments do what they do without it, and the status
  // is 1. An option stops everything, and so does a stack of 256 saved values.
  lemma LocalRefuses(bad: string, rest: seq<string>, st: State, c: Ctx)
    requires c.depth > 0 && rest != []
    ensures bad == "" || bad[0] == '=' ==>
              RunBuiltin(Words(["local", bad] + rest), st, c) ==
              (RunBuiltin(Words(["local"] + rest), st, c).0, Normal(1))
    ensures bad != "" && bad[0] == '-' ==> RunBuiltin(Words(["local", bad] + rest), st, c) == (st, Normal(1))
    ensures bad != "" && bad[0] !in "-=" && st.outer + |st.frame| >= 256 && '=' !in bad ==>
              RunBuiltin(Words(["local", bad] + rest), st, c) == (st, Normal(1))
    ensures RunBuiltin(Words(["local"]), st, c) == (st, Normal(1))
  {
    hide MakeLocal;
    var argv, more := ["local", bad] + rest, ["local"] + rest;
    assert argv[2..] == rest == more[1..] && argv[1] == bad;
    LocalShift(st, argv, 2, more, 1, 1, 0, c.depth);
    if bad != "" && bad[0] == '=' {
      assert IndexOf(bad, '=') == 0;
    }
    if '=' !in bad {
      NoIndex(bad);
    }
    assert "-=" == ['-', '='];
  }

  // Outside a function local fails and changes nothing.
  lemma LocalOutside(argv: seq<string>, st: State, c: Ctx)
    requires argv != [] && argv[0] == "local" && c.depth == 0
    ensures RunBuiltin(Words(argv), st, c) == (st, Normal(1))
  {
  }

  lemma {:induction false} IndexIs(name: string, v: string)
    requires '=' !in name
    ensures IndexOf(name + "=" + v, '=') == |name|
  {
    if name == [] {
      assert name + "=" + v == "=" + v;
    } else {
      assert (name + "=" + v)[1..] == name[1..] + "=" + v;
      IndexIs(name[1..], v);
    }
  }

  lemma {:induction false} NoIndex(name: string)
    requires '=' !in name
    ensures IndexOf(name, '=') == |name|
  {
    if name != [] {
      NoIndex(name[1..]);
    }
  }
}
