// The dispatcher as src/mid/dispatcher.c runs it: flags and counters shared by every call, one
// stack of saved variables tagged with the call depth, a table of functions. It walks trees whose
// commands are objects: expansion overwrites them where they stand, and for, case and function
// bodies run on clones. Each method is proved to end as the flag-free run of Semantics does on what
// the tree said, to leave the tree saying what that run leaves, and to touch no stored body.
//
// `ghost fuel` bounds the run that is known to end: the contracts are about terminating runs.
module ShellMachine {
  import opened CStrings
  import opened Ast
  import opened Clone
  import opened Glob
  import opened Int64
  import opened Semantics
  import opened FnTable

  type Body = seq<HItem>

  function CellsOf(slot: Slot<Body>): set<CmdCell> {
    if slot.Used? then CellSet(Refs(slot.body)) else {}
  }

  // The commands of the stored bodies.
  function SlotCells(slots: seq<Slot<Body>>): set<CmdCell> {
    set s, c | s in slots && c in CellsOf(s) :: c
  }

  function Said(slot: Slot<Body>): Slot<seq<Item>>
    reads CellsOf(slot)`cmd
  {
    match slot
    case Free => Free
    case Used(name, body) => Used(name, View(body))
  }

  // The stored bodies say this.
  ghost predicate Mirrors(slots: seq<Slot<Body>>, bodies: seq<Slot<seq<Item>>>)
    reads SlotCells(slots)`cmd
  {
    |slots| == |bodies| && forall k :: 0 <= k < |slots| ==> bodies[k] == Said(slots[k])
  }

  lemma MirrorsUpdate(slots: seq<Slot<Body>>, bodies: seq<Slot<seq<Item>>>, k: nat, name: string, body: Body)
    requires Mirrors(slots, bodies) && k < |slots|
    ensures Mirrors(slots[k := Used(name, body)], bodies[k := Used(name, View(body))])
    ensures SlotCells(slots[k := Used(name, body)]) <= SlotCells(slots) + CellSet(Refs(body))
  {
    hide View, Refs;
    var next := slots[k := Used(name, body)];
    forall x | x in next
      ensures x in slots || x == Used(name, body)
    {
      var i :| 0 <= i < |next| && next[i] == x;
      assert i != k ==> x == slots[i];
    }
  }

  class Shell {
    const leaves: Leaves

    // src/mid/expand.c and the environment
    var env: map<string, string>
    var arg0: string
    var args: seq<string>
    var optE: bool
    var optU: bool
    var optX: bool
    var last: int
    var arithError: bool
    var nounsetError: bool
    // everything outside the process
    var world: World

    // src/mid/dispatcher.c
    var fns: seq<Slot<Body>>
    var fnDepth: nat
    var returning: bool
    var returnStatus: int
    var shellAbort: bool
    var noErrexit: nat
    var locals: seq<Save>

    // the commands of the stored bodies and what these say, where the current call's part of
    // `locals` starts, and what happened so far
    ghost var store: set<CmdCell>
    ghost var bodies: seq<Slot<seq<Item>>>
    ghost var base: nat
    ghost var log: seq<Event>

    ghost predicate Valid()
      reads `fns, `bodies, `base, `locals, `fnDepth
    {
      && |fns| == |bodies| == FN_MAX && Distinct(bodies)
      && base <= |locals| <= LOCAL_MAX
      && (forall k :: 0 <= k < base ==> locals[k].depth < fnDepth)
      && (forall k :: base <= k < |locals| ==> locals[k].depth == fnDepth)
    }

    // The stored bodies say what `bodies` has.
    ghost predicate Mirrored()
      reads `fns, `bodies, `store, store`cmd
    {
      SlotCells(fns) == store && Mirrors(fns, bodies)
    }

    // No return, abort or expansion error is pending.
    ghost predicate Clear()
      reads `returning, `shellAbort, `arithError, `nounsetError
    {
      !returning && !shellAbort && !arithError && !nounsetError
    }

    function Visible(): Vis
      reads `env, `arg0, `args, `optE, `optU, `optX, `last, `world
    {
      Vis(env, arg0, args, optE, optU, optX, last, world)
    }

    ghost function Abs(): State
      requires base <= |locals|
      reads `env, `arg0, `args, `optE, `optU, `optX, `last, `world, `bodies, `locals, `base, `log
    {
      State(Visible(), Table(bodies), locals[base..], base, log)
    }

    ghost function Here(): Ctx
      reads `noErrexit, `fnDepth
    {
      Ctx(noErrexit > 0, fnDepth)
    }

    // The flags and the returned status say how the run ended.
    ghost predicate Shows(status: int, out: Outcome)
      reads `returning, `returnStatus, `shellAbort, `arithError, `nounsetError
    {
      && !arithError && !nounsetError
      && returning == out.Return? && shellAbort == out.Abort?
      && status == StatusOf(out) && (out.Return? ==> returnStatus == out.code)
    }

    // The tree of these commands is nobody else's: no command occurs twice or in a stored body.
    ghost predicate Owns(cells: seq<CmdCell>)
      reads `store
    {
      NoDup(cells) && CellSet(cells) !! store
    }

    // What is stored now was stored before or is new.
    twostate predicate StoreGrows()
      reads `store
    {
      forall c :: c in store && c !in old(store) ==> fresh(c)
    }

    // Counters, depth and the callers' saved variables are as they were.
    twostate predicate Balanced()
      reads this
    {
      && fnDepth == old(fnDepth) && noErrexit == old(noErrexit) && base == old(base)
      && base <= |locals| && old(base <= |locals|)
      && locals[..base] == old(locals[..base])
    }

    constructor (o: Leaves, v: Vis)
      ensures Valid() && Mirrored() && Clear() && leaves == o
      ensures Abs() == State(v, map[], [], 0, []) && Here() == Ctx(false, 0)
    {
      leaves := o;
      env, arg0, args, optE, optU, optX, last, world :=
        v.env, v.arg0, v.args, v.optE, v.optU, v.optX, v.last, v.world;
      arithError, nounsetError, returning, returnStatus, shellAbort := false, false, false, 0, false;
      fns, bodies := seq(FN_MAX, _ => Free), seq(FN_MAX, _ => Free);
      fnDepth, noErrexit, locals, base, log, store := 0, 0, [], 0, [], {};
      new;
      EmptyTable(bodies);
    }

    // ---- state that commands may change ----

    method Adopt(v: Vis)
      modifies this`env, this`arg0, this`args, this`optE, this`optU, this`optX, this`last, this`world
      ensures Visible() == v
    {
      env, arg0, args := v.env, v.arg0, v.args;
      optE, optU, optX := v.optE, v.optU, v.optX;
      last, world := v.last, v.world;
    }

    // The command is overwritten by its expansion.
    method ExpandCmdArgv(cell: CmdCell)
      modifies cell, `world, `arithError, `nounsetError
      ensures var e := leaves.expand(old(Visible()), old(cell.cmd));
              && cell.cmd == e.cmd && Visible() == old(Visible()).(world := e.world)
              && arithError == (old(arithError) || e.arithError)
              && nounsetError == (old(nounsetError) || e.nounsetError)
    {
      var e := leaves.expand(Visible(), cell.cmd);
      cell.cmd, world := e.cmd, e.world;
      arithError, nounsetError := arithError || e.arithError, nounsetError || e.nounsetError;
    }

    method ExpandWord(word: string) returns (text: string)
      requires Valid() && !arithError && !nounsetError
      modifies `world, `arithError, `nounsetError
      ensures var w := leaves.expandWord(old(Visible()), word);
              Valid() && Abs() == SetWorld(old(Abs()), w.world) && text == w.text &&
              arithError == w.arithError && nounsetError == w.nounsetError
    {
      var w := leaves.expandWord(Visible(), word);
      world, arithError, nounsetError := w.world, w.arithError, w.nounsetError;
      text := w.text;
    }

    method TakeExpandErrors() returns (bad: bool)
      requires Valid() && !returning && !shellAbort
      modifies `arithError, `nounsetError, `shellAbort, `log
      ensures Valid() && bad == old(arithError || nounsetError)
      ensures if bad then var (s, out) := ExpandFailed(old(Abs()), old(nounsetError)); Abs() == s && Shows(1, out)
              else Abs() == old(Abs()) && Clear()
    {
      hide Table;
      assert base <= |locals|;
      hide Valid;
      bad := arithError;
      arithError := false;
      if nounsetError {
        nounsetError := false;
        shellAbort, log := true, log + [Aborted(Nounset)];
        bad := true;
      }
    }

    // The words name a stored function.
    ghost predicate Calls(cmd: Cmd, st: State) {
      cmd.argv != [] && cmd.argv[0] in st.fns
    }

    // ---- functions ----

    // The slot of this name, else the first free one, else -1.
    method FnSlot(name: string) returns (slot: int)
      requires Valid() && Mirrored()
      ensures slot == -1 <==> name !in Table(bodies) && |Table(bodies)| >= FN_MAX
      ensures slot != -1 ==> 0 <= slot < FN_MAX
      ensures slot != -1 ==> if name in Table(bodies) then bodies[slot].Used? && bodies[slot].name == name
                             else bodies[slot].Free?
    {
      hide View, Refs, CellsOf;
      slot := -1;
      var i := 0;
      while i < FN_MAX
        invariant 0 <= i <= FN_MAX && -1 <= slot < i
        invariant forall k :: 0 <= k < i && bodies[k].Used? ==> bodies[k].name != name
        invariant slot == -1 ==> forall k :: 0 <= k < i ==> bodies[k].Used?
        invariant 0 <= slot ==> bodies[slot].Free?
      {
        if fns[i].Used? && fns[i].name == name {
          TableHolds(bodies, i);
          return i;
        }
        if slot < 0 && fns[i].Free? {
          slot := i;
        }
        i := i + 1;
      }
      TableSize(bodies);
      CountFull(bodies);
      if name in Table(bodies) {
        TableOnly(bodies, name);
      }
    }

    // src/mid/dispatcher.c:346: a clone of the body is stored.
    method FnSet(name: string, body: Body) returns (ok: bool)
      requires Valid() && Mirrored()
      modifies this`fns, this`bodies, this`store
      ensures Valid() && Mirrored() && StoreGrows()
      ensures ok == (name != [] && (name in old(Table(bodies)) || |old(Table(bodies))| < FN_MAX))
      ensures Table(bodies) == if ok then old(Table(bodies))[name := old(View(body))] else old(Table(bodies))
    {
      hide View, Refs, CellsOf, Table;
      if name == [] { return false; }
      assert allocated(CellSet(Refs(body)));
      var slot := FnSlot(name);
      if slot < 0 { return false; }
      var copy, cells := CloneList(body);
      TableUpdate(bodies, slot, name, View(copy));
      MirrorsUpdate(fns, bodies, slot, name, copy);
      fns, bodies := fns[slot := Used(name, copy)], bodies[slot := Used(name, View(copy))];
      store := SlotCells(fns);
      return true;
    }

    method FnGet(name: string) returns (r: Option<Body>)
      requires Valid() && Mirrored()
      ensures r.Some? <==> name in Abs().fns
      ensures r.Some? ==> View(r.value) == Abs().fns[name] && CellSet(Refs(r.value)) <= store
    {
      hide View, Refs;
      var i := 0;
      while i < FN_MAX
        invariant 0 <= i <= FN_MAX
        invariant forall k :: 0 <= k < i && bodies[k].Used? ==> bodies[k].name != name
      {
        if fns[i].Used? && fns[i].name == name {
          TableHolds(bodies, i);
          assert fns[i] in fns && bodies[i] == Said(fns[i]);
          assert forall c :: c in CellsOf(fns[i]) ==> c in SlotCells(fns);
          return Some(fns[i].body);
        }
        i := i + 1;
      }
      if name in Table(bodies) {
        TableOnly(bodies, name);
      }
      return None;
    }

    // ---- saved variables ----

    method LocalPush(name: string) returns (ok: bool)
      requires Valid() && name != []
      modifies this`locals, this`log
      ensures Valid() && Balanced()
      ensures ok == (old(|locals|) < LOCAL_MAX)
      ensures !ok ==> locals == old(locals) && log == old(log)
      ensures ok ==> locals[base..] == old(locals[base..]) + [Save(fnDepth, name, Lookup(env, name))]
      ensures ok ==> log == old(log) + [MadeLocal(Save(fnDepth, name, Lookup(env, name)))]
    {
      if |locals| >= LOCAL_MAX { return false; }
      var e := Save(fnDepth, name, Lookup(env, name));
      locals, log := locals + [e], log + [MadeLocal(e)];
      return true;
    }

    method LocalRestoreFrame()
      requires Valid()
      modifies this`env, this`locals
      ensures Valid() && base == |locals| && locals == old(locals[..base])
      ensures env == Restore(old(env), old(locals[base..]))
    {
      ghost var frame := locals[base..];
      assert frame[..|frame|] == frame;
      while |locals| > 0 && locals[|locals| - 1].depth == fnDepth
        invariant base <= |locals| <= base + |frame| && locals == old(locals)[..|locals|]
        invariant Restore(env, frame[..|locals| - base]) == Restore(old(env), frame)
        decreases |locals|
      {
        var n := |locals| - 1;
        var e := locals[n];
        assert frame[..n + 1 - base][..n - base] == frame[..n - base];
        if e.was.Some? {
          env := env[e.name := e.was.value];
        } else {
          env := env - {e.name};
        }
        locals := locals[..n];
      }
    }

    // ---- builtins ----

    // src/mid/expand.c:201
    method PositionalShift(n: nat) returns (rc: int)
      requires n <= INT_MAX
      modifies this`args
      ensures rc == if n <= |old(args)| then 0 else -1
      ensures args == if rc == 0 then old(args)[n..] else old(args)
    {
      if n == 0 { return 0; }
      if AsInt(n) > |args| { return -1; }
      args := args[n..];
      return 0;
    }

    // src/mid/dispatcher.c:2443
    method BuiltinShift(argv: seq<string>) returns (rc: int)
      requires argv != [] && argv[0] == "shift" && !WildShift(argv)
      modifies this`args
      ensures (rc, Visible()) == Shift(old(Visible()), argv)
    {
      if |argv| > 2 { return 1; }
      var n := 1;
      if |argv| == 2 {
        var v := ReadLong(argv[1]);
        if v.None? || v.value < 0 { return 1; }
        if v.value > UINT_MAX { return 1; }
        n := v.value;
      }
      var failed := PositionalShift(n);
      rc := if failed != 0 then 1 else 0;
    }

    method SetApplyLetter(letter: char, on: bool) returns (ok: bool)
      modifies this`optE, this`optU, this`optX
      ensures ok == SetLetter(old(Visible()), letter, on).Some?
      ensures Visible() == if ok then SetLetter(old(Visible()), letter, on).value else old(Visible())
    {
      match letter
      case 'x' => optX := on; return true;
      case 'u' => optU := on; return true;
      case 'e' => optE := on; return true;
      case 'C' => return on;
      case _ => return false;
    }

    method SetApplyOName(name: string, on: bool) returns (ok: bool)
      modifies this`optE, this`optU, this`optX
      ensures ok == SetOName(old(Visible()), name, on).Some?
      ensures Visible() == if ok then SetOName(old(Visible()), name, on).value else old(Visible())
    {
      if name == "xtrace" { optX := on; return true; }
      if name == "nounset" { optU := on; return true; }
      if name == "errexit" { optE := on; return true; }
      if name == "noclobber" { return on; }
      return false;
    }

    method SetApplyLetters(letters: string, on: bool) returns (ok: bool)
      modifies this`optE, this`optU, this`optX
      ensures (Visible(), ok) == SetLetters(old(Visible()), letters, on)
    {
      var p := 0;
      while p < |letters|
        invariant p <= |letters|
        invariant SetLetters(Visible(), letters[p..], on) == SetLetters(old(Visible()), letters, on)
      {
        assert letters[p..][1..] == letters[p + 1..];
        var r := SetApplyLetter(letters[p], on);
        if !r { return false; }
        p := p + 1;
      }
      return true;
    }

    method BuiltinSet(argv: seq<string>) returns (rc: int)
      requires argv != [] && !shellAbort
      modifies this`optE, this`optU, this`optX, this`args, this`shellAbort, this`log
      ensures var e := SetFrom(old(Visible()), argv, 1);
              Visible() == e.vis && rc == e.status && shellAbort == e.abort &&
              log == if e.abort then old(log) + [Aborted(SpecialBuiltin)] else old(log)
    {
      var i := 1;
      while i < |argv|
        invariant 1 <= i <= |argv| && !shellAbort && log == old(log)
        invariant SetFrom(Visible(), argv, i) == SetFrom(old(Visible()), argv, 1)
      {
        var arg := argv[i];
        if arg == "--" {
          args := argv[i + 1..];
          return 0;
        }
        if |arg| >= 2 && (arg[0] == '-' || arg[0] == '+') {
          var on := arg[0] == '-';
          if arg[1] == 'o' && |arg| == 2 {
            assert arg[1..] == "o";
            if i + 1 >= |argv| { rc := AbortScript(); return; }
            var r := SetApplyOName(argv[i + 1], on);
            if !r { rc := AbortScript(); return; }
            i := i + 2;
            continue;
          }
          var r := SetApplyLetters(arg[1..], on);
          if !r { rc := AbortScript(); return; }
          i := i + 1;
          continue;
        }
        args := argv[i..];
        return 0;
      }
      return 0;
    }

    // A special builtin failed: status 1, and the script stops.
    method AbortScript() returns (rc: int)
      modifies this`shellAbort, this`log
      ensures rc == 1 && shellAbort && log == old(log) + [Aborted(SpecialBuiltin)]
    {
      shellAbort, log := true, log + [Aborted(SpecialBuiltin)];
      return 1;
    }

    method BuiltinReturn(argv: seq<string>) returns (rc: int)
      requires !returning
      modifies this`returning, this`returnStatus, this`log
      ensures var n := ReturnCode(argv, fnDepth);
              returning == n.Some? &&
              (n.Some? ==> rc == returnStatus == n.value && log == old(log) + [Returned(fnDepth, n.value)]) &&
              (n.None? ==> rc == 1 && log == old(log))
    {
      if fnDepth == 0 || |argv| > 2 { return 1; }
      var code := 0;
      if |argv| == 2 {
        var v := ReadLong(argv[1]);
        if v.None? { return 1; }
        code := v.value % 256;
      }
      returning, returnStatus, log := true, code, log + [Returned(fnDepth, code)];
      return code;
    }

    method BuiltinLocal(argv: seq<string>) returns (rc: int)
      requires Valid() && |argv| >= 2 && fnDepth > 0
      modifies this`env, this`locals, this`log
      ensures Valid() && Balanced()
      ensures (Abs(), rc) == LocalFrom(old(Abs()), argv, 1, 0, fnDepth)
    {
      rc := 0;
      var i := 1;
      while i < |argv|
        invariant 1 <= i <= |argv| && Valid() && Balanced()
        invariant LocalFrom(Abs(), argv, i, rc, fnDepth) == LocalFrom(old(Abs()), argv, 1, 0, fnDepth)
      {
        var arg := argv[i];
        if arg == [] {
          rc, i := 1, i + 1;
          continue;
        }
        if arg[0] == '-' { return 1; }
        var eq := IndexOf(arg, '=');
        if eq < |arg| && (eq == 0 || eq >= 256) {
          rc, i := 1, i + 1;
          continue;
        }
        var name := arg[..eq];
        ghost var before := Abs();
        var ok := LocalPush(name);
        if !ok { return 1; }
        if eq < |arg| {
          env := env[name := arg[eq + 1..]];
        } else {
          env := env - {name};
        }
        assert Abs() == MakeLocal(before, name, if eq < |arg| then Some(arg[eq + 1..]) else None, fnDepth);
        i := i + 1;
      }
    }

    // The builtins that leave frames and functions alone.
    method PlainBuiltin(cmd: Cmd) returns (rc: int)
      requires Valid() && Clear() && cmd.argv != [] && cmd.argv[0] in ["true", ":", "false", "shift", "set"]
      requires !WildShift(cmd.argv)
      modifies `args, `optE, `optU, `optX, `shellAbort, `log
      ensures Valid() && Balanced()
      ensures var (s, out) := RunBuiltin(cmd, old(Abs()), old(Here())); Abs() == s && Shows(rc, out)
    {
      hide Table, Shift, SetFrom, ReturnCode, LocalFrom;
      assert base <= |locals|;
      hide Valid;
      var name := cmd.argv[0];
      if name == "true" || name == ":" { return 0; }
      if name == "false" { return 1; }
      if name == "shift" {
        rc := BuiltinShift(cmd.argv);
      } else {
        rc := BuiltinSet(cmd.argv);
      }
    }

    // A builtin of the model, redirections in place.
    method Builtin(cmd: Cmd) returns (rc: int)
      requires Valid() && Clear() && cmd.argv != [] && Concrete(cmd.argv[0]) && !WildShift(cmd.argv)
      modifies `env, `arg0, `args, `optE, `optU, `optX, `last, `world, `shellAbort, `returning, `returnStatus
      modifies `locals, `log
      ensures Valid() && Balanced()
      ensures var (s, out) := RunBuiltin(cmd, old(Abs()), old(Here())); Abs() == s && Shows(rc, out)
    {
      hide Table, Distinct, Shift, SetFrom, ReturnCode, LocalFrom;
      var name := cmd.argv[0];
      if name == "return" {
        rc := BuiltinReturn(cmd.argv);
      } else if name == "local" {
        if fnDepth == 0 || |cmd.argv| < 2 { return 1; }
        rc := BuiltinLocal(cmd.argv);
      } else {
        rc := PlainBuiltin(cmd);
      }
    }

    // src/mid/dispatcher.c:123: a builtin of the model between its redirections.
    method RunWithRedirs(cmd: Cmd) returns (status: int)
      requires Valid() && Clear() && cmd.argv != [] && Concrete(cmd.argv[0]) && !Undefined(leaves, cmd, Abs())
      modifies `env, `arg0, `args, `optE, `optU, `optX, `last, `world, `shellAbort, `returning, `returnStatus
      modifies `locals, `log
      ensures Valid() && Balanced()
      ensures var (s, out) := RunRedirected(leaves, cmd, old(Abs()), old(Here())); Abs() == s && Shows(status, out)
    {
      hide Table, RunBuiltin;
      assert base <= |locals|;
      hide Valid;
      if NeedsRedir(cmd) {
        var p := leaves.redirect(Visible(), cmd);
        world := p.world;
        if !p.ok { return 1; }
      }
      status := Builtin(cmd);
    }

    // Any other builtin, or a program.
    method RunOther(cmd: Cmd) returns (status: int)
      requires Valid() && Clear()
      modifies `env, `arg0, `args, `optE, `optU, `optX, `last, `world, `shellAbort, `returning, `returnStatus
      modifies `locals, `log
      ensures Valid() && Balanced()
      ensures var (s, out) := Take(old(Abs()), leaves.command(old(Visible()), cmd)); Abs() == s && Shows(status, out)
    {
      hide Table;
      assert base <= |locals|;
      hide Valid;
      var e := leaves.command(Visible(), cmd);
      Adopt(e.vis);
      status := e.status;
      if e.abort {
        shellAbort, log := true, log + [Aborted(SpecialBuiltin)];
      }
    }

    // A builtin, or any other command.
    method RunSimple(cmd: Cmd) returns (status: int)
      requires Valid() && Clear() && !Undefined(leaves, cmd, Abs())
      modifies `env, `arg0, `args, `optE, `optU, `optX, `last, `world, `shellAbort, `returning, `returnStatus
      modifies `locals, `log
      ensures Valid() && Balanced()
      ensures var (s, out) := RunLeaf(leaves, cmd, old(Abs()), old(Here())); Abs() == s && Shows(status, out)
    {
      hide Table, RunRedirected, Take;
      assert base <= |locals|;
      hide Valid;
      log := log + [Leaf([cmd])];
      if cmd.argv != [] && Concrete(cmd.argv[0]) {
        status := RunWithRedirs(cmd);
      } else {
        status := RunOther(cmd);
      }
    }

    // ---- the dispatcher ----

    // A clone runs, and whatever its run writes, the words it was cloned from stay.
    method DispatchClone(ghost fuel: nat, list: seq<HItem>) returns (status: int)
      requires Valid() && Mirrored() && Clear()
      requires RunList(leaves, fuel, View(list), Abs(), Here()).Ended?
      modifies this
      ensures Valid() && Mirrored() && Balanced() && StoreGrows() && View(list) == old(View(list))
      ensures var r := RunList(leaves, fuel, old(View(list)), old(Abs()), old(Here()));
              Abs() == r.st && Shows(status, r.out)
      decreases fuel, 6, 1
    {
      hide Valid, Mirrored, Abs, RunList, View, Refs, NoDup;
      assert allocated(CellSet(Refs(list)));
      var copy, cells := CloneList(list);
      status := DispatchList(fuel, copy);
    }

    // The start of call_fn: one level deeper, on the call's own positionals.
    method EnterCall(argv: seq<string>)
      requires Valid() && argv != []
      modifies `fnDepth, `base, `arg0, `args
      ensures Valid() && Abs() == Enter(old(Abs()), argv)
      ensures fnDepth == old(fnDepth) + 1 && base == |locals|
    {
      fnDepth := fnDepth + 1;
      base := |locals|;
      arg0, args := argv[0], argv[1..];
      assert locals[base..] == [];
    }

    // The end of call_fn: the variables of the frame, the depth and the positionals come back.
    method LeaveCall(saved0: string, saved: seq<string>, ghost caller: State, ghost callerLocals: seq<Save>)
      requires Valid() && fnDepth > 0 && locals[..base] == callerLocals && caller.outer <= base
      requires forall k :: 0 <= k < caller.outer ==> callerLocals[k].depth < fnDepth - 1
      requires forall k :: caller.outer <= k < base ==> callerLocals[k].depth == fnDepth - 1
      requires caller.frame == callerLocals[caller.outer..] && caller.vis.arg0 == saved0 && caller.vis.args == saved
      modifies `env, `locals, `fnDepth, `base, `arg0, `args
      ensures Valid() && fnDepth == old(fnDepth) - 1 && base == caller.outer && locals == callerLocals
      ensures Abs() == Leave(caller, old(Abs()))
    {
      hide Table, Distinct, Restore;
      LocalRestoreFrame();
      fnDepth := fnDepth - 1;
      base := caller.outer;
      arg0, args := saved0, saved;
    }

    // The middle of call_fn: the body runs as a clone, and a pending return ends with it.
    method RunBody(ghost fuel: nat, argv: seq<string>, body: Body) returns (status: int)
      requires Valid() && Mirrored() && Clear() && argv != []
      requires RunList(leaves, fuel, View(body), Enter(Abs(), argv), Here().(depth := fnDepth + 1)).Ended?
      modifies this
      ensures Valid() && Mirrored() && StoreGrows()
      ensures fnDepth == old(fnDepth) + 1 && noErrexit == old(noErrexit)
      ensures base == |old(locals)| <= |locals| && locals[..base] == old(locals)
      ensures var r := RunList(leaves, fuel, old(View(body)), Enter(old(Abs()), argv), old(Here()).(depth := fnDepth));
              Abs() == r.st && Shows(status, if r.out.Return? then Normal(r.out.code) else r.out)
      decreases fuel, 6, 2
    {
      hide Abs, Visible, Mirrored, RunList, Enter, View, Refs;
      assert base <= |locals|;
      hide Valid;
      assert allocated(CellSet(Refs(body)));
      EnterCall(argv);
      status := DispatchClone(fuel, body);
      if returning {
        status, returning := returnStatus, false;
      }
    }

    // src/mid/dispatcher.c:398
    method CallFn(ghost fuel: nat, argv: seq<string>, body: Body) returns (status: int)
      requires Valid() && Mirrored() && Clear() && argv != []
      requires argv[0] in Abs().fns && Abs().fns[argv[0]] == View(body)
      requires RunCall(leaves, fuel, argv, Abs(), Here()).Ended?
      modifies this
      ensures Valid() && Mirrored() && Balanced() && StoreGrows()
      ensures var r := RunCall(leaves, fuel, argv, old(Abs()), old(Here())); Abs() == r.st && Shows(status, r.out)
      decreases fuel, 7
    {
      hide RunList, Leave, Enter, View, Refs, Mirrored, Table;
      var saved0, saved := arg0, args;
      ghost var caller, callerLocals := Abs(), locals;
      assert caller.outer == base <= |locals| && caller.frame == locals[base..];
      assert caller.vis.arg0 == arg0 && caller.vis.args == args;
      assert forall k :: 0 <= k < base ==> callerLocals[k].depth < fnDepth;
      assert forall k :: base <= k < |callerLocals| ==> callerLocals[k].depth == fnDepth;
      hide Valid, Abs, Visible;
      status := RunBody(fuel, argv, body);
      LeaveCall(saved0, saved, caller, callerLocals);
    }

    // Expansion in place, and what dispatch_command does when it fails.
    method ExpandOrFail(cell: CmdCell) returns (bad: bool)
      requires Valid() && Mirrored() && Clear() && cell !in store
      modifies cell, `world, `arithError, `nounsetError, `shellAbort, `log
      ensures Valid() && Mirrored() && Balanced()
      ensures var e := leaves.expand(old(Abs()).vis, old(cell.cmd));
              bad == (e.arithError || e.nounsetError) && cell.cmd == e.cmd &&
              if bad then
                var (s, out) := ExpandFailed(SetWorld(old(Abs()), e.world), e.nounsetError); Abs() == s && Shows(1, out)
              else Abs() == SetWorld(old(Abs()), e.world) && Clear()
    {
      hide Table, Mirrored;
      assert base <= |locals|;
      hide Valid;
      ExpandCmdArgv(cell);
      bad := TakeExpandErrors();
    }

    // What dispatch_command does with the expanded words.
    method Invoke(ghost fuel: nat, cmd: Cmd) returns (status: int)
      requires Valid() && Mirrored() && Clear()
      requires Calls(cmd, Abs()) ==> fuel > 0 && RunCall(leaves, fuel - 1, cmd.argv, Abs(), Here()).Ended?
      requires !Calls(cmd, Abs()) ==> !Undefined(leaves, cmd, Abs())
      modifies this
      ensures Valid() && Mirrored() && Balanced() && StoreGrows()
      ensures old(Calls(cmd, Abs())) ==>
                var r := RunCall(leaves, fuel - 1, cmd.argv, old(Abs()), old(Here()));
                Abs() == r.st && Shows(status, r.out)
      ensures !old(Calls(cmd, Abs())) ==>
                var (s, out) := RunLeaf(leaves, cmd, old(Abs()), old(Here())); Abs() == s && Shows(status, out)
      decreases fuel, 0
    {
      hide RunCall, RunLeaf, Undefined, Mirrored, View, Refs, Table;
      assert base <= |locals|;
      hide Valid;
      var fbody: Option<Body> := None;
      if cmd.argv != [] {
        fbody := FnGet(cmd.argv[0]);
      }
      if fbody.Some? {
        status := CallFn(fuel - 1, cmd.argv, fbody.value);
      } else {
        status := RunSimple(cmd);
      }
    }

    // src/mid/dispatcher.c:474
    method DispatchCommand(ghost fuel: nat, cell: CmdCell) returns (status: int)
      requires Valid() && Mirrored() && Clear() && cell !in store
      requires RunCommand(leaves, fuel, cell.cmd, Abs(), Here()).Ended?
      modifies this, cell
      ensures Valid() && Mirrored() && Balanced() && StoreGrows()
      ensures var r := RunCommand(leaves, fuel, old(cell.cmd), old(Abs()), old(Here()));
              Abs() == r.st && cell.cmd == r.tree && Shows(status, r.out)
      decreases fuel, 1, 0
    {
      hide RunCall, RunLeaf, Undefined, Mirrored, ExpandFailed, Abs, Visible;
      assert base <= |locals|;
      hide Valid;
      if cell.cmd.argv == [] { return 0; }
      var bad := ExpandOrFail(cell);
      if bad { return 1; }
      status := Invoke(fuel, cell.cmd);
    }

    // The first loop of dispatch_pipeline: every stage is expanded in place.
    method ExpandAll(cells: seq<CmdCell>)
      requires !arithError && !nounsetError && NoDup(cells)
      modifies CellSet(cells), `world, `arithError, `nounsetError
      ensures (Visible(), ViewCmds(cells), arithError, nounsetError) ==
              ExpandStages(leaves, old(Visible()), old(ViewCmds(cells)), 0, false, false)
    {
      hide Valid, NoDup, ExpandStages, Visible;
      var i := 0;
      while i < |cells|
        invariant i <= |cells|
        invariant ExpandStages(leaves, Visible(), ViewCmds(cells), i, arithError, nounsetError) ==
                  ExpandStages(leaves, old(Visible()), old(ViewCmds(cells)), 0, false, false)
      {
        OnlyOnce(cells, i);
        StageStep(leaves, Visible(), ViewCmds(cells), i, arithError, nounsetError);
        label L:
        ExpandCmdArgv(cells[i]);
        OnlyCmd@L(cells, i);
        i := i + 1;
      }
      StagesDone(leaves, Visible(), ViewCmds(cells), arithError, nounsetError);
    }

    // Expansion of all stages in place, and what dispatch_pipeline does when it fails.
    method ExpandAllOrFail(cells: seq<CmdCell>) returns (bad: bool)
      requires Valid() && Mirrored() && Clear() && Owns(cells)
      modifies CellSet(cells), `world, `arithError, `nounsetError, `shellAbort, `log
      ensures Valid() && Mirrored() && Balanced()
      ensures var (v, cmds, arith, nounset) :=
                ExpandStages(leaves, old(Abs()).vis, old(ViewCmds(cells)), 0, false, false);
              bad == (arith || nounset) && ViewCmds(cells) == cmds &&
              if bad then
                var (s, out) := ExpandFailed(old(Abs()).(vis := v), nounset); Abs() == s && Shows(1, out)
              else Abs() == old(Abs()).(vis := v) && Clear()
    {
      hide Mirrored, NoDup, ExpandStages, ExpandFailed, ViewCmds, Table;
      assert base <= |locals|;
      hide Valid;
      assert allocated(CellSet(cells));
      ExpandAll(cells);
      bad := TakeExpandErrors();
    }

    // src/mid/dispatcher.c:1314
    method DispatchPipeline(ghost fuel: nat, cells: seq<CmdCell>) returns (status: int)
      requires Valid() && Mirrored() && Clear() && Owns(cells)
      requires RunPipeline(leaves, fuel, ViewCmds(cells), Abs(), Here()).Ended?
      modifies this, CellSet(cells)
      ensures Valid() && Mirrored() && Balanced() && StoreGrows()
      ensures var r := RunPipeline(leaves, fuel, old(ViewCmds(cells)), old(Abs()), old(Here()));
              Abs() == r.st && Pipeline(ViewCmds(cells)) == r.tree && Shows(status, r.out)
      decreases fuel, 2
    {
      hide Mirrored, RunCommand, ExpandStages, ExpandFailed, Owns, Abs, Visible, CellSet, SetWorld, Log;
      assert base <= |locals| && |ViewCmds(cells)| == |cells|;
      hide Valid, ViewCmds;
      if |cells| == 0 { return 0; }
      var bad := ExpandAllOrFail(cells);
      if bad { return 1; }
      if |cells| == 1 {
        status := DispatchOnly(fuel, cells);
      } else {
        status := DispatchStages(cells);
      }
    }

    // A pipeline of one stage is run by the shell itself.
    method DispatchOnly(ghost fuel: nat, cells: seq<CmdCell>) returns (status: int)
      requires Valid() && Mirrored() && Clear() && Owns(cells) && |cells| == 1
      requires RunCommand(leaves, fuel, ViewCmds(cells)[0], Abs(), Here()).Ended?
      modifies this, CellSet(cells)
      ensures Valid() && Mirrored() && Balanced() && StoreGrows()
      ensures var r := RunCommand(leaves, fuel, old(ViewCmds(cells))[0], old(Abs()), old(Here()));
              Abs() == r.st && ViewCmds(cells) == [r.tree] && Shows(status, r.out)
      decreases fuel, 1, 1
    {
      hide Abs, Valid, Mirrored, RunCommand, Visible;
      assert cells[0] in CellSet(cells);
      status := DispatchCommand(fuel, cells[0]);
    }

    // Two or more stages: a leaf of this model.
    method DispatchStages(cells: seq<CmdCell>) returns (status: int)
      requires Valid() && Mirrored() && Clear()
      modifies `log, `world
      ensures Valid() && Mirrored() && Balanced() && ViewCmds(cells) == old(ViewCmds(cells))
      ensures var p := leaves.pipe(old(Abs()).vis, ViewCmds(cells));
              Abs() == SetWorld(Log(old(Abs()), Leaf(ViewCmds(cells))), p.world) && Shows(status, Normal(p.status))
    {
      hide Table, Mirrors, ViewCmds;
      assert base <= |locals|;
      hide Valid;
      log := log + [Leaf(ViewCmds(cells))];
      var p := leaves.pipe(Visible(), ViewCmds(cells));
      status, world := p.status, p.world;
    }

    // What dispatch_if and dispatch_while do around a condition.
    method DispatchGuard(ghost fuel: nat, list: seq<HItem>) returns (status: int)
      requires Valid() && Mirrored() && Clear() && Owns(Refs(list))
      requires RunGuard(leaves, fuel, View(list), Abs(), Here()).Ended?
      modifies this, CellSet(Refs(list))
      ensures Valid() && Mirrored() && Balanced() && StoreGrows()
      ensures var r := RunGuard(leaves, fuel, old(View(list)), old(Abs()), old(Here()));
              Abs() == r.st && View(list) == r.tree && Shows(status, r.out)
      decreases fuel, 7
    {
      hide Table, Mirrored, RunList, View, Refs, NoDup;
      assert base <= |locals|;
      hide Valid;
      log := log + [Begin(Condition)];
      noErrexit := noErrexit + 1;
      status := DispatchList(fuel, list);
      noErrexit := noErrexit - 1;
      log := log + [End(Condition)];
    }

    // The condition of an arm.
    method DispatchTest(ghost fuel: nat, arms: seq<HArm>, i: nat) returns (status: int)
      requires Valid() && Mirrored() && Clear() && i < |arms| && Owns(ArmRefs(arms))
      requires |ViewArms(arms)| == |arms| && RunGuard(leaves, fuel, ViewArms(arms)[i].cond, Abs(), Here()).Ended?
      modifies this, CellSet(ArmRefs(arms))
      ensures Valid() && Mirrored() && Balanced() && StoreGrows() && |old(ViewArms(arms))| == |arms|
      ensures var r := RunGuard(leaves, fuel, old(ViewArms(arms))[i].cond, old(Abs()), old(Here()));
              Abs() == r.st && Shows(status, r.out) &&
              ViewArms(arms) == old(ViewArms(arms))[i := old(ViewArms(arms))[i].(cond := r.tree)]
      decreases fuel, 8, 0
    {
      hide RunGuard, Valid, Mirrored, Abs, View, Refs, ArmRefs, ViewArms, NoDup;
      ArmAt(arms, i);
      ArmApart(arms, i);
      NoDupSplit(Refs(arms[i].cond), Refs(arms[i].body));
      assert allocated(CellSet(ArmRefs(arms))) && allocated(CellSet(Refs(arms[i].body)));
      label L:
      status := DispatchGuard(fuel, arms[i].cond);
      OnlyArm@L(arms, i);
    }

    // The body of an arm.
    method DispatchThen(ghost fuel: nat, arms: seq<HArm>, i: nat) returns (status: int)
      requires Valid() && Mirrored() && Clear() && i < |arms| && Owns(ArmRefs(arms))
      requires |ViewArms(arms)| == |arms| && RunList(leaves, fuel, ViewArms(arms)[i].body, Abs(), Here()).Ended?
      modifies this, CellSet(ArmRefs(arms))
      ensures Valid() && Mirrored() && Balanced() && StoreGrows() && |old(ViewArms(arms))| == |arms|
      ensures var r := RunList(leaves, fuel, old(ViewArms(arms))[i].body, old(Abs()), old(Here()));
              Abs() == r.st && Shows(status, r.out) &&
              ViewArms(arms) == old(ViewArms(arms))[i := old(ViewArms(arms))[i].(body := r.tree)]
      decreases fuel, 8, 0
    {
      hide RunList, Valid, Mirrored, Abs, View, Refs, ArmRefs, ViewArms, NoDup;
      ArmAt(arms, i);
      ArmApart(arms, i);
      NoDupSplit(Refs(arms[i].cond), Refs(arms[i].body));
      assert allocated(CellSet(ArmRefs(arms))) && allocated(CellSet(Refs(arms[i].cond)));
      label L:
      status := DispatchList(fuel, arms[i].body);
      OnlyArm@L(arms, i);
    }

    // src/mid/dispatcher.c:618
    method DispatchIf(ghost fuel: nat, arms: seq<HArm>) returns (status: int)
      requires Valid() && Mirrored() && Clear() && Owns(ArmRefs(arms))
      requires RunArms(leaves, fuel, ViewArms(arms), 0, Abs(), Here()).Ended?
      modifies this, CellSet(ArmRefs(arms))
      ensures Valid() && Mirrored() && Balanced() && StoreGrows()
      ensures var r := RunArms(leaves, fuel, old(ViewArms(arms)), 0, old(Abs()), old(Here()));
              Abs() == r.st && If(ViewArms(arms)) == r.tree && Shows(status, r.out)
      decreases fuel, 8, 1
    {
      hide RunList, RunGuard, Mirrored, Abs, View, Refs, ArmRefs, ViewArms, NoDup;
      assert base <= |locals|;
      hide Valid;
      ArmsSize(arms);
      var i := 0;
      while i < |arms|
        invariant i <= |arms| == |ViewArms(arms)|
        invariant Valid() && Mirrored() && Clear() && Balanced() && StoreGrows() && Owns(ArmRefs(arms))
        invariant RunArms(leaves, fuel, ViewArms(arms), i, Abs(), Here()) ==
                  RunArms(leaves, fuel, old(ViewArms(arms)), 0, old(Abs()), old(Here()))
      {
        ArmAt(arms, i);
        assert allocated(CellSet(ArmRefs(arms)));
        if arms[i].isElse {
          status := DispatchThen(fuel, arms, i);
          return;
        }
        status := DispatchTest(fuel, arms, i);
        if returning { return returnStatus; }
        if shellAbort { return; }
        if status == 0 {
          ArmAt(arms, i);
          status := DispatchThen(fuel, arms, i);
          if returning { return returnStatus; }
          return;
        }
        i := i + 1;
      }
      return 0;
    }

    // The condition of a while, which leaves its body alone.
    method DispatchWhileTest(ghost fuel: nat, test: seq<HItem>, loop: seq<HItem>) returns (status: int)
      requires Valid() && Mirrored() && Clear() && Owns(Refs(test) + Refs(loop))
      requires RunGuard(leaves, fuel, View(test), Abs(), Here()).Ended?
      modifies this, CellSet(Refs(test)), CellSet(Refs(loop))
      ensures Valid() && Mirrored() && Balanced() && StoreGrows() && Owns(Refs(test) + Refs(loop))
      ensures var r := RunGuard(leaves, fuel, old(View(test)), old(Abs()), old(Here()));
              Abs() == r.st && Shows(status, r.out) && View(test) == r.tree && View(loop) == old(View(loop))
      decreases fuel, 8, 0
    {
      hide RunGuard, Valid, Mirrored, Abs, View, Refs, NoDup;
      NoDupSplit(Refs(test), Refs(loop));
      assert allocated(CellSet(Refs(test))) && allocated(CellSet(Refs(loop)));
      status := DispatchGuard(fuel, test);
    }

    // The body of a while, which leaves its condition alone.
    method DispatchWhileBody(ghost fuel: nat, test: seq<HItem>, loop: seq<HItem>) returns (status: int)
      requires Valid() && Mirrored() && Clear() && Owns(Refs(test) + Refs(loop))
      requires RunList(leaves, fuel, View(loop), Abs(), Here()).Ended?
      modifies this, CellSet(Refs(test)), CellSet(Refs(loop))
      ensures Valid() && Mirrored() && Balanced() && StoreGrows() && Owns(Refs(test) + Refs(loop))
      ensures var r := RunList(leaves, fuel, old(View(loop)), old(Abs()), old(Here()));
              Abs() == r.st && Shows(status, r.out) && View(test) == old(View(test)) && View(loop) == r.tree
      decreases fuel, 8, 0
    {
      hide RunList, Valid, Mirrored, Abs, View, Refs, NoDup;
      NoDupSplit(Refs(test), Refs(loop));
      assert allocated(CellSet(Refs(test))) && allocated(CellSet(Refs(loop)));
      status := DispatchList(fuel, loop);
    }

    // src/mid/dispatcher.c:655: condition and body run in place.
    method DispatchWhile(ghost fuel: nat, test: seq<HItem>, loop: seq<HItem>) returns (status: int)
      requires Valid() && Mirrored() && Clear() && Owns(Refs(test) + Refs(loop))
      requires RunWhile(leaves, fuel, View(test), View(loop), 0, Abs(), Here()).Ended?
      modifies this, CellSet(Refs(test)), CellSet(Refs(loop))
      ensures Valid() && Mirrored() && Balanced() && StoreGrows()
      ensures var r := RunWhile(leaves, fuel, old(View(test)), old(View(loop)), 0, old(Abs()), old(Here()));
              Abs() == r.st && While(View(test), View(loop)) == r.tree && Shows(status, r.out)
      decreases fuel, 8, 1
    {
      hide RunList, RunGuard, Mirrored, Abs, View, Refs, Owns, Visible;
      assert base <= |locals|;
      hide Valid;
      status := 0;
      ghost var f: nat := fuel;
      while true
        invariant Valid() && Mirrored() && Clear() && Balanced() && StoreGrows() &&
                  Owns(Refs(test) + Refs(loop)) && f <= fuel
        invariant RunWhile(leaves, f, View(test), View(loop), status, Abs(), Here()) ==
                  RunWhile(leaves, fuel, old(View(test)), old(View(loop)), 0, old(Abs()), old(Here()))
        decreases f
      {
        var st := DispatchWhileTest(f, test, loop);
        if returning { status := returnStatus; return; }
        if shellAbort { status := st; return; }
        if st != 0 { return; }
        status := DispatchWhileBody(f, test, loop);
        if returning { status := returnStatus; return; }
        if shellAbort { return; }
        f := f - 1;
      }
    }

    // src/mid/dispatcher.c:978: every round runs a clone, so each starts from the original words.
    method DispatchFor(ghost fuel: nat, name: string, words: seq<string>, each: seq<HItem>) returns (status: int)
      requires Valid() && Mirrored() && Clear()
      requires RunFor(leaves, fuel, name, words, 0, View(each), 0, Abs(), Here()).Ended?
      modifies this
      ensures Valid() && Mirrored() && Balanced() && StoreGrows() && View(each) == old(View(each))
      ensures var r := RunFor(leaves, fuel, name, words, 0, old(View(each)), 0, old(Abs()), old(Here()));
              Abs() == r.st && Shows(status, r.out)
      decreases fuel, 8
    {
      hide RunList, Table, Distinct, Mirrors, View, Refs, NoDup;
      status := 0;
      var i := 0;
      while i < |words|
        invariant i <= |words|
        invariant Valid() && Mirrored() && Clear() && Balanced() && StoreGrows() && View(each) == old(View(each))
        invariant RunFor(leaves, fuel, name, words, i, View(each), status, Abs(), Here()) ==
                  RunFor(leaves, fuel, name, words, 0, old(View(each)), 0, old(Abs()), old(Here()))
      {
        if !NameOk(name) { return 1; }
        env := env[name := words[i]];
        status := DispatchClone(fuel, each);
        if returning { return returnStatus; }
        if shellAbort { return; }
        i := i + 1;
      }
    }

    // The search of dispatch_case: the first branch with a matching pattern, or the end.
    method FindBranch(text: string, branches: seq<HBranch>) returns (a: nat)
      ensures a <= |branches|
      ensures forall b :: 0 <= b < a ==> !Picked(branches[b].patterns, text)
      ensures a < |branches| ==> Picked(branches[a].patterns, text)
    {
      a := 0;
      while a < |branches|
        invariant a <= |branches|
        invariant forall b :: 0 <= b < a ==> !Picked(branches[b].patterns, text)
      {
        var p := 0;
        while p < |branches[a].patterns|
          invariant p <= |branches[a].patterns|
          invariant forall q :: 0 <= q < p ==> !Matches(branches[a].patterns[q], text)
        {
          var matched := CasePatMatch(branches[a].patterns[p], text);
          if matched {
            assert branches[a].patterns[p] in branches[a].patterns;
            return;
          }
          p := p + 1;
        }
        a := a + 1;
      }
    }

    // The word of a case, and what dispatch_case does when its expansion fails.
    method ExpandWordOrFail(word: string) returns (text: string, bad: bool)
      requires Valid() && Mirrored() && Clear()
      modifies `world, `arithError, `nounsetError, `shellAbort, `log
      ensures Valid() && Mirrored() && Balanced()
      ensures var w := leaves.expandWord(old(Abs()).vis, word);
              bad == (w.arithError || w.nounsetError) && text == w.text &&
              if bad then
                var (s, out) := ExpandFailed(SetWorld(old(Abs()), w.world), w.nounsetError); Abs() == s && Shows(1, out)
              else Abs() == SetWorld(old(Abs()), w.world) && Clear()
    {
      hide Table, Mirrored;
      assert base <= |locals|;
      hide Valid;
      text := ExpandWord(word);
      bad := TakeExpandErrors();
    }

    // The branch that is found runs as a clone.
    method DispatchBranches(ghost fuel: nat, text: string, branches: seq<HBranch>) returns (status: int)
      requires Valid() && Mirrored() && Clear()
      requires RunBranches(leaves, fuel, text, ViewBranches(branches), 0, Abs(), Here()).Ended?
      modifies this
      ensures Valid() && Mirrored() && Balanced() && StoreGrows()
      ensures ViewBranches(branches) == old(ViewBranches(branches))
      ensures var r := RunBranches(leaves, fuel, text, old(ViewBranches(branches)), 0, old(Abs()), old(Here()));
              Abs() == r.st && Shows(status, r.out)
      decreases fuel, 7
    {
      hide RunList, RunBranches, Mirrored, Abs, ViewBranches, ViewBranch, BranchRefs, View, Refs, Picked;
      assert base <= |locals|;
      hide Valid;
      assert allocated(CellSet(BranchRefs(branches)));
      var a := FindBranch(text, branches);
      BranchesAt(branches);
      BranchFound(leaves, fuel, text, ViewBranches(branches), 0, a, Abs(), Here());
      if a == |branches| { return 0; }
      status := DispatchClone(fuel, branches[a].body);
      if returning { return returnStatus; }
    }

    // src/mid/dispatcher.c:1053
    method DispatchCase(ghost fuel: nat, word: string, branches: seq<HBranch>) returns (status: int)
      requires Valid() && Mirrored() && Clear()
      requires RunCase(leaves, fuel, word, ViewBranches(branches), Abs(), Here()).Ended?
      modifies this
      ensures Valid() && Mirrored() && Balanced() && StoreGrows()
      ensures ViewBranches(branches) == old(ViewBranches(branches))
      ensures var r := RunCase(leaves, fuel, word, old(ViewBranches(branches)), old(Abs()), old(Here()));
              Abs() == r.st && Shows(status, r.out)
      decreases fuel, 9
    {
      hide RunBranches, Mirrored, Abs, Visible, ExpandFailed, ViewBranches, BranchRefs;
      assert base <= |locals|;
      hide Valid;
      assert allocated(CellSet(BranchRefs(branches)));
      var text, bad := ExpandWordOrFail(word);
      if bad { return 1; }
      status := DispatchBranches(fuel, text, branches);
    }

    // src/mid/dispatcher.c:233
    method MaybeErrexit(list: seq<HItem>, i: nat, status: int)
      requires Valid() && i < |list|
      modifies this`shellAbort, this`log
      ensures old(shellAbort) ==> shellAbort && log == old(log)
      ensures old(Clear()) ==>
                var (s, out) := Finish(old(Abs()), status, Here(), Followed(View(list), i));
                Abs() == s && Shows(status, out)
    {
      hide Table, Distinct, Mirrored, View;
      ViewSize(list);
      if i + 1 < |list| {
        ViewAt(list, i + 1);
      }
      if !shellAbort {
        log := log + [Finished(status, optE, noErrexit > 0, Followed(View(list), i))];
      }
      if status == 0 { return; }
      if !optE { return; }
      if noErrexit > 0 { return; }
      if i + 1 < |list| && (list[i + 1].cond.And? || list[i + 1].cond.Or?) { return; }
      if !shellAbort {
        log := log + [Aborted(Errexit)];
      }
      shellAbort := true;
    }

    // src/mid/dispatcher.c:1820
    method DispatchDBracket(tokens: seq<string>, marks: seq<int>) returns (status: int)
      requires Valid() && Clear()
      modifies `log, `world, `arithError, `nounsetError, `shellAbort
      ensures Valid() && Balanced()
      ensures var (s, out) := RunTest(leaves, tokens, marks, old(Abs())); Abs() == s && Shows(status, out)
    {
      hide Table;
      assert base <= |locals|;
      hide Valid;
      log := log + [Leaf([])];
      var t := leaves.test(Visible(), tokens, marks);
      world, nounsetError := t.world, t.nounsetError;
      var bad := TakeExpandErrors();
      status := if bad then 1 else t.status;
    }

    // src/mid/dispatcher.c:462
    method DispatchFnDef(name: string, body: Body) returns (status: int)
      requires Valid() && Mirrored() && Clear()
      modifies `fns, `bodies, `store, `log
      ensures Valid() && Mirrored() && Balanced() && StoreGrows() && View(body) == old(View(body))
      ensures var (s, out) := Define(name, old(View(body)), old(Abs())); Abs() == s && Shows(status, out)
    {
      hide Table, Distinct, Mirrored, View, Refs;
      assert allocated(CellSet(Refs(body)));
      ghost var said := View(body);
      var ok := FnSet(name, body);
      if !ok { return 1; }
      log := log + [Defined(name, said)];
      return 0;
    }

    // src/mid/dispatcher.c:562: the copy that runs in the child is not part of this shell.
    method DispatchBackground(cells: seq<CmdCell>) returns (status: int)
      requires Valid() && Clear()
      modifies `log, `world
      ensures Valid() && Balanced()
      ensures var (s, out) := RunBackground(leaves, ViewCmds(cells), old(Abs())); Abs() == s && Shows(status, out)
    {
      hide Table, Mirrors, ViewCmds;
      assert base <= |locals|;
      hide Valid;
      log := log + [Leaf(ViewCmds(cells))];
      var p := leaves.background(Visible(), ViewCmds(cells));
      status, world := p.status, p.world;
    }

    // The item at hand, whatever its kind.
    method DispatchItem(ghost fuel: nat, item: HItem) returns (status: int)
      requires Valid() && Mirrored() && Clear() && Owns(ItemRefs(item))
      requires RunKind(leaves, fuel, ViewItem(item), Abs(), Here()).Ended?
      modifies this, CellSet(ItemRefs(item))
      ensures Valid() && Mirrored() && Balanced() && StoreGrows()
      ensures var r := RunKind(leaves, fuel, old(ViewItem(item)), old(Abs()), old(Here()));
              Abs() == r.st && ViewItem(item) == old(ViewItem(item)).(kind := r.tree) && Shows(status, r.out)
      decreases fuel, 3, 0
    {
      hide RunArms, RunWhile, RunFor, RunCase, RunPipeline, RunTest, RunBackground, Define, Valid, Mirrored, Abs;
      hide View, Refs, ViewArms, ArmRefs, ViewBranches, BranchRefs, NoDup;
      assert allocated(CellSet(ItemRefs(item)));
      match item.kind {
        case HIf(arms) => status := DispatchIf(fuel - 1, arms);
        case HWhile(test, loop) =>
          status := DispatchWhile(fuel - 1, test, loop);
        case HFor(name, words, each) => status := DispatchFor(fuel - 1, name, words, each);
        case HCase(word, branches) => status := DispatchCase(fuel - 1, word, branches);
        case HDBracket(tokens, marks) => status := DispatchDBracket(tokens, marks);
        case HFn(name, body) => status := DispatchFnDef(name, body);
        case HPipeline(cells) =>
          if item.background {
            status := DispatchBackground(cells);
          } else {
            status := DispatchPipeline(fuel, cells);
          }
      }
    }

    // The item at i of a list.
    method DispatchAt(ghost fuel: nat, list: seq<HItem>, i: nat) returns (status: int)
      requires Valid() && Mirrored() && Clear() && i < |list| && Owns(Refs(list))
      requires |View(list)| == |list| && RunAt(leaves, fuel, View(list), i, Abs(), Here()).Ended?
      modifies this, CellSet(Refs(list))
      ensures Valid() && Mirrored() && Balanced() && StoreGrows() && |old(View(list))| == |list|
      ensures var r := RunAt(leaves, fuel, old(View(list)), i, old(Abs()), old(Here()));
              Abs() == r.st && Shows(status, r.out) &&
              View(list) == old(View(list))[i := old(View(list))[i].(kind := r.tree)]
      decreases fuel, 3, 1
    {
      hide RunKind, Table, Mirrored, View, ViewItem, Refs, ItemRefs, NoDup;
      assert base <= |locals|;
      hide Valid;
      ViewAt(list, i);
      ItemApart(list, i);
      assert allocated(CellSet(Refs(list)));
      ghost var followed := Followed(View(list), i);
      ghost var now := Here();
      assert Within(now, LeftOperand) == now;
      label L:
      if followed { log := log + [Begin(LeftOperand)]; }
      status := DispatchItem(fuel, list[i]);
      OnlyItem@L(list, i);
      if followed { log := log + [End(LeftOperand)]; }
    }

    // The body of dispatch_list's loop for an item that is not skipped.
    method DispatchOne(ghost fuel: nat, list: seq<HItem>, i: nat) returns (status: int)
      requires Valid() && Mirrored() && Clear() && i < |list| && Owns(Refs(list))
      requires |View(list)| == |list| && RunOne(leaves, fuel, View(list), i, Abs(), Here()).Ended?
      modifies this, CellSet(Refs(list))
      ensures Valid() && Mirrored() && Balanced() && StoreGrows()
      ensures |old(View(list))| == |list|
      ensures var r := RunOne(leaves, fuel, old(View(list)), i, old(Abs()), old(Here()));
              Abs() == r.st && View(list) == r.tree && Shows(status, r.out)
      decreases fuel, 4
    {
      hide RunAt, Abs, Visible, Mirrored, Finish, View, Refs, NoDup;
      assert base <= |locals|;
      hide Valid;
      ghost var r := RunAt(leaves, fuel, View(list), i, Abs(), Here());
      status := DispatchAt(fuel, list, i);
      status := FinishItem(list, i, status, r.out);
    }

    // The end of an item: $? is set, then errexit has its say.
    method FinishItem(list: seq<HItem>, i: nat, status: int, ghost out: Outcome) returns (rc: int)
      requires Valid() && Mirrored() && i < |list| && Shows(status, out)
      modifies `last, `shellAbort, `log
      ensures Valid() && Mirrored() && Balanced() && View(list) == old(View(list))
      ensures var s := old(Abs()).(vis := old(Abs()).vis.(last := StatusOf(out)));
              var (s1, out1) :=
                if out.Normal? then Finish(s, out.status, Here(), Followed(View(list), i)) else (s, out);
              Abs() == s1 && Shows(rc, out1)
    {
      hide Table, Mirrored, Finish, View, Refs;
      assert base <= |locals|;
      hide Valid;
      assert allocated(CellSet(Refs(list)));
      last := status;
      if returning { return returnStatus; }
      MaybeErrexit(list, i, status);
      return status;
    }

    // src/mid/dispatcher.c:1238
    method DispatchList(ghost fuel: nat, list: seq<HItem>) returns (status: int)
      requires Valid() && Mirrored() && Clear() && Owns(Refs(list))
      requires RunList(leaves, fuel, View(list), Abs(), Here()).Ended?
      modifies this, CellSet(Refs(list))
      ensures Valid() && Mirrored() && Balanced() && StoreGrows()
      ensures var r := RunList(leaves, fuel, old(View(list)), old(Abs()), old(Here()));
              Abs() == r.st && View(list) == r.tree && Shows(status, r.out)
      decreases fuel, 6, 0
    {
      hide RunOne, Table, Distinct, Mirrored, Abs, View, Refs, NoDup;
      assert base <= |locals|;
      hide Valid;
      status := 0;
      var i := 0;
      ViewSize(list);
      while i < |list|
        invariant i <= |list| == |View(list)|
        invariant Valid() && Mirrored() && Clear() && Balanced() && StoreGrows() && Owns(Refs(list))
        invariant RunItems(leaves, fuel, View(list), i, status, Abs(), Here()) ==
                  RunList(leaves, fuel, old(View(list)), old(Abs()), old(Here()))
      {
        ViewAt(list, i);
        if i > 0 {
          if list[i].cond.And? && status != 0 {
            i := i + 1;
            continue;
          }
          if list[i].cond.Or? && status == 0 {
            i := i + 1;
            continue;
          }
        }
        assert allocated(CellSet(Refs(list)));
        OneKeepsLength(leaves, fuel, View(list), i, Abs(), Here());
        status := DispatchOne(fuel, list, i);
        if returning { return returnStatus; }
        if shellAbort { break; }
        i := i + 1;
      }
    }
  }

  lemma StageStep(o: Leaves, v: Vis, cmds: seq<Cmd>, i: nat, arith: bool, nounset: bool)
    requires i < |cmds|
    ensures var e := o.expand(v, cmds[i]);
            ExpandStages(o, v, cmds, i, arith, nounset) ==
            ExpandStages(o, v.(world := e.world), cmds[i := e.cmd], i + 1,
                         arith || e.arithError, nounset || e.nounsetError)
  {
  }

  lemma StagesDone(o: Leaves, v: Vis, cmds: seq<Cmd>, arith: bool, nounset: bool)
    ensures ExpandStages(o, v, cmds, |cmds|, arith, nounset) == (v, cmds, arith, nounset)
  {
  }

  lemma {:induction false} BranchesAt(branches: seq<HBranch>)
    ensures |ViewBranches(branches)| == |branches|
    ensures forall k :: 0 <= k < |branches| ==>
              ViewBranches(branches)[k] == Branch(branches[k].patterns, View(branches[k].body))
  {
    BranchesSize(branches);
    forall k | 0 <= k < |branches|
      ensures ViewBranches(branches)[k] == Branch(branches[k].patterns, View(branches[k].body))
    {
      BranchAt(branches, k);
    }
  }

  // What the first branch with a matching pattern makes of a case.
  lemma {:induction false} BranchFound(o: Leaves, fuel: nat, text: string, branches: seq<Branch>, b: nat, a: nat,
                                       st: State, c: Ctx)
    requires b <= a <= |branches|
    requires forall k :: b <= k < a ==> !Picked(branches[k].patterns, text)
    requires a < |branches| ==> Picked(branches[a].patterns, text)
    ensures RunBranches(o, fuel, text, branches, b, st, c) ==
            if a == |branches| then Ended(st, Normal(0), ())
            else
              (match RunList(o, fuel, branches[a].body, st, c)
               case Diverged => Diverged
               case Ended(s, out, _) => Ended(s, out, ()))
    decreases a - b
  {
    hide RunList;
    if b < a {
      BranchFound(o, fuel, text, branches, b + 1, a, st, c);
    }
  }

  lemma {:induction false} EmptyTable(slots: seq<Slot<seq<Item>>>)
    requires forall i :: 0 <= i < |slots| ==> slots[i].Free?
    ensures Table(slots) == map[]
    decreases |slots|
  {
    if slots != [] {
      EmptyTable(slots[..|slots| - 1]);
    }
  }
}
