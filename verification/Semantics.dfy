// What running a list means, told with outcomes instead of flags: a list ends normally with a
// status, is unwound by `return`, or is aborted. Nothing here is global: the call depth and the
// errexit exemption are arguments, each call has its own frame of saved variables.
//
// Commands other than the control builtins are arbitrary functions (Leaves), so every law proved
// about a run holds for whatever commands, expansions and file systems do.
module Semantics {
  import opened CStrings
  import opened Ast
  import opened Glob
  import opened Int64

  const FN_MAX := 64
  const LOCAL_MAX := 256

  // The outside world (files, processes, terminal); only leaves look inside.
  type World = int

  // The part of the shell's state that commands and expansions can see.
  datatype Vis = Vis(
    env: map<string, string>,
    arg0: string,
    args: seq<string>,
    optE: bool,
    optU: bool,
    optX: bool,
    last: int,
    world: World)

  datatype Effect = Effect(status: int, vis: Vis, abort: bool)
  datatype Expanded = Expanded(cmd: Cmd, world: World, arithError: bool, nounsetError: bool)
  datatype ExpandedWord = ExpandedWord(text: string, world: World, arithError: bool, nounsetError: bool)
  datatype Plain = PlainEffect(status: int, world: World)
  datatype Tested = Tested(status: int, world: World, nounsetError: bool)
  datatype Opened = Opened(ok: bool, world: World)

  // The leaf behaviours: expansion, `[[ ]]`, redirections of builtins, background items,
  // pipelines of two or more stages, and every command that is not modelled here.
  datatype Leaves = Leaves(
    expand: (Vis, Cmd) -> Expanded,
    expandWord: (Vis, string) -> ExpandedWord,
    test: (Vis, seq<string>, seq<int>) -> Tested,
    redirect: (Vis, Cmd) -> Opened,
    background: (Vis, seq<Cmd>) -> Plain,
    pipe: (Vis, seq<Cmd>) -> Plain,
    command: (Vis, Cmd) -> Effect)

  // A value saved by `local`: for the call at which depth, and what the variable held before.
  datatype Save = Save(depth: nat, name: string, was: Option<string>)

  datatype Cause = Nounset | SpecialBuiltin | Errexit

  // The condition of an if, elif or while; an item on the left of && or ||.
  datatype Scope = Condition | LeftOperand

  datatype Event =
    | Leaf(cmds: seq<Cmd>)                          // a leaf command ran
    | Returned(depth: nat, code: int)               // `return` took effect in the call at this depth
    | Aborted(cause: Cause)                         // the script was told to stop
    | MadeLocal(save: Save)                         // `local` saved a variable
    | Defined(name: string, body: seq<Item>)        // a function was stored
    | Finished(status: int, errexit: bool, exempt: bool, followed: bool)  // a list item ended
    | Begin(scope: Scope)                           // a condition or left operand begins
    | End(scope: Scope)                             // it has ended, normally or not

  datatype State = State(
    vis: Vis,
    fns: map<string, seq<Item>>,
    frame: seq<Save>,       // saved by the current call, oldest first
    outer: nat,             // how many values the enclosing calls have saved
    log: seq<Event>)

  // Whether errexit is off, and the call depth. `deep` is a rule the program does not have: all that
  // runs inside a left operand is exempt, as the standard says. It is off in every context of the code.
  datatype Ctx = Ctx(exempt: bool, depth: nat, deep: bool := false)

  // The context inside a condition or a left operand.
  function Within(c: Ctx, scope: Scope): Ctx {
    c.(exempt := c.exempt || scope.Condition? || c.deep)
  }

  datatype Outcome = Normal(status: int) | Return(code: int) | Abort(failure: int)

  // A run over a tree of type T: the state, how it ended, and the tree as expansion left it.
  // Diverged: it does not end with this fuel, or C leaves undefined what it does.
  datatype Run<+T> = Diverged | Ended(st: State, out: Outcome, tree: T)

  function StatusOf(out: Outcome): int {
    match out
    case Normal(v) => v
    case Return(n) => n
    case Abort(v) => v
  }

  function Log(st: State, e: Event): State {
    st.(log := st.log + [e])
  }

  function SetWorld(st: State, w: World): State {
    st.(vis := st.vis.(world := w))
  }

  // ---- environment and numbers ----

  // setenv and unsetenv refuse an empty name and a name with '='.
  predicate NameOk(name: string) {
    name != [] && '=' !in name
  }

  function Lookup(env: map<string, string>, name: string): Option<string> {
    if name in env then Some(env[name]) else None
  }

  function Assign(env: map<string, string>, name: string, v: Option<string>): map<string, string> {
    if v.Some? then env[name := v.value] else env - {name}
  }

  // Undo a frame, newest value first.
  function Restore(env: map<string, string>, frame: seq<Save>): map<string, string>
    decreases |frame|
  {
    if frame == [] then env
    else
      var s := frame[|frame| - 1];
      Restore(Assign(env, s.name, s.was), frame[..|frame| - 1])
  }

  const INT_MAX: int := 0x7FFF_FFFF
  const UINT_MAX: int := 0xFFFF_FFFF

  // ---- builtins that touch the control state ----

  // The value of (int)n for an unsigned n.
  function AsInt(n: int): int {
    if n > INT_MAX then n - UINT_MAX - 1 else n
  }

  // src/mid/expand.c:201-223 refuses a count by (int)n > count of positionals and then moves memory.
  // The test is right exactly up to INT_MAX: every count above it, 3000000000 for one, passes.
  lemma ShiftGuard(n: int, positionals: int)
    requires 0 <= n <= UINT_MAX && 0 <= positionals <= INT_MAX
    ensures (AsInt(n) <= positionals <==> n <= positionals) <==> n <= INT_MAX
    ensures n > INT_MAX ==> AsInt(n) <= positionals < n
    ensures INT_MAX < 3000000000 <= UINT_MAX
  {
  }

  // shift with a count that passes the test although there are not so many positionals.
  predicate WildShift(argv: seq<string>) {
    |argv| == 2 && argv[0] == "shift" && ReadLong(argv[1]).Some? && INT_MAX < ReadLong(argv[1]).value <= UINT_MAX
  }

  // Such a shift is reached, its redirections in place: C leaves undefined what happens.
  predicate Undefined(o: Leaves, cmd: Cmd, st: State) {
    WildShift(cmd.argv) && (NeedsRedir(cmd) ==> o.redirect(st.vis, cmd).ok)
  }

  // shift [n]
  function Shift(v: Vis, argv: seq<string>): (int, Vis) {
    if |argv| > 2 then (1, v)
    else
      var n := if |argv| == 2 then ReadLong(argv[1]) else Some(1);
      if n.None? || n.value < 0 || n.value > UINT_MAX || n.value > |v.args| then (1, v)
      else (0, v.(args := v.args[n.value..]))
  }

  // One letter of `set -abc`: None when the option is refused.
  function SetLetter(v: Vis, letter: char, on: bool): Option<Vis> {
    if letter == 'x' then Some(v.(optX := on))
    else if letter == 'u' then Some(v.(optU := on))
    else if letter == 'e' then Some(v.(optE := on))
    else if letter == 'C' && on then Some(v)
    else None
  }

  function SetOName(v: Vis, name: string, on: bool): Option<Vis> {
    if name == "xtrace" then Some(v.(optX := on))
    else if name == "nounset" then Some(v.(optU := on))
    else if name == "errexit" then Some(v.(optE := on))
    else if name == "noclobber" && on then Some(v)
    else None
  }

  // Letters take effect one by one, up to the first refused one.
  function SetLetters(v: Vis, letters: string, on: bool): (Vis, bool)
    decreases |letters|
  {
    if letters == [] then (v, true)
    else
      var r := SetLetter(v, letters[0], on);
      if r.None? then (v, false) else SetLetters(r.value, letters[1..], on)
  }

  // set, from argument i on: an error aborts the script.
  function SetFrom(v: Vis, argv: seq<string>, i: nat): Effect
    requires i <= |argv|
    decreases |argv| - i
  {
    if i == |argv| then Effect(0, v, false)
    else
      var arg := argv[i];
      if arg == "--" then Effect(0, v.(args := argv[i + 1..]), false)
      else if |arg| >= 2 && (arg[0] == '-' || arg[0] == '+') then
        var on := arg[0] == '-';
        if arg[1..] == "o" then
          if i + 1 >= |argv| then Effect(1, v, true)
          else
            var r := SetOName(v, argv[i + 1], on);
            if r.None? then Effect(1, v, true) else SetFrom(r.value, argv, i + 2)
        else
          var (v1, ok) := SetLetters(v, arg[1..], on);
          if !ok then Effect(1, v1, true) else SetFrom(v1, argv, i + 1)
      else Effect(0, v.(args := argv[i..]), false)
  }

  // return [n]: None when it is refused.
  function ReturnCode(argv: seq<string>, depth: nat): Option<int> {
    if depth == 0 || |argv| > 2 then None
    else if |argv| == 2 then
      var n := ReadLong(argv[1]);
      if n.None? then None else Some(n.value % 256)
    else Some(0)
  }

  // local, from argument i on.
  function LocalFrom(st: State, argv: seq<string>, i: nat, ret: int, depth: nat): (State, int)
    requires i <= |argv|
    decreases |argv| - i
  {
    if i == |argv| then (st, ret)
    else
      var arg := argv[i];
      if arg == [] then LocalFrom(st, argv, i + 1, 1, depth)
      else if arg[0] == '-' then (st, 1)
      else
        var k := IndexOf(arg, '=');
        if k < |arg| && (k == 0 || k >= 256) then LocalFrom(st, argv, i + 1, 1, depth)
        else if st.outer + |st.frame| >= LOCAL_MAX then (st, 1)
        else
          var v := if k < |arg| then Some(arg[k + 1..]) else None;
          LocalFrom(MakeLocal(st, arg[..k], v, depth), argv, i + 1, ret, depth)
  }

  function MakeLocal(st: State, name: string, v: Option<string>, depth: nat): State {
    var s := Save(depth, name, Lookup(st.vis.env, name));
    Log(st, MadeLocal(s)).(
      frame := st.frame + [s],
      vis := st.vis.(env := Assign(st.vis.env, name, v)))
  }

  predicate NeedsRedir(cmd: Cmd) {
    cmd.redirIn.Some? || cmd.hereBody.Some? || cmd.hereDelim.Some? ||
    cmd.redirOut.Some? || cmd.redirErr.Some? || cmd.redirErrToOut
  }

  predicate Concrete(name: string) {
    name in ["true", ":", "false", "shift", "set", "return", "local"]
  }

  // A builtin of this model, redirections already in place.
  function RunBuiltin(cmd: Cmd, st: State, c: Ctx): (State, Outcome)
    requires cmd.argv != []
  {
    var name := cmd.argv[0];
    if name == "true" || name == ":" then (st, Normal(0))
    else if name == "false" then (st, Normal(1))
    else if name == "shift" then
      var (r, v) := Shift(st.vis, cmd.argv);
      (st.(vis := v), Normal(r))
    else if name == "set" then
      var e := SetFrom(st.vis, cmd.argv, 1);
      if e.abort then (Log(st.(vis := e.vis), Aborted(SpecialBuiltin)), Abort(e.status))
      else (st.(vis := e.vis), Normal(e.status))
    else if name == "return" then
      var n := ReturnCode(cmd.argv, c.depth);
      if n.None? then (st, Normal(1)) else (Log(st, Returned(c.depth, n.value)), Return(n.value))
    else if c.depth == 0 || |cmd.argv| < 2 then (st, Normal(1))
    else
      var (s1, r) := LocalFrom(st, cmd.argv, 1, 0, c.depth);
      (s1, Normal(r))
  }

  // A builtin of this model with its redirections.
  function RunRedirected(o: Leaves, cmd: Cmd, st: State, c: Ctx): (State, Outcome)
    requires cmd.argv != []
  {
    var p := if NeedsRedir(cmd) then o.redirect(st.vis, cmd) else Opened(true, st.vis.world);
    var s := SetWorld(st, p.world);
    if !p.ok then (s, Normal(1)) else RunBuiltin(cmd, s, c)
  }

  // The effect of a leaf command on the state.
  function Take(st: State, e: Effect): (State, Outcome) {
    var s := st.(vis := e.vis);
    if e.abort then (Log(s, Aborted(SpecialBuiltin)), Abort(e.status)) else (s, Normal(e.status))
  }

  // A command that is not a function: a builtin of this model, or a leaf.
  function RunLeaf(o: Leaves, cmd: Cmd, st: State, c: Ctx): (State, Outcome) {
    var s0 := Log(st, Leaf([cmd]));
    if cmd.argv != [] && Concrete(cmd.argv[0]) then RunRedirected(o, cmd, s0, c)
    else Take(s0, o.command(s0.vis, cmd))
  }

  // After expansion: a nounset error aborts, an arithmetic error only fails the command.
  function ExpandFailed(st: State, nounset: bool): (State, Outcome) {
    if nounset then (Log(st, Aborted(Nounset)), Abort(1)) else (st, Normal(1))
  }

  // Expand the stages of a pipeline from stage i on; the error marks accumulate.
  function ExpandStages(o: Leaves, v: Vis, cmds: seq<Cmd>, i: nat, arith: bool, nounset: bool)
    : (r: (Vis, seq<Cmd>, bool, bool))
    requires i <= |cmds|
    ensures |r.1| == |cmds|
    decreases |cmds| - i
  {
    if i == |cmds| then (v, cmds, arith, nounset)
    else
      var e := o.expand(v, cmds[i]);
      ExpandStages(o, v.(world := e.world), cmds[i := e.cmd], i + 1,
                   arith || e.arithError, nounset || e.nounsetError)
  }

  function RunBackground(o: Leaves, cmds: seq<Cmd>, st: State): (State, Outcome) {
    var p := o.background(st.vis, cmds);
    (SetWorld(Log(st, Leaf(cmds)), p.world), Normal(p.status))
  }

  function RunTest(o: Leaves, tokens: seq<string>, marks: seq<int>, st: State): (State, Outcome) {
    var t := o.test(st.vis, tokens, marks);
    var s := SetWorld(Log(st, Leaf([])), t.world);
    if t.nounsetError then (Log(s, Aborted(Nounset)), Abort(1)) else (s, Normal(t.status))
  }

  // A definition fails on an empty name, or when all slots are taken by other functions.
  function Define(name: string, body: seq<Item>, st: State): (State, Outcome) {
    if name == [] || (name !in st.fns && |st.fns| >= FN_MAX) then (st, Normal(1))
    else (Log(st, Defined(name, body)).(fns := st.fns[name := body]), Normal(0))
  }

  // ---- runs ----

  predicate Skipped(item: Item, i: nat, status: int) {
    i > 0 && ((item.cond.And? && status != 0) || (item.cond.Or? && status == 0))
  }

  // The item is on the left of `&&` or `||`.
  predicate Followed(items: seq<Item>, i: nat) {
    i + 1 < |items| && !items[i + 1].cond.Always?
  }

  predicate Fatal(e: Event) {
    e.Finished? && e.status != 0 && e.errexit && !e.exempt && !e.followed
  }

  // An item ended normally: errexit may stop the script here.
  function Finish(st: State, status: int, c: Ctx, followed: bool): (State, Outcome) {
    var e := Finished(status, st.vis.optE, c.exempt, followed);
    if Fatal(e) then (Log(Log(st, e), Aborted(Errexit)), Abort(status)) else (Log(st, e), Normal(status))
  }

  // The item at i, marked in the trace when it is a left operand.
  ghost function RunAt(o: Leaves, fuel: nat, items: seq<Item>, i: nat, st: State, c: Ctx): Run<Kind>
    requires i < |items|
    decreases fuel, 4, 0
  {
    if !Followed(items, i) then RunKind(o, fuel, items[i], st, c)
    else
      match RunKind(o, fuel, items[i], Log(st, Begin(LeftOperand)), Within(c, LeftOperand))
      case Diverged => Diverged
      case Ended(s, out, kind) => Ended(Log(s, End(LeftOperand)), out, kind)
  }

  // The item at i runs: $? is set, then errexit has its say.
  ghost function RunOne(o: Leaves, fuel: nat, items: seq<Item>, i: nat, st: State, c: Ctx): Run<seq<Item>>
    requires i < |items|
    decreases fuel, 4, 1
  {
    match RunAt(o, fuel, items, i, st, c)
    case Diverged => Diverged
    case Ended(s, out, kind) =>
      var done := items[i := items[i].(kind := kind)];
      var s1 := s.(vis := s.vis.(last := StatusOf(out)));
      if !out.Normal? then Ended(s1, out, done)
      else
        var (s2, out2) := Finish(s1, out.status, c, Followed(items, i));
        Ended(s2, out2, done)
  }

  lemma OneKeepsLength(o: Leaves, fuel: nat, items: seq<Item>, i: nat, st: State, c: Ctx)
    requires i < |items|
    ensures var r := RunOne(o, fuel, items, i, st, c); r.Ended? ==> |r.tree| == |items|
  {
  }

  ghost function RunItems(o: Leaves, fuel: nat, items: seq<Item>, i: nat, status: int, st: State, c: Ctx)
    : Run<seq<Item>>
    requires i <= |items|
    decreases fuel, 5, |items| - i
  {
    if i == |items| then Ended(st, Normal(status), items)
    else if Skipped(items[i], i, status) then RunItems(o, fuel, items, i + 1, status, st, c)
    else
      match RunOne(o, fuel, items, i, st, c)
      case Diverged => Diverged
      case Ended(s, out, done) =>
        if !out.Normal? then Ended(s, out, done)
        else RunItems(o, fuel, done, i + 1, out.status, s, c)
  }

  ghost function RunList(o: Leaves, fuel: nat, items: seq<Item>, st: State, c: Ctx): Run<seq<Item>>
    decreases fuel, 6
  {
    RunItems(o, fuel, items, 0, 0, st, c)
  }

  ghost function RunKind(o: Leaves, fuel: nat, item: Item, st: State, c: Ctx): Run<Kind>
    decreases fuel, 3
  {
    match item.kind
    case Pipeline(cmds) =>
      if item.background then
        var (s, out) := RunBackground(o, cmds, st);
        Ended(s, out, item.kind)
      else RunPipeline(o, fuel, cmds, st, c)
    case DBracket(tokens, marks) =>
      var (s, out) := RunTest(o, tokens, marks, st);
      Ended(s, out, item.kind)
    case Fn(name, body) =>
      var (s, out) := Define(name, body, st);
      Ended(s, out, item.kind)
    case If(arms) =>
      if fuel == 0 then Diverged else RunArms(o, fuel - 1, arms, 0, st, c)
    case While(test, loop) =>
      if fuel == 0 then Diverged else RunWhile(o, fuel - 1, test, loop, 0, st, c)
    case For(name, words, each) =>
      if fuel == 0 then Diverged
      else
        (match RunFor(o, fuel - 1, name, words, 0, each, 0, st, c)
         case Diverged => Diverged
         case Ended(s, out, _) => Ended(s, out, item.kind))
    case Case(word, branches) =>
      if fuel == 0 then Diverged
      else
        match RunCase(o, fuel - 1, word, branches, st, c)
        case Diverged => Diverged
        case Ended(s, out, _) => Ended(s, out, item.kind)
  }

  // A condition: exempt from errexit, whatever it calls.
  ghost function RunGuard(o: Leaves, fuel: nat, items: seq<Item>, st: State, c: Ctx): Run<seq<Item>>
    decreases fuel, 7
  {
    match RunList(o, fuel, items, Log(st, Begin(Condition)), Within(c, Condition))
    case Diverged => Diverged
    case Ended(s, out, done) => Ended(Log(s, End(Condition)), out, done)
  }

  // if/elif/else from arm a on.
  ghost function RunArms(o: Leaves, fuel: nat, arms: seq<Arm>, a: nat, st: State, c: Ctx): Run<Kind>
    requires a <= |arms|
    decreases fuel, 8, |arms| - a
  {
    if a == |arms| then Ended(st, Normal(0), If(arms))
    else if arms[a].isElse then
      match RunList(o, fuel, arms[a].body, st, c)
      case Diverged => Diverged
      case Ended(s, out, body) => Ended(s, out, If(arms[a := arms[a].(body := body)]))
    else
      match RunGuard(o, fuel, arms[a].cond, st, c)
      case Diverged => Diverged
      case Ended(s, out, cond) =>
        var arms1 := arms[a := arms[a].(cond := cond)];
        if !out.Normal? then Ended(s, out, If(arms1))
        else if out.status != 0 then RunArms(o, fuel, arms1, a + 1, s, c)
        else
          match RunList(o, fuel, arms[a].body, s, c)
          case Diverged => Diverged
          case Ended(s1, out1, body) => Ended(s1, out1, If(arms1[a := arms1[a].(body := body)]))
  }

  // while: condition and body run in place, so the words stay as the first pass expanded them.
  ghost function RunWhile(o: Leaves, fuel: nat, test: seq<Item>, loop: seq<Item>, status: int, st: State, c: Ctx)
    : Run<Kind>
    decreases fuel, 8
  {
    match RunGuard(o, fuel, test, st, c)
    case Diverged => Diverged
    case Ended(s, out, test1) =>
      if !out.Normal? then Ended(s, out, While(test1, loop))
      else if out.status != 0 then Ended(s, Normal(status), While(test1, loop))
      else
        match RunList(o, fuel, loop, s, c)
        case Diverged => Diverged
        case Ended(s1, out1, loop1) =>
          if !out1.Normal? then Ended(s1, out1, While(test1, loop1))
          else if fuel == 0 then Diverged
          else RunWhile(o, fuel - 1, test1, loop1, out1.status, s1, c)
  }

  // for, from word w on: every iteration starts from the original body.
  ghost function RunFor(o: Leaves, fuel: nat, name: string, words: seq<string>, w: nat, each: seq<Item>,
                        status: int, st: State, c: Ctx): Run<()>
    requires w <= |words|
    decreases fuel, 7, |words| - w
  {
    if w == |words| then Ended(st, Normal(status), ())
    else if !NameOk(name) then Ended(st, Normal(1), ())
    else
      var s0 := st.(vis := st.vis.(env := st.vis.env[name := words[w]]));
      match RunList(o, fuel, each, s0, c)
      case Diverged => Diverged
      case Ended(s, out, _) =>
        if !out.Normal? then Ended(s, out, ())
        else RunFor(o, fuel, name, words, w + 1, each, out.status, s, c)
  }

  // case: the word is expanded once.
  ghost function RunCase(o: Leaves, fuel: nat, word: string, branches: seq<Branch>, st: State, c: Ctx): Run<()>
    decreases fuel, 9
  {
    var w := o.expandWord(st.vis, word);
    var s := SetWorld(st, w.world);
    if w.arithError || w.nounsetError then
      var (s1, out) := ExpandFailed(s, w.nounsetError);
      Ended(s1, out, ())
    else RunBranches(o, fuel, w.text, branches, 0, s, c)
  }

  ghost predicate Picked(patterns: seq<string>, text: string) {
    exists p :: p in patterns && Matches(p, text)
  }

  // The first branch with a matching pattern runs, on a copy of its body.
  ghost function RunBranches(o: Leaves, fuel: nat, text: string, branches: seq<Branch>, b: nat, st: State, c: Ctx)
    : Run<()>
    requires b <= |branches|
    decreases fuel, 7, |branches| - b
  {
    if b == |branches| then Ended(st, Normal(0), ())
    else if Picked(branches[b].patterns, text) then
      match RunList(o, fuel, branches[b].body, st, c)
      case Diverged => Diverged
      case Ended(s, out, _) => Ended(s, out, ())
    else RunBranches(o, fuel, text, branches, b + 1, st, c)
  }

  ghost function RunPipeline(o: Leaves, fuel: nat, cmds: seq<Cmd>, st: State, c: Ctx): Run<Kind>
    decreases fuel, 2
  {
    if cmds == [] then Ended(st, Normal(0), Pipeline(cmds))
    else
      var (v, cmds1, arith, nounset) := ExpandStages(o, st.vis, cmds, 0, false, false);
      var s := st.(vis := v);
      if arith || nounset then
        var (s1, out) := ExpandFailed(s, nounset);
        Ended(s1, out, Pipeline(cmds1))
      else if |cmds| == 1 then
        match RunCommand(o, fuel, cmds1[0], s, c)
        case Diverged => Diverged
        case Ended(s1, out, cmd) => Ended(s1, out, Pipeline([cmd]))
      else
        var p := o.pipe(s.vis, cmds1);
        Ended(SetWorld(Log(s, Leaf(cmds1)), p.world), Normal(p.status), Pipeline(cmds1))
  }

  // One command, expanded once more: a function is called, anything else is a leaf.
  ghost function RunCommand(o: Leaves, fuel: nat, cmd: Cmd, st: State, c: Ctx): Run<Cmd>
    decreases fuel, 1
  {
    if cmd.argv == [] then Ended(st, Normal(0), cmd)
    else
      var e := o.expand(st.vis, cmd);
      var s := SetWorld(st, e.world);
      if e.arithError || e.nounsetError then
        var (s1, out) := ExpandFailed(s, e.nounsetError);
        Ended(s1, out, e.cmd)
      else if e.cmd.argv != [] && e.cmd.argv[0] in s.fns then
        if fuel == 0 then Diverged
        else
          match RunCall(o, fuel - 1, e.cmd.argv, s, c)
          case Diverged => Diverged
          case Ended(s1, out, _) => Ended(s1, out, e.cmd)
      else if Undefined(o, e.cmd, s) then Diverged
      else
        var (s1, out) := RunLeaf(o, e.cmd, s, c);
        Ended(s1, out, e.cmd)
  }

  // A call: new positionals and an empty frame around the body, both undone however it ends.
  ghost function RunCall(o: Leaves, fuel: nat, argv: seq<string>, st: State, c: Ctx): Run<()>
    requires argv != [] && argv[0] in st.fns
    decreases fuel, 7
  {
    match RunList(o, fuel, st.fns[argv[0]], Enter(st, argv), c.(depth := c.depth + 1))
    case Diverged => Diverged
    case Ended(s, out, _) => Ended(Leave(st, s), if out.Return? then Normal(out.code) else out, ())
  }

  function Enter(st: State, argv: seq<string>): State
    requires argv != []
  {
    st.(vis := st.vis.(arg0 := argv[0], args := argv[1..]), frame := [], outer := st.outer + |st.frame|)
  }

  function Leave(caller: State, s: State): State {
    s.(vis := s.vis.(arg0 := caller.vis.arg0, args := caller.vis.args, env := Restore(s.vis.env, s.frame)),
       frame := caller.frame, outer := caller.outer)
  }
}
