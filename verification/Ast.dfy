// The syntax tree of include/petrush/parser.h. C arrays with a count are sequences,
// a pointer that may be NULL is an Option, 0/1 marks are booleans.
module Ast {
  import opened CStrings

  // One stage: arguments with their quote marks (0 bare, 1 single, 2 double) and redirections.
  datatype Cmd = Cmd(
    argv: seq<string>,
    quoted: seq<int>,
    redirIn: Option<string>,
    redirOut: Option<string>,
    redirAppend: bool,
    redirErr: Option<string>,
    redirErrAppend: bool,
    redirErrToOut: bool,
    hereDelim: Option<string>,
    hereBody: Option<string>,
    hereQuoted: bool,
    hereStrip: bool,
    hereSkips: seq<string>,
    hereFeed: nat)

  const EMPTY_CMD: Cmd :=
    Cmd([], [], None, None, false, None, false, false, None, None, false, false, [], 0)

  datatype RunCond = Always | And | Or

  datatype Item = Item(kind: Kind, cond: RunCond, background: bool)

  datatype Kind =
    | Pipeline(cmds: seq<Cmd>)
    | If(arms: seq<Arm>)
    | While(test: seq<Item>, loop: seq<Item>)
    | For(name: string, words: seq<string>, each: seq<Item>)
    | Fn(fname: string, fbody: seq<Item>)
    | Case(word: string, branches: seq<Branch>)
    | DBracket(tokens: seq<string>, marks: seq<int>)

  // An arm of if/elif, or the else arm (no condition).
  datatype Arm = Arm(cond: seq<Item>, body: seq<Item>, isElse: bool)

  datatype Branch = Branch(patterns: seq<string>, body: seq<Item>)
}
