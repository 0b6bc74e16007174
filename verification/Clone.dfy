// clone_list on the heap. The command structs of a list are objects that expansion overwrites in
// place; the rest of the tree does not change once parsed. A clone has the same contents and none
// of the same objects, so running clones leaves the stored tree word for word as it was.
module Clone {
  import opened Ast

  // A petrush_cmd_t at some address.
  class CmdCell {
    var cmd: Cmd

    constructor (c: Cmd)
      ensures cmd == c
    {
      cmd := c;
    }
  }

  // The tree of the Ast module with addresses of commands in place of commands.
  datatype HItem = HItem(kind: HKind, cond: RunCond, background: bool)

  datatype HKind =
    | HPipeline(cmds: seq<CmdCell>)
    | HIf(arms: seq<HArm>)
    | HWhile(test: seq<HItem>, loop: seq<HItem>)
    | HFor(name: string, words: seq<string>, each: seq<HItem>)
    | HFn(fname: string, fbody: seq<HItem>)
    | HCase(word: string, branches: seq<HBranch>)
    | HDBracket(tokens: seq<string>, marks: seq<int>)

  datatype HArm = HArm(cond: seq<HItem>, body: seq<HItem>, isElse: bool)

  datatype HBranch = HBranch(patterns: seq<string>, body: seq<HItem>)

  // ---- the objects of a list, in document order ----

  function Refs(list: seq<HItem>): seq<CmdCell> {
    if list == [] then [] else Refs(list[..|list| - 1]) + ItemRefs(list[|list| - 1])
  }

  function ItemRefs(item: HItem): seq<CmdCell> {
    match item.kind
    case HPipeline(cmds) => cmds
    case HIf(arms) => ArmRefs(arms)
    case HWhile(test, loop) => Refs(test) + Refs(loop)
    case HFor(_, _, each) => Refs(each)
    case HFn(_, body) => Refs(body)
    case HCase(_, branches) => BranchRefs(branches)
    case HDBracket(_, _) => []
  }

  function ArmRefs(arms: seq<HArm>): seq<CmdCell> {
    if arms == [] then [] else ArmRefs(arms[..|arms| - 1]) + OneArmRefs(arms[|arms| - 1])
  }

  function OneArmRefs(arm: HArm): seq<CmdCell> {
    Refs(arm.cond) + Refs(arm.body)
  }

  function BranchRefs(branches: seq<HBranch>): seq<CmdCell> {
    if branches == [] then []
    else BranchRefs(branches[..|branches| - 1]) + OneBranchRefs(branches[|branches| - 1])
  }

  function OneBranchRefs(branch: HBranch): seq<CmdCell> {
    Refs(branch.body)
  }

  function CellSet(cells: seq<CmdCell>): set<CmdCell> {
    set c | c in cells
  }

  // No address occurs twice.
  predicate NoDup(cells: seq<CmdCell>) {
    forall i, j :: 0 <= i < j < |cells| ==> cells[i] != cells[j]
  }

  lemma FewNoDup()
    ensures NoDup([]) && Refs([]) == [] && ArmRefs([]) == [] && BranchRefs([]) == []
  {
  }

  lemma Join(a: seq<CmdCell>, b: seq<CmdCell>)
    requires NoDup(a) && NoDup(b) && CellSet(a) !! CellSet(b)
    ensures NoDup(a + b) && CellSet(a + b) == CellSet(a) + CellSet(b)
  {
    forall i, j | 0 <= i < j < |a + b| ensures (a + b)[i] != (a + b)[j] {
      if i < |a| <= j {
        assert (a + b)[i] in CellSet(a) && (a + b)[j] in CellSet(b);
      }
    }
  }

  // ---- what a list says ----

  function ViewCmds(cells: seq<CmdCell>): (r: seq<Cmd>)
    reads CellSet(cells)`cmd
    ensures |r| == |cells|
    ensures forall i :: 0 <= i < |cells| ==> r[i] == cells[i].cmd
  {
    if cells == [] then [] else ViewCmds(cells[..|cells| - 1]) + [cells[|cells| - 1].cmd]
  }

  function View(list: seq<HItem>): seq<Item>
    reads CellSet(Refs(list))`cmd
  {
    if list == [] then [] else View(list[..|list| - 1]) + [ViewItem(list[|list| - 1])]
  }

  function ViewItem(item: HItem): Item
    reads CellSet(ItemRefs(item))`cmd
  {
    var kind := match item.kind
      case HPipeline(cmds) => Pipeline(ViewCmds(cmds))
      case HIf(arms) => If(ViewArms(arms))
      case HWhile(test, loop) => While(View(test), View(loop))
      case HFor(name, words, each) => For(name, words, View(each))
      case HFn(name, body) => Fn(name, View(body))
      case HCase(word, branches) => Case(word, ViewBranches(branches))
      case HDBracket(tokens, marks) => DBracket(tokens, marks);
    Item(kind, item.cond, item.background)
  }

  function ViewArms(arms: seq<HArm>): seq<Arm>
    reads CellSet(ArmRefs(arms))`cmd
  {
    if arms == [] then [] else ViewArms(arms[..|arms| - 1]) + [ViewArm(arms[|arms| - 1])]
  }

  function ViewArm(arm: HArm): Arm
    reads CellSet(OneArmRefs(arm))`cmd
  {
    Arm(View(arm.cond), View(arm.body), arm.isElse)
  }

  function ViewBranches(branches: seq<HBranch>): seq<Branch>
    reads CellSet(BranchRefs(branches))`cmd
  {
    if branches == [] then []
    else ViewBranches(branches[..|branches| - 1]) + [ViewBranch(branches[|branches| - 1])]
  }

  function ViewBranch(branch: HBranch): Branch
    reads CellSet(OneBranchRefs(branch))`cmd
  {
    Branch(branch.patterns, View(branch.body))
  }

  lemma HItemAfter(list: seq<HItem>, item: HItem)
    ensures Refs(list + [item]) == Refs(list) + ItemRefs(item) && View(list + [item]) == View(list) + [ViewItem(item)]
  {
    assert (list + [item])[..|list|] == list;
  }

  lemma HArmAfter(list: seq<HArm>, arm: HArm)
    ensures ArmRefs(list + [arm]) == ArmRefs(list) + OneArmRefs(arm)
    ensures ViewArms(list + [arm]) == ViewArms(list) + [ViewArm(arm)]
  {
    assert (list + [arm])[..|list|] == list;
  }

  lemma HBranchAfter(list: seq<HBranch>, branch: HBranch)
    ensures BranchRefs(list + [branch]) == BranchRefs(list) + OneBranchRefs(branch)
    ensures ViewBranches(list + [branch]) == ViewBranches(list) + [ViewBranch(branch)]
  {
    assert (list + [branch])[..|list|] == list;
  }

  // ---- clone_list ----
  // Each method also hands out the new objects, so that a caller knows them allocated.

  // src/mid/dispatcher.c:781
  method ClonePipeline(src: seq<CmdCell>) returns (dst: seq<CmdCell>)
    ensures fresh(CellSet(dst)) && NoDup(dst) && ViewCmds(dst) == ViewCmds(src)
  {
    dst := [];
    for i := 0 to |src|
      invariant |dst| == i && fresh(CellSet(dst)) && NoDup(dst)
      invariant forall k :: 0 <= k < i ==> dst[k].cmd == src[k].cmd
    {
      var c := new CmdCell(src[i].cmd);
      assert c !in CellSet(dst);
      Join(dst, [c]);
      dst := dst + [c];
    }
  }

  // src/mid/dispatcher.c:805
  method CloneList(src: seq<HItem>) returns (dst: seq<HItem>, ghost cells: seq<CmdCell>)
    ensures cells == Refs(dst) && fresh(CellSet(cells)) && NoDup(cells) && View(dst) == View(src)
    decreases src
  {
    hide NoDup, Refs, View, ItemRefs, ViewItem;
    dst, cells := [], [];
    FewNoDup();
    for i := 0 to |src|
      invariant cells == Refs(dst) && fresh(CellSet(cells)) && NoDup(cells)
      invariant View(dst) == View(src[..i])
    {
      assert allocated(CellSet(cells)) && allocated(CellSet(Refs(src[..i])));
      var item, more := CloneItem(src[i]);
      assert src[..i + 1] == src[..i] + [src[i]];
      Join(cells, more);
      HItemAfter(dst, item);
      HItemAfter(src[..i], src[i]);
      dst, cells := dst + [item], cells + more;
    }
    assert src[..|src|] == src;
  }

  method CloneItem(src: HItem) returns (dst: HItem, ghost cells: seq<CmdCell>)
    ensures cells == ItemRefs(dst) && fresh(CellSet(cells)) && NoDup(cells) && ViewItem(dst) == ViewItem(src)
    decreases src
  {
    hide NoDup, Refs, View, ArmRefs, ViewArms, BranchRefs, ViewBranches;
    var kind;
    match src.kind {
      case HIf(arms) =>
        var a;
        a, cells := CloneArms(arms);
        kind := HIf(a);
      case HWhile(test, loop) =>
        assert allocated(CellSet(Refs(test))) && allocated(CellSet(Refs(loop)));
        var t, inTest := CloneList(test);
        assert allocated(CellSet(inTest));
        var l, inLoop := CloneList(loop);
        Join(inTest, inLoop);
        kind, cells := HWhile(t, l), inTest + inLoop;
      case HFor(name, words, each) =>
        var b;
        b, cells := CloneList(each);
        kind := HFor(name, words, b);
      case HFn(name, body) =>
        var b;
        b, cells := CloneList(body);
        kind := HFn(name, b);
      case HCase(word, branches) =>
        var b;
        b, cells := CloneBranches(branches);
        kind := HCase(word, b);
      case HDBracket(tokens, marks) =>
        kind, cells := HDBracket(tokens, marks), [];
        FewNoDup();
      case HPipeline(cmds) =>
        var c := ClonePipeline(cmds);
        kind, cells := HPipeline(c), c;
    }
    dst := HItem(kind, src.cond, src.background);
  }

  method CloneArm(src: HArm) returns (dst: HArm, ghost cells: seq<CmdCell>)
    ensures cells == OneArmRefs(dst) && fresh(CellSet(cells)) && NoDup(cells) && ViewArm(dst) == ViewArm(src)
    decreases src
  {
    hide NoDup, Refs, View;
    assert allocated(CellSet(Refs(src.cond))) && allocated(CellSet(Refs(src.body)));
    var cond, inCond := CloneList(src.cond);
    assert allocated(CellSet(inCond));
    var body, inBody := CloneList(src.body);
    Join(inCond, inBody);
    dst, cells := HArm(cond, body, src.isElse), inCond + inBody;
  }

  method CloneArms(src: seq<HArm>) returns (dst: seq<HArm>, ghost cells: seq<CmdCell>)
    ensures cells == ArmRefs(dst) && fresh(CellSet(cells)) && NoDup(cells) && ViewArms(dst) == ViewArms(src)
    decreases src
  {
    hide NoDup, ArmRefs, ViewArms, OneArmRefs, ViewArm;
    dst, cells := [], [];
    FewNoDup();
    for i := 0 to |src|
      invariant cells == ArmRefs(dst) && fresh(CellSet(cells)) && NoDup(cells)
      invariant ViewArms(dst) == ViewArms(src[..i])
    {
      assert allocated(CellSet(cells)) && allocated(CellSet(ArmRefs(src[..i])));
      var arm, more := CloneArm(src[i]);
      assert src[..i + 1] == src[..i] + [src[i]];
      Join(cells, more);
      HArmAfter(dst, arm);
      HArmAfter(src[..i], src[i]);
      dst, cells := dst + [arm], cells + more;
    }
    assert src[..|src|] == src;
  }

  method CloneBranches(src: seq<HBranch>) returns (dst: seq<HBranch>, ghost cells: seq<CmdCell>)
    ensures cells == BranchRefs(dst) && fresh(CellSet(cells)) && NoDup(cells) && ViewBranches(dst) == ViewBranches(src)
    decreases src
  {
    hide NoDup, Refs, View, BranchRefs, ViewBranches;
    dst, cells := [], [];
    FewNoDup();
    for i := 0 to |src|
      invariant cells == BranchRefs(dst) && fresh(CellSet(cells)) && NoDup(cells)
      invariant ViewBranches(dst) == ViewBranches(src[..i])
    {
      assert allocated(CellSet(cells)) && allocated(CellSet(BranchRefs(src[..i])));
      var body, more := CloneList(src[i].body);
      var branch := HBranch(src[i].patterns, body);
      assert src[..i + 1] == src[..i] + [src[i]];
      Join(cells, more);
      HBranchAfter(dst, branch);
      HBranchAfter(src[..i], src[i]);
      dst, cells := dst + [branch], cells + more;
    }
    assert src[..|src|] == src;
  }

  // ---- the parts of a tree ----

  lemma NoDupSplit(a: seq<CmdCell>, b: seq<CmdCell>)
    requires NoDup(a + b)
    ensures NoDup(a) && NoDup(b) && CellSet(a) !! CellSet(b) && CellSet(a + b) == CellSet(a) + CellSet(b)
  {
    var e := a + b;
    assert forall i :: 0 <= i < |a| ==> e[i] == a[i];
    assert forall i :: 0 <= i < |b| ==> e[|a| + i] == b[i];
  }

  lemma {:induction false} ViewAt(list: seq<HItem>, i: nat)
    requires i < |list|
    ensures |View(list)| == |list| && View(list)[i] == ViewItem(list[i])
  {
    hide ViewItem;
    ViewSize(list);
    if i < |list| - 1 {
      ViewAt(list[..|list| - 1], i);
    }
  }

  lemma ViewSize(list: seq<HItem>)
    ensures |View(list)| == |list|
  {
    hide ViewItem;
  }

  // In a tree without repeated objects an item has its own.
  lemma {:induction false} ItemApart(list: seq<HItem>, i: nat)
    requires i < |list| && NoDup(Refs(list))
    ensures NoDup(ItemRefs(list[i])) && CellSet(ItemRefs(list[i])) <= CellSet(Refs(list))
  {
    hide ItemRefs, NoDup;
    var n := |list| - 1;
    NoDupSplit(Refs(list[..n]), ItemRefs(list[n]));
    if i < n {
      ItemApart(list[..n], i);
    }
  }

  // The objects say what they said before, those of a part excepted.
  twostate predicate UntouchedBut(cells: seq<CmdCell>, new part: set<CmdCell>)
    reads CellSet(cells)`cmd
  {
    forall c :: c in CellSet(cells) && c !in part ==> c.cmd == old(c.cmd)
  }

  // What changes only objects of item i changes item i only.
  twostate lemma {:induction false} OnlyItem(list: seq<HItem>, new i: nat)
    requires i < |list| && NoDup(Refs(list))
    requires UntouchedBut(Refs(list), CellSet(ItemRefs(list[i])))
    ensures |old(View(list))| == |list| && View(list) == old(View(list))[i := ViewItem(list[i])]
  {
    hide ItemRefs, NoDup, ViewItem;
    var n := |list| - 1;
    ViewSize(list[..n]);
    NoDupSplit(Refs(list[..n]), ItemRefs(list[n]));
    if i < n {
      ItemApart(list[..n], i);
      OnlyItem(list[..n], i);
      assert UntouchedBut(ItemRefs(list[n]), {});
      assert ViewItem(list[n]) == old(ViewItem(list[n]));
    } else {
      assert UntouchedBut(Refs(list[..n]), {});
      assert View(list[..n]) == old(View(list[..n]));
    }
  }

  lemma {:induction false} ArmAt(arms: seq<HArm>, i: nat)
    requires i < |arms|
    ensures |ViewArms(arms)| == |arms| && ViewArms(arms)[i] == ViewArm(arms[i])
  {
    hide ViewArm;
    ArmsSize(arms);
    if i < |arms| - 1 {
      ArmAt(arms[..|arms| - 1], i);
    }
  }

  lemma ArmsSize(arms: seq<HArm>)
    ensures |ViewArms(arms)| == |arms|
  {
    hide ViewArm;
  }

  lemma {:induction false} ArmApart(arms: seq<HArm>, i: nat)
    requires i < |arms| && NoDup(ArmRefs(arms))
    ensures NoDup(OneArmRefs(arms[i])) && CellSet(OneArmRefs(arms[i])) <= CellSet(ArmRefs(arms))
  {
    hide OneArmRefs, NoDup;
    var n := |arms| - 1;
    NoDupSplit(ArmRefs(arms[..n]), OneArmRefs(arms[n]));
    if i < n {
      ArmApart(arms[..n], i);
    }
  }

  twostate lemma {:induction false} OnlyArm(arms: seq<HArm>, new i: nat)
    requires i < |arms| && NoDup(ArmRefs(arms))
    requires UntouchedBut(ArmRefs(arms), CellSet(OneArmRefs(arms[i])))
    ensures |old(ViewArms(arms))| == |arms| && ViewArms(arms) == old(ViewArms(arms))[i := ViewArm(arms[i])]
  {
    hide OneArmRefs, NoDup, ViewArm, Refs, View;
    var n := |arms| - 1;
    ArmsSize(arms[..n]);
    NoDupSplit(ArmRefs(arms[..n]), OneArmRefs(arms[n]));
    if i < n {
      ArmApart(arms[..n], i);
      OnlyArm(arms[..n], i);
      assert UntouchedBut(OneArmRefs(arms[n]), {});
      assert ViewArm(arms[n]) == old(ViewArm(arms[n]));
    } else {
      assert UntouchedBut(ArmRefs(arms[..n]), {});
    }
  }

  lemma {:induction false} BranchAt(branches: seq<HBranch>, i: nat)
    requires i < |branches|
    ensures |ViewBranches(branches)| == |branches| && ViewBranches(branches)[i] == ViewBranch(branches[i])
    ensures CellSet(Refs(branches[i].body)) <= CellSet(BranchRefs(branches))
  {
    hide ViewBranch;
    BranchesSize(branches);
    if i < |branches| - 1 {
      BranchAt(branches[..|branches| - 1], i);
    }
    assert CellSet(BranchRefs(branches)) ==
      CellSet(BranchRefs(branches[..|branches| - 1])) + CellSet(Refs(branches[|branches| - 1].body));
  }

  lemma BranchesSize(branches: seq<HBranch>)
    ensures |ViewBranches(branches)| == |branches|
  {
    hide ViewBranch;
  }

  lemma OnlyOnce(cells: seq<CmdCell>, k: nat)
    requires NoDup(cells) && k < |cells|
    ensures forall i :: 0 <= i < |cells| ==> cells[i] in CellSet(cells)
    ensures forall i :: 0 <= i < |cells| && i != k ==> cells[i] != cells[k]
  {
  }

  twostate lemma OnlyCmd(cells: seq<CmdCell>, new i: nat)
    requires i < |cells| && NoDup(cells)
    requires UntouchedBut(cells, {cells[i]})
    ensures ViewCmds(cells) == old(ViewCmds(cells))[i := cells[i].cmd]
  {
    hide NoDup;
    OnlyOnce(cells, i);
    var was := old(ViewCmds(cells));
    forall k | 0 <= k < |cells| && k != i
      ensures cells[k].cmd == was[k]
    {
      assert cells[k] in CellSet(cells);
    }
  }
}
