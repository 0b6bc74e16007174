// The table of shell functions: 64 slots, searched from the front.
module FnTable {
  datatype Slot<+B> = Free | Used(name: string, body: B)

  // The functions a table holds.
  function Table<B>(slots: seq<Slot<B>>): map<string, B>
    decreases |slots|
  {
    if slots == [] then map[]
    else
      var t := Table(slots[..|slots| - 1]);
      match slots[|slots| - 1]
      case Free => t
      case Used(name, body) => t[name := body]
  }

  // No two slots hold the same name.
  ghost predicate Distinct<B>(slots: seq<Slot<B>>) {
    forall i, j :: 0 <= i < j < |slots| && slots[i].Used? && slots[j].Used? ==> slots[i].name != slots[j].name
  }

  lemma {:induction false} TableHolds<B>(slots: seq<Slot<B>>, i: nat)
    requires Distinct(slots) && i < |slots| && slots[i].Used?
    ensures slots[i].name in Table(slots) && Table(slots)[slots[i].name] == slots[i].body
    decreases |slots|
  {
    var front := slots[..|slots| - 1];
    if i < |front| {
      assert slots[i] == front[i];
      TableHolds(front, i);
    }
  }

  lemma {:induction false} TableOnly<B>(slots: seq<Slot<B>>, name: string)
    requires name in Table(slots)
    ensures exists i :: 0 <= i < |slots| && slots[i].Used? && slots[i].name == name
    decreases |slots|
  {
    var front := slots[..|slots| - 1];
    if slots[|slots| - 1].Used? && slots[|slots| - 1].name == name {
    } else {
      TableOnly(front, name);
      var i :| 0 <= i < |front| && front[i].Used? && front[i].name == name;
      assert slots[i].name == name;
    }
  }

  // Overwriting a free slot, or the slot of the same name, updates the table at that name.
  lemma {:induction false} TableUpdate<B>(slots: seq<Slot<B>>, k: nat, name: string, body: B)
    requires Distinct(slots) && k < |slots|
    requires if slots[k].Used? then slots[k].name == name else name !in Table(slots)
    ensures Distinct(slots[k := Used(name, body)])
    ensures Table(slots[k := Used(name, body)]) == Table(slots)[name := body]
    decreases |slots|
  {
    var next := slots[k := Used(name, body)];
    NameOnlyAt(slots, k, name);
    var n := |slots| - 1;
    if k == n {
      assert next[..n] == slots[..n];
    } else {
      assert Distinct(slots[..n]);
      TableUpdate(slots[..n], k, name, body);
      assert next[..n] == slots[..n][k := Used(name, body)];
      assert next[n] == slots[n];
    }
  }

  lemma NameOnlyAt<B>(slots: seq<Slot<B>>, k: nat, name: string)
    requires Distinct(slots) && k < |slots|
    requires if slots[k].Used? then slots[k].name == name else name !in Table(slots)
    ensures forall i :: 0 <= i < |slots| && slots[i].Used? && i != k ==> slots[i].name != name
  {
    forall i | 0 <= i < |slots| && slots[i].Used? && i != k
      ensures slots[i].name != name
    {
      TableHolds(slots, i);
    }
  }

  function Count<B>(slots: seq<Slot<B>>): nat
    decreases |slots|
  {
    if slots == [] then 0
    else Count(slots[..|slots| - 1]) + (if slots[|slots| - 1].Used? then 1 else 0)
  }

  // The table holds as many functions as there are used slots.
  lemma {:induction false} TableSize<B>(slots: seq<Slot<B>>)
    requires Distinct(slots)
    ensures |Table(slots)| == Count(slots)
    decreases |slots|
  {
    if slots != [] {
      var front := slots[..|slots| - 1];
      TableSize(front);
      var s := slots[|slots| - 1];
      if s.Used? && s.name in Table(front) {
        TableOnly(front, s.name);
      }
    }
  }

  lemma {:induction false} CountFull<B>(slots: seq<Slot<B>>)
    ensures Count(slots) <= |slots|
    ensures Count(slots) == |slots| <==> forall i :: 0 <= i < |slots| ==> slots[i].Used?
    decreases |slots|
  {
    if slots != [] {
      var n := |slots| - 1;
      CountFull(slots[..n]);
      assert forall i :: 0 <= i < n ==> slots[..n][i] == slots[i];
    }
  }
}
