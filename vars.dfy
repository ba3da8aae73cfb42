/**
 * The variable store: an ordered list of (name, value) entries. The C program keeps
 * it as a second linked list; declaring appends at the end and every other operation
 * acts on the first entry whose name matches, so declaration order decides which of
 * two equally named variables is seen.
 */
module Vars {
  import opened Wrappers
  import Stack

  datatype Var = Var(name: string, value: real)

  /** Index of the first entry named `name` at or after `from`, or -1. */
  function FindFrom(vs: seq<Var>, name: string, from: nat): (r: int)
    requires from <= |vs|
    ensures r == -1 || from <= r < |vs|
    ensures r == -1 <==> forall k :: from <= k < |vs| ==> vs[k].name != name
    ensures r != -1 ==> vs[r].name == name && forall k :: from <= k < r ==> vs[k].name != name
    decreases |vs| - from
  {
    if from == |vs| then -1
    else if vs[from].name == name then from
    else FindFrom(vs, name, from + 1)
  }

  /** Index of the first entry named `name`, or -1 when no entry has that name. */
  function Find(vs: seq<Var>, name: string): int
  {
    FindFrom(vs, name, 0)
  }

  /** `var name`: a new entry holding 0, after all existing ones. */
  function Declared(vs: seq<Var>, name: string): seq<Var>
  {
    vs + [Var(name, 0.0)]
  }

  /** `store name`: the first entry named `name` takes the value `v`; `None` when there is none. */
  function Stored(vs: seq<Var>, name: string, v: real): (r: Option<seq<Var>>)
    ensures r.None? <==> Find(vs, name) == -1
    ensures r.Some? ==> (
      && |r.value| == |vs|
      && r.value[Find(vs, name)] == Var(name, v)
      && forall k :: 0 <= k < |vs| && k != Find(vs, name) ==> r.value[k] == vs[k])
  {
    var k := Find(vs, name);
    if k == -1 then None else Some(vs[k := Var(name, v)])
  }

  /** `load name`: the value of the first entry named `name`. */
  function Loaded(vs: seq<Var>, name: string): (r: Option<real>)
    ensures r.None? <==> Find(vs, name) == -1
  {
    var k := Find(vs, name);
    if k == -1 then None else Some(vs[k].value)
  }

  /** `del name`: the first entry named `name` is removed, the others keep their order. */
  function Deleted(vs: seq<Var>, name: string): (r: Option<seq<Var>>)
    ensures r.None? <==> Find(vs, name) == -1
    ensures r.Some? ==> |r.value| == |vs| - 1
  {
    var k := Find(vs, name);
    if k == -1 then None else Some(vs[..k] + vs[k + 1..])
  }

  // ---------------------------------------------------------------------------
  // Properties

  /** Declaring a name that was not in use makes it loadable with value 0. */
  lemma {:induction false} LoadAfterDeclare(vs: seq<Var>, name: string)
    requires Find(vs, name) == -1
    ensures Find(Declared(vs, name), name) == |vs|
    ensures Loaded(Declared(vs, name), name) == Some(0.0)
  {
    var d := Declared(vs, name);
    assert forall k :: 0 <= k < |vs| ==> d[k] == vs[k];
    assert d[|vs|].name == name;
  }

  /** Declaring a name that is already in use leaves the older entry visible. */
  lemma RedeclareIsShadowed(vs: seq<Var>, name: string)
    requires Find(vs, name) != -1
    ensures Find(Declared(vs, name), name) == Find(vs, name)
    ensures Loaded(Declared(vs, name), name) == Loaded(vs, name)
  {
    var d := Declared(vs, name);
    var k := Find(vs, name);
    assert d[k] == vs[k];
    assert forall j :: 0 <= j < k ==> d[j] == vs[j];
  }

  /** Storing then loading the same name gives the stored value. */
  lemma LoadAfterStore(vs: seq<Var>, name: string, v: real)
    requires Find(vs, name) != -1
    ensures Find(Stored(vs, name, v).value, name) == Find(vs, name)
    ensures Loaded(Stored(vs, name, v).value, name) == Some(v)
  {
    var w := Stored(vs, name, v).value;
    var k := Find(vs, name);
    assert forall j :: 0 <= j < k ==> w[j] == vs[j];
  }

  /** Storing under one name does not change what another name loads. */
  lemma StoreLeavesOthers(vs: seq<Var>, name: string, other: string, v: real)
    requires Find(vs, name) != -1 && other != name
    ensures Loaded(Stored(vs, name, v).value, other) == Loaded(vs, other)
  {
    var w := Stored(vs, name, v).value;
    var k := Find(vs, name);
    assert forall j :: 0 <= j < |vs| ==> w[j].name == vs[j].name || j == k;
    assert forall j :: 0 <= j < |vs| && j != k ==> w[j] == vs[j];
    assert w[k].name != other && vs[k].name != other;
    var o := Find(vs, other);
    assert forall j :: 0 <= j < |vs| ==> (w[j].name == other <==> vs[j].name == other);
    if o != -1 {
      assert forall j :: 0 <= j < o ==> w[j].name != other;
      assert Find(w, other) == o;
    } else {
      assert Find(w, other) == -1;
    }
  }

  /**
   * Deleting removes exactly the first entry with the name: a second entry with the
   * same name, if any, becomes the one that is found.
   */
  lemma {:induction false} DeleteRemovesFirst(vs: seq<Var>, name: string)
    requires Find(vs, name) != -1
    ensures var w := Deleted(vs, name).value;
      var k := Find(vs, name);
      (forall j :: 0 <= j < k ==> w[j] == vs[j]) &&
      (forall j :: k <= j < |w| ==> w[j] == vs[j + 1]) &&
      (Find(w, name) == -1 <==> FindFrom(vs, name, k + 1) == -1) &&
      (Find(w, name) != -1 ==> Find(w, name) + 1 == FindFrom(vs, name, k + 1))
  {
    var w := Deleted(vs, name).value;
    var k := Find(vs, name);
    assert forall j :: 0 <= j < k ==> w[j] == vs[j];
    assert forall j :: k <= j < |w| ==> w[j] == vs[j + 1];
    var f := FindFrom(vs, name, k + 1);
    if f == -1 {
      assert forall j :: 0 <= j < |w| ==> w[j].name != name;
    } else {
      assert w[f - 1].name == name;
      assert forall j :: 0 <= j < f - 1 ==> w[j].name != name;
    }
  }

  // ---------------------------------------------------------------------------
  // The store as the C code keeps it, walked entry by entry.

  class VarStore {
    var entries: seq<Var>

    constructor ()
      ensures entries == []
    {
      entries := [];
    }

    /** `var`: appends an entry holding 0. */
    method Declare(name: string)
      modifies this
      ensures entries == Declared(old(entries), name)
    {
      entries := entries + [Var(name, 0.0)];
    }

    /** The walk shared by `store`, `load` and `delete_var`: the index of the first match, or -1. */
    method Locate(name: string) returns (k: int)
      ensures k == Find(entries, name)
    {
      k := 0;
      while k < |entries|
        invariant 0 <= k <= |entries|
        invariant forall j :: 0 <= j < k ==> entries[j].name != name
      {
        if entries[k].name == name {
          return;
        }
        k := k + 1;
      }
      k := -1;
    }

    /**
     * `store`: copies the top of the value stack into the first matching entry. The C
     * code walks to the top of the stack only once a match is found, so an empty
     * stack is harmless when the name is missing.
     */
    method Store(name: string, stack: Stack.ValueStack) returns (ok: bool)
      requires Find(entries, name) != -1 ==> stack.items != []
      modifies this
      ensures ok == (Find(old(entries), name) != -1)
      ensures entries == if ok then Stored(old(entries), name, Stack.Top(stack.items)).value else old(entries)
    {
      var k := Locate(name);
      if k == -1 {
        return false;
      }
      entries := entries[k := Var(name, stack.items[|stack.items| - 1])];
      ok := true;
    }

    /** `load`: pushes the value of the first matching entry onto the value stack. */
    method Load(name: string, stack: Stack.ValueStack) returns (ok: bool)
      modifies stack
      ensures ok == Loaded(entries, name).Some?
      ensures stack.items == if ok then old(stack.items) + [Loaded(entries, name).value] else old(stack.items)
    {
      var k := Locate(name);
      if k == -1 {
        return false;
      }
      stack.Push(entries[k].value);
      ok := true;
    }

    /** `delete_var`: unlinks the first matching entry. */
    method Delete(name: string) returns (ok: bool)
      modifies this
      ensures ok == Deleted(old(entries), name).Some?
      ensures entries == if ok then Deleted(old(entries), name).value else old(entries)
    {
      var k := Locate(name);
      if k == -1 {
        return false;
      }
      entries := entries[..k] + entries[k + 1..];
      ok := true;
    }
  }
}
