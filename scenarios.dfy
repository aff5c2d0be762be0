/** Replays of `define` and `remove` worked through on concrete trees: defining `5` at
    `a.b` on `{}`, then undoing and redoing it; removing `x` from `{x: 1}`, then
    undoing that. Every step leaves the tree as its entry says, but a step that calls
    `define` throws and leaves recording bypassed. A last run shows a plain assignment replacing
    the object that carried an interceptor. */
module Scenarios {
  import opened Values
  import opened Paths
  import opened Ledger
  import opened Replay

  /** A fresh ledger with the default options. */
  function FreshLedger(): LedgerState {
    LedgerState([], [], DefaultMaxLength, true, false)
  }

  /** The path `"a.b"` names the key `b` of the object at `a`. */
  lemma PathAB()
    ensures Segs("a.b") == [Name("a"), Name("b")]
    ensures Segs("a") == [Name("a")]
    ensures Join(["a"]) == "a"
  {
    SplitAtFirstDot("a", "b");
    SplitDotless("a");
    SplitDotless("b");
  }

  /** `define("a.b", 5)` on `{}` builds the path, records an `add` entry and throws. */
  lemma DefineAB()
    ensures Define(World(Obj(map[]), FreshLedger(), {}), "a.b", Number(5)) ==
      Step(World(Obj(map["a" := Obj(map["b" := Number(5)])]),
                 FreshLedger().(backwards := [Entry("a.b", Number(5), Add)]), {}),
           Threw(TypeError))
  {
    PathAB();
    var t1 := Obj(map["a" := Obj(map["b" := Number(5)])]);
    assert DeepGet(Obj(map[]), Segs("a.b")) == Ok(Undefined);
    assert DeepSet(Obj(map[]), Segs("a.b"), Number(5), true) == Ok(t1);
  }

  /** `undo` of that entry deletes `b` and keeps the container `a`. */
  lemma UndoAB()
    ensures var e := Entry("a.b", Number(5), Add);
      Undo(World(Obj(map["a" := Obj(map["b" := Number(5)])]), FreshLedger().(backwards := [e]), {})) ==
      Step(World(Obj(map["a" := Obj(map[])]), FreshLedger().(forwards := [e]), {}), Done)
  {
    PathAB();
    var t1 := Obj(map["a" := Obj(map["b" := Number(5)])]);
    assert DeepGet(t1, Segs("a")) == Ok(Obj(map["b" := Number(5)]));
    assert Erase(t1, ["a", "b"]) == Obj(map["a" := Obj(map[])]);
  }

  /** `redo` of it builds `b` again and throws before pushing the entry back. */
  lemma RedoAB()
    ensures var e := Entry("a.b", Number(5), Add);
      Redo(World(Obj(map["a" := Obj(map[])]), FreshLedger().(forwards := [e]), {})) ==
      Step(World(Obj(map["a" := Obj(map["b" := Number(5)])]), Suspended(FreshLedger()), {}), Threw(TypeError))
  {
    PathAB();
    var t1 := Obj(map["a" := Obj(map["b" := Number(5)])]);
    var t2 := Obj(map["a" := Obj(map[])]);
    assert DeepGet(t2, Segs("a.b")) == Ok(Undefined);
    assert Segs("a.b")[1..] == [Name("b")];
    assert DeepSet(Obj(map[]), [Name("b")], Number(5), true) == Ok(Obj(map["b" := Number(5)]));
    assert t2.fields["a" := Obj(map["b" := Number(5)])] == t1.fields;
    assert DeepSet(t2, Segs("a.b"), Number(5), true) == Ok(t1);
  }

  /** add/undo/redo on `{}`: `define("a.b", 5)` builds `a.b`, records an `add` entry and
      throws; `undo` deletes `b` again (the container `a` stays) and moves the entry to
      the forward stack; `redo` builds `a.b` again, but throws inside `define` before
      it pushes the entry back, so both stacks end empty and recording stays bypassed. */
  lemma AddUndoRedo()
    ensures var w0 := World(Obj(map[]), FreshLedger(), {});
      var e := Entry("a.b", Number(5), Add);
      var d := Define(w0, "a.b", Number(5));
      var u := Undo(d.world);
      var r := Redo(u.world);
      && d.outcome == Threw(TypeError)
      && d.world.tree == Obj(map["a" := Obj(map["b" := Number(5)])])
      && d.world.ledger.backwards == [e]
      && u.outcome == Done
      && u.world.tree == Obj(map["a" := Obj(map[])])
      && u.world.ledger == FreshLedger().(forwards := [e])
      && r.outcome == Threw(TypeError)
      && r.world.tree == d.world.tree
      && r.world.ledger == Suspended(FreshLedger())
  {
    DefineAB();
    UndoAB();
    RedoAB();
  }

  /** `remove("x")` on `{x: 1}` with `x` tracked records a `delete` entry holding 1 and
      deletes `x` with its interceptor. */
  lemma RemoveX()
    ensures Remove(World(Obj(map["x" := Number(1)]), FreshLedger(), {["x"]}), Obj(map["x" := Number(1)]), [], "x", "x") ==
      Step(World(Obj(map[]), FreshLedger().(backwards := [Entry("x", Number(1), Delete)]), {}), Done)
  {
    var t := Obj(map["x" := Number(1)]);
    var l := FreshLedger().(backwards := [Entry("x", Number(1), Delete)]);
    assert ReadKey(t, "x") == Ok(Number(1));
    assert Recorded(FreshLedger(), "x", Number(1), Some(Delete)) == l;
    assert [] + ["x"] == ["x"];
    assert Erase(t, ["x"]) == Obj(map[]);
    assert {["x"]} - {["x"]} == {};
  }

  /** `undo` of that entry sets `x` back to 1 and throws inside `define`. */
  lemma UndoX()
    ensures Undo(World(Obj(map[]), FreshLedger().(backwards := [Entry("x", Number(1), Delete)]), {})) ==
      Step(World(Obj(map["x" := Number(1)]), Suspended(FreshLedger()), {}), Threw(TypeError))
  {
    SplitDotless("x");
    assert Segs("x") == [Name("x")];
    assert DeepGet(Obj(map[]), Segs("x")) == Ok(Undefined);
    assert DeepSet(Obj(map[]), Segs("x"), Number(1), true) == Ok(Obj(map["x" := Number(1)]));
  }

  /** delete/undo on `{x: 1}` with `x` tracked: `remove("x")` records a `delete` entry
      holding 1 and deletes `x` with its interceptor; `undo` sets `x` back to 1 but
      throws inside `define`, so nothing is pushed to redo and recording stays
      bypassed. The slot is back without an interceptor, and even a write through
      one would record nothing. */
  lemma DeleteUndo()
    ensures var w0 := World(Obj(map["x" := Number(1)]), FreshLedger(), {["x"]});
      var m := Remove(w0, w0.tree, [], "x", "x");
      var u := Undo(m.world);
      && m.outcome == Done
      && m.world.tree == Obj(map[])
      && m.world.tracked == {}
      && m.world.ledger.backwards == [Entry("x", Number(1), Delete)]
      && u.outcome == Threw(TypeError)
      && u.world.tree == w0.tree
      && u.world.ledger == Suspended(FreshLedger())
      && u.world.tracked == {}
      && Write(u.world, ["x"], Number(2)).ledger == u.world.ledger
  {
    RemoveX();
    UndoX();
  }

  /** With `user.name` intercepted on `{user: {name: "a"}}`, the plain assignment
      `root.user = {name: "b"}` replaces the object that carried the interceptor, so
      the later `root.user.name = "c"` is a plain write that records nothing. */
  lemma ReplacedObjectLosesInterceptor()
    ensures var w0 := World(Obj(map["user" := Obj(map["name" := Text("a")])]), FreshLedger(), {["user", "name"]});
      var w1 := World(Obj(map["user" := Obj(map["name" := Text("b")])]), FreshLedger(), {});
      && Assigned(w0, ["user"], Obj(map["name" := Text("b")])) == w1
      && HasParent(w1.tree, ["user", "name"])
      && Assigned(w1, ["user", "name"], Text("c")) ==
           World(Obj(map["user" := Obj(map["name" := Text("c")])]), w0.ledger, {})
  {
    AssignUser();
    AssignUserName();
  }

  /** `root.user = {name: "b"}`: a plain write that takes the interceptor below it along. */
  lemma AssignUser()
    ensures Assigned(World(Obj(map["user" := Obj(map["name" := Text("a")])]), FreshLedger(), {["user", "name"]}),
                     ["user"], Obj(map["name" := Text("b")]))
      == World(Obj(map["user" := Obj(map["name" := Text("b")])]), FreshLedger(), {})
  {
    var t0 := Obj(map["user" := Obj(map["name" := Text("a")])]);
    assert ["user"][..0] == [] && ["user"][1..] == [];
    assert ["user", "name"][..1] == ["user"];
    assert Under(["user"], ["user", "name"]);
    assert Replaced({["user", "name"]}, ["user"]) == {};
    assert t0.fields["user" := Obj(map["name" := Text("b")])] == map["user" := Obj(map["name" := Text("b")])];
  }

  /** `root.user.name = "c"` on the new object: a plain write, nothing recorded. */
  lemma AssignUserName()
    ensures HasParent(Obj(map["user" := Obj(map["name" := Text("b")])]), ["user", "name"])
    ensures Assigned(World(Obj(map["user" := Obj(map["name" := Text("b")])]), FreshLedger(), {}),
                     ["user", "name"], Text("c"))
      == World(Obj(map["user" := Obj(map["name" := Text("c")])]), FreshLedger(), {})
  {
    var inner := Obj(map["name" := Text("b")]);
    var t1 := Obj(map["user" := inner]);
    assert ["user", "name"][..1] == ["user"] && ["user"][1..] == [];
    assert ["user", "name"][1..] == ["name"] && ["name"][1..] == [];
    assert Lookup(t1, ["user"]) == Some(inner);
    assert Put(inner, ["name"], Text("c")) == Obj(map["name" := Text("c")]) by {
      assert inner.fields["name" := Text("c")] == map["name" := Text("c")];
    }
    assert t1.fields["user" := Obj(map["name" := Text("c")])] == map["user" := Obj(map["name" := Text("c")])];
  }
}
