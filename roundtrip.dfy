/** Undo and redo over a run of assignments to one tracked slot. After `N` recorded
    assignments the ledger, the tree and the two stacks pass through a fixed sequence
    of configurations as `undo` and `redo` are called: `undo` steps one configuration
    back, `redo` one forward, so `N` undos give back the value the slot held before
    the first assignment and `N` redos give back the state after the last. */
module RoundTrip {
  import opened Values
  import opened Paths
  import opened Ledger
  import opened Replay

  /** The `update` entries for the values `xs` at `path`, oldest first. */
  function Updates(path: string, xs: seq<Value>): seq<Entry> {
    seq(|xs|, i requires 0 <= i < |xs| => Entry(path, xs[i], Update))
  }

  /** The forward stack while the slot holds `xs[j]`: the later values, the next one on
      top. */
  function Pending(path: string, xs: seq<Value>, j: nat): seq<Entry>
    requires j < |xs|
  {
    seq(|xs| - 1 - j, i requires 0 <= i < |xs| - 1 - j => Entry(path, xs[|xs| - 1 - i], Update))
  }

  /** The state in which the slot `ks` holds `xs[j]` of the values it was assigned:
      the earlier values are on the backward stack above its older entries, the later
      ones on the forward stack, the flags are at their normal values, and the
      interceptors below the slot went with the first value replaced. */
  function Config(w0: World, ks: Keys, xs: seq<Value>, j: nat): World
    requires j < |xs|
  {
    var path := Join(ks);
    World(
      Put(w0.tree, ks, xs[j]),
      w0.ledger.(backwards := w0.ledger.backwards + Updates(path, xs[..j]),
                 forwards := Pending(path, xs, j),
                 emptyOnSet := true, bypassRecording := false),
      Replaced(w0.tracked, ks))
  }

  /** The slot is a property of an object of the tree, its keys hold no dot (so its
      path reads back as the same keys), and recording is on. */
  predicate Ready(w0: World, ks: Keys) {
    NormalFlags(w0.ledger) && HasParent(w0.tree, ks) && Dotless(ks)
  }

  /** The assignments `vs`, in order, through the interceptor on the slot `ks`. */
  function WriteAll(w: World, ks: Keys, vs: seq<Value>): (r: World)
    requires HasParent(w.tree, ks)
    ensures HasParent(r.tree, ks)
    ensures r.tracked == if |vs| == 0 then w.tracked else Replaced(w.tracked, ks)
    decreases |vs|
  {
    if |vs| == 0 then w
    else
      var before := WriteAll(w, ks, vs[..|vs| - 1]);
      PutElsewhereParent(before.tree, ks, vs[|vs| - 1]);
      ReplacedSlots(w.tracked, ks, ks);
      Write(before, ks, vs[|vs| - 1])
  }

  /** With room on the backward stack, `N` assignments leave the configuration in
      which the slot holds the last of them and every earlier value, starting with
      the one it held before, is on the backward stack. */
  lemma {:induction false} WriteAllReachesConfig(w0: World, ks: Keys, vs: seq<Value>)
    requires Ready(w0, ks) && |vs| >= 1
    requires |w0.ledger.backwards| + |vs| <= w0.ledger.maxLength
    ensures WriteAll(w0, ks, vs) == Config(w0, ks, [Current(w0.tree, ks)] + vs, |vs|)
    decreases |vs|
  {
    if |vs| == 1 {
      assert vs == [vs[0]];
      FirstWriteConfig(w0, ks, vs[0]);
    } else {
      var init := vs[..|vs| - 1];
      var ys := [Current(w0.tree, ks)] + init;
      WriteAllReachesConfig(w0, ks, init);
      WriteAllLast(w0, ks, vs);
      WriteExtendsConfig(w0, ks, ys, |init|, vs[|vs| - 1]);
      SnocFront(Current(w0.tree, ks), vs);
    }
  }

  /** The last assignment of a run comes after the others. */
  lemma WriteAllLast(w: World, ks: Keys, vs: seq<Value>)
    requires HasParent(w.tree, ks) && |vs| >= 1
    ensures HasParent(WriteAll(w, ks, vs[..|vs| - 1]).tree, ks)
    ensures WriteAll(w, ks, vs) == Write(WriteAll(w, ks, vs[..|vs| - 1]), ks, vs[|vs| - 1])
  {
    PutElsewhereParent(WriteAll(w, ks, vs[..|vs| - 1]).tree, ks, vs[|vs| - 1]);
  }

  lemma SnocFront<T>(x: T, vs: seq<T>)
    requires |vs| >= 1
    ensures [x] + vs[..|vs| - 1] + [vs[|vs| - 1]] == [x] + vs
    ensures |vs[..|vs| - 1]| + 1 == |vs|
  {
    assert vs[..|vs| - 1] + [vs[|vs| - 1]] == vs;
  }

  /** The first assignment starts the run. */
  lemma FirstWriteConfig(w0: World, ks: Keys, v: Value)
    requires Ready(w0, ks) && |w0.ledger.backwards| + 1 <= w0.ledger.maxLength
    ensures WriteAll(w0, ks, [v]) == Config(w0, ks, [Current(w0.tree, ks), v], 1)
  {
    var path := Join(ks);
    var x0 := Current(w0.tree, ks);
    var xs := [x0, v];
    assert [v][..0] == [];
    assert xs[..1] == [x0];
    assert Updates(path, [x0]) == [Entry(path, x0, Update)];
    assert Pending(path, xs, 1) == [];
  }

  /** One more assignment, with room on the backward stack, extends the run. */
  lemma WriteExtendsConfig(w0: World, ks: Keys, ys: seq<Value>, j: nat, v: Value)
    requires Ready(w0, ks) && |ys| == j + 1
    requires |w0.ledger.backwards| + |ys| <= w0.ledger.maxLength
    ensures HasParent(Config(w0, ks, ys, j).tree, ks)
    ensures Write(Config(w0, ks, ys, j), ks, v) == Config(w0, ks, ys + [v], j + 1)
  {
    var path := Join(ks);
    var c := Config(w0, ks, ys, |ys| - 1);
    var xs := ys + [v];
    var prev := ys[|ys| - 1];
    PutElsewhereParent(w0.tree, ks, prev);
    LookupPut(w0.tree, ks, prev);
    assert Current(c.tree, ks) == prev;
    PutPut(w0.tree, ks, prev, v);
    var d := Config(w0, ks, xs, |ys|);
    assert Put(c.tree, ks, v) == d.tree;
    assert xs[..|ys|] == ys[..|ys| - 1] + [prev];
    assert Updates(path, xs[..|ys|]) == Updates(path, ys[..|ys| - 1]) + [Entry(path, prev, Update)];
    assert c.ledger.backwards + [EntryOf(path, prev, None)] == d.ledger.backwards;
    assert Pending(path, xs, |ys|) == [];
    assert Recorded(c.ledger, path, prev, None) == d.ledger;
    ReplacedSlots(w0.tracked, ks, ks);
  }

  /** `undo` steps one configuration back. */
  lemma ConfigUndo(w0: World, ks: Keys, xs: seq<Value>, j: nat)
    requires Ready(w0, ks) && 1 <= j < |xs|
    ensures Undo(Config(w0, ks, xs, j)) == Step(Config(w0, ks, xs, j - 1), Done)
  {
    var path := Join(ks);
    var w := Config(w0, ks, xs, j);
    SplitJoin(ks);
    var back := w.ledger.backwards;
    assert back[|back| - 1] == Entry(path, xs[j - 1], Update);
    assert back[..|back| - 1] == w0.ledger.backwards + Updates(path, xs[..j - 1]) by {
      assert xs[..j] == xs[..j - 1] + [xs[j - 1]];
      assert Updates(path, xs[..j]) == Updates(path, xs[..j - 1]) + [Entry(path, xs[j - 1], Update)];
    }
    PutElsewhereParent(w0.tree, ks, xs[j]);
    UndoUpdate(w);
    LookupPut(w0.tree, ks, xs[j]);
    PutPut(w0.tree, ks, xs[j], xs[j - 1]);
    assert Pending(path, xs, j) + [Entry(path, xs[j], Update)] == Pending(path, xs, j - 1);
    ReplacedSlots(w0.tracked, ks, ks);
  }

  /** `redo` steps one configuration forward. */
  lemma ConfigRedo(w0: World, ks: Keys, xs: seq<Value>, j: nat)
    requires Ready(w0, ks) && j + 1 < |xs|
    ensures Redo(Config(w0, ks, xs, j)) == Step(Config(w0, ks, xs, j + 1), Done)
  {
    var path := Join(ks);
    var w := Config(w0, ks, xs, j);
    SplitJoin(ks);
    var fwd := w.ledger.forwards;
    assert fwd[|fwd| - 1] == Entry(path, xs[j + 1], Update);
    assert fwd[..|fwd| - 1] == Pending(path, xs, j + 1);
    PutElsewhereParent(w0.tree, ks, xs[j]);
    RedoUpdate(w);
    LookupPut(w0.tree, ks, xs[j]);
    PutPut(w0.tree, ks, xs[j], xs[j + 1]);
    assert xs[..j + 1] == xs[..j] + [xs[j]];
    assert Updates(path, xs[..j + 1]) == Updates(path, xs[..j]) + [Entry(path, xs[j], Update)];
    ReplacedSlots(w0.tracked, ks, ks);
  }

  /** `undo(n)` steps `n` configurations back, from `j` to `m`, as long as there are
      that many. */
  lemma {:induction false} ConfigUndoTimes(w0: World, ks: Keys, xs: seq<Value>, j: nat, n: nat, m: nat)
    requires Ready(w0, ks) && m + n == j < |xs|
    ensures UndoTimes(Config(w0, ks, xs, j), n) == Step(Config(w0, ks, xs, m), Done)
    decreases n
  {
    if n > 0 {
      var i := j - 1;
      ConfigUndo(w0, ks, xs, j);
      ConfigUndoTimes(w0, ks, xs, i, n - 1, m);
      assert Undo(Config(w0, ks, xs, j)).world == Config(w0, ks, xs, i);
    }
  }

  /** `redo(n)` steps `n` configurations forward, from `j` to `m`, as long as there are
      that many. */
  lemma {:induction false} ConfigRedoTimes(w0: World, ks: Keys, xs: seq<Value>, j: nat, n: nat, m: nat)
    requires Ready(w0, ks) && j + n == m < |xs|
    ensures RedoTimes(Config(w0, ks, xs, j), n) == Step(Config(w0, ks, xs, m), Done)
    decreases n
  {
    if n > 0 {
      ConfigRedo(w0, ks, xs, j);
      ConfigRedoTimes(w0, ks, xs, j + 1, n - 1, m);
    }
  }

  /** After `N` recorded assignments, `undo(N)` puts back the value the slot held
      before the first (the very tree, when the slot existed), leaves the backward
      stack as it was before the assignments, and holds all `N` of them for redo. */
  lemma UndoAllRestores(w0: World, ks: Keys, vs: seq<Value>)
    requires Ready(w0, ks) && |vs| >= 1
    requires |w0.ledger.backwards| + |vs| <= w0.ledger.maxLength
    ensures var s := UndoTimes(WriteAll(w0, ks, vs), |vs|);
      && s.outcome == Done
      && Lookup(s.world.tree, ks) == Some(Current(w0.tree, ks))
      && (Lookup(w0.tree, ks).Some? ==> s.world.tree == w0.tree)
      && s.world.ledger.backwards == w0.ledger.backwards
      && |s.world.ledger.forwards| == |vs|
      && s.world.ledger.forwards[|vs| - 1] == Entry(Join(ks), vs[0], Update)
      && NormalFlags(s.world.ledger)
  {
    var xs := [Current(w0.tree, ks)] + vs;
    WriteAllReachesConfig(w0, ks, vs);
    ConfigUndoTimes(w0, ks, xs, |vs|, |vs|, 0);
    assert xs[..0] == [];
    assert Updates(Join(ks), []) == [];
    LookupPut(w0.tree, ks, xs[0]);
    if Lookup(w0.tree, ks).Some? {
      PutSame(w0.tree, ks, xs[0]);
    }
  }

  /** ... and `redo(N)` after that gives back exactly the state the assignments left. */
  lemma RedoAllReapplies(w0: World, ks: Keys, vs: seq<Value>)
    requires Ready(w0, ks) && |vs| >= 1
    requires |w0.ledger.backwards| + |vs| <= w0.ledger.maxLength
    ensures var u := UndoTimes(WriteAll(w0, ks, vs), |vs|);
      RedoTimes(u.world, |vs|) == Step(WriteAll(w0, ks, vs), Done)
  {
    var xs := [Current(w0.tree, ks)] + vs;
    WriteAllReachesConfig(w0, ks, vs);
    ConfigUndoTimes(w0, ks, xs, |vs|, |vs|, 0);
    ConfigRedoTimes(w0, ks, xs, 0, |vs|, |vs|);
  }

  /** Part-way: `k` undos after `N` assignments leave the slot holding the value it
      had before the last `k` of them, and `k` redos then give back the final state. */
  lemma UndoSomeRedoSome(w0: World, ks: Keys, vs: seq<Value>, k: nat)
    requires Ready(w0, ks) && 1 <= k <= |vs|
    requires |w0.ledger.backwards| + |vs| <= w0.ledger.maxLength
    ensures var u := UndoTimes(WriteAll(w0, ks, vs), k);
      && u.outcome == Done
      && Lookup(u.world.tree, ks) == Some(([Current(w0.tree, ks)] + vs)[|vs| - k])
      && RedoTimes(u.world, k) == Step(WriteAll(w0, ks, vs), Done)
  {
    var xs := [Current(w0.tree, ks)] + vs;
    WriteAllReachesConfig(w0, ks, vs);
    ConfigUndoTimes(w0, ks, xs, |vs|, k, |vs| - k);
    ConfigRedoTimes(w0, ks, xs, |vs| - k, k, |vs|);
    LookupPut(w0.tree, ks, xs[|vs| - k]);
  }
}
