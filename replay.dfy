/** The undo/redo executor: `undo` and `redo` pop an entry from one stack, replay it
    against the tree with recording bypassed, and push its inverse onto the other
    stack; `define` and `remove` are the helpers the replay calls. Each is a function
    from the state before to the state after and what the call ended with, so that a
    call that throws half-way shows exactly the state it leaves behind. */
module Replay {
  import opened Values
  import opened Paths
  import opened Ledger

  /** Everything the replay reads and changes: the observed tree, the ledger of its
      root, and the slots that carry an interceptor. */
  datatype World = World(tree: Value, ledger: LedgerState, tracked: set<Keys>)

  /** The slot `t` is `ks` itself or lies below it. */
  predicate Under(ks: Keys, t: Keys) {
    |ks| <= |t| && t[..|ks|] == ks
  }

  /** The intercepted slots once the value held by the slot `ks` has been replaced.
      An interceptor is an accessor on the object that holds its slot, so those on the
      objects of the replaced value are out of the tree with it, while the one on `ks`
      itself, which lives on the parent, stays. */
  function Replaced(tracked: set<Keys>, ks: Keys): set<Keys> {
    set t | t in tracked && (t == ks || !Under(ks, t))
  }

  /** The intercepted slots once the slot `ks` has been deleted: its own interceptor
      goes with the property, and those below it with the value. */
  function Deleted(tracked: set<Keys>, ks: Keys): set<Keys> {
    set t | t in tracked && !Under(ks, t)
  }

  /** No intercepted slot lies strictly below `ks`. */
  predicate NothingBelow(tracked: set<Keys>, ks: Keys) {
    forall t :: t in tracked && Under(ks, t) ==> t == ks
  }

  /** Replacing a value keeps exactly the slot itself and the slots off it; doing it
      again changes nothing more; it changes nothing at all exactly when no
      intercepted slot lies below; and deleting the slot drops the slot as well. */
  lemma ReplacedSlots(tracked: set<Keys>, ks: Keys, t: Keys)
    ensures t in Replaced(tracked, ks) <==> t in tracked && (t == ks || !Under(ks, t))
    ensures t in Deleted(tracked, ks) <==> t in tracked && !Under(ks, t)
    ensures Replaced(Replaced(tracked, ks), ks) == Replaced(tracked, ks)
    ensures Replaced(tracked, ks) == tracked <==> NothingBelow(tracked, ks)
    ensures Deleted(tracked, ks) == Replaced(tracked, ks) - {ks}
  {
    if Replaced(tracked, ks) == tracked {
      forall u | u in tracked && Under(ks, u)
        ensures u == ks
      {
        assert u in Replaced(tracked, ks);
      }
    }
  }

  /** How a call ended: normally, or with an exception. */
  datatype Outcome = Done | Threw(error: Error)

  datatype Step = Step(world: World, outcome: Outcome)

  /** The flags outside a replay: forward stack emptied on record, recording on. */
  predicate NormalFlags(l: LedgerState) {
    l.emptyOnSet && !l.bypassRecording
  }

  /** The start of a replay: recording bypassed, forward stack kept. */
  function Suspended(l: LedgerState): LedgerState {
    l.(bypassRecording := true, emptyOnSet := false)
  }

  /** The end of a replay sets the flags to these values, whatever they were before. */
  function Resumed(l: LedgerState): LedgerState {
    l.(emptyOnSet := true, bypassRecording := false)
  }

  /** The first two lines of `define`: the tree with the path set, creating what is
      missing, when the path reads as `undefined`; the tree as it was when the path
      reads as anything else; or the `TypeError` those lines throw. */
  function DefinedTree(t: Value, path: string, value: Value): (r: Result<Value>)
    ensures r.Err? ==> r.error == TypeError
    ensures DeepGet(t, Segs(path)).Ok? && DeepGet(t, Segs(path)).value != Undefined ==> r == Ok(t)
    ensures Settable(t, Segs(path)) && DeepGet(t, Segs(path)) == Ok(Undefined) ==>
      r.Ok? && DeepGet(r.value, Segs(path)) == Ok(value)
  {
    var p := Segs(path);
    match DeepGet(t, p)
    case Err(e) => Err(e)
    case Ok(cur) =>
      if cur != Undefined then Ok(t)
      else if Settable(t, p) then SetThenGet(t, p, value); DeepSet(t, p, value, true)
      else DeepSet(t, p, value, true)
  }

  /** `define(path, value)` on the root: sets the path as `DefinedTree` says; records an
      `add` entry; and then calls `historyObject.config.observe`, which the
      configuration object does not have, so the call always ends with a `TypeError`. */
  function Define(w: World, path: string, value: Value): (s: Step)
    ensures s.outcome.Threw?
    ensures s.world.tracked == w.tracked
    ensures w.ledger.bypassRecording ==> s.world.ledger == w.ledger
  {
    match DefinedTree(w.tree, path, value)
    case Err(e) => Step(w, Threw(e))
    case Ok(t) =>
      Step(w.(tree := t, ledger := Recorded(w.ledger, path, value, Some(Add))), Threw(TypeError))
  }

  /** `remove(obj, path, key)`, where `obj`, when it is a container, is the one held by
      the slot `at`: records a `delete` entry with `obj[key]`, then deletes the key and
      with it the interceptor it may carry. Deleting from another primitive does
      nothing; reading from `null` or `undefined` throws before anything is recorded. */
  function Remove(w: World, obj: Value, at: Keys, path: string, key: string): (s: Step)
    requires obj.IsContainer() ==> Lookup(w.tree, at) == Some(obj)
    ensures s.outcome.Threw? <==> obj.IsNullish()
    ensures s.outcome.Threw? ==> s.world == w
    ensures w.ledger.bypassRecording ==> s.world.ledger == w.ledger
    ensures s.world.tracked <= w.tracked
  {
    match ReadKey(obj, key)
    case Err(e) => Step(w, Threw(e))
    case Ok(was) =>
      var l := Recorded(w.ledger, path, was, Some(Delete));
      if obj.IsContainer() then
        Step(World(Erase(w.tree, at + [key]), l, Deleted(w.tracked, at + [key])), Done)
      else
        Step(w.(ledger := l), Done)
  }

  /** The removal `undo` performs for an `add` entry and `redo` for a `delete` one: the
      parent is what `deepGet` finds at the path without its last piece, joined again. */
  function RemoveByPath(w: World, path: string): (s: Step)
    ensures s.outcome.Threw? ==> s.world == w
    ensures w.ledger.bypassRecording ==> s.world.ledger == w.ledger
    ensures s.world.tracked <= w.tracked
  {
    var parts := Split(path);
    var parent := Join(parts[..|parts| - 1]);
    GetContainerResolves(w.tree, Segs(parent));
    match DeepGet(w.tree, Segs(parent))
    case Err(e) => Step(w, Threw(e))
    case Ok(obj) => Remove(w, obj, Split(parent), path, parts[|parts| - 1])
  }

  function PushForward(w: World, e: Entry): World {
    w.(ledger := w.ledger.(forwards := w.ledger.forwards + [e]))
  }

  function PushBackward(w: World, e: Entry): World {
    w.(ledger := w.ledger.(backwards := w.ledger.backwards + [e]))
  }

  /** `undo(store)`. An empty backward stack makes it a no-op. Otherwise it suspends
      recording, pops the newest backward entry and replays it. A `delete` entry is
      defined again, and since `define` always throws, its forward entry is never
      pushed and the flags are left suspended. An `add` entry is removed again. An
      `update` entry pushes the value the path holds now and then sets the path to the
      entry's value. A replay that ends normally resets the two flags. */
  function Undo(w: World): (s: Step)
    ensures |w.ledger.backwards| > 0 ==>
      s.world.ledger.backwards == w.ledger.backwards[..|w.ledger.backwards| - 1]
    ensures |s.world.ledger.forwards| <= |w.ledger.forwards| + 1
    ensures s.world.ledger.maxLength == w.ledger.maxLength
  {
    var back := w.ledger.backwards;
    if |back| == 0 then Step(w, Done)
    else
      var e := back[|back| - 1];
      var w1 := w.(ledger := Suspended(w.ledger).(backwards := back[..|back| - 1]));
      match e.kind
      case Delete => Define(w1, e.path, e.value)
      case Add =>
        var r := RemoveByPath(w1, e.path);
        if r.outcome.Threw? then r
        else
          var w2 := PushForward(r.world, Entry(e.path, e.value, Add));
          Step(w2.(ledger := Resumed(w2.ledger)), Done)
      case Update =>
        match DeepGet(w1.tree, Segs(e.path))
        case Err(err) => Step(w1, Threw(err))
        case Ok(cur) =>
          var w2 := PushForward(w1, Entry(e.path, cur, Update));
          match DeepSet(w2.tree, Segs(e.path), e.value, true)
          case Err(err) => Step(w2, Threw(err))
          case Ok(t) =>
            Step(w2.(tree := t, ledger := Resumed(w2.ledger), tracked := Replaced(w2.tracked, Split(e.path))), Done)
  }

  /** `redo(store)`: `undo` with the stacks swapped. A `delete` entry is removed
      again; an `add` entry is defined again, which throws. */
  function Redo(w: World): (s: Step)
    ensures |w.ledger.forwards| > 0 ==>
      s.world.ledger.forwards == w.ledger.forwards[..|w.ledger.forwards| - 1]
    ensures |s.world.ledger.backwards| <= |w.ledger.backwards| + 1
    ensures s.world.ledger.maxLength == w.ledger.maxLength
  {
    var fwd := w.ledger.forwards;
    if |fwd| == 0 then Step(w, Done)
    else
      var e := fwd[|fwd| - 1];
      var w1 := w.(ledger := Suspended(w.ledger).(forwards := fwd[..|fwd| - 1]));
      match e.kind
      case Add => Define(w1, e.path, e.value)
      case Delete =>
        var r := RemoveByPath(w1, e.path);
        if r.outcome.Threw? then r
        else
          var w2 := PushBackward(r.world, Entry(e.path, e.value, Delete));
          Step(w2.(ledger := Resumed(w2.ledger)), Done)
      case Update =>
        match DeepGet(w1.tree, Segs(e.path))
        case Err(err) => Step(w1, Threw(err))
        case Ok(cur) =>
          var w2 := PushBackward(w1, Entry(e.path, cur, Update));
          match DeepSet(w2.tree, Segs(e.path), e.value, true)
          case Err(err) => Step(w2, Threw(err))
          case Ok(t) =>
            Step(w2.(tree := t, ledger := Resumed(w2.ledger), tracked := Replaced(w2.tracked, Split(e.path))), Done)
  }

  /** The root's `undo(n)`: `undo` `n` times, stopping at the first that throws. */
  function UndoTimes(w: World, n: nat): (s: Step)
    decreases n, 0
  {
    if n == 0 then Step(w, Done) else UndoThen(Undo(w), n - 1)
  }

  /** What is left of `undo(n)` after one `undo` gave `s`. */
  function UndoThen(s: Step, n: nat): Step
    decreases n, 1
  {
    if s.outcome.Threw? then s else UndoTimes(s.world, n)
  }

  /** The root's `redo(n)`. */
  function RedoTimes(w: World, n: nat): (s: Step)
    decreases n, 0
  {
    if n == 0 then Step(w, Done) else RedoThen(Redo(w), n - 1)
  }

  /** What is left of `redo(n)` after one `redo` gave `s`. */
  function RedoThen(s: Step, n: nat): Step
    decreases n, 1
  {
    if s.outcome.Threw? then s else RedoTimes(s.world, n)
  }

  /** An assignment to the slot `ks` through the interceptor installed on it: the old
      value is recorded (typed `update` by `record`) before the new one is committed,
      and the interceptors on the old value's objects go with it. */
  function Write(w: World, ks: Keys, v: Value): (r: World)
    requires HasParent(w.tree, ks)
    ensures Lookup(r.tree, ks) == Some(v)
    ensures r.tracked <= w.tracked && (ks in r.tracked <==> ks in w.tracked)
  {
    LookupPut(w.tree, ks, v);
    w.(tree := Put(w.tree, ks, v), ledger := Recorded(w.ledger, Join(ks), Current(w.tree, ks), None),
       tracked := Replaced(w.tracked, ks))
  }

  /** An assignment to the slot `ks`: recorded when the slot is tracked, plain otherwise. */
  function Assigned(w: World, ks: Keys, v: Value): (r: World)
    requires HasParent(w.tree, ks)
    ensures Lookup(r.tree, ks) == Some(v)
    ensures r.tracked <= w.tracked && (ks in r.tracked <==> ks in w.tracked)
  {
    LookupPut(w.tree, ks, v);
    if ks in w.tracked then Write(w, ks, v)
    else w.(tree := Put(w.tree, ks, v), tracked := Replaced(w.tracked, ks))
  }

  // ---------------------------------------------------------------------------------
  // Properties of the replay

  /** An empty stack makes `undo` or `redo` a no-op: tree, stacks and flags stay. */
  lemma EmptyStacksAreNoOps(w: World, n: nat)
    ensures |w.ledger.backwards| == 0 ==> Undo(w) == Step(w, Done) && UndoTimes(w, n) == Step(w, Done)
    ensures |w.ledger.forwards| == 0 ==> Redo(w) == Step(w, Done) && RedoTimes(w, n) == Step(w, Done)
    decreases n
  {
    if n > 0 {
      EmptyStacksAreNoOps(w, n - 1);
    }
  }

  /** Undoing an `update` entry whose slot has a containing object pops the entry,
      pushes exactly the slot's present value onto the forward stack, sets the slot to
      the entry's value, records nothing, and leaves the flags reset. */
  lemma UndoUpdate(w: World)
    requires |w.ledger.backwards| >= 1
    requires var e := w.ledger.backwards[|w.ledger.backwards| - 1];
      e.kind == Update && HasParent(w.tree, Split(e.path))
    ensures var back := w.ledger.backwards;
      var e := back[|back| - 1];
      var ks := Split(e.path);
      Undo(w) == Step(World(
        Put(w.tree, ks, e.value),
        Resumed(w.ledger.(backwards := back[..|back| - 1],
                          forwards := w.ledger.forwards + [Entry(e.path, Current(w.tree, ks), Update)])),
        Replaced(w.tracked, ks)), Done)
  {
    var e := w.ledger.backwards[|w.ledger.backwards| - 1];
    GetReadsSlot(w.tree, Segs(e.path));
    SetFollowsPut(w.tree, Segs(e.path), e.value, true);
  }

  /** `redo` of an `update` entry, the mirror image. */
  lemma RedoUpdate(w: World)
    requires |w.ledger.forwards| >= 1
    requires var e := w.ledger.forwards[|w.ledger.forwards| - 1];
      e.kind == Update && HasParent(w.tree, Split(e.path))
    ensures var fwd := w.ledger.forwards;
      var e := fwd[|fwd| - 1];
      var ks := Split(e.path);
      Redo(w) == Step(World(
        Put(w.tree, ks, e.value),
        Resumed(w.ledger.(forwards := fwd[..|fwd| - 1],
                          backwards := w.ledger.backwards + [Entry(e.path, Current(w.tree, ks), Update)])),
        Replaced(w.tracked, ks)), Done)
  {
    var e := w.ledger.forwards[|w.ledger.forwards| - 1];
    GetReadsSlot(w.tree, Segs(e.path));
    SetFollowsPut(w.tree, Segs(e.path), e.value, true);
  }

  /** Undo of an `update` on an existing slot followed by redo gives back the state it
      started from: the tree and both stacks (and, outside a replay, the flags), with
      the interceptors below the slot gone with the value undo replaced; so the very
      state when no intercepted slot lies below it. */
  lemma UndoThenRedo(w: World)
    requires NormalFlags(w.ledger) && |w.ledger.backwards| >= 1
    requires var e := w.ledger.backwards[|w.ledger.backwards| - 1];
      e.kind == Update && Lookup(w.tree, Split(e.path)).Some? && HasParent(w.tree, Split(e.path))
    ensures var ks := Split(w.ledger.backwards[|w.ledger.backwards| - 1].path);
      && Undo(w).outcome == Done
      && Redo(Undo(w).world) == Step(w.(tracked := Replaced(w.tracked, ks)), Done)
      && (NothingBelow(w.tracked, ks) ==> Redo(Undo(w).world) == Step(w, Done))
  {
    var back := w.ledger.backwards;
    var e := back[|back| - 1];
    var ks := Split(e.path);
    UndoUpdate(w);
    var w1 := Undo(w).world;
    assert HasParent(w1.tree, ks) by {
      PutElsewhereParent(w.tree, ks, e.value);
    }
    RedoUpdate(w1);
    LookupPut(w.tree, ks, e.value);
    PutPut(w.tree, ks, e.value, Current(w.tree, ks));
    PutSame(w.tree, ks, Current(w.tree, ks));
    assert back[..|back| - 1] + [e] == back;
    ReplacedSlots(w.tracked, ks, ks);
  }

  /** Redo of an `update` on an existing slot followed by undo gives back the state it
      started from, in the same sense. */
  lemma RedoThenUndo(w: World)
    requires NormalFlags(w.ledger) && |w.ledger.forwards| >= 1
    requires var e := w.ledger.forwards[|w.ledger.forwards| - 1];
      e.kind == Update && Lookup(w.tree, Split(e.path)).Some? && HasParent(w.tree, Split(e.path))
    ensures var ks := Split(w.ledger.forwards[|w.ledger.forwards| - 1].path);
      && Redo(w).outcome == Done
      && Undo(Redo(w).world) == Step(w.(tracked := Replaced(w.tracked, ks)), Done)
      && (NothingBelow(w.tracked, ks) ==> Undo(Redo(w).world) == Step(w, Done))
  {
    var fwd := w.ledger.forwards;
    var e := fwd[|fwd| - 1];
    var ks := Split(e.path);
    RedoUpdate(w);
    var w1 := Redo(w).world;
    assert HasParent(w1.tree, ks) by {
      PutElsewhereParent(w.tree, ks, e.value);
    }
    UndoUpdate(w1);
    LookupPut(w.tree, ks, e.value);
    PutPut(w.tree, ks, e.value, Current(w.tree, ks));
    PutSame(w.tree, ks, Current(w.tree, ks));
    assert fwd[..|fwd| - 1] + [e] == fwd;
    ReplacedSlots(w.tracked, ks, ks);
  }

  /** Writing a slot keeps the container that holds it. */
  lemma PutElsewhereParent(v: Value, ks: Keys, x: Value)
    requires HasParent(v, ks)
    ensures HasParent(Put(v, ks, x), ks)
  {
    LookupPut(v, ks, x);
    PutKeepsParent(v, ks, x);
  }

  lemma {:induction false} PutKeepsParent(v: Value, ks: Keys, x: Value)
    requires HasParent(v, ks)
    ensures Lookup(Put(v, ks, x), ks[..|ks| - 1]).Some?
    ensures Lookup(Put(v, ks, x), ks[..|ks| - 1]).value.IsContainer()
    decreases |ks|
  {
    if |ks| > 1 {
      assert ks[1..][..|ks[1..]| - 1] == ks[..|ks| - 1][1..];
      PutKeepsParent(v.fields[ks[0]], ks[1..], x);
    }
  }

  /** Undoing a `delete` entry always throws, in `define`: the entry is popped, nothing
      is pushed forward, nothing is recorded, and recording stays bypassed with the
      forward stack kept, so no later write is recorded until a replay that ends
      normally resets the flags. When the slot was settable and read as `undefined`,
      the entry's value is nevertheless back in the tree. */
  lemma UndoDeleteThrows(w: World)
    requires |w.ledger.backwards| >= 1
    requires w.ledger.backwards[|w.ledger.backwards| - 1].kind == Delete
    ensures var back := w.ledger.backwards;
      var e := back[|back| - 1];
      var s := Undo(w);
      && s.outcome.Threw?
      && s.world.ledger == Suspended(w.ledger).(backwards := back[..|back| - 1])
      && s.world.tracked == w.tracked
      && (Settable(w.tree, Segs(e.path)) && DeepGet(w.tree, Segs(e.path)) == Ok(Undefined) ==>
            s.outcome == Threw(TypeError) && DeepGet(s.world.tree, Segs(e.path)) == Ok(e.value))
  {
    var e := w.ledger.backwards[|w.ledger.backwards| - 1];
    if Settable(w.tree, Segs(e.path)) {
      SetThenGet(w.tree, Segs(e.path), e.value);
    }
  }

  /** Redoing an `add` entry always throws in `define`, in the same way. */
  lemma RedoAddThrows(w: World)
    requires |w.ledger.forwards| >= 1
    requires w.ledger.forwards[|w.ledger.forwards| - 1].kind == Add
    ensures var fwd := w.ledger.forwards;
      var e := fwd[|fwd| - 1];
      var s := Redo(w);
      && s.outcome.Threw?
      && s.world.ledger == Suspended(w.ledger).(forwards := fwd[..|fwd| - 1])
      && s.world.tracked == w.tracked
      && (Settable(w.tree, Segs(e.path)) && DeepGet(w.tree, Segs(e.path)) == Ok(Undefined) ==>
            s.outcome == Threw(TypeError) && DeepGet(s.world.tree, Segs(e.path)) == Ok(e.value))
  {
    var e := w.ledger.forwards[|w.ledger.forwards| - 1];
    if Settable(w.tree, Segs(e.path)) {
      SetThenGet(w.tree, Segs(e.path), e.value);
    }
  }

  /** For a path of two pieces or more whose parent object exists, `remove` by path
      deletes the slot and its interceptor and, outside a bypass, records the value
      the slot held as a `delete` entry. The interceptors below the slot go with it. */
  lemma RemoveByPathDeletes(w: World, path: string)
    requires |Split(path)| >= 2 && HasParent(w.tree, Split(path))
    ensures var s := RemoveByPath(w, path);
      var ks := Split(path);
      && s.outcome == Done
      && s.world.tree == Erase(w.tree, ks)
      && Lookup(s.world.tree, ks) == None
      && s.world.tracked == Deleted(w.tracked, ks)
      && s.world.ledger == Recorded(w.ledger, path, Current(w.tree, ks), Some(Delete))
  {
    var ks := Split(path);
    ParentResolves(w.tree, path);
    LookupErase(w.tree, ks);
  }

  /** The parent path of a path of two pieces or more, whose parent slot holds a
      container, reads as that container, and the slot is its property. */
  lemma ParentResolves(v: Value, path: string)
    requires |Split(path)| >= 2 && HasParent(v, Split(path))
    ensures var ks := Split(path);
      var pre := ks[..|ks| - 1];
      var c := Lookup(v, pre).value;
      && Split(Join(pre)) == pre
      && DeepGet(v, Segs(Join(pre))) == Ok(c)
      && c.IsContainer()
      && pre + [ks[|ks| - 1]] == ks
      && Current(v, ks) == Read(c, ks[|ks| - 1])
  {
    ParentReads(v, path);
    SlotOfParent(v, Split(path));
  }

  lemma ParentReads(v: Value, path: string)
    requires |Split(path)| >= 2 && HasParent(v, Split(path))
    ensures var pre := Split(path)[..|Split(path)| - 1];
      && Split(Join(pre)) == pre
      && DeepGet(v, Segs(Join(pre))) == Ok(Lookup(v, pre).value)
  {
    var ks := Split(path);
    var pre := ks[..|ks| - 1];
    ParentPath(path);
    assert KeysOf(Segs(Join(pre))) == pre;
    GetFollowsLookup(v, Segs(Join(pre)), Lookup(v, pre).value);
  }

  lemma SlotOfParent(v: Value, ks: Keys)
    requires HasParent(v, ks)
    ensures var pre := ks[..|ks| - 1];
      && Lookup(v, pre).value.IsContainer()
      && pre + [ks[|ks| - 1]] == ks
      && Current(v, ks) == Read(Lookup(v, pre).value, ks[|ks| - 1])
  {
    assert ks[..|ks| - 1] + [ks[|ks| - 1]] == ks;
    LookupThroughParent(v, ks);
  }

  lemma {:induction false} LookupThroughParent(v: Value, ks: Keys)
    requires HasParent(v, ks)
    ensures var c := Lookup(v, ks[..|ks| - 1]).value;
      Lookup(v, ks) == (if ks[|ks| - 1] in c.fields then Some(c.fields[ks[|ks| - 1]]) else None)
    decreases |ks|
  {
    if |ks| > 1 {
      assert ks[1..][..|ks[1..]| - 1] == ks[..|ks| - 1][1..];
      LookupThroughParent(v.fields[ks[0]], ks[1..]);
    }
  }

  /** Undoing an `add` entry of two pieces or more deletes what it added and moves the
      entry to the forward stack, recording nothing. */
  lemma UndoAdd(w: World)
    requires |w.ledger.backwards| >= 1
    requires var e := w.ledger.backwards[|w.ledger.backwards| - 1];
      e.kind == Add && |Split(e.path)| >= 2 && HasParent(w.tree, Split(e.path))
    ensures var back := w.ledger.backwards;
      var e := back[|back| - 1];
      Undo(w) == Step(World(
        Erase(w.tree, Split(e.path)),
        Resumed(w.ledger.(backwards := back[..|back| - 1], forwards := w.ledger.forwards + [e])),
        Deleted(w.tracked, Split(e.path))), Done)
  {
    var back := w.ledger.backwards;
    var e := back[|back| - 1];
    var w1 := w.(ledger := Suspended(w.ledger).(backwards := back[..|back| - 1]));
    RemoveByPathDeletes(w1, e.path);
  }

  /** Redoing a `delete` entry of two pieces or more deletes the slot again and moves
      the entry to the backward stack, recording nothing. */
  lemma RedoDelete(w: World)
    requires |w.ledger.forwards| >= 1
    requires var e := w.ledger.forwards[|w.ledger.forwards| - 1];
      e.kind == Delete && |Split(e.path)| >= 2 && HasParent(w.tree, Split(e.path))
    ensures var fwd := w.ledger.forwards;
      var e := fwd[|fwd| - 1];
      Redo(w) == Step(World(
        Erase(w.tree, Split(e.path)),
        Resumed(w.ledger.(forwards := fwd[..|fwd| - 1], backwards := w.ledger.backwards + [e])),
        Deleted(w.tracked, Split(e.path))), Done)
  {
    var fwd := w.ledger.forwards;
    var e := fwd[|fwd| - 1];
    var w1 := w.(ledger := Suspended(w.ledger).(forwards := fwd[..|fwd| - 1]));
    RemoveByPathDeletes(w1, e.path);
  }

  /** A one-piece `add` path such as `"x"` has the parent path `""`, which names the
      key `""` of the root rather than the root: on a root without that key the
      parent reads as `undefined`, and reading the key from it throws. The entry is
      gone and recording stays bypassed. */
  lemma UndoAddSinglePiece(w: World)
    requires |w.ledger.backwards| >= 1
    requires var e := w.ledger.backwards[|w.ledger.backwards| - 1];
      e.kind == Add && |Split(e.path)| == 1
    requires w.tree.IsContainer() && "" !in w.tree.fields
    ensures var back := w.ledger.backwards;
      Undo(w) == Step(w.(ledger := Suspended(w.ledger).(backwards := back[..|back| - 1])), Threw(TypeError))
  {
    var e := w.ledger.backwards[|w.ledger.backwards| - 1];
    ParentPath(e.path);
    assert Segs("") == [Name("")];
  }

  /** Redoing a one-piece `delete` entry goes wrong in the same way: the parent path
      `""` reads as `undefined` on a root without the key `""`, and the removal throws
      with the entry gone and recording bypassed. */
  lemma RedoDeleteSinglePiece(w: World)
    requires |w.ledger.forwards| >= 1
    requires var e := w.ledger.forwards[|w.ledger.forwards| - 1];
      e.kind == Delete && |Split(e.path)| == 1
    requires w.tree.IsContainer() && "" !in w.tree.fields
    ensures var fwd := w.ledger.forwards;
      Redo(w) == Step(w.(ledger := Suspended(w.ledger).(forwards := fwd[..|fwd| - 1])), Threw(TypeError))
  {
    var e := w.ledger.forwards[|w.ledger.forwards| - 1];
    ParentPath(e.path);
    assert Segs("") == [Name("")];
  }

  /** `remove` reads the value before it deletes the key: outside a bypass the newest
      backward entry is a `delete` entry holding what the slot held, and the slot is
      gone afterwards. */
  lemma RemoveRecordsBeforeDeleting(w: World, at: Keys, path: string, key: string)
    requires Lookup(w.tree, at).Some? && Lookup(w.tree, at).value.IsContainer()
    requires !w.ledger.bypassRecording && w.ledger.maxLength >= 1
    ensures var s := Remove(w, Lookup(w.tree, at).value, at, path, key);
      var back := s.world.ledger.backwards;
      && s.outcome == Done
      && |back| >= 1 && back[|back| - 1] == Entry(path, Current(w.tree, at + [key]), Delete)
      && Lookup(s.world.tree, at + [key]) == None
      && at + [key] !in s.world.tracked
  {
    var ks := at + [key];
    assert ks[..|ks| - 1] == at;
    LookupErase(w.tree, ks);
    LookupThroughParent(w.tree, ks);
  }

  /** `define` records an `add` entry even when the path already held a value and it
      set nothing; it always throws. */
  lemma DefineRecordsAdd(w: World, path: string, value: Value)
    requires !w.ledger.bypassRecording && w.ledger.maxLength >= 1
    requires DeepGet(w.tree, Segs(path)).Ok?
    requires DeepGet(w.tree, Segs(path)).value != Undefined
    ensures var s := Define(w, path, value);
      var back := s.world.ledger.backwards;
      && s.outcome == Threw(TypeError)
      && s.world.tree == w.tree
      && |back| >= 1 && back[|back| - 1] == Entry(path, value, Add)
  {
  }

  /** When the path is settable and reads as `undefined`, `define` puts the value at
      the path, records an `add` entry with it as any record would, and throws only
      afterwards, in the call to `observe`. */
  lemma DefineSetsAndRecords(w: World, path: string, value: Value)
    requires Settable(w.tree, Segs(path)) && DeepGet(w.tree, Segs(path)) == Ok(Undefined)
    ensures var s := Define(w, path, value);
      && s.outcome == Threw(TypeError)
      && DeepGet(s.world.tree, Segs(path)) == Ok(value)
      && s.world.ledger == Recorded(w.ledger, path, value, Some(Add))
      && s.world.tracked == w.tracked
  {
    SetThenGet(w.tree, Segs(path), value);
  }

  /** An assignment through an interceptor records the old value as an `update` entry
      on top of the backward stack, commits the new value, and leaves every slot off
      its chain as it was. */
  lemma WriteRecordsOldValue(w: World, ks: Keys, v: Value, js: Keys)
    requires HasParent(w.tree, ks) && !w.ledger.bypassRecording && w.ledger.maxLength >= 1
    ensures var w1 := Write(w, ks, v);
      var back := w1.ledger.backwards;
      && |back| >= 1 && back[|back| - 1] == Entry(Join(ks), Current(w.tree, ks), Update)
      && Lookup(w1.tree, ks) == Some(v)
      && (Diverge(ks, js) ==> Lookup(w1.tree, js) == Lookup(w.tree, js))
      && (w.ledger.emptyOnSet ==> w1.ledger.forwards == [])
  {
    LookupPut(w.tree, ks, v);
    if Diverge(ks, js) {
      PutElsewhere(w.tree, ks, js, v);
    }
  }

  /** Branch discard: after an update outside a replay there is nothing to redo. */
  lemma WriteDiscardsRedo(w: World, ks: Keys, v: Value)
    requires HasParent(w.tree, ks) && NormalFlags(w.ledger)
    ensures Redo(Write(w, ks, v)) == Step(Write(w, ks, v), Done)
  {
  }

  /** A write to a slot that is not tracked records nothing. */
  lemma UntrackedWriteRecordsNothing(w: World, ks: Keys, v: Value)
    requires HasParent(w.tree, ks) && ks !in w.tracked
    ensures Assigned(w, ks, v).ledger == w.ledger
    ensures Lookup(Assigned(w, ks, v).tree, ks) == Some(v)
  {
    LookupPut(w.tree, ks, v);
  }

  /** Every `undo` pops one entry, whether it ends normally or throws, and pushes
      nothing backward, so `n` of them leave between `n` fewer entries and as many as
      before, and as many as there were entries empty the backward stack when none
      throws; from then on `undo` is a no-op. `maxLength` never changes. */
  lemma {:induction false} UndoTimesDrains(w: World, n: nat)
    ensures |w.ledger.backwards| - n <= |UndoTimes(w, n).world.ledger.backwards| <= |w.ledger.backwards|
    ensures UndoTimes(w, n).world.ledger.maxLength == w.ledger.maxLength
    ensures UndoTimes(w, n).outcome == Done && n >= |w.ledger.backwards| ==>
      UndoTimes(w, n).world.ledger.backwards == []
    decreases n
  {
    if n > 0 && |w.ledger.backwards| > 0 {
      var s := Undo(w);
      if s.outcome.Done? {
        assert UndoTimes(w, n) == UndoTimes(s.world, n - 1);
        UndoTimesDrains(s.world, n - 1);
      } else {
        assert UndoTimes(w, n) == s;
      }
    } else if n > 0 {
      EmptyStacksAreNoOps(w, n);
    }
  }

  /** The mirror image for `redo(n)` and the forward stack. */
  lemma {:induction false} RedoTimesDrains(w: World, n: nat)
    ensures |w.ledger.forwards| - n <= |RedoTimes(w, n).world.ledger.forwards| <= |w.ledger.forwards|
    ensures RedoTimes(w, n).world.ledger.maxLength == w.ledger.maxLength
    ensures RedoTimes(w, n).outcome == Done && n >= |w.ledger.forwards| ==>
      RedoTimes(w, n).world.ledger.forwards == []
    decreases n
  {
    if n > 0 && |w.ledger.forwards| > 0 {
      var s := Redo(w);
      if s.outcome.Done? {
        assert RedoTimes(w, n) == RedoTimes(s.world, n - 1);
        RedoTimesDrains(s.world, n - 1);
      } else {
        assert RedoTimes(w, n) == s;
      }
    } else if n > 0 {
      EmptyStacksAreNoOps(w, n);
    }
  }

  // ---------------------------------------------------------------------------------
  // The bound on the two stacks

  /** The stacks together hold at most `maxLength` entries, and a record always
      empties the forward stack unless recording is bypassed: the state a ledger starts
      in and that `undo`, `redo`, recorded assignments, `define` and `remove` keep.
      Since `redo` pushes onto the backward stack without dropping anything, this is
      what keeps the backward stack within `maxLength`. `observe` does not keep it: an
      `undo` of a `delete` entry (or a `redo` of an `add` entry) throws in `define` and
      leaves recording bypassed with `emptyOnSet` off; a later `observe` that installs
      an interceptor switches the bypass off and leaves `emptyOnSet` off, so the
      records that follow keep the forward stack, and a `redo` can then overflow
      (`RedoOverflowsWithoutBound`). */
  predicate Bounded(l: LedgerState) {
    |l.backwards| + |l.forwards| <= l.maxLength && (l.emptyOnSet || l.bypassRecording)
  }

  lemma BoundedRecord(l: LedgerState, path: string, value: Value, kind: Option<Kind>)
    requires Bounded(l)
    ensures Bounded(Recorded(l, path, value, kind))
  {
  }

  lemma UndoKeepsBound(w: World)
    requires Bounded(w.ledger)
    ensures Bounded(Undo(w).world.ledger)
    ensures |Undo(w).world.ledger.backwards| <= w.ledger.maxLength
  {
  }

  lemma RedoKeepsBound(w: World)
    requires Bounded(w.ledger)
    ensures Bounded(Redo(w).world.ledger)
    ensures |Redo(w).world.ledger.backwards| <= w.ledger.maxLength
  {
  }

  lemma AssignedKeepsBound(w: World, ks: Keys, v: Value)
    requires HasParent(w.tree, ks) && Bounded(w.ledger)
    ensures Bounded(Assigned(w, ks, v).ledger)
  {
    BoundedRecord(w.ledger, Join(ks), Current(w.tree, ks), None);
  }

  lemma DefineKeepsBound(w: World, path: string, value: Value)
    requires Bounded(w.ledger)
    ensures Bounded(Define(w, path, value).world.ledger)
  {
    BoundedRecord(w.ledger, path, value, Some(Add));
  }

  lemma RemoveKeepsBound(w: World, obj: Value, at: Keys, path: string, key: string)
    requires obj.IsContainer() ==> Lookup(w.tree, at) == Some(obj)
    requires Bounded(w.ledger)
    ensures Bounded(Remove(w, obj, at, path, key).world.ledger)
  {
    if !obj.IsNullish() {
      BoundedRecord(w.ledger, path, Read(obj, key), Some(Delete));
    }
  }

  /** Recording switched back on without emptying the forward stack is what the bound
      needs to exclude. It is the state reached by an `undo` of a `delete` entry that
      throws in `define` (bypass on, `emptyOnSet` off), then an `observe` that installs
      an interceptor (bypass off, `emptyOnSet` still off), then an intercepted
      assignment, which records without dropping the forward stack. A full backward
      stack and one entry to redo end up one over `maxLength` after the redo. */
  lemma RedoOverflowsWithoutBound()
    ensures var e := Entry("a.b", Null, Update);
      var l := LedgerState([e], [e], 1, false, false);
      var w := World(Obj(map["a" := Obj(map["b" := Null])]), l, {});
      !Bounded(l) && |Redo(w).world.ledger.backwards| == 2 > l.maxLength
  {
    SplitAtFirstDot("a", "b");
    SplitDotless("b");
    var p := Segs("a.b");
    assert p == [Name("a"), Name("b")];
    var t := Obj(map["a" := Obj(map["b" := Null])]);
    assert DeepGet(t, p) == Ok(Null);
    assert DeepSet(t, p, Null, true).Ok?;
  }
}
