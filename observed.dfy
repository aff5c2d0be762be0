/** An observed root object: `observe` puts interceptors on its slots and gives it a
    ledger and the `undo`/`redo` capability methods; assignments through the
    interceptors are recorded; `define`, `remove`, `undo`, `redo` and `unobserve` act
    on it in place. Each method is proved to leave the state the functions of
    `Replay` and `Walk` describe. */
module Observed {
  import opened Values
  import opened Paths
  import opened Whitelist
  import opened Ledger
  import opened Replay
  import opened Walk

  class ObservedRoot {
    /** The object graph below the root, as a value. */
    var tree: Value
    /** `root.__History__`: absent until the first `observe`. */
    var history: History?
    /** The slots that carry an interceptor. */
    var tracked: set<Keys>
    /** `History.prototype.options`, which every ledger shares. */
    const options: Options

    /** A root that has not been observed yet. */
    constructor (tree: Value, options: Options)
      ensures this.tree == tree && history == null && tracked == {} && this.options == options
    {
      this.tree := tree;
      history := null;
      tracked := {};
      this.options := options;
    }

    /** The ledger, once there is one, reads the shared options. */
    predicate Linked()
      reads this, history
    {
      history != null ==> history.options == options
    }

    function Snapshot(): World
      requires history != null
      reads this, history, history.options
    {
      World(tree, history.State(), tracked)
    }

    // -------------------------------------------------------------------------------
    // observe and unobserve

    /** `observe(root, whitelist, extension, deep)`. With `extension`, each whitelist
        path that reads as `undefined` is first pre-created as `null`; a path that
        throws ends the call there. A root that is not an object or an array cannot
        take the hidden properties, so the call throws. Then the ledger is created,
        only if the root has none, and the walk puts an interceptor on every slot it
        takes; installing one records nothing and leaves recording switched on. */
    method Observe(whitelist: seq<string>, extension: bool, deep: bool) returns (outcome: Outcome)
      requires Linked()
      modifies this, options
      ensures Linked()
      ensures options.maxLength == old(options.maxLength) && options.emptyOnSet == old(options.emptyOnSet)
      ensures var ext := if extension then Extend(old(tree), whitelist) else (old(tree), Done);
        && tree == ext.0
        && (ext.1.Threw? || !ext.0.IsContainer() ==>
              && outcome == (if ext.1.Threw? then ext.1 else Threw(TypeError))
              && history == old(history) && tracked == old(tracked)
              && options.bypassRecording == old(options.bypassRecording))
        && (ext.1.Done? && ext.0.IsContainer() ==>
              && outcome == Done
              && history != null
              && (old(history) != null ==> history == old(history))
              && (old(history) == null ==> fresh(history) && history.backwards == [] && history.forwards == [])
              && tracked == old(tracked) + Leaves(tree, [], whitelist, deep)
              && options.bypassRecording ==
                   (if Leaves(tree, [], whitelist, deep) == {} then old(options.bypassRecording) else false))
      ensures old(history) != null ==>
        old(history).backwards == old(history.backwards) && old(history).forwards == old(history.forwards)
    {
      if extension {
        outcome := PreCreateAll(whitelist);
        if outcome.Threw? {
          return;
        }
      }
      if !tree.IsContainer() {
        return Threw(TypeError);
      }
      if history == null {
        history := new History(options);
      }
      Instrument(tree, [], whitelist, deep);
      InstallsIff(tree, [], whitelist, deep);
      outcome := Done;
    }

    /** The extension step of `observe`: each whitelist path that reads as `undefined`
        is set to `null`, creating what is missing; a path that throws ends it there. */
    method PreCreateAll(whitelist: seq<string>) returns (outcome: Outcome)
      modifies this`tree
      ensures (tree, outcome) == Extend(old(tree), whitelist)
    {
      var i := 0;
      while i < |whitelist|
        invariant 0 <= i <= |whitelist|
        invariant Extend(old(tree), whitelist[..i]) == (tree, Done)
        decreases |whitelist| - i
      {
        assert whitelist[..i + 1][..i] == whitelist[..i];
        var got := DeepGet(tree, Segs(whitelist[i]));
        if got.Err? {
          ExtendStops(old(tree), whitelist, i + 1);
          return Threw(got.error);
        }
        if got.value == Undefined {
          var built := DeepSet(tree, Segs(whitelist[i]), Null, true);
          if built.Err? {
            ExtendStops(old(tree), whitelist, i + 1);
            return Threw(built.error);
          }
          tree := built.value;
        }
        i := i + 1;
      }
      assert whitelist[..|whitelist|] == whitelist;
      outcome := Done;
    }

    /** The key walk of `observe` from the node `node` found at the slot `prefix`. */
    method Instrument(node: Value, prefix: Keys, whitelist: seq<string>, deep: bool)
      modifies this`tracked, options`bypassRecording
      ensures tracked == old(tracked) + Leaves(node, prefix, whitelist, deep)
      ensures options.bypassRecording ==
        (old(options.bypassRecording) && !Installs(node, prefix, whitelist, deep))
      decreases node, 2
    {
      if !node.IsContainer() {
        return;
      }
      var rest := node.fields.Keys;
      ghost var done: set<string> := {};
      while rest != {}
        invariant rest + done == node.fields.Keys && rest !! done
        invariant tracked == old(tracked) + LeavesAmong(node, prefix, done, whitelist, deep)
        invariant options.bypassRecording ==
          (old(options.bypassRecording) && !InstallsAmong(node, prefix, done, whitelist, deep))
        decreases rest
      {
        var k :| k in rest;
        InstrumentNext(node, prefix, done, k, whitelist, deep, old(tracked), old(options.bypassRecording));
        rest := rest - {k};
        done := done + {k};
      }
      assert done == node.fields.Keys;
    }

    /** One round of the walk's loop, keeping its invariant. */
    method InstrumentNext(node: Value, prefix: Keys, ghost done: set<string>, k: string,
                          whitelist: seq<string>, deep: bool, ghost tracked0: set<Keys>, ghost bypass0: bool)
      requires node.IsContainer() && k in node.fields
      requires tracked == tracked0 + LeavesAmong(node, prefix, done, whitelist, deep)
      requires options.bypassRecording == (bypass0 && !InstallsAmong(node, prefix, done, whitelist, deep))
      modifies this`tracked, options`bypassRecording
      ensures tracked == tracked0 + LeavesAmong(node, prefix, done + {k}, whitelist, deep)
      ensures options.bypassRecording == (bypass0 && !InstallsAmong(node, prefix, done + {k}, whitelist, deep))
      decreases node, 1
    {
      LeavesAmongAdd(node, prefix, done, k, whitelist, deep);
      InstallsAmongAdd(node, prefix, done, k, whitelist, deep);
      InstrumentKey(node, prefix, k, whitelist, deep);
    }

    /** One key of the walk: a listed key whose value is a container is walked into
        when `deep` holds; any other listed key gets an interceptor, installed with
        recording bypassed around the write-back of its value and switched on after. */
    method InstrumentKey(node: Value, prefix: Keys, k: string, whitelist: seq<string>, deep: bool)
      requires node.IsContainer() && k in node.fields
      modifies this`tracked, options`bypassRecording
      ensures tracked == old(tracked) + Contribution(node, prefix, k, whitelist, deep)
      ensures options.bypassRecording ==
        (old(options.bypassRecording) && !InstallsKey(node, prefix, k, whitelist, deep))
      decreases node, 0
    {
      var listed := IsInList(Join(prefix + [k]), whitelist);
      if listed {
        var value := node.fields[k];
        if value.IsContainer() && deep {
          Instrument(value, prefix + [k], whitelist, deep);
        } else {
          tracked := tracked + {prefix + [k]};
          options.bypassRecording := true;
          options.bypassRecording := false;
        }
      }
    }

    /** `unobserve(root, blacklist)`: every listed slot holding something other than a
        container (containers are always walked into) loses its interceptor and keeps
        its value. Resetting a slot directly under the root also deletes the root's
        ledger and its `undo` and `redo` methods. */
    method Unobserve(blacklist: seq<string>)
      requires Linked()
      modifies this
      ensures Linked() && tree == old(tree)
      ensures tracked == old(tracked) - Leaves(tree, [], blacklist, true)
      ensures history == (if TakesTopLevel(tree, blacklist) then null else old(history))
    {
      Reset(tree, [], blacklist);
    }

    /** The walk of `unobserve` from the node `node` found at the slot `prefix`. */
    method Reset(node: Value, prefix: Keys, blacklist: seq<string>)
      modifies this`tracked, this`history
      ensures tracked == old(tracked) - Leaves(node, prefix, blacklist, true)
      ensures history == (if |prefix| == 0 && TakesTopLevel(node, blacklist) then null else old(history))
      decreases node, 2
    {
      if !node.IsContainer() {
        return;
      }
      var rest := node.fields.Keys;
      ghost var done: set<string> := {};
      while rest != {}
        invariant rest + done == node.fields.Keys && rest !! done
        invariant tracked == old(tracked) - LeavesAmong(node, prefix, done, blacklist, true)
        invariant history == (if |prefix| == 0 && TopLevelAmong(node, done, blacklist) then null else old(history))
        decreases rest
      {
        var k :| k in rest;
        ResetNext(node, prefix, done, k, blacklist, old(tracked), old(history));
        rest := rest - {k};
        done := done + {k};
      }
      assert done == node.fields.Keys;
    }

    /** One round of the walk's loop, keeping its invariant. */
    method ResetNext(node: Value, prefix: Keys, ghost done: set<string>, k: string,
                     blacklist: seq<string>, ghost tracked0: set<Keys>, ghost history0: History?)
      requires node.IsContainer() && k in node.fields
      requires tracked == tracked0 - LeavesAmong(node, prefix, done, blacklist, true)
      requires history == (if |prefix| == 0 && TopLevelAmong(node, done, blacklist) then null else history0)
      modifies this`tracked, this`history
      ensures tracked == tracked0 - LeavesAmong(node, prefix, done + {k}, blacklist, true)
      ensures history == (if |prefix| == 0 && TopLevelAmong(node, done + {k}, blacklist) then null else history0)
      decreases node, 1
    {
      LeavesAmongAdd(node, prefix, done, k, blacklist, true);
      TopLevelAmongAdd(node, done, k, blacklist);
      ResetKey(node, prefix, k, blacklist);
    }

    /** One key of the walk: a listed container is walked into; any other listed slot
        is redefined as a plain property holding its value, and when it sits directly
        under the root the root's ledger is deleted with it. */
    method ResetKey(node: Value, prefix: Keys, k: string, blacklist: seq<string>)
      requires node.IsContainer() && k in node.fields
      modifies this`tracked, this`history
      ensures tracked == old(tracked) - Contribution(node, prefix, k, blacklist, true)
      ensures history == (if |prefix| == 0 && TopLevelKey(node, k, blacklist) then null else old(history))
      decreases node, 0
    {
      var listed := IsInList(Join(prefix + [k]), blacklist);
      var value := node.fields[k];
      if |prefix| == 0 {
        assert Join(prefix + [k]) == k;
      }
      if listed {
        if value.IsContainer() {
          Reset(value, prefix + [k], blacklist);
        } else {
          if |prefix| == 0 {
            history := null;
          }
          tracked := tracked - {prefix + [k]};
        }
      }
    }

    // -------------------------------------------------------------------------------
    // Assignments, define and remove

    /** `parent[key] = v` on the slot `ks`. Through an interceptor the old value is
        recorded first, and with the ledger deleted that call throws before anything
        is written; a slot without one is written plainly. The interceptors on the
        objects of the value replaced are no longer in the tree. */
    method Assign(ks: Keys, v: Value) returns (outcome: Outcome)
      requires Linked() && HasParent(tree, ks)
      modifies this, history
      ensures Linked() && history == old(history)
      ensures history != null ==> outcome == Done && Snapshot() == Assigned(old(Snapshot()), ks, v)
      ensures history == null ==>
        if ks in old(tracked) then outcome == Threw(TypeError) && tree == old(tree) && tracked == old(tracked)
        else outcome == Done && tree == Put(old(tree), ks, v) && tracked == Replaced(old(tracked), ks)
    {
      if ks in tracked {
        if history == null {
          return Threw(TypeError);
        }
        history.Record(Join(ks), Current(tree, ks), None);
      }
      tree := Put(tree, ks, v);
      tracked := Replaced(tracked, ks);
      outcome := Done;
    }

    /** The `define(key, value)` method of the container at the slot `at`. */
    method Define(at: Keys, key: string, value: Value) returns (outcome: Outcome)
      requires Linked()
      requires Lookup(tree, at).Some? && Lookup(tree, at).value.IsContainer()
      modifies this, history
      ensures Linked() && history == old(history)
      ensures old(history) != null ==>
        Step(Snapshot(), outcome) == Replay.Define(old(Snapshot()), Join(at + [key]), value)
      ensures old(history) == null ==>
        && outcome == Threw(TypeError) && tracked == old(tracked)
        && tree == (match DefinedTree(old(tree), Join(at + [key]), value) case Ok(t) => t case Err(_) => old(tree))
    {
      outcome := DefinePath(Join(at + [key]), value);
    }

    /** `define(store, path, value)`. With the ledger deleted, the path is still set
        and the call throws at `record` instead. */
    method DefinePath(path: string, value: Value) returns (outcome: Outcome)
      requires Linked()
      modifies this, history
      ensures Linked() && history == old(history)
      ensures old(history) != null ==>
        Step(Snapshot(), outcome) == Replay.Define(old(Snapshot()), path, value)
      ensures old(history) == null ==>
        && outcome == Threw(TypeError) && tracked == old(tracked)
        && tree == (match DefinedTree(old(tree), path, value) case Ok(t) => t case Err(_) => old(tree))
    {
      var got := DeepGet(tree, Segs(path));
      if got.Err? {
        return Threw(got.error);
      }
      if got.value == Undefined {
        var built := DeepSet(tree, Segs(path), value, true);
        if built.Err? {
          return Threw(built.error);
        }
        tree := built.value;
      }
      if history == null {
        // `store.__History__` is gone, so reading `record` from it throws
        return Threw(TypeError);
      }
      history.Record(path, value, Some(Add));
      // `historyObject.config.observe` is not a function
      outcome := Threw(TypeError);
    }

    /** The `remove(key)` method of the container at the slot `at`. With the ledger
        deleted, reading `record` from it throws before anything is deleted. */
    method Remove(at: Keys, key: string) returns (outcome: Outcome)
      requires Linked()
      requires Lookup(tree, at).Some? && Lookup(tree, at).value.IsContainer()
      modifies this, history
      ensures Linked() && history == old(history)
      ensures old(history) != null ==>
        Step(Snapshot(), outcome) ==
          Replay.Remove(old(Snapshot()), Lookup(old(tree), at).value, at, Join(at + [key]), key)
      ensures old(history) == null ==>
        outcome == Threw(TypeError) && tree == old(tree) && tracked == old(tracked)
    {
      if history == null {
        return Threw(TypeError);
      }
      var obj := Lookup(tree, at).value;
      history.Record(Join(at + [key]), Read(obj, key), Some(Delete));
      tree := Erase(tree, at + [key]);
      tracked := Deleted(tracked, at + [key]);
      outcome := Done;
    }

    /** The removal by path that `undo` and `redo` perform. */
    method RemovePath(path: string) returns (outcome: Outcome)
      requires Linked() && history != null
      modifies this, history
      ensures Linked() && history == old(history)
      ensures Step(Snapshot(), outcome) == RemoveByPath(old(Snapshot()), path)
    {
      ghost var w0 := Snapshot();
      var parts := Split(path);
      var key := parts[|parts| - 1];
      var parent := Join(parts[..|parts| - 1]);
      var got := DeepGet(tree, Segs(parent));
      if got.Err? {
        return Threw(got.error);
      }
      var obj := got.value;
      GetContainerResolves(tree, Segs(parent));
      assert RemoveByPath(w0, path) == Replay.Remove(w0, obj, Split(parent), path, key);
      if obj.IsNullish() {
        return Threw(TypeError);
      }
      ghost var l := Recorded(w0.ledger, path, Read(obj, key), Some(Delete));
      history.Record(path, Read(obj, key), Some(Delete));
      assert history.State() == l;
      if obj.IsContainer() {
        tree := Erase(tree, Split(parent) + [key]);
        tracked := Deleted(tracked, Split(parent) + [key]);
      }
      outcome := Done;
    }

    // -------------------------------------------------------------------------------
    // undo and redo

    /** `root.undo()`: one `undo(store)`; without a ledger the root has no such method. */
    method Undo() returns (outcome: Outcome)
      requires Linked()
      modifies this, history, options
      ensures Linked() && history == old(history)
      ensures old(history) == null ==> outcome == Threw(TypeError) && tree == old(tree)
      ensures old(history) != null ==> Step(Snapshot(), outcome) == Replay.Undo(old(Snapshot()))
    {
      if history == null {
        return Threw(TypeError);
      }
      var h := history;
      if |h.backwards| == 0 {
        return Done;
      }
      ghost var w0 := Snapshot();
      options.bypassRecording := true;
      options.emptyOnSet := false;
      var step := h.backwards[|h.backwards| - 1];
      h.backwards := h.backwards[..|h.backwards| - 1];
      ghost var w1 := Snapshot();
      assert w1 == w0.(ledger := Suspended(w0.ledger).(backwards := w0.ledger.backwards[..|w0.ledger.backwards| - 1]));
      match step.kind {
        case Delete =>
          // `define` always throws, so the forward push after it never runs
          outcome := DefinePath(step.path, step.value);
          return;
        case Add =>
          outcome := RemovePath(step.path);
          if outcome.Threw? {
            return;
          }
          h.forwards := h.forwards + [Entry(step.path, step.value, Add)];
        case Update =>
          var got := DeepGet(tree, Segs(step.path));
          if got.Err? {
            return Threw(got.error);
          }
          h.forwards := h.forwards + [Entry(step.path, got.value, Update)];
          var put := DeepSet(tree, Segs(step.path), step.value, true);
          if put.Err? {
            return Threw(put.error);
          }
          tree := put.value;
          tracked := Replaced(tracked, Split(step.path));
      }
      options.emptyOnSet := true;
      options.bypassRecording := false;
      outcome := Done;
    }

    /** `root.redo()`: one `redo(store)`. */
    method Redo() returns (outcome: Outcome)
      requires Linked()
      modifies this, history, options
      ensures Linked() && history == old(history)
      ensures old(history) == null ==> outcome == Threw(TypeError) && tree == old(tree)
      ensures old(history) != null ==> Step(Snapshot(), outcome) == Replay.Redo(old(Snapshot()))
    {
      if history == null {
        return Threw(TypeError);
      }
      var h := history;
      if |h.forwards| == 0 {
        return Done;
      }
      ghost var w0 := Snapshot();
      options.bypassRecording := true;
      options.emptyOnSet := false;
      var step := h.forwards[|h.forwards| - 1];
      h.forwards := h.forwards[..|h.forwards| - 1];
      ghost var w1 := Snapshot();
      assert w1 == w0.(ledger := Suspended(w0.ledger).(forwards := w0.ledger.forwards[..|w0.ledger.forwards| - 1]));
      match step.kind {
        case Add =>
          // `define` always throws, so the backward push after it never runs
          outcome := DefinePath(step.path, step.value);
          return;
        case Delete =>
          outcome := RemovePath(step.path);
          if outcome.Threw? {
            return;
          }
          h.backwards := h.backwards + [Entry(step.path, step.value, Delete)];
        case Update =>
          var got := DeepGet(tree, Segs(step.path));
          if got.Err? {
            return Threw(got.error);
          }
          h.backwards := h.backwards + [Entry(step.path, got.value, Update)];
          var put := DeepSet(tree, Segs(step.path), step.value, true);
          if put.Err? {
            return Threw(put.error);
          }
          tree := put.value;
          tracked := Replaced(tracked, Split(step.path));
      }
      options.emptyOnSet := true;
      options.bypassRecording := false;
      outcome := Done;
    }

    /** `root.undo(n)`: `while (n--)` one `undo(store)`, an exception ending the loop. */
    method UndoN(n: nat) returns (outcome: Outcome)
      requires Linked()
      modifies this, history, options
      ensures Linked() && history == old(history)
      ensures old(history) == null ==> outcome == Threw(TypeError) && tree == old(tree)
      ensures old(history) != null ==> Step(Snapshot(), outcome) == UndoTimes(old(Snapshot()), n)
    {
      if history == null {
        return Threw(TypeError);
      }
      ghost var start := Snapshot();
      var i := 0;
      while i < n
        invariant 0 <= i <= n
        invariant Linked() && history == old(history) && history != null
        invariant UndoTimes(start, n) == UndoTimes(Snapshot(), n - i)
        decreases n - i
      {
        var o := Undo();
        if o.Threw? {
          return o;
        }
        i := i + 1;
      }
      outcome := Done;
    }

    /** `root.redo(n)`. */
    method RedoN(n: nat) returns (outcome: Outcome)
      requires Linked()
      modifies this, history, options
      ensures Linked() && history == old(history)
      ensures old(history) == null ==> outcome == Threw(TypeError) && tree == old(tree)
      ensures old(history) != null ==> Step(Snapshot(), outcome) == RedoTimes(old(Snapshot()), n)
    {
      if history == null {
        return Threw(TypeError);
      }
      ghost var start := Snapshot();
      var i := 0;
      while i < n
        invariant 0 <= i <= n
        invariant Linked() && history == old(history) && history != null
        invariant RedoTimes(start, n) == RedoTimes(Snapshot(), n - i)
        decreases n - i
      {
        var o := Redo();
        if o.Threw? {
          return o;
        }
        i := i + 1;
      }
      outcome := Done;
    }
  }

  /** The key `k` of the root holds something other than a container and is listed. */
  predicate TopLevelKey(v: Value, k: string, list: seq<string>)
    requires v.IsContainer() && k in v.fields
  {
    !v.fields[k].IsContainer() && Listed(k, list)
  }

  /** Among the keys `done` of the root there is one that `TopLevelKey` holds of. */
  predicate TopLevelAmong(v: Value, done: set<string>, list: seq<string>)
    requires v.IsContainer()
  {
    exists k :: k in done && k in v.fields && TopLevelKey(v, k, list)
  }

  lemma TopLevelAmongAdd(v: Value, done: set<string>, k: string, list: seq<string>)
    requires v.IsContainer() && k in v.fields
    ensures TopLevelAmong(v, done + {k}, list) <==> TopLevelAmong(v, done, list) || TopLevelKey(v, k, list)
    ensures TopLevelAmong(v, v.fields.Keys, list) <==> TakesTopLevel(v, list)
  {
  }

  /** An extension step that has thrown stays thrown over the rest of the whitelist. */
  lemma {:induction false} ExtendStops(v: Value, paths: seq<string>, i: nat)
    requires i <= |paths| && Extend(v, paths[..i]).1.Threw?
    ensures Extend(v, paths) == Extend(v, paths[..i])
    decreases |paths|
  {
    if i < |paths| {
      assert paths[..|paths| - 1][..i] == paths[..i];
      ExtendStops(v, paths[..|paths| - 1], i);
    } else {
      assert paths[..i] == paths;
    }
  }
}
