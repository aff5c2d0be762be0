# history-object in Dafny

This is a model of the core of `history-object`, a JavaScript library that adds undo
and redo to a plain object tree. `observe(root, whitelist, extension, deep)` walks the
tree. On every leaf field whose dotted path matches the whitelist it puts an
interceptor. From then on, an assignment to that field first records the field's old
value in a ledger kept on the root, and then writes the new value. `undo()` and
`redo()` replay the recorded entries in both directions, `define` adds a field, and
`remove` deletes one. `unobserve(root, blacklist)` takes interceptors away again.

The model has nine modules:

- `Values`: the tree as a datatype, with objects and arrays as maps from property key
  to value. Also the slot-level view (`Lookup`, `Put`, `Erase`) through which the
  in-place writes of the library are stated.
- `Paths`: the dotted path strings and the `fixNumber` conversion. It also holds the
  tolerant read `deepGet` and the building write `deepSet`, with JavaScript's
  behaviour on `null`, `undefined` and other primitives written out.
- `Whitelist`: the bidirectional substring test `isInList`. It is a method with the
  source's counting loop, proved against a predicate.
- `Ledger`: the `History` class with its two stacks and `record`. The shared
  `History.prototype.options` object is modelled as an `Options` class that every
  ledger points to.
- `Replay`: `undo`, `redo`, `undo(n)`, `redo(n)`, `define`, `remove` and an
  intercepted assignment, as functions from one state of the tree and its ledger to
  the next, together with what the call ended with.
- `Walk`: what `observe` and `unobserve` compute before touching anything. That is
  the extension step's pre-creations and the set of slots the key walk reaches.
- `Observed`: the observed root as a class whose methods change the tree, the ledger
  and the set of intercepted slots in place. Each is proved to leave the state the
  functions of `Replay` and `Walk` describe.
- `RoundTrip` and `Scenarios`: what a run of several calls does. It includes undoing
  `N` tracked assignments and redoing them, and the add/undo and delete/undo
  scenarios worked through on concrete trees.

Interceptors are abstracted as the set of slots (key chains from the root) that carry
one. An interceptor is an accessor on the object that holds its slot, so a write that
replaces a value, and a deletion, take away every interceptor below that slot. The module is not in strict mode, so a write to a property of a number or a
string is silently dropped. Reading or writing a property of `null` or `undefined`
throws a `TypeError`, which the model carries as an outcome.

Some of the code's behaviour departs from what its names and comments suggest; the model
follows the code:

- `define` (src/history.js:211-221) ends by calling `historyObject.config.observe`,
  which the configuration object (src/history.js:233-242) does not have. Every
  `define` therefore throws a `TypeError` after it has set the path and recorded its
  `add` entry. This means:
  - undoing a `delete` entry and redoing an `add` entry throw before the inverse entry
    is pushed;
  - in those cases the flags are left with recording bypassed and the forward stack
    kept.

  `Scenarios.AddUndoRedo` works through defining `5` at path `a.b` on `{}`,
  undoing that `add` and redoing it. `Scenarios.DeleteUndo` works through removing `x`
  from `{x: 1}` and undoing the `delete`. In both, every step leaves the tree as its
  entry says, but the step that calls `define` (the redo of the `add`, the undo of the
  `delete`) throws, the inverse entry is not pushed, and
  a later assignment is not recorded.
- For a one-piece path such as `"x"`, the parent path computed by undo-of-add and
  redo-of-delete is `""`. That names the key `""` of the root rather than the root, so
  the removal reads through `undefined` and throws (`Replay.UndoAddSinglePiece`).
- When `unobserve` resets a leaf, it deletes `__History__` from the object holding that
  leaf. Only the root has one, so the ledger is deleted exactly when a reset leaf sits
  directly under the root. After that, an intercepted assignment, `undo` and `redo` all
  throw a `TypeError`.
- `redo` pushes onto the backward stack without trimming it to `maxLength`. The bound
  `|backward| + |forward| <= maxLength` (`Replay.Bounded`) is what keeps the backward
  stack within `maxLength`. A recording that leaves the forward stack in place can
  exceed it (`Replay.RedoOverflowsWithoutBound`).

## Model

| member | source | states |
|---|---|---|
| Values.Put | src/history.js:73 | writing a slot below the root keeps the root an object or an array, whichever it was |
| Values.Erase | src/history.js:229 | deleting a slot keeps the root an object or an array, whichever it was |
| Values.LookupPut | src/history.js:73 | after `obj[key] = x` on a slot whose parent is a container, the slot holds `x` |
| Values.PutElsewhere | src/history.js:73 | a write leaves every slot off its key chain as it was |
| Values.PutSame | src/history.js:73 | writing the value a slot already holds changes nothing |
| Values.PutPut | src/history.js:73 | a second write to a slot overrides the first |
| Values.LookupErase | src/history.js:229 | after `delete obj[key]` the slot is gone |
| Values.EraseElsewhere | src/history.js:229 | deleting a slot leaves every slot off its key chain as it was |
| Paths.Split | src/history.js:45 | `split(".")` yields at least one piece and no piece holds a dot |
| Paths.Segs | src/history.js:28-33 | a dotted path becomes name segments only, one per piece: `fixNumber` converts only what is already a number, so no string piece becomes an index |
| Paths.JoinSplit | src/history.js:137-139 | joining the pieces of a path with `"."` gives the path back |
| Paths.SplitJoin | src/history.js:137-139 | splitting the join of dotless pieces gives the pieces back |
| Paths.ParentPath | src/history.js:137-140 | split, pop and join give the parent's pieces for a path of two pieces or more, and `[""]` for a one-piece path |
| Paths.DeepGet | src/history.js:42-52 | a `deepGet` that throws only ever throws a `TypeError` |
| Paths.DeepSet | src/history.js:63-88 | a `deepSet` that succeeds keeps the root an object or an array, whichever it was, and leaves a primitive root as it was (the write is dropped); the "not set" error arises only with `create` false |
| Paths.GetByKeys | src/history.js:42-52 | `deepGet` depends on a segment only through the key it names |
| Paths.GetFollowsLookup | src/history.js:42-52 | where the own-property chain reaches `x`, `deepGet` returns `x` |
| Paths.GetContainerResolves | src/history.js:42-52 | a container that `deepGet` returns is the value at the full key chain |
| Paths.GetOkResolves | src/history.js:48-50 | in the model, a value that `deepGet` returns is what the full key chain holds, or `undefined` when the chain does not exist: with inherited properties left out, the tolerant exits at a key that is not an own property return `undefined` |
| Paths.GetThrowsIff | src/history.js:42-52 | `deepGet` throws exactly when some proper prefix of the path resolves to `null` or `undefined`, and then it throws a `TypeError` |
| Paths.GetReadsSlot | src/history.js:42-52 | when the parent slot holds a container, `deepGet` returns what the slot holds, or `undefined` when it is missing |
| Paths.SetFollowsPut | src/history.js:63-88 | when the parent slot holds a container, `deepSet` is exactly the in-place write of that slot, whatever `create` says |
| Paths.SetThenGet | src/history.js:63-88 | with `create` true and every present intermediate a container, `deepSet` succeeds and then `deepGet` returns the value; the root's keys are the old ones plus the first key, the other top-level keys keep their values, and the root keeps its kind |
| Paths.SetWithoutCreateFails | src/history.js:75-84 | with `create` false, a path that meets a missing or `undefined` intermediate throws |
| Paths.SetBuildsByNextSegment | src/history.js:72-81 | a one-segment path is a plain assignment whatever `create` says; otherwise building puts a container at the first key, an array exactly when the next segment is a number |
| Whitelist.ContainsIff | src/history.js:103 | `Contains(s, sub)` holds iff `sub` occurs in `s` at some position, that is `s.indexOf(sub) !== -1` |
| Whitelist.Listed | src/history.js:95-108 | a path is listed by an item it starts with, such as the path of an object it lies in, and by an item that starts with it |
| Whitelist.MatchCountPositive | src/history.js:100-107 | the match count is positive iff some item is a substring of the path or the path is a substring of the item |
| Whitelist.IsInList | src/history.js:95-108 | the counting loop returns true for an empty list, and otherwise exactly when some item and the path contain one another |
| Whitelist.ContainmentExamples | src/history.js:95-108 | `"user.name"` matches `["user"]`, `"user"` matches `["user.name"]`, an unrelated item does not match, and the empty list matches everything |
| Ledger.EntryOf | src/history.js:260-262 | an entry keeps its path and value, and a missing type becomes `update` |
| Ledger.Recorded | src/history.js:256-270 | with bypass on nothing changes; otherwise the entry becomes the newest backward entry, the forward stack is emptied iff `emptyOnSet`, exactly the one oldest entry is dropped (the single `shift()`) when the stack then exceeds `maxLength`, even one already over it after a redo, and none otherwise, and a stack within `maxLength` stays within it |
| Ledger.RecordedAllKeepsNewest | src/history.js:256-270 | outside a bypass, any run of records on a ledger within `maxLength` leaves exactly the newest `maxLength` of the old and recorded entries, so the last `maxLength` writes stay undoable |
| Ledger.Options.constructor | src/history.js:250-254 | the shared options start at `maxLength` 100, `emptyOnSet` true, `bypassRecording` false |
| Ledger.History.constructor | src/history.js:244-248 | a new ledger has two empty stacks and reads the shared options |
| Ledger.History.Record | src/history.js:256-270 | the ledger's new state is `Recorded` of its old state |
| Replay.Define | src/history.js:211-221 | `define` always throws, keeps the intercepted slots, and changes no ledger state when recording is bypassed |
| Replay.DefinedTree | src/history.js:212-214 | the first two lines of `define` throw only a `TypeError`, leave a path that reads as anything but `undefined` alone, and set a settable path that reads as `undefined` so that it reads back as the value |
| Replay.DefineSetsAndRecords | src/history.js:211-221 | when the path is settable and reads as `undefined`, `define` puts the value there (it reads back as the value), records the `add` entry as `record` does, keeps the intercepted slots, and then throws a `TypeError` |
| Replay.EmptyStacksAreNoOps | src/history.js:117-119 | `undo` on an empty backward stack, and `redo` on an empty forward stack (lines 165-167), change nothing, once or `n` times |
| Replay.Remove | src/history.js:223-230 | `remove` throws exactly when the object is `null` or `undefined`, and then changes nothing; with recording bypassed it leaves the ledger alone; it never adds an intercepted slot |
| Replay.RemoveByPath | src/history.js:135-141 | the removal by path changes nothing when it throws, leaves the ledger alone when recording is bypassed, and never adds an intercepted slot |
| Replay.Undo | src/history.js:115-161 | every non-empty `undo` removes exactly the newest backward entry, whether it ends normally or throws (line 122); it pushes at most one forward entry; `maxLength` never changes |
| Replay.Redo | src/history.js:163-209 | every non-empty `redo` removes exactly the newest forward entry, whether it ends normally or throws (line 170); it pushes at most one backward entry; `maxLength` never changes |
| Replay.ReplacedSlots | src/history.js:421-440 | an interceptor is an accessor on the object holding its slot, so writing a slot keeps its own interceptor and drops every one below it, and deleting a slot drops its own too; dropping twice is dropping once, and a write drops nothing exactly when no slot below it is intercepted |
| Replay.Write | src/history.js:428-435 | an assignment through an interceptor leaves the slot holding the new value, keeps the slot intercepted exactly when it was, and adds no intercepted slot |
| Replay.Assigned | src/history.js:417-440 | any assignment leaves the slot holding the new value, keeps the slot intercepted exactly when it was, and adds no intercepted slot |
| Replay.UndoUpdate | src/history.js:149-160 | undoing an `update` entry pops it, pushes the path's current value as an `update` entry forward, sets the path to the entry's value and drops the interceptors below that slot, records nothing, and resets the flags |
| Replay.RedoUpdate | src/history.js:197-208 | redoing an `update` entry is the mirror image |
| Replay.UndoThenRedo | src/history.js:149-208 | outside a replay, undoing an `update` of an existing slot and then redoing it gives back the state it started from, less the interceptors below the slot, and exactly that state when no slot below it is intercepted |
| Replay.RedoThenUndo | src/history.js:149-208 | outside a replay, redo followed by undo of an `update` gives back the starting state, less the interceptors below the slot, and exactly that state when no slot below it is intercepted |
| Replay.UndoDeleteThrows | src/history.js:124-133 | undoing a `delete` entry pops it and throws inside `define`: nothing is pushed forward, the flags stay suspended, and a path that reads as `undefined` gets the value back |
| Replay.RedoAddThrows | src/history.js:187-196 | redoing an `add` entry pops it and throws inside `define`: nothing is pushed backward and the flags stay suspended |
| Replay.RemoveByPathDeletes | src/history.js:135-141 | for a path of two pieces or more whose parent is a container, the key is deleted with its interceptor and every interceptor below it, and a `delete` entry with the old value is recorded |
| Replay.UndoAdd | src/history.js:134-148 | undoing an `add` entry of two pieces or more deletes the slot with the interceptors at and below it, and moves the entry to the forward stack without recording |
| Replay.RedoDelete | src/history.js:172-186 | redoing a `delete` entry of two pieces or more deletes the slot again with the interceptors at and below it, and moves the entry to the backward stack without recording |
| Replay.UndoAddSinglePiece | src/history.js:137-141 | undoing a one-piece `add` entry reads the parent `""` as `undefined` and throws, with the entry gone and recording bypassed |
| Replay.RedoDeleteSinglePiece | src/history.js:174-179 | redoing a one-piece `delete` entry reads the parent `""` as `undefined` and throws, with the entry gone and recording bypassed |
| Replay.RemoveRecordsBeforeDeleting | src/history.js:223-230 | `remove` records a `delete` entry holding the slot's value before it deletes the slot and its interceptor |
| Replay.DefineRecordsAdd | src/history.js:211-221 | `define` over a path that holds a value sets nothing, still records an `add` entry, and throws |
| Replay.WriteRecordsOldValue | src/history.js:428-435 | an intercepted assignment records the old value as the newest `update` entry, commits the new value, leaves other slots alone, and empties the forward stack when `emptyOnSet` |
| Replay.WriteDiscardsRedo | src/history.js:264-266 | after an intercepted assignment outside a replay there is nothing to redo |
| Replay.UntrackedWriteRecordsNothing | src/history.js:417-420 | an assignment to a slot the walk did not take records nothing and commits the value |
| Replay.UndoTimesDrains | src/history.js:326-333 | `n` undos remove at most `n` backward entries and never lengthen the backward stack, keep `maxLength`, and as many undos as entries empty the backward stack when none throws |
| Replay.RedoTimesDrains | src/history.js:341-348 | `n` redos remove at most `n` forward entries and never lengthen the forward stack, keep `maxLength`, and as many redos as entries empty the forward stack when none throws |
| Replay.BoundedRecord | src/history.js:256-270 | `record` keeps both stacks together within `maxLength` |
| Replay.UndoKeepsBound | src/history.js:115-161 | `undo` keeps the bound, and with it the backward stack within `maxLength` |
| Replay.RedoKeepsBound | src/history.js:163-209 | `redo` keeps the bound, and with it the backward stack within `maxLength` |
| Replay.AssignedKeepsBound | src/history.js:428-435 | an assignment keeps the bound |
| Replay.DefineKeepsBound | src/history.js:211-221 | `define` keeps the bound |
| Replay.RemoveKeepsBound | src/history.js:223-230 | `remove` keeps the bound |
| Replay.RedoOverflowsWithoutBound | src/history.js:199-203 | from a full backward stack with a forward entry left in place, `redo` exceeds `maxLength` |
| Walk.PreCreate | src/history.js:303-307 | one pre-creation throws only a `TypeError` and then leaves the tree as it was, and keeps the root an object or an array, whichever it was |
| Walk.Extend | src/history.js:302-312 | the extension step throws only a `TypeError`, and keeps the root an object or an array, whichever it was |
| Walk.PreCreateSets | src/history.js:303-307 | the extension pre-creates a path that reads as `undefined` as `null`, and leaves a path holding anything else alone |
| Walk.ExtensionExamples | src/history.js:302-312 | `["a", "a.b"]` on `{}` pre-creates `a` as `null` and then throws on `a.b`; `["a.b"]` alone builds `{a: {b: null}}` |
| Walk.Leaves | src/history.js:411-449 | every slot the walk takes lies strictly below the slot it starts from |
| Walk.LeavesAmong | src/history.js:446-449 | every slot the loop over some of the node's keys takes lies strictly below the node |
| Walk.DeepLeaves | src/history.js:411-449 | a deep walk takes exactly the slots below the prefix that hold a value other than an object or an array (`null` included) whose every path along the way is listed |
| Walk.ShallowLeaves | src/history.js:417-420 | a shallow walk takes exactly the listed keys of the node itself, containers included |
| Walk.EmptyListTakesAll | src/history.js:97-99 | with an empty whitelist the deep walk takes every leaf of the tree |
| Walk.TopLevelLeaves | src/history.js:463-469 | the blacklist takes a key of the root itself iff some taken leaf sits directly under the root |
| Observed.ObservedRoot.constructor | src/history.js:286-291 | a root that is not yet observed has no ledger and no interceptors |
| Observed.ObservedRoot.Observe | src/history.js:275-449 | runs the extension step and throws where it throws; throws on a root that is not a container; creates the ledger only when the root has none, and leaves an existing ledger's stacks as they were; adds exactly the walk's leaf slots to the intercepted ones; and leaves `bypassRecording` false once any interceptor is installed |
| Observed.ObservedRoot.PreCreateAll | src/history.js:302-312 | the in-place extension loop leaves the tree and outcome that `Walk.Extend` gives, stopping at the first path that throws |
| Observed.ObservedRoot.Instrument | src/history.js:411-449 | the key loop adds exactly the walk's leaf slots and turns bypass off iff it installs one |
| Observed.ObservedRoot.InstrumentNext | src/history.js:446-449 | one round of the key loop adds the next key's contribution |
| Observed.ObservedRoot.InstrumentKey | src/history.js:412-445 | for one key, recurses into a listed container when `deep`, or else installs an interceptor on a listed slot with recording bypassed around the install |
| Observed.ObservedRoot.Unobserve | src/history.js:451-502 | takes exactly the blacklist's leaf slots out of the intercepted ones, keeps every value, and deletes the ledger iff a reset leaf sits directly under the root |
| Observed.ObservedRoot.Reset | src/history.js:498-501 | the loop over a node's keys removes that node's leaf slots |
| Observed.ObservedRoot.ResetNext | src/history.js:498-501 | one round of the reset loop removes the next key's contribution from the intercepted slots and deletes the ledger when that key is a reset leaf directly under the root |
| Observed.ObservedRoot.ResetKey | src/history.js:459-497 | for one key, recurses into a listed container or resets a listed leaf, deleting the ledger when the leaf is directly under the root |
| Observed.ObservedRoot.Assign | src/history.js:417-440 | an assignment through an interceptor records then writes as `Replay.Assigned` says; one without an interceptor just writes; either drops the interceptors below the slot; with the ledger deleted an intercepted assignment throws and writes nothing |
| Observed.ObservedRoot.Define | src/history.js:211-221 | a node's `define(key, value)` leaves the state `Replay.Define` gives for the joined path; with the ledger deleted it sets the path as `Replay.DefinedTree` says and throws at `record` |
| Observed.ObservedRoot.DefinePath | src/history.js:211-221 | `define(store, path, value)` leaves the state `Replay.Define` gives; with the ledger deleted (line 215) the path is still set as `Replay.DefinedTree` says, the intercepted slots stay, and the call throws a `TypeError` |
| Observed.ObservedRoot.Remove | src/history.js:223-230 | a node's `remove(key)` leaves the state `Replay.Remove` gives; with the ledger deleted it throws a `TypeError` at `record` (line 224) and changes nothing |
| Observed.ObservedRoot.RemovePath | src/history.js:135-141 | the removal by path that the replay performs leaves the state `Replay.RemoveByPath` gives |
| Observed.ObservedRoot.Undo | src/history.js:115-161 | the in-place `undo` leaves the state `Replay.Undo` gives, and throws when the ledger has been deleted |
| Observed.ObservedRoot.Redo | src/history.js:163-209 | the in-place `redo` leaves the state `Replay.Redo` gives, and throws when the ledger has been deleted |
| Observed.ObservedRoot.UndoN | src/history.js:326-333 | the `while (n--)` loop leaves the state of `n` undos, stopping at the first that throws |
| Observed.ObservedRoot.RedoN | src/history.js:341-348 | the `while (n--)` loop leaves the state of `n` redos, stopping at the first that throws |
| Observed.ExtendStops | src/history.js:308-311 | once a pre-creation throws, the later whitelist paths are not reached |
| RoundTrip.UndoAllRestores | src/history.js:326-333 | after `N` assignments to a tracked slot within `maxLength`, `undo(N)` restores the slot's first value and the backward stack, with all `N` entries on the forward stack |
| RoundTrip.RedoAllReapplies | src/history.js:341-348 | `redo(N)` after that gives back exactly the state the assignments left |
| RoundTrip.UndoSomeRedoSome | src/history.js:321-349 | `k` undos leave the slot holding the value it had before the last `k` assignments, and `k` redos give back the final state |
| Scenarios.AddUndoRedo | src/history.js:211-221 | on `{}`, `define("a.b", 5)` builds the path and throws; `undo` deletes `b`; `redo` builds it again and throws, with both stacks empty and recording bypassed |
| Scenarios.DeleteUndo | src/history.js:124-133 | on `{x: 1}`, `remove("x")` records and deletes `x` with its interceptor; `undo` sets it back but throws, leaving `x` without an interceptor and recording bypassed, so that even a write through an interceptor would record nothing |
| Scenarios.ReplacedObjectLosesInterceptor | src/history.js:421-440 | with `user.name` intercepted on `{user: {name: "a"}}`, assigning `{name: "b"}` to `user` drops the interceptor, and the following `user.name = "c"` records nothing |

## Left out

- The `console.log` in `deepSet` (src/history.js:86) is output only and changes no state.
- Property descriptors, getters and setters are not modelled. Interceptors are the set of intercepted slots.
- The `enumerable`, `writable` and `configurable` flags of the hidden properties are not modelled.
- `isType`'s `Object.prototype.toString` dispatch is replaced by the datatype's tags.
- Dates, regular expressions, functions and fractional numbers are not values of the model. Numbers are integers.
- Array `length` and the index properties of strings are not modelled. An array is a map of keys.
- Paths.Read: properties reached through the prototype chain (`toString`, `constructor`, `Array.prototype.map`, …) are not modelled. A key an object does not own reads as `undefined`, so the model's `define` sets a path such as `"toString"` on `{}` and its extension pre-creates `"constructor"` as `null`, where the program finds the inherited value and leaves the path alone.
- Values are trees, not a heap: aliasing is not modelled. Two slots that share one object are independent in the model.
- `Object.keys` order is not modelled. The key walk visits keys in an arbitrary order, and its contract does not depend on the order.
- The per-node `define(key, value)` and `remove(key)` methods (src/history.js:352-410) are modelled by `Observed.ObservedRoot.Define` and `Observed.ObservedRoot.Remove` of the container at the slot `at`, acting on the path `Join(at + [key])`. The per-node `observe` and `unobserve` are not modelled, nor which nodes carry these methods, nor their shared `savePath` variable, which is JavaScript closure aliasing.
- The global configuration (src/history.js:233-242) is fixed to `store = "self"` and the defaults. That includes `enableDefine` and `enableRemove`.
- The external-store branch (src/history.js:292-294) is not modelled.
- `unobserve`'s `for..in` over inherited keys (src/history.js:498) is modelled as the object's own keys.
- `unobserve`'s deletion of `undo`, `redo` and the capability methods (src/history.js:470-487) is not modelled. Only the deletion of `__History__` is, because it changes what later calls do.
- Observed.ObservedRoot.Observe: the whitelist is a sequence, so the `null` whitelist that defaults to `config.defaultWhitelist` (the empty list) is not modelled. The caller passes `[]`. `extension` and `deep` are booleans and do not default either.
- Observed.ObservedRoot.Observe: the path argument is not modelled. The model always observes from the root.
- Observed.ObservedRoot.UndoN: `n` is a `nat`. The default of 1 for a non-number is left out. A negative or fractional `n` makes `while (n--)` run forever and is excluded.
- Observed.ObservedRoot.RedoN: the same as `UndoN`.
- Replay.Undo: the ledger holds references, so an object that `undo` or `redo` puts back still carries the interceptors that were installed on it, and they record again. The model keeps values, not objects, and drops those interceptors for good when the object is replaced (`Replay.ReplacedSlots`); the same holds for `Replay.Redo` and `Replay.Assigned`.
- A `deepSet` that writes through an intercepted slot outside a replay is not modelled. That is the pre-creation or `define` of a path whose intercepted slot holds `undefined`. The setter would record an extra `update` entry there.
