/** The history ledger: the backward (undo) and forward (redo) stacks of mutation
    entries, most recent last, and the options that govern `record`. */
module Ledger {
  import opened Values

  datatype Kind = Add | Delete | Update

  /** One reversible change: the path it happened at, the value to put back, and what
      kind of change it was. */
  datatype Entry = Entry(path: string, value: Value, kind: Kind)

  /** The whole state of a ledger, as a value. */
  datatype LedgerState = LedgerState(
    backwards: seq<Entry>,
    forwards: seq<Entry>,
    maxLength: nat,
    emptyOnSet: bool,
    bypassRecording: bool)

  const DefaultMaxLength: nat := 100

  /** The entry `record` stores for a step whose type may be missing. */
  function EntryOf(path: string, value: Value, kind: Option<Kind>): (e: Entry)
    ensures e.path == path && e.value == value
    ensures e.kind == (if kind.Some? then kind.value else Update)
  {
    Entry(path, value, match kind case Some(k) => k case None => Update)
  }

  /** `record`: nothing at all while recording is bypassed. Otherwise the entry goes on
      top of the backward stack, the forward stack is emptied when `emptyOnSet` holds,
      and the oldest backward entry is dropped once there are more than `maxLength`. */
  function Recorded(l: LedgerState, path: string, value: Value, kind: Option<Kind>): (r: LedgerState)
    ensures l.bypassRecording ==> r == l
    ensures !l.bypassRecording ==>
      var b := l.backwards + [EntryOf(path, value, kind)];
      && r.maxLength == l.maxLength
      && r.emptyOnSet == l.emptyOnSet && r.bypassRecording == l.bypassRecording
      && (r.forwards == [] <== l.emptyOnSet)
      && (!l.emptyOnSet ==> r.forwards == l.forwards)
      && |b| - 1 <= |r.backwards| <= |b|
      && r.backwards == b[|b| - |r.backwards|..]
      && (|b| <= l.maxLength ==> r.backwards == b)
      && (|b| > l.maxLength ==> r.backwards == b[1..])
      && (|l.backwards| <= l.maxLength ==> |r.backwards| <= l.maxLength)
      && (l.maxLength >= 1 ==> |r.backwards| >= 1 && r.backwards[|r.backwards| - 1] == EntryOf(path, value, kind))
  {
    if l.bypassRecording then l
    else
      var b := l.backwards + [EntryOf(path, value, kind)];
      l.(backwards := if |b| > l.maxLength then b[1..] else b,
         forwards := if l.emptyOnSet then [] else l.forwards)
  }

  /** A run of `record` calls, one per entry, oldest first. */
  function RecordedAll(l: LedgerState, es: seq<Entry>): LedgerState
    decreases |es|
  {
    if |es| == 0 then l
    else
      var e := es[|es| - 1];
      Recorded(RecordedAll(l, es[..|es| - 1]), e.path, e.value, Some(e.kind))
  }

  /** Outside a bypass, a run of records on a ledger within `maxLength` keeps exactly
      the newest `maxLength` of the old entries and the recorded ones: overflowing
      drops the oldest entries one at a time and never more. */
  lemma {:induction false} RecordedAllKeepsNewest(l: LedgerState, es: seq<Entry>)
    requires !l.bypassRecording && |l.backwards| <= l.maxLength
    ensures var all := l.backwards + es;
      var r := RecordedAll(l, es);
      && r.backwards == Newest(all, l.maxLength)
      && r.maxLength == l.maxLength && r.bypassRecording == l.bypassRecording
    decreases |es|
  {
    if |es| == 0 {
      assert l.backwards + es == l.backwards;
    } else {
      var init := es[..|es| - 1];
      var e := es[|es| - 1];
      RecordedAllKeepsNewest(l, init);
      var l0 := RecordedAll(l, init);
      assert EntryOf(e.path, e.value, Some(e.kind)) == e;
      assert l.backwards + es == (l.backwards + init) + [e];
      NewestStep(l.backwards + init, e, l.maxLength);
      assert RecordedAll(l, es) == Recorded(l0, e.path, e.value, Some(e.kind));
    }
  }

  /** The newest `n` entries of `s`, or all of them when there are fewer. */
  function Newest(s: seq<Entry>, n: nat): (r: seq<Entry>)
    ensures |r| <= n
  {
    if |s| > n then s[|s| - n..] else s
  }

  /** Appending one entry to the newest `n` and dropping the oldest on overflow gives
      the newest `n` of the longer sequence. */
  lemma NewestStep(s: seq<Entry>, e: Entry, n: nat)
    ensures var b := Newest(s, n) + [e];
      (if |b| > n then b[1..] else b) == Newest(s + [e], n)
  {
    var b := Newest(s, n) + [e];
    if |s| > n {
      assert b[1..] == (s + [e])[|s + [e]| - n..];
    } else if |b| > n {
      assert b[1..] == (s + [e])[|s + [e]| - n..];
    }
  }

  /** `History.prototype.options`: one object, shared by every ledger of the process,
      so a flag set through one ledger is seen by all of them and outlives any one. */
  class Options {
    var maxLength: nat
    var emptyOnSet: bool
    var bypassRecording: bool

    /** The options as the source declares them. */
    constructor ()
      ensures maxLength == DefaultMaxLength && emptyOnSet && !bypassRecording
    {
      maxLength := DefaultMaxLength;
      emptyOnSet := true;
      bypassRecording := false;
    }
  }

  /** A `History` instance: its own two stacks, and the shared options. */
  class History {
    var backwards: seq<Entry>
    var forwards: seq<Entry>
    const options: Options

    function State(): LedgerState
      reads this, options
    {
      LedgerState(backwards, forwards, options.maxLength, options.emptyOnSet, options.bypassRecording)
    }

    /** `new History(origin)`: empty stacks; the options are whatever the shared object
        holds at that moment. */
    constructor (options: Options)
      ensures this.options == options
      ensures State() == LedgerState([], [], options.maxLength, options.emptyOnSet, options.bypassRecording)
    {
      backwards := [];
      forwards := [];
      this.options := options;
    }

    /** `History.prototype.record`. */
    method Record(path: string, value: Value, kind: Option<Kind>)
      modifies this
      ensures State() == Recorded(old(State()), path, value, kind)
    {
      if options.bypassRecording {
        return;
      }
      backwards := backwards + [EntryOf(path, value, kind)];
      if options.emptyOnSet {
        forwards := [];
      }
      if |backwards| > options.maxLength {
        backwards := backwards[1..];
      }
    }
  }
}
