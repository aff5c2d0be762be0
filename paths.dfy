/** Path addressing: the dotted path strings of the history system, and `deepGet` and
    `deepSet`, the two helpers that read and write the tree along a path. */
module Paths {
  import opened Values

  /** One segment of a path given as an array: a property name, or a number (which
      only an array path can hold; see `Segs`). */
  datatype Seg = Name(name: string) | Index(index: int)

  /** The segments of a path in the order the walk uses them, first key first. A
      dotted string lists them in that order; an array argument is popped from its end,
      so `["b", 1, "a"]` is the path `a`, `1`, `b`. */
  type Path = seq<Seg>

  function DigitChar(d: nat): char
    requires d < 10
  {
    "0123456789"[d]
  }

  function NatToString(n: nat): string
    decreases n
  {
    if n < 10 then [DigitChar(n)] else NatToString(n / 10) + [DigitChar(n % 10)]
  }

  /** The property key a segment names: a number is looked up as its decimal string. */
  function Key(s: Seg): string {
    match s
    case Name(n) => n
    case Index(i) => if i < 0 then "-" + NatToString(-i) else NatToString(i)
  }

  function KeysOf(p: Path): (ks: Keys)
    ensures |ks| == |p|
    ensures forall i :: 0 <= i < |p| ==> ks[i] == Key(p[i])
  {
    if |p| == 0 then [] else [Key(p[0])] + KeysOf(p[1..])
  }

  /** `s.split(".")`: the pieces between the dots, at least one, none holding a dot. */
  function Split(s: string): (parts: seq<string>)
    ensures |parts| >= 1
    ensures forall i :: 0 <= i < |parts| ==> '.' !in parts[i]
    decreases |s|
  {
    if |s| == 0 then [""]
    else
      var rest := Split(s[1..]);
      if s[0] == '.' then [""] + rest
      else [[s[0]] + rest[0]] + rest[1..]
  }

  /** `parts.join(".")`. */
  function Join(parts: seq<string>): string
    decreases |parts|
  {
    if |parts| == 0 then ""
    else if |parts| == 1 then parts[0]
    else parts[0] + "." + Join(parts[1..])
  }

  predicate Dotless(parts: seq<string>) {
    forall i :: 0 <= i < |parts| ==> '.' !in parts[i]
  }

  /** A string path as `deepGet` and `deepSet` see it: `split(".")` and then
      `fixNumber` on every piece. `fixNumber` only converts what is already a number,
      and a piece of a split string never is, so every segment is a name. */
  function Segs(s: string): (p: Path)
    ensures KeysOf(p) == Split(s)
    ensures forall i :: 0 <= i < |p| ==> p[i] == Name(Split(s)[i])
  {
    var parts := Split(s);
    seq(|parts|, i requires 0 <= i < |parts| => Name(parts[i]))
  }

  lemma {:induction false} JoinSplit(s: string)
    ensures Join(Split(s)) == s
    decreases |s|
  {
    if |s| > 0 {
      JoinSplit(s[1..]);
      var rest := Split(s[1..]);
      if s[0] != '.' && |rest| > 1 {
        assert Join(rest) == rest[0] + "." + Join(rest[1..]);
        assert ([[s[0]] + rest[0]] + rest[1..])[1..] == rest[1..];
      } else if s[0] == '.' {
        assert ([""] + rest)[1..] == rest;
      }
    }
  }

  lemma {:induction false} SplitDotless(a: string)
    requires '.' !in a
    ensures Split(a) == [a]
    decreases |a|
  {
    if |a| > 0 {
      SplitDotless(a[1..]);
      assert [a[0]] + a[1..] == a;
    }
  }

  lemma {:induction false} SplitAtFirstDot(a: string, b: string)
    requires '.' !in a
    ensures Split(a + "." + b) == [a] + Split(b)
    decreases |a|
  {
    if |a| == 0 {
      assert a + "." + b == "." + b;
      assert ("." + b)[1..] == b;
    } else {
      var s := a + "." + b;
      assert s[1..] == a[1..] + "." + b;
      SplitAtFirstDot(a[1..], b);
      assert [a[0]] + a[1..] == a;
    }
  }

  /** Splitting a joined list of dotless pieces gives the pieces back. */
  lemma {:induction false} SplitJoin(parts: seq<string>)
    requires |parts| >= 1 && Dotless(parts)
    ensures Split(Join(parts)) == parts
    decreases |parts|
  {
    if |parts| == 1 {
      SplitDotless(parts[0]);
    } else {
      SplitJoin(parts[1..]);
      SplitAtFirstDot(parts[0], Join(parts[1..]));
      assert [parts[0]] + parts[1..] == parts;
    }
  }

  /** The parent path `undo` and `redo` compute for an `add` or `delete` entry (the
      path without its last piece, joined and split again) is the path's own prefix
      when the path has two pieces or more. With one piece it is `""`, which splits to
      `[""]`: the key `""` of the root, not the root. */
  lemma ParentPath(s: string)
    ensures var parts := Split(s);
      if |parts| >= 2 then Split(Join(parts[..|parts| - 1])) == parts[..|parts| - 1]
      else Split(Join(parts[..|parts| - 1])) == [""]
  {
    var parts := Split(s);
    if |parts| >= 2 {
      assert Dotless(parts[..|parts| - 1]);
      SplitJoin(parts[..|parts| - 1]);
    }
  }

  /** `Object.prototype.hasOwnProperty.call(v, key)`, for a `v` that is not nullish
      (on `null` and `undefined` it throws). A primitive owns no property here. */
  predicate Owns(v: Value, key: string) {
    v.IsContainer() && key in v.fields
  }

  /** `v[key]` for a `v` that is not nullish. */
  function Read(v: Value, key: string): Value {
    if Owns(v, key) then v.fields[key] else Undefined
  }

  /** `v[key]`, which throws on `null` and `undefined`. */
  function ReadKey(v: Value, key: string): Result<Value> {
    if v.IsNullish() then Err(TypeError) else Ok(Read(v, key))
  }

  /** `v[key] = x`: throws on `null` and `undefined`, is silently ignored on another
      primitive (the module is not in strict mode), and sets the key of a container. */
  function Assign(v: Value, key: string, x: Value): Result<Value> {
    if v.IsNullish() then Err(TypeError)
    else if v.IsContainer() then Ok(v.(fields := v.fields[key := x]))
    else Ok(v)
  }

  /** `deepGet(v, path)`: the tolerant read. Where the next key is not an own property
      it returns `v[key]` at once, `undefined` here, instead of walking on; an own key
      holding `null` or `undefined` in the middle of the path makes the next step throw. */
  function DeepGet(v: Value, p: Path): (r: Result<Value>)
    requires |p| >= 1
    ensures r.Err? ==> r.error == TypeError
    decreases |p|
  {
    var key := Key(p[0]);
    if v.IsNullish() then Err(TypeError)
    else if |p| == 1 || !Owns(v, key) then Ok(Read(v, key))
    else DeepGet(v.fields[key], p[1..])
  }

  /** The key is an own property that does not hold `undefined`: what `deepSet` needs
      in order to walk on without building a container. */
  predicate Present(v: Value, key: string) {
    Owns(v, key) && v.fields[key] != Undefined
  }

  /** The container `deepSet` builds for a missing intermediate: an array when the
      segment after it is a number, an object otherwise. */
  function Fresh(next: Seg): Value {
    if next.Index? then Arr(map[]) else Obj(map[])
  }

  /** `deepSet(v, path, x, create)`, as the new value of `v`. The last segment is
      assigned. Before it, a missing or `undefined` intermediate is replaced by a fresh
      container when `create` holds, and makes the call throw `NotSettable` otherwise;
      an intermediate that is another primitive swallows the container built for it, so
      the next step meets `undefined` and throws. A call that throws changes nothing:
      no container is built above an intermediate that makes it throw. */
  function DeepSet(v: Value, p: Path, x: Value, create: bool): (r: Result<Value>)
    requires |p| >= 1
    ensures r.Ok? ==> r.value.Obj? == v.Obj? && r.value.Arr? == v.Arr?
    ensures r.Ok? && !v.IsContainer() ==> r.value == v
    ensures r.Err? && r.error == NotSettable ==> !create
    decreases |p|
  {
    var key := Key(p[0]);
    if |p| == 1 then Assign(v, key, x)
    else if v.IsNullish() then Err(TypeError)
    else if !Present(v, key) && !create then Err(NotSettable)
    else
      var child := if Present(v, key) then v.fields[key]
                   else if v.IsContainer() then Fresh(p[1])
                   else Undefined;
      match DeepSet(child, p[1..], x, create)
      case Err(e) => Err(e)
      case Ok(c) => Assign(v, key, c)
  }

  /** The reads that `deepGet` and `deepSet` perform depend on a segment only through
      the key it names, so `"a.1.b"` and the array `["b", 1, "a"]`, which is popped from
      its end, read the same slot. */
  lemma {:induction false} GetByKeys(v: Value, p: Path, q: Path)
    requires |p| >= 1 && KeysOf(p) == KeysOf(q)
    ensures DeepGet(v, p) == DeepGet(v, q)
    decreases |p|
  {
    assert Key(p[0]) == KeysOf(p)[0] == Key(q[0]);
    if |p| > 1 {
      assert KeysOf(p[1..]) == KeysOf(p)[1..] == KeysOf(q)[1..] == KeysOf(q[1..]);
      if !v.IsNullish() && Owns(v, Key(p[0])) {
        GetByKeys(v.fields[Key(p[0])], p[1..], q[1..]);
      }
    }
  }

  /** An existing slot reads as its value. */
  lemma {:induction false} GetFollowsLookup(v: Value, p: Path, x: Value)
    requires |p| >= 1 && Lookup(v, KeysOf(p)) == Some(x)
    ensures DeepGet(v, p) == Ok(x)
    decreases |p|
  {
    assert KeysOf(p)[1..] == KeysOf(p[1..]);
    if |p| > 1 {
      GetFollowsLookup(v.fields[Key(p[0])], p[1..], x);
    }
  }

  /** A container that `deepGet` returns is the one held by the slot the path names. */
  lemma {:induction false} GetContainerResolves(v: Value, p: Path)
    requires |p| >= 1
    ensures DeepGet(v, p).Ok? && DeepGet(v, p).value.IsContainer() ==>
      Lookup(v, KeysOf(p)) == Some(DeepGet(v, p).value)
    decreases |p|
  {
    assert KeysOf(p)[1..] == KeysOf(p[1..]);
    if |p| > 1 && !v.IsNullish() && Owns(v, Key(p[0])) {
      GetContainerResolves(v.fields[Key(p[0])], p[1..]);
    }
  }

  /** Whatever `deepGet` returns normally is the value of the slot the path names or,
      when there is no such slot, `undefined`: the tolerant exits, where a key is not an
      own property, only ever yield `undefined`. */
  lemma {:induction false} GetOkResolves(v: Value, p: Path)
    requires |p| >= 1
    ensures DeepGet(v, p).Ok? ==>
      || Lookup(v, KeysOf(p)) == Some(DeepGet(v, p).value)
      || (Lookup(v, KeysOf(p)) == None && DeepGet(v, p).value == Undefined)
    decreases |p|
  {
    assert KeysOf(p)[1..] == KeysOf(p[1..]);
    if |p| > 1 && !v.IsNullish() && Owns(v, Key(p[0])) {
      GetOkResolves(v.fields[Key(p[0])], p[1..]);
    }
  }

  /** The prefix `ks` of the path resolves to `null` or `undefined`. */
  predicate NullishAt(v: Value, ks: Keys) {
    Lookup(v, ks).Some? && Lookup(v, ks).value.IsNullish()
  }

  /** `deepGet` throws exactly when the walk meets `null` or `undefined` before the last
      segment is read, that is when some proper prefix of the path resolves to one of
      them, and what it throws is always a `TypeError`. */
  lemma {:induction false} GetThrowsIff(v: Value, p: Path)
    requires |p| >= 1
    ensures DeepGet(v, p).Err? ==> DeepGet(v, p).error == TypeError
    ensures DeepGet(v, p).Err? <==> exists i :: 0 <= i < |p| && NullishAt(v, KeysOf(p)[..i])
    decreases |p|
  {
    var ks := KeysOf(p);
    if v.IsNullish() {
      assert ks[..0] == [];
      assert NullishAt(v, KeysOf(p)[..0]);
    } else if |p| == 1 || !Owns(v, Key(p[0])) {
      forall i | 0 <= i < |p|
        ensures !NullishAt(v, ks[..i])
      {
        if i > 0 {
          assert ks[..i][0] == ks[0];
        }
      }
    } else {
      var c := v.fields[Key(p[0])];
      GetThrowsIff(c, p[1..]);
      assert KeysOf(p[1..]) == ks[1..];
      forall i | 1 <= i <= |p|
        ensures Lookup(v, ks[..i]) == Lookup(c, ks[1..][..i - 1])
      {
        assert ks[..i][1..] == ks[1..][..i - 1];
      }
      if exists i :: 0 <= i < |p| && NullishAt(v, ks[..i]) {
        var i :| 0 <= i < |p| && NullishAt(v, ks[..i]);
        assert ks[..0] == [];
        assert i >= 1;
        assert NullishAt(c, ks[1..][..i - 1]);
      }
      if DeepGet(v, p).Err? {
        assert DeepGet(c, p[1..]).Err?;
        var j :| 0 <= j < |p| - 1 && NullishAt(c, ks[1..][..j]);
        assert Lookup(v, ks[..j + 1]) == Lookup(c, ks[1..][..j]);
        assert 0 <= j + 1 < |p| && NullishAt(v, KeysOf(p)[..j + 1]);
      }
    }
  }

  /** A slot of an existing container reads as what it holds, `undefined` when it is
      absent. */
  lemma {:induction false} GetReadsSlot(v: Value, p: Path)
    requires HasParent(v, KeysOf(p))
    ensures DeepGet(v, p) == Ok(Current(v, KeysOf(p)))
    decreases |p|
  {
    var ks := KeysOf(p);
    assert ks[1..] == KeysOf(p[1..]);
    var pre := ks[..|ks| - 1];
    assert v.IsContainer() by {
      if |p| > 1 {
        assert Lookup(v, pre).Some?;
      }
    }
    if |p| > 1 {
      assert Lookup(v, pre).Some?;
      var child := v.fields[ks[0]];
      assert Lookup(v, pre) == Lookup(child, pre[1..]);
      assert HasParent(child, ks[1..]) by {
        assert pre[1..] == ks[1..][..|ks[1..]| - 1];
      }
      GetReadsSlot(child, p[1..]);
      assert Lookup(v, ks) == Lookup(child, ks[1..]);
    } else if Owns(v, ks[0]) {
      assert Lookup(v, ks) == Lookup(v.fields[ks[0]], ks[1..]);
    }
  }

  /** Through existing containers `deepSet` is the plain slot write, whatever `create`
      says. */
  lemma {:induction false} SetFollowsPut(v: Value, p: Path, x: Value, create: bool)
    requires HasParent(v, KeysOf(p))
    ensures DeepSet(v, p, x, create) == Ok(Put(v, KeysOf(p), x))
    decreases |p|
  {
    var ks := KeysOf(p);
    assert ks[1..] == KeysOf(p[1..]);
    if |p| > 1 {
      assert ks[..|ks| - 1][0] == ks[0];
      assert ks[..|ks| - 1][1..] == ks[1..][..|ks[1..]| - 1];
      var pre := ks[..|ks| - 1];
      assert Lookup(v, pre).Some?;
      assert v.IsContainer() && ks[0] in v.fields;
      var child := v.fields[ks[0]];
      assert Lookup(v, pre) == Lookup(child, pre[1..]);
      assert HasParent(child, ks[1..]) by {
        if |p| == 2 {
          assert pre[1..] == [];
          assert ks[1..][..|ks[1..]| - 1] == [];
        }
      }
      SetFollowsPut(child, p[1..], x, create);
    }
  }

  /** What `deepSet` with `create` needs: every intermediate that is there is a
      container until the first one that is missing or `undefined`. */
  predicate Settable(v: Value, p: Path)
    decreases |p|
  {
    |p| >= 1 && v.IsContainer() &&
    (|p| == 1 || !Present(v, Key(p[0])) || Settable(v.fields[Key(p[0])], p[1..]))
  }

  /** Every intermediate that is there is a container, and one of them is missing or
      `undefined` before the last segment. */
  predicate ReachesMissing(v: Value, p: Path)
    decreases |p|
  {
    |p| >= 2 && v.IsContainer() &&
    (!Present(v, Key(p[0])) || ReachesMissing(v.fields[Key(p[0])], p[1..]))
  }

  /** With `create`, a settable path is set, reads back as the value written, keeps the
      kind of the root, and leaves every other top-level key as it was. */
  lemma {:induction false} SetThenGet(v: Value, p: Path, x: Value)
    requires Settable(v, p)
    ensures DeepSet(v, p, x, true).Ok?
    ensures var w := DeepSet(v, p, x, true).value;
      && DeepGet(w, p) == Ok(x)
      && w.Obj? == v.Obj? && w.Arr? == v.Arr?
      && w.fields.Keys == v.fields.Keys + {Key(p[0])}
      && forall k :: k in v.fields && k != Key(p[0]) ==> w.fields[k] == v.fields[k]
    decreases |p|
  {
    if |p| > 1 {
      var key := Key(p[0]);
      var child := if Present(v, key) then v.fields[key] else Fresh(p[1]);
      assert Settable(child, p[1..]);
      SetThenGet(child, p[1..], x);
    }
  }

  /** Without `create`, `deepSet` throws at the first intermediate that is missing or
      `undefined`. */
  lemma {:induction false} SetWithoutCreateFails(v: Value, p: Path, x: Value)
    requires ReachesMissing(v, p)
    ensures DeepSet(v, p, x, false) == Err(NotSettable)
    decreases |p|
  {
    if Present(v, Key(p[0])) {
      SetWithoutCreateFails(v.fields[Key(p[0])], p[1..], x);
    }
  }

  /** With `create`, a missing intermediate becomes an array exactly when the segment
      after it is a number, and a one-segment path is a plain assignment whatever
      `create` says. */
  lemma {:induction false} SetBuildsByNextSegment(v: Value, p: Path, x: Value, create: bool)
    requires v.IsContainer() && |p| >= 1
    requires |p| >= 2 ==> create && !Present(v, Key(p[0]))
    ensures DeepSet(v, p, x, create).Ok?
    ensures var w := DeepSet(v, p, x, create).value;
      if |p| == 1 then w == v.(fields := v.fields[Key(p[0]) := x])
      else (Key(p[0]) in w.fields && w.fields[Key(p[0])].IsContainer()
        && (w.fields[Key(p[0])].Arr? <==> p[1].Index?))
  {
    if |p| >= 2 {
      SetThenGet(v, p, x);
      var c := DeepSet(Fresh(p[1]), p[1..], x, true);
      SetThenGet(Fresh(p[1]), p[1..], x);
      assert DeepSet(v, p, x, create) == Assign(v, Key(p[0]), c.value);
    }
  }
}
