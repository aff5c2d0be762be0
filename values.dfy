/** The values of an observed object tree, and the slot-level view of it that the
    in-place writes of the history system go through. */
module Values {

  datatype Option<T> = None | Some(value: T)

  /** The exceptions the core can raise. `TypeError` is what JavaScript throws when a
      property of `null` or `undefined` is read or written, or when a missing member is
      called; `NotSettable` is the error `deepSet` throws itself when it may not build a
      missing intermediate container. */
  datatype Error = TypeError | NotSettable

  datatype Result<T> = Ok(value: T) | Err(error: Error)

  /** A JavaScript value as far as the history system sees it. Objects and arrays are
      both maps from property key to value: JavaScript turns an index into its decimal
      string before it looks the property up, so `a[1]` and `a["1"]` name one slot.
      The two differ only in their tag. Numbers are integers here. */
  datatype Value =
    | Undefined
    | Null
    | Boolean(b: bool)
    | Number(n: int)
    | Text(s: string)
    | Obj(fields: map<string, Value>)
    | Arr(fields: map<string, Value>)
  {
    predicate IsContainer() { Obj? || Arr? }
    predicate IsNullish() { Undefined? || Null? }
  }

  /** A slot of the tree: the chain of property keys from the root to it. */
  type Keys = seq<string>

  /** Strict own-property lookup along a key chain: `None` as soon as a step leaves the
      containers or meets a missing key. The empty chain names the root itself. */
  function Lookup(v: Value, ks: Keys): Option<Value>
    decreases |ks|
  {
    if |ks| == 0 then Some(v)
    else if v.IsContainer() && ks[0] in v.fields then Lookup(v.fields[ks[0]], ks[1..])
    else None
  }

  /** The slot `ks` is a property of a container of the tree (present or not). */
  predicate HasParent(v: Value, ks: Keys) {
    |ks| >= 1 &&
    match Lookup(v, ks[..|ks| - 1])
    case Some(c) => c.IsContainer()
    case None => false
  }

  /** What reading the slot yields: its value, or `undefined` when it is absent. */
  function Current(v: Value, ks: Keys): Value {
    match Lookup(v, ks)
    case Some(x) => x
    case None => Undefined
  }

  /** The tree after the slot `ks` of the container that holds it is set to `x`, as an
      assignment `parent[key] = x` through a reference to that container would leave it.
      The empty chain replaces the whole tree. */
  function Put(v: Value, ks: Keys, x: Value): (r: Value)
    ensures |ks| >= 1 ==> r.Obj? == v.Obj? && r.Arr? == v.Arr?
    decreases |ks|
  {
    if |ks| == 0 then x
    else if v.IsContainer() then
      var child := if ks[0] in v.fields then v.fields[ks[0]] else Undefined;
      v.(fields := v.fields[ks[0] := Put(child, ks[1..], x)])
    else v
  }

  /** The tree after `delete parent[key]` on the container that holds the slot `ks`. */
  function Erase(v: Value, ks: Keys): (r: Value)
    requires |ks| >= 1
    ensures r.Obj? == v.Obj? && r.Arr? == v.Arr?
    decreases |ks|
  {
    if !v.IsContainer() then v
    else if |ks| == 1 then v.(fields := v.fields - {ks[0]})
    else if ks[0] in v.fields then v.(fields := v.fields[ks[0] := Erase(v.fields[ks[0]], ks[1..])])
    else v
  }

  /** Two key chains that part ways: neither is a prefix of the other. */
  predicate Diverge(a: Keys, b: Keys)
    decreases |a|
  {
    |a| >= 1 && |b| >= 1 && (a[0] != b[0] || Diverge(a[1..], b[1..]))
  }

  lemma {:induction false} LookupPut(v: Value, ks: Keys, x: Value)
    requires HasParent(v, ks)
    ensures Lookup(Put(v, ks, x), ks) == Some(x)
    decreases |ks|
  {
    if |ks| > 1 {
      assert ks[1..][..|ks[1..]| - 1] == ks[..|ks| - 1][1..];
      LookupPut(v.fields[ks[0]], ks[1..], x);
    }
  }

  /** Writing one slot leaves every slot that is not on its chain as it was. */
  lemma {:induction false} PutElsewhere(v: Value, ks: Keys, js: Keys, x: Value)
    requires Diverge(ks, js)
    ensures Lookup(Put(v, ks, x), js) == Lookup(v, js)
    decreases |ks|
  {
    if v.IsContainer() && ks[0] == js[0] && ks[0] in v.fields {
      PutElsewhere(v.fields[ks[0]], ks[1..], js[1..], x);
    }
  }

  /** Writing back the value a slot already holds changes nothing. */
  lemma {:induction false} PutSame(v: Value, ks: Keys, y: Value)
    requires Lookup(v, ks) == Some(y)
    ensures Put(v, ks, y) == v
    decreases |ks|
  {
    if |ks| > 0 {
      PutSame(v.fields[ks[0]], ks[1..], y);
      assert v.fields[ks[0] := v.fields[ks[0]]] == v.fields;
    }
  }

  /** The second of two writes to one slot wins. */
  lemma {:induction false} PutPut(v: Value, ks: Keys, x: Value, y: Value)
    ensures Put(Put(v, ks, x), ks, y) == Put(v, ks, y)
    decreases |ks|
  {
    if |ks| > 0 && v.IsContainer() {
      var child := if ks[0] in v.fields then v.fields[ks[0]] else Undefined;
      var once := Put(v, ks, x);
      assert once == v.(fields := v.fields[ks[0] := Put(child, ks[1..], x)]);
      assert once.IsContainer() && ks[0] in once.fields;
      assert once.fields[ks[0]] == Put(child, ks[1..], x);
      PutPut(child, ks[1..], x, y);
      assert Put(once, ks, y) == once.(fields := once.fields[ks[0] := Put(child, ks[1..], y)]);
      assert once.fields[ks[0] := Put(child, ks[1..], y)] == v.fields[ks[0] := Put(child, ks[1..], y)];
    }
  }

  /** After `delete`, the slot is absent. */
  lemma {:induction false} LookupErase(v: Value, ks: Keys)
    requires HasParent(v, ks)
    ensures Lookup(Erase(v, ks), ks) == None
    decreases |ks|
  {
    if |ks| > 1 {
      assert ks[1..][..|ks[1..]| - 1] == ks[..|ks| - 1][1..];
      LookupErase(v.fields[ks[0]], ks[1..]);
    }
  }

  /** `delete` leaves every slot off the erased chain as it was. */
  lemma {:induction false} EraseElsewhere(v: Value, ks: Keys, js: Keys)
    requires Diverge(ks, js)
    ensures Lookup(Erase(v, ks), js) == Lookup(v, js)
    decreases |ks|
  {
    if v.IsContainer() && ks[0] == js[0] && |ks| > 1 && ks[0] in v.fields {
      EraseElsewhere(v.fields[ks[0]], ks[1..], js[1..]);
    }
  }
}
