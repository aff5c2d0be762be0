/** What `observe` and `unobserve` compute before they touch anything: the paths the
    extension step pre-creates, and the slots the key walk reaches. */
module Walk {
  import opened Values
  import opened Paths
  import opened Whitelist
  import opened Replay

  /** One pre-creation of the extension step: a path that reads as `undefined` is
      set to `null`, building what is missing. */
  function PreCreate(v: Value, path: string): (r: (Value, Outcome))
    ensures r.1.Threw? ==> r == (v, Threw(TypeError))
    ensures r.0.Obj? == v.Obj? && r.0.Arr? == v.Arr?
  {
    match DeepGet(v, Segs(path))
    case Err(e) => (v, Threw(e))
    case Ok(x) =>
      if x != Undefined then (v, Done)
      else match DeepSet(v, Segs(path), Null, true)
        case Err(e) => (v, Threw(e))
        case Ok(t) => (t, Done)
  }

  /** The extension step over the whole whitelist, in order, stopping at the first
      path that throws with the tree as the earlier ones left it. */
  function Extend(v: Value, paths: seq<string>): (r: (Value, Outcome))
    ensures r.1.Threw? ==> r.1 == Threw(TypeError)
    ensures r.0.Obj? == v.Obj? && r.0.Arr? == v.Arr?
    decreases |paths|
  {
    if |paths| == 0 then (v, Done)
    else
      var r := Extend(v, paths[..|paths| - 1]);
      if r.1.Threw? then r else PreCreate(r.0, paths[|paths| - 1])
  }

  /** A path that reads as `undefined` and can be built reads as `null` afterwards; a
      path that reads as anything else is left alone. */
  lemma PreCreateSets(v: Value, path: string)
    ensures DeepGet(v, Segs(path)).Ok? && DeepGet(v, Segs(path)).value != Undefined ==>
      PreCreate(v, path) == (v, Done)
    ensures Settable(v, Segs(path)) && DeepGet(v, Segs(path)) == Ok(Undefined) ==>
      PreCreate(v, path).1 == Done && DeepGet(PreCreate(v, path).0, Segs(path)) == Ok(Null)
  {
    if Settable(v, Segs(path)) {
      SetThenGet(v, Segs(path), Null);
    }
  }

  /** A whitelist that names an object and then a key inside it makes the extension
      throw on an empty root: the first path is pre-created as `null`, and the second
      then reads through that `null`. Listing `"a.b"` alone builds the nested path. */
  lemma ExtensionExamples()
    ensures Extend(Obj(map[]), ["a", "a.b"]) == (Obj(map["a" := Null]), Threw(TypeError))
    ensures Extend(Obj(map[]), ["a.b"]) == (Obj(map["a" := Obj(map["b" := Null])]), Done)
  {
    SplitDotless("a");
    SplitDotless("b");
    SplitAtFirstDot("a", "b");
    assert ["a", "a.b"][..1] == ["a"];
    assert ["a"][..0] == [];
    assert ["a.b"][..0] == [];
    var p := Segs("a.b");
    assert p == [Name("a"), Name("b")];
    assert DeepGet(Obj(map["a" := Null]), p) == Err(TypeError);
    assert DeepGet(Obj(map[]), p) == Ok(Undefined);
    assert Fresh(p[1]) == Obj(map[]);
    assert DeepSet(Obj(map[]), p[1..], Null, true) == Ok(Obj(map["b" := Null]));
  }

  /** What the walk does for the key `k` of the container `v` at the slot `prefix`:
      nothing when its path is not listed; otherwise, with `deep`, it descends into a
      container value, and it takes any other slot. */
  function Contribution(v: Value, prefix: Keys, k: string, list: seq<string>, deep: bool): (r: set<Keys>)
    requires v.IsContainer() && k in v.fields
    ensures forall ks :: ks in r ==> Under(prefix + [k], ks)
    decreases v, 0
  {
    if !Listed(Join(prefix + [k]), list) then {}
    else if deep && v.fields[k].IsContainer() then Leaves(v.fields[k], prefix + [k], list, deep)
    else {prefix + [k]}
  }

  /** The slots the walk takes for the keys `keys` of `v`. */
  function LeavesAmong(v: Value, prefix: Keys, keys: set<string>, list: seq<string>, deep: bool): (r: set<Keys>)
    requires v.IsContainer()
    ensures forall ks :: ks in r ==> |ks| > |prefix| && Under(prefix, ks)
    decreases v, 1
  {
    set k, ks | k in keys && k in v.fields && ks in Contribution(v, prefix, k, list, deep) :: ks
  }

  /** The slots the walk from `v`, found at the slot `prefix`, takes: those `observe`
      puts an interceptor on, and, with `deep`, those `unobserve` resets. */
  function Leaves(v: Value, prefix: Keys, list: seq<string>, deep: bool): (r: set<Keys>)
    ensures forall ks :: ks in r ==> |ks| > |prefix| && Under(prefix, ks)
    decreases v, 2
  {
    if v.IsContainer() then LeavesAmong(v, prefix, v.fields.Keys, list, deep) else {}
  }

  /** Processing one more key adds exactly its contribution. */
  lemma LeavesAmongAdd(v: Value, prefix: Keys, done: set<string>, k: string, list: seq<string>, deep: bool)
    requires v.IsContainer() && k in v.fields
    ensures LeavesAmong(v, prefix, done + {k}, list, deep)
      == LeavesAmong(v, prefix, done, list, deep) + Contribution(v, prefix, k, list, deep)
  {
  }

  /** The walk takes at least one slot: the same question as `Leaves(...) != {}`,
      asked without building the set. */
  predicate Installs(v: Value, prefix: Keys, list: seq<string>, deep: bool)
    decreases v, 2
  {
    v.IsContainer() && InstallsAmong(v, prefix, v.fields.Keys, list, deep)
  }

  predicate InstallsAmong(v: Value, prefix: Keys, keys: set<string>, list: seq<string>, deep: bool)
    requires v.IsContainer()
    decreases v, 1
  {
    exists k :: k in keys && k in v.fields && InstallsKey(v, prefix, k, list, deep)
  }

  predicate InstallsKey(v: Value, prefix: Keys, k: string, list: seq<string>, deep: bool)
    requires v.IsContainer() && k in v.fields
    decreases v, 0
  {
    Listed(Join(prefix + [k]), list) &&
    (deep && v.fields[k].IsContainer() ==> Installs(v.fields[k], prefix + [k], list, deep))
  }

  /** Looking at one more key adds its answer. */
  lemma InstallsAmongAdd(v: Value, prefix: Keys, done: set<string>, k: string, list: seq<string>, deep: bool)
    requires v.IsContainer() && k in v.fields
    ensures InstallsAmong(v, prefix, done + {k}, list, deep)
      <==> InstallsAmong(v, prefix, done, list, deep) || InstallsKey(v, prefix, k, list, deep)
  {
  }

  lemma {:induction false} InstallsKeyIff(v: Value, prefix: Keys, k: string, list: seq<string>, deep: bool)
    requires v.IsContainer() && k in v.fields
    ensures InstallsKey(v, prefix, k, list, deep) <==> Contribution(v, prefix, k, list, deep) != {}
    decreases v, 0
  {
    if Listed(Join(prefix + [k]), list) && deep && v.fields[k].IsContainer() {
      InstallsIff(v.fields[k], prefix + [k], list, deep);
    } else if Listed(Join(prefix + [k]), list) {
      assert prefix + [k] in Contribution(v, prefix, k, list, deep);
    }
  }

  /** `Installs` holds exactly when the walk takes some slot. */
  lemma {:induction false} InstallsIff(v: Value, prefix: Keys, list: seq<string>, deep: bool)
    ensures Installs(v, prefix, list, deep) <==> Leaves(v, prefix, list, deep) != {}
    decreases v, 1
  {
    if v.IsContainer() {
      if Installs(v, prefix, list, deep) {
        assert InstallsAmong(v, prefix, v.fields.Keys, list, deep);
        var k :| k in v.fields && InstallsKey(v, prefix, k, list, deep);
        InstallsKeyIff(v, prefix, k, list, deep);
        assert Contribution(v, prefix, k, list, deep) != {};
        var ks :| ks in Contribution(v, prefix, k, list, deep);
        assert ks in LeavesAmong(v, prefix, v.fields.Keys, list, deep);
      }
      if Leaves(v, prefix, list, deep) != {} {
        var ks :| ks in Leaves(v, prefix, list, deep);
        assert ks in LeavesAmong(v, prefix, v.fields.Keys, list, deep);
        var k :| k in v.fields && ks in Contribution(v, prefix, k, list, deep);
        InstallsKeyIff(v, prefix, k, list, deep);
      }
    }
  }

  /** A slot is listed along the walk when the path of every slot from the root down
      to it, itself included, is listed. */
  ghost predicate ListedAlong(ks: Keys, from: nat, list: seq<string>) {
    forall i :: from < i <= |ks| ==> Listed(Join(ks[..i]), list)
  }

  /** The slot `rest` below `v` exists and holds something other than a container. */
  predicate HoldsLeaf(v: Value, rest: Keys) {
    match Lookup(v, rest)
    case Some(x) => !x.IsContainer()
    case None => false
  }

  /** The deep walk takes exactly the slots below the start that hold a non-container
      value and whose paths are listed all the way down. */
  lemma {:induction false} DeepLeaves(v: Value, prefix: Keys, list: seq<string>, ks: Keys)
    ensures ks in Leaves(v, prefix, list, true) <==>
      && |ks| > |prefix| && ks[..|prefix|] == prefix
      && HoldsLeaf(v, ks[|prefix|..])
      && ListedAlong(ks, |prefix|, list)
  {
    if ks in Leaves(v, prefix, list, true) {
      DeepLeavesSound(v, prefix, list, ks);
    }
    if && |ks| > |prefix| && ks[..|prefix|] == prefix
       && HoldsLeaf(v, ks[|prefix|..]) && ListedAlong(ks, |prefix|, list)
    {
      DeepLeavesComplete(v, prefix, list, ks);
    }
  }

  lemma {:induction false} DeepLeavesSound(v: Value, prefix: Keys, list: seq<string>, ks: Keys)
    requires ks in Leaves(v, prefix, list, true)
    ensures HoldsLeaf(v, ks[|prefix|..]) && ListedAlong(ks, |prefix|, list)
    decreases v
  {
    var k := TakenKey(v, prefix, list, true, ks);
    var child := v.fields[k];
    var here := prefix + [k];
    assert ks[..|here|] == here;
    if child.IsContainer() {
      DeepLeavesSound(child, here, list, ks);
      HoldsLeafStep(v, prefix, k, ks);
      ListedAlongStep(ks, prefix, k, list);
    } else {
      assert ks == here;
      assert ks[..|ks|] == here;
      assert ks[|prefix|..] == [k];
      assert Lookup(v, [k]) == Lookup(child, []);
    }
  }

  /** The key under `v` through which the walk reached a slot it takes. */
  lemma TakenKey(v: Value, prefix: Keys, list: seq<string>, deep: bool, ks: Keys) returns (k: string)
    requires ks in Leaves(v, prefix, list, deep)
    ensures v.IsContainer() && k in v.fields && ks in Contribution(v, prefix, k, list, deep)
    ensures Listed(Join(prefix + [k]), list)
  {
    assert ks in LeavesAmong(v, prefix, v.fields.Keys, list, deep);
    k :| k in v.fields && ks in Contribution(v, prefix, k, list, deep);
  }

  /** A leaf below the child at `k` is a leaf below `v`. */
  lemma HoldsLeafStep(v: Value, prefix: Keys, k: string, ks: Keys)
    requires v.IsContainer() && k in v.fields
    requires |ks| > |prefix| && ks[..|prefix| + 1] == prefix + [k]
    requires HoldsLeaf(v.fields[k], ks[|prefix| + 1..])
    ensures HoldsLeaf(v, ks[|prefix|..])
  {
    var rest := ks[|prefix|..];
    assert rest[0] == ks[..|prefix| + 1][|prefix|] == k;
    assert rest[1..] == ks[|prefix| + 1..];
  }

  /** Listed along from one level down, and listed at that level, is listed along. */
  lemma ListedAlongStep(ks: Keys, prefix: Keys, k: string, list: seq<string>)
    requires |ks| > |prefix| && ks[..|prefix| + 1] == prefix + [k]
    requires Listed(Join(prefix + [k]), list) && ListedAlong(ks, |prefix| + 1, list)
    ensures ListedAlong(ks, |prefix|, list)
  {
    forall i | |prefix| < i <= |ks| ensures Listed(Join(ks[..i]), list) {
      if i == |prefix| + 1 {
        assert ks[..i] == prefix + [k];
      }
    }
  }

  lemma {:induction false} DeepLeavesComplete(v: Value, prefix: Keys, list: seq<string>, ks: Keys)
    requires |ks| > |prefix| && ks[..|prefix|] == prefix
    requires HoldsLeaf(v, ks[|prefix|..]) && ListedAlong(ks, |prefix|, list)
    ensures ks in Leaves(v, prefix, list, true)
    decreases v
  {
    var rest := ks[|prefix|..];
    var k := rest[0];
    var here := prefix + [k];
    assert v.IsContainer() && k in v.fields;
    assert ks[..|here|] == here;
    assert Listed(Join(ks[..|here|]), list);
    var child := v.fields[k];
    assert Lookup(v, rest) == Lookup(child, rest[1..]);
    if |rest| == 1 {
      assert ks == here;
      assert Lookup(child, rest[1..]) == Some(child);
      assert ks in Contribution(v, prefix, k, list, true);
    } else {
      assert rest[1..] == ks[|here|..];
      assert child.IsContainer();
      DeepLeavesComplete(child, here, list, ks);
      assert ks in Contribution(v, prefix, k, list, true);
    }
    assert ks in LeavesAmong(v, prefix, v.fields.Keys, list, true);
  }

  /** The shallow walk takes exactly the listed keys directly under the start. */
  lemma ShallowLeaves(v: Value, prefix: Keys, list: seq<string>, ks: Keys)
    ensures ks in Leaves(v, prefix, list, false) <==>
      && v.IsContainer() && |ks| == |prefix| + 1 && ks[..|prefix|] == prefix
      && ks[|prefix|] in v.fields && Listed(Join(ks), list)
  {
    if ks in Leaves(v, prefix, list, false) {
      assert v.IsContainer();
      assert ks in LeavesAmong(v, prefix, v.fields.Keys, list, false);
      var k :| k in v.fields && ks in Contribution(v, prefix, k, list, false);
      assert ks == prefix + [k];
      assert ks[..|prefix|] == prefix;
    }
    if v.IsContainer() && |ks| == |prefix| + 1 && ks[..|prefix|] == prefix {
      var k := ks[|prefix|];
      assert ks == prefix + [k];
      if k in v.fields && Listed(Join(ks), list) {
        assert ks in Contribution(v, prefix, k, list, false);
        assert ks in LeavesAmong(v, prefix, v.fields.Keys, list, false);
      }
    }
  }

  /** With an empty list the deep walk from the root takes every slot that holds a
      non-container value. */
  lemma EmptyListTakesAll(v: Value, ks: Keys)
    ensures ks in Leaves(v, [], [], true) <==> |ks| >= 1 && HoldsLeaf(v, ks)
  {
    DeepLeaves(v, [], [], ks);
    assert ks[..0] == [] && ks[0..] == ks;
  }

  /** The deep walk from the root has an interceptor put on a slot directly under
      it, which is what makes `unobserve` delete the root's ledger. */
  predicate TakesTopLevel(v: Value, list: seq<string>) {
    v.IsContainer() && exists k :: k in v.fields && !v.fields[k].IsContainer() && Listed(k, list)
  }

  lemma TopLevelLeaves(v: Value, list: seq<string>)
    ensures TakesTopLevel(v, list) <==> exists ks :: ks in Leaves(v, [], list, true) && |ks| == 1
  {
    if TakesTopLevel(v, list) {
      var k :| k in v.fields && !v.fields[k].IsContainer() && Listed(k, list);
      assert Join([k]) == k;
      assert [] + [k] == [k];
      assert [k] in Contribution(v, [], k, list, true);
    }
    if exists ks :: ks in Leaves(v, [], list, true) && |ks| == 1 {
      var ks :| ks in Leaves(v, [], list, true) && |ks| == 1;
      var k := TakenKey(v, [], list, true, ks);
      assert [] + [k] == [k] && Join([k]) == k;
      assert !v.fields[k].IsContainer();
    }
  }
}
