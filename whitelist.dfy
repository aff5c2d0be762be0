/** The whitelist and blacklist matcher `isInList`: a path is listed when the list is
    empty, or when it and some item contain one another as a substring. The two-way
    containment is the source's own policy and is kept as it is: a short item opts in
    every path that contains it, and a long item opts in every path it contains. */
module Whitelist {

  /** `s.indexOf(sub) !== -1`. */
  predicate Contains(s: string, sub: string)
    decreases |s|
  {
    |sub| <= |s| && (s[..|sub|] == sub || Contains(s[1..], sub))
  }

  /** The reference meaning of containment: `sub` occurs in `s` at some offset. */
  ghost predicate OccursAt(s: string, sub: string, i: int) {
    0 <= i && i + |sub| <= |s| && s[i..i + |sub|] == sub
  }

  lemma {:induction false} OccursContains(s: string, sub: string, i: int)
    requires OccursAt(s, sub, i)
    ensures Contains(s, sub)
    decreases i
  {
    if i > 0 && s[..|sub|] != sub {
      assert s[1..][i - 1..i - 1 + |sub|] == s[i..i + |sub|];
      OccursContains(s[1..], sub, i - 1);
    }
  }

  lemma {:induction false} ContainsOccurs(s: string, sub: string)
    requires Contains(s, sub)
    ensures exists i :: OccursAt(s, sub, i)
    decreases |s|
  {
    if s[..|sub|] == sub {
      assert OccursAt(s, sub, 0);
    } else {
      ContainsOccurs(s[1..], sub);
      var i :| OccursAt(s[1..], sub, i);
      assert s[1..][i..i + |sub|] == s[i + 1..i + 1 + |sub|];
      assert OccursAt(s, sub, i + 1);
    }
  }

  /** `Contains` is substring occurrence. */
  lemma ContainsIff(s: string, sub: string)
    ensures Contains(s, sub) <==> exists i :: OccursAt(s, sub, i)
  {
    if Contains(s, sub) {
      ContainsOccurs(s, sub);
    }
    forall i | OccursAt(s, sub, i) ensures Contains(s, sub) {
      OccursContains(s, sub, i);
    }
  }

  /** An item matches a path when either contains the other. */
  predicate Related(path: string, item: string) {
    Contains(path, item) || Contains(item, path)
  }

  /** The verdict of `isInList`. A `null` or `undefined` list behaves as the empty
      one; the model has only the empty one. An item that starts the path, such as an
      object the path lies in, lists it, and so does an item the path starts. */
  predicate Listed(path: string, list: seq<string>): (r: bool)
    ensures forall i :: 0 <= i < |list| && |list[i]| <= |path| && path[..|list[i]|] == list[i] ==> r
    ensures forall i :: 0 <= i < |list| && |path| <= |list[i]| && list[i][..|path|] == path ==> r
  {
    |list| == 0 || exists i :: 0 <= i < |list| && Related(path, list[i])
  }

  /** The number of items that match the path: what the loop of `isInList` counts. */
  function MatchCount(path: string, list: seq<string>): nat
    decreases |list|
  {
    if |list| == 0 then 0
    else MatchCount(path, list[..|list| - 1]) + (if Related(path, list[|list| - 1]) then 1 else 0)
  }

  lemma {:induction false} MatchCountPositive(path: string, list: seq<string>)
    ensures MatchCount(path, list) > 0 <==> exists i :: 0 <= i < |list| && Related(path, list[i])
    decreases |list|
  {
    if |list| > 0 {
      var init := list[..|list| - 1];
      MatchCountPositive(path, init);
      if exists i :: 0 <= i < |init| && Related(path, init[i]) {
        var i :| 0 <= i < |init| && Related(path, init[i]);
        assert list[i] == init[i];
      }
      if exists i :: 0 <= i < |list| && Related(path, list[i]) {
        var i :| 0 <= i < |list| && Related(path, list[i]);
        if i < |list| - 1 {
          assert init[i] == list[i];
        }
      }
    }
  }

  /** `isInList(path, list)`. */
  method IsInList(path: string, list: seq<string>) returns (listed: bool)
    ensures listed == Listed(path, list)
  {
    if |list| == 0 {
      return true;
    }
    var matches := 0;
    for i := 0 to |list|
      invariant matches == MatchCount(path, list[..i])
    {
      assert list[..i + 1][..i] == list[..i];
      if Contains(path, list[i]) || Contains(list[i], path) {
        matches := matches + 1;
      }
    }
    assert list[..|list|] == list;
    MatchCountPositive(path, list);
    listed := matches > 0;
  }

  /** A string that lacks a character of `sub` does not contain `sub`. */
  lemma {:induction false} MissingCharNotContained(s: string, sub: string, c: char)
    requires c in sub && c !in s
    ensures !Contains(s, sub)
    decreases |s|
  {
    if |sub| <= |s| {
      var j :| 0 <= j < |sub| && sub[j] == c;
      assert s[..|sub|][j] == s[j];
      MissingCharNotContained(s[1..], sub, c);
    }
  }

  /** The item `"user"` and the path `"user.name"` match in both directions; the item
      `"zzz"` matches neither. */
  lemma ContainmentExamples()
    ensures Listed("user.name", ["user"])
    ensures Listed("user", ["user.name"])
    ensures !Listed("user.name", ["zzz"])
    ensures Listed("user.name", [])
  {
    assert Contains("user.name", "user");
    assert Related("user.name", ["user"][0]);
    assert Related("user", ["user.name"][0]);
    MissingCharNotContained("user.name", "zzz", 'z');
    assert !Contains("zzz", "user.name");
  }
}
